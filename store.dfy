/**
 * The table operations of the service, on the tables as values: the topic
 * upsert of `save_web_knowledge`, the lookup of `get_knowledge`, and the
 * concept upsert and log append of `teach`. The class in module Service
 * performs the same updates in place and is specified by these functions.
 */
module Store {
  import opened Wrappers
  import opened Models

  // ---------------- web_knowledge ----------------

  /** `save_web_knowledge`: overwrite summary and source of the row for
    * `topic`, or insert one. Afterwards the row for `topic` holds exactly
    * this call's values and every other row is as it was. */
  function Upsert(knowledge: map<string, WebKnowledge>, topic: string, content: string, source: string)
    : (r: map<string, WebKnowledge>)
    requires KeyedByTopic(knowledge)
    ensures KeyedByTopic(r)
    ensures r.Keys == knowledge.Keys + {topic}
    ensures r[topic] == WebKnowledge(topic, source, content)
    ensures forall t :: t in knowledge && t != topic ==> r[t] == knowledge[t]
  {
    if topic in knowledge then
      knowledge[topic := knowledge[topic].(summary := content, source := source)]
    else
      knowledge[topic := NewWebKnowledge(topic, Some(source), content)]
  }

  /** One call of `save_web_knowledge`. */
  datatype Write = Write(topic: string, content: string, source: string)

  /** A series of saves, oldest first. */
  function UpsertAll(knowledge: map<string, WebKnowledge>, writes: seq<Write>): (r: map<string, WebKnowledge>)
    requires KeyedByTopic(knowledge)
    ensures KeyedByTopic(r)
    decreases |writes|
  {
    if writes == [] then knowledge
    else
      var w := writes[|writes| - 1];
      Upsert(UpsertAll(knowledge, writes[..|writes| - 1]), w.topic, w.content, w.source)
  }

  /** Save `i` is to `topic`, and no later save is. */
  ghost predicate LatestTo(writes: seq<Write>, topic: string, i: int) {
    0 <= i < |writes| && writes[i].topic == topic && forall j :: i < j < |writes| ==> writes[j].topic != topic
  }

  /** The latest save to `topic` in a series, if there is one. */
  function LastWriteTo(writes: seq<Write>, topic: string): (r: Option<Write>)
    ensures r.Some? ==> r.value in writes && r.value.topic == topic
    ensures r.None? <==> forall i :: 0 <= i < |writes| ==> writes[i].topic != topic
    ensures r.Some? ==> exists i :: LatestTo(writes, topic, i) && writes[i] == r.value
    decreases |writes|
  {
    if writes == [] then None
    else if writes[|writes| - 1].topic == topic then
      assert LatestTo(writes, topic, |writes| - 1);
      Some(writes[|writes| - 1])
    else
      var earlier := writes[..|writes| - 1];
      var r := LastWriteTo(earlier, topic);
      LatestStaysLatest(writes, earlier, topic, r);
      r
  }

  /** The latest save to `topic` among all but the last save is still the
    * latest when the last save is to another topic. */
  lemma LatestStaysLatest(writes: seq<Write>, earlier: seq<Write>, topic: string, r: Option<Write>)
    requires writes != [] && earlier == writes[..|writes| - 1] && writes[|writes| - 1].topic != topic
    requires r.Some? ==> exists i :: LatestTo(earlier, topic, i) && earlier[i] == r.value
    ensures r.Some? ==> exists i :: LatestTo(writes, topic, i) && writes[i] == r.value
  {
    if r.Some? {
      var i :| LatestTo(earlier, topic, i) && earlier[i] == r.value;
      assert writes[i] == earlier[i];
      forall j | i < j < |writes| ensures writes[j].topic != topic {
        if j < |earlier| {
          assert writes[j] == earlier[j];
        }
      }
      assert LatestTo(writes, topic, i);
    }
  }

  /** Last writer wins: after a series of saves, the row for a topic holds
    * the latest save to it, or is untouched when there was none. Still one
    * row per topic, because the table stays keyed by topic. */
  lemma {:induction false} LastWriterWins(knowledge: map<string, WebKnowledge>, writes: seq<Write>, topic: string)
    requires KeyedByTopic(knowledge)
    ensures var r := UpsertAll(knowledge, writes);
      match LastWriteTo(writes, topic)
      case Some(w) => topic in r && r[topic] == WebKnowledge(topic, w.source, w.content)
      case None => (topic in r <==> topic in knowledge) && (topic in knowledge ==> r[topic] == knowledge[topic])
    decreases |writes|
  {
    if writes != [] {
      LastWriterWins(knowledge, writes[..|writes| - 1], topic);
    }
  }

  /** The JSON reply of `get_knowledge`. */
  datatype KnowledgeReply = KnowledgeReply(topic: string, source: string, summary: string)

  /** `get_knowledge(topic)`: the stored fields, or 404. */
  function GetKnowledge(knowledge: map<string, WebKnowledge>, topic: string): (r: Result<KnowledgeReply, HttpError>)
    ensures r.Ok? <==> topic in knowledge
    ensures r.Ok? ==> r.value == KnowledgeReply(knowledge[topic].topic, knowledge[topic].source, knowledge[topic].summary)
    ensures r.Err? ==> r.error == HttpError(404, "No stored knowledge for '" + topic + "'")
  {
    if topic !in knowledge then Err(HttpError(404, "No stored knowledge for '" + topic + "'"))
    else
      var record := knowledge[topic];
      Ok(KnowledgeReply(record.topic, record.source, record.summary))
  }

  /** Reading a topic right after saving it gives back what was saved. */
  lemma GetAfterUpsert(knowledge: map<string, WebKnowledge>, topic: string, content: string, source: string)
    requires KeyedByTopic(knowledge)
    ensures GetKnowledge(Upsert(knowledge, topic, content, source), topic) == Ok(KnowledgeReply(topic, source, content))
  {
  }

  /** Saving one topic changes what is read for no other topic. */
  lemma GetOtherAfterUpsert(knowledge: map<string, WebKnowledge>, topic: string, content: string, source: string, other: string)
    requires KeyedByTopic(knowledge)
    requires other != topic
    ensures GetKnowledge(Upsert(knowledge, topic, content, source), other) == GetKnowledge(knowledge, other)
  {
  }

  // ---------------- concepts and experiences ----------------

  /** The concept half of `teach`: a new word starts at one sighting, one
    * correct; a known word gets both counters bumped; the label becomes the
    * latest one taught; every other word is untouched. */
  function TeachConcept(concepts: map<string, Concept>, word: string, trueLabel: string): (r: map<string, Concept>)
    requires KeyedByWord(concepts)
    ensures KeyedByWord(r)
    ensures r.Keys == concepts.Keys + {word}
    ensures r[word].labelText == trueLabel
    ensures word !in concepts ==> r[word].seenCount == 1 && r[word].correctCount == 1
    ensures word in concepts ==>
      && r[word].seenCount == concepts[word].seenCount + 1
      && r[word].correctCount == concepts[word].correctCount + 1
    ensures forall w :: w in concepts && w != word ==> r[w] == concepts[w]
  {
    if word !in concepts then
      concepts[word := NewConcept(word, trueLabel, Some(1), Some(1))]
    else
      var c := concepts[word];
      concepts[word := c.(labelText := trueLabel, seenCount := c.seenCount + 1, correctCount := c.correctCount + 1)]
  }

  /** The experience `teach` appends: the guess is the true label and is
    * recorded as correct. */
  function TaughtExperience(word: string, trueLabel: string): (e: Experience)
    ensures e.word == word && e.trueLabel == trueLabel
    ensures e.aiGuess == e.trueLabel && e.wasCorrect
  {
    NewExperience(word, trueLabel, trueLabel, Some(true))
  }

  /** How many log entries are about `word`. */
  function CountSeen(log: seq<Experience>, word: string): nat
    decreases |log|
  {
    if log == [] then 0
    else CountSeen(log[..|log| - 1], word) + (if log[|log| - 1].word == word then 1 else 0)
  }

  /** How many log entries about `word` are marked correct. */
  function CountCorrect(log: seq<Experience>, word: string): nat
    decreases |log|
  {
    if log == [] then 0
    else CountCorrect(log[..|log| - 1], word) + (if log[|log| - 1].word == word && log[|log| - 1].wasCorrect then 1 else 0)
  }

  /** The true label of the latest log entry about `word`. */
  function LastLabel(log: seq<Experience>, word: string): string
    requires CountSeen(log, word) > 0
    decreases |log|
  {
    if log[|log| - 1].word == word then log[|log| - 1].trueLabel else LastLabel(log[..|log| - 1], word)
  }

  /** Every log entry is one `teach` wrote. */
  ghost predicate AllTaught(log: seq<Experience>) {
    forall i :: 0 <= i < |log| ==> log[i].aiGuess == log[i].trueLabel && log[i].wasCorrect
  }

  /** The concepts table is what the log says: one row per word ever
    * taught, counting its entries, with the latest label. */
  ghost predicate AgreesWithLog(concepts: map<string, Concept>, log: seq<Experience>) {
    && (forall w :: CountSeen(log, w) > 0 ==> w in concepts)
    && (forall w :: w in concepts ==>
          && CountSeen(log, w) > 0
          && concepts[w] == Concept(w, LastLabel(log, w), CountSeen(log, w), CountCorrect(log, w)))
  }

  /** In any log, no word has more correct entries than entries. */
  lemma {:induction false} CorrectAtMostSeen(log: seq<Experience>, word: string)
    ensures CountCorrect(log, word) <= CountSeen(log, word)
    decreases |log|
  {
    if log != [] {
      CorrectAtMostSeen(log[..|log| - 1], word);
    }
  }

  /** In a log that only `teach` wrote, every entry about a word is correct. */
  lemma {:induction false} CorrectEqualsSeen(log: seq<Experience>, word: string)
    requires AllTaught(log)
    ensures CountCorrect(log, word) == CountSeen(log, word)
    decreases |log|
  {
    if log != [] {
      var prefix := log[..|log| - 1];
      assert AllTaught(prefix) by {
        forall i | 0 <= i < |prefix| ensures prefix[i].aiGuess == prefix[i].trueLabel && prefix[i].wasCorrect {
          assert prefix[i] == log[i];
        }
      }
      CorrectEqualsSeen(prefix, word);
    }
  }

  /** `teach` keeps the concepts table in step with the log it appends to. */
  lemma TeachKeepsAgreement(concepts: map<string, Concept>, log: seq<Experience>, word: string, trueLabel: string)
    requires KeyedByWord(concepts) && AgreesWithLog(concepts, log)
    ensures AgreesWithLog(TeachConcept(concepts, word, trueLabel), log + [TaughtExperience(word, trueLabel)])
  {
    var log' := log + [TaughtExperience(word, trueLabel)];
    assert log'[..|log'| - 1] == log;
    var r := TeachConcept(concepts, word, trueLabel);
    forall w | CountSeen(log', w) > 0 ensures w in r {
    }
    forall w | w in r
      ensures CountSeen(log', w) > 0
      ensures r[w] == Concept(w, LastLabel(log', w), CountSeen(log', w), CountCorrect(log', w))
    {
      assert CountSeen(log', w) == CountSeen(log, w) + (if w == word then 1 else 0);
      assert CountCorrect(log', w) == CountCorrect(log, w) + (if w == word then 1 else 0);
      if w == word {
        CorrectAtMostSeen(log, w);
        assert LastLabel(log', w) == trueLabel;
      } else {
        assert LastLabel(log', w) == LastLabel(log, w);
      }
    }
  }

  /** The invariant `correct_count == seen_count >= 1` of every concept row. */
  lemma TaughtCounters(concepts: map<string, Concept>, log: seq<Experience>, word: string)
    requires AgreesWithLog(concepts, log) && AllTaught(log)
    requires word in concepts
    ensures concepts[word].correctCount == concepts[word].seenCount >= 1
  {
    CorrectEqualsSeen(log, word);
  }

  /** `teach` appends only entries `teach` writes. */
  lemma TeachKeepsLogTaught(log: seq<Experience>, word: string, trueLabel: string)
    requires AllTaught(log)
    ensures AllTaught(log + [TaughtExperience(word, trueLabel)])
  {
  }
}
