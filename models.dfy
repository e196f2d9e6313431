/**
 * The three tables of the service, as rows. Each table whose column is
 * declared unique is held as a map from that column to its row; the
 * predicates `KeyedByWord` and `KeyedByTopic` say the map's key is the
 * row's own column, which is what makes the column unique. Surrogate
 * integer primary keys are not modelled: every access goes through the
 * unique column.
 */
module Models {
  import opened Wrappers

  /** A row of `concepts`: what has been taught about one word. */
  datatype Concept = Concept(word: string, labelText: string, seenCount: int, correctCount: int)

  /** A row of `experiences`: one teaching event. */
  datatype Experience = Experience(word: string, trueLabel: string, aiGuess: string, wasCorrect: bool)

  /** A row of `web_knowledge`: the stored summary of one topic and where it came from. */
  datatype WebKnowledge = WebKnowledge(topic: string, source: string, summary: string)

  /** Column defaults, applied when a row is inserted without that column. */
  const DefaultSeenCount: int := 0
  const DefaultCorrectCount: int := 0
  const DefaultWasCorrect: bool := false
  const DefaultSource: string := "wikipedia"

  /** The value a column takes on insert: the one supplied, or its default. */
  function ColumnValue<T>(supplied: Option<T>, default: T): (v: T)
    ensures supplied.Some? ==> v == supplied.value
    ensures supplied.None? ==> v == default
  {
    match supplied
    case Some(x) => x
    case None => default
  }

  /** Inserting a `Concept`, with the counters optional. */
  function NewConcept(word: string, labelText: string, seenCount: Option<int>, correctCount: Option<int>): (c: Concept)
    ensures c.word == word && c.labelText == labelText
    ensures seenCount.None? ==> c.seenCount == 0
    ensures correctCount.None? ==> c.correctCount == 0
    ensures seenCount.Some? ==> c.seenCount == seenCount.value
    ensures correctCount.Some? ==> c.correctCount == correctCount.value
  {
    Concept(word, labelText, ColumnValue(seenCount, DefaultSeenCount), ColumnValue(correctCount, DefaultCorrectCount))
  }

  /** Inserting an `Experience`, with `was_correct` optional. */
  function NewExperience(word: string, trueLabel: string, aiGuess: string, wasCorrect: Option<bool>): (e: Experience)
    ensures e.word == word && e.trueLabel == trueLabel && e.aiGuess == aiGuess
    ensures wasCorrect.None? ==> !e.wasCorrect
    ensures wasCorrect.Some? ==> e.wasCorrect == wasCorrect.value
  {
    Experience(word, trueLabel, aiGuess, ColumnValue(wasCorrect, DefaultWasCorrect))
  }

  /** Inserting a `WebKnowledge` row, with `source` optional. */
  function NewWebKnowledge(topic: string, source: Option<string>, summary: string): (k: WebKnowledge)
    ensures k.topic == topic && k.summary == summary
    ensures source.None? ==> k.source == "wikipedia"
    ensures source.Some? ==> k.source == source.value
  {
    WebKnowledge(topic, ColumnValue(source, DefaultSource), summary)
  }

  /** The `concepts` table, keyed by its unique column `word`. */
  ghost predicate KeyedByWord(concepts: map<string, Concept>) {
    forall w :: w in concepts ==> concepts[w].word == w
  }

  /** The `web_knowledge` table, keyed by its unique column `topic`. */
  ghost predicate KeyedByTopic(knowledge: map<string, WebKnowledge>) {
    forall t :: t in knowledge ==> knowledge[t].topic == t
  }

  /** At most one concept per word. */
  lemma AtMostOneConceptPerWord(concepts: map<string, Concept>, c1: Concept, c2: Concept)
    requires KeyedByWord(concepts)
    requires c1 in concepts.Values && c2 in concepts.Values
    ensures c1.word == c2.word ==> c1 == c2
  {
    var w1 :| w1 in concepts && concepts[w1] == c1;
    var w2 :| w2 in concepts && concepts[w2] == c2;
  }

  /** At most one knowledge record per topic. */
  lemma AtMostOneRecordPerTopic(knowledge: map<string, WebKnowledge>, k1: WebKnowledge, k2: WebKnowledge)
    requires KeyedByTopic(knowledge)
    requires k1 in knowledge.Values && k2 in knowledge.Values
    ensures k1.topic == k2.topic ==> k1 == k2
  {
    var t1 :| t1 in knowledge && knowledge[t1] == k1;
    var t2 :| t2 in knowledge && knowledge[t2] == k2;
  }
}
