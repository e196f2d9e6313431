/**
 * The endpoints that write to the database. `Database` stands for the
 * session: the three tables, updated in place the way the handlers update
 * them (a row's fields reassigned, or a row added). Each method is
 * specified by the value-level operation in module Store or Command, and
 * keeps the tables' invariant: one row per word and per topic, and the
 * concepts table in step with the experience log.
 */
module Service {
  import opened Wrappers
  import opened Models
  import opened Fetch
  import opened Command
  import opened Store

  /** The JSON reply of `teach`. */
  datatype TeachReply = TeachReply(message: string, word: string, labelText: string)

  class Database {
    var concepts: map<string, Concept>
    var experiences: seq<Experience>
    var knowledge: map<string, WebKnowledge>

    /** The unique columns are the keys, every experience is one `teach`
      * wrote, and the concepts are what the experiences say. */
    ghost predicate Valid()
      reads this
    {
      && KeyedByWord(concepts)
      && KeyedByTopic(knowledge)
      && AllTaught(experiences)
      && AgreesWithLog(concepts, experiences)
    }

    /** Freshly created, empty tables. */
    constructor ()
      ensures Valid()
      ensures concepts == map[] && experiences == [] && knowledge == map[]
    {
      concepts := map[];
      experiences := [];
      knowledge := map[];
    }

    /** `save_web_knowledge`: update the row for `topic` in place, or add
      * one, and return it. */
    method SaveWebKnowledge(topic: string, content: string, source: string) returns (record: WebKnowledge)
      requires Valid()
      modifies this
      ensures Valid()
      ensures knowledge == Upsert(old(knowledge), topic, content, source)
      ensures record == knowledge[topic] == WebKnowledge(topic, source, content)
      ensures concepts == old(concepts) && experiences == old(experiences)
    {
      if topic !in knowledge {
        record := NewWebKnowledge(topic, Some(source), content);
      } else {
        record := knowledge[topic];
        record := record.(summary := content);
        record := record.(source := source);
      }
      knowledge := knowledge[topic := record];
    }

    /** `teach`: bump or create the concept, log the experience. */
    method Teach(word: string, trueLabel: string) returns (reply: TeachReply)
      requires Valid()
      modifies this
      ensures Valid()
      ensures concepts == TeachConcept(old(concepts), word, trueLabel)
      ensures experiences == old(experiences) + [TaughtExperience(word, trueLabel)]
      ensures knowledge == old(knowledge)
      ensures reply == TeachReply("Baby learned!", word, trueLabel)
      ensures concepts[word].correctCount == concepts[word].seenCount >= 1
    {
      TeachKeepsAgreement(concepts, experiences, word, trueLabel);
      TeachKeepsLogTaught(experiences, word, trueLabel);
      var concept: Concept;
      if word !in concepts {
        concept := NewConcept(word, trueLabel, Some(1), Some(1));
      } else {
        concept := concepts[word];
        concept := concept.(labelText := trueLabel);
        concept := concept.(seenCount := concept.seenCount + 1);
        concept := concept.(correctCount := concept.correctCount + 1);
      }
      concepts := concepts[word := concept];
      var exp := NewExperience(word, trueLabel, trueLabel, Some(true));
      experiences := experiences + [exp];
      TaughtCounters(concepts, experiences, word);
      reply := TeachReply("Baby learned!", concept.word, concept.labelText);
    }

    /** `run_command`: interpret, fetch, save (on success and on failure
      * alike), reply. A refused command changes nothing. */
    method RunCommand(command: string, recipeApi: string -> Response<MealBody>, proxy: string -> Response<ProxyBody>)
      returns (res: Result<CommandReply, HttpError>)
      requires Valid()
      modifies this
      ensures Valid()
      ensures match Handle(command, recipeApi, proxy)
        case Err(e) => res == Err(e) && knowledge == old(knowledge)
        case Ok(o) =>
          && res == Ok(o.reply)
          && knowledge == Upsert(old(knowledge), o.record.topic, o.record.summary, o.record.source)
      ensures concepts == old(concepts) && experiences == old(experiences)
    {
      var text := Normalize(command);
      if text == [] {
        return Err(EmptyCommand);
      }
      var isRecipe := IsRecipe(text);
      var subject := ExtractSubject(text);
      if subject == [] {
        return Err(NoSubject);
      }
      var fetched: Fetched;
      var source: string;
      if isRecipe {
        fetched := FetchRecipe(subject, recipeApi(subject));
        source := SourceTag(Recipe, fetched.ok);
      } else {
        fetched := FetchViaPersonalProxy(subject, proxy(subject));
        source := SourceTag(Topic, fetched.ok);
      }
      var record := SaveWebKnowledge(subject, fetched.content, source);
      res := Ok(CommandReply("Command processed.", command, subject, fetched.ok, fetched.err, Preview(record.summary)));
    }
  }
}
