/**
 * The `/command` endpoint without its database write: how a free-text
 * command becomes an intent and a subject, which helper is asked, which
 * provenance tag the outcome gets, and what the reply holds.
 */
module Command {
  import opened Wrappers
  import opened Text
  import opened Models
  import opened Fetch

  datatype Intent = Recipe | Topic

  /** What a well-formed command asks for. */
  datatype Request = Request(intent: Intent, subject: string)

  /** The JSON reply of `/command`. */
  datatype CommandReply = CommandReply(
    message: string,
    originalCommand: string,
    topicOrDish: string,
    fromInternet: bool,
    debugError: Option<string>,
    storedSummaryPreview: string)

  /** What one command leads to: the row it writes and the reply it sends. */
  datatype Outcome = Outcome(record: WebKnowledge, reply: CommandReply)

  /** A command mentioning any of these, anywhere, asks for a recipe. */
  const Keywords: seq<string> := ["cook", "recipe", "make"]

  /** The prefixes tried, in this order, each one on what the previous left. */
  const Prefixes: seq<string> := [
    "go and learn how to cook",
    "learn how to cook",
    "how to cook",
    "learn recipe for",
    "recipe for",
    "learn about",
    "know about",
    "learn"
  ]

  const PreviewLength: nat := 350

  const EmptyCommand: HttpError := HttpError(400, "Command cannot be empty.")
  const NoSubject: HttpError := HttpError(400, "Could not detect topic/dish.")

  /** `command.lower().strip()`. The result is empty exactly when the
    * command is nothing but whitespace. */
  function Normalize(command: string): (text: string)
    ensures |text| <= |command|
    ensures IsStripped(text)
    ensures NoUpper(text)
    ensures text == [] <==> AllSpace(command)
    ensures IsStripOf(Lower(command), text)
  {
    NormalizeFacts(command);
    Strip(Lower(command))
  }

  /** What lower-casing adds to the contract of `Strip`: no upper case in the
    * result, and emptiness still means an all-whitespace command. */
  lemma NormalizeFacts(command: string)
    ensures |Lower(command)| == |command|
    ensures NoUpper(Strip(Lower(command)))
    ensures Strip(Lower(command)) == [] <==> AllSpace(command)
  {
    LowerKeepsSpace(command);
    StripKeepsNoUpper(Lower(command));
  }

  /** Stripping a string without upper-case letters leaves none. */
  lemma StripKeepsNoUpper(s: string)
    requires NoUpper(s)
    ensures NoUpper(Strip(s))
  {
    StripChars(s);
  }

  /** Lower-casing keeps a string all whitespace, or not. */
  lemma LowerKeepsSpace(command: string)
    ensures AllSpace(Lower(command)) <==> AllSpace(command)
  {
    var lowered := Lower(command);
    assert forall k :: 0 <= k < |command| ==> IsSpace(lowered[k]) == IsSpace(command[k]);
  }

  /** `any(word in text for word in ["cook", "recipe", "make"])`. */
  predicate IsRecipe(text: string) {
    exists kw :: kw in Keywords && Contains(text, kw)
  }

  /** The recipe test looks for a keyword at every position of the text. */
  lemma IsRecipeIff(text: string)
    ensures IsRecipe(text) <==> exists kw, i :: kw in Keywords && OccursAt(text, kw, i)
  {
    forall kw | kw in Keywords {
      ContainsIff(text, kw);
    }
  }

  /** One round of the loop: if `s.startswith(p)`, drop `p` and strip. What
    * remains after `p` is whitespace, then the result, then whitespace. */
  function StripPrefix(s: string, p: string): (r: string)
    ensures p <= s ==> IsStripped(r) && |r| <= |s| - |p|
    ensures p <= s ==> IsStripOf(s[|p|..], r)
    ensures !(p <= s) ==> r == s
  {
    if p <= s then Strip(s[|p|..]) else s
  }

  /** The whole loop: every prefix in turn, each tested on what the ones
    * before it left. Never longer than the text, and stripped text stays
    * stripped. */
  function StripPrefixes(s: string, ps: seq<string>): (r: string)
    ensures |r| <= |s|
    ensures IsStripped(s) ==> IsStripped(r)
    decreases |ps|
  {
    if ps == [] then s else StripPrefixes(StripPrefix(s, ps[0]), ps[1..])
  }

  /** A text that starts with none of the prefixes is left as it is. */
  lemma {:induction false} NoPrefixNoChange(s: string, ps: seq<string>)
    requires forall i :: 0 <= i < |ps| ==> !(ps[i] <= s)
    ensures StripPrefixes(s, ps) == s
    decreases |ps|
  {
    if ps != [] {
      assert !(ps[0] <= s);
      NoPrefixNoChange(s, ps[1..]);
    }
  }

  /** `if s.endswith("."): s = s[:-1]` — one dot at most, no strip after. */
  function DropTrailingDot(s: string): (r: string)
    ensures EndsWithDot(s) ==> r + "." == s
    ensures !EndsWithDot(s) ==> r == s
  {
    if EndsWithDot(s) then s[..|s| - 1] else s
  }

  /** The topic or dish a normalised command is about. */
  function Subject(text: string): (subject: string)
    ensures |subject| <= |text|
  {
    DropTrailingDot(StripPrefixes(text, Prefixes))
  }

  /** One more round of the loop, on a suffix of the prefix list. */
  lemma StripPrefixesStep(s: string, ps: seq<string>, i: nat)
    requires i < |ps|
    ensures StripPrefixes(s, ps[i..]) == StripPrefixes(StripPrefix(s, ps[i]), ps[i + 1..])
  {
    assert ps[i..][0] == ps[i];
    assert ps[i..][1..] == ps[i + 1..];
  }

  /** The extraction loop as written: one variable rewritten once per prefix. */
  method ExtractSubject(text: string) returns (subject: string)
    ensures subject == Subject(text)
  {
    subject := text;
    var i := 0;
    while i < |Prefixes|
      invariant 0 <= i <= |Prefixes|
      invariant StripPrefixes(subject, Prefixes[i..]) == StripPrefixes(text, Prefixes)
    {
      var prefix := Prefixes[i];
      StripPrefixesStep(subject, Prefixes, i);
      if prefix <= subject {
        subject := Strip(subject[|prefix|..]);
      }
      i := i + 1;
    }
    if EndsWithDot(subject) {
      subject := subject[..|subject| - 1];
    }
  }

  /** What a command asks for, or why it is refused with status 400. */
  function Interpret(command: string): (r: Result<Request, HttpError>)
    ensures r == Err(EmptyCommand) <==> AllSpace(command)
    ensures r == Err(NoSubject) <==> Normalize(command) != [] && Subject(Normalize(command)) == []
    ensures r.Err? ==> r.error == EmptyCommand || r.error == NoSubject
    ensures r.Ok? ==> r.value.subject == Subject(Normalize(command))
    ensures r.Ok? ==> r.value.subject != [] && |r.value.subject| <= |Normalize(command)| <= |command|
    ensures r.Ok? ==> (r.value.intent == Recipe <==> IsRecipe(Normalize(command)))
  {
    var text := Normalize(command);
    if text == [] then Err(EmptyCommand)
    else
      var subject := Subject(text);
      if subject == [] then Err(NoSubject)
      else Ok(Request(if IsRecipe(text) then Recipe else Topic, subject))
  }

  /** A provenance tag that records a failed fetch. */
  predicate IsFallbackTag(tag: string) {
    |tag| >= 9 && tag[|tag| - 9..] == "_fallback"
  }

  /** The provenance tag stored with the summary. */
  function SourceTag(intent: Intent, ok: bool): (tag: string)
    ensures ok <==> !IsFallbackTag(tag)
  {
    match intent
    case Recipe => if ok then "recipe_api" else "recipe_fallback"
    case Topic => if ok then "personal_proxy" else "proxy_fallback"
  }

  /** The tag alone tells which helper ran and whether it succeeded. */
  lemma SourceTagDetermines(i1: Intent, ok1: bool, i2: Intent, ok2: bool)
    ensures SourceTag(i1, ok1) == SourceTag(i2, ok2) ==> i1 == i2 && ok1 == ok2
  {
    var t1, t2 := SourceTag(i1, ok1), SourceTag(i2, ok2);
    if t1 == t2 {
      assert t1[0] == t2[0] && t1[1] == t2[1];
    }
  }

  /** `summary[:350]`: the first 350 characters, or all of a shorter summary. */
  function Preview(summary: string): (p: string)
    ensures p <= summary
    ensures |p| == if |summary| < PreviewLength then |summary| else PreviewLength
  {
    if |summary| <= PreviewLength then summary else summary[..PreviewLength]
  }

  /** The helper for the intent, asked about the subject. The two endpoints
    * stand for whatever the network answers to a given query. */
  function FetchFor(request: Request, recipeApi: string -> Response<MealBody>, proxy: string -> Response<ProxyBody>): (f: Fetched)
    ensures request.intent == Recipe ==> f == FetchRecipe(request.subject, recipeApi(request.subject))
    ensures request.intent == Topic ==> f == FetchViaPersonalProxy(request.subject, proxy(request.subject))
    ensures f.ok <==> f.err.None?
    ensures !f.ok ==> FallbackMark <= f.content
  {
    match request.intent
    case Recipe => FetchRecipe(request.subject, recipeApi(request.subject))
    case Topic => FetchViaPersonalProxy(request.subject, proxy(request.subject))
  }

  /** The whole command: the refusal, or the row written and the reply. A
    * failed fetch is written too, with its placeholder and a fallback tag. */
  function Handle(command: string, recipeApi: string -> Response<MealBody>, proxy: string -> Response<ProxyBody>)
    : (r: Result<Outcome, HttpError>)
    ensures r.Err? <==> Interpret(command).Err?
    ensures r.Err? ==> r.error == Interpret(command).error
    ensures r.Ok? ==>
      var request, o := Interpret(command).value, r.value;
      var f := FetchFor(request, recipeApi, proxy);
      && o.record.topic == o.reply.topicOrDish == request.subject
      && o.record.summary == f.content
      && o.reply.fromInternet == f.ok
      && o.reply.debugError == f.err
      && o.reply.message == "Command processed."
      && o.reply.originalCommand == command
      && (o.reply.fromInternet <==> o.reply.debugError.None?)
      && (o.reply.fromInternet <==> !IsFallbackTag(o.record.source))
      && (!o.reply.fromInternet ==> FallbackMark <= o.record.summary)
      && o.record.source == SourceTag(request.intent, o.reply.fromInternet)
      && o.reply.storedSummaryPreview == Preview(o.record.summary)
  {
    match Interpret(command)
    case Err(e) => Err(e)
    case Ok(request) =>
      var f := FetchFor(request, recipeApi, proxy);
      var record := WebKnowledge(request.subject, SourceTag(request.intent, f.ok), f.content);
      Ok(Outcome(record, CommandReply("Command processed.", command, request.subject, f.ok, f.err, Preview(record.summary))))
  }
}
