/**
 * What the command handler does with particular commands: cumulative
 * prefix stripping, the commands left without a subject, a command that
 * keeps its keyword in the subject, and a recipe request followed from the
 * command text to the row it writes. The concrete commands are passed as
 * parameters pinned by a precondition, which keeps the verifier from
 * evaluating the string functions on literals.
 */
module Scenarios {
  import opened Wrappers
  import opened Text
  import opened Models
  import opened Fetch
  import opened Command
  import opened Store

  // ---------------- proof steps ----------------

  /** A prefix followed by one space leaves the (stripped) rest. */
  lemma StripPrefixBeforeSpace(p: string, rest: string)
    requires IsStripped(rest)
    ensures StripPrefix(p + " " + rest, p) == rest
  {
    var s := p + " " + rest;
    assert s[..|p|] == p;
    assert s[|p|..] == [' '] + rest;
    StripAfterSpace(rest);
  }

  /** A string that differs from `p` at some position does not start with `p`. */
  lemma NotPrefixAt(p: string, s: string, i: nat)
    requires i < |p| && i < |s| && p[i] != s[i]
    ensures !(p <= s)
  {
  }

  /** A prefix that does not match is skipped. */
  lemma Skip(s: string, ps: seq<string>)
    requires ps != [] && !(ps[0] <= s)
    ensures StripPrefixes(s, ps) == StripPrefixes(s, ps[1..])
  {
  }

  /** A prefix that matches is removed before the next one is tried. */
  lemma Take(s: string, ps: seq<string>)
    requires ps != [] && ps[0] <= s
    ensures StripPrefixes(s, ps) == StripPrefixes(StripPrefix(s, ps[0]), ps[1..])
  {
  }

  /** The first `k` prefixes, none of which matches, are all skipped. */
  lemma {:induction false} SkipFirst(s: string, ps: seq<string>, k: nat)
    requires k <= |ps|
    requires forall i :: 0 <= i < k ==> !(ps[i] <= s)
    ensures StripPrefixes(s, ps) == StripPrefixes(s, ps[k..])
    decreases k
  {
    if k > 0 {
      assert ps[1..][k - 1..] == ps[k..];
      SkipFirst(s, ps[1..], k - 1);
    }
  }

  /** The second prefix matches after the first did not, and nothing after it
    * touches what is left. */
  lemma SkipThenTake(s: string, ps: seq<string>, rest: string)
    requires |ps| >= 2 && !(ps[0] <= s) && s == ps[1] + " " + rest && IsStripped(rest)
    requires forall i :: 2 <= i < |ps| ==> !(ps[i] <= rest)
    ensures StripPrefixes(s, ps) == rest
  {
    Skip(s, ps);
    assert ps[1..][0] == ps[1];
    Take(s, ps[1..]);
    StripPrefixBeforeSpace(ps[1], rest);
    assert ps[1..][1..] == ps[2..];
    NoPrefixNoChange(rest, ps[2..]);
  }

  /** A command already in normal form is its own normalisation. */
  lemma NormalizeOfNormal(text: string)
    requires IsStripped(text)
    requires NoUpper(text)
    ensures Normalize(text) == text
  {
    assert Lower(text) == text;
  }

  /** A command in normal form that leaves no subject is refused with 400. */
  lemma NoSubjectRefused(command: string)
    requires Normalize(command) == command != []
    requires Subject(command) == []
    ensures Interpret(command) == Err(NoSubject)
  {
  }

  // ---------------- subjects ----------------

  /** "learn how to cook X" asks about X, for any X the later prefixes leave alone. */
  lemma LearnHowToCookSubject(dish: string)
    requires dish != [] && IsStripped(dish) && !EndsWithDot(dish)
    requires forall i :: 2 <= i < |Prefixes| ==> !(Prefixes[i] <= dish)
    ensures Subject("learn how to cook " + dish) == dish
  {
    var s := "learn how to cook " + dish;
    assert s[0] != Prefixes[0][0];
    SkipThenTake(s, Prefixes, dish);
  }

  /** "learn how to cook dal" asks about "dal". */
  lemma DalSubject(command: string)
    requires command == "learn how to cook dal"
    ensures Subject(command) == "dal"
  {
    forall i | 2 <= i < |Prefixes| ensures !(Prefixes[i] <= "dal") {
      NotPrefixAt(Prefixes[i], "dal", 0);
    }
    assert command[0] != Prefixes[0][0];
    assert command == Prefixes[1] + " " + "dal";
    SkipThenTake(command, Prefixes, "dal");
  }

  /** Five prefixes skipped, the sixth taken, the seventh skipped and the
    * last taken: what the last one leaves is the result. */
  lemma TakeSixthAndLast(s: string, ps: seq<string>, mid: string, x: string)
    requires |ps| == 8
    requires forall i :: 0 <= i < 5 ==> !(ps[i] <= s)
    requires s == ps[5] + " " + mid && IsStripped(mid)
    requires !(ps[6] <= mid)
    requires mid == ps[7] + " " + x && IsStripped(x)
    ensures StripPrefixes(s, ps) == x
  {
    SkipFirst(s, ps, 5);
    StripPrefixBeforeSpace(ps[5], mid);
    Take(s, ps[5..]);
    var rest := ps[5..][1..];
    assert rest == ps[6..] && rest[0] == ps[6] && rest[1] == ps[7] && |rest| == 2;
    SkipThenTake(mid, rest, x);
  }

  /** "learn about learn X" starts with none of the first five prefixes. */
  lemma LearnAboutSkipsFirstFive(s: string, x: string)
    requires s == "learn about learn " + x
    ensures forall i :: 0 <= i < 5 ==> !(Prefixes[i] <= s)
  {
    forall i | 0 <= i < 5 ensures !(Prefixes[i] <= s) {
      if i == 1 || i == 3 { NotPrefixAt(Prefixes[i], s, 6); } else { NotPrefixAt(Prefixes[i], s, 0); }
    }
  }

  /** Stripping is cumulative: after "learn about" goes, "learn" is tried on
    * what is left, so "learn about learn X" asks about X, not "learn X". */
  lemma CumulativeStripping(x: string)
    requires x != [] && IsStripped(x) && !EndsWithDot(x)
    ensures Subject("learn about learn " + x) == x
  {
    var s := "learn about learn " + x;
    var mid := "learn " + x;
    LearnAboutSkipsFirstFive(s, x);
    assert s == Prefixes[5] + " " + mid;
    assert mid == Prefixes[7] + " " + x;
    assert IsStripped(mid);
    NotPrefixAt(Prefixes[6], mid, 0);
    TakeSixthAndLast(s, Prefixes, mid, x);
  }

  /** The trailing dot goes, but the space before it stays: the text is not
    * stripped again after the dot is dropped. */
  lemma DotAfterSpaceLeavesSpace(x: string)
    requires x != [] && IsStripped(x)
    requires forall i :: 0 <= i < |Prefixes| ==> !(Prefixes[i] <= x + " .")
    ensures Subject(x + " .") == x + " "
  {
    NoPrefixNoChange(x + " .", Prefixes);
    assert (x + " .")[..|x| + 1] == x + " ";
  }

  /** Only the last prefix matches, and it leaves `tail`. */
  lemma OnlyLastMatches(s: string, ps: seq<string>, tail: string)
    requires ps != []
    requires forall i :: 0 <= i < |ps| - 1 ==> !(ps[i] <= s)
    requires s == ps[|ps| - 1] + tail && IsStripped(tail)
    ensures StripPrefixes(s, ps) == tail
  {
    var k := |ps| - 1;
    SkipFirst(s, ps, k);
    assert ps[k..] == [ps[k]];
    assert s[|ps[k]|..] == tail;
  }

  /** "learn" and "learn." are longer than no prefix but the last. */
  lemma BareLearnSkipsLongPrefixes(s: string)
    requires s == "learn" || s == "learn."
    ensures forall i :: 0 <= i < |Prefixes| - 1 ==> !(Prefixes[i] <= s)
  {
    forall i | 0 <= i < |Prefixes| - 1 ensures !(Prefixes[i] <= s) {
      assert |Prefixes[i]| > |s|;
    }
  }

  lemma BareLearnSubject(s: string)
    requires s == "learn" || s == "learn."
    ensures Subject(s) == []
  {
    BareLearnSkipsLongPrefixes(s);
    var tail := s[5..];
    assert s == Prefixes[|Prefixes| - 1] + tail;
    assert tail == [] || tail == ".";
    OnlyLastMatches(s, Prefixes, tail);
  }

  lemma BareLearnIsNormal(command: string)
    requires command == "learn" || command == "learn."
    ensures Normalize(command) == command
  {
    assert command[0] == 'l';
    assert command[|command| - 1] == 'n' || command[|command| - 1] == '.';
    assert IsStripped(command);
    forall i | 0 <= i < |command| ensures !IsUpper(command[i]) {
      assert command[i] in "learn.";
    }
    NormalizeOfNormal(command);
  }

  /** A bare "learn", or "learn.", leaves no subject: the command is refused
    * with "Could not detect topic/dish." (and `RunCommand` writes nothing). */
  lemma LearnAloneHasNoSubject(command: string)
    requires command == "learn" || command == "learn."
    ensures Interpret(command) == Err(NoSubject)
  {
    BareLearnSubject(command);
    BareLearnIsNormal(command);
    NoSubjectRefused(command);
  }

  /** "make X" matches no prefix, so the keyword stays in the dish name: the
    * recipe API is asked about "make X", not about X. */
  lemma MakeKeepsKeyword(x: string)
    requires !EndsWithDot(x)
    ensures Subject("make " + x) == "make " + x
    ensures IsRecipe("make " + x)
  {
    var s := "make " + x;
    MakeMatchesNoPrefix(s, x);
    NoPrefixNoChange(s, Prefixes);
    assert s[|s| - 1] == if x == [] then ' ' else x[|x| - 1];
    assert "make" <= s;
    assert "make" in Keywords;
  }

  /** No prefix starts with "m". */
  lemma MakeMatchesNoPrefix(s: string, x: string)
    requires s == "make " + x
    ensures forall i :: 0 <= i < |Prefixes| ==> !(Prefixes[i] <= s)
  {
    forall i | 0 <= i < |Prefixes| ensures !(Prefixes[i] <= s) {
      NotPrefixAt(Prefixes[i], s, 0);
    }
  }

  // ---------------- a whole command ----------------

  /** A recipe command whose lookup finds a meal writes the first meal's
    * text under the dish, tagged "recipe_api", and says so in the reply. */
  lemma RecipeFoundIsStored(command: string, dish: string, meal: Meal,
                            recipeApi: string -> Response<MealBody>, proxy: string -> Response<ProxyBody>)
    requires Normalize(command) == command != []
    requires Subject(command) == dish != []
    requires IsRecipe(command)
    requires recipeApi(dish) == Reply(StatusOk, MealJson(Present([meal])))
    ensures var text := RecipeText(dish, meal);
      Handle(command, recipeApi, proxy)
      == Ok(Outcome(WebKnowledge(dish, "recipe_api", text),
                    CommandReply("Command processed.", command, dish, true, None, Preview(text))))
  {
  }

  /** A recipe command whose lookup raises writes a placeholder tagged
    * "recipe_fallback" under the dish, and the reply carries the reason. */
  lemma RecipeFailureIsStored(command: string, dish: string, reason: string,
                              recipeApi: string -> Response<MealBody>, proxy: string -> Response<ProxyBody>)
    requires Normalize(command) == command != []
    requires Subject(command) == dish != []
    requires IsRecipe(command)
    requires recipeApi(dish) == Raised(reason)
    ensures Handle(command, recipeApi, proxy).Ok?
    ensures var o := Handle(command, recipeApi, proxy).value;
      && o.record.topic == dish
      && o.record.source == "recipe_fallback"
      && FallbackMark <= o.record.summary
      && !o.reply.fromInternet
      && o.reply.debugError == Some(reason)
  {
  }

  /** A topic command whose proxy answers with content stores that content
    * under the topic, tagged "personal_proxy", and reports success. */
  lemma TopicFoundIsStored(command: string, topic: string, error: Field<string>, content: string,
                           recipeApi: string -> Response<MealBody>, proxy: string -> Response<ProxyBody>)
    requires Normalize(command) == command != []
    requires Subject(command) == topic != []
    requires !IsRecipe(command)
    requires !Truthy(error) && content != []
    requires proxy(topic) == Reply(StatusOk, ProxyJson(error, Present(content)))
    ensures Handle(command, recipeApi, proxy)
      == Ok(Outcome(WebKnowledge(topic, "personal_proxy", content),
                    CommandReply("Command processed.", command, topic, true, None, Preview(content))))
  {
  }

  /** A topic command whose proxy request raises stores a placeholder tagged
    * "proxy_fallback" under the topic, and the reply carries the reason. */
  lemma TopicFailureIsStored(command: string, topic: string, reason: string,
                             recipeApi: string -> Response<MealBody>, proxy: string -> Response<ProxyBody>)
    requires Normalize(command) == command != []
    requires Subject(command) == topic != []
    requires !IsRecipe(command)
    requires proxy(topic) == Raised(reason)
    ensures Handle(command, recipeApi, proxy).Ok?
    ensures var o := Handle(command, recipeApi, proxy).value;
      && o.record.topic == topic
      && o.record.source == "proxy_fallback"
      && FallbackMark <= o.record.summary
      && Contains(o.record.summary, Quoted(topic))
      && !o.reply.fromInternet
      && o.reply.debugError == Some(reason)
  {
  }

  lemma DalCommandIsNormal(command: string)
    requires command == "learn how to cook dal"
    ensures Normalize(command) == command
  {
    assert command[0] == 'l' && command[|command| - 1] == 'l';
    assert IsStripped(command);
    forall i | 0 <= i < |command| ensures !IsUpper(command[i]) {
      assert command[i] in "learn howtockd";
    }
    NormalizeOfNormal(command);
  }

  lemma DalCommandIsRecipe(command: string)
    requires command == "learn how to cook dal"
    ensures IsRecipe(command)
  {
    assert command == "learn how to " + "cook" + " dal";
    ContainsSplit("learn how to ", "cook", " dal");
    assert "cook" in Keywords;
  }

  /** A recipe command answered with a meal stores the recipe for its dish;
    * the same command repeated while the API is down overwrites that same
    * row with a placeholder: still one row for the dish, now tagged as a
    * fallback. */
  lemma RecipeTwice(command: string, dish: string, meal: Meal, reason: string,
                    up: string -> Response<MealBody>, down: string -> Response<MealBody>,
                    proxy: string -> Response<ProxyBody>, knowledge: map<string, WebKnowledge>)
    requires Normalize(command) == command != []
    requires Subject(command) == dish != []
    requires IsRecipe(command)
    requires up(dish) == Reply(StatusOk, MealJson(Present([meal])))
    requires down(dish) == Raised(reason)
    requires KeyedByTopic(knowledge)
    ensures Handle(command, up, proxy).Ok? && Handle(command, down, proxy).Ok?
    ensures var first := Handle(command, up, proxy).value.record;
      var second := Handle(command, down, proxy).value.record;
      var k1 := Upsert(knowledge, first.topic, first.summary, first.source);
      var k2 := Upsert(k1, second.topic, second.summary, second.source);
      && k1[dish] == WebKnowledge(dish, "recipe_api", RecipeText(dish, meal))
      && k2.Keys == k1.Keys == knowledge.Keys + {dish}
      && k2[dish].source == "recipe_fallback"
      && FallbackMark <= k2[dish].summary
  {
    RecipeFoundIsStored(command, dish, meal, up, proxy);
    RecipeFailureIsStored(command, dish, reason, down, proxy);
  }
}
