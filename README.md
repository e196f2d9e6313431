# Web Baby AI backend — command pipeline, fetch helpers and tables in Dafny

This project models the core of a small FastAPI service that learns from
commands. A user teaches word → label associations (`/teach`), or sends a
free-text command (`/command`) such as "learn how to cook dal" or "learn
about black holes". The service:

- decides whether the command asks for a recipe or a topic;
- extracts the dish or topic by stripping a fixed, ordered list of prefixes;
- fetches content from a recipe API or from a personal proxy;
- stores the result, success or placeholder, in a `web_knowledge` table keyed
  by topic;
- answers with a short preview.

`/knowledge/{topic}` reads a stored row back.

The model has eight modules, one file each:

| file | module | models |
|---|---|---|
| `wrappers.dfy` | `Wrappers` | `Option`, `Result`, and `HttpError` (an `HTTPException`'s status and detail) |
| `text.dfy` | `Text` | the Python `str` operations the handler uses: `lower()`, `strip()`, `endswith`, `w in s`, `str(n)` |
| `models.dfy` | `Models` | the rows of `concepts`, `experiences` and `web_knowledge`, with their column defaults, and the unique columns as map keys |
| `fetch.dfy` | `Fetch` | `fetch_via_personal_proxy` and `fetch_recipe`, as functions of what the HTTP exchange produced |
| `command.dfy` | `Command` | the `/command` pipeline as values: normalise, classify, strip prefixes, drop one dot, tag, preview |
| `store.dfy` | `Store` | the table updates as values: topic upsert, lookup, concept upsert, experience log |
| `service.dfy` | `Service` | class `Database`, the session; `save_web_knowledge`, `teach` and `run_command` update its tables in place |
| `scenarios.dfy` | `Scenarios` | concrete commands followed through the pipeline |

The network is a parameter. A `Response` is either `Raised(reason)` (the
request or `r.json()` threw) or `Reply(status, body)`, where the body is the
decoded JSON. `RunCommand` receives the recipe API and the proxy as
functions from the query string to a `Response`.

Behaviour of the code that is easy to misread:

- Prefix stripping is cumulative. Every prefix in the list is tried in turn on
  what the previous ones left, not only the first match. So "learn about
  learn x" asks about "x" (`Scenarios.CumulativeStripping`).
- After the trailing dot is dropped, the subject is not trimmed again, so
  "… x ." gives "x " (`Scenarios.DotAfterSpaceLeavesSpace`).
- "make butter chicken" asks the recipe API about "make butter chicken",
  because no prefix removes "make" (`Scenarios.MakeKeepsKeyword`).
- A failed recipe fetch is tagged `recipe_fallback`; a failed topic fetch is
  tagged `proxy_fallback` (`Command.SourceTag`).
- Each intent asks exactly one helper: a recipe command asks only the recipe
  API, a topic command only the proxy, and a failure is stored as a
  placeholder without trying anything else (`Command.FetchFor`).
- The `/command` reply has the fields message, command, topic,
  `from_internet`, `debug_error` and `preview`, and no others
  (`Command.CommandReply`).

## Model

| member | source | states |
|---|---|---|
| Models.NewConcept | models.py:6-13 | an inserted concept has the given word and label; a counter that is not supplied is 0 |
| Models.NewExperience | models.py:17-24 | an inserted experience has the given word, label and guess; `was_correct` defaults to false |
| Models.NewWebKnowledge | models.py:28-34 | an inserted knowledge row has the given topic and summary; `source` defaults to "wikipedia" |
| Models.ColumnValue | models.py:12-13 | a column takes the supplied value, or its default when none is supplied |
| Models.AtMostOneConceptPerWord | models.py:10 | in a table keyed by `word`, two rows with the same word are the same row |
| Models.AtMostOneRecordPerTopic | models.py:32 | in a table keyed by `topic`, two rows with the same topic are the same row |
| Text.LowerChar | main.py:207 | lower-casing maps A–Z to a–z, leaves every other character alone, and keeps whitespace whitespace |
| Text.Lower | main.py:207 | `lower()` keeps the length, maps each character by `LowerChar`, and leaves no upper-case letter |
| Text.LowerIdempotent | main.py:207 | lower-casing twice equals lower-casing once |
| Text.LeadingSpaces | main.py:207 | the count of leading whitespace covers only whitespace and stops at the first other character |
| Text.TrailingSpaces | main.py:207 | the count of trailing whitespace covers only whitespace and stops at the last other character |
| Text.Strip | main.py:207 | `strip()` is the slice of the input that starts after its leading whitespace, with only whitespace after it in the input (`IsStripOf`); it leaves no whitespace at either end; it is empty exactly when the input is all whitespace; it leaves a stripped string unchanged |
| Text.StripChars | main.py:226 | each character of the stripped string is the input's character at the index shifted by the leading whitespace |
| Text.StripAfterSpace | main.py:226 | stripping a single space followed by an already stripped rest gives that rest |
| Text.ContainsIff | main.py:211 | the substring test `w in s` holds if and only if `w` occurs at some index of `s` |
| Text.NatToString | main.py:53 | the rendering of a status code is non-empty decimal digits with no leading zero |
| Text.NatToStringRoundTrip | main.py:53 | reading the rendered digits back gives the number |
| Text.NatToStringInjective | main.py:53 | different status codes render differently |
| Fetch.Render | main.py:113-116 | `meal.get(key, default)` renders the default for a missing key, "None" for a JSON null, and the value for a present one |
| Fetch.Placeholder | main.py:51 | every placeholder starts with "(Fallback)" and quotes the subject |
| Fetch.FetchViaPersonalProxy | main.py:43-80 | success if and only if the reply is a 200 whose body decoded with no truthy `error` and a non-empty `content`; success if and only if there is no diagnostic; on success the content is the proxy's; on failure a placeholder quoting the topic; the exact diagnostic for each failure branch |
| Fetch.RecipeText | main.py:112-118 | the stored recipe text starts with "Recipe for " |
| Fetch.FetchRecipe | main.py:89-127 | success if and only if the reply is a 200 whose body decoded with a non-empty `meals` list; on success the text of the first meal; on failure a placeholder quoting the dish; the exact diagnostic for each failure branch |
| Fetch.RecipeOutcomeShowsInContent | main.py:105-120 | a recipe fetch succeeded if and only if its text does not start with "(Fallback)" |
| Fetch.ProxyContentMayLookLikeFallback | main.py:65-73 | a proxy page that itself starts with "(Fallback)" is stored as a success |
| Fetch.ContainsSplit | main.py:51 | a string with `w` in the middle contains `w` |
| Command.Normalize | main.py:207-209 | the normalised command is the lower-cased command with exactly its leading and trailing whitespace removed (`IsStripOf`); it is stripped, free of upper case, and empty exactly when the command is all whitespace |
| Command.NormalizeFacts | main.py:207-209 | the stripped lower-cased command has no upper case, and is empty exactly when the command is all whitespace |
| Command.StripKeepsNoUpper | main.py:207 | stripping a string with no upper case leaves none |
| Command.LowerKeepsSpace | main.py:207-208 | a command is all whitespace if and only if its lower-cased form is |
| Command.IsRecipeIff | main.py:211 | a command asks for a recipe if and only if "cook", "recipe" or "make" occurs at some position |
| Command.StripPrefix | main.py:225-226 | for a matching prefix, the result is what follows the prefix with exactly its leading and trailing whitespace removed (`IsStripOf`), stripped and shorter by at least the prefix; a non-matching prefix changes nothing |
| Command.StripPrefixes | main.py:215-226 | the prefix loop never lengthens the text, and stripped text stays stripped |
| Command.NoPrefixNoChange | main.py:225 | a text that starts with none of the prefixes is left as it is |
| Command.DropTrailingDot | main.py:228-229 | at most one trailing dot is removed, and nothing else changes |
| Command.Subject | main.py:214-229 | the subject is never longer than the normalised command |
| Command.StripPrefixesStep | main.py:215-226 | one round of the loop on the remaining prefixes equals the loop from the next prefix on |
| Command.ExtractSubject | main.py:214-229 | the loop, one variable rewritten once per prefix, computes `Subject` of the text |
| Command.Interpret | main.py:207-232 | 400 "Command cannot be empty." if and only if the command is all whitespace; 400 "Could not detect topic/dish." if and only if a non-empty command leaves no subject; otherwise the subject is `Subject` of the normalised command and non-empty, with the recipe intent if and only if a keyword occurs in the normalised command |
| Command.SourceTag | main.py:235-240 | a tag ends in "_fallback" if and only if the fetch failed |
| Command.SourceTagDetermines | main.py:237-240 | the tag alone determines the intent and the outcome |
| Command.Preview | main.py:251 | the preview is a prefix of the summary, of length min(length, 350) |
| Command.FetchFor | main.py:235-240 | a recipe request is answered by `FetchRecipe` on the recipe API's response for the subject, a topic request by `FetchViaPersonalProxy` on the proxy's; success if and only if there is no diagnostic; a failure yields a placeholder |
| Command.Handle | main.py:204-252 | a refusal exactly when `Interpret` refuses; otherwise the row's topic and the reply's subject are the subject, the row's summary is the helper's content, the reply's `from_internet` and `debug_error` are the helper's success flag and diagnostic, the message is "Command processed.", the reply echoes the command, the tag records intent and outcome, and the preview is of the stored summary |
| Store.Upsert | main.py:132-153 | after a save the table is still keyed by topic, gains at most the saved topic, holds exactly the saved values for it, and leaves every other row unchanged |
| Store.UpsertAll | main.py:132-153 | a series of saves keeps the table keyed by topic |
| Store.LastWriteTo | main.py:132-153 | a save to the topic is found if and only if one was made, and the one found is the latest: no later save is to that topic |
| Store.LatestStaysLatest | main.py:138-149 | a save to another topic appended to the log leaves the latest save to a topic the latest |
| Store.LastWriterWins | main.py:138-149 | after any series of saves, a topic's row holds the latest save to it, or is untouched when there was none |
| Store.GetKnowledge | main.py:257-268 | the stored fields if the topic has a row, otherwise 404 "No stored knowledge for '<topic>'" |
| Store.GetAfterUpsert | main.py:257-268 | reading a topic right after saving it returns what was saved |
| Store.GetOtherAfterUpsert | main.py:257-268 | saving one topic changes what is read for no other topic |
| Store.TeachConcept | main.py:173-186 | a new word starts at 1 seen, 1 correct; a known word gets both counters bumped; the label becomes the latest; other words are untouched; the table stays keyed by word |
| Store.TaughtExperience | main.py:188-193 | the logged experience has a guess equal to the true label and is marked correct |
| Store.CorrectAtMostSeen | models.py:12-13 | in any log, a word has no more correct entries than entries |
| Store.CorrectEqualsSeen | main.py:188-193 | in a log written only by `teach`, every entry about a word is correct |
| Store.TeachKeepsAgreement | main.py:170-199 | after `teach`, each concept row still counts the log's entries for its word and carries the latest label |
| Store.TaughtCounters | main.py:179-186 | every concept row has `correct_count == seen_count >= 1` |
| Store.TeachKeepsLogTaught | main.py:188-194 | `teach` appends only entries it writes itself |
| Service.Database.constructor | main.py:14 | the tables start empty and satisfy the invariant |
| Service.Database.SaveWebKnowledge | main.py:132-153 | the topic table becomes `Upsert` of the old one; the returned row holds the saved values; the other tables are unchanged; the invariant is kept |
| Service.Database.Teach | main.py:170-199 | the concepts become `TeachConcept` of the old ones; one experience is appended; the reply echoes word and label; the invariant is kept, so the word's counters are equal and at least 1 |
| Service.Database.RunCommand | main.py:204-252 | a refusal with nothing written exactly when `Handle` refuses; otherwise the reply of `Handle` and the topic table upserted with `Handle`'s row, on failure as on success |
| Scenarios.LearnHowToCookSubject | main.py:215-229 | "learn how to cook X" gives the subject X |
| Scenarios.DalSubject | main.py:215-229 | "learn how to cook dal" gives the subject "dal" |
| Scenarios.CumulativeStripping | main.py:215-226 | "learn about learn X" gives X: each prefix is tried on what the previous ones left |
| Scenarios.DotAfterSpaceLeavesSpace | main.py:228-229 | "X ." gives "X ": there is no trim after the dot is dropped |
| Scenarios.LearnAloneHasNoSubject | main.py:215-232 | "learn" and "learn." are refused with "Could not detect topic/dish." |
| Scenarios.MakeKeepsKeyword | main.py:211-226 | "make X" asks for a recipe for "make X" |
| Scenarios.RecipeFoundIsStored | main.py:235-252 | a recipe command answered with a meal stores the meal's text, tagged "recipe_api", and reports success |
| Scenarios.RecipeFailureIsStored | main.py:235-252 | a recipe command whose request raises stores a placeholder tagged "recipe_fallback" and reports the reason |
| Scenarios.TopicFoundIsStored | main.py:235-252 | a topic command answered by the proxy with content stores that content, tagged "personal_proxy", and reports success |
| Scenarios.TopicFailureIsStored | main.py:235-252 | a topic command whose proxy request raises stores a placeholder quoting the topic, tagged "proxy_fallback", and reports the reason |
| Scenarios.DalCommandIsNormal | main.py:207 | "learn how to cook dal" is already in normal form |
| Scenarios.DalCommandIsRecipe | main.py:211 | "learn how to cook dal" asks for a recipe |
| Scenarios.RecipeTwice | main.py:235-243 | the same recipe command after the API goes down overwrites the row in place: the same keys, now a fallback tag and a placeholder |

## Left out

- The HTTP exchange: the `httpx` client, its timeouts, URL building, and `async`. A `Response` value stands for what a request produced.
- The `PROXY_BASE_URL` emptiness check (main.py:36-41): the URL is a non-empty constant, so that branch cannot be taken.
- JSON values of other types than modelled: an `error` or `content` member that is not a string, a `meals` member that is not a list, a body that is not an object, or a first meal that is not an object. These make the source raise into its `except` branch or render differently.
- Meal members that are JSON numbers, booleans, lists or objects: a meal member is missing, null or a string in this model.
- Text.Lower: lower-cases ASCII letters only. Python's `str.lower()` also maps non-ASCII letters, and some of those mappings change the length.
- FastAPI routing, the `/` and `/health` routes, Pydantic request validation, and `Depends(get_db)`.
- database.py is not part of this model: the engine, sessions, `commit`/`refresh`, and transactions. Each handler is one atomic update of the tables, and concurrent requests are not modelled.
- The surrogate `id` primary keys: every access in the source goes through a unique column, so the tables are maps keyed by that column.
- Integer width of the counters: SQLite integers are 64-bit, and the model's are unbounded.
