/**
 * The two content helpers, `fetch_via_personal_proxy` and `fetch_recipe`,
 * as functions from what the HTTP exchange produced to the triple
 * `(content, ok, err)` they return. The exchange itself (the client, its
 * timeout, the URL) is outside the model: a `Response` says whether the
 * request raised, and otherwise which status and which decoded body came
 * back. Neither helper lets an exception escape: every failure becomes a
 * "(Fallback)" text and a diagnostic.
 */
module Fetch {
  import opened Wrappers
  import opened Text

  /** A member of a decoded JSON object, as `dict.get` sees it. */
  datatype Field<+T> = Absent | Null | Present(value: T)

  /** The outcome of one HTTP request: it raised (transport error, timeout),
    * with `str(e)` as `reason`, or it got a reply. */
  datatype Response<+B> = Raised(reason: string) | Reply(status: nat, body: B)

  /** The proxy's reply body after `r.json()`: either decoding raised, or an
    * object with optional `error` and `content` members. */
  datatype ProxyBody = ProxyUndecodable(reason: string) | ProxyJson(error: Field<string>, content: Field<string>)

  /** One entry of the recipe API's `meals` list. */
  datatype Meal = Meal(strMeal: Field<string>, strCategory: Field<string>, strArea: Field<string>, strInstructions: Field<string>)

  /** The recipe API's reply body after `r.json()`. */
  datatype MealBody = MealUndecodable(reason: string) | MealJson(meals: Field<seq<Meal>>)

  /** What a helper returns: the text to store, whether it came from the
    * network, and the diagnostic (`None` on success). */
  datatype Fetched = Fetched(content: string, ok: bool, err: Option<string>)

  /** Every placeholder text starts with this mark. */
  const FallbackMark: string := "(Fallback)"

  /** The only status either helper accepts. */
  const StatusOk: nat := 200

  /** Python truthiness of a string member: present, not null, not empty. */
  predicate Truthy(f: Field<string>) {
    f.Present? && f.value != []
  }

  /** How an f-string renders `d.get(key, default)`: the default when the key
    * is missing, "None" when it is null. */
  function Render(f: Field<string>, default: string): (s: string)
    ensures f.Present? ==> s == f.value
    ensures f.Absent? ==> s == default
    ensures f.Null? ==> s == "None"
  {
    match f
    case Absent => default
    case Null => "None"
    case Present(v) => v
  }

  function Quoted(s: string): string {
    "'" + s + "'"
  }

  /** The diagnostic for a non-200 reply. */
  function HttpDetail(status: nat): string {
    "HTTP " + NatToString(status)
  }

  /** A placeholder text: the fallback mark, then a message that quotes the
    * subject it was fetched for. */
  function Placeholder(lead: string, subject: string, tail: string): (s: string)
    ensures FallbackMark <= s
    ensures Contains(s, Quoted(subject))
  {
    ContainsSplit(FallbackMark + lead, Quoted(subject), tail);
    FallbackMark + lead + Quoted(subject) + tail
  }

  /** The proxy delivered usable content: a 200 reply whose body decoded, has
    * no truthy `error`, and has a non-empty `content`. */
  predicate ProxyDelivers(response: Response<ProxyBody>) {
    && response.Reply?
    && response.status == StatusOk
    && response.body.ProxyJson?
    && !Truthy(response.body.error)
    && Truthy(response.body.content)
  }

  /** `fetch_via_personal_proxy(topic)` once the request has produced `response`. */
  function FetchViaPersonalProxy(topic: string, response: Response<ProxyBody>): (r: Fetched)
    ensures r.ok <==> ProxyDelivers(response)
    ensures r.ok <==> r.err.None?
    ensures r.ok ==> r.content == response.body.content.value && r.content != []
    ensures !r.ok ==> FallbackMark <= r.content && Contains(r.content, Quoted(topic))
    ensures response.Raised? ==> r.err == Some(response.reason)
    ensures response.Reply? && response.status != StatusOk ==> r.err == Some(HttpDetail(response.status))
    ensures response.Reply? && response.status == StatusOk ==>
      match response.body
      case ProxyUndecodable(reason) => r.err == Some(reason)
      case ProxyJson(error, content) =>
        if Truthy(error) then r.err == Some(error.value)
        else if !Truthy(content) then r.err == Some("Empty content")
        else r.err == None
  {
    match response
    case Raised(e) =>
      Fetched(Placeholder(" Error contacting proxy for ", topic, ": " + e), false, Some(e))
    case Reply(status, body) =>
      if status != StatusOk then
        Fetched(Placeholder(" Proxy HTTP " + NatToString(status) + " for ", topic, "."), false, Some(HttpDetail(status)))
      else
        match body
        case ProxyUndecodable(e) =>
          Fetched(Placeholder(" Error contacting proxy for ", topic, ": " + e), false, Some(e))
        case ProxyJson(error, content) =>
          if Truthy(error) then
            Fetched(Placeholder(" Proxy error for ", topic, ": " + error.value), false, Some(error.value))
          else if !Truthy(content) then
            Fetched(Placeholder(" Proxy returned no content for ", topic, "."), false, Some("Empty content"))
          else
            Fetched(content.value, true, None)
  }

  /** The recipe API found something: a 200 reply whose body decoded and has
    * a non-empty `meals` list. */
  predicate RecipeFound(response: Response<MealBody>) {
    && response.Reply?
    && response.status == StatusOk
    && response.body.MealJson?
    && response.body.meals.Present?
    && response.body.meals.value != []
  }

  /** The text stored for a recipe, from the first meal; the dish name stands
    * in for a missing meal name, the empty string for the other members. */
  function RecipeText(dish: string, meal: Meal): (s: string)
    ensures "Recipe for " <= s
  {
    "Recipe for " + Render(meal.strMeal, dish)
      + " (" + Render(meal.strCategory, "") + ", " + Render(meal.strArea, "") + "):\n\n"
      + Render(meal.strInstructions, "")
  }

  /** `fetch_recipe(dish)` once the request has produced `response`. */
  function FetchRecipe(dish: string, response: Response<MealBody>): (r: Fetched)
    ensures r.ok <==> RecipeFound(response)
    ensures r.ok <==> r.err.None?
    ensures r.ok ==> r.content == RecipeText(dish, response.body.meals.value[0])
    ensures !r.ok ==> FallbackMark <= r.content && Contains(r.content, Quoted(dish))
    ensures response.Raised? ==> r.err == Some(response.reason)
    ensures response.Reply? && response.status != StatusOk ==> r.err == Some(HttpDetail(response.status))
    ensures response.Reply? && response.status == StatusOk ==>
      match response.body
      case MealUndecodable(reason) => r.err == Some(reason)
      case MealJson(meals) => r.err == if RecipeFound(response) then None else Some("No meals")
  {
    match response
    case Raised(e) =>
      Fetched(Placeholder(" Error fetching recipe for ", dish, ": " + e), false, Some(e))
    case Reply(status, body) =>
      if status != StatusOk then
        Fetched(Placeholder(" Could not fetch recipe for ", dish, ". HTTP " + NatToString(status) + "."),
                false, Some(HttpDetail(status)))
      else
        match body
        case MealUndecodable(e) =>
          Fetched(Placeholder(" Error fetching recipe for ", dish, ": " + e), false, Some(e))
        case MealJson(meals) =>
          if !(meals.Present? && meals.value != []) then
            Fetched(Placeholder(" No recipe found for ", dish, "."), false, Some("No meals"))
          else
            Fetched(RecipeText(dish, meals.value[0]), true, None)
  }

  /** A recipe outcome can be read back from its text alone: only the
    * placeholders start with the fallback mark. */
  lemma RecipeOutcomeShowsInContent(dish: string, response: Response<MealBody>)
    ensures FetchRecipe(dish, response).ok <==> !(FallbackMark <= FetchRecipe(dish, response).content)
  {
    var r := FetchRecipe(dish, response);
    if r.ok {
      assert r.content[0] == 'R';
    }
  }

  /** The proxy's text alone does not tell success from failure: a page that
    * itself starts with the mark is stored as a success. */
  lemma ProxyContentMayLookLikeFallback()
    ensures var r := FetchViaPersonalProxy("x", Reply(StatusOk, ProxyJson(Absent, Present("(Fallback) page"))));
            r.ok && FallbackMark <= r.content
  {
  }

  /** A string that has `w` in the middle contains `w`. */
  lemma ContainsSplit(a: string, w: string, b: string)
    ensures Contains(a + w + b, w)
  {
    ContainsIff(a + w + b, w);
    assert (a + w + b)[|a|..|a| + |w|] == w;
    assert OccursAt(a + w + b, w, |a|);
  }
}
