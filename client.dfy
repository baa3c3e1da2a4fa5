/**
 * Pieces shared by the client components: the banner message, the outcome
 * of a `fetch` to one of the site's routes, and the case-insensitive text
 * search of the merchandise and event grids.
 */
module ClientCommon {
  import opened Common

  datatype MessageKind = Success | Error

  /** The `{ type, text }` banner a component shows. */
  datatype Message = Message(kind: MessageKind, text: string)

  /**
   * What a `fetch` ends in: a response with `response.ok`, a response
   * without it (carrying the JSON `error` field, if any), or a thrown error
   * (network failure or a body that is not JSON).
   */
  datatype FetchOutcome = Ok | NotOk(error: Option<string>) | Threw

  /** The banner text of a refused request: `data.error || fallback`. */
  function ErrorText(error: Option<string>, fallback: string): (t: string)
    ensures Truthy(error) ==> t == error.value
    ensures !Truthy(error) ==> t == fallback
  {
    if Truthy(error) then error.value else fallback
  }

  const GenericError: string := "An error occurred. Please try again."

  /**
   * `title.toLowerCase().includes(term.toLowerCase()) ||
   *  description.toLowerCase().includes(term.toLowerCase())`
   */
  predicate MatchesSearch(title: string, description: string, term: string)
  {
    Contains(Lower(title), Lower(term)) || Contains(Lower(description), Lower(term))
  }

  /** Lower-casing twice is lower-casing once. */
  lemma LowerIdempotent(s: string)
    ensures Lower(Lower(s)) == Lower(s)
  {
  }

  /**
   * The search ignores case on both sides: terms that agree after
   * lower-casing select the same items, and so do titles and descriptions.
   */
  lemma SearchIgnoresCase(title: string, description: string, term: string)
    ensures MatchesSearch(title, description, term) == MatchesSearch(Lower(title), Lower(description), Lower(term))
  {
    LowerIdempotent(title);
    LowerIdempotent(description);
    LowerIdempotent(term);
  }

  /** An empty search term matches everything. */
  lemma EmptyTermMatches(title: string, description: string)
    ensures MatchesSearch(title, description, "")
  {
    ContainsEmpty(Lower(title));
    assert Lower("") == "";
  }
}
