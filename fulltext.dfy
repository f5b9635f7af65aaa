/**
 * The full-text engine (ParadeDB) that the database delegates matching,
 * scoring and snippets to. Its behaviour is not modelled: each caller
 * receives it as a parameter, and every property proved about a listing
 * holds whatever the engine answers.
 */
module FullText {
  import opened Wrappers
  import opened SearchEscape

  /**
   * The engine's operations: whether a text matches a search string (`@@@`),
   * the score of a text under the search string in force on its table (if
   * any), and the highlighted snippet of a text for a search string.
   */
  datatype Engine = Engine(
    matches: (string, string) -> bool,
    score: (string, Option<string>) -> int,
    snippet: (string, string) -> string)

  /** `text @@@ escape_search_query(q)`: the user's string reaches the engine only escaped. */
  predicate Matches(e: Engine, text: string, q: string)
  {
    e.matches(text, Escape(q))
  }

  /** An optional match condition; an absent one admits every row. */
  predicate MatchesIfGiven(e: Engine, text: string, q: Option<string>)
  {
    q.None? || Matches(e, text, q.value)
  }

  /** `paradedb.score` of a row whose table is searched with `q`, if it is searched at all. */
  function Score(e: Engine, text: string, q: Option<string>): int
  {
    e.score(text, if q.None? then None else Some(Escape(q.value)))
  }
}
