/** The `truncate` pipe (`TruncatePipe.transform`): shortens a text to a character limit and
    marks the cut with a trail. Lengths count elements of the string. */
module Truncate {
  const DEFAULT_LIMIT := 100
  const DEFAULT_TRAIL := "..."

  /** `s.substring(0, end)` for an `end` below the length: a negative end counts as 0. */
  function PrefixTo(s: string, end: int): (r: string)
    requires end < |s|
    ensures |r| == if end < 0 then 0 else end
    ensures r == s[..|r|]
  {
    if end < 0 then "" else s[..end]
  }

  /** `transform(value, limit, trail)`: the empty text stays empty; a text longer than the limit is
      cut to the limit and followed by the trail; any other text is returned as it is. */
  function Transform(value: string, limit: int := DEFAULT_LIMIT, trail: string := DEFAULT_TRAIL): (r: string)
    ensures value == "" ==> r == ""
    ensures |value| <= limit ==> r == value
    ensures value != "" && |value| > limit ==>
              var kept := if limit < 0 then 0 else limit;
              |r| == kept + |trail| && r[..kept] == value[..kept] && r[kept..] == trail
  {
    if value == "" then ""
    else if |value| > limit then PrefixTo(value, limit) + trail
    else value
  }

  lemma TransformEmpty(limit: int, trail: string)
    ensures Transform("", limit, trail) == ""
  {
  }

  /** A text within the limit is returned unchanged. */
  lemma TransformWithinLimit(value: string, limit: int, trail: string)
    requires |value| <= limit
    ensures Transform(value, limit, trail) == value
  {
  }

  /** A text over a non-negative limit keeps exactly its first `limit` characters, then the trail. */
  lemma TransformOverLimit(value: string, limit: int, trail: string)
    requires 0 <= limit < |value|
    ensures Transform(value, limit, trail) == value[..limit] + trail
    ensures |Transform(value, limit, trail)| == limit + |trail|
  {
  }

  /** A negative limit cuts every non-empty text down to the trail alone. */
  lemma TransformNegativeLimit(value: string, limit: int, trail: string)
    requires value != "" && limit < 0
    ensures Transform(value, limit, trail) == trail
  {
  }

  /** With a non-negative limit, the result starts with the text's first `min(limit, |value|)`
      characters, and is never longer than the text or the limit plus the trail. */
  lemma TransformKeepsPrefix(value: string, limit: int, trail: string)
    requires limit >= 0
    ensures var n := if limit < |value| then limit else |value|;
            var r := Transform(value, limit, trail);
            n <= |r| && r[..n] == value[..n] &&
            (|r| <= |value| || |r| <= limit + |trail|)
  {
  }

  /** The defaults: a limit of 100 characters and "..." as the trail. */
  lemma TransformDefaults(value: string)
    ensures |value| <= 100 ==> Transform(value) == value
    ensures |value| > 100 ==> Transform(value) == value[..100] + "..." && |Transform(value)| == 103
  {
  }
}
