/** The string operations of the Go library the service relies on. */
module Strings {
  /** Unicode White_Space, as the library's IsSpace decides it. */
  predicate IsSpace(c: char) {
    || '\U{0009}' <= c <= '\U{000D}' || c == ' ' || c == '\U{0085}' || c == '\U{00A0}' || c == '\U{1680}'
    || '\U{2000}' <= c <= '\U{200A}' || c == '\U{2028}' || c == '\U{2029}' || c == '\U{202F}' || c == '\U{205F}'
    || c == '\U{3000}'
  }

  /** TrimSpace. */
  function Trim(s: string): (trimmed: string)
    ensures trimmed == "" || (!IsSpace(trimmed[0]) && !IsSpace(trimmed[|trimmed| - 1]))
    ensures trimmed == "" <==> forall i :: 0 <= i < |s| ==> IsSpace(s[i])
  {
    if s == "" then ""
    else if IsSpace(s[0]) then Trim(s[1..])
    else if IsSpace(s[|s| - 1]) then Trim(s[..|s| - 1])
    else s
  }

  /** ASCII lower case; the library's ToLower and the database's LOWER are taken
      to agree on it. */
  function LowerChar(c: char): char {
    if 'A' <= c <= 'Z' then c - 'A' + 'a' else c
  }

  function Lower(s: string): (lowered: string)
    ensures |lowered| == |s|
  {
    seq(|s|, i requires 0 <= i < |s| => LowerChar(s[i]))
  }
}
