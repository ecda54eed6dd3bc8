/** The two result shapes and the text helper several components use. */
module Prelude {

  datatype Option<+T> = None | Some(value: T)

  /** A Python call that may raise: the value it returns, or the error it raises. */
  datatype Result<+T, +E> = Ok(value: T) | Err(error: E)

  predicate IsSpace(c: char) { c == ' ' || ('\t' <= c <= '\r') || ('\U{1C}' <= c <= '\U{1F}') }

  function StripLeft(s: string): string {
    if s != [] && IsSpace(s[0]) then StripLeft(s[1..]) else s
  }

  function StripRight(s: string): string {
    if s != [] && IsSpace(s[|s| - 1]) then StripRight(s[..|s| - 1]) else s
  }

  /** `str.strip` for ASCII white space. */
  function Strip(s: string): string { StripRight(StripLeft(s)) }

  predicate AllSpace(s: string) { forall c | c in s :: IsSpace(c) }

  /** Neither end is white space. */
  predicate Trim(s: string) { s == "" || (!IsSpace(s[0]) && !IsSpace(s[|s| - 1])) }

  lemma {:induction false} StripLeftIs(s: string) returns (a: string)
    ensures AllSpace(a) && s == a + StripLeft(s) && (StripLeft(s) == "" || !IsSpace(StripLeft(s)[0]))
  {
    a := "";
    if s != "" && IsSpace(s[0]) {
      var b := StripLeftIs(s[1..]);
      a := [s[0]] + b;
      assert s == [s[0]] + s[1..];
    }
  }

  lemma {:induction false} StripRightIs(s: string) returns (b: string)
    ensures AllSpace(b) && s == StripRight(s) + b && (StripRight(s) == "" || !IsSpace(StripRight(s)[|StripRight(s)| - 1]))
    ensures StripRight(s) != "" ==> StripRight(s)[0] == s[0]
  {
    b := "";
    if s != "" && IsSpace(s[|s| - 1]) {
      var a := StripRightIs(s[..|s| - 1]);
      b := a + [s[|s| - 1]];
      assert s == s[..|s| - 1] + [s[|s| - 1]];
    }
  }

  /** Stripping takes white space off both ends, all of it, and nothing else. */
  lemma {:induction false} StripIs(s: string) returns (a: string, b: string)
    ensures s == a + Strip(s) + b && AllSpace(a) && AllSpace(b) && Trim(Strip(s))
  {
    a := StripLeftIs(s);
    b := StripRightIs(StripLeft(s));
  }

  lemma {:induction false} TrimStays(s: string)
    requires Trim(s)
    ensures Strip(s) == s
  {
  }
}
