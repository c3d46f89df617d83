/** White space as JavaScript's `\s` and `trim` see it. */
module Space {

  /** The white space and line terminators of ECMA-262. */
  predicate IsSpace(c: char) {
    || ('\U{09}' <= c <= '\U{0D}') || c == ' ' || c == '\U{A0}' || c == '\U{1680}'
    || ('\U{2000}' <= c <= '\U{200A}') || c == '\U{2028}' || c == '\U{2029}' || c == '\U{202F}'
    || c == '\U{205F}' || c == '\U{3000}' || c == '\U{FEFF}'
  }

  function SkipSpace(s: string): string {
    if s != "" && IsSpace(s[0]) then SkipSpace(s[1..]) else s
  }

  function TrimEnd(s: string): string {
    if s != "" && IsSpace(s[|s| - 1]) then TrimEnd(s[..|s| - 1]) else s
  }

  function Trim(s: string): string {
    TrimEnd(SkipSpace(s))
  }

  predicate Trimmed(s: string) {
    s == "" || (!IsSpace(s[0]) && !IsSpace(s[|s| - 1]))
  }

  lemma {:induction false} SkipsSpace(lead: string, rest: string)
    requires forall i | 0 <= i < |lead| :: IsSpace(lead[i])
    requires rest == "" || !IsSpace(rest[0])
    ensures SkipSpace(lead + rest) == rest
  {
    if lead == "" {
      assert lead + rest == rest;
    } else {
      SkipsSpace(lead[1..], rest);
      assert (lead + rest)[1..] == lead[1..] + rest;
    }
  }
}
