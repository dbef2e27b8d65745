/** The string operations the services use, on sequences of characters. */
module Text {
  import opened Common

  /** White space as removed by the platform's trim. */
  predicate IsSpace(c: char) {
    || c == ' ' || ('\t' <= c <= '\r') || c == '\U{00A0}' || c == '\U{1680}'
    || ('\U{2000}' <= c <= '\U{200A}') || c == '\U{2028}' || c == '\U{2029}'
    || c == '\U{202F}' || c == '\U{205F}' || c == '\U{3000}' || c == '\U{FEFF}'
  }

  predicate IsDigit(c: char) { '0' <= c <= '9' }

  predicate IsAlphanumeric(c: char) { 'a' <= c <= 'z' || IsDigit(c) }

  function TrimStart(s: string): string {
    if s != "" && IsSpace(s[0]) then TrimStart(s[1..]) else s
  }

  function TrimEnd(s: string): string {
    if s != "" && IsSpace(s[|s| - 1]) then TrimEnd(s[..|s| - 1]) else s
  }

  function Trim(s: string): string { TrimEnd(TrimStart(s)) }

  /** Lower-casing. Exact on every character whose lower-case form contains an
      ASCII letter: A to Z, the Kelvin sign and the dotted capital I. */
  function LowerChar(c: char): string {
    if 'A' <= c <= 'Z' then [(c as int - 'A' as int + 'a' as int) as char]
    else if c == '\U{212A}' then "k"
    else if c == '\U{0130}' then ['i', '\U{0307}']
    else [c]
  }

  function ToLower(s: string): string { FlatMap(LowerChar, s) }

  predicate StartsWith(s: string, prefix: string) { prefix <= s }

  predicate OccursAt(s: string, part: string, i: nat)
    requires i <= |s|
  {
    part <= s[i..]
  }

  predicate Includes(s: string, part: string) {
    exists i :: 0 <= i <= |s| - |part| && OccursAt(s, part, i)
  }

  /** Every maximal run of characters outside a-z and 0-9 becomes one blank. */
  function CollapseRuns(s: string): string {
    if s == "" then ""
    else
      var front, c := CollapseRuns(s[..|s| - 1]), s[|s| - 1];
      if IsAlphanumeric(c) then front + [c]
      else if |s| >= 2 && !IsAlphanumeric(s[|s| - 2]) then front
      else front + [' ']
  }

  /** `a.slice(0, n)` */
  function Prefix(s: string, n: nat): string { if |s| <= n then s else s[..n] }

  /** A field that contains no separator can be read back from the front of a joined text. */
  lemma {:induction false} SplitFirst(a: string, x: string, b: string, y: string, sep: char)
    requires sep !in a && sep !in b
    requires a + [sep] + x == b + [sep] + y
    ensures a == b && x == y
  {
    assert (a + [sep] + x)[0] == (b + [sep] + y)[0];
    if a != "" && b != "" {
      assert (a + [sep] + x)[1..] == a[1..] + [sep] + x;
      assert (b + [sep] + y)[1..] == b[1..] + [sep] + y;
      SplitFirst(a[1..], x, b[1..], y, sep);
    } else {
      assert (a + [sep] + x)[1..] == x;
      assert (b + [sep] + y)[1..] == y;
    }
  }
}
