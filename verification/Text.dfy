/** Trimming, with the spaces Python's `strip` removes and those Rust's `trim` does. */
module Text {
  import opened Common

  /** The characters `str.strip` removes. */
  predicate IsSpace(c: char) {
    var n := c as int;
    || 9 <= n <= 13 || 28 <= n <= 32 || n == 0x85 || n == 0xA0 || n == 0x1680 || 0x2000 <= n <= 0x200A
    || n == 0x2028 || n == 0x2029 || n == 0x202F || n == 0x205F || n == 0x3000
  }

  function TrimRight(s: string, drop: char -> bool): (r: string)
    ensures |r| <= |s|
  {
    if s != [] && drop(s[|s| - 1]) then TrimRight(s[..|s| - 1], drop) else s
  }

  function TrimLeft(s: string, drop: char -> bool): (r: string)
    ensures |r| <= |s|
  {
    if s != [] && drop(s[0]) then TrimLeft(s[1..], drop) else s
  }

  function Trim(s: string, drop: char -> bool): string { TrimLeft(TrimRight(s, drop), drop) }

  function Rstrip(s: string): string { TrimRight(s, IsSpace) }

  function Strip(s: string): string { Trim(s, IsSpace) }

  predicate Blank(s: string) { Strip(s) == "" }

  /** A field that is there, and not blank. */
  predicate IsText(s: Option<string>) { s.Some? && !Blank(s.value) }

  /** The characters Unicode calls white space, which `trim` removes. */
  predicate IsWhite(c: char) { IsSpace(c) && !(28 <= c as int <= 31) }

  function TrimWhite(s: string): string { Trim(s, IsWhite) }

  /** Text with no white space at either end. */
  predicate Trimmed(s: string) { s == "" || (!IsWhite(s[0]) && !IsWhite(s[|s| - 1])) }

  lemma TrimmedStays(s: string)
    requires Trimmed(s)
    ensures TrimWhite(s) == s
  {
  }
}
