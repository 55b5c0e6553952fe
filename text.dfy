/** Character-level helpers shared by the fetcher (first whitespace token of a
    table cell) and by the panel updater (lower-casing the typed symbol). */
module Text {
  import opened Wrappers

  /** An ASCII capital letter; the only characters lower-casing changes here. */
  predicate IsUpper(c: char)
  {
    'A' <= c <= 'Z'
  }

  /** The characters Python's `str.isspace` accepts, which `str.split()` and
      `get_text(strip=True)` treat as separators. */
  predicate IsSpace(c: char)
  {
    var n := c as int;
    (9 <= n <= 13) || (28 <= n <= 32) || n == 0x85 || n == 0xA0 || n == 0x1680
    || (0x2000 <= n <= 0x200A) || n == 0x2028 || n == 0x2029 || n == 0x202F
    || n == 0x205F || n == 0x3000
  }

  predicate AllSpace(s: string)
  {
    forall i :: 0 <= i < |s| ==> IsSpace(s[i])
  }

  predicate NoSpace(s: string)
  {
    forall i :: 0 <= i < |s| ==> !IsSpace(s[i])
  }

  function LowerChar(c: char): (r: char)
    ensures IsUpper(c) ==> r as int == c as int + 32
    ensures !IsUpper(c) ==> r == c
    ensures !IsUpper(r)
  {
    if IsUpper(c) then (c as int + 32) as char else c
  }

  /** `str.lower()` / `String.prototype.toLowerCase()` on ASCII letters. */
  function Lower(s: string): (r: string)
    ensures |r| == |s|
    ensures forall i :: 0 <= i < |s| ==> r[i] == LowerChar(s[i])
  {
    if s == [] then [] else [LowerChar(s[0])] + Lower(s[1..])
  }

  /** Lower-casing twice is lower-casing once. */
  lemma LowerIdempotent(s: string)
    ensures Lower(Lower(s)) == Lower(s)
  {
  }

  /** Lower-casing is the identity exactly on strings without capitals. */
  lemma LowerFixesExactlyLowercase(s: string)
    ensures Lower(s) == s <==> forall i :: 0 <= i < |s| ==> !IsUpper(s[i])
  {
  }

  /** The number of whitespace characters before the first token. */
  function LeadingSpace(s: string): (j: nat)
    ensures j <= |s|
    ensures AllSpace(s[..j])
    ensures j < |s| ==> !IsSpace(s[j])
  {
    if s == [] || !IsSpace(s[0]) then 0 else 1 + LeadingSpace(s[1..])
  }

  /** The longest whitespace-free prefix of `s`. */
  function Word(s: string): (w: string)
    ensures |w| <= |s| && w == s[..|w|]
    ensures NoSpace(w)
    ensures |w| < |s| ==> IsSpace(s[|w|])
  {
    if s == [] || IsSpace(s[0]) then [] else [s[0]] + Word(s[1..])
  }

  /** `s.split()[0]` when `s.split()` is not empty: the first maximal run of
      non-whitespace characters. `None` stands for the `IndexError` of a
      blank string. */
  function FirstToken(s: string): (r: Option<string>)
    ensures r.None? <==> AllSpace(s)
  {
    var j := LeadingSpace(s);
    if j == |s| then
      assert s[..j] == s;
      None
    else
      assert !AllSpace(s) by { assert !IsSpace(s[j]); }
      Some(Word(s[j..]))
  }

  /** The token is non-empty, free of whitespace, preceded only by
      whitespace and followed by whitespace or the end of the string. */
  lemma FirstTokenShape(s: string)
    requires FirstToken(s).Some?
    ensures var t := FirstToken(s).value; var j := LeadingSpace(s);
      t != [] && NoSpace(t)
      && j + |t| <= |s| && AllSpace(s[..j]) && s[j..j + |t|] == t
      && (j + |t| == |s| || IsSpace(s[j + |t|]))
  {
  }
}
