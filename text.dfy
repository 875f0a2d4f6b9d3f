/** String helpers used by the name classifier and the on-screen prompts:
    ASCII lower-casing, substring search, decimal rendering of counters and
    the `cutName` suffix stripper. */
module Text {

  /** ASCII lower-casing of one character (String.prototype.toLowerCase on ASCII). */
  function LowerChar(c: char): char {
    if 'A' <= c <= 'Z' then (c as int + 32) as char else c
  }

  function Lower(s: string): (r: string)
    ensures |r| == |s|
    ensures forall i :: 0 <= i < |r| ==> r[i] == LowerChar(s[i])
    ensures forall i :: 0 <= i < |r| ==> !('A' <= r[i] <= 'Z')
  {
    seq(|s|, i requires 0 <= i < |s| => LowerChar(s[i]))
  }

  /** `sub` occurs in `s` starting at position `i`. */
  predicate OccursAt(s: string, sub: string, i: nat) {
    i + |sub| <= |s| && s[i..i + |sub|] == sub
  }

  /** String.prototype.includes: some occurrence of `sub` in `s`. */
  predicate Contains(s: string, sub: string) {
    exists i: nat | i <= |s| :: OccursAt(s, sub, i)
  }

  /** An occurrence of a longer keyword carries every occurrence of its substrings. */
  lemma ContainsTransitive(s: string, mid: string, sub: string, i: nat, j: nat)
    requires OccursAt(s, mid, i) && OccursAt(mid, sub, j)
    ensures OccursAt(s, sub, i + j) && Contains(s, sub)
  {
    assert mid == s[i..i + |mid|];
    assert forall k :: 0 <= k < |sub| ==> s[i + j + k] == mid[j + k] == sub[k];
    assert s[i + j..i + j + |sub|] == sub;
    assert OccursAt(s, sub, i + j);
  }

  lemma OccursInPrefix(s: string, p: string, m: string, j: nat)
    requires |p| <= |s| && p == s[..|p|] && OccursAt(p, m, j)
    ensures OccursAt(s, m, j)
  {
    assert s[j..j + |m|] == p[j..j + |m|];
  }

  // ---------------------------------------------------------------------
  // Decimal rendering of a non-negative counter (template literal `${n}`).

  predicate IsDigit(c: char) { '0' <= c <= '9' }

  function DigitChar(d: nat): (c: char)
    requires d < 10
    ensures IsDigit(c) && c as int - '0' as int == d
  {
    (d + '0' as int) as char
  }

  function NatToString(n: nat): (r: string)
    ensures |r| >= 1
    ensures forall i :: 0 <= i < |r| ==> IsDigit(r[i])
    ensures r[0] == '0' ==> n == 0
    decreases n
  {
    if n < 10 then [DigitChar(n)] else NatToString(n / 10) + [DigitChar(n % 10)]
  }

  function DigitValue(c: char): (d: nat)
    requires IsDigit(c)
    ensures d < 10
  {
    c as int - '0' as int
  }

  /** Reads back an all-digit string as a number. */
  function ParseDigits(s: string): nat
    requires forall i :: 0 <= i < |s| ==> IsDigit(s[i])
  {
    if s == [] then 0
    else ParseDigits(s[..|s| - 1]) * 10 + DigitValue(s[|s| - 1])
  }

  /** The rendering is faithful: the digits read back as the number. */
  lemma {:induction false} ParseNatToString(n: nat)
    ensures ParseDigits(NatToString(n)) == n
    decreases n
  {
    if n >= 10 {
      var r := NatToString(n);
      assert r[..|r| - 1] == NatToString(n / 10);
      ParseNatToString(n / 10);
    }
  }

  /** Two counters render alike only when they are equal. */
  lemma NatToStringInjective(m: nat, n: nat)
    requires NatToString(m) == NatToString(n)
    ensures m == n
  {
    ParseNatToString(m);
    ParseNatToString(n);
  }

  // ---------------------------------------------------------------------
  // cutName: `name.split(/(_generated|_grp|_mesh|_Mesh)/)` keeps the piece
  // before the earliest separator (case-sensitive), or the name itself when
  // no separator occurs.

  predicate MarkerAt(s: string, i: nat) {
    OccursAt(s, "_generated", i) || OccursAt(s, "_grp", i)
    || OccursAt(s, "_mesh", i) || OccursAt(s, "_Mesh", i)
  }

  /** Scans from position `i`, knowing no marker starts before `i`. */
  function CutFrom(s: string, i: nat): (r: string)
    requires i <= |s|
    requires forall j: nat :: j < i ==> !MarkerAt(s, j)
    ensures i <= |r| <= |s| && r == s[..|r|]
    ensures forall j: nat :: j < |r| ==> !MarkerAt(s, j)
    ensures |r| < |s| ==> MarkerAt(s, |r|)
    ensures |r| == |s| ==> forall j: nat :: !MarkerAt(s, j)
    decreases |s| - i
  {
    if i == |s| then s
    else if MarkerAt(s, i) then s[..i]
    else CutFrom(s, i + 1)
  }

  function CutName(name: string): (r: string)
    ensures |r| <= |name| && r == name[..|r|]
    ensures forall j: nat :: j < |r| ==> !MarkerAt(name, j)
    ensures |r| < |name| <==> exists j: nat :: MarkerAt(name, j)
    ensures |r| < |name| ==> MarkerAt(name, |r|)
  {
    CutFrom(name, 0)
  }

  lemma MarkerInPrefix(s: string, p: string, j: nat)
    requires |p| <= |s| && p == s[..|p|] && MarkerAt(p, j)
    ensures j < |p| && MarkerAt(s, j)
  {
    if OccursAt(p, "_generated", j) { OccursInPrefix(s, p, "_generated", j); }
    else if OccursAt(p, "_grp", j) { OccursInPrefix(s, p, "_grp", j); }
    else if OccursAt(p, "_mesh", j) { OccursInPrefix(s, p, "_mesh", j); }
    else { OccursInPrefix(s, p, "_Mesh", j); }
  }

  /** The kept prefix itself contains no separator. */
  lemma CutNameHasNoMarker(name: string, j: nat)
    ensures !MarkerAt(CutName(name), j)
  {
    var r := CutName(name);
    if MarkerAt(r, j) {
      MarkerInPrefix(name, r, j);
      assert false;
    }
  }

  /** cutName is idempotent. */
  lemma CutNameIdempotent(name: string)
    ensures CutName(CutName(name)) == CutName(name)
  {
    var r := CutName(name);
    forall j: nat ensures !MarkerAt(r, j) { CutNameHasNoMarker(name, j); }
  }
}
