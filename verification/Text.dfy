/** ASCII text: case folding, white space, digits, and the last index of a byte. */
module Text {
  import opened Prelude

  // ---- Case folding ----

  function LowerChar(c: char): char {
    if 'A' <= c <= 'Z' then c + ('a' - 'A') else c
  }

  /** The bytewise map: only A to Z change. */
  function Lower(s: string): (r: string)
    ensures |r| == |s| && forall i :: 0 <= i < |s| ==> r[i] == LowerChar(s[i])
  {
    seq(|s|, i requires 0 <= i < |s| => LowerChar(s[i]))
  }

  /** asciiLower: a copy is made at the first upper-case letter and patched in place from
      there; without one the string itself comes back. Either way it is the bytewise map. */
  method AsciiLower(s: string) returns (r: string)
    ensures r == Lower(s)
  {
    var b: array?<char> := null;
    for i := 0 to |s|
      invariant b == null ==> forall j :: 0 <= j < i ==> LowerChar(s[j]) == s[j]
      invariant b != null ==> fresh(b) && b.Length == |s|
      invariant b != null ==> forall j :: 0 <= j < i ==> b[j] == LowerChar(s[j])
      invariant b != null ==> forall j :: i <= j < |s| ==> b[j] == s[j]
    {
      var c := s[i];
      if 'A' <= c <= 'Z' {
        if b == null {
          b := new char[|s|](j requires 0 <= j < |s| => s[j]);
        }
        b[i] := c + ('a' - 'A');
      }
    }
    if b == null {
      assert s == Lower(s);
      return s;
    }
    r := b[..];
  }

  lemma LowerIsIdempotent(s: string)
    ensures Lower(Lower(s)) == Lower(s)
  {
  }

  const CAPITALS: string := "ABCDEFGHIJKLMNOPQRSTUVWXYZ"
  const SMALLS: string := "abcdefghijklmnopqrstuvwxyz"

  /** Each capital becomes its small letter, and nothing else changes. */
  lemma OnlyCapitalsFold(c: char)
    ensures forall i :: 0 <= i < 26 ==> LowerChar(CAPITALS[i]) == SMALLS[i]
    ensures c !in CAPITALS ==> LowerChar(c) == c
  {
    if 'A' <= c <= 'Z' {
      assert CAPITALS[(c - 'A') as int] == c;
    }
  }

  // ---- White space ----

  predicate IsSpace(c: char) {
    c == ' ' || '\t' <= c <= '\r'
  }

  function TrimSpace(s: string): string {
    if s != [] && IsSpace(s[0]) then TrimSpace(s[1..])
    else if s != [] && IsSpace(s[|s| - 1]) then TrimSpace(s[..|s| - 1])
    else s
  }

  predicate AllSpace(s: string) {
    forall i :: 0 <= i < |s| ==> IsSpace(s[i])
  }

  /** The six ASCII spaces are taken off both ends, and nothing else. */
  lemma {:induction false} TrimSpaceExactly(before: string, s: string, after: string)
    requires AllSpace(before) && AllSpace(after)
    requires s != [] ==> !IsSpace(s[0]) && !IsSpace(s[|s| - 1])
    ensures TrimSpace(before + s + after) == s
    decreases |before| + |after|
  {
    var all := before + s + after;
    if before != [] {
      TrimSpaceExactly(before[1..], s, after);
      assert all[1..] == before[1..] + s + after;
    } else if after != [] {
      var n := |after| - 1;
      TrimSpaceExactly([], s, if s == [] then after[1..] else after[..n]);
      assert s == [] ==> all[1..] == [] + s + after[1..];
      assert s != [] ==> all[..|all| - 1] == [] + s + after[..n] && all[0] == s[0];
    } else {
      assert all == s;
    }
  }

  lemma SpacesAreSix(c: char)
    ensures IsSpace(c) <==> c in [' ', '\t', '\n', 11 as char, 12 as char, '\r']
  {
  }

  // ---- Digits ----

  predicate IsDigit(c: char) {
    '0' <= c <= '9'
  }

  predicate AllDigits(s: string) {
    forall i :: 0 <= i < |s| ==> IsDigit(s[i])
  }

  /** The unbounded number a run of digits denotes. */
  function NumberOf(s: string): nat
    requires AllDigits(s)
  {
    if s == [] then 0 else NumberOf(s[..|s| - 1]) * 10 + (s[|s| - 1] - '0') as nat
  }

  const DIGITS: string := "0123456789"

  /** The decimal numeral of n. */
  function Numeral(n: nat): (s: string)
    ensures s != [] && AllDigits(s)
  {
    if n < 10 then [DIGITS[n]] else Numeral(n / 10) + [DIGITS[n % 10]]
  }

  /** Every number is read back from its numeral, behind any number of zeros. */
  lemma {:induction false} NumeralReadsBack(n: nat)
    ensures NumberOf(Numeral(n)) == n
  {
    if n >= 10 {
      NumeralReadsBack(n / 10);
      assert Numeral(n)[..|Numeral(n)| - 1] == Numeral(n / 10);
    } else {
      assert NumberOf([]) == 0 && Numeral(n)[..0] == [];
    }
  }

  lemma DigitsAreTen(c: char)
    ensures IsDigit(c) <==> c in DIGITS
  {
    if IsDigit(c) {
      assert DIGITS[(c - '0') as int] == c;
    }
  }

  // ---- Searching ----

  predicate HasSuffix(s: string, suffix: string) {
    |suffix| <= |s| && s[|s| - |suffix|..] == suffix
  }

  lemma HasSuffixExactly(s: string, suffix: string)
    ensures HasSuffix(s, suffix) <==> exists head: string :: s == head + suffix
  {
    if HasSuffix(s, suffix) {
      assert s == s[..|s| - |suffix|] + suffix;
    }
  }

  /** strings.LastIndexByte: None where Go answers -1. */
  function LastIndex(s: string, c: char): (r: Option<nat>)
    ensures r.Some? ==> r.value < |s| && s[r.value] == c && c !in s[r.value + 1..]
    ensures r.None? ==> c !in s
  {
    if s == [] then None
    else if s[|s| - 1] == c then Some(|s| - 1)
    else
      var r := LastIndex(s[..|s| - 1], c);
      assert s == s[..|s| - 1] + [s[|s| - 1]];
      r
  }
}
