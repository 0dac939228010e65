/** Literal redaction: strings.ReplaceAll with a fixed marker, and exactly when its output is
    free of the secret. */
module Redaction {
  import opened Prelude

  const MARKER: string := "REDACTED"

  /** w occurs in s at position i. */
  predicate OccursAt(s: string, w: string, i: nat) {
    i + |w| <= |s| && forall j :: 0 <= j < |w| ==> s[i + j] == w[j]
  }

  predicate StartsWith(s: string, w: string) {
    OccursAt(s, w, 0)
  }

  ghost predicate Occurs(s: string, w: string) {
    exists i: nat :: OccursAt(s, w, i)
  }

  /** The pieces of s between the leftmost non-overlapping occurrences of w. */
  function Split(s: string, w: string): (pieces: seq<string>)
    requires w != []
    ensures pieces != []
  {
    if s == [] then [[]]
    else if StartsWith(s, w) then [[]] + Split(s[|w|..], w)
    else
      var rest := Split(s[1..], w);
      [[s[0]] + rest[0]] + rest[1..]
  }

  function Join(pieces: seq<string>, w: string): string
    requires pieces != []
  {
    if |pieces| == 1 then pieces[0] else pieces[0] + w + Join(pieces[1..], w)
  }

  /** strings.ReplaceAll(s, w, m): leftmost, non-overlapping. */
  function ReplaceAll(s: string, w: string, m: string): string
    requires w != []
  {
    if s == [] then []
    else if StartsWith(s, w) then m + ReplaceAll(s[|w|..], w, m)
    else [s[0]] + ReplaceAll(s[1..], w, m)
  }

  /** RedactSecretString. An empty secret disables redaction. */
  function Redact(s: string, secret: string): string {
    if secret == [] then s else ReplaceAll(s, secret, MARKER)
  }

  // ---- Putting the secret back ----

  lemma {:induction false} JoinPrepended(c: string, pieces: seq<string>, w: string)
    requires pieces != []
    ensures Join([c + pieces[0]] + pieces[1..], w) == c + Join(pieces, w)
  {
    var p := [c + pieces[0]] + pieces[1..];
    if |pieces| > 1 {
      assert p[1..] == pieces[1..];
      assert c + (pieces[0] + w + Join(pieces[1..], w)) == c + pieces[0] + w + Join(pieces[1..], w);
    }
  }

  lemma JoinAfterSeparator(pieces: seq<string>, w: string)
    requires pieces != []
    ensures Join([[]] + pieces, w) == w + Join(pieces, w)
  {
    assert ([[]] + pieces)[1..] == pieces;
    assert [] + w + Join(pieces, w) == w + Join(pieces, w);
  }

  lemma {:induction false} SplitThenJoin(s: string, w: string, m: string)
    requires w != []
    ensures Join(Split(s, w), m) == ReplaceAll(s, w, m)
  {
    if s == [] {
    } else if StartsWith(s, w) {
      SplitThenJoin(s[|w|..], w, m);
      JoinAfterSeparator(Split(s[|w|..], w), m);
    } else {
      SplitThenJoin(s[1..], w, m);
      JoinPrepended([s[0]], Split(s[1..], w), m);
    }
  }

  lemma {:induction false} ReplaceBySelf(s: string, w: string)
    requires w != []
    ensures ReplaceAll(s, w, w) == s
  {
    if s == [] {
    } else if StartsWith(s, w) {
      ReplaceBySelf(s[|w|..], w);
      assert s == w + s[|w|..];
    } else {
      ReplaceBySelf(s[1..], w);
    }
  }

  /** The output is the pieces of the input joined by the marker, and the same pieces joined
      by the secret are the input: at the inserted positions the secret can be put back. */
  lemma RedactionIsReversible(s: string, secret: string)
    requires secret != []
    ensures Join(Split(s, secret), MARKER) == Redact(s, secret)
    ensures Join(Split(s, secret), secret) == s
  {
    SplitThenJoin(s, secret, MARKER);
    SplitThenJoin(s, secret, secret);
    ReplaceBySelf(s, secret);
  }

  // ---- When the output is clean ----

  /** With b laid over a from position k on, the two agree wherever they overlap. */
  predicate AgreeFrom(a: string, k: nat, b: string)
    requires k <= |a|
  {
    forall j :: 0 <= j < |b| && k + j < |a| ==> a[k + j] == b[j]
  }

  /** The secret can start inside the marker: it lies in it, starts with it, or continues out
      of it. */
  predicate StartsInMarker(w: string, m: string) {
    exists k :: 0 <= k < |m| && AgreeFrom(m, k, w)
  }

  /** No occurrence of w in x + w comes before the final one. */
  predicate FirstAtEnd(x: string, w: string) {
    forall i :: 0 <= i < |x| ==> !OccursAt(x + w, w, i)
  }

  /** The marker can start inside the secret, behind a head that the scan would copy. */
  predicate RunsIntoMarker(w: string, m: string) {
    exists k :: 0 < k < |w| && AgreeFrom(w, k, m) && FirstAtEnd(w[..k], w)
  }

  /** The secret and the marker cannot combine into the secret. */
  predicate Separable(w: string, m: string) {
    !StartsInMarker(w, m) && !RunsIntoMarker(w, m)
  }

  lemma OccursInTail(s: string, w: string, d: nat, i: nat)
    requires d <= |s|
    ensures OccursAt(s[d..], w, i) <==> OccursAt(s, w, d + i)
  {
  }

  /** Before its first marker the output copies the input; there the input holds the secret,
      and nowhere before. */
  lemma {:induction false} CopiedHead(s: string, w: string, m: string) returns (q: nat)
    requires w != []
    ensures q <= |s| && q <= |ReplaceAll(s, w, m)|
    ensures forall j :: 0 <= j < q ==> ReplaceAll(s, w, m)[j] == s[j]
    ensures forall i :: 0 <= i < q ==> !OccursAt(s, w, i)
    ensures q < |s| ==> OccursAt(s, w, q) && OccursAt(ReplaceAll(s, w, m), m, q)
    ensures q == |s| ==> ReplaceAll(s, w, m) == s
  {
    q := 0;
    if s != [] && !StartsWith(s, w) {
      var p := CopiedHead(s[1..], w, m);
      q := p + 1;
      NotEarlier(s, w, p);
      OccursInTail(s, w, 1, p);
      var out, rest := ReplaceAll(s, w, m), ReplaceAll(s[1..], w, m);
      assert out == [s[0]] + rest && out[1..] == rest;
      OccursInTail(out, m, 1, p);
    }
  }

  lemma NotEarlier(s: string, w: string, p: nat)
    requires s != [] && !OccursAt(s, w, 0)
    requires forall i :: 0 <= i < p ==> !OccursAt(s[1..], w, i)
    ensures forall i :: 0 <= i < p + 1 ==> !OccursAt(s, w, i)
  {
    forall i | 0 < i < p + 1 ensures !OccursAt(s, w, i) {
      OccursInTail(s, w, 1, i - 1);
    }
  }

  /** If the first occurrence of w in s is at q, it is the first in s[..q] + w too. */
  lemma HeadIsScanned(s: string, w: string, q: nat)
    requires OccursAt(s, w, q) && forall i :: 0 <= i < q ==> !OccursAt(s, w, i)
    ensures FirstAtEnd(s[..q], w)
  {
    var t := s[..q] + w;
    assert forall j :: 0 <= j < |t| ==> t[j] == s[j];
    forall i | 0 <= i < q ensures !OccursAt(t, w, i) {
      assert !OccursAt(s, w, i);
      var j :| 0 <= j < |w| && s[i + j] != w[j];
      assert t[i + j] == s[i + j];
    }
  }

  /** A separable secret cannot sit at the front of an output whose input does not start with
      it. */
  lemma FrontIsClean(s: string, w: string, m: string)
    requires w != [] && Separable(w, m) && s != [] && !StartsWith(s, w)
    ensures !OccursAt(ReplaceAll(s, w, m), w, 0)
  {
    var out := ReplaceAll(s, w, m);
    var q := CopiedHead(s, w, m);
    if q < |s| && q < |w| {
      HeadIsScanned(s, w, q);
      assert w[..q] == s[..q] || !OccursAt(out, w, 0);
      assert AgreeFrom(w, q, m) || !OccursAt(out, w, 0);
    }
  }

  lemma InsideMarkerIsClean(rest: string, w: string, m: string, i: nat)
    requires i < |m| && !StartsInMarker(w, m)
    ensures !OccursAt(m + rest, w, i)
  {
    assert !AgreeFrom(m, i, w);
    var j :| 0 <= j < |w| && i + j < |m| && m[i + j] != w[j];
    assert (m + rest)[i + j] == m[i + j];
  }

  /** A separable secret never survives: no output holds it anywhere. */
  lemma {:induction false} SeparableIsClean(s: string, w: string, m: string, i: nat)
    requires w != [] && Separable(w, m)
    ensures !OccursAt(ReplaceAll(s, w, m), w, i)
    decreases |s|
  {
    var out := ReplaceAll(s, w, m);
    if s == [] {
    } else if StartsWith(s, w) {
      var rest := ReplaceAll(s[|w|..], w, m);
      if i < |m| {
        InsideMarkerIsClean(rest, w, m, i);
      } else {
        OccursInTail(out, w, |m|, i - |m|);
        assert out[|m|..] == rest;
        SeparableIsClean(s[|w|..], w, m, i - |m|);
      }
    } else if i == 0 {
      FrontIsClean(s, w, m);
    } else {
      OccursInTail(out, w, 1, i - 1);
      assert out[1..] == ReplaceAll(s[1..], w, m);
      SeparableIsClean(s[1..], w, m, i - 1);
    }
  }

  // ---- A secret that is not separable shows in some output ----

  /** A head in front of the first occurrence is copied. */
  lemma {:induction false} CopiesUntilSecret(x: string, w: string, y: string, m: string)
    requires w != [] && FirstAtEnd(x, w)
    ensures ReplaceAll(x + w + y, w, m) == x + m + ReplaceAll(y, w, m)
  {
    var s := x + w + y;
    if x == [] {
      assert s == w + y && s[|w|..] == y && StartsWith(s, w);
      assert x + m + ReplaceAll(y, w, m) == m + ReplaceAll(y, w, m);
    } else {
      assert !OccursAt(x + w, w, 0);
      assert forall j :: 0 <= j < |w| ==> s[j] == (x + w)[j];
      assert s[1..] == x[1..] + w + y;
      assert (x + w)[1..] == x[1..] + w;
      forall i | 0 <= i < |x[1..]| ensures !OccursAt(x[1..] + w, w, i) {
        OccursInTail(x + w, w, 1, i);
      }
      CopiesUntilSecret(x[1..], w, y, m);
      assert [x[0]] + (x[1..] + m + ReplaceAll(y, w, m)) == x + m + ReplaceAll(y, w, m);
    }
  }

  lemma OccursInHead(head: string, tail: string, w: string, j: nat)
    requires j + |w| <= |head|
    ensures OccursAt(head + tail, w, j) <==> OccursAt(head, w, j)
  {
  }

  /** strings.ReplaceAll over every text: it is copied up to the first occurrence of the secret,
      which the marker replaces, and the rest is treated the same ... */
  lemma RedactionIsLeftmost(s: string, secret: string, i: nat)
    requires secret != [] && OccursAt(s, secret, i) && forall j: nat :: j < i ==> !OccursAt(s, secret, j)
    ensures Redact(s, secret) == s[..i] + "REDACTED" + Redact(s[i + |secret|..], secret)
  {
    var x, y := s[..i], s[i + |secret|..];
    assert s == x + secret + y;
    forall j | 0 <= j < |x| ensures !OccursAt(x + secret, secret, j) {
      OccursInHead(x + secret, y, secret, j);
    }
    CopiesUntilSecret(x, secret, y, MARKER);
  }

  /** ... and a text that does not hold it comes back as it was, as every text does without a
      secret. */
  lemma {:induction false} RedactionCopiesTheRest(s: string, secret: string)
    requires secret == [] || !Occurs(s, secret)
    ensures Redact(s, secret) == s
  {
    if secret != [] && s != [] {
      assert !OccursAt(s, secret, 0);
      forall j: nat ensures !OccursAt(s[1..], secret, j) {
        OccursInTail(s, secret, 1, j);
      }
      RedactionCopiesTheRest(s[1..], secret);
    }
  }

  lemma {:induction false} ShortIsCopied(y: string, w: string, m: string)
    requires |y| < |w|
    ensures ReplaceAll(y, w, m) == y
  {
    if y != [] {
      ShortIsCopied(y[1..], w, m);
    }
  }

  /** What the marker does not cover of a secret that starts inside it at k. */
  lemma MarkerCompletes(w: string, m: string, k: nat, n: nat)
    requires k < |m| && AgreeFrom(m, k, w) && n == Min(|m| - k, |w|)
    ensures OccursAt(m + w[n..], w, k)
  {
    var out := m + w[n..];
    forall j | 0 <= j < |w| ensures out[k + j] == w[j] {
      if j < n {
        assert out[k + j] == m[k + j];
      } else {
        assert out[k + j] == w[n..][j - n];
      }
    }
  }

  /** A secret that starts inside the marker at k comes back when it is followed by what the
      marker does not cover of it. */
  lemma LeaksFromMarker(w: string, m: string, k: nat) returns (s: string)
    requires w != [] && k < |m| && AgreeFrom(m, k, w)
    ensures OccursAt(ReplaceAll(s, w, m), w, k)
  {
    var n := Min(|m| - k, |w|);
    var y := w[n..];
    s := [] + w + y;
    CopiesUntilSecret([], w, y, m);
    ShortIsCopied(y, w, m);
    assert [] + m + y == m + y;
    MarkerCompletes(w, m, k, n);
  }

  /** A secret the marker starts inside of at k comes back when it follows its own head. */
  lemma LeaksIntoMarker(w: string, m: string, k: nat) returns (s: string)
    requires 0 < k < |w| && AgreeFrom(w, k, m) && FirstAtEnd(w[..k], w)
    ensures OccursAt(ReplaceAll(s, w, m), w, 0)
  {
    var n := Min(|w| - k, |m|);
    var y := w[k + n..];
    s := w[..k] + w + y;
    CopiesUntilSecret(w[..k], w, y, m);
    ShortIsCopied(y, w, m);
    var out := w[..k] + m + y;
    forall j | 0 <= j < |w| ensures out[j] == w[j] {
      if k <= j < k + n {
        assert out[j] == m[j - k];
      } else if k + n <= j {
        assert out[j] == y[j - k - n];
      }
    }
  }

  /** Every secret that is not separable leaks from some input. */
  lemma InseparableLeaks(w: string, m: string) returns (s: string)
    requires w != [] && !Separable(w, m)
    ensures Occurs(ReplaceAll(s, w, m), w)
  {
    if StartsInMarker(w, m) {
      var k: nat :| 0 <= k < |m| && AgreeFrom(m, k, w);
      s := LeaksFromMarker(w, m, k);
      assert OccursAt(ReplaceAll(s, w, m), w, k);
    } else {
      var k: nat :| 0 < k < |w| && AgreeFrom(w, k, m) && FirstAtEnd(w[..k], w);
      s := LeaksIntoMarker(w, m, k);
      assert OccursAt(ReplaceAll(s, w, m), w, 0);
    }
  }

  /** Redaction is clean on every input exactly when the secret is separable from REDACTED: a
      check on the secret alone, made before any call. */
  lemma RedactionIsCleanExactly(secret: string)
    requires secret != []
    ensures (forall s :: !Occurs(Redact(s, secret), secret)) <==> Separable(secret, MARKER)
  {
    if Separable(secret, MARKER) {
      forall s ensures !Occurs(Redact(s, secret), secret) {
        forall i: nat ensures !OccursAt(Redact(s, secret), secret, i) {
          SeparableIsClean(s, secret, MARKER, i);
        }
      }
    } else {
      var s := InseparableLeaks(secret, MARKER);
      assert Occurs(Redact(s, secret), secret);
    }
  }

  /** The plain sufficient condition: the secret neither contains nor is contained in the
      marker, and neither end of it overlaps the opposite end of the marker. */
  lemma NoOverlapIsSeparable(w: string, m: string)
    requires forall k :: 0 <= k < |m| ==> !AgreeFrom(m, k, w)
    requires forall k :: 0 < k < |w| ==> !AgreeFrom(w, k, m)
    ensures Separable(w, m)
  {
  }

  lemma {:induction false} NothingToReplace(s: string, w: string, m: string)
    requires w != [] && !Occurs(s, w)
    ensures ReplaceAll(s, w, m) == s
  {
    if s != [] {
      assert !OccursAt(s, w, 0);
      forall i: nat ensures !OccursAt(s[1..], w, i) {
        OccursInTail(s, w, 1, i);
      }
      NothingToReplace(s[1..], w, m);
    }
  }

  lemma {:induction false} ReplaceGrows(s: string, w: string, m: string)
    requires w != []
    ensures |m| > |w| ==> |ReplaceAll(s, w, m)| >= |s| && (Occurs(s, w) ==> |ReplaceAll(s, w, m)| > |s|)
    ensures |m| < |w| ==> |ReplaceAll(s, w, m)| <= |s| && (Occurs(s, w) ==> |ReplaceAll(s, w, m)| < |s|)
  {
    if s != [] {
      if StartsWith(s, w) {
        ReplaceGrows(s[|w|..], w, m);
      } else {
        ReplaceGrows(s[1..], w, m);
        if Occurs(s, w) {
          OccursLater(s, w);
        }
      }
    }
  }

  lemma OccursLater(s: string, w: string)
    requires s != [] && !StartsWith(s, w) && Occurs(s, w)
    ensures Occurs(s[1..], w)
  {
    var i: nat :| OccursAt(s, w, i);
    OccursInTail(s, w, 1, i - 1);
  }

  /** A replacement that finds the text changes the string, unless it puts the same text back. */
  lemma {:induction false} ReplaceChanges(s: string, w: string, m: string)
    requires w != [] && w != m && Occurs(s, w)
    ensures ReplaceAll(s, w, m) != s
  {
    if |m| != |w| {
      ReplaceGrows(s, w, m);
    } else if StartsWith(s, w) {
      assert ReplaceAll(s, w, m)[..|w|] == m;
      assert s[..|w|] == w;
    } else {
      OccursLater(s, w);
      ReplaceChanges(s[1..], w, m);
      assert ReplaceAll(s, w, m)[1..] == ReplaceAll(s[1..], w, m);
    }
  }

  /** Redacting twice changes nothing more, on every input, exactly for a secret that never
      leaks; and trivially for no secret, or for the marker itself. */
  lemma RedactionIsIdempotentExactly(secret: string)
    ensures (forall s :: Redact(Redact(s, secret), secret) == Redact(s, secret)) <==>
            secret == [] || secret == MARKER || Separable(secret, MARKER)
  {
    if secret == MARKER {
      forall s ensures Redact(Redact(s, secret), secret) == Redact(s, secret) {
        ReplaceBySelf(s, secret);
      }
    } else if secret != [] && Separable(secret, MARKER) {
      RedactionIsCleanExactly(secret);
      forall s ensures Redact(Redact(s, secret), secret) == Redact(s, secret) {
        NothingToReplace(Redact(s, secret), secret, MARKER);
      }
    } else if secret != [] {
      var s := InseparableLeaks(secret, MARKER);
      ReplaceChanges(Redact(s, secret), secret, MARKER);
      assert Redact(Redact(s, secret), secret) != Redact(s, secret);
    }
  }

  /** The condition is needed: a secret can lie in the marker, continue out of it, or run into
      it. It is not mere overlap: "RR" ends in the marker's first letter, yet no output holds
      it, because the scan would have taken it one place earlier. */
  lemma OverlapExamples()
    ensures !Separable("RED", MARKER) && !Separable("D1", MARKER) && !Separable(" RE", MARKER)
    ensures AgreeFrom("RR", 1, MARKER) && Separable("RR", MARKER)
  {
    assert AgreeFrom(MARKER, 0, "RED");
    assert AgreeFrom(MARKER, 7, "D1");
    var w := " RE";
    assert AgreeFrom(w, 1, MARKER) && w[..1] == " ";
    assert (" " + w)[0 + 1] == ' ' != w[1];
    assert !OccursAt(" " + w, w, 0);
    var r := "RR";
    assert r[..1] == "R" && OccursAt("R" + r, r, 0);
    assert forall k :: 0 <= k < 7 ==> MARKER[k] != r[0] || MARKER[k + 1] != r[1];
    assert MARKER[7] != r[0];
  }
}
