/** Reducing *url.Error envelopes out of an error before it is shown. */
module URLErrors {
  import opened Prelude
  import opened Errors
  import opened Verdicts

  const MAX_URL_ERROR_DEPTH: nat := 8

  /** One reduction: the cause of the first *url.Error in the chain, or None when there is
      none. A *url.Error that holds nothing reduces to errRequestFailed. */
  function ReduceOnce(e: Error): Option<Error> {
    var u := AsType(e, URLErrorType);
    if u.None? then None
    else
      match URLCause(u.value)
      case Some(c) => Some(NameHangUp(c))
      case None => Some(Value(RequestFailed))
  }

  /** k reductions in a row; None if the chain ran out of envelopes before that. */
  ghost function Iterate<E>(once: E -> Option<E>, e: E, k: nat): Option<E>
    decreases k
  {
    if k == 0 then Some(e)
    else
      match once(e)
      case Some(next) => Iterate(once, next, k - 1)
      case None => None
  }

  /** Exactly k reductions leave nothing to reduce. */
  ghost predicate EndsAfter<E>(once: E -> Option<E>, e: E, k: nat) {
    Iterate(once, e, k).Some? && once(Iterate(once, e, k).value) == None
  }

  lemma {:induction false} IterateOneMore<E>(once: E -> Option<E>, e: E, k: nat)
    requires Iterate(once, e, k).Some?
    ensures Iterate(once, e, k + 1) == once(Iterate(once, e, k).value)
    decreases k
  {
    if k > 0 {
      IterateOneMore(once, once(e).value, k - 1);
    }
  }

  /** reduceURLErrors, over any graph of errors: once says what one reduction gives, so a
      *url.Error that is its own cause is a fixed point of it. The result never holds an
      envelope; it is the end of the chain when at most eight reductions reach one, and the
      contentless stand-in otherwise. */
  method ReduceURLErrors<E>(err: E, once: E -> Option<E>, failed: E) returns (r: E)
    requires once(failed) == None
    ensures once(r) == None
    ensures once(err) == None ==> r == err
    ensures forall k: nat :: k <= MAX_URL_ERROR_DEPTH && EndsAfter(once, err, k) ==> r == Iterate(once, err, k).value
    ensures (forall k: nat :: k <= MAX_URL_ERROR_DEPTH ==> !EndsAfter(once, err, k)) ==> r == failed
    ensures once(err) == Some(err) ==> r == failed
  {
    r := err;
    for i := 0 to MAX_URL_ERROR_DEPTH
      invariant Iterate(once, err, i) == Some(r)
      invariant forall k: nat :: k < i ==> !EndsAfter(once, err, k)
    {
      if once(err) == Some(err) {
        SelfReferenceNeverRunsOut(once, err, i);
      }
      var next := once(r);
      if next.None? {
        assert EndsAfter(once, err, i);
        RunsOutAfter(once, err, i);
        return;
      }
      IterateOneMore(once, err, i);
      r := next.value;
    }
    if once(err) == Some(err) {
      SelfReferenceNeverRunsOut(once, err, MAX_URL_ERROR_DEPTH);
    }
    assert once(r) == None ==> EndsAfter(once, err, MAX_URL_ERROR_DEPTH);
    if once(r).Some? {
      r := failed;
    }
  }

  lemma {:induction false} RunsOutAfter<E>(once: E -> Option<E>, e: E, i: nat)
    requires EndsAfter(once, e, i)
    ensures forall k: nat :: k > i ==> Iterate(once, e, k) == None
    decreases i
  {
    if i > 0 {
      RunsOutAfter(once, once(e).value, i - 1);
      forall k: nat | k > i ensures Iterate(once, e, k) == None {
        assert Iterate(once, e, k) == Iterate(once, once(e).value, k - 1);
      }
    }
  }

  /** A *url.Error that is its own cause never runs out, so it reduces to the stand-in. */
  lemma {:induction false} SelfReferenceNeverRunsOut<E>(once: E -> Option<E>, e: E, k: nat)
    requires once(e) == Some(e)
    ensures Iterate(once, e, k) == Some(e)
    decreases k
  {
    if k > 0 {
      SelfReferenceNeverRunsOut(once, e, k - 1);
    }
  }

  // ---- Over finite trees ----

  /** An error has nothing left to reduce exactly when no node of its tree is a *url.Error. */
  lemma ReducedMeansURLFree(e: Error)
    ensures ReduceOnce(e) == None <==> forall n :: n in Nodes(e) ==> !IsURLError(n)
  {
    AsTypeFinds(e, URLErrorType);
    AnyHasIffMember(Nodes(e), URLErrorType);
    assert forall n :: Has(n, URLErrorType) <==> IsURLError(n);
  }

  lemma {:induction false} AsTypeIsInside(e: Error, t: TypeName)
    requires AsType(e, t).Some?
    ensures AsType(e, t).value == e || AsType(e, t).value < e
    decreases e, 1
  {
    if !Has(e, t) {
      match e
      case Wrap(_, inner) => AsTypeIsInside(inner, t);
      case Join(_, inners) => AsTypeAnyIsInside(inners, t, e);
    }
  }

  lemma {:induction false} AsTypeAnyIsInside(es: seq<Error>, t: TypeName, e: Error)
    requires AsTypeAny(es, t).Some? && forall x :: x in es ==> x < e
    ensures AsTypeAny(es, t).value < e
    decreases es, 0
  {
    assert es[0] in es && forall x :: x in es[1..] ==> x in es;
    if AsType(es[0], t).Some? {
      AsTypeIsInside(es[0], t);
    } else {
      AsTypeAnyIsInside(es[1..], t, e);
    }
  }

  /** How many reductions a finite tree takes: each goes to a strictly smaller tree, or to a
      bare value that has nothing left. */
  ghost function Envelopes(e: Error): nat
    decreases e
  {
    match ReduceOnce(e)
    case None => 0
    case Some(next) =>
      if next.Value? then 1
      else
        ReductionShrinks(e);
        1 + Envelopes(next)
  }

  /** The unbounded fixpoint. */
  ghost function Innermost(e: Error): Error
    decreases e
  {
    match ReduceOnce(e)
    case None => e
    case Some(next) =>
      if next.Value? then next
      else
        ReductionShrinks(e);
        Innermost(next)
  }

  lemma ReductionShrinks(e: Error)
    requires ReduceOnce(e).Some? && !ReduceOnce(e).value.Value?
    ensures ReduceOnce(e).value < e
  {
    AsTypeIsInside(e, URLErrorType);
  }

  /** A *url.Error without a cause reduces to the stand-in, whatever is around it. */
  lemma CauselessIsStandIn(k: Kind)
    requires k.tag.URLError?
    ensures LogSafe(Leaf(k)) == Value(RequestFailed)
    ensures LogSafe(Wrap(k, Value(EndOfFile))) == Value(ServerClosed)
  {
    assert AsType(Leaf(k), URLErrorType) == Some(Leaf(k));
  }

  /** The fixpoint is reached after exactly Envelopes(e) reductions and holds no envelope. */
  lemma {:induction false} InnermostIsReached(e: Error)
    ensures Iterate(ReduceOnce, e, Envelopes(e)) == Some(Innermost(e))
    ensures ReduceOnce(Innermost(e)) == None
    decreases e
  {
    if ReduceOnce(e).Some? {
      var next := ReduceOnce(e).value;
      if next.Value? {
        assert Iterate(ReduceOnce, next, 0) == Some(next);
      } else {
        ReductionShrinks(e);
        InnermostIsReached(next);
      }
    }
  }

  /** What is left of an error once its envelopes are gone, eight reductions deep at most. */
  ghost function LogSafe(e: Error): Error {
    if Envelopes(e) <= MAX_URL_ERROR_DEPTH then Innermost(e) else Value(RequestFailed)
  }

  lemma LogSafeIsURLFree(e: Error)
    ensures !HasURLError(LogSafe(e))
    ensures !HasURLError(e) ==> LogSafe(e) == e
  {
    InnermostIsReached(e);
    AsTypeFinds(LogSafe(e), URLErrorType);
    AsTypeFinds(e, URLErrorType);
  }

  /** LogSafeError on a finite tree: nil stays nil, a failure never becomes nil, no *url.Error
      survives anywhere in the result, an error without one is returned as it was, and the
      result is the unbounded fixpoint exactly when at most eight reductions reach it. */
  method LogSafeError(err: Option<Error>) returns (r: Option<Error>)
    ensures err.None? <==> r.None?
    ensures err.Some? ==> forall n :: n in Nodes(r.value) ==> !IsURLError(n)
    ensures err.Some? && !HasURLError(err.value) ==> r == err
    ensures err.Some? ==> r.value == LogSafe(err.value)
  {
    if err.None? {
      return None;
    }
    var e := err.value;
    var reduced := ReduceURLErrors(e, ReduceOnce, Value(RequestFailed));
    r := Some(reduced);
    InnermostIsReached(e);
    ReducedMeansURLFree(reduced);
    AsTypeFinds(e, URLErrorType);
    if Envelopes(e) > MAX_URL_ERROR_DEPTH {
      forall k: nat | k <= MAX_URL_ERROR_DEPTH ensures !EndsAfter(ReduceOnce, e, k) {
        if EndsAfter(ReduceOnce, e, k) {
          RunsOutAfter(ReduceOnce, e, k);
        }
      }
    }
  }

  /** The bound bites only past eight envelopes: nine nested ones lose their cause, eight keep
      it. */
  ghost function Nested(depth: nat, c: Error): Error {
    if depth == 0 then c else Wrap(URL_ERROR, Nested(depth - 1, c))
  }

  lemma {:induction false} NestedEnvelopes(depth: nat, c: Error)
    requires !HasURLError(c) && c != Value(EndOfFile)
    ensures Envelopes(Nested(depth, c)) == depth && Innermost(Nested(depth, c)) == c
    ensures LogSafe(Nested(depth, c)) == if depth <= 8 then c else Value(RequestFailed)
  {
    AsTypeFinds(c, URLErrorType);
    if depth > 0 {
      NestedEnvelopes(depth - 1, c);
      assert ReduceOnce(Nested(depth, c)) == Some(Nested(depth - 1, c));
      if !Nested(depth - 1, c).Value? {
        ReductionShrinks(Nested(depth, c));
      }
    }
  }

  /** One reduction goes from an envelope to NameHangUp of what it holds, whatever that is, and
      keeps what CauseOf says under the exact condition of EnvelopeKeepsCauseExactly. Over a
      URL-free cause it is the whole reduction. */
  lemma ReductionKeepsCauseExactly(c: Error)
    ensures ReduceOnce(Wrap(URL_ERROR, c)) == Some(NameHangUp(c))
    ensures CauseOf(ReduceOnce(Wrap(URL_ERROR, c)).value) == CauseOf(Wrap(URL_ERROR, c)) <==> CauseSeenAlike(c)
    ensures !HasURLError(c) ==>
              Envelopes(Wrap(URL_ERROR, c)) == 1 && Innermost(Wrap(URL_ERROR, c)) == NameHangUp(c)
  {
    AsTypeFinds(c, URLErrorType);
    assert ReduceOnce(Wrap(URL_ERROR, c)) == Some(NameHangUp(c));
    if !NameHangUp(c).Value? {
      ReductionShrinks(Wrap(URL_ERROR, c));
    }
    EnvelopeKeepsCauseExactly(c);
  }
}
