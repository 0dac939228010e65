/** The verdicts read off the fields of an error's nodes: what each type's methods answer, and
    which node is asked. */
module VerdictFields {
  import opened Prelude
  import opened Errors
  import opened Verdicts

  // ---- Which node is asked ----

  /** The answer of the first node whose type has an IsTransient method. */
  function FirstVerdict(ns: seq<Error>): Option<bool> {
    if ns == [] then None
    else if !ns[0].Value? && ns[0].kind.transient.Some? then ns[0].kind.transient
    else FirstVerdict(ns[1..])
  }

  /** The wait named by the first node whose type has a RetryAfterHint method. */
  function FirstHint(ns: seq<Error>): Option<Int64> {
    if ns == [] then None
    else if !ns[0].Value? && ns[0].kind.hint.Some? then ns[0].kind.hint
    else FirstHint(ns[1..])
  }

  /** The Retry-After of the first rate limit. */
  function FirstRateLimit(ns: seq<Error>): Option<Int64> {
    if ns == [] then None
    else if !ns[0].Value? && ns[0].kind.tag.RateLimit? then Some(ns[0].kind.tag.retryAfter)
    else FirstRateLimit(ns[1..])
  }

  lemma {:induction false} FirstsAreFields(ns: seq<Error>)
    ensures match First(ns, TransientType)
            case Some(n) => Has(n, TransientType) && FirstVerdict(ns) == n.kind.transient
            case None => FirstVerdict(ns) == None
    ensures match First(ns, RetryAfterHintType)
            case Some(n) => Has(n, RetryAfterHintType) && FirstHint(ns) == n.kind.hint
            case None => FirstHint(ns) == None
    ensures match First(ns, RateLimitErrorType)
            case Some(n) => Has(n, RateLimitErrorType) && FirstRateLimit(ns) == Some(n.kind.tag.retryAfter)
            case None => FirstRateLimit(ns) == None
  {
    if ns != [] {
      FirstsAreFields(ns[1..]);
    }
  }

  // ---- IsTransient ----

  ghost predicate SomeMatch(e: Error, s: Sentinel) {
    exists n :: n in Nodes(e) && (n == Value(s) || (!n.Value? && s in n.kind.claims))
  }

  /** The caller's budget is gone: a cancellation; or a deadline that is the sentinel itself, or
      that a net package error reports without saying whose it was. */
  ghost predicate CallerIsOut(e: Error) {
    || SomeMatch(e, Canceled)
    || Value(DeadlineExceeded) in Nodes(e)
    || (SomeMatch(e, DeadlineExceeded) &&
        exists n :: n in Nodes(e) && !n.Value? && (n.kind.tag.OpError? || n.kind.tag.DNSError?))
  }

  lemma CallerIsOutExactly(e: Error)
    ensures IsCallerContextError(e) <==> CallerIsOut(e)
  {
    IsMeansSomeNode(e, Canceled);
    IsMeansSomeNode(e, DeadlineExceeded);
    AnyMatchesIffMember(Nodes(e), Canceled);
    AnyMatchesIffMember(Nodes(e), DeadlineExceeded);
    AsTypeFinds(e, OpErrorType);
    AsTypeFinds(e, DNSErrorType);
    AnyHasIffMember(Nodes(e), OpErrorType);
    AnyHasIffMember(Nodes(e), DNSErrorType);
  }

  ghost predicate HasVeto(e: Error) {
    exists n :: n in Nodes(e) && !n.Value? && (n.kind.tag.Permanent? || n.kind.tag.Auth? || n.kind.tag.RateLimit?)
  }

  ghost predicate HasAttemptTimeout(e: Error) {
    exists n :: n in Nodes(e) && !n.Value? && n.kind.tag.AttemptTimeout?
  }

  lemma VetoExactly(e: Error)
    ensures Vetoed(e) <==> HasVeto(e)
    ensures AsType(e, AttemptTimeoutType).Some? <==> HasAttemptTimeout(e)
  {
    var ns := Nodes(e);
    AsTypeFinds(e, PermanentErrorType);
    AsTypeFinds(e, AuthErrorType);
    AsTypeFinds(e, RateLimitErrorType);
    AsTypeFinds(e, AttemptTimeoutType);
    AnyHasIffMember(ns, PermanentErrorType);
    AnyHasIffMember(ns, AuthErrorType);
    AnyHasIffMember(ns, RateLimitErrorType);
    AnyHasIffMember(ns, AttemptTimeoutType);
  }

  /** A Permanent, Auth or RateLimit node anywhere is terminal; else an AttemptTimeout node anywhere
      is retried; else the caller's own end is terminal; else the first node that can say whether it
      is transient is believed, whatever it says; else the cause decides. */
  lemma IsTransientExactly(e: Error)
    ensures IsTransient(e) <==>
            && !HasVeto(e)
            && (HasAttemptTimeout(e) ||
                (!CallerIsOut(e) &&
                 match FirstVerdict(Nodes(e))
                 case Some(answer) => answer
                 case None => CauseOf(e) in {DNS, Refused, Reset, Timeout}))
  {
    VetoExactly(e);
    CallerIsOutExactly(e);
    FirstsAreFields(Nodes(e));
    AsTypeIsFirst(e, TransientType);
    FirstFinds(Nodes(e), TransientType);
  }

  /** So a status is as transient as its retry rule says. */
  lemma StatusesAreTransient(code: int)
    ensures IsTransient(HTTPStatusError(code)) <==> IsRetryableStatus(code)
    ensures CauseOf(HTTPStatusError(code)) == Unknown
  {
    var e := HTTPStatusError(code);
    assert Nodes(e) == [e];
    IsTransientExactly(e);
    LeafCause(e, e.kind);
  }

  // ---- CauseOf ----

  /** What one node says of a cause, by its type and methods. */
  lemma NodeFields(n: Error, k: Kind, p: Profile)
    requires !n.Value? && k == n.kind && p == NodeProfile(n)
    ensures p.oversized <==> k.tag.TooLarge? || k.tag.MaxBytes?
    ensures p.tls <==> k.tag.TLS? || SchemeMismatch in k.claims
    ensures p.alert == if k.tag.OpError? then Say(k.tag.op == "remote error") else Silent
    ensures p.dns <==> k.tag.DNSError?
    ensures p.refused <==> ConnRefused in k.claims
    ensures p.hungUp <==>
            ServerClosed in k.claims || ConnReset in k.claims || BrokenPipe in k.claims || UnexpectedEOF in k.claims
    ensures p.envelopeOverEOF == if k.tag.URLError? then Say(n.Wrap? && n.inner == Value(EndOfFile)) else Silent
    ensures p.timeout ==
            if k.tag.URLError? then Say(n.Wrap? && TimesOut(n.inner))
            else if k.timing.NetError? then Say(k.timing.expired)
            else Silent
  {
  }

  /** The cause of an error that holds nothing, by its type and methods. */
  lemma LeafCause(e: Error, k: Kind)
    requires e == Leaf(k)
    ensures CauseOf(e) ==
            if k.tag.TooLarge? || k.tag.MaxBytes? then Oversized
            else if k.tag.TLS? || SchemeMismatch in k.claims || k.tag == OpError("remote error") then TLSRefusal
            else if k.tag.DNSError? then DNS
            else if ConnRefused in k.claims then Refused
            else if ServerClosed in k.claims || ConnReset in k.claims || BrokenPipe in k.claims ||
              UnexpectedEOF in k.claims then Reset
            else if !k.tag.URLError? && k.timing == NetError(true) then Timeout
            else Unknown
  {
    LeafProfile(e);
    NodeFields(e, k, NodeProfile(e));
    CauseIsRule(e);
  }

  lemma SentinelFields(e: Error, s: Sentinel)
    requires e == Value(s)
    ensures NodeProfile(e) ==
            SILENT.(canceled := s == Canceled, deadlineHeld := s == DeadlineExceeded,
                    deadlineMatched := s == DeadlineExceeded, tls := s == SchemeMismatch, refused := s == ConnRefused,
                    hungUp := s in {ServerClosed, ConnReset, BrokenPipe, UnexpectedEOF},
                    timeout := if s == DeadlineExceeded then Yes
                               else if s in {ConnRefused, ConnReset, BrokenPipe} then No else Silent)
  {
  }

  lemma SentinelProfile(e: Error, s: Sentinel)
    requires e == Value(s)
    ensures ProfileOf(Nodes(e)) == if s == ServerClosed then SILENT.(hungUp := true) else NodeProfile(e)
  {
    if s == ServerClosed {
      HangUpProfile(Value(EndOfFile));
    } else {
      assert Nodes(e) == [e];
      GatherOfOne(e, NodeProfile);
    }
  }

  /** The cause of each bare sentinel. */
  lemma SentinelCause(e: Error, s: Sentinel)
    requires e == Value(s)
    ensures CauseOf(e) ==
            match s
            case SchemeMismatch => TLSRefusal
            case ConnRefused => Refused
            case ServerClosed => Reset
            case ConnReset => Reset
            case BrokenPipe => Reset
            case UnexpectedEOF => Reset
            case DeadlineExceeded => Timeout
            case _ => Unknown
  {
    CauseIsRule(e);
    SentinelProfile(e, s);
    SentinelFields(e, s);
  }

  /** What a node's Timeout method says: its own field; a *url.Error asks the error it holds. */
  lemma TimeoutExactly(n: Error)
    ensures TimesOut(n) <==>
            match n
            case Value(s) => s == DeadlineExceeded
            case Wrap(k, inner) =>
              if k.tag.URLError? then TimesOut(inner) else k.timing != Untimed && k.timing.expired
            case _ => !n.kind.tag.URLError? && n.kind.timing != Untimed && n.kind.timing.expired
  {
  }
}
