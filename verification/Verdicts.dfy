/** What an error means for a retry loop: its cause below HTTP, whether it is the caller's
    own context ending, and whether it is worth another attempt. */
module Verdicts {
  import opened Prelude
  import opened Errors

  datatype Cause = Unknown | DNS | Refused | Reset | Timeout | TLSRefusal | Oversized

  // ---- The code ----

  /** The bare io.EOF of a round trip is the server closing before its first byte. */
  function NameHangUp(e: Error): Error {
    if e == Value(EndOfFile) then Value(ServerClosed) else e
  }

  predicate IsTooLarge(e: Error) {
    AsType(e, ResponseTooLargeType).Some? || AsType(e, MaxBytesType).Some?
  }

  predicate IsTLSFailure(e: Error) {
    AsType(e, TLSFailureType(CertificateVerification)).Some? ||
    AsType(e, TLSFailureType(UnknownAuthority)).Some? ||
    AsType(e, TLSFailureType(Hostname)).Some? ||
    AsType(e, TLSFailureType(CertificateInvalid)).Some? ||
    AsType(e, TLSFailureType(RecordHeader)).Some? ||
    Is(e, SchemeMismatch) ||
    var op := AsType(e, OpErrorType);
    op.Some? && Has(op.value, OpErrorType) && op.value.kind.tag.op == "remote error"
  }

  /** The hang-ups that are recognised wherever in the tree they are. */
  predicate IsHungUp(e: Error) {
    Is(e, ServerClosed) || Is(e, ConnReset) || Is(e, BrokenPipe) || Is(e, UnexpectedEOF)
  }

  predicate IsReset(e: Error) {
    var u := AsType(e, URLErrorType);
    (u.Some? && URLCause(u.value).Some? && Is(NameHangUp(URLCause(u.value).value), ServerClosed)) || IsHungUp(e)
  }

  predicate IsTimeout(e: Error) {
    var n := AsType(e, NetErrorType);
    n.Some? && TimesOut(n.value)
  }

  function CauseOf(e: Error): Cause {
    if IsTooLarge(e) then Oversized
    else if IsTLSFailure(e) then TLSRefusal
    else if AsType(e, DNSErrorType).Some? then DNS
    else if Is(e, ConnRefused) then Refused
    else if IsReset(e) then Reset
    else if IsTimeout(e) then Timeout
    else Unknown
  }

  predicate IsCallerContextError(e: Error) {
    if Is(e, Canceled) then true
    else if !Is(e, DeadlineExceeded) then false
    else if Value(DeadlineExceeded) in Nodes(e) then true
    else AsType(e, OpErrorType).Some? || AsType(e, DNSErrorType).Some?
  }

  function TransientVerdict(e: Error): Option<bool> {
    if e.Value? then None else e.kind.transient
  }

  predicate IsTransient(e: Error) {
    if AsType(e, PermanentErrorType).Some? then false
    else if AsType(e, AuthErrorType).Some? then false
    else if AsType(e, RateLimitErrorType).Some? then false
    else if AsType(e, AttemptTimeoutType).Some? then true
    else if IsCallerContextError(e) then false
    else
      var t := AsType(e, TransientType);
      if t.Some? then TransientVerdict(t.value) == Some(true)
      else CauseOf(e) in {DNS, Refused, Reset, Timeout}
  }

  function MarkPermanent(e: Option<Error>): Option<Error> {
    if e.None? then None else Some(Wrap(PERMANENT, e.value))
  }

  function MarkTransient(e: Option<Error>): Option<Error> {
    if e.None? then None else Some(Wrap(MARKED_TRANSIENT, e.value))
  }

  function MarkAttemptTimeout(e: Option<Error>): Option<Error> {
    if e.None? then None else Some(Wrap(ATTEMPT_TIMEOUT, e.value))
  }

  // ---- The declarative rule, over a listing of nodes ----

  datatype Answer = Silent | No | Yes

  function Say(b: bool): Answer {
    if b then Yes else No
  }

  /** What a node, or a listing of nodes, has to say to any verdict. An Answer is that of the
      first node that has one: a Transient's verdict, whether a *net.OpError is a peer's alert,
      whether a *url.Error holds the bare io.EOF, whether a net.Error timed out. */
  datatype Profile = Profile(
    vetoes: bool, attemptTimeout: bool,
    canceled: bool, deadlineHeld: bool, deadlineMatched: bool,
    transient: Answer,
    oversized: bool, tls: bool, alert: Answer, dns: bool, refused: bool, hungUp: bool,
    envelopeOverEOF: Answer, timeout: Answer)

  const SILENT: Profile :=
    Profile(false, false, false, false, false, Silent, false, false, Silent, false, false, false, Silent, Silent)

  function TransientAnswer(n: Error): Answer {
    match TransientVerdict(n) case Some(verdict) => Say(verdict) case None => Silent
  }

  function AlertAnswer(n: Error): Answer {
    if Has(n, OpErrorType) then Say(n.kind.tag.op == "remote error") else Silent
  }

  function EnvelopeAnswer(n: Error): Answer {
    if IsURLError(n) then Say(URLCause(n) == Some(Value(EndOfFile))) else Silent
  }

  function TimeoutAnswer(n: Error): Answer {
    if TimingOf(n).NetError? then Say(TimesOut(n)) else Silent
  }

  function NodeProfile(n: Error): Profile {
    Profile(
      Has(n, PermanentErrorType) || Has(n, AuthErrorType) || Has(n, RateLimitErrorType),
      Has(n, AttemptTimeoutType),
      Matches(n, Canceled), n == Value(DeadlineExceeded), Matches(n, DeadlineExceeded),
      TransientAnswer(n),
      Has(n, ResponseTooLargeType) || Has(n, MaxBytesType),
      (!n.Value? && n.kind.tag.TLS?) || Matches(n, SchemeMismatch),
      AlertAnswer(n),
      Has(n, DNSErrorType),
      Matches(n, ConnRefused),
      Matches(n, ServerClosed) || Matches(n, ConnReset) || Matches(n, BrokenPipe) || Matches(n, UnexpectedEOF),
      EnvelopeAnswer(n),
      TimeoutAnswer(n))
  }

  function Earlier(a: Answer, b: Answer): Answer {
    if a.Silent? then b else a
  }

  function Beside(p: Profile, q: Profile): Profile {
    Profile(
      p.vetoes || q.vetoes, p.attemptTimeout || q.attemptTimeout,
      p.canceled || q.canceled, p.deadlineHeld || q.deadlineHeld, p.deadlineMatched || q.deadlineMatched,
      Earlier(p.transient, q.transient),
      p.oversized || q.oversized, p.tls || q.tls, Earlier(p.alert, q.alert), p.dns || q.dns,
      p.refused || q.refused, p.hungUp || q.hungUp,
      Earlier(p.envelopeOverEOF, q.envelopeOverEOF), Earlier(p.timeout, q.timeout))
  }

  function Gather(ns: seq<Error>, f: Error -> Profile): Profile {
    if ns == [] then SILENT else Beside(f(ns[0]), Gather(ns[1..], f))
  }

  function ProfileOf(ns: seq<Error>): Profile {
    Gather(ns, NodeProfile)
  }

  /** The caller's budget is gone: a cancellation; or a deadline that is the sentinel itself,
      or that a net package error reports without saying whose it was. */
  predicate CallerEnded(p: Profile) {
    p.canceled || p.deadlineHeld || (p.deadlineMatched && (!p.alert.Silent? || p.dns))
  }

  function CauseRule(p: Profile): Cause {
    if p.oversized then Oversized
    else if p.tls || p.alert.Yes? then TLSRefusal
    else if p.dns then DNS
    else if p.refused then Refused
    else if p.hungUp || p.envelopeOverEOF.Yes? then Reset
    else if p.timeout.Yes? then Timeout
    else Unknown
  }

  predicate TransientRule(p: Profile) {
    !p.vetoes &&
    (p.attemptTimeout ||
     (!CallerEnded(p) &&
      match p.transient
      case Yes => true
      case No => false
      case Silent => CauseRule(p) in {DNS, Refused, Reset, Timeout}))
  }

  /** The yes-or-no answers of a listing are those of its members. */
  lemma {:induction false} ProfileOfMembers(ns: seq<Error>)
    ensures var p := ProfileOf(ns);
            && (p.vetoes <==>
                  exists n :: n in ns &&
                    (Has(n, PermanentErrorType) || Has(n, AuthErrorType) || Has(n, RateLimitErrorType)))
            && (p.attemptTimeout <==> exists n :: n in ns && Has(n, AttemptTimeoutType))
            && (p.canceled <==> AnyMatches(ns, Canceled))
            && (p.deadlineHeld <==> Value(DeadlineExceeded) in ns)
            && (p.deadlineMatched <==> AnyMatches(ns, DeadlineExceeded))
            && (p.refused <==> AnyMatches(ns, ConnRefused))
            && (p.hungUp <==> AnyMatches(ns, ServerClosed) || AnyMatches(ns, ConnReset) ||
                              AnyMatches(ns, BrokenPipe) || AnyMatches(ns, UnexpectedEOF))
  {
    if ns != [] {
      ProfileOfMembers(ns[1..]);
    }
  }

  lemma {:induction false} ProfileOfTypes(ns: seq<Error>)
    ensures var p := ProfileOf(ns);
            && (p.vetoes <==>
                  AnyHas(ns, PermanentErrorType) || AnyHas(ns, AuthErrorType) || AnyHas(ns, RateLimitErrorType))
            && (p.attemptTimeout <==> AnyHas(ns, AttemptTimeoutType))
            && (p.oversized <==> AnyHas(ns, ResponseTooLargeType) || AnyHas(ns, MaxBytesType))
            && (p.dns <==> AnyHas(ns, DNSErrorType))
  {
    if ns != [] {
      ProfileOfTypes(ns[1..]);
    }
  }

  lemma {:induction false} ProfileOfTLS(ns: seq<Error>)
    ensures ProfileOf(ns).tls <==>
            AnyHas(ns, TLSFailureType(CertificateVerification)) || AnyHas(ns, TLSFailureType(UnknownAuthority)) ||
            AnyHas(ns, TLSFailureType(Hostname)) || AnyHas(ns, TLSFailureType(CertificateInvalid)) ||
            AnyHas(ns, TLSFailureType(RecordHeader)) || AnyMatches(ns, SchemeMismatch)
  {
    if ns != [] {
      ProfileOfTLS(ns[1..]);
      var n := ns[0];
      assert (!n.Value? && n.kind.tag.TLS?) <==>
        Has(n, TLSFailureType(CertificateVerification)) || Has(n, TLSFailureType(UnknownAuthority)) ||
        Has(n, TLSFailureType(Hostname)) || Has(n, TLSFailureType(CertificateInvalid)) ||
        Has(n, TLSFailureType(RecordHeader)) by {
        if !n.Value? && n.kind.tag.TLS? {
          match n.kind.tag.failure {
            case CertificateVerification =>
            case UnknownAuthority =>
            case Hostname =>
            case CertificateInvalid =>
            case RecordHeader =>
          }
        }
      }
    }
  }

  /** The first answers of a listing are those of its first nodes of the type. */
  lemma ProfileOfFirsts(ns: seq<Error>)
    ensures var p := ProfileOf(ns);
            && p.transient == (match First(ns, TransientType) case Some(n) => TransientAnswer(n) case None => Silent)
            && p.alert == (match First(ns, OpErrorType) case Some(n) => AlertAnswer(n) case None => Silent)
            && p.envelopeOverEOF ==
               (match First(ns, URLErrorType) case Some(n) => EnvelopeAnswer(n) case None => Silent)
            && p.timeout == (match First(ns, NetErrorType) case Some(n) => TimeoutAnswer(n) case None => Silent)
  {
    FirstVerdictAndAlert(ns);
    FirstEnvelopeAndTimeout(ns);
  }

  lemma {:induction false} FirstVerdictAndAlert(ns: seq<Error>)
    ensures ProfileOf(ns).transient ==
              match First(ns, TransientType) case Some(n) => TransientAnswer(n) case None => Silent
    ensures ProfileOf(ns).alert == match First(ns, OpErrorType) case Some(n) => AlertAnswer(n) case None => Silent
  {
    if ns != [] {
      FirstVerdictAndAlert(ns[1..]);
    }
  }

  lemma {:induction false} FirstEnvelopeAndTimeout(ns: seq<Error>)
    ensures ProfileOf(ns).envelopeOverEOF ==
              match First(ns, URLErrorType) case Some(n) => EnvelopeAnswer(n) case None => Silent
    ensures ProfileOf(ns).timeout == match First(ns, NetErrorType) case Some(n) => TimeoutAnswer(n) case None => Silent
  {
    if ns != [] {
      FirstEnvelopeAndTimeout(ns[1..]);
    }
  }

  /** The caller's end is terminal exactly when a cancellation matches, or the deadline value
      is a node, or the deadline matches beside a net package error. */
  lemma CallerContextIsRule(e: Error)
    ensures IsCallerContextError(e) <==> CallerEnded(ProfileOf(Nodes(e)))
  {
    IsMeansSomeNode(e, Canceled);
    IsMeansSomeNode(e, DeadlineExceeded);
    AsTypeIsFirst(e, OpErrorType);
    AsTypeFinds(e, OpErrorType);
    AsTypeFinds(e, DNSErrorType);
    ProfileOfMembers(Nodes(e));
    ProfileOfTypes(Nodes(e));
    ProfileOfFirsts(Nodes(e));
    if Value(DeadlineExceeded) in Nodes(e) {
      UnwrapsToImpliesIs(e, DeadlineExceeded);
    }
  }

  /** The bare end of file counts only directly under the first *url.Error; under it, any
      other hang-up is a node of the whole tree already. */
  lemma ResetIsRule(e: Error)
    ensures var p := ProfileOf(Nodes(e)); IsReset(e) <==> p.hungUp || p.envelopeOverEOF.Yes?
  {
    var ns := Nodes(e);
    IsMeansSomeNode(e, ServerClosed);
    IsMeansSomeNode(e, ConnReset);
    IsMeansSomeNode(e, BrokenPipe);
    IsMeansSomeNode(e, UnexpectedEOF);
    ProfileOfMembers(ns);
    ProfileOfFirsts(ns);
    AsTypeIsFirst(e, URLErrorType);
    FirstFinds(ns, URLErrorType);
    var u := AsType(e, URLErrorType);
    if u.Some? && URLCause(u.value).Some? {
      var c := URLCause(u.value).value;
      IsMeansSomeNode(c, ServerClosed);
      if c != Value(EndOfFile) && Is(c, ServerClosed) {
        AnyMatchesIffMember(Nodes(c), ServerClosed);
        AnyMatchesIffMember(ns, ServerClosed);
        var n :| n in Nodes(c) && Matches(n, ServerClosed);
        NodesAreClosed(e, u.value, n);
      }
    }
  }

  lemma TLSIsRule(e: Error)
    ensures var p := ProfileOf(Nodes(e)); IsTLSFailure(e) <==> p.tls || p.alert.Yes?
  {
    AsTypeFinds(e, TLSFailureType(CertificateVerification));
    AsTypeFinds(e, TLSFailureType(UnknownAuthority));
    AsTypeFinds(e, TLSFailureType(Hostname));
    AsTypeFinds(e, TLSFailureType(CertificateInvalid));
    AsTypeFinds(e, TLSFailureType(RecordHeader));
    IsMeansSomeNode(e, SchemeMismatch);
    ProfileOfTLS(Nodes(e));
    ProfileOfFirsts(Nodes(e));
    AsTypeIsFirst(e, OpErrorType);
    FirstFinds(Nodes(e), OpErrorType);
  }

  lemma TimeoutIsRule(e: Error)
    ensures IsTimeout(e) <==> ProfileOf(Nodes(e)).timeout.Yes?
  {
    ProfileOfFirsts(Nodes(e));
    AsTypeIsFirst(e, NetErrorType);
    FirstFinds(Nodes(e), NetErrorType);
  }

  /** CauseOf over a tree is the rule over its nodes. */
  lemma CauseIsRule(e: Error)
    ensures CauseOf(e) == CauseRule(ProfileOf(Nodes(e)))
  {
    AsTypeFinds(e, ResponseTooLargeType);
    AsTypeFinds(e, MaxBytesType);
    AsTypeFinds(e, DNSErrorType);
    IsMeansSomeNode(e, ConnRefused);
    ProfileOfTypes(Nodes(e));
    ProfileOfMembers(Nodes(e));
    TLSIsRule(e);
    ResetIsRule(e);
    TimeoutIsRule(e);
  }

  /** IsTransient over a tree is the rule over its nodes: any Permanent, Auth or RateLimit node
      vetoes; else any AttemptTimeout node accepts; else the caller's own end rejects; else the
      first Transient in pre-order decides; else the cause does. */
  lemma IsTransientIsRule(e: Error)
    ensures IsTransient(e) <==> TransientRule(ProfileOf(Nodes(e)))
  {
    AsTypeFinds(e, PermanentErrorType);
    AsTypeFinds(e, AuthErrorType);
    AsTypeFinds(e, RateLimitErrorType);
    AsTypeFinds(e, AttemptTimeoutType);
    AsTypeIsFirst(e, TransientType);
    AsTypeFinds(e, TransientType);
    ProfileOfTypes(Nodes(e));
    ProfileOfFirsts(Nodes(e));
    CallerContextIsRule(e);
    CauseIsRule(e);
  }

  // ---- Plain nodes carry no weight ----

  /** A node no classifier recognises: no named type, no interface, no claimed sentinel. */
  predicate Unrecognised(e: Error) {
    !e.Value? && e.kind == PLAIN
  }

  lemma UnrecognisedIsSilent(e: Error)
    requires Unrecognised(e)
    ensures NodeProfile(e) == SILENT
  {
  }

  lemma BesideIsAssociative(p: Profile, q: Profile, r: Profile)
    ensures Beside(Beside(p, q), r) == Beside(p, Beside(q, r))
  {
  }

  lemma SilentIsUnit(p: Profile)
    ensures Beside(p, SILENT) == p == Beside(SILENT, p)
  {
  }

  lemma {:induction false} GatherOfConcat(a: seq<Error>, b: seq<Error>, f: Error -> Profile)
    ensures Gather(a + b, f) == Beside(Gather(a, f), Gather(b, f))
  {
    if a == [] {
      assert a + b == b;
    } else {
      GatherOfConcat(a[1..], b, f);
      assert (a + b)[1..] == a[1..] + b;
      BesideIsAssociative(f(a[0]), Gather(a[1..], f), Gather(b, f));
    }
  }

  lemma {:induction false} GatherOfSilent(ns: seq<Error>, f: Error -> Profile)
    requires forall n :: n in ns ==> f(n) == SILENT
    ensures Gather(ns, f) == SILENT
  {
    if ns != [] {
      GatherOfSilent(ns[1..], f);
    }
  }

  /** outer is e under any depth of plain wrapping and joining with plain errors. */
  ghost predicate PlainlyHolds(outer: Error, e: Error)
    decreases outer
  {
    outer == e ||
    (Unrecognised(outer) &&
     match outer
     case Value(_) => false
     case Leaf(_) => false
     case Wrap(_, inner) => PlainlyHolds(inner, e)
     case Join(_, inners) => exists i :: 0 <= i < |inners| && PlainlyHolds(inners[i], e) && OthersPlain(inners, i))
  }

  ghost predicate OthersPlain(es: seq<Error>, i: nat) {
    forall j, n :: 0 <= j < |es| && j != i && n in Nodes(es[j]) ==> Unrecognised(n)
  }

  lemma {:induction false} GatherOfJoin(es: seq<Error>, i: nat, f: Error -> Profile)
    requires forall j, n :: 0 <= j < |es| && j != i && n in Nodes(es[j]) ==> f(n) == SILENT
    ensures Gather(NodesOfAll(es), f) == if i < |es| then Gather(Nodes(es[i]), f) else SILENT
    decreases |es|
  {
    if es != [] {
      GatherOfConcat(Nodes(es[0]), NodesOfAll(es[1..]), f);
      SilentIsUnit(Gather(Nodes(es[0]), f));
      SilentIsUnit(Gather(NodesOfAll(es[1..]), f));
      if i == 0 {
        GatherOfJoin(es[1..], |es|, f);
      } else {
        GatherOfSilent(Nodes(es[0]), f);
        GatherOfJoin(es[1..], i - 1, f);
      }
    }
  }

  lemma {:induction false} PlainContextKeepsGather(outer: Error, e: Error, f: Error -> Profile)
    requires PlainlyHolds(outer, e) && forall n :: Unrecognised(n) ==> f(n) == SILENT
    ensures Gather(Nodes(outer), f) == Gather(Nodes(e), f)
    decreases outer
  {
    if outer != e {
      match outer
      case Wrap(_, inner) =>
        PlainContextKeepsGather(inner, e, f);
        assert Nodes(outer)[1..] == Nodes(inner);
      case Join(_, inners) =>
        var i :| 0 <= i < |inners| && PlainlyHolds(inners[i], e) && OthersPlain(inners, i);
        PlainContextKeepsGather(inners[i], e, f);
        GatherOfJoin(inners, i, f);
        assert Nodes(outer)[1..] == NodesOfAll(inners);
    }
  }

  lemma PlainContextKeepsProfile(outer: Error, e: Error)
    requires PlainlyHolds(outer, e)
    ensures ProfileOf(Nodes(outer)) == ProfileOf(Nodes(e))
  {
    forall n | Unrecognised(n) ensures NodeProfile(n) == SILENT {
      UnrecognisedIsSilent(n);
    }
    PlainContextKeepsGather(outer, e, NodeProfile);
  }

  /** No depth of plain wrapping, and no joining with plain errors, changes a verdict. */
  lemma PlainContextKeepsVerdicts(outer: Error, e: Error)
    requires PlainlyHolds(outer, e)
    ensures IsTransient(outer) <==> IsTransient(e)
    ensures CauseOf(outer) == CauseOf(e)
    ensures IsCallerContextError(outer) <==> IsCallerContextError(e)
  {
    PlainContextKeepsProfile(outer, e);
    IsTransientIsRule(outer);
    IsTransientIsRule(e);
    CauseIsRule(outer);
    CauseIsRule(e);
    CallerContextIsRule(outer);
    CallerContextIsRule(e);
  }

  // ---- The marks ----

  lemma WrapProfile(k: Kind, e: Error)
    ensures ProfileOf(Nodes(Wrap(k, e))) == Beside(NodeProfile(Wrap(k, e)), ProfileOf(Nodes(e)))
  {
    assert Nodes(Wrap(k, e))[1..] == Nodes(e);
  }

  /** What a mark adds to the error below it. */
  function MarkProfile(k: Kind): Profile {
    SILENT.(
      vetoes := k.tag.Permanent?,
      attemptTimeout := k.tag.AttemptTimeout?,
      transient := if k.tag.Permanent? then Silent else Yes)
  }

  predicate IsMark(k: Kind) {
    k == PERMANENT || k == ATTEMPT_TIMEOUT || k == MARKED_TRANSIENT
  }

  lemma MarkNodeProfile(k: Kind, e: Error)
    requires IsMark(k)
    ensures NodeProfile(Wrap(k, e)) == MarkProfile(k)
  {
  }

  lemma MarkedRules(k: Kind, p: Profile)
    requires IsMark(k)
    ensures CauseRule(Beside(MarkProfile(k), p)) == CauseRule(p)
    ensures TransientRule(Beside(MarkProfile(k), p)) <==>
            !k.tag.Permanent? && !p.vetoes && (k.tag.AttemptTimeout? || p.attemptTimeout || !CallerEnded(p))
  {
  }

  lemma MarkedVerdicts(k: Kind, e: Error, m: Error)
    requires IsMark(k) && ProfileOf(Nodes(m)) == Beside(MarkProfile(k), ProfileOf(Nodes(e)))
    ensures CauseOf(m) == CauseOf(e)
    ensures IsTransient(m) <==>
            !k.tag.Permanent? && !ProfileOf(Nodes(e)).vetoes &&
            (k.tag.AttemptTimeout? || ProfileOf(Nodes(e)).attemptTimeout || !IsCallerContextError(e))
  {
    MarkedRules(k, ProfileOf(Nodes(e)));
    IsTransientIsRule(m);
    CauseIsRule(m);
    CauseIsRule(e);
    CallerContextIsRule(e);
  }

  lemma MarkDecides(k: Kind, e: Error, m: Error)
    requires IsMark(k) && m == Wrap(k, e)
    ensures CauseOf(m) == CauseOf(e)
    ensures IsTransient(m) <==>
            !k.tag.Permanent? && !Vetoed(e) &&
            (k.tag.AttemptTimeout? || AsType(e, AttemptTimeoutType).Some? || !IsCallerContextError(e))
  {
    WrapProfile(k, e);
    MarkNodeProfile(k, e);
    MarkedVerdicts(k, e, m);
    VetoIsRule(e);
  }

  /** A mark or a typed error in the tree that no other mark overrides. */
  predicate Vetoed(e: Error) {
    AsType(e, PermanentErrorType).Some? || AsType(e, AuthErrorType).Some? || AsType(e, RateLimitErrorType).Some?
  }

  lemma VetoIsRule(e: Error)
    ensures Vetoed(e) <==> ProfileOf(Nodes(e)).vetoes
    ensures AsType(e, AttemptTimeoutType).Some? <==> ProfileOf(Nodes(e)).attemptTimeout
  {
    ProfileOfTypes(Nodes(e));
    AsTypeFinds(e, PermanentErrorType);
    AsTypeFinds(e, AuthErrorType);
    AsTypeFinds(e, RateLimitErrorType);
    AsTypeFinds(e, AttemptTimeoutType);
  }

  /** Permanent always wins. AttemptTimeout yields only to a veto. MarkTransient yields to a
      veto and to the caller's own end, unless an AttemptTimeout below it vouches for that, and
      otherwise overrides any verdict already there. CauseOf sees through all three. No error stays
      no error. */
  lemma MarksDecide(e: Error, permanent: Error, timeout: Error, transient: Error)
    requires MarkPermanent(Some(e)) == Some(permanent)
    requires MarkAttemptTimeout(Some(e)) == Some(timeout)
    requires MarkTransient(Some(e)) == Some(transient)
    ensures !IsTransient(permanent)
    ensures IsTransient(timeout) <==> !Vetoed(e)
    ensures IsTransient(transient) <==> !Vetoed(e) && (AsType(e, AttemptTimeoutType).Some? || !IsCallerContextError(e))
    ensures CauseOf(permanent) == CauseOf(timeout) == CauseOf(transient) == CauseOf(e)
    ensures MarkPermanent(None) == MarkAttemptTimeout(None) == MarkTransient(None) == None
  {
    MarkDecides(PERMANENT, e, permanent);
    MarkDecides(ATTEMPT_TIMEOUT, e, timeout);
    MarkDecides(MARKED_TRANSIENT, e, transient);
  }

  // ---- What the client's *url.Error hides ----

  ghost predicate HasURLError(e: Error) {
    AnyHas(Nodes(e), URLErrorType)
  }

  /** A *url.Error over any tree gives two answers ahead of it: whether it holds a bare io.EOF,
      and, being itself a net.Error, the timeout of the error directly inside it. */
  lemma EnvelopeProfile(u: Error, c: Error)
    requires u == Wrap(URL_ERROR, c)
    ensures ProfileOf(Nodes(u)) ==
            ProfileOf(Nodes(c)).(envelopeOverEOF := Say(c == Value(EndOfFile)), timeout := Say(TimesOut(c)))
  {
    WrapProfile(URL_ERROR, c);
    EnvelopeNodeProfile(u, c);
  }

  lemma EnvelopeNodeProfile(u: Error, c: Error)
    requires u == Wrap(URL_ERROR, c)
    ensures NodeProfile(u) == SILENT.(envelopeOverEOF := Say(c == Value(EndOfFile)), timeout := Say(TimesOut(c)))
  {
    assert TimingOf(u) == NetError(TimesOut(c));
  }

  lemma HangUpProfile(c: Error)
    ensures ProfileOf(Nodes(NameHangUp(c))) ==
            if c == Value(EndOfFile) then SILENT.(hungUp := true) else ProfileOf(Nodes(c))
    ensures c == Value(EndOfFile) ==> ProfileOf(Nodes(c)) == SILENT
  {
    if c == Value(EndOfFile) {
      assert Nodes(Value(ServerClosed)) == [Value(ServerClosed), c];
      assert NodeProfile(c) == SILENT && NodeProfile(Value(ServerClosed)) == SILENT.(hungUp := true);
      assert [Value(ServerClosed), c][1..] == [c];
      assert Gather([c], NodeProfile) == Beside(SILENT, SILENT);
    }
  }

  predicate EarlyRule(q: Profile) {
    q.oversized || q.tls || q.alert.Yes? || q.dns || q.refused || q.hungUp
  }

  predicate NothingElseRule(q: Profile) {
    !EarlyRule(q) && !q.vetoes && !q.attemptTimeout && !CallerEnded(q) && q.transient == Silent
  }

  /** The rules over what a round trip's error says, plain, and what is added to it: eof says it
      is the bare io.EOF, which the transport names, and t whether it times out itself. */
  lemma EnvelopeRules(plain: Profile, eof: bool, t: bool)
    requires eof ==> plain == SILENT
    ensures var u := plain.(envelopeOverEOF := Say(eof), timeout := Say(t));
            var r := if eof then SILENT.(hungUp := true) else plain;
            && (CauseRule(u) == CauseRule(r) <==>
                EarlyRule(r) || (!r.envelopeOverEOF.Yes? && t == r.timeout.Yes?))
            && ((TransientRule(u) <==> TransientRule(r)) <==>
                (NothingElseRule(r) ==> t == (r.envelopeOverEOF.Yes? || r.timeout.Yes?)))
  {
  }

  /** The error has a cause that the envelope cannot change. */
  predicate CausedEarly(e: Error) {
    IsTooLarge(e) || IsTLSFailure(e) || AsType(e, DNSErrorType).Some? || Is(e, ConnRefused) || IsHungUp(e)
  }

  /** The verdict on an error rests on a *url.Error inside it or on its timeout. */
  predicate NothingElseDecides(e: Error) {
    !CausedEarly(e) && !Vetoed(e) && AsType(e, AttemptTimeoutType).None? && !IsCallerContextError(e) &&
    AsType(e, TransientType).None?
  }

  lemma CausedEarlyIsRule(e: Error)
    ensures CausedEarly(e) <==> EarlyRule(ProfileOf(Nodes(e)))
  {
    AsTypeFinds(e, ResponseTooLargeType);
    AsTypeFinds(e, MaxBytesType);
    AsTypeFinds(e, DNSErrorType);
    IsMeansSomeNode(e, ConnRefused);
    ProfileOfTypes(Nodes(e));
    TLSIsRule(e);
    HungUpIsRule(e);
  }

  lemma HungUpIsRule(e: Error)
    ensures IsHungUp(e) <==> ProfileOf(Nodes(e)).hungUp
    ensures Is(e, ConnRefused) <==> ProfileOf(Nodes(e)).refused
  {
    IsMeansSomeNode(e, ServerClosed);
    IsMeansSomeNode(e, ConnReset);
    IsMeansSomeNode(e, BrokenPipe);
    IsMeansSomeNode(e, UnexpectedEOF);
    IsMeansSomeNode(e, ConnRefused);
    ProfileOfMembers(Nodes(e));
  }

  lemma NothingElseDecidesIsRule(e: Error)
    ensures NothingElseDecides(e) <==> NothingElseRule(ProfileOf(Nodes(e)))
  {
    CausedEarlyIsRule(e);
    VetoIsRule(e);
    CallerContextIsRule(e);
    AsTypeFinds(e, TransientType);
    AsTypeIsFirst(e, TransientType);
    ProfileOfFirsts(Nodes(e));
  }

  /** CauseOf reads one error alike in the transport and behind the client's envelope: an earlier
      cause decides, or there is no *url.Error over a bare io.EOF in it and its top and its first
      net.Error agree on timing out. */
  predicate CauseSeenAlike(c: Error) {
    var r := NameHangUp(c);
    CausedEarly(r) || (!IsReset(r) && TimesOut(c) == IsTimeout(r))
  }

  /** So does IsTransient: something else decides, or the top of the error times out exactly when
      the transport sees a reset or a timeout in it. */
  predicate VerdictSeenAlike(c: Error) {
    var r := NameHangUp(c);
    NothingElseDecides(r) ==> TimesOut(c) == (IsReset(r) || IsTimeout(r))
  }

  lemma SeenAlikeIsRule(c: Error)
    ensures var q := ProfileOf(Nodes(NameHangUp(c)));
            && (CauseSeenAlike(c) <==>
                EarlyRule(q) || (!q.envelopeOverEOF.Yes? && TimesOut(c) == q.timeout.Yes?))
            && (VerdictSeenAlike(c) <==>
                (NothingElseRule(q) ==> TimesOut(c) == (q.envelopeOverEOF.Yes? || q.timeout.Yes?)))
  {
    var r := NameHangUp(c);
    CausedEarlyIsRule(r);
    NothingElseDecidesIsRule(r);
    ResetIsRule(r);
    TimeoutIsRule(r);
  }

  lemma EnvelopeRulesOf(c: Error, u: Error, r: Error)
    requires u == Wrap(URL_ERROR, c) && r == NameHangUp(c)
    ensures var p, q := ProfileOf(Nodes(u)), ProfileOf(Nodes(r));
            && (CauseRule(p) == CauseRule(q) <==>
                EarlyRule(q) || (!q.envelopeOverEOF.Yes? && TimesOut(c) == q.timeout.Yes?))
            && ((TransientRule(p) <==> TransientRule(q)) <==>
                (NothingElseRule(q) ==> TimesOut(c) == (q.envelopeOverEOF.Yes? || q.timeout.Yes?)))
  {
    EnvelopeProfile(u, c);
    HangUpProfile(c);
    EnvelopeRules(ProfileOf(Nodes(c)), c == Value(EndOfFile), TimesOut(c));
  }

  /** For every error of a round trip, one that already holds a *url.Error included: CauseOf is
      the same behind the client's envelope and in the transport exactly when CauseSeenAlike. */
  lemma EnvelopeKeepsCauseExactly(c: Error)
    ensures CauseOf(Wrap(URL_ERROR, c)) == CauseOf(NameHangUp(c)) <==> CauseSeenAlike(c)
  {
    var u, r := Wrap(URL_ERROR, c), NameHangUp(c);
    EnvelopeRulesOf(c, u, r);
    SeenAlikeIsRule(c);
    CauseIsRule(u);
    CauseIsRule(r);
  }

  /** GetBytes, behind the client's envelope, and the transport judge one error alike exactly when
      VerdictSeenAlike, whatever the error. */
  lemma EnvelopeKeepsVerdictExactly(c: Error)
    ensures IsTransient(Wrap(URL_ERROR, c)) == IsTransient(NameHangUp(c)) <==> VerdictSeenAlike(c)
  {
    var u, r := Wrap(URL_ERROR, c), NameHangUp(c);
    EnvelopeRulesOf(c, u, r);
    SeenAlikeIsRule(c);
    IsTransientIsRule(u);
    IsTransientIsRule(r);
  }

  /** The round trip's error matches one of the causes CauseOf tries before the timeout. */
  predicate CausedBeforeTimeout(c: Error) {
    var r := NameHangUp(c);
    IsTooLarge(r) || IsTLSFailure(r) || AsType(r, DNSErrorType).Some? || Is(r, ConnRefused) || IsReset(r)
  }

  /** Those are exactly the errors whose cause is neither a timeout nor unknown. */
  lemma CausedBeforeTimeoutIsCause(c: Error)
    ensures CausedBeforeTimeout(c) <==> CauseOf(NameHangUp(c)) !in {Timeout, Unknown}
  {
  }

  /** Without a *url.Error of its own the timeout alone can be read differently. */
  lemma URLFreeIsSeenAlike(c: Error)
    requires !HasURLError(c)
    ensures IsReset(NameHangUp(c)) <==> IsHungUp(NameHangUp(c))
    ensures IsTimeout(NameHangUp(c)) <==> IsTimeout(c)
    ensures CauseSeenAlike(c) <==> CausedBeforeTimeout(c) || TimesOut(c) == IsTimeout(c)
    ensures VerdictSeenAlike(c) <==> (NothingElseDecides(NameHangUp(c)) ==> TimesOut(c) == IsTimeout(c))
  {
    var r := NameHangUp(c);
    ProfileOfFirsts(Nodes(c));
    FirstFinds(Nodes(c), URLErrorType);
    HangUpProfile(c);
    ResetIsRule(r);
    HungUpIsRule(r);
    TimeoutIsRule(r);
    TimeoutIsRule(c);
  }

  /** The two everyday cases: the error is itself a net.Error, or nothing in it times out. */
  lemma EnvelopeKeepsCause(c: Error)
    requires !HasURLError(c)
    requires Has(c, NetErrorType) || (forall n :: n in Nodes(c) ==> !TimesOut(n))
    ensures CauseOf(Wrap(URL_ERROR, c)) == CauseOf(NameHangUp(c))
  {
    EnvelopeKeepsCauseExactly(c);
    URLFreeIsSeenAlike(c);
    AsTypeFinds(c, NetErrorType);
  }

  // ---- The three ways to be read differently ----

  lemma GatherOfOne(n: Error, f: Error -> Profile)
    ensures Gather([n], f) == f(n)
  {
    assert [n][1..] == [];
    SilentIsUnit(f(n));
  }

  lemma LeafProfile(n: Error)
    requires n.Leaf?
    ensures ProfileOf(Nodes(n)) == NodeProfile(n)
  {
    assert Nodes(n) == [n];
    GatherOfOne(n, NodeProfile);
  }

  /** One that says nothing but its own timeout, if any: c, of which the transport sees r. */
  lemma JudgedByTimeout(c: Error, u: Error, r: Error)
    requires u == Wrap(URL_ERROR, c) && r == NameHangUp(c) == c
    requires ProfileOf(Nodes(c)) in {SILENT, SILENT.(timeout := Yes), SILENT.(envelopeOverEOF := Yes, timeout := No)}
    ensures CauseOf(u) == (if TimesOut(c) then Timeout else Unknown) && (IsTransient(u) <==> TimesOut(c))
    ensures var p := ProfileOf(Nodes(c));
            && CauseOf(r) == (if p.envelopeOverEOF.Yes? then Reset else if p.timeout.Yes? then Timeout else Unknown)
            && (IsTransient(r) <==> p != SILENT)
  {
    EnvelopeProfile(u, c);
    CauseIsRule(u);
    CauseIsRule(r);
    IsTransientIsRule(u);
    IsTransientIsRule(r);
  }

  /** The client's error for a round trip that returned neither response nor error is terminal. */
  lemma NothingIsTerminal(c: Error)
    requires c == Leaf(PLAIN)
    ensures !IsTransient(Wrap(URL_ERROR, c))
  {
    LeafProfile(c);
    UnrecognisedIsSilent(c);
    JudgedByTimeout(c, Wrap(URL_ERROR, c), c);
  }

  /** A timeout one plain wrapper deep is lost to the envelope, and with it the retry. */
  lemma EnvelopeCanHideATimeout()
    ensures exists c :: !HasURLError(c) && IsTransient(NameHangUp(c)) && !IsTransient(Wrap(URL_ERROR, c))
                        && CauseOf(NameHangUp(c)) == Timeout && CauseOf(Wrap(URL_ERROR, c)) == Unknown
  {
    var c := PlainTimeout();
    JudgedByTimeout(c, Wrap(URL_ERROR, c), c);
  }

  lemma PlainTimeout() returns (c: Error)
    ensures NameHangUp(c) == c && !TimesOut(c) && !HasURLError(c) && ProfileOf(Nodes(c)) == SILENT.(timeout := Yes)
  {
    var n := Leaf(PLAIN.(timing := NetError(true)));
    c := Wrap(PLAIN, n);
    LeafTimeout(n);
    PlainWrapProfile(c, n);
    FirstOfConcat([c], Nodes(n), URLErrorType);
    FirstFinds(Nodes(n), URLErrorType);
    FirstFinds(Nodes(c), URLErrorType);
  }

  lemma LeafTimeout(n: Error)
    requires n == Leaf(PLAIN.(timing := NetError(true)))
    ensures ProfileOf(Nodes(n)) == SILENT.(timeout := Yes) && !HasURLError(n)
  {
    LeafProfile(n);
    assert Nodes(n) == [n];
    TimeoutNodeProfile(n);
  }

  lemma TimeoutNodeProfile(n: Error)
    requires n == Leaf(PLAIN.(timing := NetError(true)))
    ensures NodeProfile(n) == SILENT.(timeout := Yes)
  {
  }

  lemma PlainWrapProfile(c: Error, e: Error)
    requires c == Wrap(PLAIN, e)
    ensures ProfileOf(Nodes(c)) == ProfileOf(Nodes(e))
  {
    WrapProfile(PLAIN, e);
    UnrecognisedIsSilent(c);
    SilentIsUnit(ProfileOf(Nodes(e)));
  }

  /** A timeout on a type without a Temporary method is seen through the envelope only: GetBytes
      retries it, the transport does not. */
  lemma EnvelopeCanShowATimeout(c: Error)
    requires c == Leaf(PLAIN.(timing := TimeoutOnly(true)))
    ensures !IsTransient(NameHangUp(c)) && CauseOf(NameHangUp(c)) == Unknown
    ensures IsTransient(Wrap(URL_ERROR, c)) && CauseOf(Wrap(URL_ERROR, c)) == Timeout
  {
    LeafProfile(c);
    TimeoutOnlyIsSilent(c);
    JudgedByTimeout(c, Wrap(URL_ERROR, c), c);
  }

  lemma TimeoutOnlyIsSilent(c: Error)
    requires c == Leaf(PLAIN.(timing := TimeoutOnly(true)))
    ensures NodeProfile(c) == SILENT && TimesOut(c)
  {
  }

  /** A bare EOF in a *url.Error of the transport's own is a reset there, and lost behind the
      client's, which is then the first. */
  lemma EnvelopeCanHideAReset(c: Error, inner: Error)
    requires inner == Wrap(URL_ERROR, Value(EndOfFile)) && c == Wrap(PLAIN, inner)
    ensures IsTransient(NameHangUp(c)) && CauseOf(NameHangUp(c)) == Reset
    ensures !IsTransient(Wrap(URL_ERROR, c)) && CauseOf(Wrap(URL_ERROR, c)) == Unknown
  {
    EnvelopeProfile(inner, Value(EndOfFile));
    HangUpProfile(Value(EndOfFile));
    PlainWrapProfile(c, inner);
    JudgedByTimeout(c, Wrap(URL_ERROR, c), c);
  }
}
