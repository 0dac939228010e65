/** Go error values as finite trees, and the two searches of package errors over them.
    A node wraps nothing (Leaf, which also stands for an Unwrap that answers nil), one
    error (Wrap), or several (Join, an Unwrap() []error). */
module Errors {
  import opened Prelude

  /** The error values the source compares against. */
  datatype Sentinel =
    | Canceled | DeadlineExceeded
    | EndOfFile | UnexpectedEOF | ServerClosed
    | ConnRefused | ConnReset | BrokenPipe
    | SchemeMismatch | RateLimited | ServerError | RequestFailed

  /** What a type's Timeout method says: absent, present alone, or beside a Temporary
      method, which makes the type a net.Error. */
  datatype Timing = Untimed | TimeoutOnly(expired: bool) | NetError(expired: bool)

  datatype TLSFailure = CertificateVerification | UnknownAuthority | Hostname | CertificateInvalid | RecordHeader

  /** The dynamic type of a node, with the fields the source reads. */
  datatype Tag =
    | Plain
    | Permanent | MarkedTransient | AttemptTimeout
    | Auth | RateLimit(retryAfter: Int64)
    | HTTPStatus(code: int) | Status(code: int)
    | TooLarge(limit: int) | MaxBytes
    | TLS(failure: TLSFailure)
    | OpError(op: string) | DNSError | URLError
    | RetryAfterError

  /** A node's type and what its methods answer: the sentinels its Is method claims, its
      IsTransient, Timeout and RetryAfterHint. */
  datatype Kind = Kind(tag: Tag, claims: set<Sentinel>, transient: Option<bool>, timing: Timing, hint: Option<Int64>)

  datatype Error =
    | Value(sentinel: Sentinel)
    | Leaf(kind: Kind)
    | Wrap(kind: Kind, inner: Error)
    | Join(kind: Kind, inners: seq<Error>)

  // ---- The types the source defines ----

  function Bare(tag: Tag): Kind {
    Kind(tag, {}, None, Untimed, None)
  }

  const PLAIN: Kind := Bare(Plain)
  const PERMANENT: Kind := Bare(Permanent)
  const MARKED_TRANSIENT: Kind := Bare(MarkedTransient).(transient := Some(true))
  const ATTEMPT_TIMEOUT: Kind := Bare(AttemptTimeout).(transient := Some(true))
  const URL_ERROR: Kind := Bare(URLError)

  function IsRetryableStatus(code: int): bool {
    if code == 408 || code == 429 then true
    else if code in {501, 505, 506, 508, 510, 511} then false
    else 500 <= code <= 599
  }

  function HTTPStatusError(code: int): Error {
    Leaf(Bare(HTTPStatus(code)).(transient := Some(IsRetryableStatus(code))))
  }

  /** What is retried of all statuses: 408, 429 and the 5xx that may not repeat. */
  lemma RetryableStatuses(code: int)
    ensures IsRetryableStatus(code) <==> code in {408, 429, 500, 502, 503, 504, 507, 509} || 512 <= code <= 599
  {
  }

  /** *StatusError, whose Is method answers for two sentinels. */
  function StatusError(code: int): Error {
    Leaf(Bare(Status(code)).(claims :=
      (if code == 429 then {RateLimited} else {}) + (if code >= 500 then {ServerError} else {})))
  }

  function RetryAfterErrorOver(e: Error, wait: Int64): Error {
    Wrap(Bare(RetryAfterError).(hint := Some(wait)), e)
  }

  // ---- Questions to one node ----

  /** The type assertions errors.AsType is asked for. */
  datatype TypeName =
    | PermanentErrorType | AuthErrorType | RateLimitErrorType | AttemptTimeoutType
    | TransientType | RetryAfterHintType | NetErrorType
    | ResponseTooLargeType | MaxBytesType | TLSFailureType(failure: TLSFailure)
    | OpErrorType | DNSErrorType | URLErrorType

  predicate IsURLError(e: Error) {
    !e.Value? && e.kind.tag.URLError?
  }

  /** The error a *url.Error holds in Err. */
  function URLCause(e: Error): Option<Error> {
    match e
    case Wrap(_, inner) => Some(inner)
    case _ => None
  }

  /** A node's Timeout method. context.DeadlineExceeded and syscall.Errno are net.Errors; a
      *url.Error answers for the error it holds directly. */
  function TimingOf(e: Error): Timing
    decreases e, 0
  {
    if e == Value(DeadlineExceeded) then NetError(true)
    else if e in {Value(ConnRefused), Value(ConnReset), Value(BrokenPipe)} then NetError(false)
    else if e.Value? then Untimed
    else if IsURLError(e) then
      NetError(match URLCause(e) case Some(c) => TimesOut(c) case None => false)
    else e.kind.timing
  }

  predicate TimesOut(e: Error)
    decreases e, 1
  {
    var t := TimingOf(e);
    !t.Untimed? && t.expired
  }

  /** Whether a node is of the type t names. */
  predicate Has(e: Error, t: TypeName) {
    if t.NetErrorType? then TimingOf(e).NetError?
    else if e.Value? then false
    else
      match t
      case PermanentErrorType => e.kind.tag.Permanent?
      case AuthErrorType => e.kind.tag.Auth?
      case RateLimitErrorType => e.kind.tag.RateLimit?
      case AttemptTimeoutType => e.kind.tag.AttemptTimeout?
      case TransientType => e.kind.transient.Some?
      case RetryAfterHintType => e.kind.hint.Some?
      case NetErrorType => false
      case ResponseTooLargeType => e.kind.tag.TooLarge?
      case MaxBytesType => e.kind.tag.MaxBytes?
      case TLSFailureType(f) => e.kind.tag == TLS(f)
      case OpErrorType => e.kind.tag.OpError?
      case DNSErrorType => e.kind.tag.DNSError?
      case URLErrorType => e.kind.tag.URLError?
  }

  predicate Matches(e: Error, s: Sentinel) {
    e == Value(s) || (!e.Value? && s in e.kind.claims)
  }

  // ---- The two searches ----

  /** errors.Is(e, s). errServerClosed wraps io.EOF. */
  predicate Is(e: Error, s: Sentinel)
    decreases e, 1
  {
    Matches(e, s) ||
    match e
    case Value(v) => v == ServerClosed && s == EndOfFile
    case Leaf(_) => false
    case Wrap(_, inner) => Is(inner, s)
    case Join(_, inners) => AnyIs(inners, s)
  }

  predicate AnyIs(es: seq<Error>, s: Sentinel)
    decreases es, 0
  {
    es != [] && (Is(es[0], s) || AnyIs(es[1..], s))
  }

  /** errors.AsType[t](e): the first node of the type, parents before children and
      siblings in order. */
  function AsType(e: Error, t: TypeName): Option<Error>
    decreases e, 1
  {
    if Has(e, t) then Some(e)
    else
      match e
      case Value(_) => None
      case Leaf(_) => None
      case Wrap(_, inner) => AsType(inner, t)
      case Join(_, inners) => AsTypeAny(inners, t)
  }

  function AsTypeAny(es: seq<Error>, t: TypeName): Option<Error>
    decreases es, 0
  {
    if es == [] then None
    else
      var first := AsType(es[0], t);
      if first.Some? then first else AsTypeAny(es[1..], t)
  }

  // ---- The flat view ----

  /** Every node of the unwrap tree, in pre-order. */
  function Nodes(e: Error): (ns: seq<Error>)
    ensures ns != [] && ns[0] == e
    decreases e, 1
  {
    [e] +
    match e
    case Value(v) => if v == ServerClosed then [Value(EndOfFile)] else []
    case Leaf(_) => []
    case Wrap(_, inner) => Nodes(inner)
    case Join(_, inners) => NodesOfAll(inners)
  }

  function NodesOfAll(es: seq<Error>): seq<Error>
    decreases es, 0
  {
    if es == [] then [] else Nodes(es[0]) + NodesOfAll(es[1..])
  }

  /** Some listed node matches s. */
  predicate AnyMatches(ns: seq<Error>, s: Sentinel) {
    ns != [] && (Matches(ns[0], s) || AnyMatches(ns[1..], s))
  }

  /** Some listed node is of type t. */
  predicate AnyHas(ns: seq<Error>, t: TypeName) {
    ns != [] && (Has(ns[0], t) || AnyHas(ns[1..], t))
  }

  function First(ns: seq<Error>, t: TypeName): Option<Error> {
    if ns == [] then None
    else if Has(ns[0], t) then Some(ns[0])
    else First(ns[1..], t)
  }

  lemma {:induction false} FirstOfConcat(a: seq<Error>, b: seq<Error>, t: TypeName)
    ensures First(a + b, t) == if First(a, t).Some? then First(a, t) else First(b, t)
  {
    if a == [] {
      assert a + b == b;
    } else {
      FirstOfConcat(a[1..], b, t);
      assert (a + b)[1..] == a[1..] + b;
    }
  }

  lemma {:induction false} AnyMatchesIffMember(ns: seq<Error>, s: Sentinel)
    ensures AnyMatches(ns, s) <==> exists n :: n in ns && Matches(n, s)
  {
    if ns != [] {
      AnyMatchesIffMember(ns[1..], s);
    }
  }

  lemma {:induction false} AnyHasIffMember(ns: seq<Error>, t: TypeName)
    ensures AnyHas(ns, t) <==> exists n :: n in ns && Has(n, t)
  {
    if ns != [] {
      AnyHasIffMember(ns[1..], t);
    }
  }

  lemma {:induction false} FirstFinds(ns: seq<Error>, t: TypeName)
    ensures First(ns, t).Some? <==> AnyHas(ns, t)
    ensures First(ns, t).Some? ==> First(ns, t).value in ns && Has(First(ns, t).value, t)
  {
    if ns != [] {
      FirstFinds(ns[1..], t);
    }
  }

  /** errors.AsType finds the first matching node of the pre-order listing. */
  lemma {:induction false} AsTypeIsFirst(e: Error, t: TypeName)
    ensures AsType(e, t) == First(Nodes(e), t)
    decreases e, 1
  {
    match e
    case Value(_) =>
      assert First(Nodes(e)[1..], t) == None;
    case Leaf(_) =>
    case Wrap(_, inner) =>
      AsTypeIsFirst(inner, t);
      FirstOfConcat([e], Nodes(inner), t);
    case Join(_, inners) =>
      AsTypeAnyIsFirst(inners, t);
      FirstOfConcat([e], NodesOfAll(inners), t);
  }

  lemma {:induction false} AsTypeAnyIsFirst(es: seq<Error>, t: TypeName)
    ensures AsTypeAny(es, t) == First(NodesOfAll(es), t)
    decreases es, 0
  {
    if es != [] {
      AsTypeIsFirst(es[0], t);
      AsTypeAnyIsFirst(es[1..], t);
      FirstOfConcat(Nodes(es[0]), NodesOfAll(es[1..]), t);
    }
  }

  /** A node of the wanted type is found exactly when the tree has one. */
  lemma AsTypeFinds(e: Error, t: TypeName)
    ensures AsType(e, t).Some? <==> AnyHas(Nodes(e), t)
    ensures AsType(e, t).Some? ==> AsType(e, t).value in Nodes(e) && Has(AsType(e, t).value, t)
  {
    AsTypeIsFirst(e, t);
    FirstFinds(Nodes(e), t);
  }

  /** errors.Is holds exactly when some node of the tree matches. */
  lemma {:induction false} IsMeansSomeNode(e: Error, s: Sentinel)
    ensures Is(e, s) <==> AnyMatches(Nodes(e), s)
    decreases e, 1
  {
    match e
    case Value(v) =>
      assert AnyMatches(Nodes(e)[1..], s) <==> v == ServerClosed && s == EndOfFile;
    case Leaf(_) =>
    case Wrap(_, inner) =>
      IsMeansSomeNode(inner, s);
      assert Nodes(e)[1..] == Nodes(inner);
    case Join(_, inners) =>
      AnyIsMeansSomeNode(inners, s);
      assert Nodes(e)[1..] == NodesOfAll(inners);
  }

  lemma {:induction false} AnyIsMeansSomeNode(es: seq<Error>, s: Sentinel)
    ensures AnyIs(es, s) <==> AnyMatches(NodesOfAll(es), s)
    decreases es, 0
  {
    if es != [] {
      IsMeansSomeNode(es[0], s);
      AnyIsMeansSomeNode(es[1..], s);
      AnyMatchesIffMember(Nodes(es[0]), s);
      AnyMatchesIffMember(NodesOfAll(es[1..]), s);
      AnyMatchesIffMember(NodesOfAll(es), s);
    }
  }

  /** The listing of a node's tree lies inside the listing of every tree that holds it. */
  lemma {:induction false} NodesAreClosed(e: Error, n: Error, m: Error)
    requires n in Nodes(e) && m in Nodes(n)
    ensures m in Nodes(e)
    decreases e, 1
  {
    if n != e {
      match e
      case Value(_) =>
      case Leaf(_) =>
      case Wrap(_, inner) => NodesAreClosed(inner, n, m);
      case Join(_, inners) => NodesOfAllAreClosed(inners, n, m);
    }
  }

  lemma {:induction false} NodesOfAllAreClosed(es: seq<Error>, n: Error, m: Error)
    requires n in NodesOfAll(es) && m in Nodes(n)
    ensures m in NodesOfAll(es)
    decreases es, 0
  {
    if n in Nodes(es[0]) {
      NodesAreClosed(es[0], n, m);
    } else {
      NodesOfAllAreClosed(es[1..], n, m);
    }
  }

  /** A *StatusError matches ErrRateLimited for a 429, ErrServerError from 500 up, and no other
      sentinel. */
  lemma StatusErrorMatches(code: int, s: Sentinel)
    ensures Is(StatusError(code), s) <==> (s == RateLimited && code == 429) || (s == ServerError && code >= 500)
  {
  }

  // ---- Identity in the tree ----

  /** unwrapsTo: follows single unwraps in a loop and recurses into joined errors. It answers
      exactly whether the target value is a node of the tree; a nil error holds nothing. */
  method UnwrapsTo(err: Option<Error>, target: Error) returns (found: bool)
    ensures found <==> err.Some? && target in Nodes(err.value)
    decreases if err.Some? then err.value else Value(EndOfFile)
  {
    var cur := err;
    while cur.Some?
      invariant (err.Some? && target in Nodes(err.value)) <==> (cur.Some? && target in Nodes(cur.value))
      invariant cur.Some? ==> err.Some? && (cur == err || cur.value.Value? || cur.value < err.value)
      decreases if cur.Some? then |Nodes(cur.value)| else 0
    {
      if cur.value == target {
        return true;
      }
      match cur.value
      case Wrap(_, inner) =>
        cur := Some(inner);
      case Join(_, inners) =>
        var i := 0;
        while i < |inners|
          invariant 0 <= i <= |inners|
          invariant target in NodesOfAll(inners) <==> target in NodesOfAll(inners[i..])
        {
          var hit := UnwrapsTo(Some(inners[i]), target);
          if hit {
            return true;
          }
          i := i + 1;
        }
        return false;
      case _ =>
        if cur.value == Value(ServerClosed) {
          cur := Some(Value(EndOfFile));
        } else {
          return false;
        }
    }
    return false;
  }

  /** Identity implies errors.Is ... */
  lemma UnwrapsToImpliesIs(e: Error, s: Sentinel)
    requires Value(s) in Nodes(e)
    ensures Is(e, s)
  {
    IsMeansSomeNode(e, s);
    AnyMatchesIffMember(Nodes(e), s);
  }

  /** ... but a node that only claims the match, as net/http's own timeout does, satisfies
      errors.Is in a tree that does not hold the value. */
  lemma IsDoesNotImplyUnwrapsTo(s: Sentinel)
    ensures exists e :: Is(e, s) && Value(s) !in Nodes(e)
  {
    var e := Leaf(PLAIN.(claims := {s}, timing := NetError(true)));
    assert Nodes(e) == [e];
    assert Is(e, s) && Value(s) !in Nodes(e);
  }
}
