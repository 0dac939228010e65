/** Conditional GET: one request with validators, and the cache a caller builds on it. */
module Conditional {
  import opened Prelude
  import opened Errors
  import opened Bodies
  import opened Messages
  import opened Verdicts
  import opened URLErrors
  import opened RetryAfter

  const MAX_VALIDATOR_BYTES: nat := 1024
  const IF_NONE_MATCH: string := "If-None-Match"
  const IF_MODIFIED_SINCE: string := "If-Modified-Since"
  const ETAG: string := "Etag"
  const LAST_MODIFIED: string := "Last-Modified"

  class Request {
    var header: Header

    constructor (h: Header)
      ensures header == h
    {
      header := h;
    }
  }

  datatype Validators = Validators(etag: string, lastModified: string)

  const NO_VALIDATORS: Validators := Validators("", "")

  datatype ConditionalResult = NotModified | Fresh(body: seq<Byte>, validators: Validators)

  /** What one exchange of the client comes to. until reads the dates in its header. */
  datatype Answer =
    | Failed(error: Error)
    | Reply(status: int, header: Header, body: Script, until: string -> Option<Int64>)

  // ---- Validator hygiene ----

  predicate IllegalInField(c: char) {
    (c < 0x20 as char && c != '\t') || c == 0x7f as char
  }

  predicate IsValidValidator(v: string) {
    |v| <= MAX_VALIDATOR_BYTES && forall i :: 0 <= i < |v| ==> !IllegalInField(v[i])
  }

  /** At most 1 KiB, every byte a tab or from space up, and none DEL. */
  method ValidValidator(v: string) returns (ok: bool)
    ensures ok <==> IsValidValidator(v)
    ensures ok <==> |v| <= 1024 && forall c :: c in v ==> c == '\t' || (c >= ' ' && c != 127 as char)
  {
    if |v| > MAX_VALIDATOR_BYTES {
      return false;
    }
    for i := 0 to |v|
      invariant forall j :: 0 <= j < i ==> !IllegalInField(v[j])
    {
      var c := v[i];
      if (c < 0x20 as char && c != '\t') || c == 0x7f as char {
        assert c in v;
        return false;
      }
    }
    return true;
  }

  function CaptureValidator(v: string): string {
    if IsValidValidator(v) then v else ""
  }

  // ---- One conditional request ----

  /** The header that goes out: the caller's, with both conditional fields set only from v. */
  function Conditioned(h: Header, v: Validators): Header {
    var bare := h - {IF_NONE_MATCH, IF_MODIFIED_SINCE};
    var tagged := if v.etag != "" && IsValidValidator(v.etag) then bare[IF_NONE_MATCH := [v.etag]] else bare;
    if v.lastModified != "" && IsValidValidator(v.lastModified)
    then tagged[IF_MODIFIED_SINCE := [v.lastModified]] else tagged
  }

  function EffectiveLimit(maxBodyBytes: Int64): Int64 {
    if maxBodyBytes <= 0 then DEFAULT_MAX_BODY_BYTES else maxBodyBytes
  }

  function UnexpectedStatus(code: int): Error {
    Leaf(PLAIN)
  }

  /** How an answer is classified. */
  ghost function Classified(a: Answer, maxBodyBytes: Int64): Result<ConditionalResult, Error> {
    match a
    case Failed(e) => Err(LogSafe(e))
    case Reply(status, header, body, until) =>
      if status == 304 then Ok(NotModified)
      else if status == 200 then
        match Limited(body, EffectiveLimit(maxBodyBytes))
        case Err(e) => Err(e)
        case Ok(data) =>
          Ok(Fresh(data, Validators(CaptureValidator(Get(header, ETAG)), CaptureValidator(Get(header, LAST_MODIFIED)))))
      else
        match CheckHTTPStatus(status, Get(header, "Retry-After"), until)
        case Some(e) => Err(e)
        case None => Err(UnexpectedStatus(status))
  }

  /** Deletes both conditional fields and sets again what v asks for. */
  method SetConditionalFields(req: Request, v: Validators)
    modifies req
    ensures req.header == Conditioned(old(req.header), v)
  {
    req.header := req.header - {IF_NONE_MATCH};
    req.header := req.header - {IF_MODIFIED_SINCE};
    assert req.header == old(req.header) - {IF_NONE_MATCH, IF_MODIFIED_SINCE};
    if v.etag != "" {
      var ok := ValidValidator(v.etag);
      if ok {
        req.header := req.header[IF_NONE_MATCH := [v.etag]];
      }
    }
    if v.lastModified != "" {
      var ok := ValidValidator(v.lastModified);
      if ok {
        req.header := req.header[IF_MODIFIED_SINCE := [v.lastModified]];
      }
    }
  }

  /** Classifies a reply; its body is drained, or read up to the limit, and closed exactly once on
      every path. */
  method ClassifyReply(status: int, header: Header, body: Reader, until: string -> Option<Int64>, limit: Int64)
    returns (r: Result<ConditionalResult, Error>)
    requires limit > 0
    modifies body
    ensures body.closes == old(body.closes) + 1
    ensures old(body.Unread()) ==> body.Settled(if status == 200 then Some(limit) else None)
    ensures r == Classified(Reply(status, header, old(body.script), until), limit)
  {
    if status == 304 {
      DrainClose(body);
      return Ok(NotModified);
    }
    if status == 200 {
      var data := ReadLimitedBody(body, limit);
      if data.Err? {
        return Err(data.error);
      }
      return Ok(Fresh(data.value,
        Validators(CaptureValidator(Get(header, ETAG)), CaptureValidator(Get(header, LAST_MODIFIED)))));
    }
    DrainClose(body);
    var failure := CheckHTTPStatus(status, Get(header, "Retry-After"), until);
    return Err(if failure.Some? then failure.value else UnexpectedStatus(status));
  }

  /** DoConditional. client is what the wire makes of the header it is handed; the response body
      is handed back only to say that it is drained or read and closed exactly once. */
  method DoConditional(req: Request, v: Validators, maxBodyBytes: Int64, client: Header -> Answer)
    returns (r: Result<ConditionalResult, Error>, body: Reader?)
    modifies req
    ensures req.header == Conditioned(old(req.header), v)
    ensures r == Classified(client(req.header), maxBodyBytes)
    ensures client(req.header).Reply? ==>
              body != null && fresh(body) && body.Settled(Some(EffectiveLimit(maxBodyBytes)))
  {
    var limit := EffectiveLimit(maxBodyBytes);
    SetConditionalFields(req, v);
    var answer := client(req.header);
    body := null;
    match answer
    case Failed(e) =>
      var shown := LogSafeError(Some(e));
      r := Err(shown.value);
    case Reply(status, header, script, until) =>
      body := new Reader(script);
      r := ClassifyReply(status, header, body, until, limit);
  }

  /** v is the first value of that field, or nothing where there is none or it is not valid. */
  predicate IsCaptured(v: string, h: Header, field: string) {
    if field in h && h[field] != [] && IsValidValidator(h[field][0]) then v == h[field][0] else v == ""
  }

  /** Every classification, by status and body: a 304 is NotModified and nothing else is; a 200 is
      Fresh exactly when its read meets no error and it fits the limit, with that body and the
      validators of its first Etag and Last-Modified; any other 200 is its read error or too large; a failed
      exchange is its error without any *url.Error; and every other status is an error. */
  lemma ClassifiedExactly(a: Answer, maxBodyBytes: Int64)
    requires a.Reply? ==> |Content(a.body)| <= MAX_INT64
    ensures var r := Classified(a, maxBodyBytes);
            var limit := if maxBodyBytes <= 0 then 10 * 1024 * 1024 else maxBodyBytes;
            match a
            case Failed(e) => r == Err(LogSafe(e)) && !HasURLError(r.error) && (!HasURLError(e) ==> r.error == e)
            case Reply(status, header, body, until) =>
              && (status == 304 <==> r == Ok(NotModified))
              && (status == 200 && !MeetsFailure(body, limit) && |Content(body)| <= limit <==> r.Ok? && r.value.Fresh?)
              && (r.Ok? && r.value.Fresh? ==>
                    && r.value.body == Content(body)
                    && IsCaptured(r.value.validators.etag, header, "Etag")
                    && IsCaptured(r.value.validators.lastModified, header, "Last-Modified"))
              && (status == 200 && r.Err? ==>
                    r.error == if MeetsFailure(body, limit) then body.failure.value else Leaf(Bare(TooLarge(limit))))
              && (status !in {200, 304} ==> r.Err? && RefusedAs(r.error, status, header, until))
  {
    match a
    case Failed(e) =>
      LogSafeIsURLFree(e);
    case Reply(status, header, body, until) =>
      ReadsAllOrFails(body, EffectiveLimit(maxBodyBytes));
      StatusesExactly(status, Get(header, "Retry-After"), until);
  }

  /** The typed error of a status: authentication, a rate limit with its uncapped Retry-After, or
      the status with whether it is retried; an unexpected 2xx is a plain error. */
  predicate RefusedAs(e: Error, status: int, header: Header, until: string -> Option<Int64>) {
    var field := "Retry-After";
    var hint := if field in header && header[field] != [] then header[field][0] else "";
    e.Leaf? &&
    if 200 <= status <= 299 then e.kind.tag == Plain && e.kind.transient.None?
    else if status in {401, 403} then e.kind.tag == Auth
    else if status == 429 then e.kind.tag == RateLimit(ParseRetryAfterValue(hint, until))
    else e.kind.tag == HTTPStatus(status) && e.kind.transient == Some(IsRetryableStatus(status))
  }

  /** Only v decides the conditional fields, and no other field changes. */
  lemma ConditionalFieldsComeFromValidators(h: Header, v: Validators)
    ensures forall k :: k != IF_NONE_MATCH && k != IF_MODIFIED_SINCE ==>
              (k in Conditioned(h, v) <==> k in h) && (k in h ==> Conditioned(h, v)[k] == h[k])
    ensures IF_NONE_MATCH in Conditioned(h, v) <==> v.etag != "" && IsValidValidator(v.etag)
    ensures IF_MODIFIED_SINCE in Conditioned(h, v) <==> v.lastModified != "" && IsValidValidator(v.lastModified)
    ensures IF_NONE_MATCH in Conditioned(h, v) ==> Conditioned(h, v)["If-None-Match"] == [v.etag]
    ensures IF_MODIFIED_SINCE in Conditioned(h, v) ==> Conditioned(h, v)["If-Modified-Since"] == [v.lastModified]
  {
  }

  // ---- The cache over every run of polls ----

  /** What a plain GET would return at one poll. */
  datatype Version = Version(body: seq<Byte>, etag: string, lastModified: string)

  /** A 304 answers only a matching validator (sections 13.1.2, 13.1.3 and 15.4.5 of RFC 9110;
      If-None-Match, when sent, decides alone), and a 200 carries the current version. */
  predicate Honest(a: Answer, sent: Header, now: Version) {
    match a
    case Failed(_) => true
    case Reply(status, header, body, _) =>
      && (status == 304 ==>
            if IF_NONE_MATCH in sent then now.etag != "" && sent[IF_NONE_MATCH] == [now.etag]
            else IF_MODIFIED_SINCE in sent && now.lastModified != "" && sent[IF_MODIFIED_SINCE] == [now.lastModified])
      && (status == 200 ==>
            Content(body) == now.body && |Content(body)| <= MAX_INT64 &&
            Get(header, ETAG) == now.etag && Get(header, LAST_MODIFIED) == now.lastModified)
  }

  /** The server: the version at each poll, and its answer to each request header. */
  datatype Server = Server(version: nat -> Version, answer: (nat, Header) -> Answer)

  ghost predicate HonestServer(s: Server) {
    && (forall i: nat, h: Header :: Honest(s.answer(i, h), h, s.version(i)))
    && (forall i: nat, j: nat ::
          (s.version(i).etag != "" && s.version(i).etag == s.version(j).etag) ||
          (s.version(i).lastModified != "" && s.version(i).lastModified == s.version(j).lastModified)
          ==> s.version(i).body == s.version(j).body)
  }

  /** The caller's cache: a body with the validators it came with, or nothing usable. */
  datatype Cache = Empty | Held(body: seq<Byte>, validators: Validators)

  function ToSend(c: Cache): Validators {
    if c.Empty? then NO_VALIDATORS else c.validators
  }

  /** The documented caller: keep the cache on a 304, replace body and validators together on a
      200, and leave it alone on an error. */
  function Stored(c: Cache, r: Result<ConditionalResult, Error>): Cache {
    match r
    case Err(_) => c
    case Ok(NotModified) => c
    case Ok(Fresh(body, validators)) => Held(body, validators)
  }

  /** The exchange of poll i, whose request was built with header base(i), and the cache after
      it. */
  ghost function PollResult(s: Server, base: nat -> Header, maxBodyBytes: Int64, i: nat, c: Cache)
    : Result<ConditionalResult, Error>
  {
    Classified(s.answer(i, Conditioned(base(i), ToSend(c))), maxBodyBytes)
  }

  ghost function CacheAfter(s: Server, base: nat -> Header, maxBodyBytes: Int64, polls: nat): Cache {
    if polls == 0 then Empty
    else
      var c := CacheAfter(s, base, maxBodyBytes, polls - 1);
      Stored(c, PollResult(s, base, maxBodyBytes, polls - 1, c))
  }

  /** The cache came whole from one version the server had. */
  ghost predicate FromOneVersion(s: Server, c: Cache, j: nat) {
    var now := s.version(j);
    && c.Held? && c.body == now.body
    && c.validators.etag == (if IsValidValidator(now.etag) then now.etag else "")
    && c.validators.lastModified == (if IsValidValidator(now.lastModified) then now.lastModified else "")
  }

  ghost predicate FromSomeVersion(s: Server, c: Cache) {
    c.Empty? || exists j: nat :: FromOneVersion(s, c, j)
  }

  /** A poll that succeeds leaves the current body, and a cache that came from one version. */
  lemma SuccessIsCurrent(s: Server, h: Header, maxBodyBytes: Int64, i: nat, c: Cache,
        r: Result<ConditionalResult, Error>)
    requires HonestServer(s) && FromSomeVersion(s, c)
    requires r == Classified(s.answer(i, Conditioned(h, ToSend(c))), maxBodyBytes)
    ensures r.Ok? ==> Stored(c, r).Held? && Stored(c, r).body == s.version(i).body
    ensures FromSomeVersion(s, Stored(c, r))
  {
    var sent := Conditioned(h, ToSend(c));
    var a := s.answer(i, sent);
    assert Honest(a, sent, s.version(i));
    if a.Reply? && a.status == 200 {
      ReadsAllOrFails(a.body, EffectiveLimit(maxBodyBytes));
      assert r.Ok? ==> FromOneVersion(s, Stored(c, r), i);
    } else if a.Reply? && a.status == 304 {
      ConditionalFieldsComeFromValidators(h, ToSend(c));
      var j: nat :| FromOneVersion(s, c, j);
      assert s.version(i).body == s.version(j).body;
    }
  }

  lemma {:induction false} CacheComesFromOneVersion(s: Server, base: nat -> Header, maxBodyBytes: Int64, polls: nat)
    requires HonestServer(s)
    ensures FromSomeVersion(s, CacheAfter(s, base, maxBodyBytes, polls))
  {
    if polls > 0 {
      var c := CacheAfter(s, base, maxBodyBytes, polls - 1);
      CacheComesFromOneVersion(s, base, maxBodyBytes, polls - 1);
      SuccessIsCurrent(s, base(polls - 1), maxBodyBytes, polls - 1, c, PollResult(s, base, maxBodyBytes, polls - 1, c));
    }
  }

  /** Cache agreement: over every run of polls against such a server, after a poll that succeeds
      the caller holds exactly the body a plain GET would have returned then; and a poll that
      fails leaves the cache as it was. */
  lemma CacheAgreesWithPlainGet(s: Server, base: nat -> Header, maxBodyBytes: Int64, polls: nat)
    requires HonestServer(s) && polls > 0
    ensures var before := CacheAfter(s, base, maxBodyBytes, polls - 1);
            var after := CacheAfter(s, base, maxBodyBytes, polls);
            if PollResult(s, base, maxBodyBytes, polls - 1, before).Ok?
            then after.Held? && after.body == s.version(polls - 1).body
            else after == before
  {
    var c := CacheAfter(s, base, maxBodyBytes, polls - 1);
    CacheComesFromOneVersion(s, base, maxBodyBytes, polls - 1);
    SuccessIsCurrent(s, base(polls - 1), maxBodyBytes, polls - 1, c, PollResult(s, base, maxBodyBytes, polls - 1, c));
  }

  /** Whatever DoConditional captured, the next request replays verbatim, never dropped; what it
      captured is the server's value, and nothing exactly when that is not a valid one. */
  lemma CapturedValidatorsAreReplayed(a: Answer, maxBodyBytes: Int64, h: Header)
    requires Classified(a, maxBodyBytes).Ok? && Classified(a, maxBodyBytes).value.Fresh?
    ensures var v := Classified(a, maxBodyBytes).value.validators;
            var sent := Conditioned(h, v);
            && (v.etag != "" ==> sent[IF_NONE_MATCH] == [v.etag] && v.etag == Get(a.header, ETAG))
            && (v.etag == "" ==> IF_NONE_MATCH !in sent)
            && (IsValidValidator(Get(a.header, ETAG)) ==> v.etag == Get(a.header, ETAG))
            && (v.lastModified != "" ==>
                  sent[IF_MODIFIED_SINCE] == [v.lastModified] && v.lastModified == Get(a.header, LAST_MODIFIED))
            && (v.lastModified == "" ==> IF_MODIFIED_SINCE !in sent)
            && (IsValidValidator(Get(a.header, LAST_MODIFIED)) ==> v.lastModified == Get(a.header, LAST_MODIFIED))
  {
  }

  /** The documented caller as an object. */
  class CachedResource {
    var cache: Cache

    constructor ()
      ensures cache == Empty
    {
      cache := Empty;
    }

    /** One poll: a new request, the stored validators, the stored body kept or replaced. */
    method Poll(base: Header, maxBodyBytes: Int64, client: Header -> Answer) returns (ok: bool)
      modifies this
      ensures var r := Classified(client(Conditioned(base, ToSend(old(cache)))), maxBodyBytes);
              cache == Stored(old(cache), r) && (ok <==> r.Ok?)
    {
      var req := new Request(base);
      var r, _ := DoConditional(req, ToSend(cache), maxBodyBytes, client);
      cache := Stored(cache, r);
      ok := r.Ok?;
    }
  }

  /** Any number of polls in a row leaves the object with the cache of the run. */
  method PollRepeatedly(s: Server, base: nat -> Header, maxBodyBytes: Int64, polls: nat) returns (c: CachedResource)
    ensures fresh(c) && c.cache == CacheAfter(s, base, maxBodyBytes, polls)
  {
    c := new CachedResource();
    for i := 0 to polls
      invariant c.cache == CacheAfter(s, base, maxBodyBytes, i)
    {
      var ok := c.Poll(base(i), maxBodyBytes, h => s.answer(i, h));
    }
  }
}
