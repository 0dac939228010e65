/** Response bodies: readers that deliver their content in any chunking and may fail anywhere,
    the bounded read that never truncates, and draining. */
module Bodies {
  import opened Prelude
  import opened Errors

  const DRAIN_LIMIT: int := 65536

  type Byte = x: int | 0 <= x < 256

  /** How a body will behave: the chunks successive reads find ready (an empty one is a read of
      no bytes), what follows them (a read error, or the end of file), and whether that comes
      together with the last chunk or on a read of its own. */
  datatype Script = Script(chunks: seq<seq<Byte>>, failure: Option<Error>, eager: bool)

  function Flatten(chunks: seq<seq<Byte>>): seq<Byte> {
    if chunks == [] then [] else chunks[0] + Flatten(chunks[1..])
  }

  function Content(s: Script): seq<Byte> {
    Flatten(s.chunks)
  }

  /** The end is reported by the very read that delivers the last byte. */
  predicate EndsWithLastByte(s: Script) {
    s.eager && s.chunks != [] && s.chunks[|s.chunks| - 1] != []
  }

  ghost function Size(chunks: seq<seq<Byte>>): nat {
    if chunks == [] then 0 else |chunks[0]| + 1 + Size(chunks[1..])
  }

  /** One Read into a buffer of room bytes: what it returns, whether it reports the end, and
      what is left. */
  function ReadStep(s: Script, room: nat): (r: (seq<Byte>, bool, Script))
    requires room > 0
    ensures |r.0| <= room && r.0 + Content(r.2) == Content(s)
    ensures r.2.failure == s.failure && r.2.eager == s.eager
    ensures r.1 ==> r.2.chunks == [] && (s.chunks == [] || (s.eager && |s.chunks| == 1 && r.0 == s.chunks[0]))
    ensures !r.1 ==> Size(r.2.chunks) < Size(s.chunks)
    ensures !r.1 && r.2.chunks == [] ==> !s.eager
  {
    if s.chunks == [] then ([], true, s)
    else
      var c := s.chunks[0];
      if |c| <= room then
        var left := s.(chunks := s.chunks[1..]);
        (c, s.eager && left.chunks == [], left)
      else
        var left := s.(chunks := [c[room..]] + s.chunks[1..]);
        assert left.chunks[1..] == s.chunks[1..] && c[..room] + c[room..] == c;
        (c[..room], false, left)
  }

  /** An io.ReadCloser: what is left to read of the body it was given, and how often it was
      closed. */
  class Reader {
    ghost const whole: Script
    var script: Script
    var closes: nat

    constructor (s: Script)
      ensures whole == script == s && closes == 0
    {
      whole, script := s, s;
      closes := 0;
    }

    /** The first most bytes of the body were read, or all of a shorter one, and no more. */
    ghost predicate SpentUpTo(most: int)
      reads this
    {
      |Content(whole)| - |Content(script)| == Min(most, |Content(whole)|)
    }

    /** Nothing was read of it, and it is not closed. */
    ghost predicate Unread()
      reads this
    {
      closes == 0 && script == whole
    }

    /** Closed once, after being drained of 64 KiB, or read up to limit where there is one. */
    ghost predicate Settled(limit: Option<Int64>)
      reads this
    {
      closes == 1 && (SpentUpTo(64 * 1024) || (limit.Some? && SpentUpTo(Max(0, Probe(limit.value)))))
    }

    method Read(room: nat) returns (data: seq<Byte>, ended: bool)
      requires room > 0
      modifies `script
      ensures (data, ended, script) == ReadStep(old(script), room)
    {
      var step := ReadStep(script, room);
      data, ended, script := step.0, step.1, step.2;
    }

    method Close()
      modifies `closes
      ensures closes == old(closes) + 1
    {
      closes := closes + 1;
    }
  }

  // ---- The bounded read ----

  function TooLargeError(limit: int): Error {
    Leaf(Bare(TooLarge(limit)))
  }

  function Judge(data: seq<Byte>, limit: int): Result<seq<Byte>, Error> {
    if |data| > limit then Err(TooLargeError(limit)) else Ok(data)
  }

  /** One byte beyond the limit tells a body that is too long, where there is such a byte. */
  function Probe(limit: Int64): Int64 {
    if limit < MAX_INT64 then limit + 1 else limit
  }

  /** What a read bounded by limit makes of a whole body, whatever its chunking. */
  function Limited(s: Script, limit: Int64): Result<seq<Byte>, Error> {
    var content := Content(s);
    var probe := Probe(limit);
    if probe <= 0 then Judge([], limit)
    else if |content| < probe || (|content| == probe && EndsWithLastByte(s)) then
      match s.failure
      case Some(e) => Err(e)
      case None => Judge(content, limit)
    else Judge(content[..probe], limit)
  }

  lemma {:induction false} LastByteCounts(chunks: seq<seq<Byte>>)
    requires chunks != [] && chunks[|chunks| - 1] != []
    ensures Flatten(chunks) != []
    decreases |chunks|
  {
    if |chunks| > 1 {
      LastByteCounts(chunks[1..]);
    }
  }

  /** data was read from s, leaving rest of it and left of the probe; the read stopped because
      the body reported its end, or because the probe was used up. */
  ghost predicate Stopped(s: Script, probe: Int64, data: seq<Byte>, left: int, rest: Script, reported: bool) {
    && data + Content(rest) == Content(s)
    && |data| + left == probe
    && rest.failure == s.failure
    && (reported ==> rest.chunks == [] && (left == 0 ==> EndsWithLastByte(s)))
    && (!reported ==> EndsWithLastByte(rest) == EndsWithLastByte(s))
  }

  lemma ReadKeepsStopped(s: Script, probe: Int64, data: seq<Byte>, left: int, cur: Script, room: nat)
    requires 0 < room <= left && Stopped(s, probe, data, left, cur, false)
    ensures var (chunk, done, rest) := ReadStep(cur, room);
            Stopped(s, probe, data + chunk, left - |chunk|, rest, done)
  {
    var (chunk, done, rest) := ReadStep(cur, room);
    assert data + (chunk + Content(rest)) == data + chunk + Content(rest);
  }

  lemma StoppedReadIsLimited(s: Script, limit: Int64, probe: Int64, data: seq<Byte>, left: int, rest: Script,
        reported: bool)
    requires probe == Probe(limit)
    requires Stopped(s, probe, data, left, rest, reported)
    requires if probe > 0 then left >= 0 && (!reported ==> left == 0) else data == [] && !reported
    ensures Limited(s, limit) == if reported && s.failure.Some? then Err(s.failure.value) else Judge(data, limit)
    ensures |Content(s)| - |Content(rest)| == Min(Max(0, probe), |Content(s)|)
  {
    assert data == Content(s)[..|data|];
    if reported {
      assert data == Content(s);
    } else if EndsWithLastByte(rest) {
      LastByteCounts(rest.chunks);
    }
  }

  /** ReadLimitedBody: the cap-plus-one probe read by io.ReadAll through an io.LimitReader, with
      any buffer growth. It closes the body exactly once, consumes its first limit + 1 bytes or
      all of a shorter one, and its result depends only on the content, never on the chunking. */
  method ReadLimitedBody(body: Reader, limit: Int64) returns (r: Result<seq<Byte>, Error>)
    modifies body
    ensures body.closes == old(body.closes) + 1
    ensures r == Limited(old(body.script), limit)
    ensures |Content(old(body.script))| - |Content(body.script)| ==
            Min(Max(0, Probe(limit)), |Content(old(body.script))|)
    ensures old(body.Unread()) ==> body.Settled(Some(limit))
  {
    var probe: Int64 := limit;
    if probe < MAX_INT64 {
      probe := probe + 1;
    }
    var data, left, reported := [], probe, false;
    while left > 0 && !reported
      invariant body.closes == old(body.closes)
      invariant Stopped(old(body.script), probe, data, left, body.script, reported)
      invariant if probe > 0 then left >= 0 else data == [] && !reported
      decreases !reported, Size(body.script.chunks)
    {
      var room: nat :| room > 0;
      if left < room {
        room := left;
      }
      ReadKeepsStopped(old(body.script), probe, data, left, body.script, room);
      var chunk, done := body.Read(room);
      data, left, reported := data + chunk, left - |chunk|, done;
    }
    StoppedReadIsLimited(old(body.script), limit, probe, data, left, body.script, reported);
    body.Close();
    if reported && body.script.failure.Some? {
      return Err(body.script.failure.value);
    }
    if |data| > limit {
      return Err(TooLargeError(limit));
    }
    return Ok(data);
  }

  /** A read up to limit meets the error that follows the content: all of it fits the limit, or
      exactly the one byte beyond does not and brings the error with it. */
  predicate MeetsFailure(s: Script, limit: Int64) {
    var room := if limit == MAX_INT64 then MAX_INT64 else limit + 1;
    s.failure.Some? && (|Content(s)| < room || (|Content(s)| == room && EndsWithLastByte(s)))
  }

  /** No truncated prefix ever passes for a body: a successful read is the entire content, and
      every result of a limit from 0 up is decided by the content alone. A body over the limit
      is reported too large, unless its read error comes with the very byte that crosses it. At
      the largest limit there is no byte beyond to probe for: a clean body always passes, nothing
      is ever too large, and a read error is reported unless the read stops short of meeting it.
      Under a limit below 0 every body is too large, unread. */
  lemma ReadsAllOrFails(s: Script, limit: Int64)
    requires |Content(s)| <= MAX_INT64
    ensures Limited(s, limit) ==
            if limit >= 0 && MeetsFailure(s, limit) then Err(s.failure.value)
            else if |Content(s)| <= limit then Ok(Content(s))
            else Err(Leaf(Bare(TooLarge(limit))))
    ensures Limited(s, limit).Ok? ==> Limited(s, limit).value == Content(s) && |Content(s)| <= limit
    ensures |Content(s)| <= limit && limit < MAX_INT64 ==>
              Limited(s, limit) == match s.failure case Some(e) => Err(e) case None => Ok(Content(s))
    ensures limit == MAX_INT64 ==>
              Limited(s, limit) ==
              if s.failure.Some? && (|Content(s)| < MAX_INT64 || EndsWithLastByte(s))
              then Err(s.failure.value) else Ok(Content(s))
    ensures |Content(s)| > limit >= 0 ==>
              Limited(s, limit) ==
              if |Content(s)| == limit + 1 && EndsWithLastByte(s) && s.failure.Some?
              then Err(s.failure.value) else Err(TooLargeError(limit))
  {
    if |Content(s)| == MAX_INT64 {
      assert Content(s)[..MAX_INT64] == Content(s);
    }
  }

  // ---- Draining ----

  /** DrainClose: reads and discards up to the drain limit, then closes, whatever the read
      made of it. */
  method DrainClose(body: Reader)
    modifies body
    ensures body.closes == old(body.closes) + 1
    ensures |Content(old(body.script))| - |Content(body.script)| == Min(64 * 1024, |Content(old(body.script))|)
    ensures old(body.Unread()) ==> body.Settled(None)
  {
    var left, ended := DRAIN_LIMIT, false;
    while left > 0 && !ended
      invariant body.closes == old(body.closes)
      invariant 0 <= left <= DRAIN_LIMIT
      invariant |Content(body.script)| == |Content(old(body.script))| - (DRAIN_LIMIT - left)
      invariant ended ==> body.script.chunks == []
      decreases !ended, Size(body.script.chunks)
    {
      var room: nat :| room > 0;
      if left < room {
        room := left;
      }
      var chunk, done := body.Read(room);
      left, ended := left - |chunk|, done;
    }
    body.Close();
  }
}
