/** Retry-After header values (section 10.2.3 of RFC 9110) and HTTP status codes, read into
    int64 nanoseconds. Header bytes are characters; white space is ASCII. */
module RetryAfter {
  import opened Prelude
  import opened Errors
  import opened Text

  const MAX_INT64_DIGITS: nat := 19
  const MAX_DATE_LENGTH: nat := 64
  const MAX_SECONDS: int := MAX_INT64 / SECOND

  // ---- Decimal digits ----

  function PowerOfTen(n: nat): nat {
    if n == 0 then 1 else 10 * PowerOfTen(n - 1)
  }

  lemma {:induction false} NumberOfDroppedZero(s: string)
    requires AllDigits(s) && s != [] && s[0] == '0'
    ensures NumberOf(s) == NumberOf(s[1..])
  {
    if |s| > 1 {
      NumberOfDroppedZero(s[..|s| - 1]);
      assert s[1..][..|s| - 2] == s[..|s| - 1][1..];
    }
  }

  /** A digit other than zero in front puts the number at 10^(n-1) or above. */
  lemma {:induction false} NumberOfLeadingDigit(s: string)
    requires AllDigits(s) && s != [] && s[0] != '0'
    ensures NumberOf(s) >= PowerOfTen(|s| - 1) > 0
  {
    if |s| > 1 {
      NumberOfLeadingDigit(s[..|s| - 1]);
    }
  }

  lemma {:induction false} PowerOfTenGrows(m: nat, n: nat)
    requires m <= n
    ensures PowerOfTen(m) <= PowerOfTen(n)
  {
    if m < n {
      PowerOfTenGrows(m, n - 1);
    }
  }

  /** strconv.ParseInt(s, 10, 64) on a run of digits: the number, or a range error. */
  function ParseInt(s: string): Option<Int64>
    requires AllDigits(s)
  {
    var n := NumberOf(s);
    if n <= MAX_INT64 then Some(n) else None
  }

  // ---- The shape and value of delta-seconds ----

  predicate IsSign(c: char) {
    c == '+' || c == '-'
  }

  /** The digits after an optional sign. */
  function Unsigned(h: string): string {
    if h != [] && IsSign(h[0]) then h[1..] else h
  }

  /** An optional sign, then at least one digit. */
  predicate IsDeltaSeconds(h: string) {
    Unsigned(h) != [] && AllDigits(Unsigned(h))
  }

  lemma DeltaSecondsShape(h: string)
    ensures IsDeltaSeconds(h) <==>
            exists sign: string, digits: string ::
              h == sign + digits && sign in ["", "+", "-"] && digits != "" && forall c :: c in digits ==> c in DIGITS
  {
    if IsDeltaSeconds(h) {
      var sign := if IsSign(h[0]) then [h[0]] else "";
      forall c | c in Unsigned(h) ensures c in DIGITS {
        DigitsAreTen(c);
      }
      assert h == sign + Unsigned(h);
    }
    if sign: string, digits: string :| h == sign + digits && sign in ["", "+", "-"] && digits != "" &&
                                       forall c :: c in digits ==> c in DIGITS {
      forall i | 0 <= i < |digits| ensures IsDigit(digits[i]) {
        DigitsAreTen(digits[i]);
      }
      assert Unsigned(h) == digits by {
        assert sign == "" ==> h == digits && h[0] == digits[0];
        assert sign != "" ==> h[0] == sign[0] && h[1..] == digits;
      }
    }
  }

  /** The pre-filter scan accepts exactly that shape. */
  method LooksLikeDeltaSeconds(header: string) returns (b: bool)
    ensures b <==> IsDeltaSeconds(header)
  {
    var h := header;
    if h == [] {
      return false;
    }
    if h[0] == '+' || h[0] == '-' {
      h := h[1..];
    }
    if h == [] {
      return false;
    }
    for i := 0 to |h|
      invariant forall j :: 0 <= j < i ==> IsDigit(h[j])
    {
      if h[i] < '0' || h[i] > '9' {
        return false;
      }
    }
    return true;
  }

  function TrimZeros(s: string): string {
    if s != [] && s[0] == '0' then TrimZeros(s[1..]) else s
  }

  lemma {:induction false} TrimZerosKeepsNumber(s: string)
    requires AllDigits(s)
    ensures AllDigits(TrimZeros(s)) && NumberOf(TrimZeros(s)) == NumberOf(s)
    ensures TrimZeros(s) != [] ==> TrimZeros(s)[0] != '0'
    ensures |TrimZeros(s)| <= |s|
  {
    if s != [] && s[0] == '0' {
      NumberOfDroppedZero(s);
      TrimZerosKeepsNumber(s[1..]);
    }
  }

  /** deltaSeconds: strip the sign and the zeros, refuse more than nineteen digits, parse,
      clamp, and multiply in int64. */
  function DeltaSeconds(h: string): Int64
    requires IsDeltaSeconds(h)
  {
    if h[0] == '-' then 0
    else
      var digits := if h[0] == '+' then h[1..] else h;
      TrimZerosKeepsNumber(digits);
      var h := TrimZeros(digits);
      if h == [] then 0
      else if |h| > MAX_INT64_DIGITS then 0
      else
        match ParseInt(h)
        case None => 0
        case Some(n) =>
          if n <= 0 then 0
          else if n > MAX_SECONDS then WrapInt64(MAX_SECONDS * SECOND)
          else WrapInt64(n * SECOND)
  }

  /** The wait a delta-seconds header asks for, over the unbounded number it spells: nothing
      for a negative, zero or unrepresentable one, else that many seconds up to the most an
      int64 of nanoseconds holds. Any number of leading zeros reads the same. */
  lemma DeltaSecondsExactly(h: string)
    requires IsDeltaSeconds(h)
    ensures var v := NumberOf(Unsigned(h));
            DeltaSeconds(h) ==
            if h[0] == '-' || v > MAX_INT64 then 0 else Min(v, 9_223_372_036) * SECOND
  {
    var digits := Unsigned(h);
    TrimZerosKeepsNumber(digits);
    var t := TrimZeros(digits);
    if t != [] {
      NumberOfLeadingDigit(t);
      if |t| > MAX_INT64_DIGITS {
        PowerOfTenGrows(MAX_INT64_DIGITS, |t| - 1);
        NineteenDigits();
      }
    }
  }

  lemma NineteenDigits()
    ensures PowerOfTen(MAX_INT64_DIGITS) == 10_000_000_000_000_000_000 > MAX_INT64
  {
    assert PowerOfTen(4) == 10_000;
    assert PowerOfTen(8) == 100_000_000;
    assert PowerOfTen(12) == 1_000_000_000_000;
    assert PowerOfTen(16) == 10_000_000_000_000_000;
  }

  // ---- The whole header ----

  /** parseRetryAfterValue. until is what http.ParseTime and time.Until make of a date: the
      time left, or None when the text is no date. */
  function ParseRetryAfterValue(header: string, until: string -> Option<Int64>): Int64 {
    var h := TrimSpace(header);
    if h == [] then 0
    else if IsDeltaSeconds(h) then DeltaSeconds(h)
    else if |h| > MAX_DATE_LENGTH then 0
    else
      match until(h)
      case Some(d) => if d > 0 then d else 0
      case None => 0
  }

  function ParseRetryAfter(header: string, until: string -> Option<Int64>): Int64 {
    Min(ParseRetryAfterValue(header, until), RETRY_AFTER_CAP)
  }

  /** Whatever the header and whatever the clock, the honored wait is in [0, 60s]; and the cap
      is the only difference from the raw value. */
  lemma RetryAfterIsBounded(header: string, until: string -> Option<Int64>)
    ensures 0 <= ParseRetryAfter(header, until) <= RETRY_AFTER_CAP
    ensures ParseRetryAfterValue(header, until) <= RETRY_AFTER_CAP ==>
              ParseRetryAfter(header, until) == ParseRetryAfterValue(header, until)
  {
    var h := TrimSpace(header);
    if h != [] && IsDeltaSeconds(h) {
      DeltaSecondsExactly(h);
    }
  }

  /** A delta-seconds header, over the number it spells and whatever space surrounds it: that many
      seconds, at most sixty; nothing for a negative number or one no int64 holds. */
  lemma HonoredSecondsExactly(before: string, h: string, after: string, until: string -> Option<Int64>)
    requires AllSpace(before) && AllSpace(after) && IsDeltaSeconds(h)
    ensures var v := if h[0] == '-' || NumberOf(Unsigned(h)) > MAX_INT64 then 0 else NumberOf(Unsigned(h));
            && ParseRetryAfter(before + h + after, until) == Min(v, 60) * 1_000_000_000
            && ParseRetryAfterValue(before + h + after, until) == Min(v, 9_223_372_036) * 1_000_000_000
  {
    DigitIsNoSpace(h[0]);
    DigitIsNoSpace(h[|h| - 1]);
    TrimSpaceExactly(before, h, after);
    DeltaSecondsExactly(h);
  }

  lemma DigitIsNoSpace(c: char)
    ensures IsDigit(c) || IsSign(c) ==> !IsSpace(c)
  {
  }

  /** Any other header: the time left until the date it spells, at most sixty seconds; nothing for
      no text, no date, a date past or one spelled in more than sixty-four bytes. */
  lemma HonoredDateExactly(before: string, h: string, after: string, until: string -> Option<Int64>)
    requires AllSpace(before) && AllSpace(after) && !IsDeltaSeconds(h)
    requires h != [] ==> !IsSpace(h[0]) && !IsSpace(h[|h| - 1])
    ensures var d := if 0 < |h| <= 64 && until(h).Some? then Max(until(h).value, 0) else 0;
            && ParseRetryAfter(before + h + after, until) == Min(d, 60 * 1_000_000_000)
            && ParseRetryAfterValue(before + h + after, until) == d
  {
    TrimSpaceExactly(before, h, after);
  }

  /** Every header is text with space around it. */
  lemma {:induction false} HeaderIsPadded(s: string) returns (before: string, h: string, after: string)
    ensures s == before + h + after && AllSpace(before) && AllSpace(after)
    ensures h != [] ==> !IsSpace(h[0]) && !IsSpace(h[|h| - 1])
    decreases |s|
  {
    before, h, after := [], s, [];
    if s != [] && IsSpace(s[0]) {
      before, h, after := HeaderIsPadded(s[1..]);
      before := [s[0]] + before;
    } else if s != [] && IsSpace(s[|s| - 1]) {
      before, h, after := HeaderIsPadded(s[..|s| - 1]);
      after := after + [s[|s| - 1]];
      assert s == s[..|s| - 1] + [s[|s| - 1]];
    }
  }

  /** A sign and a numeral spell what they say. */
  lemma NumeralIsDelta(sign: string, n: nat)
    requires sign in ["", "+", "-"]
    ensures var h := sign + Numeral(n);
            IsDeltaSeconds(h) && (h[0] == '-' <==> sign == "-") && NumberOf(Unsigned(h)) == n
  {
    var h := sign + Numeral(n);
    NumeralReadsBack(n);
    assert IsDigit(Numeral(n)[0]);
    assert sign == "" ==> h == Numeral(n);
    assert sign != "" ==> h[1..] == Numeral(n);
  }

  // ---- Statuses ----

  /** CheckHTTPStatus: nil for a 2xx, else a typed error. */
  function CheckHTTPStatus(code: int, header: string, until: string -> Option<Int64>): Option<Error> {
    if 200 <= code < 300 then None
    else if code == 401 || code == 403 then Some(Leaf(Bare(Auth)))
    else if code == 429 then Some(Leaf(Bare(RateLimit(ParseRetryAfterValue(header, until)))))
    else Some(HTTPStatusError(code))
  }

  /** Of every status: a 2xx passes; 401 and 403 are an AuthError; 429 is a RateLimitError with the
      Retry-After not capped; any other an HTTPStatusError that says whether it is retried. */
  lemma StatusesExactly(code: int, header: string, until: string -> Option<Int64>)
    ensures CheckHTTPStatus(code, header, until) ==
            if 200 <= code <= 299 then None
            else if code in {401, 403} then Some(Leaf(Kind(Auth, {}, None, Untimed, None)))
            else if code == 429 then
              Some(Leaf(Kind(RateLimit(ParseRetryAfterValue(header, until)), {}, None, Untimed, None)))
            else Some(Leaf(Kind(HTTPStatus(code), {}, Some(IsRetryableStatus(code)), Untimed, None)))
  {
  }
}
