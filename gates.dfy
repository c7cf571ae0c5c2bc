/**
 * The three decisions built on the window query
 * (functions/register/main.py:23-27, 120-156): the abuse count, the code to
 * reuse, and the delivery throttle.
 */
module Gates {
  import opened Wrappers
  import opened Records

  const MINUTE: int := 60
  const HOUR: int := 60 * MINUTE
  const DAY: int := 24 * HOUR
  /** How long a pending code stays the current code of a number. */
  const REUSE_PERIOD: int := 10 * MINUTE

  /** Declared beside the per-number limit; the request flow never applies it. */
  const INVALID_REGS_PER_IP_LIMIT: int := 10
  const INVALID_REGS_PER_MSISDN_LIMIT: int := 4
  const SEND_SMS_LIMIT_PER_MINUTE: int := 1
  const SEND_SMS_LIMIT_PER_HOUR: int := 2
  const SEND_SMS_LIMIT_PER_24_HOURS: int := 5

  // ---------------------------------------------------------------- abuse gate

  function StatusQuery(field: Field, value: string, status: string): Query
  {
    Query(field, value, HOUR, Some(status))
  }

  /** An attempt that counts against the key: pending or incorrect, within the last hour. */
  predicate IsOpenAttempt(r: Record, field: Field, value: string, now: int)
  {
    && FieldValue(r, field) == value
    && (r.status == STATUS_PENDING || r.status == STATUS_INCORRECT)
    && r.date > now - HOUR
  }

  /** The number of open attempts for the key, counted directly over the store. */
  function OpenAttempts(rs: seq<Record>, field: Field, value: string, now: int): nat
  {
    if rs == [] then 0
    else
      OpenAttempts(rs[..|rs| - 1], field, value, now)
        + (if IsOpenAttempt(rs[|rs| - 1], field, value, now) then 1 else 0)
  }

  lemma {:induction false} OpenAttemptsSplitSelect(rs: seq<Record>, field: Field, value: string, now: int)
    ensures |Select(rs, StatusQuery(field, value, STATUS_PENDING), now)|
          + |Select(rs, StatusQuery(field, value, STATUS_INCORRECT), now)|
         == OpenAttempts(rs, field, value, now)
  {
    if rs != [] {
      var init, last := rs[..|rs| - 1], rs[|rs| - 1];
      var pending, incorrect := StatusQuery(field, value, STATUS_PENDING), StatusQuery(field, value, STATUS_INCORRECT);
      OpenAttemptsSplitSelect(init, field, value, now);
      assert |Select(rs, pending, now)| == |Select(init, pending, now)| + (if Matches(last, pending, now) then 1 else 0);
      assert |Select(rs, incorrect, now)| == |Select(init, incorrect, now)| + (if Matches(last, incorrect, now) then 1 else 0);
      assert OpenAttempts(rs, field, value, now) == OpenAttempts(init, field, value, now) + (if IsOpenAttempt(last, field, value, now) then 1 else 0);
    }
  }

  /** The two status-filtered windows together hold exactly the open attempts. */
  lemma OpenAttemptsSplit(rs: seq<Record>, field: Field, value: string, now: int)
    ensures |Window(rs, StatusQuery(field, value, STATUS_PENDING), now)|
          + |Window(rs, StatusQuery(field, value, STATUS_INCORRECT), now)|
         == OpenAttempts(rs, field, value, now)
  {
    OpenAttemptsSplitSelect(rs, field, value, now);
  }

  /** `_is_too_many_requests_for` as a verdict over the store. */
  function TooManyRequestsFor(rs: seq<Record>, field: Field, value: string, limit: int, now: int): (tooMany: bool)
    ensures tooMany <==>
      |Window(rs, StatusQuery(field, value, STATUS_PENDING), now)|
        + |Window(rs, StatusQuery(field, value, STATUS_INCORRECT), now)| >= limit
  {
    OpenAttemptsSplit(rs, field, value, now);
    OpenAttempts(rs, field, value, now) >= limit
  }

  /** A key no record carries has no open attempts. */
  lemma {:induction false} OpenAttemptsOfUnusedKey(rs: seq<Record>, field: Field, value: string, now: int)
    requires forall r :: r in rs ==> FieldValue(r, field) != value
    ensures OpenAttempts(rs, field, value, now) == 0
  {
    if rs != [] {
      assert rs[|rs| - 1] in rs;
      OpenAttemptsOfUnusedKey(rs[..|rs| - 1], field, value, now);
    }
  }

  /** One more open attempt, put now, adds one to the count of its key. */
  lemma OpenAttemptsAppend(rs: seq<Record>, r: Record, field: Field, value: string, now: int)
    ensures OpenAttempts(rs + [r], field, value, now)
         == OpenAttempts(rs, field, value, now) + (if IsOpenAttempt(r, field, value, now) then 1 else 0)
  {
    assert (rs + [r])[..|rs + [r]| - 1] == rs;
  }

  // ---------------------------------------------------------------- code issuer

  /** A record whose code is still the current code of `msisdn`. */
  predicate IsReusable(r: Record, msisdn: string, now: int)
  {
    r.msisdn == msisdn && r.status == STATUS_PENDING && r.date > now - REUSE_PERIOD
  }

  /** `r` is a reusable record with no later reusable record beside it. */
  predicate IsNewestReusable(r: Record, rs: seq<Record>, msisdn: string, now: int)
  {
    && r in rs
    && IsReusable(r, msisdn, now)
    && forall r' :: r' in rs && IsReusable(r', msisdn, now) ==> r'.date <= r.date
  }

  function PendingQuery(msisdn: string): Query
  {
    Query(Msisdn, msisdn, REUSE_PERIOD, Some(STATUS_PENDING))
  }

  /** `_get_pending_registration_code`: the code of the newest reusable record, if any. */
  function PendingRegistrationCode(rs: seq<Record>, msisdn: string, now: int): (c: Option<string>)
    ensures c.None? <==> forall r :: r in rs ==> !IsReusable(r, msisdn, now)
    ensures c.Some? ==> exists r :: IsNewestReusable(r, rs, msisdn, now) && r.code == c.value
  {
    var w := Window(rs, PendingQuery(msisdn), now);
    assert forall r :: Matches(r, PendingQuery(msisdn), now) <==> IsReusable(r, msisdn, now);
    if |w| > 0 then
      assert w[0] in w;
      assert forall r' :: r' in w ==> r'.date <= w[0].date by {
        forall r' | r' in w ensures r'.date <= w[0].date {
          var k :| 0 <= k < |w| && w[k] == r';
        }
      }
      assert IsNewestReusable(w[0], rs, msisdn, now);
      Some(w[0].code)
    else
      None
  }

  /**
   * The code an accepted request uses: the reusable code, or `freshCode`
   * when there is none. As with Python's `or`, an empty stored code also
   * falls through to the fresh one.
   */
  function IssueCode(rs: seq<Record>, msisdn: string, now: int, freshCode: string): (code: string)
    ensures (forall r :: r in rs ==> !IsReusable(r, msisdn, now)) ==> code == freshCode
    ensures code == freshCode || exists r :: IsNewestReusable(r, rs, msisdn, now) && r.code == code
    ensures (exists r :: IsNewestReusable(r, rs, msisdn, now))
         && (forall r :: IsNewestReusable(r, rs, msisdn, now) ==> r.code != "")
        ==> exists r :: IsNewestReusable(r, rs, msisdn, now) && r.code == code
    ensures (forall r :: IsNewestReusable(r, rs, msisdn, now) ==> r.code == "") ==> code == freshCode
  {
    match PendingRegistrationCode(rs, msisdn, now)
    case Some(c) => if c != "" then c else freshCode
    case None => freshCode
  }

  /** A retry while the only earlier attempt is still pending and recent gets that attempt's code. */
  lemma RetryReusesCode(first: Record, now: int, freshCode: string)
    requires first.status == STATUS_PENDING && first.code != ""
    requires first.date > now - REUSE_PERIOD
    ensures IssueCode([first], first.msisdn, now, freshCode) == first.code
  {
    assert IsReusable(first, first.msisdn, now);
  }

  /** Once the only earlier attempt is ten minutes old or more, a fresh code is used. */
  lemma ExpiredCodeReplaced(first: Record, now: int, freshCode: string)
    requires first.date <= now - REUSE_PERIOD
    ensures IssueCode([first], first.msisdn, now, freshCode) == freshCode
  {
  }

  // ---------------------------------------------------------------- delivery throttle

  /** The number of records of any status for `msisdn` within `period`, counted directly. */
  function Recent(rs: seq<Record>, msisdn: string, period: int, now: int): nat
  {
    if rs == [] then 0
    else
      var last := rs[|rs| - 1];
      Recent(rs[..|rs| - 1], msisdn, period, now)
        + (if last.msisdn == msisdn && last.date > now - period then 1 else 0)
  }

  function AllStatusQuery(msisdn: string, period: int): Query
  {
    Query(Msisdn, msisdn, period, None)
  }

  lemma {:induction false} WindowCountsRecent(rs: seq<Record>, msisdn: string, period: int, now: int)
    ensures |Window(rs, AllStatusQuery(msisdn, period), now)| == Recent(rs, msisdn, period, now)
  {
    if rs != [] {
      WindowCountsRecent(rs[..|rs| - 1], msisdn, period, now);
    }
  }

  /** `_should_send_sms`: every one of the three windows is within its cap. */
  function ShouldSendSms(rs: seq<Record>, msisdn: string, now: int): (send: bool)
    ensures send <==>
      && Recent(rs, msisdn, MINUTE, now) <= SEND_SMS_LIMIT_PER_MINUTE
      && Recent(rs, msisdn, HOUR, now) <= SEND_SMS_LIMIT_PER_HOUR
      && Recent(rs, msisdn, DAY, now) <= SEND_SMS_LIMIT_PER_24_HOURS
  {
    var lastMinute := Window(rs, AllStatusQuery(msisdn, MINUTE), now);
    var lastHour := Window(rs, AllStatusQuery(msisdn, HOUR), now);
    var last24Hours := Window(rs, AllStatusQuery(msisdn, DAY), now);
    WindowCountsRecent(rs, msisdn, MINUTE, now);
    WindowCountsRecent(rs, msisdn, HOUR, now);
    WindowCountsRecent(rs, msisdn, DAY, now);
    !(|lastMinute| > SEND_SMS_LIMIT_PER_MINUTE
      || |lastHour| > SEND_SMS_LIMIT_PER_HOUR
      || |last24Hours| > SEND_SMS_LIMIT_PER_24_HOURS)
  }

  lemma RecentAppend(rs: seq<Record>, r: Record, msisdn: string, period: int, now: int)
    ensures Recent(rs + [r], msisdn, period, now)
         == Recent(rs, msisdn, period, now) + (if r.msisdn == msisdn && r.date > now - period then 1 else 0)
  {
    assert (rs + [r])[..|rs + [r]| - 1] == rs;
  }

  /**
   * The throttle runs after the new record is put, so that record counts
   * against itself: sending is allowed exactly when there are no earlier
   * records in the last minute, at most one in the last hour and at most
   * four in the last day.
   */
  lemma ThrottleCountsNewRecord(rs: seq<Record>, r: Record, now: int)
    requires r.date == now
    ensures ShouldSendSms(rs + [r], r.msisdn, now) <==>
      && Recent(rs, r.msisdn, MINUTE, now) == 0
      && Recent(rs, r.msisdn, HOUR, now) <= SEND_SMS_LIMIT_PER_HOUR - 1
      && Recent(rs, r.msisdn, DAY, now) <= SEND_SMS_LIMIT_PER_24_HOURS - 1
  {
    RecentAppend(rs, r, r.msisdn, MINUTE, now);
    RecentAppend(rs, r, r.msisdn, HOUR, now);
    RecentAppend(rs, r, r.msisdn, DAY, now);
  }

  /** With any earlier record for the number in the last minute, the new attempt is not sent. */
  lemma MinuteCapReached(rs: seq<Record>, r: Record, now: int)
    requires r.date == now
    requires Recent(rs, r.msisdn, MINUTE, now) >= 1
    ensures !ShouldSendSms(rs + [r], r.msisdn, now)
  {
    ThrottleCountsNewRecord(rs, r, now);
  }

  /** A longer lookback never counts fewer records. */
  lemma {:induction false} RecentMonotone(rs: seq<Record>, msisdn: string, shorter: int, longer: int, now: int)
    requires shorter <= longer
    ensures Recent(rs, msisdn, shorter, now) <= Recent(rs, msisdn, longer, now)
  {
    if rs != [] {
      RecentMonotone(rs[..|rs| - 1], msisdn, shorter, longer, now);
    }
  }

  /** The first attempt for a number in a day is always sent. */
  lemma FirstAttemptOfTheDaySent(rs: seq<Record>, r: Record, now: int)
    requires r.date == now
    requires Recent(rs, r.msisdn, DAY, now) == 0
    ensures ShouldSendSms(rs + [r], r.msisdn, now)
  {
    RecentMonotone(rs, r.msisdn, MINUTE, DAY, now);
    RecentMonotone(rs, r.msisdn, HOUR, DAY, now);
    ThrottleCountsNewRecord(rs, r, now);
  }
}
