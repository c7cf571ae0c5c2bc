/**
 * Attempt records and the window query that every limit of the
 * registration engine is built on (functions/register/main.py:159-190).
 *
 * The datastore is a sequence of records in the order they were put;
 * a query keeps the records whose field has the given value, whose status
 * is the given one (when a status is given) and whose date lies strictly
 * after `now - period`, and returns them newest first.
 */
module Records {
  import opened Wrappers

  const STATUS_PENDING: string := "pending"
  const STATUS_INCORRECT: string := "incorrect"

  /** One registration attempt; `date` is in seconds. */
  datatype Record = Record(
    code: string,
    msisdn: string,
    date: int,
    registrationId: string,
    smsSend: bool,
    ip: string,
    status: string)

  /** The record fields a query can be keyed by. */
  datatype Field = Msisdn | Ip

  function FieldValue(r: Record, f: Field): string
  {
    match f
    case Msisdn => r.msisdn
    case Ip => r.ip
  }

  /** `field == value`, an optional `status == s` and a lookback `period`. */
  datatype Query = Query(field: Field, value: string, period: int, status: Option<string>)

  /** The status filter is added only for a non-empty status, as `if status:` does. */
  predicate Matches(r: Record, q: Query, now: int)
  {
    && FieldValue(r, q.field) == q.value
    && (q.status.Some? && q.status.value != "" ==> r.status == q.status.value)
    && r.date > now - q.period
  }

  /** The matching records, in store order. */
  function Select(rs: seq<Record>, q: Query, now: int): (sel: seq<Record>)
    ensures forall r :: r in sel <==> r in rs && Matches(r, q, now)
    ensures |sel| <= |rs|
  {
    if rs == [] then []
    else
      var last := rs[|rs| - 1];
      Select(rs[..|rs| - 1], q, now) + (if Matches(last, q, now) then [last] else [])
  }

  /** Putting one more record adds it to every query it matches and to no other. */
  lemma SelectAppend(rs: seq<Record>, r: Record, q: Query, now: int)
    ensures Select(rs + [r], q, now) == Select(rs, q, now) + (if Matches(r, q, now) then [r] else [])
  {
    assert (rs + [r])[..|rs + [r]| - 1] == rs;
  }

  predicate NewestFirst(s: seq<Record>)
  {
    forall i, j :: 0 <= i < j < |s| ==> s[i].date >= s[j].date
  }

  function InsertByDate(x: Record, s: seq<Record>): (t: seq<Record>)
    ensures multiset(t) == multiset(s) + multiset{x}
  {
    if s == [] || x.date >= s[0].date then [x] + s
    else
      assert s == [s[0]] + s[1..];
      [s[0]] + InsertByDate(x, s[1..])
  }

  lemma ConsOrdered(x: Record, s: seq<Record>)
    requires NewestFirst(s)
    requires forall k :: 0 <= k < |s| ==> s[k].date <= x.date
    ensures NewestFirst([x] + s)
  {
    var t := [x] + s;
    forall i, j | 0 <= i < j < |t| ensures t[i].date >= t[j].date {
      assert t[j] == s[j - 1];
      if i > 0 { assert t[i] == s[i - 1]; }
    }
  }

  lemma {:induction false} InsertByDateOrdered(x: Record, s: seq<Record>)
    requires NewestFirst(s)
    ensures NewestFirst(InsertByDate(x, s))
  {
    if s == [] || x.date >= s[0].date {
      ConsOrdered(x, s);
    } else {
      var rest := InsertByDate(x, s[1..]);
      InsertByDateOrdered(x, s[1..]);
      forall k | 0 <= k < |rest| ensures rest[k].date <= s[0].date {
        assert rest[k] in multiset(rest);
        assert rest[k] == x || rest[k] in s[1..];
      }
      ConsOrdered(s[0], rest);
    }
  }

  /** The order `query.order = ["-date"]` asks the datastore for. */
  function SortNewestFirst(s: seq<Record>): (t: seq<Record>)
    ensures multiset(t) == multiset(s)
    ensures NewestFirst(t)
  {
    if s == [] then []
    else
      assert s == [s[0]] + s[1..];
      InsertByDateOrdered(s[0], SortNewestFirst(s[1..]));
      InsertByDate(s[0], SortNewestFirst(s[1..]))
  }

  /** `_get_registration_entities`: the matching records, newest first. */
  function Window(rs: seq<Record>, q: Query, now: int): (w: seq<Record>)
    ensures forall r :: r in w <==> r in rs && Matches(r, q, now)
    ensures multiset(w) == multiset(Select(rs, q, now))
    ensures NewestFirst(w)
    ensures |w| == |Select(rs, q, now)|
  {
    var sel := Select(rs, q, now);
    var w := SortNewestFirst(sel);
    assert forall r :: r in w <==> r in sel by {
      forall r ensures r in w <==> r in sel {
        assert r in w <==> r in multiset(w);
        assert r in sel <==> r in multiset(sel);
      }
    }
    assert |w| == |multiset(w)| == |multiset(sel)| == |sel|;
    w
  }
}
