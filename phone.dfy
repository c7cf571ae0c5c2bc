/**
 * `_check_phone_number` (functions/register/main.py:112-117): the raw
 * value is reduced to its digits, commas and plus signs, and the residue
 * must be `+48` followed by exactly nine digits.
 */
module PhoneNumber {
  const COUNTRY_PREFIX: string := "+48"
  const SUBSCRIBER_DIGITS: nat := 9

  predicate IsDigit(c: char)
  {
    '0' <= c <= '9'
  }

  /** The characters `re.sub("[^0-9,+]", "", msisdn)` leaves in place. */
  predicate IsKept(c: char)
  {
    IsDigit(c) || c == ',' || c == '+'
  }

  predicate AllDigits(s: string)
  {
    forall i :: 0 <= i < |s| ==> IsDigit(s[i])
  }

  function Sanitize(s: string): (t: string)
    ensures forall i :: 0 <= i < |t| ==> IsKept(t[i])
    ensures |t| <= |s|
  {
    if s == [] then []
    else (if IsKept(s[0]) then [s[0]] else []) + Sanitize(s[1..])
  }

  /** The anchored pattern `^\+48[0-9]{9}$`, written out character by character. */
  predicate IsPlanNumber(s: string)
  {
    && |s| == |COUNTRY_PREFIX| + SUBSCRIBER_DIGITS
    && s[0] == '+' && s[1] == '4' && s[2] == '8'
    && forall i :: |COUNTRY_PREFIX| <= i < |s| ==> IsDigit(s[i])
  }

  /** `_check_phone_number`: the residue is the country prefix followed by the subscriber digits. */
  function CheckPhoneNumber(raw: string): (ok: bool)
    ensures ok <==>
      var t := Sanitize(raw);
      && |t| == |COUNTRY_PREFIX| + SUBSCRIBER_DIGITS
      && t[..|COUNTRY_PREFIX|] == COUNTRY_PREFIX
      && AllDigits(t[|COUNTRY_PREFIX|..])
  {
    var t := Sanitize(raw);
    assert |t| == |COUNTRY_PREFIX| + SUBSCRIBER_DIGITS ==>
      (AllDigits(t[|COUNTRY_PREFIX|..]) <==> forall i :: |COUNTRY_PREFIX| <= i < |t| ==> IsDigit(t[i]));
    IsPlanNumber(t)
  }

  lemma {:induction false} SanitizeConcat(a: string, b: string)
    ensures Sanitize(a + b) == Sanitize(a) + Sanitize(b)
  {
    if a == [] {
      assert a + b == b;
    } else {
      assert (a + b)[0] == a[0] && (a + b)[1..] == a[1..] + b;
      SanitizeConcat(a[1..], b);
    }
  }

  /** A string made only of kept characters is its own residue, and only such a string is. */
  lemma {:induction false} SanitizeFixedPoint(s: string)
    ensures Sanitize(s) == s <==> forall i :: 0 <= i < |s| ==> IsKept(s[i])
  {
    if s != [] {
      SanitizeFixedPoint(s[1..]);
      if IsKept(s[0]) {
        assert forall i :: 0 <= i < |s| ==> (IsKept(s[i]) <==> i == 0 || IsKept(s[1..][i - 1]));
      } else {
        assert |Sanitize(s)| <= |s| - 1;
      }
    }
  }

  /** Stripping is idempotent, so the check gives the same verdict on the residue. */
  lemma SanitizeIdempotent(raw: string)
    ensures Sanitize(Sanitize(raw)) == Sanitize(raw)
    ensures CheckPhoneNumber(Sanitize(raw)) == CheckPhoneNumber(raw)
  {
    SanitizeFixedPoint(Sanitize(raw));
  }

  /** The hand-written pattern is exactly "the prefix, then nine digits". */
  lemma PlanNumberShape(s: string)
    ensures IsPlanNumber(s) <==>
      exists d :: |d| == SUBSCRIBER_DIGITS && AllDigits(d) && s == COUNTRY_PREFIX + d
  {
    if IsPlanNumber(s) {
      var d := s[3..];
      assert s == COUNTRY_PREFIX + d;
      assert AllDigits(d) by {
        forall i | 0 <= i < |d| ensures IsDigit(d[i]) { assert d[i] == s[i + 3]; }
      }
    }
    if exists d :: |d| == SUBSCRIBER_DIGITS && AllDigits(d) && s == COUNTRY_PREFIX + d {
      var d :| |d| == SUBSCRIBER_DIGITS && AllDigits(d) && s == COUNTRY_PREFIX + d;
      forall i | 3 <= i < |s| ensures IsDigit(s[i]) { assert s[i] == d[i - 3]; }
    }
  }

  /** The check accepts exactly the raw values whose residue is `+48` and nine digits. */
  lemma CheckPhoneNumberSpec(raw: string)
    ensures CheckPhoneNumber(raw) <==>
      exists d :: |d| == SUBSCRIBER_DIGITS && AllDigits(d) && Sanitize(raw) == COUNTRY_PREFIX + d
  {
    PlanNumberShape(Sanitize(raw));
  }

  /** A comma, or a plus sign after the first position, left in the residue means rejection. */
  lemma ResidueRejected(raw: string, i: nat)
    requires i < |Sanitize(raw)|
    requires Sanitize(raw)[i] == ',' || (i > 0 && Sanitize(raw)[i] == '+')
    ensures !CheckPhoneNumber(raw)
  {
  }

  /** A number already in plan form passes the check unchanged. */
  lemma PlanNumberAccepted(s: string)
    requires IsPlanNumber(s)
    ensures Sanitize(s) == s && CheckPhoneNumber(s)
  {
    SanitizeFixedPoint(s);
  }

  /** A character other than a digit, comma or plus sign never changes the verdict. */
  lemma {:induction false} DroppedCharacterIgnored(prefix: string, c: char, suffix: string)
    requires !IsKept(c)
    ensures Sanitize(prefix + [c] + suffix) == Sanitize(prefix + suffix)
    ensures CheckPhoneNumber(prefix + [c] + suffix) == CheckPhoneNumber(prefix + suffix)
  {
    SanitizeConcat(prefix + [c], suffix);
    SanitizeConcat(prefix, [c]);
    SanitizeConcat(prefix, suffix);
    assert Sanitize([c]) == [] + Sanitize([]);
  }

  /** Stripping never removes a digit, a comma or a plus sign. */
  lemma {:induction false} KeptCharacterSurvives(s: string, c: char)
    requires c in s && IsKept(c)
    ensures c in Sanitize(s)
  {
    if s[0] != c {
      KeptCharacterSurvives(s[1..], c);
    }
  }

  /** A comma anywhere in the raw value means rejection. */
  lemma CommaRejected(raw: string)
    requires ',' in raw
    ensures !CheckPhoneNumber(raw)
  {
    KeptCharacterSurvives(raw, ',');
  }
}
