/**
 * End-to-end runs of `register` against a store, stated as assertions the
 * verifier checks from the contracts alone.
 */
module Scenarios {
  import opened Wrappers
  import opened Records
  import opened PhoneNumber
  import opened Gates
  import opened Register

  const PRODUCTION_STAGE: string := "PRODUCTION"
  const PROXY_CHAIN: string := "198.51.100.4,203.0.113.7"

  function RegistrationRequest(number: string, sendSms: bool): Request
  {
    Request("POST", true,
      map["msisdn" := JString(number), "lang" := JString("en"), "send_sms" := JBool(sendSms)],
      Some(PROXY_CHAIN))
  }

  /** A well-formed request for a number below the abuse limit passes validation. */
  lemma RequestAdmitted(number: string, sendSms: bool, rs: seq<Record>, now: int)
    requires IsPlanNumber(number)
    requires OpenAttempts(rs, Msisdn, number, now) < INVALID_REGS_PER_MSISDN_LIMIT
    ensures Validation(RegistrationRequest(number, sendSms), rs, now).None?
    ensures MsisdnOf(RegistrationRequest(number, sendSms).body) == number
    ensures LangOf(RegistrationRequest(number, sendSms).body) == "en"
    ensures SendSmsRequested(RegistrationRequest(number, sendSms).body) == sendSms
  {
    PlanNumberAccepted(number);
    assert "en" in LANGUAGES_AVAILABLE;
  }

  /** With `send_sms` false the development stage answers with the code and sends nothing. */
  method DevelopmentBypassScenario(number: string, id: string)
    requires IsPlanNumber(number) && IsRegistrationToken(id)
  {
    RequestAdmitted(number, false, [], 1000);
    var store := new Store([]);
    var r := store.Register(RegistrationRequest(number, false), 1000, "123456", id, DEVELOPMENT_STAGE);
    assert r == Ok(id, Some("123456"));
    assert store.published == [];
  }

  /** The same request in production answers with the id only and sends the code. */
  method ProductionScenario(number: string, id: string)
    requires IsPlanNumber(number) && IsRegistrationToken(id)
  {
    RequestAdmitted(number, false, [], 1000);
    var store := new Store([]);
    var r := store.Register(RegistrationRequest(number, false), 1000, "123456", id, PRODUCTION_STAGE);
    assert r == Ok(id, None);
    FirstAttemptOfTheDaySent([], store.records[0], 1000);
    assert store.published == [SmsRequest(id, number, "123456", "en")];
  }

  /** A retry five minutes after a first attempt reuses its code and is sent. */
  lemma RetryReusedAndSent(first: Record, second: Record)
    requires first.date == 0 && first.status == STATUS_PENDING && first.code != ""
    requires second.date == 300 && first.msisdn == second.msisdn
    ensures IssueCode([first], second.msisdn, 300, "654321") == first.code
    ensures ShouldSendSms([first, second], second.msisdn, 300)
  {
    RetryReusesCode(first, 300, "654321");
    assert [] + [first] == [first] && [first] + [second] == [first, second];
    RecentAppend([], first, second.msisdn, MINUTE, 300);
    RecentAppend([], first, second.msisdn, HOUR, 300);
    RecentAppend([], first, second.msisdn, DAY, 300);
    ThrottleCountsNewRecord([first], second, 300);
  }
}
