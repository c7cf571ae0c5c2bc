/**
 * The `register` endpoint (functions/register/main.py:43-105, 174-201):
 * request validation in its fixed order, the abuse gate, code issue,
 * the record put into the datastore, and the throttled SMS publish.
 */
module Register {
  import opened Wrappers
  import opened Records
  import opened PhoneNumber
  import opened Gates

  const DEVELOPMENT_STAGE: string := "DEVELOPMENT"
  const LANGUAGES_AVAILABLE: seq<string> := ["pl", "en"]

  const MESSAGE_INVALID_PHONE_NUMBER: string := "invalid_phone_number"
  const MESSAGE_REGISTRATION_NOT_AVAILABLE: string := "registration_not_available"
  const TEXT_INVALID_METHOD: string := "Invalid method"
  const TEXT_INVALID_DATA: string := "Invalid data"
  const TEXT_INVALID_LANG: string := "Set lang parameter to pl or en"

  /** A JSON value of the request body; containers only by their size. */
  datatype Json =
    | JNull
    | JBool(b: bool)
    | JNumber(x: real)
    | JString(s: string)
    | JArray(length: nat)
    | JObject(size: nat)

  /** The decoded JSON values Python treats as false: `None`, `False`, zero, and the empty string, list and dict. */
  const FALSY: set<Json> := {JNull, JBool(false), JNumber(0.0), JString(""), JArray(0), JObject(0)}

  /** Python truthiness of a decoded JSON value. */
  function Truthy(j: Json): (t: bool)
    ensures !t <==> j in FALSY
  {
    match j
    case JNull => false
    case JBool(b) => b
    case JNumber(x) => x != 0.0
    case JString(s) => s != ""
    case JArray(n) => n != 0
    case JObject(n) => n != 0
  }

  /** Method, JSON content type, decoded JSON object and the `X-Forwarded-For` header. */
  datatype Request = Request(
    httpMethod: string,
    isJson: bool,
    body: map<string, Json>,
    forwardedFor: Option<string>)

  /** A fixed English text, or a catalogue entry looked up by code and language. */
  datatype Message = Literal(text: string) | Localized(messageCode: string, lang: string)

  datatype Response =
    | Failed(httpStatus: int, message: Message)
    | InternalError
    | Ok(registrationId: string, code: Option<string>)

  /** The payload published to the SMS topic. */
  datatype SmsRequest = SmsRequest(registrationId: string, msisdn: string, code: string, lang: string)

  /** The HTTP status a response is sent with; a raise becomes a 500. */
  function StatusCode(resp: Response): int
  {
    match resp
    case Failed(status, _) => status
    case InternalError => 500
    case Ok(_, _) => 200
  }

  /** `_is_language_valid`: `lang` is one of the available languages. */
  function IsLanguageValid(body: map<string, Json>): (ok: bool)
    ensures ok <==> LangOf(body) in LANGUAGES_AVAILABLE
    ensures ok ==> body["lang"] == JString(LangOf(body))
  {
    "lang" in body && body["lang"].JString? && body["lang"].s in LANGUAGES_AVAILABLE
  }

  function LangOf(body: map<string, Json>): string
  {
    if "lang" in body && body["lang"].JString? then body["lang"].s else ""
  }

  function MsisdnOf(body: map<string, Json>): string
  {
    if "msisdn" in body && body["msisdn"].JString? then body["msisdn"].s else ""
  }

  /** `request_data.get("send_sms", True)`, read for its truth value. */
  function SendSmsRequested(body: map<string, Json>): (requested: bool)
    ensures "send_sms" !in body ==> requested
    ensures "send_sms" in body && body["send_sms"].JBool? ==> (requested <==> body["send_sms"].b)
    ensures !requested <==> "send_sms" in body && body["send_sms"] in FALSY
  {
    "send_sms" !in body || Truthy(body["send_sms"])
  }

  /** The code goes back in the response instead of by SMS. */
  function DevelopmentBypass(stage: string, body: map<string, Json>): (bypass: bool)
    ensures bypass <==> stage == DEVELOPMENT_STAGE && "send_sms" in body && body["send_sms"] in FALSY
  {
    stage == DEVELOPMENT_STAGE && !SendSmsRequested(body)
  }

  /**
   * `_is_request_valid`: the rejection of the first check that fails, or
   * None. A `msisdn` that is not a string makes the phone check raise.
   */
  function Validation(req: Request, rs: seq<Record>, now: int): (rejection: Option<Response>)
    ensures rejection.Some? ==> StatusCode(rejection.value) in {405, 422, 429, 500}
    ensures rejection.Some? && rejection.value.Failed? && rejection.value.message.Localized? ==>
      rejection.value.message.lang in LANGUAGES_AVAILABLE
    ensures rejection.Some? && StatusCode(rejection.value) == 429 ==>
      TooManyRequestsFor(rs, Msisdn, MsisdnOf(req.body), INVALID_REGS_PER_MSISDN_LIMIT, now)
  {
    if req.httpMethod != "POST" then Some(Failed(405, Literal(TEXT_INVALID_METHOD)))
    else if !req.isJson then Some(Failed(422, Literal(TEXT_INVALID_DATA)))
    else if !IsLanguageValid(req.body) then Some(Failed(422, Literal(TEXT_INVALID_LANG)))
    else
      var lang := LangOf(req.body);
      if "msisdn" !in req.body then Some(Failed(422, Localized(MESSAGE_INVALID_PHONE_NUMBER, lang)))
      else if !req.body["msisdn"].JString? then Some(InternalError)
      else
        var msisdn := req.body["msisdn"].s;
        if !CheckPhoneNumber(msisdn) then Some(Failed(422, Localized(MESSAGE_INVALID_PHONE_NUMBER, lang)))
        else if TooManyRequestsFor(rs, Msisdn, msisdn, INVALID_REGS_PER_MSISDN_LIMIT, now)
        then Some(Failed(429, Localized(MESSAGE_REGISTRATION_NOT_AVAILABLE, lang)))
        else None
  }

  /** The checks run in a fixed order and the first one that fails decides the answer. */
  lemma ValidationOrder(req: Request, rs: seq<Record>, now: int)
    ensures Validation(req, rs, now) == Some(Failed(405, Literal(TEXT_INVALID_METHOD)))
        <==> req.httpMethod != "POST"
    ensures Validation(req, rs, now) == Some(Failed(422, Literal(TEXT_INVALID_DATA)))
        <==> req.httpMethod == "POST" && !req.isJson
    ensures Validation(req, rs, now) == Some(Failed(422, Literal(TEXT_INVALID_LANG)))
        <==> req.httpMethod == "POST" && req.isJson && !IsLanguageValid(req.body)
    ensures Validation(req, rs, now) == Some(Failed(422, Localized(MESSAGE_INVALID_PHONE_NUMBER, LangOf(req.body))))
        <==> && req.httpMethod == "POST" && req.isJson && IsLanguageValid(req.body)
             && ("msisdn" in req.body ==> req.body["msisdn"].JString? && !CheckPhoneNumber(req.body["msisdn"].s))
    ensures Validation(req, rs, now) == Some(InternalError)
        <==> && req.httpMethod == "POST" && req.isJson && IsLanguageValid(req.body)
             && "msisdn" in req.body && !req.body["msisdn"].JString?
    ensures Validation(req, rs, now) == Some(Failed(429, Localized(MESSAGE_REGISTRATION_NOT_AVAILABLE, LangOf(req.body))))
        <==> && req.httpMethod == "POST" && req.isJson && IsLanguageValid(req.body)
             && "msisdn" in req.body && req.body["msisdn"].JString? && CheckPhoneNumber(req.body["msisdn"].s)
             && OpenAttempts(rs, Msisdn, req.body["msisdn"].s, now) >= INVALID_REGS_PER_MSISDN_LIMIT
    ensures Validation(req, rs, now).None?
        <==> && req.httpMethod == "POST" && req.isJson && IsLanguageValid(req.body)
             && "msisdn" in req.body && req.body["msisdn"].JString? && CheckPhoneNumber(req.body["msisdn"].s)
             && OpenAttempts(rs, Msisdn, req.body["msisdn"].s, now) < INVALID_REGS_PER_MSISDN_LIMIT
  {
  }

  /**
   * Limits are keyed by the raw `msisdn`, not by its stripped form: a
   * number padded with a space passes the phone check and finds none of
   * the attempts recorded under its plain spelling.
   */
  lemma RawSpellingsCountedApart(rs: seq<Record>, number: string, now: int)
    requires IsPlanNumber(number)
    requires forall r :: r in rs ==> r.msisdn == number
    ensures CheckPhoneNumber(number) && CheckPhoneNumber([' '] + number)
    ensures !TooManyRequestsFor(rs, Msisdn, [' '] + number, INVALID_REGS_PER_MSISDN_LIMIT, now)
  {
    PlanNumberAccepted(number);
    DroppedCharacterIgnored([], ' ', number);
    assert [] + [' '] + number == [' '] + number && [] + number == number;
    assert |[' '] + number| != |number|;
    OpenAttemptsOfUnusedKey(rs, Msisdn, [' '] + number, now);
  }

  /** What an accepted request is known to carry. */
  lemma AcceptedRequest(req: Request, rs: seq<Record>, now: int)
    requires Validation(req, rs, now).None?
    ensures "msisdn" in req.body && req.body["msisdn"] == JString(MsisdnOf(req.body))
    ensures IsLanguageValid(req.body) && req.body["lang"] == JString(LangOf(req.body))
    ensures CheckPhoneNumber(MsisdnOf(req.body))
  {
  }

  /** `header.split(",")[-1]`: the text after the last comma, or all of it. */
  function LastSegment(header: string): (ip: string)
    ensures ',' !in ip
    ensures |ip| <= |header| && header[|header| - |ip|..] == ip
    ensures |ip| < |header| ==> header[|header| - |ip| - 1] == ','
  {
    if header == [] || header[|header| - 1] == ',' then []
    else LastSegment(header[..|header| - 1]) + [header[|header| - 1]]
  }

  /** The address the nearest proxy appended is what is recorded. */
  lemma LastSegmentOfChain(chain: string, ip: string)
    requires ',' !in ip
    ensures LastSegment(chain + "," + ip) == ip
  {
    var header := chain + "," + ip;
    assert header[|header| - |ip| - 1] == ',';
    assert header[|header| - |ip|..] == ip;
  }

  predicate IsFreshCode(code: string)
  {
    |code| == 6 && AllDigits(code)
  }

  /** `secrets.token_hex(32)`: 64 lower-case hexadecimal characters. */
  predicate IsRegistrationToken(id: string)
  {
    |id| == 64 && forall i :: 0 <= i < |id| ==> IsDigit(id[i]) || 'a' <= id[i] <= 'f'
  }

  /** The record `_save_to_datastore` puts for an accepted attempt. */
  function NewRecord(code: string, msisdn: string, date: int, registrationId: string, ip: string): (r: Record)
    ensures r.status == STATUS_PENDING && !r.smsSend
    ensures forall now :: date <= now < date + HOUR ==> IsOpenAttempt(r, Msisdn, msisdn, now)
    ensures forall now :: date <= now < date + REUSE_PERIOD ==> IsReusable(r, msisdn, now)
  {
    Record(code, msisdn, date, registrationId, false, ip, STATUS_PENDING)
  }

  predicate UniqueIds(rs: seq<Record>)
  {
    forall i, j :: 0 <= i < j < |rs| ==> rs[i].registrationId != rs[j].registrationId
  }

  /**
   * The datastore kind `Registrations` and the SMS topic, as seen by one
   * deployment: the records put so far and the payloads published so far.
   */
  class Store {
    var records: seq<Record>
    var published: seq<SmsRequest>

    /** Every record is keyed by its registration id, so no two share one. */
    ghost predicate Valid()
      reads this
    {
      UniqueIds(records)
    }

    constructor (initial: seq<Record>)
      requires UniqueIds(initial)
      ensures Valid() && records == initial && published == []
    {
      records := initial;
      published := [];
    }

    /** `_save_to_datastore`: one new record under a fresh key. */
    method SaveToDatastore(code: string, msisdn: string, date: int, registrationId: string, ip: string)
      requires Valid()
      requires forall r :: r in records ==> r.registrationId != registrationId
      modifies this
      ensures Valid()
      ensures records == old(records) + [NewRecord(code, msisdn, date, registrationId, ip)]
      ensures published == old(published)
    {
      records := records + [NewRecord(code, msisdn, date, registrationId, ip)];
      assert forall i :: 0 <= i < |old(records)| ==> records[i] == old(records)[i];
    }

    /** `_publish_to_send_register_sms_topic`: one more payload on the topic. */
    method PublishToSendRegisterSmsTopic(msisdn: string, registrationId: string, code: string, lang: string)
      modifies this
      ensures published == old(published) + [SmsRequest(registrationId, msisdn, code, lang)]
      ensures records == old(records)
    {
      published := published + [SmsRequest(registrationId, msisdn, code, lang)];
    }

    /** `_is_too_many_requests_for`: the pending and the incorrect attempts of the last hour reach the limit. */
    method IsTooManyRequestsFor(field: Field, value: string, limit: int, now: int) returns (tooMany: bool)
      ensures tooMany <==> OpenAttempts(records, field, value, now) >= limit
    {
      var entities := Window(records, StatusQuery(field, value, STATUS_PENDING), now);
      entities := entities + Window(records, StatusQuery(field, value, STATUS_INCORRECT), now);
      OpenAttemptsSplit(records, field, value, now);
      tooMany := |entities| >= limit;
    }

    /** `_is_request_valid`: a verdict and, on rejection, the response to send. */
    method IsRequestValid(req: Request, now: int) returns (isValid: bool, rejection: Option<Response>)
      ensures isValid <==> rejection.None?
      ensures rejection == Validation(req, records, now)
    {
      if req.httpMethod != "POST" {
        return false, Some(Failed(405, Literal(TEXT_INVALID_METHOD)));
      }
      if !req.isJson {
        return false, Some(Failed(422, Literal(TEXT_INVALID_DATA)));
      }
      if !IsLanguageValid(req.body) {
        return false, Some(Failed(422, Literal(TEXT_INVALID_LANG)));
      }
      var lang := req.body["lang"].s;
      if "msisdn" !in req.body {
        return false, Some(Failed(422, Localized(MESSAGE_INVALID_PHONE_NUMBER, lang)));
      }
      if !req.body["msisdn"].JString? {
        return false, Some(InternalError);
      }
      var msisdn := req.body["msisdn"].s;
      if !CheckPhoneNumber(msisdn) {
        return false, Some(Failed(422, Localized(MESSAGE_INVALID_PHONE_NUMBER, lang)));
      }
      var tooMany := IsTooManyRequestsFor(Msisdn, msisdn, INVALID_REGS_PER_MSISDN_LIMIT, now);
      if tooMany {
        return false, Some(Failed(429, Localized(MESSAGE_REGISTRATION_NOT_AVAILABLE, lang)));
      }
      return true, None;
    }

    /**
     * `register`: one request at time `now`. `freshCode` and `freshId` are
     * the values `random.choice` and `secrets.token_hex` would draw, and
     * `stage` is the deployment's STAGE.
     */
    method Register(req: Request, now: int, freshCode: string, freshId: string, stage: string)
      returns (resp: Response)
      requires Valid()
      requires IsFreshCode(freshCode) && IsRegistrationToken(freshId)
      requires forall r :: r in records ==> r.registrationId != freshId
      modifies this
      ensures Valid()
      ensures Validation(req, old(records), now).Some? ==>
        && resp == Validation(req, old(records), now).value
        && StatusCode(resp) in {405, 422, 429, 500}
        && records == old(records) && published == old(published)
      ensures Validation(req, old(records), now).None? && req.forwardedFor.None? ==>
        && resp == InternalError
        && records == old(records) && published == old(published)
      ensures Validation(req, old(records), now).None? && req.forwardedFor.Some? ==>
        var msisdn := MsisdnOf(req.body);
        var code := IssueCode(old(records), msisdn, now, freshCode);
        && records == old(records) + [NewRecord(code, msisdn, now, freshId, LastSegment(req.forwardedFor.value))]
        && resp == Ok(freshId, if DevelopmentBypass(stage, req.body) then Some(code) else None)
      ensures Validation(req, old(records), now).None? && req.forwardedFor.Some? ==>
        var msisdn := MsisdnOf(req.body);
        var code := IssueCode(old(records), msisdn, now, freshCode);
        var publishes := !DevelopmentBypass(stage, req.body) && ShouldSendSms(records, msisdn, now);
        && (publishes ==> published == old(published) + [SmsRequest(freshId, msisdn, code, LangOf(req.body))])
        && (!publishes ==> published == old(published))
    {
      var isValid, rejection := IsRequestValid(req, now);
      if !isValid {
        return rejection.value;
      }
      AcceptedRequest(req, records, now);
      var msisdn := MsisdnOf(req.body);
      if req.forwardedFor.None? {
        // `request.headers.get(...)` is None and `.split` raises.
        return InternalError;
      }
      var ip := LastSegment(req.forwardedFor.value);
      var lang := LangOf(req.body);
      var code := IssueCode(records, msisdn, now, freshCode);
      SaveToDatastore(code, msisdn, now, freshId, ip);
      if stage == DEVELOPMENT_STAGE && !SendSmsRequested(req.body) {
        resp := Ok(freshId, Some(code));
      } else {
        resp := Ok(freshId, None);
        if ShouldSendSms(records, msisdn, now) {
          PublishToSendRegisterSmsTopic(msisdn, freshId, code, lang);
        }
      }
    }
  }
}
