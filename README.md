# Registration throttling and OTP issuance, modelled in Dafny

This project models the decision logic of the `register` cloud function. For one
request it decides: whether the request is admissible, which one-time code to
use, which attempt record to put into the datastore, whether an SMS request is
published, and what to answer.

The datastore kind `Registrations` is a sequence of attempt records in the order
they were put. A record has `code`, `msisdn`, `date` (whole seconds),
`registration_id`, `sms_send`, `ip` and `status`. The SMS topic is a log of
published payloads. The clock (`now`), the fresh six-digit code, the fresh
registration token and the deployment's `STAGE` are parameters.

Modules, leaves first:

- `Wrappers` — `Option`.
- `Records` — the attempt record and the window query `_get_registration_entities`.
  `Select` keeps the matching records in store order. `SortNewestFirst` orders them
  newest first. `Window` is the two together.
- `PhoneNumber` — `_check_phone_number`. `Sanitize` keeps digits, `,` and `+`.
  `IsPlanNumber` is the pattern `^\+48[0-9]{9}$` written out by hand.
- `Gates` — the abuse count (`OpenAttempts`), the code issuer
  (`PendingRegistrationCode`, `IssueCode`) and the delivery throttle
  (`ShouldSendSms`, with `Recent` as its own reference count). All limits and
  lookbacks use the source's constants.
- `Register` — the request as method, JSON flag, JSON object and
  `X-Forwarded-For` header. Also the responses, `_is_language_valid`, the
  validation chain, and the `Store` class whose `Register` method is the endpoint.
- `Scenarios` — the same request run in the development stage and in production,
  checked from the contracts alone, and a retry five minutes after a first attempt.

Points where the behaviour of the code is easy to misread, each modelled as the code behaves:

- The stored and queried `msisdn` is the raw request value, not the stripped one
  (functions/register/main.py:50). So the limits count two spellings of one number
  separately. `Register.RawSpellingsCountedApart` shows this.
- The IP limit of 10 is declared (functions/register/main.py:23) but never applied.
  The abuse gate runs only for `msisdn`, with limit 4.
- The registration id is `secrets.token_hex(32)`: 64 hex characters, 256 bits.
- The language rejection, the method rejection and the JSON rejection carry fixed
  English texts. Only the phone and rate-limit rejections are localized.
- Two inputs make the function raise, which the model answers with
  `InternalError` (HTTP 500) and no state change. One is an `msisdn` that is not a
  string (`re.sub` raises). The other is a missing `X-Forwarded-For` header
  (`.split` on `None`).
- The code issuer uses Python's `or`, so a stored code equal to `""` falls through
  to a fresh code. The status filter of a query is added only for a non-empty
  status (`if status:`).

## Model

| member | source | states |
|---|---|---|
| `Records.Select` | functions/register/main.py:159-168 | a record is selected exactly when it is in the store and matches the field value, the status filter (which applies only when the status is non-empty) and the strict lookback `date > now - period` |
| `Records.SelectAppend` | functions/register/main.py:168-190 | putting one record adds it to exactly the queries it matches and leaves every other query result unchanged |
| `Records.InsertByDate` | functions/register/main.py:169 | inserting a record into a query result adds exactly that record to the multiset |
| `Records.InsertByDateOrdered` | functions/register/main.py:169 | inserting into a newest-first sequence keeps it newest first |
| `Records.SortNewestFirst` | functions/register/main.py:169 | the result is a permutation of its input, ordered by descending date |
| `Records.Window` | functions/register/main.py:159-171 | the query result is a permutation of the matching records in store order (same records, same multiplicities), newest first; a record is in it exactly when it is in the store and matches |
| `PhoneNumber.Sanitize` | functions/register/main.py:113 | the residue holds only digits, commas and plus signs and is no longer than the input |
| `PhoneNumber.SanitizeConcat` | functions/register/main.py:113 | stripping distributes over concatenation |
| `PhoneNumber.SanitizeFixedPoint` | functions/register/main.py:113 | a string is its own residue if and only if it holds only digits, commas and plus signs |
| `PhoneNumber.SanitizeIdempotent` | functions/register/main.py:112-117 | stripping twice equals stripping once, so the check gives the same verdict on the residue as on the raw value |
| `PhoneNumber.PlanNumberShape` | functions/register/main.py:114 | the hand-written pattern holds exactly of `+48` followed by nine digits (both directions) |
| `PhoneNumber.CheckPhoneNumberSpec` | functions/register/main.py:112-117 | the phone check accepts a raw value if and only if its residue is `+48` followed by exactly nine digits |
| `PhoneNumber.CheckPhoneNumber` | functions/register/main.py:112-117 | a raw value passes exactly when its residue has twelve characters, starts with `+48` and ends in nine digits |
| `PhoneNumber.ResidueRejected` | functions/register/main.py:113-114 | a comma anywhere in the residue, or a plus sign after its first position, means rejection |
| `PhoneNumber.PlanNumberAccepted` | functions/register/main.py:112-117 | a value already in plan form is its own residue and passes |
| `PhoneNumber.DroppedCharacterIgnored` | functions/register/main.py:113 | inserting a character other than a digit, comma or plus sign changes neither the residue nor the verdict |
| `PhoneNumber.KeptCharacterSurvives` | functions/register/main.py:113 | stripping never removes a digit, a comma or a plus sign |
| `PhoneNumber.CommaRejected` | functions/register/main.py:113-114 | a raw value containing a comma is rejected, because the comma survives stripping |
| `Gates.OpenAttemptsSplit` | functions/register/main.py:120-124 | the pending window plus the incorrect window of the last hour together count exactly the records of the key with either status in the last hour |
| `Gates.TooManyRequestsFor` | functions/register/main.py:120-128 | the verdict is true exactly when the pending window plus the incorrect window of the last hour together hold at least `limit` records |
| `Gates.OpenAttemptsOfUnusedKey` | functions/register/main.py:120-124 | a key that no record carries has no open attempts |
| `Gates.OpenAttemptsAppend` | functions/register/main.py:120-124 | one more record raises the open-attempt count of a key by one exactly when it is an open attempt of that key |
| `Gates.PendingRegistrationCode` | functions/register/main.py:131-140 | there is a code if and only if some pending record of the number is younger than ten minutes, and then it is the code of a newest such record |
| `Gates.IssueCode` | functions/register/main.py:54 | with no reusable record the fresh code is used; when every newest reusable record has a non-empty code, the code of a newest one is used; when every newest reusable record has the empty code, Python's `or` falls through to the fresh code; in every case the code is the fresh one or a newest reusable record's code |
| `Gates.RetryReusesCode` | functions/register/main.py:54 | a retry while the only earlier attempt is pending and younger than ten minutes gets that attempt's code verbatim |
| `Gates.ExpiredCodeReplaced` | functions/register/main.py:54 | once the only earlier attempt is ten minutes old or more, the fresh code is used (the window is strict) |
| `Gates.WindowCountsRecent` | functions/register/main.py:143-146 | the all-status window has as many records as the reference count of records for the number in the lookback |
| `Gates.ShouldSendSms` | functions/register/main.py:143-156 | sending is allowed if and only if the number has at most 1 record in the last minute, at most 2 in the last hour and at most 5 in the last day, of any status |
| `Gates.RecentAppend` | functions/register/main.py:58-65 | putting a record raises the count of each window it falls in by one |
| `Gates.ThrottleCountsNewRecord` | functions/register/main.py:58-65 | after the new record is put, sending is allowed if and only if there were no earlier records in the last minute, at most one in the last hour and at most four in the last day |
| `Gates.MinuteCapReached` | functions/register/main.py:143-156 | with an earlier record in the last minute, the new attempt is not sent |
| `Gates.RecentMonotone` | functions/register/main.py:144-146 | a longer lookback never counts fewer records |
| `Gates.FirstAttemptOfTheDaySent` | functions/register/main.py:58-66 | the first attempt for a number in a day is always sent |
| `Register.Truthy` | functions/register/main.py:63 | a JSON value is false exactly when it is `null`, `false`, zero, the empty string, the empty list or the empty object, as Python's `not` reads it |
| `Register.SendSmsRequested` | functions/register/main.py:62 | a missing `send_sms` defaults to true; a boolean `send_sms` is read as itself; the flag is off exactly when `send_sms` is present and falsy |
| `Register.DevelopmentBypass` | functions/register/main.py:63-64 | the code goes back in the response exactly when the stage is `DEVELOPMENT` and `send_sms` is present and falsy |
| `Register.IsLanguageValid` | functions/register/main.py:99-105 | the language is valid exactly when `lang` is the string `pl` or `en`; a missing or non-string `lang` fails; a valid `lang` is the language the localized rejections use |
| `Register.Validation` | functions/register/main.py:71-96 | every rejection is sent with status 405, 422, 429 or 500; a localized rejection always carries a valid language; a 429 comes only when the number has at least 4 open attempts in the last hour |
| `Register.NewRecord` | functions/register/main.py:177-188 | the new record is pending with `sms_send` false; it counts as an open attempt of its number for the next hour and keeps its code reusable for the next ten minutes |
| `Register.ValidationOrder` | functions/register/main.py:71-96 | the first failing check decides: 405 exactly for non-POST, then 422 for non-JSON, then 422 for a bad `lang`, then 422 for a missing or invalid `msisdn`, a raise for a non-string one, then 429 exactly when the number has at least 4 open attempts in the last hour; otherwise accepted |
| `Register.RawSpellingsCountedApart` | functions/register/main.py:85-90 | a plan number padded with a space passes the phone check, and the abuse gate finds none of the attempts recorded under the plain spelling |
| `Register.AcceptedRequest` | functions/register/main.py:78-90 | an accepted request carries a string `msisdn` that passes the phone check and a valid string `lang` |
| `Register.LastSegment` | functions/register/main.py:51 | the result is the longest comma-free suffix of the header |
| `Register.LastSegmentOfChain` | functions/register/main.py:51 | for a chain ending in `,ip` with no comma in `ip`, the recorded address is `ip` |
| `Scenarios.RequestAdmitted` | functions/register/main.py:71-96 | a POST JSON request with `lang` `en` and a plan number below the abuse limit passes validation |
| `Scenarios.RetryReusedAndSent` | functions/register/main.py:54-66 | a retry five minutes after a pending first attempt gets the first attempt's code and is sent |
| `Register.Store.SaveToDatastore` | functions/register/main.py:174-190 | appends exactly one pending record with `sms_send` false under a fresh id, keeps ids unique and publishes nothing |
| `Register.Store.PublishToSendRegisterSmsTopic` | functions/register/main.py:193-201 | appends one payload of id, msisdn, code and lang, and puts no record |
| `Register.Store.IsTooManyRequestsFor` | functions/register/main.py:120-128 | returns true if and only if the pending plus incorrect records of the key in the last hour reach the limit |
| `Register.Store.IsRequestValid` | functions/register/main.py:71-96 | the verdict is "valid" exactly when there is no rejection, and the rejection is the one the ordered validation chain gives |
| `Register.Store.Register` | functions/register/main.py:44-68 | a rejected request returns its rejection, sent with status 405, 422, 429 or 500, and changes no record and publishes nothing; an accepted one appends exactly one record with the issued code, the request's raw msisdn, `now`, the fresh id, the last forwarded address, status pending and `sms_send` false; it answers with the id, plus the code only in the development bypass; it publishes one payload exactly when there is no bypass and the throttle, counting the new record, allows it |

## Left out

- Flask request and response handling is left out. The request is a datatype of method, JSON flag, decoded JSON object and header. A body that is not a JSON object, or that cannot be parsed, is not modelled. JSON arrays and objects inside the body keep only their size, which is all their truth value needs.
- The Google Datastore client and query engine are left out. A query is a filter over the sequence plus an ordering. Among records with equal dates, the model fixes one order; the datastore's tie order is not modelled.
- Store and publish failures, timeouts and eventual consistency are left out, because they belong to the foreign clients. Concurrent requests racing on one number are left out too, because each `Register` call runs alone on the store.
- The Pub/Sub topic path and the JSON encoding of the payload are left out. The topic is a log of payload values.
- `random.choice` and `secrets.token_hex` are parameters. The id's freshness is a precondition rather than a probability.
- `datetime.now` is a single `now` per request, in whole seconds. The source reads the clock again for every query and for the record date, and those readings differ by microseconds.
- The message catalogue (`messages.json`, `_get_message`) is left out. Localized texts are the pair of message code and language; a catalogue missing an entry is not modelled.
- Logging, the environment variables other than `STAGE`, and `current_app` configuration are left out.
- The `limit_requests` decorator is not part of this model, because its `rate_limit` module is not available.
- Gates.PendingRegistrationCode: when two reusable records share the newest date, the contract says only that the code of one of them is returned; which one depends on the datastore's tie order.
- Gates.IssueCode: inherits the same tie. When the newest reusable records share a date and only some of them have the empty code, the contract says only that the code is the fresh one or one of their codes.
