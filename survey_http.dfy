/**
 * The survey service's HTTP handlers. Each handler writes exactly one reply; the model
 * computes that reply from the request's parts, the serializer chosen by the middleware and
 * the service's answers, which are inputs here.
 */
module SurveyHttp {
  import opened Wrappers
  import opened SurveyModel

  const StatusOK := 200
  const StatusCreated := 201
  const StatusBadRequest := 400
  const StatusNotFound := 404
  const StatusUnprocessableEntity := 422
  const StatusInternalServerError := 500

  /** `http.StatusText` for the codes these handlers use. */
  function StatusText(code: int): string {
    if code == StatusOK then "OK"
    else if code == StatusCreated then "Created"
    else if code == StatusBadRequest then "Bad Request"
    else if code == StatusNotFound then "Not Found"
    else if code == StatusUnprocessableEntity then "Unprocessable Entity"
    else if code == StatusInternalServerError then "Internal Server Error"
    else ""
  }

  /** A survey serializer; each encoder or decoder answers `None` where the Go one returns an error. */
  datatype Serializer = Serializer(
    contentType: string,
    encode: Survey -> Option<string>,
    encodeMultiple: seq<Survey> -> Option<string>,
    encodeErrorResponse: string -> Option<string>,
    decode: string -> Option<Survey>)

  /** What a handler leaves in the response writer. */
  datatype Reply = Reply(status: int, contentType: string, nosniff: bool, body: string)

  /** A service call a handler makes, in order. */
  datatype Call =
    | InsertCall(survey: Survey)
    | UpdateCall(id: string, survey: Survey)
    | LoadByIdCall(id: string)
    | SetExpirationCall(id: string, expiresAt: int)

  datatype Handled = Handled(reply: Reply, calls: seq<Call>)

  /** `Response`: the serializer's content type, the status and the output as body. */
  function Response(sz: Serializer, output: string, code: int): (r: Reply)
    ensures r.status == code && r.body == output
    ensures r.contentType == sz.contentType && !r.nosniff
  {
    Reply(code, sz.contentType, false, output)
  }

  const PlainText := "text/plain; charset=utf-8"

  /**
   * `Error`: the message wrapped in the serializer's error body with the given status; if that
   * encoding fails, a plain-text 500 written by `http.Error`.
   */
  function Error(sz: Serializer, message: string, code: int): (r: Reply)
    ensures sz.encodeErrorResponse(message).Some? ==>
      r == Response(sz, sz.encodeErrorResponse(message).value, code)
    ensures sz.encodeErrorResponse(message).None? ==>
      r == Reply(StatusInternalServerError, PlainText, true, StatusText(StatusInternalServerError) + "\n")
  {
    match sz.encodeErrorResponse(message)
    case Some(output) => Response(sz, output, code)
    case None => Reply(StatusInternalServerError, PlainText, true, "Internal Server Error\n")
  }

  /** An error reply ends with the requested status or, failing that, 500; never with a success code. */
  lemma ErrorStatus(sz: Serializer, message: string, code: int)
    ensures Error(sz, message, code).status in {code, StatusInternalServerError}
    ensures code != StatusOK && code != StatusCreated ==>
      Error(sz, message, code).status != StatusOK && Error(sz, message, code).status != StatusCreated
  {
  }

  /** The error reply with the status's standard text as message. */
  function Fail(sz: Serializer, code: int): Reply {
    Error(sz, StatusText(code), code)
  }

  /** `handleGetError`, and the same table in `Delete`, `Activate` and `Deactivate`: 404 for not found, 500 otherwise. */
  function LoadErrorCode(e: SurveyError): (code: int)
    ensures code == StatusNotFound <==> e.NotFound?
    ensures code != StatusNotFound ==> code == StatusInternalServerError
  {
    if e.NotFound? then StatusNotFound else StatusInternalServerError
  }

  /** `handlePostError`: invalid input and broken conditional logic are 422 with the error's text; anything else is 500. */
  function PostErrorReply(sz: Serializer, e: SurveyError): (r: Reply)
    ensures e.InvalidRequest? || e.QuestionConditionalLogic? ==>
      r == Error(sz, ErrorText(e), StatusUnprocessableEntity)
    ensures !(e.InvalidRequest? || e.QuestionConditionalLogic?) ==> r == Fail(sz, StatusInternalServerError)
  {
    if e.InvalidRequest? || e.QuestionConditionalLogic? then Error(sz, ErrorText(e), StatusUnprocessableEntity)
    else Fail(sz, StatusInternalServerError)
  }

  /** `handleUpdateError`: as for a post, except that not found is 404. */
  function UpdateErrorReply(sz: Serializer, e: SurveyError): (r: Reply)
    ensures e.NotFound? ==> r == Fail(sz, StatusNotFound)
    ensures !e.NotFound? ==> r == PostErrorReply(sz, e)
  {
    if e.NotFound? then Fail(sz, StatusNotFound)
    else if e.InvalidRequest? then Error(sz, ErrorText(e), StatusUnprocessableEntity)
    else if e.QuestionConditionalLogic? then Error(sz, ErrorText(e), StatusUnprocessableEntity)
    else Fail(sz, StatusInternalServerError)
  }

  /** `SetExpiration`'s table: 404 for not found, 400 with the error's text for invalid input, 500 otherwise. */
  function ExpirationErrorReply(sz: Serializer, e: SurveyError): (r: Reply)
    ensures e.NotFound? ==> r == Fail(sz, StatusNotFound)
    ensures e.InvalidRequest? ==> r == Error(sz, ErrorText(e), StatusBadRequest)
    ensures !e.NotFound? && !e.InvalidRequest? ==> r == Fail(sz, StatusInternalServerError)
  {
    if e.NotFound? then Fail(sz, StatusNotFound)
    else if e.InvalidRequest? then Error(sz, ErrorText(e), StatusBadRequest)
    else Fail(sz, StatusInternalServerError)
  }

  /** `Get`: the loaded survey, encoded, with 200. */
  function Get(sz: Serializer, loaded: Result<Survey, SurveyError>): (r: Reply)
    ensures loaded.Failure? ==> r == Fail(sz, LoadErrorCode(loaded.error))
    ensures loaded.Success? && sz.encode(loaded.value).None? ==> r == Fail(sz, StatusInternalServerError)
    ensures loaded.Success? && sz.encode(loaded.value).Some? ==>
      r == Response(sz, sz.encode(loaded.value).value, StatusOK)
  {
    match loaded
    case Failure(e) => Fail(sz, LoadErrorCode(e))
    case Success(s) =>
      match sz.encode(s)
      case None => Fail(sz, StatusInternalServerError)
      case Some(output) => Response(sz, output, StatusOK)
  }

  /** A get answers 200 exactly when the survey was loaded and encoded. */
  lemma {:induction false} GetOkIff(sz: Serializer, loaded: Result<Survey, SurveyError>)
    ensures Get(sz, loaded).status == StatusOK <==> loaded.Success? && sz.encode(loaded.value).Some?
  {
    if loaded.Failure? {
      ErrorStatus(sz, StatusText(LoadErrorCode(loaded.error)), LoadErrorCode(loaded.error));
    } else if sz.encode(loaded.value).None? {
      ErrorStatus(sz, StatusText(StatusInternalServerError), StatusInternalServerError);
    }
  }

  /** `Collection` and `ActiveCollection`: the listed surveys, encoded together, with 200; any failure is 500. */
  function Collection(sz: Serializer, loaded: Result<seq<Survey>, SurveyError>): (r: Reply)
    ensures loaded.Failure? ==> r == Fail(sz, StatusInternalServerError)
    ensures loaded.Success? && sz.encodeMultiple(loaded.value).None? ==> r == Fail(sz, StatusInternalServerError)
    ensures loaded.Success? && sz.encodeMultiple(loaded.value).Some? ==>
      r == Response(sz, sz.encodeMultiple(loaded.value).value, StatusOK)
  {
    match loaded
    case Failure(_) => Fail(sz, StatusInternalServerError)
    case Success(surveys) =>
      match sz.encodeMultiple(surveys)
      case None => Fail(sz, StatusInternalServerError)
      case Some(output) => Response(sz, output, StatusOK)
  }

  /**
   * `Post`: read the body (`None` when reading fails), decode it, insert it, load it back under
   * the id the insert gave it, encode it and answer 201. `insert` answers with the survey as the
   * service left it; `loadById` is the lookup after the insert.
   */
  function Post(
    sz: Serializer,
    body: Option<string>,
    insert: Survey -> Result<Survey, SurveyError>,
    loadById: string -> Result<Survey, SurveyError>): (h: Handled)
    ensures body.None? || sz.decode(body.value).None? ==>
      h == Handled(Fail(sz, StatusInternalServerError), [])
    ensures body.Some? && sz.decode(body.value).Some? ==>
      var s := sz.decode(body.value).value;
      && |h.calls| >= 1 && h.calls[0] == InsertCall(s)
      && (insert(s).Failure? ==> h == Handled(PostErrorReply(sz, insert(s).error), [InsertCall(s)]))
      && (insert(s).Success? ==>
            var id := insert(s).value.id;
            && h.calls == [InsertCall(s), LoadByIdCall(id)]
            && (loadById(id).Failure? ==> h.reply == Fail(sz, StatusInternalServerError))
            && (loadById(id).Success? && sz.encode(loadById(id).value).None? ==>
                  h.reply == Fail(sz, StatusInternalServerError))
            && (loadById(id).Success? && sz.encode(loadById(id).value).Some? ==>
                  h.reply == Response(sz, sz.encode(loadById(id).value).value, StatusCreated)))
  {
    if body.None? then Handled(Fail(sz, StatusInternalServerError), [])
    else
      match sz.decode(body.value)
      case None => Handled(Fail(sz, StatusInternalServerError), [])
      case Some(s) =>
        match insert(s)
        case Failure(e) => Handled(PostErrorReply(sz, e), [InsertCall(s)])
        case Success(inserted) =>
          var calls := [InsertCall(s), LoadByIdCall(inserted.id)];
          match loadById(inserted.id)
          case Failure(_) => Handled(Fail(sz, StatusInternalServerError), calls)
          case Success(created) =>
            match sz.encode(created)
            case None => Handled(Fail(sz, StatusInternalServerError), calls)
            case Some(output) => Handled(Response(sz, output, StatusCreated), calls)
  }

  /** `Put`: as a post, but updating the survey under the path's id, and answering 200. */
  function Put(
    sz: Serializer,
    id: string,
    body: Option<string>,
    update: (string, Survey) -> Option<SurveyError>,
    loadById: string -> Result<Survey, SurveyError>): (h: Handled)
    ensures body.None? || sz.decode(body.value).None? ==>
      h == Handled(Fail(sz, StatusInternalServerError), [])
    ensures body.Some? && sz.decode(body.value).Some? ==>
      var s := sz.decode(body.value).value;
      && |h.calls| >= 1 && h.calls[0] == UpdateCall(id, s)
      && (update(id, s).Some? ==> h == Handled(UpdateErrorReply(sz, update(id, s).value), [UpdateCall(id, s)]))
      && (update(id, s).None? ==>
            && h.calls == [UpdateCall(id, s), LoadByIdCall(id)]
            && (loadById(id).Failure? ==> h.reply == Fail(sz, StatusInternalServerError))
            && (loadById(id).Success? && sz.encode(loadById(id).value).None? ==>
                  h.reply == Fail(sz, StatusInternalServerError))
            && (loadById(id).Success? && sz.encode(loadById(id).value).Some? ==>
                  h.reply == Response(sz, sz.encode(loadById(id).value).value, StatusOK)))
  {
    if body.None? then Handled(Fail(sz, StatusInternalServerError), [])
    else
      match sz.decode(body.value)
      case None => Handled(Fail(sz, StatusInternalServerError), [])
      case Some(s) =>
        match update(id, s)
        case Some(e) => Handled(UpdateErrorReply(sz, e), [UpdateCall(id, s)])
        case None =>
          var calls := [UpdateCall(id, s), LoadByIdCall(id)];
          match loadById(id)
          case Failure(_) => Handled(Fail(sz, StatusInternalServerError), calls)
          case Success(updated) =>
            match sz.encode(updated)
            case None => Handled(Fail(sz, StatusInternalServerError), calls)
            case Some(output) => Handled(Response(sz, output, StatusOK), calls)
  }

  /** A post that gets past decoding and inserting answers with 201, 422 or 500, and 201 only when every step succeeded. */
  lemma {:induction false} PostStatuses(
    sz: Serializer,
    body: Option<string>,
    insert: Survey -> Result<Survey, SurveyError>,
    loadById: string -> Result<Survey, SurveyError>)
    ensures Post(sz, body, insert, loadById).reply.status in {StatusCreated, StatusUnprocessableEntity, StatusInternalServerError}
    ensures Post(sz, body, insert, loadById).reply.status == StatusCreated <==>
      && body.Some? && sz.decode(body.value).Some?
      && insert(sz.decode(body.value).value).Success?
      && loadById(insert(sz.decode(body.value).value).value.id).Success?
      && sz.encode(loadById(insert(sz.decode(body.value).value).value.id).value).Some?
  {
    ErrorStatus(sz, StatusText(StatusInternalServerError), StatusInternalServerError);
    if body.Some? && sz.decode(body.value).Some? {
      var s := sz.decode(body.value).value;
      if insert(s).Failure? {
        ErrorStatus(sz, ErrorText(insert(s).error), StatusUnprocessableEntity);
      }
    }
  }

  /** The action handlers `Delete`, `Activate` and `Deactivate`. */
  datatype Action = Delete | Activate | Deactivate

  /** The success body of an action. */
  function ActionMessage(a: Action): string {
    match a
    case Delete => "{\"message\":\"Survey deleted successfully\"}"
    case Activate => "{\"message\":\"Survey activated successfully\"}"
    case Deactivate => "{\"message\":\"Survey deactivated successfully\"}"
  }

  /** An action: the service's error mapped to 404 or 500, or the action's fixed message with 200. */
  function Act(sz: Serializer, a: Action, result: Option<SurveyError>): (r: Reply)
    ensures result.Some? ==> r == Fail(sz, LoadErrorCode(result.value))
    ensures result.None? ==> r == Response(sz, ActionMessage(a), StatusOK)
  {
    match result
    case Some(e) => Fail(sz, LoadErrorCode(e))
    case None => Response(sz, ActionMessage(a), StatusOK)
  }

  // Decimal integers as `strconv.ParseInt(s, 10, 64)` reads them.

  const Int64Min := -0x8000_0000_0000_0000
  const Int64Max := 0x7fff_ffff_ffff_ffff

  predicate IsDigit(c: char) {
    '0' <= c <= '9'
  }

  predicate AllDigits(s: string) {
    forall i :: 0 <= i < |s| ==> IsDigit(s[i])
  }

  /** The value of a digit string, most significant digit first. */
  function DigitsValue(s: string): (n: nat)
    requires AllDigits(s)
  {
    if s == [] then 0
    else DigitsValue(s[..|s| - 1]) * 10 + (s[|s| - 1] as int - '0' as int)
  }

  /** `s` without one leading sign. */
  function Unsigned(s: string): string {
    if s != "" && (s[0] == '-' || s[0] == '+') then s[1..] else s
  }

  /** The value `s` spells: its digits' value, negated under a leading minus. */
  function Spelled(s: string): int
    requires AllDigits(Unsigned(s))
  {
    var magnitude: int := DigitsValue(Unsigned(s));
    if s != "" && s[0] == '-' then -magnitude else magnitude
  }

  /**
   * An optional sign, then one or more decimal digits, whose value fits in 64 bits, parses to
   * that value; anything else (an empty string, a lone sign, any other character, a value out
   * of range) fails.
   */
  function ParseInt64(s: string): (r: Option<int>)
    ensures r.Some? <==>
      Unsigned(s) != [] && AllDigits(Unsigned(s)) && Int64Min <= Spelled(s) <= Int64Max
    ensures r.Some? ==> r.value == Spelled(s)
    ensures (exists i :: 0 <= i < |s| && !IsDigit(s[i]) && !(i == 0 && s[0] in "+-")) ==> r.None?
  {
    if s == "" then None
    else
      var negative := s[0] == '-';
      var digits := if s[0] == '-' || s[0] == '+' then s[1..] else s;
      if digits == [] || !AllDigits(digits) then None
      else
        var magnitude: int := DigitsValue(digits);
        var n := if negative then -magnitude else magnitude;
        if Int64Min <= n <= Int64Max then Some(n) else None
  }

  /** A lone sign and the first value past either end of the 64-bit range do not parse. */
  lemma {:induction false} ParseRejects()
    ensures ParseInt64("+") == None && ParseInt64("-") == None
    ensures ParseInt64(Decimal(Int64Max + 1)) == None
    ensures ParseInt64("-" + Decimal(Int64Max + 2)) == None
  {
    DigitsValueOfDecimal(Int64Max + 1);
    DigitsValueOfDecimal(Int64Max + 2);
    assert Unsigned("-" + Decimal(Int64Max + 2)) == Decimal(Int64Max + 2);
  }

  /** `k` zero digits. */
  function Zeros(k: nat): (z: string)
    ensures |z| == k && forall i :: 0 <= i < k ==> z[i] == '0'
  {
    if k == 0 then "" else Zeros(k - 1) + "0"
  }

  function Pow10(k: nat): nat {
    if k == 0 then 1 else 10 * Pow10(k - 1)
  }

  /** The value of two digit strings written one after the other. */
  lemma {:induction false} DigitsValueAppend(a: string, b: string)
    requires AllDigits(a) && AllDigits(b)
    ensures AllDigits(a + b)
    ensures DigitsValue(a + b) == DigitsValue(a) * Pow10(|b|) + DigitsValue(b)
  {
    var ab := a + b;
    if b == [] {
      assert ab == a;
    } else {
      var b' := b[..|b| - 1];
      var last := b[|b| - 1] as int - '0' as int;
      assert ab[..|ab| - 1] == a + b';
      assert ab[|ab| - 1] == b[|b| - 1];
      DigitsValueAppend(a, b');
      var x, p, y := DigitsValue(a), Pow10(|b'|), DigitsValue(b');
      assert DigitsValue(ab) == (x * p + y) * 10 + last;
      assert DigitsValue(b) == y * 10 + last;
      assert Pow10(|b|) == p * 10;
      ShiftByDigit(x, p, y, last);
    }
  }

  lemma ShiftByDigit(x: int, p: int, y: int, last: int)
    ensures (x * p + y) * 10 + last == x * (p * 10) + (y * 10 + last)
  {
  }

  lemma {:induction false} ZerosValue(k: nat)
    ensures DigitsValue(Zeros(k)) == 0
  {
    if k > 0 {
      ZerosValue(k - 1);
      assert Zeros(k)[..k - 1] == Zeros(k - 1);
    }
  }

  /** Digits with leading zeros spell the value of the digits after them. */
  lemma {:induction false} ZerosThenDecimal(n: nat, k: nat)
    ensures AllDigits(Zeros(k) + Decimal(n))
    ensures DigitsValue(Zeros(k) + Decimal(n)) == n
    ensures (Zeros(k) + Decimal(n))[0] != '-' && (Zeros(k) + Decimal(n))[0] != '+'
  {
    DigitsValueAppend(Zeros(k), Decimal(n));
    ZerosValue(k);
    DigitsValueOfDecimal(n);
  }

  /** A leading plus sign and leading zeros do not change the value parsed. */
  lemma {:induction false} ParsePlusAndZeros(n: nat, k: nat)
    requires n <= Int64Max
    ensures ParseInt64("+" + Zeros(k) + Decimal(n)) == Some(n)
    ensures ParseInt64(Zeros(k) + Decimal(n)) == Some(n)
  {
    var d := Zeros(k) + Decimal(n);
    var p := "+" + Zeros(k) + Decimal(n);
    ZerosThenDecimal(n, k);
    assert Unsigned(d) == d;
    assert Spelled(d) == n;
    assert p[0] == '+' && p[1..] == d;
    assert Unsigned(p) == d;
    assert Spelled(p) == n;
  }

  /** The shortest decimal spelling of `n`. */
  function Decimal(n: nat): (s: string)
    ensures s != [] && AllDigits(s)
  {
    var last := ['0' + (n % 10) as char];
    if n < 10 then last else Decimal(n / 10) + last
  }

  lemma {:induction false} DigitsValueOfDecimal(n: nat)
    ensures DigitsValue(Decimal(n)) == n
  {
    var s := Decimal(n);
    if n >= 10 {
      DigitsValueOfDecimal(n / 10);
      assert s[..|s| - 1] == Decimal(n / 10);
    }
  }

  /** The decimal spelling of any 64-bit integer, with a leading minus when negative. */
  function Signed(n: int): string {
    if n < 0 then "-" + Decimal(-n) else Decimal(n)
  }

  /** Every 64-bit integer's decimal spelling parses back to it. */
  lemma {:induction false} ParseSigned(n: int)
    requires Int64Min <= n <= Int64Max
    ensures ParseInt64(Signed(n)) == Some(n)
  {
    var s := Signed(n);
    if n < 0 {
      DigitsValueOfDecimal(-n);
      assert Unsigned(s) == s[1..] == Decimal(-n);
      assert Spelled(s) == n;
    } else {
      DigitsValueOfDecimal(n);
      assert Unsigned(s) == s;
      assert Spelled(s) == n;
    }
  }

  /**
   * `SetExpiration`: a missing or unparsable `timestamp` is 400 before the service is called;
   * otherwise the service's error is mapped by the expiration table, and success is 200.
   */
  function SetExpiration(
    sz: Serializer,
    id: string,
    timestamp: string,
    setExpiration: (string, int) -> Option<SurveyError>): (h: Handled)
    ensures timestamp == "" ==>
      h == Handled(Error(sz, "Missing required timestamp parameter", StatusBadRequest), [])
    ensures timestamp != "" && ParseInt64(timestamp).None? ==>
      h == Handled(Error(sz, "Invalid timestamp format, must be Unix timestamp", StatusBadRequest), [])
    ensures ParseInt64(timestamp).Some? ==>
      var at := ParseInt64(timestamp).value;
      && h.calls == [SetExpirationCall(id, at)]
      && (setExpiration(id, at).Some? ==> h.reply == ExpirationErrorReply(sz, setExpiration(id, at).value))
      && (setExpiration(id, at).None? ==>
            h.reply == Response(sz, "{\"message\":\"Survey expiration set successfully\"}", StatusOK))
  {
    if timestamp == "" then
      Handled(Error(sz, "Missing required timestamp parameter", StatusBadRequest), [])
    else
      match ParseInt64(timestamp)
      case None => Handled(Error(sz, "Invalid timestamp format, must be Unix timestamp", StatusBadRequest), [])
      case Some(at) =>
        var calls := [SetExpirationCall(id, at)];
        match setExpiration(id, at)
        case Some(e) => Handled(ExpirationErrorReply(sz, e), calls)
        case None => Handled(Response(sz, "{\"message\":\"Survey expiration set successfully\"}", StatusOK), calls)
  }

  /** A well-formed timestamp always reaches the service, with the value it spells. */
  lemma {:induction false} ExpirationReachesService(
    sz: Serializer,
    id: string,
    at: int,
    setExpiration: (string, int) -> Option<SurveyError>)
    requires Int64Min <= at <= Int64Max
    ensures SetExpiration(sz, id, Signed(at), setExpiration).calls == [SetExpirationCall(id, at)]
  {
    ParseSigned(at);
  }
}
