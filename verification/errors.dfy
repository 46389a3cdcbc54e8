/**
 * The slice of JavaScript values that error payloads carry: the
 * `Record<string, string | string[]>` of a DRF error body plus the boolean
 * flags the authentication endpoints add.
 */
module JsValues {
  import opened Text

  datatype JsValue = Undefined | Null | Bool(b: bool) | Str(s: string) | StrArray(items: seq<string>)

  /** A plain object as its entries, in `Object.entries` order. */
  type Record = seq<(string, JsValue)>

  /** `obj[key]`: the value of the first entry with that key, `undefined` when there is none. */
  function Get(rec: Record, key: string): (v: JsValue)
    ensures v != Undefined ==> exists i :: 0 <= i < |rec| && rec[i] == (key, v)
    ensures (forall i :: 0 <= i < |rec| ==> rec[i].0 != key) ==> v == Undefined
  {
    if |rec| == 0 then Undefined
    else if rec[0].0 == key then
      assert rec[0] == (key, rec[0].1);
      rec[0].1
    else
      assert forall i :: 0 <= i < |rec[1..]| ==> rec[1..][i] == rec[i + 1];
      Get(rec[1..], key)
  }

  /** JavaScript truthiness; arrays are truthy even when empty. */
  predicate Truthy(v: JsValue) {
    match v
    case Undefined => false
    case Null => false
    case Bool(b) => b
    case Str(s) => s != []
    case StrArray(_) => true
  }

  /** `String(v)`; an array converts to its elements joined with commas. */
  function ToString(v: JsValue): string {
    match v
    case Undefined => "undefined"
    case Null => "null"
    case Bool(b) => if b then "true" else "false"
    case Str(s) => s
    case StrArray(items) => Join(items, ",")
  }
}

/** `formatApiError` and `formatAuthError` of frontend/src/utils/errorHandling.ts. */
module ErrorHandling {
  import opened Options
  import opened Text
  import opened JsValues

  /** `error.response`: an optional status and an optional body. */
  datatype HttpResponse = HttpResponse(status: Option<int>, data: Option<Record>)
  datatype ApiError = ApiError(response: Option<HttpResponse>)

  /** `error.response?.status`. */
  function Status(e: ApiError): Option<int> {
    if e.response.Some? then e.response.value.status else None
  }

  /** `error.response?.data`; any object is truthy, so presence is all that matters. */
  function Data(e: ApiError): Option<Record> {
    if e.response.Some? then e.response.value.data else None
  }

  const EndpointNotFound: string := "Server endpoint not found. Please try again later."
  const ServerError: string := "Server error. Please try again later."
  const Unavailable: string := "Service temporarily unavailable. Please try again later."
  const RequestFailed: string := "Request failed"
  const NoConnection: string := "Unable to connect to server. Please check your connection."
  const TooManyAttempts: string := "Too many attempts. Please wait a moment and try again."
  const InvalidCredentials: string := "Invalid credentials. Please check your email and password."
  const VerificationRequired: string := "Email verification is required before you can log in."

  /** What one entry of the body contributes: an array spread, a truthy scalar as its string, a falsy one nothing. */
  function EntryMessages(v: JsValue): (m: seq<string>)
    ensures v.StrArray? ==> m == v.items
    ensures !v.StrArray? ==> (m == [] <==> !Truthy(v))
    ensures !v.StrArray? && Truthy(v) ==> m == [ToString(v)]
  {
    if v.StrArray? then v.items
    else if Truthy(v) then [ToString(v)]
    else []
  }

  /** The loop over `Object.entries(errorData)`. */
  function FieldMessages(rec: Record): (m: seq<string>)
    ensures m == [] <==> forall i :: 0 <= i < |rec| ==> EntryMessages(rec[i].1) == []
  {
    if |rec| == 0 then []
    else
      var rest := FieldMessages(rec[1..]);
      assert forall i :: 1 <= i < |rec| ==> rec[i] == rec[1..][i - 1];
      EntryMessages(rec[0].1) + rest
  }

  /** The messages of a body are those of its parts, in order. */
  lemma {:induction false} FieldMessagesAppend(a: Record, b: Record)
    ensures FieldMessages(a + b) == FieldMessages(a) + FieldMessages(b)
  {
    if |a| == 0 {
      assert a + b == b;
    } else {
      assert (a + b)[0] == a[0] && (a + b)[1..] == a[1..] + b;
      FieldMessagesAppend(a[1..], b);
    }
  }

  /** The message made from a response body: a truthy `detail` alone, else every field message joined. */
  function DataMessage(rec: Record): (m: string)
    ensures Truthy(Get(rec, "detail")) ==> m == ToString(Get(rec, "detail"))
    ensures !Truthy(Get(rec, "detail")) && FieldMessages(rec) == [] ==> m == RequestFailed
    ensures !Truthy(Get(rec, "detail")) && FieldMessages(rec) != [] ==> m == Join(FieldMessages(rec), ". ")
  {
    var errors := if Truthy(Get(rec, "detail")) then [ToString(Get(rec, "detail"))] else FieldMessages(rec);
    if |errors| > 0 then Join(errors, ". ") else RequestFailed
  }

  /** `formatApiError`. */
  function FormatApiError(e: ApiError): (m: string)
    ensures Status(e) == Some(404) ==> m == EndpointNotFound
    ensures Status(e) == Some(500) ==> m == ServerError
    ensures Status(e) == Some(503) ==> m == Unavailable
    ensures Status(e) !in {Some(404), Some(500), Some(503)} && Data(e).Some? ==> m == DataMessage(Data(e).value)
    ensures Status(e) !in {Some(404), Some(500), Some(503)} && Data(e).None? ==> m == NoConnection
  {
    if Status(e) == Some(404) then EndpointNotFound
    else if Status(e) == Some(500) then ServerError
    else if Status(e) == Some(503) then Unavailable
    else if Data(e).Some? then DataMessage(Data(e).value)
    else NoConnection
  }

  /** For 404, 500 and 503 the body is never looked at. */
  lemma {:induction false} StatusBeforeData(s: int, d1: Option<Record>, d2: Option<Record>)
    requires s in {404, 500, 503}
    ensures FormatApiError(ApiError(Some(HttpResponse(Some(s), d1)))) ==
            FormatApiError(ApiError(Some(HttpResponse(Some(s), d2))))
  {
  }

  /** A truthy `detail` decides the message on its own: the other fields do not matter. */
  lemma {:induction false} DetailAlone(a: Record, b: Record)
    requires Truthy(Get(a, "detail")) && Get(a, "detail") == Get(b, "detail")
    ensures DataMessage(a) == DataMessage(b)
  {
  }

  /** The result of `formatAuthError`; absent fields are `undefined`. */
  datatype AuthMessage = AuthMessage(
    message: string,
    requiresEmailVerification: Option<bool>,
    canResend: Option<JsValue>,
    email: Option<string>)

  function Plain(message: string): AuthMessage {
    AuthMessage(message, None, None, None)
  }

  /** The messages of one array field, each with its label in front; non-arrays add nothing. */
  function Labelled(tag: string, v: JsValue): (m: seq<string>)
    ensures !v.StrArray? ==> m == []
    ensures v.StrArray? ==> |m| == |v.items| && forall i :: 0 <= i < |m| ==> m[i] == tag + v.items[i]
  {
    if v.StrArray? then seq(|v.items|, i requires 0 <= i < |v.items| => tag + v.items[i]) else []
  }

  /** The 400 collection: email, password, username, non-field errors, detail. */
  function AuthFieldMessages(email: JsValue, password: JsValue, username: JsValue, nonField: JsValue, detail: JsValue): seq<string> {
    Labelled("Email: ", email) + Labelled("Password: ", password) + Labelled("Username: ", username)
      + (if nonField.StrArray? then nonField.items else [])
      + (if Truthy(detail) then [ToString(detail)] else [])
  }

  /** The 400 collection read off a body. */
  function BodyFieldMessages(rec: Record): seq<string> {
    AuthFieldMessages(Get(rec, "email"), Get(rec, "password"), Get(rec, "username"),
      Get(rec, "non_field_errors"), Get(rec, "detail"))
  }

  /** `formatAuthError`. */
  function FormatAuthError(e: ApiError): (r: AuthMessage)
    ensures Data(e).Some? && Truthy(Get(Data(e).value, "email_verification_required")) ==>
      r.requiresEmailVerification == Some(true)
    ensures r.requiresEmailVerification.Some? ==>
      Data(e).Some? && Truthy(Get(Data(e).value, "email_verification_required"))
    ensures Data(e).Some? && Truthy(Get(Data(e).value, "email_verification_required")) ==>
      var rec := Data(e).value;
      && r.message == (if Truthy(Get(rec, "detail")) then ToString(Get(rec, "detail")) else VerificationRequired)
      && (Get(rec, "can_resend") in {Undefined, Null} ==> r.canResend == Some(Bool(false)))
      && (Get(rec, "can_resend") !in {Undefined, Null} ==> r.canResend == Some(Get(rec, "can_resend")))
      && (Get(rec, "email").Str? <==> r.email.Some?)
    ensures r.email.Some? ==> Data(e).Some? && Get(Data(e).value, "email") == Str(r.email.value)
    ensures r.requiresEmailVerification.None? && Status(e) == Some(429) ==> r == Plain(TooManyAttempts)
    ensures r.requiresEmailVerification.None? && Status(e) == Some(401) ==> r == Plain(InvalidCredentials)
    ensures r.requiresEmailVerification.None? && Status(e) == Some(400) && Data(e).None? ==> r == Plain(FormatApiError(e))
    ensures r.requiresEmailVerification.None? && Status(e) !in {Some(429), Some(400), Some(401)} ==>
      r == Plain(FormatApiError(e))
  {
    var data := Data(e);
    if data.Some? && Truthy(Get(data.value, "email_verification_required")) then
      var rec := data.value;
      var resend := Get(rec, "can_resend");
      AuthMessage(
        if Truthy(Get(rec, "detail")) then ToString(Get(rec, "detail")) else VerificationRequired,
        Some(true),
        Some(if resend == Undefined || resend == Null then Bool(false) else resend),
        if Get(rec, "email").Str? then Some(Get(rec, "email").s) else None)
    else if Status(e) == Some(429) then Plain(TooManyAttempts)
    else if Status(e) == Some(400) && data.Some? && |BodyFieldMessages(data.value)| > 0 then
      Plain(Join(BodyFieldMessages(data.value), ". "))
    else if Status(e) == Some(401) then Plain(InvalidCredentials)
    else Plain(FormatApiError(e))
  }

  /** A verification-required body wins over every status: the status is not looked at. */
  lemma {:induction false} VerificationBeforeStatus(s1: Option<int>, s2: Option<int>, rec: Record)
    requires Truthy(Get(rec, "email_verification_required"))
    ensures var r := FormatAuthError(ApiError(Some(HttpResponse(s1, Some(rec)))));
      r == FormatAuthError(ApiError(Some(HttpResponse(s2, Some(rec))))) &&
      r.requiresEmailVerification == Some(true) &&
      (Get(rec, "can_resend") in {Undefined, Null} ==> r.canResend == Some(Bool(false))) &&
      (Get(rec, "email").Str? ==> r.email == Some(Get(rec, "email").s))
  {
  }

  /** A 400 body's messages come out labelled and in field order; a 400 with nothing to say falls through. */
  lemma {:induction false} BadRequestMessages(rec: Record)
    requires !Truthy(Get(rec, "email_verification_required"))
    ensures var r := FormatAuthError(ApiError(Some(HttpResponse(Some(400), Some(rec)))));
      (BodyFieldMessages(rec) != [] ==> r == Plain(Join(BodyFieldMessages(rec), ". "))) &&
      (BodyFieldMessages(rec) == [] ==> r == Plain(DataMessage(rec)))
  {
  }

  /** An `email` that is a plain string (the address itself) adds no message. */
  lemma {:induction false} StringEmailIgnored(s: string, password: JsValue, username: JsValue, nonField: JsValue, detail: JsValue)
    ensures AuthFieldMessages(Str(s), password, username, nonField, detail) ==
            AuthFieldMessages(Undefined, password, username, nonField, detail)
  {
  }
}

/**
 * The synchronous parts of the Pinia auth store of
 * frontend/src/stores/auth.ts: its own copy of `formatApiError`, the
 * `isAuthenticated` getter and `clearAuth`.
 */
module AuthStore {
  import opened Options
  import opened JsValues
  import ErrorHandling

  /** The store's copy of `formatApiError`: the same as the shared helper but without the 503 case. */
  function FormatApiError(e: ErrorHandling.ApiError): (m: string)
    ensures ErrorHandling.Status(e) == Some(404) ==> m == ErrorHandling.EndpointNotFound
    ensures ErrorHandling.Status(e) == Some(500) ==> m == ErrorHandling.ServerError
  {
    if ErrorHandling.Status(e) == Some(404) then ErrorHandling.EndpointNotFound
    else if ErrorHandling.Status(e) == Some(500) then ErrorHandling.ServerError
    else if ErrorHandling.Data(e).Some? then ErrorHandling.DataMessage(ErrorHandling.Data(e).value)
    else ErrorHandling.NoConnection
  }

  /**
   * The two copies agree on every error except a 503, where the store falls
   * back to the body (or to the connection message).
   */
  lemma {:induction false} FormatApiErrorAgreement(e: ErrorHandling.ApiError)
    ensures ErrorHandling.Status(e) != Some(503) ==> FormatApiError(e) == ErrorHandling.FormatApiError(e)
    ensures ErrorHandling.Status(e) == Some(503) ==>
      ErrorHandling.FormatApiError(e) == ErrorHandling.Unavailable &&
      FormatApiError(e) == (if ErrorHandling.Data(e).Some? then ErrorHandling.DataMessage(ErrorHandling.Data(e).value)
                            else ErrorHandling.NoConnection)
  {
  }

  datatype User = User(pk: int, username: string)

  /** The state fields of the store. */
  datatype AuthState = AuthState(
    user: Option<User>,
    accessToken: Option<string>,
    refreshToken: Option<string>,
    loading: bool,
    error: Option<string>)

  /** The `isAuthenticated` getter. */
  predicate IsAuthenticated(st: AuthState) {
    st.accessToken.Some? && st.user.Some?
  }

  /** `clearAuth` on the state: user and both tokens cleared, the rest kept. */
  function ClearAuth(st: AuthState): (r: AuthState)
    ensures r.user.None? && r.accessToken.None? && r.refreshToken.None?
    ensures r.loading == st.loading && r.error == st.error
    ensures !IsAuthenticated(r)
  {
    st.(user := None, accessToken := None, refreshToken := None)
  }

  /** Clearing twice is clearing once. */
  lemma {:induction false} ClearAuthIdempotent(st: AuthState)
    ensures ClearAuth(ClearAuth(st)) == ClearAuth(st)
  {
  }
}
