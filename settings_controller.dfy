/** `SettingsController`: verifying an API key against the credits service,
    and handing the stored settings to the control panel's script. */
module SettingsController {
  import opened Wrappers
  import Php
  import opened Assets

  /** A decoded JSON value, as `json_decode($response, true)` gives it
      (objects become associative arrays; invalid JSON becomes null). */
  datatype Json =
    | JNull
    | JBool(b: bool)
    | JNumber(n: int)
    | JString(s: string)
    | JArray(items: seq<Json>)
    | JObject(fields: map<string, Json>)

  /** `isset($data[$key])`: `$data` is an object with that key and the
      value there is not null. On a list, a string or a scalar the string
      key is never set. */
  function Field(data: Json, key: string): (r: Option<Json>)
    ensures r.Some? <==> data.JObject? && key in data.fields && data.fields[key] != JNull
    ensures r.Some? ==> r.value == data.fields[key] && r.value != JNull
  {
    if data.JObject? && key in data.fields && data.fields[key] != JNull then Some(data.fields[key])
    else None
  }

  /** The verification endpoint the key is posted to. */
  const VerifyEndpoint := "https://alttextgeneratorai.com/api/verify"

  /** The one POST request the action may send: the URL and the JSON body
      `{"apiKey": key}`. */
  datatype VerifyRequest = VerifyRequest(url: string, body: Json)

  /** The reply of `actionVerifyApi`: `credits` is present only on success. */
  datatype VerifyReply = VerifyReply(success: bool, message: string, credits: Option<Json>)

  datatype Verification = Verification(reply: VerifyReply, request: Option<VerifyRequest>)

  const KeyRequired := "API Key is required"
  const KeyNotFound := "API Key not found"
  const VerifyFailed := "Failed to verify API Key"
  const KeyValid := "API Key is valid!"
  const InvalidResponse := "Invalid API response"

  /** `actionVerifyApi` for the posted key, where `http` is what the
      request would return and `decoded` is `json_decode` of its body.
      Each `throw` inside the `try` becomes a failure reply carrying its
      message. */
  function VerifyApi(apiKey: string, http: HttpReply, decoded: Json): (v: Verification)
    // A PHP-empty key (including "0") fails before any request.
    ensures Php.EmptyString(apiKey) ==> v == Verification(VerifyReply(false, KeyRequired, None), None)
    ensures !Php.EmptyString(apiKey) ==> v.request == Some(VerifyRequest(VerifyEndpoint, JObject(map["apiKey" := JString(apiKey)])))
    // No body or a code other than 200: 404 means an unknown key.
    ensures !Php.EmptyString(apiKey) && (http.body.None? || http.code != 200)
            ==> v.reply == VerifyReply(false, if http.code == 404 then KeyNotFound else VerifyFailed, None)
    // A 200 reply is valid exactly when it sets `freeRewritesLeft`.
    ensures !Php.EmptyString(apiKey) && http.body.Some? && http.code == 200
            ==> v.reply == (match Field(decoded, "freeRewritesLeft")
                            case Some(c) => VerifyReply(true, KeyValid, Some(c))
                            case None => VerifyReply(false, InvalidResponse, None))
  {
    if Php.EmptyString(apiKey) then Verification(VerifyReply(false, KeyRequired, None), None)
    else
      var request := Some(VerifyRequest(VerifyEndpoint, JObject(map["apiKey" := JString(apiKey)])));
      if http.body.None? || http.code != 200 then
        Verification(VerifyReply(false, if http.code == 404 then KeyNotFound else VerifyFailed, None), request)
      else
        match Field(decoded, "freeRewritesLeft")
        case Some(credits) => Verification(VerifyReply(true, KeyValid, Some(credits)), request)
        case None => Verification(VerifyReply(false, InvalidResponse, None), request)
  }

  /** The messages a verification can carry. */
  predicate IsVerifyMessage(m: string) {
    m in {KeyRequired, KeyNotFound, VerifyFailed, KeyValid, InvalidResponse}
  }

  /** Success and credits go together, a success always carries the
      "valid" message, and every reply carries one of the five messages. */
  lemma VerifyReplyShape(apiKey: string, http: HttpReply, decoded: Json)
    ensures var r := VerifyApi(apiKey, http, decoded).reply;
            (r.success <==> r.credits.Some?)
            && (r.success <==> r.message == KeyValid)
            && IsVerifyMessage(r.message)
  {
  }

  /** A key is reported valid exactly when it is not PHP-empty, the service
      answered 200 with a body, and the body sets `freeRewritesLeft`; the
      credits reported are that value. */
  lemma ValidIff(apiKey: string, http: HttpReply, decoded: Json)
    ensures var r := VerifyApi(apiKey, http, decoded).reply;
            r.success <==> !Php.EmptyString(apiKey) && http.body.Some? && http.code == 200
                           && Field(decoded, "freeRewritesLeft").Some?
    ensures var r := VerifyApi(apiKey, http, decoded).reply;
            r.success ==> r.credits == Field(decoded, "freeRewritesLeft")
  {
  }

  /** The key "0" is rejected as missing without contacting the service. */
  lemma ZeroKeyIsRequired(http: HttpReply, decoded: Json)
    ensures VerifyApi("0", http, decoded) == Verification(VerifyReply(false, KeyRequired, None), None)
  {
  }

  /** The reply of `actionGetSettings`. */
  datatype SettingsReply = SettingsReply(success: bool, apiKey: string, language: string, error: Option<string>)

  /** `actionGetSettings` for the settings model as loaded, or the message
      of the exception raised while loading it. The settings model's
      properties are typed non-null strings, so `?? ''` and `?? 'english'`
      apply only on the exception path. */
  function GetSettings(loaded: Result<Settings>): (r: SettingsReply)
    ensures r.success <==> loaded.Ok?
    ensures loaded.Ok? ==> r.apiKey == loaded.value.apiKey && r.language == loaded.value.language && r.error.None?
    ensures loaded.Err? ==> r == SettingsReply(false, "", "english", Some(loaded.message))
  {
    match loaded
    case Ok(s) => SettingsReply(true, s.apiKey, s.language, None)
    case Err(m) => SettingsReply(false, "", "english", Some(m))
  }

  /** The two defaults disagree: untouched settings report the language
      "en", the exception path reports "english". The API key defaults
      agree. */
  lemma LanguageDefaultsDisagree(m: string)
    ensures GetSettings(Ok(DefaultSettings)).language == "en"
    ensures GetSettings(Err(m)).language == "english"
    ensures GetSettings(Ok(DefaultSettings)).apiKey == GetSettings(Err(m)).apiKey == ""
  {
  }
}
