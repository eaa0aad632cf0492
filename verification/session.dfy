/** The session decoder of the dashboard: reading identity claims out of the
    stored bearer token without verifying it, and the greeting built from them. */
module Session {
  import opened Effects
  import JsText

  /** A value `JSON.parse` can produce. JSON has no NaN, so a number is falsy
      exactly when it is zero. */
  datatype JsValue =
    | JNull
    | JBool(b: bool)
    | JNumber(n: real)
    | JString(s: string)
    | JArray(items: seq<JsValue>)
    | JObject(fields: map<string, JsValue>)

  /** JavaScript truthiness of a parsed value. */
  predicate Truthy(v: JsValue) {
    match v
    case JNull => false
    case JBool(b) => b
    case JNumber(n) => n != 0.0
    case JString(s) => s != ""
    case JArray(_) => true
    case JObject(_) => true
  }

  /** `JSON.parse(atob(segment))`: the parsed value, or `None` when `atob`
      rejects the segment or `JSON.parse` rejects its output. Base64 and JSON
      are not modelled; the decoder is a parameter. */
  type PayloadDecoder = string -> Option<JsValue>

  /** `token.split('.')[1]`, with `None` for `undefined`: the text between the
      first and the second dot (or the end). */
  function PayloadSegment(token: string): (r: Option<string>)
    ensures r.None? <==> '.' !in token
    ensures r.Some? ==> '.' !in r.value
    ensures r.Some? ==>
              var tail := token[JsText.FirstDot(token) + 1..];
              r.value <= tail && (|r.value| == |tail| || tail[|r.value|] == '.')
  {
    if '.' in token then
      JsText.SecondSegment(token);
      Some(JsText.Split(token)[1])
    else None
  }

  /** `decodeToken`: every exception is caught and turned into `null`, so the
      result is a value for every string. Without a '.' the segment is
      `undefined`, which `atob` rejects ("undefined" is not valid base64). */
  function DecodeToken(token: string, decodePayload: PayloadDecoder): (claims: JsValue)
    ensures '.' !in token ==> claims == JNull
    ensures claims != JNull ==>
              PayloadSegment(token).Some? && decodePayload(PayloadSegment(token).value) == Some(claims)
    ensures PayloadSegment(token).Some? && decodePayload(PayloadSegment(token).value).Some? ==>
              claims == decodePayload(PayloadSegment(token).value).value
    ensures PayloadSegment(token).Some? && decodePayload(PayloadSegment(token).value).None? ==>
              claims == JNull
  {
    match PayloadSegment(token)
    case None => JNull
    case Some(segment) =>
      match decodePayload(segment)
      case Some(v) => v
      case None => JNull
  }

  /** The claims only depend on the payload segment: the header and whatever
      follows the payload (a signature, more segments, or nothing) play no
      part, so any signature is accepted. */
  lemma UnsignedPayloadDecodes(header: string, payload: string, rest: string, decodePayload: PayloadDecoder)
    requires '.' !in header && '.' !in payload && (rest == "" || rest[0] == '.')
    ensures DecodeToken(header + "." + payload + rest, decodePayload)
            == match decodePayload(payload) case Some(v) => v case None => JNull
  {
    var token := header + "." + payload + rest;
    assert token == header + ("." + payload + rest);
    assert ("." + payload + rest)[1..] == payload + rest;
    JsText.SplitCons(header, "." + payload + rest);
    JsText.SplitCons(payload, rest);
    assert PayloadSegment(token) == Some(payload);
  }

  /** `Truthy` agrees with the list of falsy values JSON can produce: null,
      false, 0 and the empty string. */
  lemma FalsyValues(v: JsValue)
    ensures !Truthy(v) <==> v == JNull || v == JBool(false) || v == JNumber(0.0) || v == JString("")
  {
  }

  /** `const user = token ? decodeToken(token) : null` for the stored slot. */
  function UserOf(slot: Option<string>, decodePayload: PayloadDecoder): (user: JsValue)
    ensures slot.None? || slot.value == "" ==> user == JNull
    ensures slot.Some? && slot.value != "" ==> user == DecodeToken(slot.value, decodePayload)
  {
    match slot
    case Some(t) => if t != "" then DecodeToken(t, decodePayload) else JNull
    case None => JNull
  }

  /** `user?.name`, with `None` for `undefined`: only an object has a `name`
      property, and only when the payload had one. */
  function NameClaim(user: JsValue): (name: Option<JsValue>)
    ensures name.Some? ==> user.JObject? && "name" in user.fields && user.fields["name"] == name.value
    ensures user.JObject? && "name" in user.fields ==> name.Some?
  {
    match user
    case JObject(fields) => if "name" in fields then Some(fields["name"]) else None
    case _ => None
  }

  const DefaultName := JString("User")

  /** `user?.name || 'User'`: the greeting shows the name claim when it is
      truthy, and the placeholder otherwise; it is never falsy. */
  function Greeting(user: JsValue): (shown: JsValue)
    ensures Truthy(shown)
    ensures NameClaim(user).Some? && Truthy(NameClaim(user).value) ==> shown == NameClaim(user).value
    ensures shown != DefaultName ==> NameClaim(user) == Some(shown)
  {
    match NameClaim(user)
    case Some(n) => if Truthy(n) then n else DefaultName
    case None => DefaultName
  }
}
