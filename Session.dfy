/**
 * The session object `OV` of the OmniVista 2500 client: the constructor, the
 * `headers` getter, `login` with its call to `about` and the classification of
 * the appliance as "OV" or "CIRRUS", and the mode dispatch of
 * `getWlanClientList`.
 *
 * The transport is a value: each request is answered by a `Transport` that is
 * passed in, and the model returns the request it would send.
 */
module Session {
  import opened Wrappers
  import opened Json
  import opened Http
  import Demux

  const OvMode := "OV"
  const CirrusMode := "CIRRUS"
  const CirrusMarker := "Cirrus"

  const JsonMediaType := "application/json"
  const AppVersion := "4.2.2.R01"
  const UrlScheme := "https://"
  const LoginPath := "/api/login"
  const AboutPath := "/api/about"
  const WlanClientListPath := "/api/wma/onlineClient/getOnlineClientList"
  /** The serialized `OV_WlanClientList` payload. */
  const WlanClientListBody := "{\"filterBy\":\"all\",\"filterContent\":\"\",\"startMac\":\"\"}"

  // ---------------------------------------------------------------------
  // The "Cirrus" substring test.
  // ---------------------------------------------------------------------

  predicate OccursAt(s: string, sub: string, i: int)
  {
    0 <= i && i + |sub| <= |s| && s[i..i + |sub|] == sub
  }

  predicate Contains(s: string, sub: string)
  {
    exists i | 0 <= i <= |s| - |sub| :: OccursAt(s, sub, i)
  }

  /** `s.indexOf(sub, from)`: the first occurrence at or after from, or -1. */
  function IndexFrom(s: string, sub: string, from: nat): (r: int)
    ensures r == -1 <==> forall i | from <= i <= |s| - |sub| :: !OccursAt(s, sub, i)
    ensures r != -1 ==>
      from <= r && OccursAt(s, sub, r) && forall i | from <= i < r :: !OccursAt(s, sub, i)
    decreases |s| - from
  {
    if from + |sub| > |s| then -1
    else if s[from..from + |sub|] == sub then assert OccursAt(s, sub, from); from
    else IndexFrom(s, sub, from + 1)
  }

  /** `s.indexOf(sub)`. */
  function IndexOf(s: string, sub: string): (r: int)
    ensures r == -1 <==> !Contains(s, sub)
    ensures r != -1 ==> OccursAt(s, sub, r) && forall i | 0 <= i < r :: !OccursAt(s, sub, i)
  {
    IndexFrom(s, sub, 0)
  }

  /** The mode of an appliance with the given product name. */
  function Classify(name: string): (m: string)
    ensures m == CirrusMode <==> Contains(name, CirrusMarker)
    ensures m == OvMode <==> !Contains(name, CirrusMarker)
  {
    if IndexOf(name, CirrusMarker) != -1 then CirrusMode else OvMode
  }

  /** `info.productName` when it is a string; anything else makes `indexOf` throw. */
  function ProductName(info: Json): (r: Option<string>)
    ensures r.Some? <==> info.JObj? && "productName" in info.fields && info.fields["productName"].JStr?
    ensures r.Some? ==> info.fields["productName"] == JStr(r.value)
  {
    match Member(info, "productName")
    case Success(Some(JStr(name))) => Some(name)
    case _ => None
  }

  // ---------------------------------------------------------------------
  // Replies.
  // ---------------------------------------------------------------------

  /** The settlement of `about()` for the reply to its request. */
  function About(reply: Transport, parse: string -> Option<Json>): (r: Result<Json, Error>)
    ensures reply.Failed? ==> r == Failure(TransportError(reply.cause))
    ensures reply.Delivered? ==>
      (r.Success? <==> parse(reply.response.body).Some?)
      && (r.Success? ==> r.value == parse(reply.response.body).value)
      && (r.Failure? ==> r.error == JsonError)
  {
    match reply
    case Failed(cause) => Failure(TransportError(cause))
    case Delivered(response) =>
      match parse(response.body)
      case None => Failure(JsonError)
      case Some(v) => Success(v)
  }

  /**
   * `this.result2JSON(body)[0].<key>` inside a `try` whose `catch` rejects
   * with "JSON Error": a body that does not parse and a null first frame
   * both end there. An absent key resolves with `undefined` (None).
   */
  function FirstFrameField(reply: Transport, parse: string -> Option<Json>, key: string)
    : (r: Result<Option<Json>, Error>)
    ensures reply.Failed? ==> r == Failure(TransportError(reply.cause))
    ensures reply.Delivered? ==>
      var frames := Demux.Demux(parse, reply.response.body);
      && (r.Success? <==> frames.Some? && frames.value[0] != JNull)
      && (r.Failure? ==> r.error == JsonError)
      && (r.Success? ==>
            (r.value.Some? <==> frames.value[0].JObj? && key in frames.value[0].fields)
            && (r.value.Some? ==> r.value.value == frames.value[0].fields[key]))
  {
    match reply
    case Failed(cause) => Failure(TransportError(cause))
    case Delivered(response) =>
      match Demux.Demux(parse, response.body)
      case None => Failure(JsonError)
      case Some(frames) =>
        match Member(frames[0], key)
        case Failure(_) => Failure(JsonError)
        case Success(field) => Success(field)
  }

  // ---------------------------------------------------------------------
  // The access token.
  // ---------------------------------------------------------------------

  /**
   * `body.accessToken || ""` as written: the login request does not ask for
   * JSON decoding, so `body` is the raw response text, a string, and a string
   * has no `accessToken` property.
   */
  function RawBodyToken(body: string): (t: Json)
    ensures t == JStr("")
  {
    OrEmpty(Member(JStr(body), "accessToken").value)
  }

  /** The token a decoded login reply carries: its truthy `accessToken`, else "". */
  function DecodedToken(parse: string -> Option<Json>, body: string): (t: Json)
    ensures t == JStr("") || Truthy(t)
    ensures parse(body).Some? && parse(body).value.JObj? && "accessToken" in parse(body).value.fields
            && Truthy(parse(body).value.fields["accessToken"])
        ==> t == parse(body).value.fields["accessToken"]
    ensures t != JStr("") ==>
      parse(body).Some? && parse(body).value.JObj? && "accessToken" in parse(body).value.fields
      && t == parse(body).value.fields["accessToken"]
  {
    match parse(body)
    case None => JStr("")
    case Some(reply) =>
      match Member(reply, "accessToken")
      case Failure(_) => JStr("")
      case Success(token) => OrEmpty(token)
  }

  /** A reply that carries a token: the raw-text read loses it, the decoded read keeps it. */
  lemma TokenLost(parse: string -> Option<Json>, body: string)
    requires body == "{\"accessToken\":\"abc\"}"
    requires parse(body) == Some(JObj(map["accessToken" := JStr("abc")]))
    ensures RawBodyToken(body) == JStr("")
    ensures DecodedToken(parse, body) == JStr("abc")
  {
    assert Truthy(JStr("abc"));
  }

  // ---------------------------------------------------------------------
  // The session.
  // ---------------------------------------------------------------------

  /** How the promise returned by `login` settles; `Unsettled` when it never does. */
  datatype LoginOutcome = Resolved(info: Json) | Rejected(error: Error) | Unsettled

  class OV {
    var token: Json
    var cookie: string
    const ip: string
    var info: Json
    var mode: string
    const url: string

    /** The mode is unset or one of the two appliance kinds. */
    predicate Valid()
      reads this
    {
      mode == "" || mode == OvMode || mode == CirrusMode
    }

    constructor (ip: string)
      ensures this.ip == ip && url == UrlScheme + ip
      ensures token == JStr("") && cookie == "" && info == JStr("") && mode == ""
      ensures Valid()
    {
      token := JStr("");
      cookie := "";
      this.ip := ip;
      info := JStr("");
      mode := "";
      url := UrlScheme + ip;
    }

    /** The `headers` getter: fixed JSON and version headers, and the current cookie. */
    function Headers(): (h: map<string, string>)
      reads this
      ensures h.Keys == {"Content-Type", "Accept", "Ov-App-Version", "Cookie"}
      ensures h["Content-Type"] == JsonMediaType && h["Accept"] == JsonMediaType
      ensures h["Ov-App-Version"] == AppVersion
      ensures h["Cookie"] == cookie
    {
      map["Content-Type" := JsonMediaType, "Accept" := JsonMediaType,
          "Ov-App-Version" := AppVersion, "Cookie" := cookie]
    }

    /** The request `about()` sends. */
    function AboutRequest(): (q: Request)
      reads this
      ensures q.verb == Get && q.url == url + AboutPath && q.body == None
      ensures q.headers == Headers()
    {
      Request(Get, url + AboutPath, Headers(), None)
    }

    /**
     * `login`: sends the credentials, then on a reply stores the token and the
     * cookie, asks `about` with the new cookie and classifies the appliance.
     * `credentials` is the serialized request body.
     */
    method Login(credentials: string, loginReply: Transport, aboutReply: Transport,
                 parse: string -> Option<Json>)
      returns (loginRequest: Request, aboutRequest: Option<Request>, r: LoginOutcome)
      requires Valid()
      modifies this
      ensures Valid()
      ensures loginRequest == Request(Post, url + LoginPath, old(Headers()), Some(credentials))
      ensures loginReply.Failed? ==>
        && token == JStr("") && cookie == old(cookie) && info == old(info) && mode == old(mode)
        && aboutRequest == None && r == Rejected(TransportError(loginReply.cause))
      ensures loginReply.Delivered? ==>
        && token == RawBodyToken(loginReply.response.body) && token == JStr("")
        && cookie == loginReply.response.setCookie
        && aboutRequest == Some(AboutRequest())
        && aboutRequest.value.headers["Cookie"] == loginReply.response.setCookie
      ensures loginReply.Delivered? && About(aboutReply, parse).Failure? ==>
        r == Unsettled && info == old(info) && mode == old(mode)
      ensures loginReply.Delivered? && About(aboutReply, parse).Success? ==>
        var v := About(aboutReply, parse).value;
        && info == v
        && (ProductName(v).None? ==> r == Unsettled && mode == old(mode))
        && (ProductName(v).Some? ==> r == Resolved(v) && mode == Classify(ProductName(v).value))
      ensures r.Resolved? ==> mode == OvMode || mode == CirrusMode
      ensures r.Resolved? ==>
        (mode == CirrusMode <==> Contains(ProductName(info).value, CirrusMarker))
        && (mode == OvMode <==> !Contains(ProductName(info).value, CirrusMarker))
    {
      loginRequest := Request(Post, url + LoginPath, Headers(), Some(credentials));
      if loginReply.Failed? {
        token := JStr("");
        return loginRequest, None, Rejected(TransportError(loginReply.cause));
      }
      token := RawBodyToken(loginReply.response.body);
      cookie := loginReply.response.setCookie;
      aboutRequest := Some(AboutRequest());
      var about := About(aboutReply, parse);
      if about.Failure? {
        return loginRequest, aboutRequest, Unsettled;
      }
      info := about.value;
      var name := ProductName(info);
      if name.None? {
        return loginRequest, aboutRequest, Unsettled;
      }
      mode := Classify(name.value);
      r := Resolved(info);
    }

    /**
     * `getWlanClientList(mode)`: the request it sends and how it settles, or
     * None when the mode is neither "OV" nor "CIRRUS" and the switch falls
     * through without returning a promise.
     */
    function GetWlanClientList(mode: string, reply: Transport, parse: string -> Option<Json>)
      : (r: Option<(Request, Result<Option<Json>, Error>)>)
      reads this
      ensures r.Some? <==> mode == OvMode || mode == CirrusMode
      ensures r.Some? ==>
        && r.value.0.url == url + WlanClientListPath
        && r.value.0.headers == Headers()
        && r.value.1 == FirstFrameField(reply, parse, "data")
      ensures mode == OvMode ==>
        r.Some? && r.value.0.verb == Post && r.value.0.body == Some(WlanClientListBody)
      ensures mode == CirrusMode ==>
        r.Some? && r.value.0.verb == Get && r.value.0.body == None
    {
      if mode == OvMode then
        Some((Request(Post, url + WlanClientListPath, Headers(), Some(WlanClientListBody)),
              FirstFrameField(reply, parse, "data")))
      else if mode == CirrusMode then
        Some((Request(Get, url + WlanClientListPath, Headers(), None),
              FirstFrameField(reply, parse, "data")))
      else None
    }
  }

  /** Once login has set a mode, asking for the client list in that mode always sends a request. */
  lemma SetModeDispatches(ov: OV, reply: Transport, parse: string -> Option<Json>)
    requires ov.Valid() && ov.mode != ""
    ensures ov.GetWlanClientList(ov.mode, reply, parse).Some?
  {
  }
}
