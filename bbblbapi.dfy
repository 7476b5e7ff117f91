// The bbblb-specific endpoints: the signed end-of-meeting callback, the
// callback proxy for the back-end servers, and the recording upload with its
// bearer-token authorisation.

module BbblbApi {
  import opened Base
  import opened Model
  import BbbApi

  /** A plain response: its status, its JSON fields (or its text under
      "text") and its extra headers. */
  datatype Reply = Reply(status: int, fields: map<string, string>, headers: map<string, string>)

  /** What a handler did: answered, or raised an exception. */
  datatype Handled = Answer(reply: Reply) | Raised

  function TextReply(text: string, status: int): Reply {
    Reply(status, map["text" := text], map[])
  }

  /** The `api` decorator of this file: any exception becomes a 500 answer. */
  function Wrap(h: Handled): (r: Reply)
    ensures h.Answer? ==> r == h.reply
    ensures h.Raised? ==> r.status == 500 && "error" in r.fields && r.fields["error"] == "Unhandled exception"
  {
    match h
    case Answer(reply) => reply
    case Raised => Reply(500, map["error" := "Unhandled exception", "message" := "You found a bug!"], map[])
  }

  // ---------------------------------------------------------------------
  // The end-of-meeting callback

  /** The signature check of `handle_callback_end`: Some(true) when the
      decoded signature equals the HMAC of the fixed message, None where the
      check raises (a non-ASCII uuid or a signature that is not hex). */
  function EndSignatureOk(mac: (seq<byte>, seq<byte>) -> seq<byte>, secret: seq<byte>, uuid: string, sig: string): (r: Option<bool>)
    ensures r.Some? <==> IsAscii(uuid) && FromHex(sig).Some?
    ensures r.Some? ==> (r.value <==> FromHex(sig) == Some(mac(secret, AsciiEncode(BbbApi.EndSignatureMessage(uuid)).value)))
  {
    EndMessageAscii(uuid);
    match AsciiEncode(BbbApi.EndSignatureMessage(uuid))
    case None => None
    case Some(message) =>
      match FromHex(sig)
      case None => None
      case Some(given) => Some(mac(secret, message) == given)
  }

  /** The signed message is ASCII exactly when the uuid is. */
  lemma EndMessageAscii(uuid: string)
    ensures IsAscii(BbbApi.EndSignatureMessage(uuid)) <==> IsAscii(uuid)
  {
    var m := BbbApi.EndSignatureMessage(uuid);
    assert forall i :: 19 <= i < |m| ==> m[i] == uuid[i - 19];
    assert forall i :: 0 <= i < |uuid| ==> uuid[i] == m[i + 19];
  }

  /** The URL signed when the meeting was created passes the check: signing
      and checking round-trip. */
  lemma SignedEndUrlAccepted(mac: (seq<byte>, seq<byte>) -> seq<byte>, secret: seq<byte>, uuid: string)
    requires IsAscii(uuid)
    ensures EndSignatureOk(mac, secret, uuid, BbbApi.EndSignature(mac, secret, uuid)) == Some(true)
  {
    EndMessageAscii(uuid);
    FromHexHex(mac(secret, AsciiEncode(BbbApi.EndSignatureMessage(uuid)).value));
  }

  /** A signature is accepted exactly when it is, up to the case of its hex
      digits and whitespace, the one signed for that uuid. */
  lemma EndSignatureOnlyOwn(mac: (seq<byte>, seq<byte>) -> seq<byte>, secret: seq<byte>, uuid: string, sig: string)
    requires IsAscii(uuid)
    ensures EndSignatureOk(mac, secret, uuid, sig) == Some(true) <==> FromHex(sig) == FromHex(BbbApi.EndSignature(mac, secret, uuid))
  {
    SignedEndUrlAccepted(mac, secret, uuid);
  }

  /** The callbacks registered for one meeting and type, in table order. */
  function MatchingCallbacks(cbs: seq<Callback>, uuid: string, kind: string): (r: seq<Callback>)
    ensures forall c :: c in r <==> c in cbs && c.uuid == uuid && c.kind == kind
    ensures |r| <= |cbs|
  {
    if cbs == [] then []
    else (if cbs[0].uuid == uuid && cbs[0].kind == kind then [cbs[0]] else []) + MatchingCallbacks(cbs[1..], uuid, kind)
  }

  /** The callbacks of every other meeting or type. */
  function OtherCallbacks(cbs: seq<Callback>, uuid: string, kind: string): (r: seq<Callback>)
    ensures forall c :: c in r <==> c in cbs && !(c.uuid == uuid && c.kind == kind)
  {
    if cbs == [] then []
    else (if cbs[0].uuid == uuid && cbs[0].kind == kind then [] else [cbs[0]]) + OtherCallbacks(cbs[1..], uuid, kind)
  }

  /** The meetings table without the meeting of that uuid (the uuid column is
      unique, so that is at most one row). */
  function Forgotten(meetings: map<MeetingKey, Meeting>, uuid: string): (r: map<MeetingKey, Meeting>)
    ensures forall k :: k in r <==> k in meetings && meetings[k].uuid != uuid
    ensures forall k :: k in r ==> r[k] == meetings[k]
  {
    map k | k in meetings && meetings[k].uuid != uuid :: meetings[k]
  }

  /** `handle_callback_end`. A failed check answers 401 and changes nothing;
      an exception (a uuid that is not ASCII, a signature that is not hex,
      two END callbacks for one meeting) rolls the transaction back and the
      wrapper answers 500. Otherwise the END callback, if any, is deleted and
      its forward URL returned for the fire-and-forget GET, the meeting is
      forgotten, and the answer is 200. */
  method HandleCallbackEnd(store: Store, mac: (seq<byte>, seq<byte>) -> seq<byte>, secret: seq<byte>, uuid: string, sig: string)
    returns (r: Reply, forward: Option<string>)
    modifies store`callbacks, store`meetings
    ensures EndSignatureOk(mac, secret, uuid, sig).None? ==> r.status == 500
    ensures EndSignatureOk(mac, secret, uuid, sig) == Some(false) ==> r.status == 401
    ensures r.status != 200 ==> forward.None? && store.callbacks == old(store.callbacks) && store.meetings == old(store.meetings)
    ensures r.status == 200 <==> EndSignatureOk(mac, secret, uuid, sig) == Some(true) && |MatchingCallbacks(old(store.callbacks), uuid, CallbackTypeEnd)| <= 1
    ensures r.status == 200 ==>
      && store.callbacks == OtherCallbacks(old(store.callbacks), uuid, CallbackTypeEnd)
      && store.meetings == Forgotten(old(store.meetings), uuid)
      && (forward.Some? <==> exists c :: c in old(store.callbacks) && c.uuid == uuid && c.kind == CallbackTypeEnd && c.forward != "")
      && (forward.Some? ==> exists c :: c in old(store.callbacks) && c.uuid == uuid && c.kind == CallbackTypeEnd && c.forward == forward.value)
  {
    forward := None;
    var ok := EndSignatureOk(mac, secret, uuid, sig);
    if ok.None? {
      return Wrap(Raised), None;
    }
    if !ok.value {
      return TextReply("Access denied, signature check failed", 401), None;
    }
    var found := MatchingCallbacks(store.callbacks, uuid, CallbackTypeEnd);
    if |found| > 1 {
      // scalar_one_or_none raises MultipleResultsFound
      return Wrap(Raised), None;
    }
    if |found| == 1 {
      assert forall c :: c in old(store.callbacks) && c.uuid == uuid && c.kind == CallbackTypeEnd ==> c == found[0];
      if found[0].forward != "" {
        forward := Some(found[0].forward);
      }
    }
    store.callbacks := OtherCallbacks(store.callbacks, uuid, CallbackTypeEnd);
    store.meetings := Forgotten(store.meetings, uuid);
    return TextReply("OK", 200), forward;
  }

  // ---------------------------------------------------------------------
  // The callback proxy

  /** What the back-end server's callback leads to. */
  datatype ProxyOutcome = ProxyOutcome(reply: Reply, fired: seq<Callback>, payload: map<string, string>)

  /** The platform pieces of the proxy: UTF-8 decoding, `parse_qs` and
      verifying a JWT with a key (None wherever they raise). */
  datatype ProxySite = ProxySite(
    utf8: seq<byte> -> Option<string>,
    parseQs: string -> map<string, seq<string>>,
    jwtDecode: (string, string) -> Option<map<string, string>>,
    serverSecrets: map<string, string>)

  /** The form field the proxy needs, if present. */
  function SignedParameters(site: ProxySite, body: seq<byte>): (r: Option<string>)
    ensures r.Some? <==>
      && site.utf8(body).Some?
      && "signed_parameters" in site.parseQs(site.utf8(body).value)
      && site.parseQs(site.utf8(body).value)["signed_parameters"] != []
  {
    match site.utf8(body)
    case None => None
    case Some(text) =>
      var form := site.parseQs(text);
      if "signed_parameters" in form && form["signed_parameters"] != [] then Some(form["signed_parameters"][0]) else None
  }

  /** `handle_callback_proxy`: read the body with the size limit, take the
      signed parameters, and forward them to every callback registered for
      the meeting and type once they verify with the secret of the first
      callback's server. The forwards run as background tasks. */
  method CallbackProxy(store: Store, uuid: string, kind: string, chunks: seq<seq<byte>>, maxBody: int, site: ProxySite)
    returns (r: ProxyOutcome)
    ensures r.reply.status == 413 <==> chunks != [] && |BbbApi.Concat(chunks)| > maxBody
    ensures r.reply.status != 413 ==>
      var matching := MatchingCallbacks(store.callbacks, uuid, kind);
      var payload := SignedParameters(site, BbbApi.Concat(chunks));
      && (r.reply.status == 400 <==> payload.None?)
      && (payload.Some? && matching == [] ==> r.reply.status == 200 && r.fired == [])
      && (payload.Some? && matching != [] ==>
            var decoded := if matching[0].server in site.serverSecrets
              then site.jwtDecode(payload.value, site.serverSecrets[matching[0].server]) else None;
            && (r.reply.status == 401 <==> decoded.None?)
            && (decoded.Some? ==> r.reply.status == 200 && r.fired == matching && r.payload == decoded.value))
    ensures r.fired != [] ==> r.reply.status == 200
  {
    var body: seq<byte> := [];
    var i := 0;
    while i < |chunks|
      invariant 0 <= i <= |chunks|
      invariant body == BbbApi.Concat(chunks[..i]) && (i == 0 || |body| <= maxBody)
    {
      assert chunks[..i + 1][..i] == chunks[..i];
      body := body + chunks[i];
      i := i + 1;
      if |body| > maxBody {
        BbbApi.ConcatPrefixShorter(chunks, i);
        return ProxyOutcome(TextReply("Request Entity Too Large", 413), [], map[]);
      }
    }
    assert chunks[..i] == chunks;
    var payload := SignedParameters(site, body);
    if payload.None? {
      return ProxyOutcome(TextReply("Invalid request", 400), [], map[]);
    }
    var callbacks := MatchingCallbacks(store.callbacks, uuid, kind);
    if callbacks == [] {
      return ProxyOutcome(TextReply("OK", 200), [], map[]);
    }
    var origin := callbacks[0].server;
    if origin !in site.serverSecrets {
      return ProxyOutcome(TextReply("Access denied, signature check failed", 401), [], map[]);
    }
    var decoded := site.jwtDecode(payload.value, site.serverSecrets[origin]);
    if decoded.None? {
      return ProxyOutcome(TextReply("Access denied, signature check failed", 401), [], map[]);
    }
    return ProxyOutcome(TextReply("OK", 200), callbacks, decoded.value);
  }

  // ---------------------------------------------------------------------
  // Bearer tokens

  /** The verified claims of a bearer token. */
  datatype AuthContext = AuthContext(claims: map<string, string>)

  /** `scopes`: the whitespace-separated words of the "scope" claim. */
  function Scopes(auth: AuthContext): (r: set<string>)
    ensures "scope" !in auth.claims ==> r == {}
    ensures forall s :: s in r ==> s != "" && NoSpace(s)
  {
    var ws := Words(if "scope" in auth.claims then auth.claims["scope"] else "");
    set i | 0 <= i < |ws| :: ws[i]
  }

  /** `has_scope`: one of the wanted scopes was granted. */
  predicate HasScope(auth: AuthContext, wanted: seq<string>) {
    exists i :: 0 <= i < |wanted| && wanted[i] in Scopes(auth)
  }

  /** A token minted with the scopes joined by blanks grants exactly those
      scopes, when none of them is empty or holds whitespace. */
  lemma ScopesOfJoined(claims: map<string, string>, names: seq<string>)
    requires forall i :: 0 <= i < |names| ==> names[i] != "" && NoSpace(names[i])
    ensures Scopes(AuthContext(claims["scope" := Join(names, ' ')])) == set i | 0 <= i < |names| :: names[i]
    ensures forall i :: 0 <= i < |names| ==> HasScope(AuthContext(claims["scope" := Join(names, ' ')]), [names[i]])
  {
    WordsJoin(names);
    var auth := AuthContext(claims["scope" := Join(names, ' ')]);
    forall i | 0 <= i < |names|
      ensures HasScope(auth, [names[i]])
    {
      assert [names[i]][0] in Scopes(auth);
    }
  }

  /** The token library and the server table, as seen by `from_request`:
      reading the unverified header, verifying with a key, and finding a
      server (domain and secret) by its domain; None where they raise. */
  datatype TokenSite = TokenSite(
    header: string -> Option<map<string, string>>,
    decode: (string, string) -> Option<map<string, string>>,
    findServer: string -> Option<(string, string)>,
    secret: string)

  /** The key id of the token header; None when absent or empty. */
  function KeyId(site: TokenSite, token: string): Option<string>
    requires site.header(token).Some?
  {
    var h := site.header(token).value;
    if "kid" in h && h["kid"] != "" then Some(h["kid"]) else None
  }

  /** `from_request`, with the request headers keyed by lower-case name. */
  function FromRequest(headers: map<string, string>, site: TokenSite): (r: Option<AuthContext>)
    ensures r.Some? ==>
      && "authorization" in headers && |Words(headers["authorization"])| == 2
      && Lower(Words(headers["authorization"])[0]) == "bearer"
      && site.header(Words(headers["authorization"])[1]).Some?
    ensures r.Some? ==>
      var token := Words(headers["authorization"])[1];
      match KeyId(site, token)
      case Some(kid) =>
        && site.findServer(kid).Some?
        && site.decode(token, site.findServer(kid).value.1).Some?
        && r.value.claims == site.decode(token, site.findServer(kid).value.1).value["scope" := "bbb"]["sub" := site.findServer(kid).value.0]
      case None =>
        && site.decode(token, site.secret).Some?
        && r.value.claims == site.decode(token, site.secret).value
  {
    if "authorization" !in headers || headers["authorization"] == "" then None
    else
      var parts := Words(headers["authorization"]);
      if |parts| != 2 || Lower(parts[0]) != "bearer" then None
      else
        var token := parts[1];
        if site.header(token).None? then None
        else
          match KeyId(site, token)
          case Some(kid) =>
            (match site.findServer(kid)
             case None => None
             case Some(server) =>
               match site.decode(token, server.1)
               case None => None
               case Some(payload) => Some(AuthContext(payload["scope" := "bbb"]["sub" := server.0])))
          case None =>
            match site.decode(token, site.secret)
            case None => None
            case Some(payload) => Some(AuthContext(payload))
  }

  /** A token carrying a key id authenticates the server of that domain,
      whatever it claims: its only scope is "bbb" and its subject is the
      server's domain. */
  lemma ServerTokenScope(headers: map<string, string>, site: TokenSite)
    requires FromRequest(headers, site).Some?
    requires KeyId(site, Words(headers["authorization"])[1]).Some?
    ensures var auth := FromRequest(headers, site).value;
      && Scopes(auth) == {"bbb"}
      && auth.claims["sub"] == site.findServer(KeyId(site, Words(headers["authorization"])[1]).value).value.0
      && HasScope(auth, ["rec", "rec:upload", "bbb"])
  {
    var auth := FromRequest(headers, site).value;
    assert auth.claims["scope"] == "bbb";
    assert Words("bbb") == ["bbb"] by {
      WordsJoin(["bbb"]);
      assert Join(["bbb"], ' ') == "bbb";
    }
    assert Scopes(auth) == {"bbb"} by {
      var ws := Words("bbb");
      assert (set i | 0 <= i < |ws| :: ws[i]) == {"bbb"} by {
        assert ws[0] == "bbb";
      }
    }
    assert ["rec", "rec:upload", "bbb"][2] == "bbb";
  }

  /** A missing or empty Authorization header, or a scheme other than
      bearer, authenticates nobody. */
  lemma NoBearerNoAuth(headers: map<string, string>, site: TokenSite)
    requires "authorization" !in headers || |Words(headers["authorization"])| != 2
      || Lower(Words(headers["authorization"])[0]) != "bearer"
    ensures FromRequest(headers, site).None?
  {
  }

  // ---------------------------------------------------------------------
  // Recording upload

  const UploadScopes := ["rec", "rec:upload", "bbb"]

  /** `handle_recording_upload`: authorisation first, then the media type,
      then the import, started with the optional `tenant` query parameter;
      `startImport` gives the import id or the error message. A request
      without a content-type header raises KeyError. */
  function Upload(auth: Option<AuthContext>, headers: map<string, string>, query: map<string, string>,
                  startImport: Option<string> -> Result<string, string>): (r: Handled)
    ensures r.Answer? && r.reply.status == 401 <==> auth.None? || !HasScope(auth.value, UploadScopes)
    ensures r.Raised? <==> auth.Some? && HasScope(auth.value, UploadScopes) && "content-type" !in headers
    ensures r.Answer? && r.reply.status == 415 <==>
      auth.Some? && HasScope(auth.value, UploadScopes) && "content-type" in headers && headers["content-type"] != "application/x-tar"
    ensures r.Answer? && r.reply.status == 415 ==> r.reply.headers == map["Accept-Post" := "application/x-tar"]
    ensures var forced := if "tenant" in query then Some(query["tenant"]) else None;
      && (r.Answer? && r.reply.status == 202 <==>
            auth.Some? && HasScope(auth.value, UploadScopes) && "content-type" in headers
            && headers["content-type"] == "application/x-tar" && startImport(forced).Ok?)
      && (r.Answer? && r.reply.status == 202 ==> "importId" in r.reply.fields && r.reply.fields["importId"] == startImport(forced).value)
      && (r.Answer? && r.reply.status == 500 <==>
            auth.Some? && HasScope(auth.value, UploadScopes) && "content-type" in headers
            && headers["content-type"] == "application/x-tar" && startImport(forced).Err?)
  {
    if auth.None? || !HasScope(auth.value, UploadScopes) then
      Answer(Reply(401, map["error" := "Access denied", "message" := "This API is protected"], map[]))
    else if "content-type" !in headers then Raised
    else
      var ctype := headers["content-type"];
      if ctype != "application/x-tar" then
        Answer(Reply(415, map["error" := "Unsupported Media Type", "message" := "Expected application/x-tar, got " + ctype],
          map["Accept-Post" := "application/x-tar"]))
      else
        var forced := if "tenant" in query then Some(query["tenant"]) else None;
        match startImport(forced)
        case Ok(id) => Answer(Reply(202, map["message" := "Import accepted", "importId" := id], map[]))
        case Err(message) => Answer(Reply(500, map["error" := "Import failed", "message" := message], map[]))
  }

  /** Every server token may upload, whatever its claims. */
  lemma ServerTokenMayUpload(headers: map<string, string>, site: TokenSite, uheaders: map<string, string>,
                             query: map<string, string>, startImport: Option<string> -> Result<string, string>)
    requires FromRequest(headers, site).Some?
    requires KeyId(site, Words(headers["authorization"])[1]).Some?
    ensures var r := Upload(FromRequest(headers, site), uheaders, query, startImport); !(r.Answer? && r.reply.status == 401)
  {
    ServerTokenScope(headers, site);
  }
}
