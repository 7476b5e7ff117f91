/** The request side of the proxied BigBlueButton API (bbblb/web/bbbapi.py):
    response conversion, meeting-ID rewriting in replies, the bounded body
    reader, parameter lookup, callback interception, the create flow, the
    getRecordings parameter rules and the updateRecordings metadata merge.
    Checksums, the back-end client and URL building are parameters. */
module BbbApi {
  import opened Base
  import opened Model

  // ---------------------------------------------------------------------
  // Errors and the conversion done by the `api` decorator

  /** An error made by `make_error(key, message[, status])`; None is the
      default status of make_error, whose value is not part of this model. */
  datatype ApiError = ApiError(key: string, message: string, status: Option<int>)

  /** A BBBResponse: a back-end (or locally built) reply, or an error. */
  datatype BBBResponse =
    | Reply(xml: Option<string>, json: string, status: int)
    | Failure(error: ApiError)

  /** What a handler returned: a BBBResponse, an XML tree, a dict, or anything else. */
  datatype HandlerValue = Response(r: BBBResponse) | Tree(xml: string) | Dict(json: string) | OtherValue(v: string)

  /** How a handler finished: it returned, raised a BBBError, or raised some
      other subclass of `Exception` (the only exceptions the wrapper catches;
      `BaseException`s such as cancellation pass through and are not modelled). */
  datatype HandlerOutcome = Returned(value: HandlerValue) | RaisedBBBError(e: BBBResponse) | RaisedOther(repr: string)

  /** What the wrapper hands to the web framework. */
  datatype HttpReply =
    | XmlReply(xml: string, status: int)
    | ErrorReply(error: ApiError)
    | JsonReply(json: string, status: int)
    | Unconverted(value: HandlerValue)

  function Render(r: BBBResponse): (out: HttpReply)
    ensures out.ErrorReply? <==> r.Failure?
    ensures r.Failure? ==> out.error == r.error
    ensures r.Reply? ==> (out.XmlReply? <==> r.xml.Some?) && (out.XmlReply? || out.JsonReply?) && out.status == r.status
    ensures out.XmlReply? ==> out.xml == r.xml.value
    ensures out.JsonReply? ==> out.json == r.json
  {
    match r
    case Failure(e) => ErrorReply(e)
    case Reply(xml, json, status) => if xml.Some? then XmlReply(xml.value, status) else JsonReply(json, status)
  }

  /** The `api` decorator: BBB errors are answered like responses, any other
      exception becomes internalError with status 500, XML trees and dicts
      are answered with status 200, and anything else is passed on. */
  function Convert(outcome: HandlerOutcome): (r: HttpReply)
    ensures r.Unconverted? <==> outcome.Returned? && outcome.value.OtherValue?
    ensures r.Unconverted? ==> r.value == outcome.value
    ensures outcome.RaisedOther? ==> r == ErrorReply(ApiError("internalError", outcome.repr, Some(500)))
    ensures outcome.RaisedBBBError? ==> r == Render(outcome.e)
    ensures outcome.Returned? && (outcome.value.Tree? || outcome.value.Dict?) ==> r.XmlReply? || r.JsonReply?
    ensures (r.XmlReply? || r.JsonReply?) && !(outcome.Returned? && outcome.value.Response?) && !outcome.RaisedBBBError? ==> r.status == 200
    ensures outcome.Returned? && outcome.value.Response? ==> r == Render(outcome.value.r)
    ensures outcome.Returned? && outcome.value.Tree? ==> r == XmlReply(outcome.value.xml, 200)
    ensures outcome.Returned? && outcome.value.Dict? ==> r == JsonReply(outcome.value.json, 200)
  {
    var out := match outcome
      case Returned(v) => v
      case RaisedBBBError(e) => Response(e)
      case RaisedOther(repr) => Response(Failure(ApiError("internalError", repr, Some(500))));
    match out
    case Response(resp) => Render(resp)
    case Tree(xml) => XmlReply(xml, 200)
    case Dict(json) => JsonReply(json, 200)
    case OtherValue(_) => Unconverted(out)
  }

  // ---------------------------------------------------------------------
  // xml_fix_meeting_id

  /** An element of a reply, in document order; the tree shape is irrelevant here. */
  datatype XmlNode = XmlNode(tag: string, text: Option<string>)

  predicate IsMeetingIdTag(tag: string) {
    tag == "meetingID" || tag == "meetingId"
  }

  function FixedNode(n: XmlNode, search: string, replace: string): XmlNode {
    if IsMeetingIdTag(n.tag) && n.text == Some(search) then n.(text := Some(replace)) else n
  }

  /** Every meetingID/meetingId element whose text is `search` now reads `replace`. */
  function FixedNodes(nodes: seq<XmlNode>, search: string, replace: string): (r: seq<XmlNode>)
    ensures |r| == |nodes|
    ensures forall i :: 0 <= i < |nodes| ==> r[i] == FixedNode(nodes[i], search, replace)
  {
    seq(|nodes|, i requires 0 <= i < |nodes| => FixedNode(nodes[i], search, replace))
  }

  /** Only meeting-ID elements with the searched text change, and they get
      the replacement; tags never change. */
  lemma FixTouchesOnlyMatches(nodes: seq<XmlNode>, search: string, replace: string)
    ensures forall i :: 0 <= i < |nodes| ==> FixedNodes(nodes, search, replace)[i].tag == nodes[i].tag
    ensures forall i :: 0 <= i < |nodes| && FixedNodes(nodes, search, replace)[i] != nodes[i] ==>
      IsMeetingIdTag(nodes[i].tag) && nodes[i].text == Some(search) && FixedNodes(nodes, search, replace)[i].text == Some(replace)
    ensures forall i :: 0 <= i < |nodes| && IsMeetingIdTag(nodes[i].tag) && nodes[i].text == Some(search) ==>
      FixedNodes(nodes, search, replace)[i].text == Some(replace)
  {
  }

  /** Rewriting twice is rewriting once, when search and replacement differ. */
  lemma FixIdempotent(nodes: seq<XmlNode>, search: string, replace: string)
    requires search != replace
    ensures FixedNodes(FixedNodes(nodes, search, replace), search, replace) == FixedNodes(nodes, search, replace)
  {
    var once := FixedNodes(nodes, search, replace);
    assert forall i :: 0 <= i < |once| ==> FixedNode(once[i], search, replace) == once[i];
  }

  /** Rewriting back undoes a rewrite, unless an element already carried the replacement. */
  lemma FixReversible(nodes: seq<XmlNode>, search: string, replace: string)
    requires forall i :: 0 <= i < |nodes| && IsMeetingIdTag(nodes[i].tag) ==> nodes[i].text != Some(replace)
    ensures FixedNodes(FixedNodes(nodes, search, replace), replace, search) == nodes
  {
    var back := FixedNodes(FixedNodes(nodes, search, replace), replace, search);
    assert forall i :: 0 <= i < |nodes| ==> back[i] == nodes[i];
  }

  /** `xml_fix_meeting_id`, in place over the elements of a reply. */
  method FixMeetingId(nodes: array<XmlNode>, search: string, replace: string)
    modifies nodes
    ensures nodes[..] == FixedNodes(old(nodes[..]), search, replace)
  {
    var i := 0;
    while i < nodes.Length
      invariant 0 <= i <= nodes.Length
      invariant forall j :: 0 <= j < i ==> nodes[j] == FixedNode(old(nodes[j]), search, replace)
      invariant forall j :: i <= j < nodes.Length ==> nodes[j] == old(nodes[j])
    {
      if IsMeetingIdTag(nodes[i].tag) && nodes[i].text == Some(search) {
        nodes[i] := nodes[i].(text := Some(replace));
      }
      i := i + 1;
    }
  }

  // ---------------------------------------------------------------------
  // read_body

  function Concat(chunks: seq<seq<byte>>): seq<byte>
    decreases |chunks|
  {
    if chunks == [] then [] else Concat(chunks[..|chunks| - 1]) + chunks[|chunks| - 1]
  }

  /** A prefix of the stream is never longer than the whole stream. */
  lemma {:induction false} ConcatPrefixShorter(chunks: seq<seq<byte>>, i: nat)
    requires i <= |chunks|
    ensures |Concat(chunks[..i])| <= |Concat(chunks)|
    decreases |chunks| - i
  {
    if i < |chunks| {
      ConcatPrefixShorter(chunks, i + 1);
      assert chunks[..i + 1][..i] == chunks[..i];
    } else {
      assert chunks[..i] == chunks;
    }
  }

  datatype BodyError =
    | NotPost     // TypeError, answered as internalError by the wrapper
    | TooLarge    // clientError with status 413

  /** The request of one API call: its method, the chunks of its body stream
      and the body cached by the first successful read. */
  class ApiRequest {
    const isPost: bool
    const chunks: seq<seq<byte>>
    var body: Option<seq<byte>>

    constructor (isPost: bool, chunks: seq<seq<byte>>)
      ensures this.isPost == isPost && this.chunks == chunks && body == None
    {
      this.isPost := isPost;
      this.chunks := chunks;
      body := None;
    }

    /** `read_body`: the whole stream, refused as soon as it grows past
        maxBody. The length is checked after each chunk, so a stream without
        chunks is accepted whatever the limit. */
    method ReadBody(maxBody: int) returns (r: Result<seq<byte>, BodyError>)
      modifies this`body
      ensures old(body).Some? ==> r == Ok(old(body).value) && body == old(body)
      ensures old(body).None? && !isPost ==> r == Err(NotPost) && body == None
      ensures old(body).None? && isPost ==> (r.Ok? <==> chunks == [] || |Concat(chunks)| <= maxBody)
      ensures old(body).None? && isPost && r.Ok? ==> r.value == Concat(chunks) && body == Some(r.value)
      ensures old(body).None? && isPost && r.Err? ==> r.error == TooLarge && body == None
    {
      if body.Some? {
        return Ok(body.value);
      }
      if !isPost {
        return Err(NotPost);
      }
      var acc: seq<byte> := [];
      var i := 0;
      while i < |chunks|
        invariant 0 <= i <= |chunks|
        invariant acc == Concat(chunks[..i]) && (i == 0 || |acc| <= maxBody)
      {
        assert chunks[..i + 1][..i] == chunks[..i];
        acc := acc + chunks[i];
        i := i + 1;
        if |acc| > maxBody {
          ConcatPrefixShorter(chunks, i);
          return Err(TooLarge);
        }
      }
      assert chunks[..i] == chunks;
      body := Some(acc);
      return Ok(acc);
    }
  }

  // ---------------------------------------------------------------------
  // require_param

  /** The error key for a missing parameter: its name with the first letter upper-cased. */
  function MissingKey(name: string): (r: string)
    requires name != []
    ensures StartsWith(r, "missingParameter") && |r| == 16 + |name|
    ensures r[16] == UpperChar(name[0]) && r[17..] == name[1..]
  {
    "missingParameter" + [UpperChar(name[0])] + name[1..]
  }

  /** The parameter name can be read back from its error key when it does not
      start with an upper-case ASCII letter. */
  lemma MissingKeyNamesParameter(name: string)
    requires name != [] && !('A' <= name[0] <= 'Z')
    ensures StartsWith(MissingKey(name), "missingParameter")
    ensures var key := MissingKey(name); [LowerChar(key[16])] + key[17..] == name
  {
    var key := MissingKey(name);
    assert key[16] == UpperChar(name[0]);
    assert key[17..] == name[1..];
  }

  /** The missingParameter error of a required parameter. */
  function MissingError(name: string): ApiError
    requires name != []
  {
    ApiError(MissingKey(name), "Missing ir invalid parameter " + name + ".", None)
  }

  datatype ParamError =
    | Missing(error: ApiError)
    | EmptyName    // IndexError on name[0], answered as internalError

  /** `require_param(name, default, type)`: the converted parameter, else the
      default when there is one, else a missingParameter error. `convert`
      returns None where the conversion raises ValueError. */
  function RequireParam<R>(query: map<string, string>, name: string, default: Option<R>, convert: string -> Option<R>): (r: Result<R, ParamError>)
    ensures name in query && convert(query[name]).Some? ==> r == Ok(convert(query[name]).value)
    ensures !(name in query && convert(query[name]).Some?) && default.Some? ==> r == Ok(default.value)
    ensures r.Err? <==> !(name in query && convert(query[name]).Some?) && default.None?
    ensures r.Err? && name != [] ==> r.error == Missing(MissingError(name))
    ensures r.Err? && name == [] ==> r.error == EmptyName
  {
    if name in query && convert(query[name]).Some? then Ok(convert(query[name]).value)
    else if default.Some? then Ok(default.value)
    else if name == [] then Err(EmptyName)
    else Err(Missing(MissingError(name)))
  }

  function AsString(s: string): Option<string> {
    Some(s)
  }

  /** A string parameter with a default: "" counts as a default, so this never fails. */
  function StringParam(query: map<string, string>, name: string, default: string): (r: string)
    ensures name in query ==> r == query[name]
    ensures name !in query ==> r == default
  {
    RequireParam(query, name, Some(default), AsString).value
  }

  /** An integer parameter with a default: missing values and values `int()`
      rejects give the default. */
  function IntParam(query: map<string, string>, name: string, default: int): (r: int)
    ensures name in query && ParseInt(query[name]).Some? ==> r == ParseInt(query[name]).value
    ensures !(name in query && ParseInt(query[name]).Some?) ==> r == default
  {
    RequireParam(query, name, Some(default), ParseInt).value
  }

  /** A number given back as text in the query reads as that number. */
  lemma IntParamOfString(query: map<string, string>, name: string, n: int, default: int)
    ensures IntParam(query[name := IntString(n)], name, default) == n
  {
    ParseIntString(n);
  }
  // ---------------------------------------------------------------------
  // _intercept_callbacks

  const EndedUrlKey := "meetingEndedURL"
  const AnalyticsKey := "meta_analytics-callback-url"

  /** The callback type of the analytics key: the key without "meta_" and
      its last 14 characters, which is "analytic". */
  const AnalyticsType := AnalyticsKey[5..|AnalyticsKey| - 14]

  predicate IsRecordingReadyKey(k: string) {
    StartsWith(k, "meta_") && EndsWith(k, "-recording-ready-url")
  }

  /** The parameters the interception removes or replaces. */
  predicate IsIntercepted(k: string) {
    k == EndedUrlKey || k == AnalyticsKey || IsRecordingReadyKey(k)
  }

  /** The string the end-callback URL signs. */
  function EndSignatureMessage(uuid: string): string {
    "bbblb:callback:end:" + uuid
  }

  /** The hex HMAC of the end-callback message; `mac` plays HMAC-SHA256 and
      `secret` the UTF-8 bytes of the configured secret. */
  function EndSignature(mac: (seq<byte>, seq<byte>) -> seq<byte>, secret: seq<byte>, uuid: string): (r: string)
    requires IsAscii(uuid)
    ensures |r| == 2 * |mac(secret, AsciiEncode(EndSignatureMessage(uuid)).value)|
  {
    assert IsAscii(EndSignatureMessage(uuid)) by {
      var m := EndSignatureMessage(uuid);
      assert forall i :: 19 <= i < |m| ==> m[i] == uuid[i - 19];
    }
    Hex(mac(secret, AsciiEncode(EndSignatureMessage(uuid)).value))
  }

  /** The dependencies of the interception that live outside this file. */
  datatype CallbackSite = CallbackSite(
    mac: (seq<byte>, seq<byte>) -> seq<byte>,
    secret: seq<byte>,
    endUrl: (string, string) -> string,     // url_for("bbblb:callback_end", uuid, sig)
    proxyUrl: (string, string) -> string)   // url_for("bbblb:callback_proxy", uuid, type)

  function MakeCallback(m: Meeting, tenant: string, kind: string, forward: string): Callback {
    Callback(m.uuid, kind, tenant, m.server, forward)
  }

  /** The REC callbacks of the recording-ready keys, in the order of `keys`. */
  function RecCallbacks(params: map<string, string>, keys: seq<string>, m: Meeting, tenant: string): (r: seq<Callback>)
    requires forall i :: 0 <= i < |keys| ==> keys[i] in params
    ensures forall i :: 0 <= i < |r| ==> r[i].kind == CallbackTypeRec && r[i].uuid == m.uuid
    ensures forall i :: 0 <= i < |r| ==> r[i].tenant == tenant && r[i].server == m.server
    decreases |keys|
  {
    if keys == [] then []
    else
      var init := keys[..|keys| - 1];
      var k := keys[|keys| - 1];
      RecCallbacks(params, init, m, tenant) + (if IsRecordingReadyKey(k) then [MakeCallback(m, tenant, CallbackTypeRec, params[k])] else [])
  }

  /** The callbacks a new meeting registers: END for a non-empty original
      meetingEndedURL, REC for every recording-ready key (even an empty one),
      and an analytics callback for a non-empty analytics URL. */
  function NewCallbacks(params: map<string, string>, keys: seq<string>, m: Meeting, tenant: string): (r: seq<Callback>)
    requires forall i :: 0 <= i < |keys| ==> keys[i] in params
    ensures forall i :: 0 <= i < |r| ==> r[i].uuid == m.uuid && r[i].tenant == tenant && r[i].server == m.server
    ensures (exists i :: 0 <= i < |r| && r[i].kind == CallbackTypeEnd) <==> EndedUrlKey in params && params[EndedUrlKey] != ""
  {
    var ends := if EndedUrlKey in params && params[EndedUrlKey] != "" then [MakeCallback(m, tenant, CallbackTypeEnd, params[EndedUrlKey])] else [];
    var recs := RecCallbacks(params, keys, m, tenant);
    var analytics := if AnalyticsKey in params && params[AnalyticsKey] != "" then [MakeCallback(m, tenant, AnalyticsType, params[AnalyticsKey])] else [];
    var r := ends + recs + analytics;
    assert forall i :: |ends| <= i < |r| ==> r[i].kind != CallbackTypeEnd by {
      assert |AnalyticsType| == 8 && CallbackTypeRec != CallbackTypeEnd;
      forall i | |ends| <= i < |r|
        ensures r[i].kind != CallbackTypeEnd
      {
        if i < |ends| + |recs| {
          assert r[i] == recs[i - |ends|];
        } else {
          assert r[i] == analytics[i - |ends| - |recs|];
        }
      }
    }
    assert ends != [] ==> r[0] == ends[0] && ends[0].kind == CallbackTypeEnd;
    r
  }

  lemma {:induction false} RecCallbacksOnKeys(p1: map<string, string>, p2: map<string, string>, keys: seq<string>, m: Meeting, tenant: string)
    requires forall i :: 0 <= i < |keys| ==> keys[i] in p1 && keys[i] in p2 && p1[keys[i]] == p2[keys[i]]
    ensures RecCallbacks(p1, keys, m, tenant) == RecCallbacks(p2, keys, m, tenant)
    decreases |keys|
  {
    if keys != [] {
      RecCallbacksOnKeys(p1, p2, keys[..|keys| - 1], m, tenant);
    }
  }

  /** `params` without the entries named in `keys`. */
  function Without(params: map<string, string>, keys: seq<string>): (r: map<string, string>)
    ensures forall k :: k in r <==> k in params && k !in keys
    ensures forall k :: k in r ==> r[k] == params[k]
  {
    map k | k in params && k !in keys :: params[k]
  }

  /** Removing one more key. */
  lemma WithoutStep(params: map<string, string>, keys: seq<string>, i: nat)
    requires i < |keys|
    ensures Without(params, keys[..i + 1]) == Without(params, keys[..i]) - {keys[i]}
  {
    assert keys[..i + 1] == keys[..i] + [keys[i]];
  }

  /** The loop of `_intercept_callbacks` that pops the recording-ready keys. */
  method PopRecordingReady(params: map<string, string>, keys: seq<string>, m: Meeting, tenant: string, isNew: bool)
    returns (out: map<string, string>, callbacks: seq<Callback>)
    requires forall i :: 0 <= i < |keys| ==> keys[i] in params && IsRecordingReadyKey(keys[i])
    requires forall i, j :: 0 <= i < j < |keys| ==> keys[i] != keys[j]
    ensures out == Without(params, keys)
    ensures callbacks == if isNew then RecCallbacks(params, keys, m, tenant) else []
  {
    out, callbacks := params, [];
    var i := 0;
    while i < |keys|
      invariant 0 <= i <= |keys|
      invariant out == Without(params, keys[..i])
      invariant callbacks == if isNew then RecCallbacks(params, keys[..i], m, tenant) else []
    {
      var k := keys[i];
      assert keys[..i + 1][..i] == keys[..i];
      assert k !in keys[..i];
      WithoutStep(params, keys, i);
      assert RecCallbacks(params, keys[..i + 1], m, tenant) ==
        RecCallbacks(params, keys[..i], m, tenant) + [MakeCallback(m, tenant, CallbackTypeRec, params[k])];
      if IsRecordingReadyKey(k) {
        var url := out[k];
        out := out - {k};
        if isNew {
          callbacks := callbacks + [MakeCallback(m, tenant, CallbackTypeRec, url)];
        }
      }
      i := i + 1;
    }
    assert keys[..|keys|] == keys;
  }

  /** The first step of `_intercept_callbacks`: meetingEndedURL is replaced
      by the signed local URL, and a non-empty original is remembered as an
      END callback of a new meeting. */
  method ReplaceEndUrl(params: map<string, string>, m: Meeting, tenant: string, isNew: bool, site: CallbackSite)
    returns (out: map<string, string>, callbacks: seq<Callback>)
    requires IsAscii(m.uuid)
    ensures out == params[EndedUrlKey := site.endUrl(m.uuid, EndSignature(site.mac, site.secret, m.uuid))]
    ensures callbacks == if isNew && EndedUrlKey in params && params[EndedUrlKey] != ""
      then [MakeCallback(m, tenant, CallbackTypeEnd, params[EndedUrlKey])] else []
  {
    callbacks := [];
    var orig := if EndedUrlKey in params then params[EndedUrlKey] else "";
    if orig != "" && isNew {
      callbacks := [MakeCallback(m, tenant, CallbackTypeEnd, orig)];
    }
    var sig := EndSignature(site.mac, site.secret, m.uuid);
    out := (params - {EndedUrlKey})[EndedUrlKey := site.endUrl(m.uuid, sig)];
  }

  /** The last step of `_intercept_callbacks`: a non-empty analytics URL is
      replaced by the proxy URL (and remembered for a new meeting), an empty
      one is dropped. */
  method ProxyAnalytics(params: map<string, string>, m: Meeting, tenant: string, isNew: bool, site: CallbackSite)
    returns (out: map<string, string>, callbacks: seq<Callback>)
    ensures AnalyticsKey in params && params[AnalyticsKey] != "" ==>
      out == params[AnalyticsKey := site.proxyUrl(m.uuid, AnalyticsType)]
    ensures !(AnalyticsKey in params && params[AnalyticsKey] != "") ==> out == params - {AnalyticsKey}
    ensures callbacks == if isNew && AnalyticsKey in params && params[AnalyticsKey] != ""
      then [MakeCallback(m, tenant, AnalyticsType, params[AnalyticsKey])] else []
  {
    callbacks := [];
    var analytics := if AnalyticsKey in params then params[AnalyticsKey] else "";
    out := params - {AnalyticsKey};
    if analytics != "" {
      if isNew {
        callbacks := [MakeCallback(m, tenant, AnalyticsType, analytics)];
      }
      out := out[AnalyticsKey := site.proxyUrl(m.uuid, AnalyticsType)];
    }
  }

  /** The parameters `_intercept_callbacks` forwards, given the signed
      end-callback URL and the analytics proxy URL. */
  function InterceptedParams(params: map<string, string>, keys: seq<string>, endUrl: string, proxyUrl: string): (r: map<string, string>)
    ensures forall k :: k in keys ==> k !in r
    ensures AnalyticsKey in r ==> r[AnalyticsKey] == proxyUrl
    ensures EndedUrlKey !in keys ==> EndedUrlKey in r && r[EndedUrlKey] == endUrl
    ensures forall k :: k in params && k !in keys && k != EndedUrlKey && k != AnalyticsKey ==> k in r && r[k] == params[k]
  {
    var popped := Without(params[EndedUrlKey := endUrl], keys);
    if AnalyticsKey in popped && popped[AnalyticsKey] != "" then popped[AnalyticsKey := proxyUrl] else popped - {AnalyticsKey}
  }

  /** What the interception does to the parameters. */
  lemma InterceptedParamsFacts(params: map<string, string>, keys: seq<string>, endUrl: string, proxyUrl: string)
    requires forall i :: 0 <= i < |keys| ==> IsRecordingReadyKey(keys[i])
    requires forall k :: k in params && IsRecordingReadyKey(k) ==> k in keys
    ensures var popped, out := Without(params[EndedUrlKey := endUrl], keys), InterceptedParams(params, keys, endUrl, proxyUrl);
      && (AnalyticsKey in popped <==> AnalyticsKey in params)
      && (AnalyticsKey in popped ==> popped[AnalyticsKey] == params[AnalyticsKey])
      && EndedUrlKey in out && out[EndedUrlKey] == endUrl
      && (forall k :: k in out ==> !IsRecordingReadyKey(k))
      && (AnalyticsKey in out <==> AnalyticsKey in params && params[AnalyticsKey] != "")
      && (AnalyticsKey in out ==> out[AnalyticsKey] == proxyUrl)
      && (forall k :: k in params && !IsIntercepted(k) ==> k in out && out[k] == params[k])
      && (forall k :: k in out ==> k in params || k == EndedUrlKey)
  {
    assert !IsRecordingReadyKey(EndedUrlKey) && !IsRecordingReadyKey(AnalyticsKey) by {
      assert EndedUrlKey[0] == 'm' && EndedUrlKey[1] == 'e' && EndedUrlKey[2] == 'e';
      assert "meta_"[2] == 't';
      assert AnalyticsKey[|AnalyticsKey| - 20..] != "-recording-ready-url";
    }
    var popped := Without(params[EndedUrlKey := endUrl], keys);
    assert EndedUrlKey !in keys && AnalyticsKey !in keys;
    forall k | k in params && !IsIntercepted(k) ensures k in popped && popped[k] == params[k] {
      assert k !in keys;
    }
  }

  /** `_intercept_callbacks`: redirect every callback of the meeting to this
      load balancer and collect the callbacks to remember. `keys` lists the
      recording-ready keys among the parameters in dictionary order. */
  method InterceptCallbacks(params: map<string, string>, keys: seq<string>, m: Meeting, tenant: string, isNew: bool, site: CallbackSite)
    returns (out: map<string, string>, callbacks: seq<Callback>)
    requires IsAscii(m.uuid)
    requires forall i :: 0 <= i < |keys| ==> keys[i] in params && IsRecordingReadyKey(keys[i])
    requires forall k :: k in params && IsRecordingReadyKey(k) ==> k in keys
    requires forall i, j :: 0 <= i < j < |keys| ==> keys[i] != keys[j]
    ensures EndedUrlKey in out && out[EndedUrlKey] == site.endUrl(m.uuid, EndSignature(site.mac, site.secret, m.uuid))
    ensures forall k :: k in out ==> !IsRecordingReadyKey(k)
    ensures AnalyticsKey in out <==> AnalyticsKey in params && params[AnalyticsKey] != ""
    ensures AnalyticsKey in out ==> out[AnalyticsKey] == site.proxyUrl(m.uuid, AnalyticsType)
    ensures forall k :: k in params && !IsIntercepted(k) ==> k in out && out[k] == params[k]
    ensures forall k :: k in out ==> k in params || k == EndedUrlKey
    ensures callbacks == if isNew then NewCallbacks(params, keys, m, tenant) else []
  {
    ghost var endUrl := site.endUrl(m.uuid, EndSignature(site.mac, site.secret, m.uuid));
    ghost var proxyUrl := site.proxyUrl(m.uuid, AnalyticsType);
    var withEnd, ends := ReplaceEndUrl(params, m, tenant, isNew, site);
    var popped, recs := PopRecordingReady(withEnd, keys, m, tenant, isNew);
    RecCallbacksOnKeys(withEnd, params, keys, m, tenant);
    InterceptedParamsFacts(params, keys, endUrl, proxyUrl);
    var analytics;
    out, analytics := ProxyAnalytics(popped, m, tenant, isNew, site);
    assert out == InterceptedParams(params, keys, endUrl, proxyUrl);
    callbacks := ends + recs + analytics;
  }

  /** `meta[5:-14]` of the analytics key. */
  lemma AnalyticsTypeIsAnalytic()
    ensures AnalyticsType == "analytic"
  {
    assert AnalyticsKey == "meta_" + "analytic" + "s-callback-url";
    assert |AnalyticsKey| - 14 == 13;
    assert AnalyticsKey[5..13] == "analytic";
  }

  // ---------------------------------------------------------------------
  // handle_create

  /** The answer of the back-end to a create call. */
  datatype CreateReply = CreateReply(internalId: string, xml: seq<XmlNode>)

  /** The settings and collaborators of the create call: the meeting-ID length
      limit, the two load factors, this load balancer's domain, the scoping
      function `add_scope`, the callback site, and the back-end, which maps
      a server domain and the forwarded parameters to its answer. */
  datatype CreateConfig = CreateConfig(
    maxMeetingIdLen: int, loadInitial: real, loadMeeting: real, domain: string,
    addScope: (string, string) -> string, site: CallbackSite,
    backend: (string, map<string, string>) -> Result<CreateReply, ApiError>)

  function ServerLoads(servers: seq<Server>): (r: seq<real>)
    reads servers
    ensures |r| == |servers| && forall i :: 0 <= i < |servers| ==> r[i] == servers[i].load
  {
    seq(|servers|, i reads servers requires 0 <= i < |servers| => servers[i].load)
  }

  function SizeErrorMessage(scoped: string, unscoped: string, maxLen: int): string {
    "Meeting ID must be between 2 and " + IntString(maxLen - (|scoped| - |unscoped|)) + " characters"
  }

  const NoServerError := ApiError("internalError", "No suitable servers available.", None)

  /** The parameters set on every call that placed a meeting. */
  function PlacedParams(params: map<string, string>, scoped: string, m: Meeting, tenant: string, domain: string): map<string, string> {
    params["meetingID" := scoped]["meta_bbblb-uuid" := m.uuid]["meta_bbblb-origin" := domain]
      ["meta_bbblb-tenant" := tenant]["meta_bbblb-server" := m.server]
  }

  /** The answer passed to the client: the back-end's, with the scoped meeting ID
      replaced by the client's own. */
  function ClientReply(reply: Result<CreateReply, ApiError>, scoped: string, unscoped: string): Result<seq<XmlNode>, ApiError> {
    match reply
    case Ok(rep) => Ok(FixedNodes(rep.xml, scoped, unscoped))
    case Err(e) => Err(e)
  }

  predicate RecordingReadyKeysOf(params: map<string, string>, keys: seq<string>) {
    && (forall i :: 0 <= i < |keys| ==> keys[i] in params && IsRecordingReadyKey(keys[i]))
    && (forall k :: k in params && IsRecordingReadyKey(k) ==> k in keys)
    && (forall i, j :: 0 <= i < j < |keys| ==> keys[i] != keys[j])
  }

  lemma PlacedParamsKeepRecordingReadyKeys(params: map<string, string>, keys: seq<string>, scoped: string, m: Meeting, tenant: string, domain: string)
    requires RecordingReadyKeysOf(params, keys)
    ensures RecordingReadyKeysOf(PlacedParams(params, scoped, m, tenant, domain), keys)
  {
    assert !IsRecordingReadyKey("meetingID") by { assert "meetingID"[2] == 'e' && "meta_"[2] == 't'; }
  }

  lemma PlacedKeysNotIntercepted()
    ensures !IsIntercepted("meetingID") && !IsIntercepted("meta_bbblb-uuid") && !IsIntercepted("meta_bbblb-origin")
    ensures !IsIntercepted("meta_bbblb-tenant") && !IsIntercepted("meta_bbblb-server")
  {
    assert "meetingID"[2] == 'e' && "meta_"[2] == 't';
    assert "meetingID"[1] == 'e' && EndedUrlKey[1] == 'e' && "meetingID"[7] == 'I' && EndedUrlKey[7] == 'E';
    
  }

  /** The parameters forwarded for a meeting this call placed: the scoped
      meeting ID, the bbblb metadata, the signed end-callback URL and no
      recording-ready URL. */
  predicate ForwardsPlaced(out: map<string, string>, scoped: string, m: Meeting, tenant: string, cfg: CreateConfig)
    requires IsAscii(m.uuid)
  {
    && "meetingID" in out && out["meetingID"] == scoped
    && "meta_bbblb-uuid" in out && out["meta_bbblb-uuid"] == m.uuid
    && "meta_bbblb-origin" in out && out["meta_bbblb-origin"] == cfg.domain
    && "meta_bbblb-tenant" in out && out["meta_bbblb-tenant"] == tenant
    && "meta_bbblb-server" in out && out["meta_bbblb-server"] == m.server
    && EndedUrlKey in out && out[EndedUrlKey] == cfg.site.endUrl(m.uuid, EndSignature(cfg.site.mac, cfg.site.secret, m.uuid))
    && (forall k :: k in out ==> !IsRecordingReadyKey(k))
  }

  lemma PlacedParamsValues(params: map<string, string>, scoped: string, m: Meeting, tenant: string, domain: string)
    ensures var p := PlacedParams(params, scoped, m, tenant, domain);
      && "meetingID" in p && p["meetingID"] == scoped
      && "meta_bbblb-uuid" in p && p["meta_bbblb-uuid"] == m.uuid
      && "meta_bbblb-origin" in p && p["meta_bbblb-origin"] == domain
      && "meta_bbblb-tenant" in p && p["meta_bbblb-tenant"] == tenant
      && "meta_bbblb-server" in p && p["meta_bbblb-server"] == m.server
  {
    assert "meetingID" != "meta_bbblb-uuid" by { assert "meetingID"[2] != "meta_bbblb-uuid"[2]; }
    assert "meetingID" != "meta_bbblb-origin" by { assert "meetingID"[2] != "meta_bbblb-origin"[2]; }
    assert "meetingID" != "meta_bbblb-tenant" by { assert "meetingID"[2] != "meta_bbblb-tenant"[2]; }
    assert "meetingID" != "meta_bbblb-server" by { assert "meetingID"[2] != "meta_bbblb-server"[2]; }
    assert "meta_bbblb-uuid" != "meta_bbblb-origin" by { assert "meta_bbblb-uuid"[11] != "meta_bbblb-origin"[11]; }
    assert "meta_bbblb-uuid" != "meta_bbblb-tenant" by { assert "meta_bbblb-uuid"[11] != "meta_bbblb-tenant"[11]; }
    assert "meta_bbblb-uuid" != "meta_bbblb-server" by { assert "meta_bbblb-uuid"[11] != "meta_bbblb-server"[11]; }
    assert "meta_bbblb-origin" != "meta_bbblb-tenant" by { assert "meta_bbblb-origin"[11] != "meta_bbblb-tenant"[11]; }
    assert "meta_bbblb-origin" != "meta_bbblb-server" by { assert "meta_bbblb-origin"[11] != "meta_bbblb-server"[11]; }
    assert "meta_bbblb-tenant" != "meta_bbblb-server" by { assert "meta_bbblb-tenant"[11] != "meta_bbblb-server"[11]; }
  }

  /** Phase one of `handle_create` for a meeting not yet in the table: insert
      it on `server` (or take the row a racing request inserted), add the
      load, rewrite the parameters and store the callbacks of a new meeting. */
  method PlaceMeeting(store: Store, server: Server, key: MeetingKey, scoped: string, params: map<string, string>, recKeys: seq<string>,
                      cfg: CreateConfig, newUuid: string, racer: Option<Meeting>)
    returns (m: Meeting, created: bool, out: map<string, string>, callbacks: seq<Callback>)
    requires key !in store.meetings
    requires IsAscii(newUuid) && (racer.Some? ==> IsAscii(racer.value.uuid))
    requires RecordingReadyKeysOf(params, recKeys)
    modifies server`load, store`meetings, store`callbacks
    ensures created <==> racer.None?
    ensures m == if created then Meeting(newUuid, None, server.domain) else racer.value
    ensures server.load == old(server.load) + if created then cfg.loadInitial + cfg.loadMeeting else 0.0
    ensures store.meetings == old(store.meetings)[key := m]
    ensures callbacks == if created then NewCallbacks(PlacedParams(params, scoped, m, key.tenant, cfg.domain), recKeys, m, key.tenant) else []
    ensures store.callbacks == old(store.callbacks) + callbacks
    ensures IsAscii(m.uuid) && ForwardsPlaced(out, scoped, m, key.tenant, cfg)
  {
    m, created := store.GetOrCreate(key, Meeting(newUuid, None, server.domain), racer);
    if created {
      // the UPDATE of the load commits together with the new meeting
      server.IncrementLoad(cfg.loadInitial + cfg.loadMeeting);
    }
    var placed := PlacedParams(params, scoped, m, key.tenant, cfg.domain);
    PlacedParamsKeepRecordingReadyKeys(params, recKeys, scoped, m, key.tenant, cfg.domain);
    PlacedKeysNotIntercepted();
    PlacedParamsValues(params, scoped, m, key.tenant, cfg.domain);
    out, callbacks := InterceptCallbacks(placed, recKeys, m, key.tenant, created, cfg.site);
    if created && callbacks != [] {
      store.callbacks := store.callbacks + callbacks;
    }
  }

  /** Phase two of `handle_create`: forward the call to the meeting's server;
      record the internal ID of a meeting this call created, or forget that
      meeting and its callbacks when the back-end fails. */
  method ForwardCreate(store: Store, key: MeetingKey, m: Meeting, created: bool, callbacks: seq<Callback>,
                       out: map<string, string>, scoped: string, unscoped: string, cfg: CreateConfig,
                       ghost meetingsBefore: map<MeetingKey, Meeting>, ghost callbacksBefore: seq<Callback>)
    returns (r: Result<seq<XmlNode>, ApiError>)
    requires created ==> key !in meetingsBefore && store.meetings == meetingsBefore[key := m]
    requires created ==> store.callbacks == callbacksBefore + callbacks
    modifies store`meetings, store`callbacks
    ensures r == ClientReply(cfg.backend(m.server, out), scoped, unscoped)
    ensures !created ==> store.meetings == old(store.meetings) && store.callbacks == old(store.callbacks)
    ensures created && r.Ok? ==>
      store.meetings == meetingsBefore[key := m.(internalId := Some(cfg.backend(m.server, out).value.internalId))]
      && store.callbacks == old(store.callbacks)
    ensures created && r.Err? ==> store.meetings == meetingsBefore && store.callbacks == callbacksBefore
  {
    var upstream := cfg.backend(m.server, out);
    match upstream {
      case Ok(reply) =>
        if created {
          store.meetings := store.meetings[key := m.(internalId := Some(reply.internalId))];
        }
        r := Ok(FixedNodes(reply.xml, scoped, unscoped));
      case Err(e) =>
        if created {
          assert store.callbacks[..|store.callbacks| - |callbacks|] == callbacksBefore;
          assert store.meetings - {key} == meetingsBefore;
          store.callbacks := store.callbacks[..|store.callbacks| - |callbacks|];
          store.meetings := store.meetings - {key};
        }
        r := Err(e);
    }
  }

  /** The parameter checks of `handle_create`: the unscoped meeting ID, or
      the error for a missing meetingID, a missing name or a scoped ID over
      the length limit, in that order. */
  function CreateParamCheck(params: map<string, string>, tenant: string, cfg: CreateConfig): (r: Result<string, ApiError>)
    ensures "meetingID" !in params ==> r == Err(MissingError("meetingID"))
    ensures "meetingID" in params && "name" !in params ==> r == Err(MissingError("name"))
    ensures "meetingID" in params && "name" in params && |cfg.addScope(params["meetingID"], tenant)| > cfg.maxMeetingIdLen ==>
      r == Err(ApiError("sizeError", SizeErrorMessage(cfg.addScope(params["meetingID"], tenant), params["meetingID"], cfg.maxMeetingIdLen), None))
    ensures r.Ok? <==> "meetingID" in params && "name" in params && |cfg.addScope(params["meetingID"], tenant)| <= cfg.maxMeetingIdLen
    ensures r.Ok? ==> r.value == params["meetingID"]
  {
    var unscopedR := RequireParam(params, "meetingID", None, AsString);
    if unscopedR.Err? then Err(unscopedR.error.error)
    else
      var unscoped := unscopedR.value;
      var scoped := cfg.addScope(unscoped, tenant);
      var nameR := RequireParam(params, "name", None, AsString);
      if nameR.Err? then Err(nameR.error.error)
      else if |scoped| > cfg.maxMeetingIdLen then Err(ApiError("sizeError", SizeErrorMessage(scoped, unscoped, cfg.maxMeetingIdLen), None))
      else Ok(unscoped)
  }

  /** `handle_create` for a meeting not in the table, placed on `server`:
      phase one and phase two. */
  method CreateOn(store: Store, servers: seq<Server>, server: Server, key: MeetingKey, params: map<string, string>, recKeys: seq<string>,
                  cfg: CreateConfig, newUuid: string, racer: Option<Meeting>)
    returns (r: Result<seq<XmlNode>, ApiError>, forwarded: map<string, string>)
    requires key !in store.meetings
    requires IsAscii(newUuid) && (racer.Some? ==> IsAscii(racer.value.uuid))
    requires RecordingReadyKeysOf(params, recKeys)
    modifies server`load, store`meetings, store`callbacks
    ensures forall i :: 0 <= i < |servers| ==> servers[i].State() == old(servers[i].State()) && servers[i].enabled == old(servers[i].enabled)
    ensures forall i :: 0 <= i < |servers| ==>
      servers[i].load == old(servers[i].load) + if racer.None? && servers[i] == server then cfg.loadInitial + cfg.loadMeeting else 0.0
    ensures var scoped := cfg.addScope(key.externalId, key.tenant);
      var created := racer.None?;
      var m := if created then Meeting(newUuid, None, server.domain) else racer.value;
      && IsAscii(m.uuid)
      && ForwardsPlaced(forwarded, scoped, m, key.tenant, cfg)
      && r == ClientReply(cfg.backend(m.server, forwarded), scoped, key.externalId)
      && (created && r.Ok? ==>
            && store.meetings == old(store.meetings)[key := m.(internalId := Some(cfg.backend(m.server, forwarded).value.internalId))]
            && store.callbacks == old(store.callbacks) + NewCallbacks(PlacedParams(params, scoped, m, key.tenant, cfg.domain), recKeys, m, key.tenant))
      && (created && r.Err? ==> store.meetings == old(store.meetings) && store.callbacks == old(store.callbacks))
      && (!created ==> store.meetings == old(store.meetings)[key := racer.value] && store.callbacks == old(store.callbacks))
  {
    var scoped := cfg.addScope(key.externalId, key.tenant);
    var meeting, created, newCallbacks;
    meeting, created, forwarded, newCallbacks := PlaceMeeting(store, server, key, scoped, params, recKeys, cfg, newUuid, racer);
    r := ForwardCreate(store, key, meeting, created, newCallbacks, forwarded, scoped, key.externalId, cfg,
                       old(store.meetings), old(store.callbacks));
  }

  /** `handle_create` for a meeting not in the table: the most loaded
      available server is chosen, or the call fails when there is none. */
  method CreateNew(store: Store, servers: seq<Server>, key: MeetingKey, params: map<string, string>, recKeys: seq<string>,
                   cfg: CreateConfig, newUuid: string, racer: Option<Meeting>)
    returns (r: Result<seq<XmlNode>, ApiError>, chosen: Option<Server>, forwarded: Option<map<string, string>>)
    requires key !in store.meetings
    requires IsAscii(newUuid) && (racer.Some? ==> IsAscii(racer.value.uuid))
    requires RecordingReadyKeysOf(params, recKeys)
    modifies servers, store`meetings, store`callbacks
    ensures forall i :: 0 <= i < |servers| ==> servers[i].State() == old(servers[i].State()) && servers[i].enabled == old(servers[i].enabled)
    ensures chosen == old(SelectBest(servers))
    ensures chosen.None? ==>
      && r == Err(NoServerError) && forwarded.None?
      && store.meetings == old(store.meetings) && store.callbacks == old(store.callbacks) && ServerLoads(servers) == old(ServerLoads(servers))
    ensures chosen.Some? ==>
      var scoped := cfg.addScope(key.externalId, key.tenant);
      var created := racer.None?;
      var m := if created then Meeting(newUuid, None, chosen.value.domain) else racer.value;
      && IsAscii(m.uuid)
      && (forall i :: 0 <= i < |servers| ==>
            servers[i].load == old(servers[i].load) + if created && servers[i] == chosen.value then cfg.loadInitial + cfg.loadMeeting else 0.0)
      && forwarded.Some? && ForwardsPlaced(forwarded.value, scoped, m, key.tenant, cfg)
      && r == ClientReply(cfg.backend(m.server, forwarded.value), scoped, key.externalId)
      && (created && r.Ok? ==>
            && store.meetings == old(store.meetings)[key := m.(internalId := Some(cfg.backend(m.server, forwarded.value).value.internalId))]
            && store.callbacks == old(store.callbacks) + NewCallbacks(PlacedParams(params, scoped, m, key.tenant, cfg.domain), recKeys, m, key.tenant))
      && (created && r.Err? ==> store.meetings == old(store.meetings) && store.callbacks == old(store.callbacks))
      && (!created ==> store.meetings == old(store.meetings)[key := racer.value] && store.callbacks == old(store.callbacks))
  {
    forwarded := None;
    chosen := SelectBest(servers);
    if chosen.None? {
      return Err(NoServerError), chosen, forwarded;
    }
    var out;
    r, out := CreateOn(store, servers, chosen.value, key, params, recKeys, cfg, newUuid, racer);
    forwarded := Some(out);
  }

  /** `handle_create` once the tenant and the checksum are verified. `racer`
      is a meeting another request created under the same key in the meantime.
      The load increment runs in the transaction that inserts the meeting, so
      it persists only when this call created the meeting; it is not undone
      when the back-end then fails. An existing meeting is forwarded with the
      parameters as they came. */
  method HandleCreate(store: Store, servers: seq<Server>, tenant: string, params: map<string, string>, recKeys: seq<string>,
                      cfg: CreateConfig, newUuid: string, racer: Option<Meeting>)
    returns (r: Result<seq<XmlNode>, ApiError>, chosen: Option<Server>, forwarded: Option<map<string, string>>)
    requires IsAscii(newUuid) && (racer.Some? ==> IsAscii(racer.value.uuid))
    requires RecordingReadyKeysOf(params, recKeys)
    modifies servers, store`meetings, store`callbacks
    ensures forall i :: 0 <= i < |servers| ==> servers[i].State() == old(servers[i].State()) && servers[i].enabled == old(servers[i].enabled)
    ensures CreateParamCheck(params, tenant, cfg).Err? ==>
      && r == Err(CreateParamCheck(params, tenant, cfg).error) && chosen.None? && forwarded.None?
      && store.meetings == old(store.meetings) && store.callbacks == old(store.callbacks) && ServerLoads(servers) == old(ServerLoads(servers))
    ensures CreateParamCheck(params, tenant, cfg).Ok? && MeetingKey(tenant, params["meetingID"]) in old(store.meetings) ==>
      var m := old(store.meetings)[MeetingKey(tenant, params["meetingID"])];
      && chosen.None? && forwarded == Some(params)
      && store.meetings == old(store.meetings) && store.callbacks == old(store.callbacks) && ServerLoads(servers) == old(ServerLoads(servers))
      && r == ClientReply(cfg.backend(m.server, params), cfg.addScope(params["meetingID"], tenant), params["meetingID"])
    ensures CreateParamCheck(params, tenant, cfg).Ok? && MeetingKey(tenant, params["meetingID"]) !in old(store.meetings) ==>
      chosen == old(SelectBest(servers))
    ensures CreateParamCheck(params, tenant, cfg).Ok? && MeetingKey(tenant, params["meetingID"]) !in old(store.meetings) && chosen.None? ==>
      && r == Err(NoServerError) && forwarded.None?
      && store.meetings == old(store.meetings) && store.callbacks == old(store.callbacks) && ServerLoads(servers) == old(ServerLoads(servers))
    ensures CreateParamCheck(params, tenant, cfg).Ok? && MeetingKey(tenant, params["meetingID"]) !in old(store.meetings) && chosen.Some? ==>
      var key := MeetingKey(tenant, params["meetingID"]);
      var scoped := cfg.addScope(key.externalId, key.tenant);
      var created := racer.None?;
      var m := if created then Meeting(newUuid, None, chosen.value.domain) else racer.value;
      && (forall i :: 0 <= i < |servers| ==>
            servers[i].load == old(servers[i].load) + if created && servers[i] == chosen.value then cfg.loadInitial + cfg.loadMeeting else 0.0)
      && forwarded.Some? && ForwardsPlaced(forwarded.value, scoped, m, key.tenant, cfg)
      && r == ClientReply(cfg.backend(m.server, forwarded.value), scoped, key.externalId)
      && (created && r.Ok? ==>
            && store.meetings == old(store.meetings)[key := m.(internalId := Some(cfg.backend(m.server, forwarded.value).value.internalId))]
            && store.callbacks == old(store.callbacks) + NewCallbacks(PlacedParams(params, scoped, m, key.tenant, cfg.domain), recKeys, m, key.tenant))
      && (created && r.Err? ==> store.meetings == old(store.meetings) && store.callbacks == old(store.callbacks))
      && (!created ==> store.meetings == old(store.meetings)[key := racer.value] && store.callbacks == old(store.callbacks))
  {
    chosen, forwarded := None, None;
    var check := CreateParamCheck(params, tenant, cfg);
    if check.Err? {
      return Err(check.error), chosen, forwarded;
    }
    var unscoped := check.value;
    var key := MeetingKey(tenant, unscoped);
    if key in store.meetings {
      var meeting := store.meetings[key];
      forwarded := Some(params);
      var upstream := cfg.backend(meeting.server, params);
      r := ClientReply(upstream, cfg.addScope(unscoped, tenant), unscoped);
    } else {
      r, chosen, forwarded := CreateNew(store, servers, key, params, recKeys, cfg, newUuid, racer);
    }
  }
  // ---------------------------------------------------------------------
  // getRecordings parameters

  /** The stripped, non-empty entries among the parts. */
  function ListEntries(parts: seq<string>): (r: seq<string>)
    ensures forall i :: 0 <= i < |r| ==> r[i] != [] && Strip(r[i]) == r[i]
    decreases |parts|
  {
    if parts == [] then []
    else
      var e := Strip(parts[0]);
      StripIdempotent(parts[0]);
      (if e != [] then [e] else []) + ListEntries(parts[1..])
  }

  /** A comma-separated list parameter: split at ',', strip, and drop the empty entries. */
  function ListParam(s: string): (r: seq<string>)
    ensures forall i :: 0 <= i < |r| ==> r[i] != [] && Strip(r[i]) == r[i]
  {
    ListEntries(Split(s, ','))
  }

  lemma {:induction false} ListEntriesOfEntries(xs: seq<string>)
    requires forall i :: 0 <= i < |xs| ==> xs[i] != [] && Strip(xs[i]) == xs[i]
    ensures ListEntries(xs) == xs
  {
    if xs != [] {
      ListEntriesOfEntries(xs[1..]);
    }
  }

  /** Joining non-empty, stripped entries without commas and parsing the list
      gives the entries back. */
  lemma ListParamJoin(xs: seq<string>)
    requires |xs| >= 1
    requires forall i :: 0 <= i < |xs| ==> xs[i] != [] && Strip(xs[i]) == xs[i] && ',' !in xs[i]
    ensures ListParam(Join(xs, ',')) == xs
  {
    SplitJoin(xs, ',');
    ListEntriesOfEntries(xs);
  }

  /** The recording filter and page built from the getRecordings parameters.
      An empty list means no filter on that column. */
  datatype RecordingQuery = RecordingQuery(
    meetingIds: seq<string>, recordPrefixes: seq<string>, states: Option<seq<string>>,
    meta: map<string, string>, offset: Option<int>, limit: int)

  /** The `meta_` parameters, without the prefix. */
  function MetaFilter(params: map<string, string>): (r: map<string, string>)
    ensures forall k :: k in r <==> "meta_" + k in params
    ensures forall k :: k in r ==> r[k] == params["meta_" + k]
  {
    var names := set p | p in params && StartsWith(p, "meta_") :: p[5..];
    assert forall p :: p in params && StartsWith(p, "meta_") ==> p == "meta_" + p[5..];
    assert forall k :: "meta_" + k in params ==> StartsWith("meta_" + k, "meta_") && ("meta_" + k)[5..] == k;
    map k | k in names :: params["meta_" + k]
  }

  function QueryOf(params: map<string, string>, maxItems: int): (q: RecordingQuery)
    ensures |q.recordPrefixes| <= 100
    ensures q.states.Some? ==> 1 <= |q.states.value| <= 5 && "any" !in q.states.value
    ensures q.states.None? <==> ListParam(StringParam(params, "state", "")) == [] || "any" in ListParam(StringParam(params, "state", ""))
    ensures q.offset.Some? <==> 0 < IntParam(params, "offset", -1) < 10000
    ensures q.offset.Some? ==> q.offset.value == IntParam(params, "offset", -1)
    ensures 0 < IntParam(params, "limit", -1) < maxItems ==> q.limit == IntParam(params, "limit", -1)
    ensures !(0 < IntParam(params, "limit", -1) < maxItems) ==> q.limit == maxItems
  {
    var meetingIds := ListParam(StringParam(params, "meetingID", ""));
    var recordIds := ListParam(StringParam(params, "recordID", ""));
    var states := ListParam(StringParam(params, "state", ""));
    var offset := IntParam(params, "offset", -1);
    var limit := IntParam(params, "limit", -1);
    RecordingQuery(
      meetingIds,
      Take(recordIds, 100),
      if states != [] && "any" !in states then Some(Take(states, 5)) else None,
      MetaFilter(params),
      if 0 < offset < 10000 then Some(offset) else None,
      if 0 < limit < maxItems then limit else maxItems)
  }

  /** The WHERE clause of getRecordings for one recording row. */
  predicate Selects(q: RecordingQuery, tenant: string, rec: Recording)
    ensures Selects(q, tenant, rec) ==> rec.tenant == Some(tenant)
    ensures Selects(q, tenant, rec) ==> forall k :: k in q.meta ==> k in rec.meta && rec.meta[k] == q.meta[k]
  {
    && rec.tenant == Some(tenant)
    && (q.meetingIds == [] || rec.externalId in q.meetingIds)
    && (q.recordPrefixes == [] || exists i :: 0 <= i < |q.recordPrefixes| && StartsWith(rec.recordId, q.recordPrefixes[i]))
    && (q.states.None? || StateValue(rec.state) in q.states.value)
    && (forall k :: k in q.meta ==> k in rec.meta && rec.meta[k] == q.meta[k])
  }

  function Matching(recs: seq<Recording>, tenant: string, q: RecordingQuery): (r: seq<Recording>)
    ensures forall i :: 0 <= i < |r| ==> r[i] in recs && Selects(q, tenant, r[i])
    ensures forall i :: 0 <= i < |recs| && Selects(q, tenant, recs[i]) ==> recs[i] in r
  {
    if recs == [] then []
    else (if Selects(q, tenant, recs[0]) then [recs[0]] else []) + Matching(recs[1..], tenant, q)
  }

  /** The recordings getRecordings lists: the matching rows in id order,
      after the offset, at most `limit` of them (no rows for a limit <= 0). */
  function Found(recs: seq<Recording>, tenant: string, q: RecordingQuery): (r: seq<Recording>)
    ensures |r| <= q.limit || |r| == 0
    ensures forall x :: x in r ==> x in recs && Selects(q, tenant, x)
  {
    var matching := Matching(recs, tenant, q);
    var skipped := if q.offset.Some? then Drop(matching, q.offset.value) else matching;
    Take(skipped, q.limit)
  }

  /** At most maxItems recordings are listed, and without offset every match
      is listed when there are fewer matches than the limit. */
  lemma FoundBounded(recs: seq<Recording>, tenant: string, params: map<string, string>, maxItems: int)
    requires maxItems > 0
    ensures var q := QueryOf(params, maxItems);
      && |Found(recs, tenant, q)| <= maxItems
      && (q.offset.None? && |Matching(recs, tenant, q)| <= q.limit ==> Found(recs, tenant, q) == Matching(recs, tenant, q))
  {
  }

  /** Listing "any" among the states switches the state filter off. */
  lemma AnyStateMatchesAll(params: map<string, string>, maxItems: int, tenant: string, rec: Recording, other: RecordingState)
    requires "any" in ListParam(StringParam(params, "state", ""))
    ensures Selects(QueryOf(params, maxItems), tenant, rec) == Selects(QueryOf(params, maxItems), tenant, rec.(state := other))
  {
  }

  // ---------------------------------------------------------------------
  // The metadata element of a listed recording

  /** As written, the element is built by unpacking each KEY of the filter's
      meta dictionary into two values: a key of two characters gives a
      pair of single characters, any other key raises ValueError (None). */
  function MetadataAsWritten(filterKeys: seq<string>): (r: Option<seq<(string, string)>>)
    ensures r.Some? ==> |r.value| == |filterKeys|
  {
    if filterKeys == [] then Some([])
    else
      var k := filterKeys[0];
      if |k| != 2 then None
      else
        match MetadataAsWritten(filterKeys[1..])
        case None => None
        case Some(rest) => Some([([k[0]], [k[1]])] + rest)
  }

  /** Any getRecordings call that filters on a metadata key whose length is
      not 2 fails once a recording matches, whatever the recording's metadata. */
  lemma {:induction false} MetadataAsWrittenFails(filterKeys: seq<string>, i: nat)
    requires i < |filterKeys| && |filterKeys[i]| != 2
    ensures MetadataAsWritten(filterKeys) == None
  {
    if i > 0 {
      MetadataAsWrittenFails(filterKeys[1..], i - 1);
    }
  }

  /** The example: a filter on meta_origin fails. */
  lemma MetadataAsWrittenOrigin()
    ensures MetadataAsWritten(["origin"]) == None
  {
    MetadataAsWrittenFails(["origin"], 0);
  }

  /** The metadata element as intended: the recording's own metadata, in the
      order of `keys`. */
  function Metadata(meta: map<string, string>, keys: seq<string>): (r: seq<(string, string)>)
    requires forall k :: k in meta <==> k in keys
    ensures |r| == |keys|
    ensures forall i :: 0 <= i < |r| ==> r[i].0 in meta && meta[r[i].0] == r[i].1
  {
    seq(|keys|, i requires 0 <= i < |keys| => (keys[i], meta[keys[i]]))
  }

  /** The element lists exactly the recording's metadata. */
  lemma MetadataListsRecordingMeta(meta: map<string, string>, keys: seq<string>, k: string, v: string)
    requires forall k :: k in meta <==> k in keys
    ensures (k, v) in Metadata(meta, keys) <==> k in meta && meta[k] == v
  {
    var r := Metadata(meta, keys);
    if k in meta && meta[k] == v {
      var i :| 0 <= i < |keys| && keys[i] == k;
      assert r[i] == (k, v);
    }
  }

  /** The fields of one <recording> of the answer. */
  datatype RecordingEntry = RecordingEntry(
    recordId: string, meetingId: string, internalMeetingId: string, name: string,
    isBreakout: string, published: string, state: string, metadata: seq<(string, string)>)

  /** One listed recording; None where reading meetingName raises KeyError. */
  function RecordingEntryOf(rec: Recording, keys: seq<string>): (r: Option<RecordingEntry>)
    requires forall k :: k in rec.meta <==> k in keys
    ensures r.Some? <==> "meetingName" in rec.meta
    ensures r.Some? ==> r.value.published == (if rec.state == Published then "true" else "false")
    ensures r.Some? ==> r.value.metadata == Metadata(rec.meta, keys)
  {
    if "meetingName" !in rec.meta then None
    else Some(RecordingEntry(
      rec.recordId, rec.externalId, rec.recordId, rec.meta["meetingName"],
      if "isBreakout" in rec.meta then rec.meta["isBreakout"] else "false",
      if rec.state == Published then "true" else "false",
      StateValue(rec.state), Metadata(rec.meta, keys)))
  }

  /** An element appended to <recordings>: a <recording> with the fields of
      the entry and one <format> per playback format in its <playback>, or a
      bare <format> element. */
  datatype ListedElement =
    | RecordingElement(entry: RecordingEntry, playback: seq<string>)
    | FormatElement(format: string)

  /** The element the listing loop appends for one recording as written: the
      loop over the formats rebinds `rec_xml` to each new <format> element,
      so after it `rec_xml` is the last format, not the recording. */
  function ListedAsWritten(rec: Recording, keys: seq<string>): (r: Option<ListedElement>)
    requires forall k :: k in rec.meta <==> k in keys
    ensures r.None? <==> "meetingName" !in rec.meta
  {
    match RecordingEntryOf(rec, keys)
    case None => None
    case Some(e) =>
      if rec.formats == [] then Some(RecordingElement(e, []))
      else Some(FormatElement(rec.formats[|rec.formats| - 1]))
  }

  /** A listed recording with formats appears as its last <format> only. */
  lemma ListedAsWrittenLosesRecording()
    ensures var rec := Recording("r1", Some("t"), "m1", Published, map["meetingName" := "Class"], ["presentation", "video"]);
      ListedAsWritten(rec, ["meetingName"]) == Some(FormatElement("video"))
  {
    var rec := Recording("r1", Some("t"), "m1", Published, map["meetingName" := "Class"], ["presentation", "video"]);
    assert forall k :: k in rec.meta <==> k in ["meetingName"];
  }

  /** The element appended as intended: the <recording> itself, its <playback>
      holding every format in order. */
  function Listed(rec: Recording, keys: seq<string>): (r: Option<ListedElement>)
    requires forall k :: k in rec.meta <==> k in keys
    ensures r.None? <==> "meetingName" !in rec.meta
    ensures r.Some? ==> r.value.RecordingElement? && r.value.playback == rec.formats
    ensures r.Some? ==> r.value.entry.recordId == rec.recordId && r.value.entry.meetingId == rec.externalId
  {
    match RecordingEntryOf(rec, keys)
    case None => None
    case Some(e) => Some(RecordingElement(e, rec.formats))
  }

  /** The two agree exactly on recordings without formats. */
  lemma ListedAsWrittenAgrees(rec: Recording, keys: seq<string>)
    requires forall k :: k in rec.meta <==> k in keys
    requires "meetingName" in rec.meta
    ensures ListedAsWritten(rec, keys) == Listed(rec, keys) <==> rec.formats == []
  {
  }

  // ---------------------------------------------------------------------
  // updateRecordings

  /** A parameter that becomes a metadata update: `meta_` but not `meta_bbblb-`. */
  predicate MetaUpdateKey(k: string) {
    StartsWith(k, "meta_") && !StartsWith(k, "meta_bbblb-")
  }

  /** The metadata updates among the parameters named in `keys`, without
      the prefix, in the order of `keys`. */
  function UpdatesAmong(params: map<string, string>, keys: seq<string>): (r: seq<(string, string)>)
    requires forall i :: 0 <= i < |keys| ==> keys[i] in params
    ensures forall i :: 0 <= i < |r| ==> "meta_" + r[i].0 in keys && params["meta_" + r[i].0] == r[i].1
    ensures forall i :: 0 <= i < |r| ==> MetaUpdateKey("meta_" + r[i].0)
    ensures forall j :: 0 <= j < |keys| && MetaUpdateKey(keys[j]) ==> (keys[j][5..], params[keys[j]]) in r
    decreases |keys|
  {
    if keys == [] then []
    else
      var k := keys[|keys| - 1];
      var init := UpdatesAmong(params, keys[..|keys| - 1]);
      assert forall x :: x in keys[..|keys| - 1] ==> x in keys;
      assert forall j :: 0 <= j < |keys| - 1 ==> keys[..|keys| - 1][j] == keys[j];
      if MetaUpdateKey(k) then
        assert "meta_" + k[5..] == k;
        init + [(k[5..], params[k])]
      else init
  }

  /** With distinct names, the filtered updates have distinct keys. */
  lemma {:induction false} UpdatesAmongDistinct(params: map<string, string>, keys: seq<string>)
    requires forall i :: 0 <= i < |keys| ==> keys[i] in params
    requires forall i, j :: 0 <= i < j < |keys| ==> keys[i] != keys[j]
    ensures DistinctKeys(UpdatesAmong(params, keys))
    decreases |keys|
  {
    if keys != [] {
      var k := keys[|keys| - 1];
      var front := keys[..|keys| - 1];
      UpdatesAmongDistinct(params, front);
      var init := UpdatesAmong(params, front);
      if MetaUpdateKey(k) {
        assert "meta_" + k[5..] == k;
        forall i | 0 <= i < |init|
          ensures init[i].0 != k[5..]
        {
          assert "meta_" + init[i].0 in front;
        }
      }
    }
  }

  /** The metadata updates of an updateRecordings call: every `meta_`
      parameter except the `meta_bbblb-` ones, without the prefix, in the
      order of `keys`, which lists every parameter once. */
  function MetaUpdates(params: map<string, string>, keys: seq<string>): (r: seq<(string, string)>)
    requires forall k :: k in params <==> k in keys
    requires forall i, j :: 0 <= i < j < |keys| ==> keys[i] != keys[j]
    ensures forall i :: 0 <= i < |r| ==> "meta_" + r[i].0 in params && params["meta_" + r[i].0] == r[i].1
    ensures forall i :: 0 <= i < |r| ==> MetaUpdateKey("meta_" + r[i].0)
    ensures forall k :: k in params && MetaUpdateKey(k) ==> (k[5..], params[k]) in r
    ensures DistinctKeys(r)
  {
    UpdatesAmongDistinct(params, keys);
    UpdatesAmong(params, keys)
  }

  /** The metadata after applying the updates one after the other: a
      non-empty value sets the key, an empty value removes it. */
  function Merged(meta: map<string, string>, updates: seq<(string, string)>): (r: map<string, string>)
    ensures updates != [] && updates[|updates| - 1].1 != "" ==>
      updates[|updates| - 1].0 in r && r[updates[|updates| - 1].0] == updates[|updates| - 1].1
    ensures updates != [] && updates[|updates| - 1].1 == "" ==> updates[|updates| - 1].0 !in r
    decreases |updates|
  {
    if updates == [] then meta
    else
      var m := Merged(meta, updates[..|updates| - 1]);
      var (k, v) := updates[|updates| - 1];
      if v != "" then m[k := v] else m - {k}
  }

  predicate DistinctKeys(updates: seq<(string, string)>) {
    forall i, j :: 0 <= i < j < |updates| ==> updates[i].0 != updates[j].0
  }

  /** With distinct keys, a key with a non-empty update takes that value, a
      key with an empty update is gone, and every other key is untouched. */
  lemma {:induction false} MergedMeaning(meta: map<string, string>, updates: seq<(string, string)>)
    requires DistinctKeys(updates)
    ensures forall i :: 0 <= i < |updates| && updates[i].1 != "" ==>
      updates[i].0 in Merged(meta, updates) && Merged(meta, updates)[updates[i].0] == updates[i].1
    ensures forall i :: 0 <= i < |updates| && updates[i].1 == "" ==> updates[i].0 !in Merged(meta, updates)
    ensures forall k :: (forall i :: 0 <= i < |updates| ==> updates[i].0 != k) ==>
      (k in Merged(meta, updates) <==> k in meta) && (k in meta ==> Merged(meta, updates)[k] == meta[k])
    decreases |updates|
  {
    if updates != [] {
      var init := updates[..|updates| - 1];
      MergedMeaning(meta, init);
      assert forall i :: 0 <= i < |init| ==> init[i] == updates[i];
    }
  }

  /** The `for key, value in meta.items()` loop on one recording. */
  method MergeMeta(meta: map<string, string>, updates: seq<(string, string)>) returns (m: map<string, string>)
    ensures m == Merged(meta, updates)
  {
    m := meta;
    var i := 0;
    while i < |updates|
      invariant 0 <= i <= |updates|
      invariant m == Merged(meta, updates[..i])
    {
      assert updates[..i + 1][..i] == updates[..i];
      var (k, v) := updates[i];
      if v != "" {
        m := m[k := v];
      } else {
        m := m - {k};
      }
      i := i + 1;
    }
    assert updates[..|updates|] == updates;
  }

  /** The recordings of `tenant` an updateRecordings call rewrites. */
  predicate UpdateSelects(rec: Recording, tenant: string, recordIds: seq<string>) {
    rec.tenant == Some(tenant) && rec.recordId in recordIds
  }

  /** One recording after the call: merged when selected, else unchanged. */
  function Updated(rec: Recording, tenant: string, recordIds: seq<string>, updates: seq<(string, string)>): (r: Recording)
    ensures r.recordId == rec.recordId && r.tenant == rec.tenant && r.state == rec.state && r.formats == rec.formats
    ensures !UpdateSelects(rec, tenant, recordIds) ==> r == rec
  {
    if UpdateSelects(rec, tenant, recordIds) then rec.(meta := Merged(rec.meta, updates)) else rec
  }

  /** A `meta_` parameter outside `meta_bbblb-` with a value sets that key. */
  lemma MergedSets(meta: map<string, string>, params: map<string, string>, keys: seq<string>, k: string)
    requires forall k :: k in params <==> k in keys
    requires forall i, j :: 0 <= i < j < |keys| ==> keys[i] != keys[j]
    requires k in params && MetaUpdateKey(k) && params[k] != ""
    ensures k[5..] in Merged(meta, MetaUpdates(params, keys))
    ensures Merged(meta, MetaUpdates(params, keys))[k[5..]] == params[k]
  {
    var updates := MetaUpdates(params, keys);
    MergedMeaning(meta, updates);
    var i :| 0 <= i < |updates| && updates[i] == (k[5..], params[k]);
  }

  /** A `meta_` parameter outside `meta_bbblb-` with an empty value removes
      that key. */
  lemma MergedRemoves(meta: map<string, string>, params: map<string, string>, keys: seq<string>, k: string)
    requires forall k :: k in params <==> k in keys
    requires forall i, j :: 0 <= i < j < |keys| ==> keys[i] != keys[j]
    requires k in params && MetaUpdateKey(k) && params[k] == ""
    ensures k[5..] !in Merged(meta, MetaUpdates(params, keys))
  {
    var updates := MetaUpdates(params, keys);
    MergedMeaning(meta, updates);
    var i :| 0 <= i < |updates| && updates[i] == (k[5..], params[k]);
  }

  /** A key no update parameter names keeps its value, or stays absent. */
  lemma MergedKeeps(meta: map<string, string>, params: map<string, string>, keys: seq<string>, x: string)
    requires forall k :: k in params <==> k in keys
    requires forall i, j :: 0 <= i < j < |keys| ==> keys[i] != keys[j]
    requires !("meta_" + x in params && MetaUpdateKey("meta_" + x))
    ensures x in Merged(meta, MetaUpdates(params, keys)) <==> x in meta
    ensures x in meta ==> Merged(meta, MetaUpdates(params, keys))[x] == meta[x]
  {
    var updates := MetaUpdates(params, keys);
    MergedMeaning(meta, updates);
    forall i | 0 <= i < |updates|
      ensures updates[i].0 != x
    {
      assert "meta_" + updates[i].0 in params && MetaUpdateKey("meta_" + updates[i].0);
    }
  }

  /** `handle_update_recordings`: merge the metadata updates into every
      selected recording. `keys` lists the parameters in dictionary order.
      On success the handler returns nothing, which the wrapper passes on
      unconverted. */
  method UpdateRecordings(store: Store, tenant: string, params: map<string, string>, keys: seq<string>)
    returns (r: Result<(), ApiError>)
    requires forall k :: k in params <==> k in keys
    requires forall i, j :: 0 <= i < j < |keys| ==> keys[i] != keys[j]
    modifies store`recordings
    ensures r.Err? <==> "recordID" !in params
    ensures r.Err? ==> r.error == MissingError("recordID") && store.recordings == old(store.recordings)
    ensures r.Ok? ==>
      var recordIds := Split(params["recordID"], ',');
      var updates := MetaUpdates(params, keys);
      && |store.recordings| == |old(store.recordings)|
      && forall i :: 0 <= i < |store.recordings| ==>
           store.recordings[i] == Updated(old(store.recordings[i]), tenant, recordIds, updates)
  {
    var idsR := RequireParam(params, "recordID", None, AsString);
    if idsR.Err? {
      return Err(idsR.error.error);
    }
    var recordIds := Split(idsR.value, ',');
    var updates := MetaUpdates(params, keys);
    var i := 0;
    while i < |store.recordings|
      invariant 0 <= i <= |store.recordings| == |old(store.recordings)|
      invariant forall j :: 0 <= j < i ==>
        store.recordings[j] == Updated(old(store.recordings[j]), tenant, recordIds, updates)
      invariant forall j :: i <= j < |store.recordings| ==> store.recordings[j] == old(store.recordings[j])
    {
      var rec := store.recordings[i];
      if UpdateSelects(rec, tenant, recordIds) {
        var merged := MergeMeta(rec.meta, updates);
        store.recordings := store.recordings[i := rec.(meta := merged)];
      }
      i := i + 1;
    }
    return Ok(());
  }
}
