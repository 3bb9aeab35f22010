/**
 * `WeChatResource` and `WeChatTransport`: inbound pushes are parsed, published on the
 * message bus and their HTTP request is kept open in `request_map` under the published
 * message's id; an outbound reply looks the request up by `in_reply_to`, writes its
 * content and finishes it.
 *
 * The Twisted callback chain of `render_POST` (parse, publish, register, scheduled with
 * `callLater(0, ...)`) runs here as consecutive steps. The collaborators enter as values:
 * `parse` is `WeChatParser.parse` (`None` when it raises), `messageId` is the id the bus
 * message is created with and `published` says whether publishing succeeded.
 */
module WeChat {
  import opened Wrappers
  import opened Handshake
  import Utf8

  /** The fields of the parser's record that the transport reads. */
  datatype WeChatMessage = WeChatMessage(toUserName: string, fromUserName: string, content: string)

  /** The inbound vumi message `publish_message` builds and returns. */
  datatype Message = Message(messageId: string, content: string, fromAddr: string, toAddr: string, transportType: string)

  /** The fields of an outbound vumi message the transport reads; either may be `None`. */
  datatype OutboundMessage = OutboundMessage(inReplyTo: Option<string>, content: Option<string>)

  /** Why the callback chain of `render_POST` stopped before `set_request`. */
  datatype PostError = MalformedPayload | PublishFailed

  /** The exceptions `handle_outbound_message` raises. */
  datatype OutboundError =
    | UnmatchedReply      // `get_request` gave `None`, so `None.write` fails
    | MissingContent      // `message['content']` is `None`, so `None.encode` fails
    | WriteAfterFinish    // Twisted refuses `write` on a request already finished

  /** The value `render_POST` returns: Twisted's `NOT_DONE_YET`. */
  datatype Rendered = NotDoneYet

  const TransportType: string := "wechat"

  /** `WeChatTransport.handle_raw_inbound_message`: the message it publishes for a parsed push. */
  function HandleRawInboundMessage(wc: WeChatMessage, messageId: string): (m: Message)
    ensures m.content == wc.content && m.fromAddr == wc.fromUserName && m.toAddr == wc.toUserName
    ensures m.transportType == TransportType && m.messageId == messageId
  {
    Message(messageId, wc.content, wc.fromUserName, wc.toUserName, TransportType)
  }

  /** `WeChatResource.handle_request`: parse the body, then publish; either step may raise. */
  function HandleRequest(body: string, parse: string -> Option<WeChatMessage>, messageId: string, published: bool)
    : (r: Result<Message, PostError>)
    ensures r.Ok? <==> parse(body).Some? && published
    ensures parse(body).None? ==> r == Err(MalformedPayload)
    ensures r.Ok? ==> r.value.messageId == messageId && r.value.content == parse(body).value.content
    ensures r.Ok? ==> r.value.fromAddr == parse(body).value.fromUserName && r.value.toAddr == parse(body).value.toUserName
  {
    match parse(body)
    case None => Err(MalformedPayload)
    case Some(wc) => if published then Ok(HandleRawInboundMessage(wc, messageId)) else Err(PublishFailed)
  }

  /** A Twisted HTTP request: its query arguments and body, the bytes written back and whether it is finished. */
  class Request {
    const args: Args
    const body: string
    var written: seq<Utf8.byte>
    var finished: bool

    /** An open request has had nothing written; a finished one carries one well-formed UTF-8 reply. */
    predicate Valid()
      reads this
    {
      if finished then Utf8.Decode(written).Some? else written == []
    }

    constructor (args: Args, body: string)
      ensures this.args == args && this.body == body
      ensures written == [] && !finished && Valid()
    {
      this.args := args;
      this.body := body;
      written := [];
      finished := false;
    }

    /** `request.write(data)`; Twisted raises instead when the request is finished already. */
    method Write(data: seq<Utf8.byte>) returns (ok: bool)
      modifies this
      ensures ok == !old(finished)
      ensures written == (if ok then old(written) + data else old(written))
      ensures finished == old(finished)
    {
      ok := !finished;
      if ok {
        written := written + data;
      }
    }

    /** `request.finish()`. */
    method Finish()
      modifies this
      ensures finished && written == old(written)
    {
      finished := true;
    }
  }

  class WeChatResource {
    /** `self.config.auth_token`. */
    const authToken: string
    /** `self.request_map`: open requests by the id of the message published for them. */
    var requestMap: map<string, Request>

    /** Every request the map holds is in a consistent state. */
    predicate Valid()
      reads this, requestMap.Values
    {
      forall id | id in requestMap :: requestMap[id].Valid()
    }

    /** The request a reply to `id` reaches: none if `id` is `None` or not in the map. */
    function Addressee(id: Option<string>): (s: set<Request>)
      reads this
      ensures |s| <= 1
      ensures forall r | r in s :: r in requestMap.Values
    {
      if id.Some? && id.value in requestMap then {requestMap[id.value]} else {}
    }

    constructor (authToken: string)
      ensures this.authToken == authToken && requestMap == map[] && Valid()
    {
      this.authToken := authToken;
      requestMap := map[];
    }

    /** `set_request`: store `request` under the message's id, replacing any earlier entry for that id. */
    method SetRequest(message: Message, request: Request)
      requires Valid() && request.Valid()
      modifies this
      ensures Valid()
      ensures message.messageId in requestMap && requestMap[message.messageId] == request
      ensures requestMap.Keys == old(requestMap).Keys + {message.messageId}
      ensures forall id | id in old(requestMap) && id != message.messageId :: requestMap[id] == old(requestMap)[id]
    {
      requestMap := requestMap[message.messageId := request];
    }

    /** `get_request`: `dict.get`, which leaves the map as it is. */
    method GetRequest(messageId: string) returns (r: Option<Request>)
      ensures r.Some? <==> messageId in requestMap
      ensures r.Some? ==> r.value == requestMap[messageId]
    {
      if messageId in requestMap {
        r := Some(requestMap[messageId]);
      } else {
        r := None;
      }
    }

    /**
     * `render_POST`: the request is registered only once parsing and publishing succeed,
     * and under the published message's id; it is returned open (`NOT_DONE_YET`) either way.
     */
    method RenderPost(request: Request, parse: string -> Option<WeChatMessage>, messageId: string, published: bool)
      returns (r: Rendered)
      requires Valid() && request.Valid()
      modifies this
      ensures Valid() && r == NotDoneYet
      ensures request.written == old(request.written) && request.finished == old(request.finished)
      ensures match HandleRequest(request.body, parse, messageId, published)
              case Ok(m) => requestMap == old(requestMap)[m.messageId := request]
              case Err(_) => requestMap == old(requestMap)
    {
      var handled := HandleRequest(request.body, parse, messageId, published);
      if handled.Ok? {
        SetRequest(handled.value, request);
      }
      r := NotDoneYet;
    }
  }

  class WeChatTransport {
    const resource: WeChatResource

    constructor (authToken: string)
      ensures fresh(resource) && resource.authToken == authToken
      ensures resource.requestMap == map[] && resource.Valid()
    {
      resource := new WeChatResource(authToken);
    }

    /**
     * `handle_outbound_message`: write the UTF-8 content to the request stored under
     * `in_reply_to` and finish it. The entry stays in the map, and no other request changes.
     */
    method HandleOutboundMessage(message: OutboundMessage) returns (r: Outcome<OutboundError>)
      requires resource.Valid()
      modifies resource.Addressee(message.inReplyTo)
      ensures resource.Valid() && resource.requestMap == old(resource.requestMap)
      ensures resource.Addressee(message.inReplyTo) == {} ==> r == Fail(UnmatchedReply)
      ensures forall req | req in resource.Addressee(message.inReplyTo) ::
        if message.content.None? then r == Fail(MissingContent) && req.written == old(req.written) && req.finished == old(req.finished)
        else if old(req.finished) then r == Fail(WriteAfterFinish) && req.written == old(req.written) && req.finished
        else r == Pass && req.finished && req.written == Utf8.Encode(message.content.value)
             && Utf8.Decode(req.written) == Some(message.content.value)
    {
      var request: Option<Request> := None;
      if message.inReplyTo.Some? {
        request := resource.GetRequest(message.inReplyTo.value);
      }
      if request.None? {
        return Fail(UnmatchedReply);
      }
      var req := request.value;
      assert req.Valid();
      if message.content.None? {
        return Fail(MissingContent);
      }
      var data := Utf8.Encode(message.content.value);
      var ok := req.Write(data);
      if !ok {
        return Fail(WriteAfterFinish);
      }
      assert req.written == data;
      req.Finish();
      Utf8.DecodeEncode(message.content.value);
      assert req.Valid();
      r := Pass;
    }
  }

  /**
   * A push answered by one reply: the reply's bytes reach the request that delivered the push;
   * a second reply to the same id finds the entry still there and the request finished.
   */
  method ReplyScenario() returns (first: Outcome<OutboundError>, second: Outcome<OutboundError>, body: seq<Utf8.byte>)
    ensures first == Pass && second == Fail(WriteAfterFinish)
    ensures Utf8.Decode(body) == Some("pong")
  {
    var transport := new WeChatTransport("s");
    var parse := (b: string) => if b == "<xml>ping</xml>" then Some(WeChatMessage("b", "a", "ping")) else None;
    var request := new Request(map[], "<xml>ping</xml>");
    var rendered := transport.resource.RenderPost(request, parse, "42", true);
    assert transport.resource.requestMap == map["42" := request];
    first := transport.HandleOutboundMessage(OutboundMessage(Some("42"), Some("pong")));
    body := request.written;
    second := transport.HandleOutboundMessage(OutboundMessage(Some("42"), Some("pong")));
  }

  /**
   * Two pushes published under the same id: the second request replaces the first in the map,
   * the reply finishes the second, and the first is never answered.
   */
  method DuplicateIdScenario() returns (firstFinished: bool, secondFinished: bool)
    ensures !firstFinished && secondFinished
  {
    var transport := new WeChatTransport("s");
    var parse := (b: string) => Some(WeChatMessage("b", "a", b));
    var request1 := new Request(map[], "<xml>ping</xml>");
    var request2 := new Request(map[], "<xml>ping</xml>");
    var rendered := transport.resource.RenderPost(request1, parse, "42", true);
    rendered := transport.resource.RenderPost(request2, parse, "42", true);
    assert transport.resource.requestMap == map["42" := request2];
    var reply := transport.HandleOutboundMessage(OutboundMessage(Some("42"), Some("pong")));
    firstFinished := request1.finished;
    secondFinished := request2.finished;
  }

  /** A push the parser rejects is never stored, so a reply to the id it would have had is unmatched. */
  method MalformedPushScenario() returns (stored: bool, reply: Outcome<OutboundError>)
    ensures !stored && reply == Fail(UnmatchedReply)
  {
    var transport := new WeChatTransport("s");
    var parse := (b: string) => None;
    var request := new Request(map[], "not a push");
    var rendered := transport.resource.RenderPost(request, parse, "43", true);
    stored := "43" in transport.resource.requestMap;
    reply := transport.HandleOutboundMessage(OutboundMessage(Some("43"), Some("pong")));
  }
}
