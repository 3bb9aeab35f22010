# WeChat transport: handshake and request/reply correlation

A Dafny model of the core of vumi's WeChat transport (`vumi/transports/wechat/wechat.py`).
The transport is a webhook endpoint for the WeChat push API:

- **Handshake** (`render_GET`, `verify`). The platform sends `signature`, `timestamp`,
  `nonce` and `echostr`. The endpoint sorts `timestamp`, `nonce` and its auth token as
  Python 2 byte strings, joins them, and compares their SHA-1 hex digest with `signature`.
  It answers `echostr` on a match and `''` otherwise.
- **Push and reply** (`render_POST`, `handle_request`, `set_request`, `get_request`,
  `handle_raw_inbound_message`, `handle_outbound_message`). A push is parsed and published
  as a vumi message. Its HTTP request is left open in `request_map`, keyed by the published
  message's `message_id`. A later outbound message finds the request by `in_reply_to`,
  writes the UTF-8 encoded content and finishes the request.

Files:

- `wrappers.dfy`: `Option`, `Result` and `Outcome`. These stand for Python's `None` and for a raised exception.
- `string_order.dfy`: Python 2 `str` ordering, `sorted` as insertion sort, and `''.join`.
  It proves the ordering is a strict total order and that a sorted arrangement is unique.
- `utf8.dfy`: `encode('utf-8')` as RFC 3629 section 3 defines it, with a decoder and the round trip.
- `handshake.dfy`: `verify`, `render_GET` as written, and the guard `render_GET` evidently means.
- `wechat.dfy`: the Twisted request, as a class `Request`, and the classes
  `WeChatResource` (holding `request_map`) and `WeChatTransport`. It has
  `render_POST`, `set_request`, `get_request`, `handle_outbound_message`, and two client scenarios.

Collaborators enter as parameters:

- `sha1: string -> string` is SHA-1 (FIPS 180-4) followed by hex encoding. It is uninterpreted.
- `parse: string -> Option<WeChatMessage>` is `WeChatParser.parse`. `None` means it raised.
- `publish_message` is given by two values: `messageId`, the id the new vumi message
  gets, and `published`, whether publishing succeeded.

`Request.Write` assumes one behaviour of Twisted: writing to a finished request raises.
Twisted's `twisted/web/http.py` is not part of this model.

Where the design description of this system and the code disagree, the model follows the code:

- A push that fails to parse gets no client-error response. The exception ends the callback
  chain, nothing is registered, and the request is never finished.
- The request is registered *after* the message is published, under the id of the published message.
- `get_request` does not remove the entry. A second reply to the same id reaches a finished
  request, and Twisted raises on it. The map is never pruned.
- A GET that lacks one of the four arguments does not get `''`. It gets a `KeyError`.
  See "## Findings".

Invariant: `WeChatResource.Valid()` says that every stored request is either open
with nothing written, or finished with one well-formed UTF-8 reply written.
Every method of the resource and of the transport keeps this invariant.

## Model

| member | source | states |
|---|---|---|
| `StringOrder.LessIsLexicographic` | vumi/transports/wechat/wechat.py:70 | `Less` (Python 2 `str.__lt__`) holds exactly when `a` is a proper prefix of `b` or the first differing byte of `a` is smaller |
| `StringOrder.LessIrreflexive` | vumi/transports/wechat/wechat.py:70 | no string sorts before itself |
| `StringOrder.LessAsymmetric` | vumi/transports/wechat/wechat.py:70 | `a < b` excludes `b < a` |
| `StringOrder.LessTransitive` | vumi/transports/wechat/wechat.py:70 | the string order is transitive |
| `StringOrder.LessTotal` | vumi/transports/wechat/wechat.py:70 | two different strings are always ordered, so `sorted` has one answer |
| `StringOrder.LessEqTransitive` | vumi/transports/wechat/wechat.py:70 | `<=` on strings is transitive |
| `StringOrder.LessEqAntisymmetric` | vumi/transports/wechat/wechat.py:70 | `a <= b` and `b <= a` give `a == b` |
| `StringOrder.LessEqIsTotalOrder` | vumi/transports/wechat/wechat.py:70 | `<=` on Python 2 strings is antisymmetric, transitive and total, so sorting by it is well defined |
| `StringOrder.InsertPermutation` | vumi/transports/wechat/wechat.py:70 | inserting adds exactly the one element |
| `StringOrder.InsertSorted` | vumi/transports/wechat/wechat.py:70 | inserting into an ascending list keeps it ascending |
| `StringOrder.SortSortedPermutation` | vumi/transports/wechat/wechat.py:70 | `sorted` returns an ascending permutation of its input |
| `StringOrder.SortedHeadIsLeast` | vumi/transports/wechat/wechat.py:70 | the head of an ascending list is at most every element of it |
| `StringOrder.SortedHeadsAgree` | vumi/transports/wechat/wechat.py:70 | two ascending lists with the same elements start with the same element |
| `StringOrder.SortedUnique` | vumi/transports/wechat/wechat.py:70 | two ascending lists with the same elements are equal |
| `StringOrder.SortPermutationInvariant` | vumi/transports/wechat/wechat.py:70 | `sorted` gives the same list for any order of the same elements |
| `Utf8.EncodeChar` | vumi/transports/wechat/wechat.py:117 | each character is encoded as one to four bytes |
| `Utf8.DecodeEncodeTwoBytes` | vumi/transports/wechat/wechat.py:117 | a two-byte encoding decodes back to its character |
| `Utf8.DecodeEncodeThreeBytes` | vumi/transports/wechat/wechat.py:117 | a three-byte encoding decodes back to its character |
| `Utf8.DecodeEncodeFourBytes` | vumi/transports/wechat/wechat.py:117 | a four-byte encoding decodes back to its character |
| `Utf8.DecodeEncodeChar` | vumi/transports/wechat/wechat.py:117 | decoding a character's encoding gives that character and consumes exactly its bytes |
| `Utf8.DecodeEncode` | vumi/transports/wechat/wechat.py:117 | decoding the UTF-8 encoding of any text gives the text back |
| `Utf8.EncodeInjective` | vumi/transports/wechat/wechat.py:117 | different texts have different UTF-8 encodings |
| `Handshake.Verify` | vumi/transports/wechat/wechat.py:63-74 | `verify` raises exactly when one of `signature`, `timestamp`, `nonce`, `echostr` is missing, and the `KeyError` names a missing one |
| `Handshake.ExpectedSignatureIffMatches` | vumi/transports/wechat/wechat.py:70-72 | the digest of the sorted join equals the signature exactly when the digest of some ascending arrangement of the three values does |
| `Handshake.VerifyAnswersEchoIffSignatureMatches` | vumi/transports/wechat/wechat.py:63-74 | with all arguments present, `verify` answers `echostr` when the signature is the digest of an ascending arrangement of timestamp, nonce and token, and `''` for every other signature, with no normalisation |
| `Handshake.ExpectedSignaturePermutationInvariant` | vumi/transports/wechat/wechat.py:70 | the expected signature is the same for any assignment of the three values to timestamp, nonce and token |
| `Handshake.VerifyPermutationInvariant` | vumi/transports/wechat/wechat.py:70-72 | the answer does not depend on which of the three values arrives as timestamp, as nonce or as token |
| `Handshake.VerifyExample` | vumi/transports/wechat/wechat.py:63-74 | timestamp `1`, nonce `2`, token `s` and signature SHA-1 hex of `12s` are answered with `echostr` |
| `Handshake.GuardAlwaysTrue` | vumi/transports/wechat/wechat.py:51-52 | `all([lambda, [names]])` is true, because a function object and a non-empty list are both truthy |
| `Handshake.RenderGetIsVerify` | vumi/transports/wechat/wechat.py:50-54 | `render_GET` equals `verify` on every request, so line 54 is never reached |
| `Handshake.RenderGetWithoutArgsRaises` | vumi/transports/wechat/wechat.py:50-64 | a GET with no query arguments raises `KeyError('signature')` instead of answering `''` |
| `Handshake.RenderGetIntended` | vumi/transports/wechat/wechat.py:50-54 | with the guard checking each name, GET never raises: it answers `''` when an argument is missing, and otherwise gives verify's answer |
| `WeChat.HandleRawInboundMessage` | vumi/transports/wechat/wechat.py:104-109 | the published message takes `Content` as content, `FromUserName` as from_addr, `ToUserName` as to_addr, `transport_type` `wechat`, and the id the bus assigns |
| `WeChat.HandleRequest` | vumi/transports/wechat/wechat.py:76-78 | it yields a message exactly when parsing and publishing succeed; a parse failure is `MalformedPayload`; the message carries the parsed fields |
| `WeChat.WeChatResource.constructor` | vumi/transports/wechat/wechat.py:44-48 | a new resource has an empty `request_map` and keeps the auth token |
| `WeChat.WeChatResource.SetRequest` | vumi/transports/wechat/wechat.py:80-81 | the request is stored under the message id, replacing an earlier entry; the keys gain only that id; all other entries are unchanged |
| `WeChat.WeChatResource.GetRequest` | vumi/transports/wechat/wechat.py:83-84 | it returns the stored request for the id, or `None` when there is none, and changes nothing |
| `WeChat.WeChatResource.RenderPost` | vumi/transports/wechat/wechat.py:56-61 | it returns `NOT_DONE_YET` and leaves the request untouched; the map gains the request under the published id only when parse and publish succeed, and stays as it was otherwise |
| `WeChat.WeChatTransport.constructor` | vumi/transports/wechat/wechat.py:96 | the transport owns a fresh resource with an empty map |
| `WeChat.WeChatTransport.HandleOutboundMessage` | vumi/transports/wechat/wechat.py:111-118 | it fails with `UnmatchedReply` when `in_reply_to` has no entry, with `MissingContent` when content is `None`, and with `WriteAfterFinish` when the request is finished. Otherwise the request holds exactly the UTF-8 bytes of the content, which decode back to it, and is finished. The map keeps every entry and no other request changes |
| `WeChat.ReplyScenario` | vumi/transports/wechat/wechat.py:56-61 | a push followed by a reply delivers `pong` to the original request; a second reply to the same id fails because the entry was not removed |
| `WeChat.DuplicateIdScenario` | vumi/transports/wechat/wechat.py:80-81 | when two pushes share an id, the reply finishes only the later request and the earlier one stays open |
| `WeChat.MalformedPushScenario` | vumi/transports/wechat/wechat.py:57-60 | a push the parser rejects is never stored, so a reply to it is unmatched |

## Left out

- Twisted machinery is left out: `Deferred`, `reactor.callLater` and `inlineCallbacks`.
  The callback chain of `render_POST` runs as consecutive steps inside `RenderPost`.
  Both run on a single-threaded reactor, so the final state is the same.
- Asynchrony and interleaving of requests are left out. There is no locking in the code to model.
- Server plumbing is left out: `WeChatConfig` and its field types, `get_static_config`,
  `build_web_site`, `endpoint.listen`, `teardown_transport`, `HttpRpcHealthResource` and
  `get_health_response`. Of `setup_transport`, only the creation of the resource is modelled
  (`WeChatTransport.constructor`).
- SHA-1 and hex encoding come in as an uninterpreted function parameter. The digest algorithm is not modelled.
- `WeChatParser.parse` is an uninterpreted partial function: `vumi/transports/wechat/parser.py` is not part of this model.
- `publish_message` is not modelled as a message-bus call. It is reduced to the id it
  assigns and a success flag. The other metadata of a vumi message (transport name,
  timestamp, helper metadata) is not modelled.
- Peer disconnects are not modelled, nor Twisted's error when a request finishes after its connection was lost.
- Logging of the unhandled errors that end the `render_POST` chain or reject an outbound message is not modelled.
- A `char` here is a Unicode scalar value. Python 2 narrow builds hold surrogate halves in `unicode`; those are not modelled.
- Python 2 `str` bytes are modelled as `char`s, compared by code.
- `Handshake.Verify`: the contract says that the `KeyError` names *a* missing required argument. It does not say that this is the first one missing in the lookup order `signature`, `timestamp`, `nonce`, `echostr`, although the body follows that order.

## Findings

| source | as written | input that shows it | evidently intended | confidence | as-written member | corrected member |
|---|---|---|---|---|---|---|
| vumi/transports/wechat/wechat.py:51-54 | `all([lambda key: key in request.args, [...]])` applies `all` to a function object and a list. Both are truthy, so every GET calls `verify`, and `request.args['signature']` raises `KeyError` | a GET with no query string: `RenderGet(map[], ...) == Err(KeyError("signature"))` | `all(key in request.args for key in [...])`, answering `''` when an argument is missing | high (not executed) | `Handshake.RenderGetWithoutArgsRaises` | `Handshake.RenderGetIntended` |
