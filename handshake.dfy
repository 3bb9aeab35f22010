/**
 * The handshake of `WeChatResource`: `verify` and `render_GET`. The platform proves
 * it knows the shared auth token by sending `signature` = SHA-1 hex of the sorted,
 * joined `timestamp`, `nonce` and token; the endpoint answers with `echostr`.
 * SHA-1 (FIPS 180-4) hex digests are left uninterpreted: they come in as `sha1`.
 */
module Handshake {
  import opened Wrappers
  import opened StringOrder

  /** A query argument as Twisted parses it: the non-empty list of values given for a name. */
  type ArgValues = vs: seq<string> | |vs| > 0 witness [""]

  /** `request.args`. */
  type Args = map<string, ArgValues>

  /** The `KeyError` a missing query argument raises on `request.args[key]`. */
  datatype ArgError = KeyError(key: string)

  const RequiredArgs: seq<string> := ["signature", "timestamp", "nonce", "echostr"]

  predicate HasRequiredArgs(args: Args) {
    "signature" in args && "timestamp" in args && "nonce" in args && "echostr" in args
  }

  /** The first value given for `key`, as `request.args[key][0]`. */
  function Arg(args: Args, key: string): string
    requires key in args
  {
    args[key][0]
  }

  /** What the platform is expected to send as `signature`: SHA-1 hex of the three values sorted and joined. */
  function ExpectedSignature(sha1: string -> string, timestamp: string, nonce: string, token: string): string {
    sha1(Concat(Sort([timestamp, nonce, token], LessEq)))
  }

  /**
   * Reference statement of a valid signature, independent of any sorting procedure:
   * the digest of some ascending arrangement of the three values is the signature.
   */
  ghost predicate SignatureMatches(sha1: string -> string, signature: string, timestamp: string, nonce: string, token: string) {
    exists p :: Sorted(p, LessEq) && multiset(p) == multiset([timestamp, nonce, token]) && sha1(Concat(p)) == signature
  }

  /** `WeChatResource.verify`: `authToken` is `self.config.auth_token`. */
  function Verify(args: Args, authToken: string, sha1: string -> string): (r: Result<string, ArgError>)
    ensures r.Ok? <==> HasRequiredArgs(args)
    ensures r.Err? ==> r.error.key in {"signature", "timestamp", "nonce", "echostr"} && r.error.key !in args
  {
    if "signature" !in args then Err(KeyError("signature"))
    else if "timestamp" !in args then Err(KeyError("timestamp"))
    else if "nonce" !in args then Err(KeyError("nonce"))
    else if "echostr" !in args then Err(KeyError("echostr"))
    else
      var signature := Arg(args, "signature");
      var timestamp := Arg(args, "timestamp");
      var nonce := Arg(args, "nonce");
      var echostr := Arg(args, "echostr");
      if ExpectedSignature(sha1, timestamp, nonce, authToken) == signature then Ok(echostr) else Ok("")
  }

  /** The digest of the sorted join is the signature exactly when some ascending arrangement digests to it. */
  lemma ExpectedSignatureIffMatches(sha1: string -> string, signature: string, timestamp: string, nonce: string, token: string)
    ensures ExpectedSignature(sha1, timestamp, nonce, token) == signature
            <==> SignatureMatches(sha1, signature, timestamp, nonce, token)
  {
    var three := [timestamp, nonce, token];
    LessEqIsTotalOrder();
    SortSortedPermutation(three, LessEq);
    if SignatureMatches(sha1, signature, timestamp, nonce, token) {
      var p :| Sorted(p, LessEq) && multiset(p) == multiset(three) && sha1(Concat(p)) == signature;
      SortedUnique(p, Sort(three, LessEq), LessEq);
    }
  }

  /**
   * With all arguments present, `verify` answers `echostr` exactly when the signature is
   * the digest of an ascending arrangement of timestamp, nonce and token, and `''` for any
   * other signature (no case or whitespace normalisation).
   */
  lemma VerifyAnswersEchoIffSignatureMatches(args: Args, authToken: string, sha1: string -> string)
    requires HasRequiredArgs(args)
    ensures
      var signature, timestamp, nonce := Arg(args, "signature"), Arg(args, "timestamp"), Arg(args, "nonce");
      Verify(args, authToken, sha1) ==
        Ok(if SignatureMatches(sha1, signature, timestamp, nonce, authToken) then Arg(args, "echostr") else "")
  {
    ExpectedSignatureIffMatches(sha1, Arg(args, "signature"), Arg(args, "timestamp"), Arg(args, "nonce"), authToken);
  }

  /** The expected signature depends only on which three values are given, not on their roles. */
  lemma ExpectedSignaturePermutationInvariant(sha1: string -> string, t: string, n: string, k: string, t': string, n': string, k': string)
    requires multiset([t, n, k]) == multiset([t', n', k'])
    ensures ExpectedSignature(sha1, t, n, k) == ExpectedSignature(sha1, t', n', k')
  {
    LessEqIsTotalOrder();
    SortPermutationInvariant([t, n, k], [t', n', k'], LessEq);
  }

  /** Which of the three values arrives as timestamp, as nonce or as the token does not matter. */
  lemma VerifyPermutationInvariant(args: Args, authToken: string, args': Args, authToken': string, sha1: string -> string)
    requires HasRequiredArgs(args) && HasRequiredArgs(args')
    requires Arg(args, "signature") == Arg(args', "signature") && Arg(args, "echostr") == Arg(args', "echostr")
    requires multiset([Arg(args, "timestamp"), Arg(args, "nonce"), authToken])
          == multiset([Arg(args', "timestamp"), Arg(args', "nonce"), authToken'])
    ensures Verify(args, authToken, sha1) == Verify(args', authToken', sha1)
  {
    ExpectedSignaturePermutationInvariant(sha1, Arg(args, "timestamp"), Arg(args, "nonce"), authToken,
                                          Arg(args', "timestamp"), Arg(args', "nonce"), authToken');
  }

  /** The handshake from the platform's documentation: timestamp "1", nonce "2", token "s" sign "12s". */
  lemma VerifyExample(sha1: string -> string)
    ensures
      var args := map["signature" := [sha1("12s")], "timestamp" := ["1"], "nonce" := ["2"], "echostr" := ["ok"]];
      Verify(args, "s", sha1) == Ok("ok")
  {
    assert Less("1", "2") && Less("1", "s") && Less("2", "s");
    assert Sort(["2", "s"], LessEq) == ["2", "s"];
    assert Sort(["1", "2", "s"], LessEq) == ["1", "2", "s"];
    assert Concat(["1", "2", "s"]) == "12s";
  }

  /** Python truthiness of the objects `render_GET` hands to `all`. */
  datatype PyObject = FunctionObject | ListObject(items: seq<string>)

  predicate Truthy(o: PyObject) {
    match o
    case FunctionObject => true
    case ListObject(items) => |items| > 0
  }

  /** Python's `all` over a list. */
  predicate PyAll(os: seq<PyObject>) {
    forall i | 0 <= i < |os| :: Truthy(os[i])
  }

  /** The list `render_GET` passes to `all`: the lambda itself and the list of names, never the lambda applied to a name. */
  const GuardOperands: seq<PyObject> := [FunctionObject, ListObject(RequiredArgs)]

  lemma GuardAlwaysTrue()
    ensures PyAll(GuardOperands)
  {
    assert Truthy(GuardOperands[0]) && Truthy(GuardOperands[1]);
  }

  /** `WeChatResource.render_GET` as written. */
  function RenderGet(args: Args, authToken: string, sha1: string -> string): Result<string, ArgError> {
    if PyAll(GuardOperands) then Verify(args, authToken, sha1) else Ok("")
  }

  /** The guard never fails, so every GET goes to `verify`: the `''` branch after it is dead. */
  lemma RenderGetIsVerify(args: Args, authToken: string, sha1: string -> string)
    ensures RenderGet(args, authToken, sha1) == Verify(args, authToken, sha1)
  {
    GuardAlwaysTrue();
  }

  /** A GET with no query arguments raises `KeyError` (an HTTP 500) instead of answering `''`. */
  lemma RenderGetWithoutArgsRaises(authToken: string, sha1: string -> string)
    ensures RenderGet(map[], authToken, sha1) == Err(KeyError("signature"))
  {
    RenderGetIsVerify(map[], authToken, sha1);
  }

  /** `render_GET` with the guard it evidently means, `all(key in request.args for key in [...])`. */
  function RenderGetIntended(args: Args, authToken: string, sha1: string -> string): (r: Result<string, ArgError>)
    ensures r.Ok?
    ensures !HasRequiredArgs(args) ==> r.value == ""
    ensures HasRequiredArgs(args) ==>
      r.value == if SignatureMatches(sha1, Arg(args, "signature"), Arg(args, "timestamp"), Arg(args, "nonce"), authToken)
                 then Arg(args, "echostr") else ""
  {
    if HasRequiredArgs(args) then
      VerifyAnswersEchoIffSignatureMatches(args, authToken, sha1);
      Verify(args, authToken, sha1)
    else Ok("")
  }
}
