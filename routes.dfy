/**
 * The decision logic of src/api/routes.js: the API-key check, the URL
 * rewrite, the extraction of the prompt from an OpenAI-style message list,
 * the merge of `tools` and `functions`, the splitting of a reply into
 * stream frames, the defaults of a non-streamed reply, the per-account
 * classification of /status and the rejection of malformed requests.
 * Express, the response object and the delays between frames are left
 * out: each handler is a function from what it reads to what it writes.
 */
module Routes {
  import opened Util
  import opened JsonValues
  import opened TokenManager
  import opened StreamDecoder
  import opened ChatRequest

  // ---------------------------------------------------------------------
  // authMiddleware (src/api/routes.js:35-51)
  // ---------------------------------------------------------------------

  /** Let the request through, or answer 401 for a missing or malformed
   *  header, or for a key that is not listed. */
  datatype AuthDecision = Pass | MissingBearer | UnknownKey

  const BearerPrefix: string := "Bearer "

  /** The decision for the configured keys and the Authorization header
   *  ("" when the header is absent). */
  function Authorize(apiKeys: seq<string>, header: string): AuthDecision {
    if apiKeys == [] then Pass
    else if !StartsWith(header, BearerPrefix) then MissingBearer
    else if Trim(header[|BearerPrefix|..]) in apiKeys then Pass
    else UnknownKey
  }

  /** The body of the 401 reply for each refusal. */
  function AuthError(d: AuthDecision): (e: string)
    requires d != Pass
  {
    if d == MissingBearer then "Требуется авторизация" else "Недействительный токен"
  }

  /** With no keys configured everything passes; otherwise a request passes
   *  exactly when it carries `Bearer ` and a listed key, surrounding blanks
   *  of the key ignored. The two refusals tell a bad header from a bad key. */
  lemma AuthorizeSpec(apiKeys: seq<string>, header: string)
    ensures apiKeys == [] ==> Authorize(apiKeys, header) == Pass
    ensures apiKeys != [] ==>
              (Authorize(apiKeys, header) == Pass <==>
                 StartsWith(header, BearerPrefix) && Trim(header[7..]) in apiKeys)
    ensures Authorize(apiKeys, header) == MissingBearer <==> apiKeys != [] && !StartsWith(header, BearerPrefix)
    ensures Authorize(apiKeys, header) != Pass ==> AuthError(Authorize(apiKeys, header)) != []
  {
  }

  /** Every key read from the keys file opens the door when sent as
   *  `Bearer <key>`, with any blanks around the key. */
  lemma ListedKeyPasses(content: string, key: string, pad: string)
    requires key in AuthKeys(Some(content))
    requires forall i :: 0 <= i < |pad| ==> IsSpace(pad[i])
    ensures Authorize(AuthKeys(Some(content)), BearerPrefix + pad + key) == Pass
  {
    var keys := AuthKeys(Some(content));
    KeepLinesSpec(Split(content, '\n'));
    var h := BearerPrefix + pad + key;
    assert h[..|BearerPrefix|] == BearerPrefix;
    assert h[|BearerPrefix|..] == pad + key;
    TrimBlankPrefix(pad, key);
  }

  lemma {:induction false} TrimBlankPrefix(pad: string, key: string)
    requires forall i :: 0 <= i < |pad| ==> IsSpace(pad[i])
    requires Trim(key) == key && key != []
    ensures Trim(pad + key) == key
  {
    TrimShape(key);
    LeadingBlanksOver(pad, key);
    KeptLengthOver(pad, key);
    assert (pad + key)[|pad|..] == key;
  }

  lemma {:induction false} LeadingBlanksOver(pad: string, key: string)
    requires forall i :: 0 <= i < |pad| ==> IsSpace(pad[i])
    requires key != [] && !IsSpace(key[0])
    ensures LeadingBlanks(pad + key) == |pad|
  {
    if pad != [] {
      assert (pad + key)[1..] == pad[1..] + key;
      LeadingBlanksOver(pad[1..], key);
    }
  }

  lemma KeptLengthOver(pad: string, key: string)
    requires key != [] && !IsSpace(key[|key| - 1])
    ensures KeptLength(pad + key) == |pad + key|
  {
  }

  // ---------------------------------------------------------------------
  // The URL rewrite (src/api/routes.js:54-57)
  // ---------------------------------------------------------------------

  /** A `/v1` or `/v2` segment starts at `i`: the three characters are
   *  followed by `/` or by the end of the URL. */
  predicate VersionAt(u: string, i: nat) {
    && i + 3 <= |u| && u[i] == '/' && u[i + 1] == 'v' && (u[i + 2] == '1' || u[i + 2] == '2')
    && (i + 3 == |u| || u[i + 3] == '/')
  }

  predicate NoVersionSegment(u: string) {
    forall i :: 0 <= i < |u| ==> !VersionAt(u, i)
  }

  predicate NoDoubleSlash(u: string) {
    forall i :: 0 <= i < |u| - 1 ==> !(u[i] == '/' && u[i + 1] == '/')
  }

  /** `replace(/\/v[12](?=\/|$)/g, '')`: scanning from the left, each
   *  version segment is dropped; the look-ahead consumes nothing, so
   *  `/v1/v2` loses both. */
  function StripVersions(u: string): string
    decreases |u|
  {
    if u == [] then []
    else if VersionAt(u, 0) then StripVersions(u[3..])
    else [u[0]] + StripVersions(u[1..])
  }

  /** `replace(/\/+/g, '/')`: every run of slashes becomes one. */
  function CollapseSlashes(u: string): string
    decreases |u|
  {
    if u == [] then []
    else if |u| >= 2 && u[0] == '/' && u[1] == '/' then CollapseSlashes(u[1..])
    else [u[0]] + CollapseSlashes(u[1..])
  }

  function RewriteUrl(u: string): string {
    CollapseSlashes(StripVersions(u))
  }

  lemma VersionAtShift(u: string, i: nat)
    requires u != []
    ensures VersionAt(u[1..], i) <==> VersionAt(u, i + 1)
  {
  }

  /** What StripVersions does to the first character: a URL that is empty
   *  or starts with `/` gives one that is empty or starts with `/`, and any
   *  other first character is kept. */
  lemma {:induction false} StripFirst(u: string)
    ensures u == [] || u[0] == '/' ==> StripVersions(u) == [] || StripVersions(u)[0] == '/'
    ensures u != [] && u[0] != '/' ==> StripVersions(u) != [] && StripVersions(u)[0] == u[0]
    decreases |u|
  {
    if u != [] && VersionAt(u, 0) {
      StripFirst(u[3..]);
    }
  }

  /** No version segment survives the first replace. */
  lemma {:induction false} StripLeavesNoVersion(u: string)
    ensures NoVersionSegment(StripVersions(u))
    decreases |u|
  {
    if u == [] {
    } else if VersionAt(u, 0) {
      StripLeavesNoVersion(u[3..]);
    } else {
      var t := u[1..];
      var rest := StripVersions(t);
      var r := StripVersions(u);
      assert r == [u[0]] + rest;
      StripLeavesNoVersion(t);
      forall i | 0 <= i < |r| ensures !VersionAt(r, i) {
        if i > 0 {
          VersionAtShift(r, i - 1);
          assert r[1..] == rest;
        } else {
          StripFront(u);
        }
      }
    }
  }

  /** A version segment at the front of the result of a kept first
   *  character was already there in the input. */
  lemma StripFront(u: string)
    requires u != []
    ensures VersionAt([u[0]] + StripVersions(u[1..]), 0) ==> VersionAt(u, 0)
  {
    var t := u[1..];
    var r := [u[0]] + StripVersions(t);
    if VersionAt(r, 0) {
      StripFirst(t);
      assert t != [] && t[0] == 'v';
      StripFirst(t[1..]);
      assert StripVersions(t) == [t[0]] + StripVersions(t[1..]);
      assert t[1..] != [] && t[1] == r[2];
      assert StripVersions(t[1..]) == [t[1]] + StripVersions(t[2..]);
      assert t[1..][1..] == t[2..];
      StripFirst(t[2..]);
      assert r == [u[0], t[0], t[1]] + StripVersions(t[2..]);
    }
  }

  /** CollapseSlashes keeps the first character. */
  lemma CollapseFirst(u: string)
    ensures u == [] <==> CollapseSlashes(u) == []
    ensures u != [] ==> CollapseSlashes(u)[0] == u[0]
  {
  }

  /** After the second replace no two slashes are adjacent. */
  lemma {:induction false} CollapseLeavesNoDoubleSlash(u: string)
    ensures NoDoubleSlash(CollapseSlashes(u))
    decreases |u|
  {
    if u != [] {
      CollapseLeavesNoDoubleSlash(u[1..]);
      if !(|u| >= 2 && u[0] == '/' && u[1] == '/') {
        var rest := CollapseSlashes(u[1..]);
        var r := [u[0]] + rest;
        CollapseFirst(u[1..]);
        forall i | 0 <= i < |r| - 1 ensures !(r[i] == '/' && r[i + 1] == '/') {
          if i > 0 {
            assert r[i] == rest[i - 1] && r[i + 1] == rest[i];
          }
        }
      }
    }
  }

  /** The second replace cannot make a version segment: it only drops a
   *  slash that another slash follows. */
  lemma {:induction false} CollapseKeepsNoVersion(u: string)
    requires NoVersionSegment(u)
    ensures NoVersionSegment(CollapseSlashes(u))
    decreases |u|
  {
    if u != [] {
      assert NoVersionSegment(u[1..]) by {
        forall i | 0 <= i < |u[1..]| ensures !VersionAt(u[1..], i) {
          VersionAtShift(u, i);
        }
      }
      CollapseKeepsNoVersion(u[1..]);
      if !(|u| >= 2 && u[0] == '/' && u[1] == '/') {
        var t := u[1..];
        var rest := CollapseSlashes(t);
        var r := [u[0]] + rest;
        forall i | 0 <= i < |r| ensures !VersionAt(r, i) {
          if i > 0 {
            VersionAtShift(r, i - 1);
            assert r[1..] == rest;
          } else {
            CollapseFront(u);
          }
        }
      }
    }
  }

  /** A version segment at the front of the result of a kept first
   *  character was already there in the input. */
  lemma CollapseFront(u: string)
    requires u != []
    ensures VersionAt([u[0]] + CollapseSlashes(u[1..]), 0) ==> VersionAt(u, 0)
  {
    var t := u[1..];
    var r := [u[0]] + CollapseSlashes(t);
    if VersionAt(r, 0) {
      CollapseFirst(t);
      assert t[0] == 'v';
      assert CollapseSlashes(t) == [t[0]] + CollapseSlashes(t[1..]);
      CollapseFirst(t[1..]);
      assert t[1..] != [] && t[1] == r[2] && t[1] != '/';
      assert CollapseSlashes(t[1..]) == [t[1]] + CollapseSlashes(t[2..]);
      assert t[1..][1..] == t[2..];
      CollapseFirst(t[2..]);
      assert r == [u[0], t[0], t[1]] + CollapseSlashes(t[2..]);
    }
  }

  /** The rewritten URL has no `/v1` or `/v2` segment and no `//`. */
  lemma RewriteSpec(u: string)
    ensures NoVersionSegment(RewriteUrl(u)) && NoDoubleSlash(RewriteUrl(u))
  {
    StripLeavesNoVersion(u);
    CollapseKeepsNoVersion(StripVersions(u));
    CollapseLeavesNoDoubleSlash(StripVersions(u));
  }

  /** `a` is what is left of `b` after deleting some of its characters. */
  predicate IsSubsequence(a: string, b: string)
    decreases |b|
  {
    a == [] || (b != [] && ((a[0] == b[0] && IsSubsequence(a[1..], b[1..])) || IsSubsequence(a, b[1..])))
  }

  lemma {:induction false} SubsequenceTrans(a: string, b: string, c: string)
    requires IsSubsequence(a, b) && IsSubsequence(b, c)
    ensures IsSubsequence(a, c)
    decreases |c|
  {
    if a != [] {
      if IsSubsequence(b, c[1..]) {
        SubsequenceTrans(a, b, c[1..]);
      } else if a[0] == b[0] && IsSubsequence(a[1..], b[1..]) {
        SubsequenceTrans(a[1..], b[1..], c[1..]);
      } else {
        SubsequenceTrans(a, b[1..], c[1..]);
      }
    }
  }

  /** Dropping a prefix of the longer string keeps a subsequence one. */
  lemma {:induction false} SubsequenceOfSuffix(a: string, b: string, k: nat)
    requires k <= |b| && IsSubsequence(a, b[k..])
    ensures IsSubsequence(a, b)
    decreases k
  {
    if k > 0 {
      assert b[1..][k - 1..] == b[k..];
      SubsequenceOfSuffix(a, b[1..], k - 1);
    }
  }

  lemma {:induction false} StripIsSubsequence(u: string)
    ensures IsSubsequence(StripVersions(u), u)
    decreases |u|
  {
    if u != [] {
      if VersionAt(u, 0) {
        StripIsSubsequence(u[3..]);
        SubsequenceOfSuffix(StripVersions(u), u, 3);
      } else {
        StripIsSubsequence(u[1..]);
        assert StripVersions(u)[1..] == StripVersions(u[1..]);
      }
    }
  }

  lemma {:induction false} CollapseIsSubsequence(u: string)
    ensures IsSubsequence(CollapseSlashes(u), u)
    decreases |u|
  {
    if u != [] {
      CollapseIsSubsequence(u[1..]);
      if |u| >= 2 && u[0] == '/' && u[1] == '/' {
        SubsequenceOfSuffix(CollapseSlashes(u), u, 1);
      } else {
        assert CollapseSlashes(u)[1..] == CollapseSlashes(u[1..]);
      }
    }
  }

  /** The rewrite only deletes characters: what is left keeps the rest of
   *  the URL in order. */
  lemma RewriteOnlyDeletes(u: string)
    ensures IsSubsequence(RewriteUrl(u), u)
  {
    StripIsSubsequence(u);
    CollapseIsSubsequence(StripVersions(u));
    SubsequenceTrans(RewriteUrl(u), StripVersions(u), u);
  }

  /** A URL already in that form is left alone, so rewriting twice is
   *  rewriting once. */
  lemma {:induction false} StripNothing(u: string)
    requires NoVersionSegment(u)
    ensures StripVersions(u) == u
    decreases |u|
  {
    if u != [] {
      assert !VersionAt(u, 0);
      forall i | 0 <= i < |u[1..]| ensures !VersionAt(u[1..], i) {
        VersionAtShift(u, i);
      }
      StripNothing(u[1..]);
    }
  }

  lemma {:induction false} CollapseNothing(u: string)
    requires NoDoubleSlash(u)
    ensures CollapseSlashes(u) == u
    decreases |u|
  {
    if u != [] {
      assert NoDoubleSlash(u[1..]) by {
        forall i | 0 <= i < |u[1..]| - 1 ensures !(u[1..][i] == '/' && u[1..][i + 1] == '/') {
          assert u[1..][i] == u[i + 1] && u[1..][i + 1] == u[i + 2];
        }
      }
      CollapseNothing(u[1..]);
    }
  }

  lemma RewriteIdempotent(u: string)
    ensures RewriteUrl(RewriteUrl(u)) == RewriteUrl(u)
  {
    RewriteSpec(u);
    StripNothing(RewriteUrl(u));
    CollapseNothing(RewriteUrl(u));
  }

  /** A request for `/v1/chat` reaches the `/chat` handler. */
  lemma RewriteExamples()
    ensures RewriteUrl("/v1/chat") == "/chat"
  {
    var u := "/v1/chat";
    assert VersionAt(u, 0);
    assert u[3..] == "/chat";
    assert !VersionAt("/chat", 0);
    assert StripVersions("/chat") == "/chat" by {
      StripNothing("/chat");
    }
  }

  // ---------------------------------------------------------------------
  // parseOpenAIMessages and buildCombinedTools (src/api/routes.js:61-72)
  // ---------------------------------------------------------------------

  predicate HasRole(m: Json, role: string) {
    Get(m, "role") == JStr(role)
  }

  /** The index `messages.find` stops at. */
  function FirstWithRole(ms: seq<Json>, role: string): (r: Option<nat>)
    ensures r.None? <==> forall k :: 0 <= k < |ms| ==> !HasRole(ms[k], role)
    ensures r.Some? ==> r.value < |ms| && HasRole(ms[r.value], role)
                        && forall k :: 0 <= k < r.value ==> !HasRole(ms[k], role)
  {
    if ms == [] then None
    else if HasRole(ms[0], role) then Some(0)
    else
      var r := FirstWithRole(ms[1..], role);
      assert forall k :: 1 <= k < |ms| ==> ms[k] == ms[1..][k - 1];
      if r.None? then None else Some(r.value + 1)
  }

  /** The index `messages.filter(...).pop()` takes. */
  function LastWithRole(ms: seq<Json>, role: string): (r: Option<nat>)
    ensures r.None? <==> forall k :: 0 <= k < |ms| ==> !HasRole(ms[k], role)
    ensures r.Some? ==> r.value < |ms| && HasRole(ms[r.value], role)
                        && forall k :: r.value < k < |ms| ==> !HasRole(ms[k], role)
  {
    if ms == [] then None
    else if HasRole(ms[|ms| - 1], role) then Some(|ms| - 1)
    else
      var r := LastWithRole(ms[..|ms| - 1], role);
      assert forall k :: 0 <= k < |ms| - 1 ==> ms[k] == ms[..|ms| - 1][k];
      r
  }

  /** The prompt and the system message of an OpenAI-style request;
   *  `JNull` where there is none. */
  datatype Prompt = Prompt(content: Json, system: Json)

  function ContentAt(ms: seq<Json>, k: Option<nat>): Json
    requires k.Some? ==> k.value < |ms|
  {
    if k.Some? then Get(ms[k.value], "content") else JNull
  }

  /** `None` when reading `msg.role` throws: `filter` visits every
   *  element, so a single `null` in the list is enough. */
  function ParseOpenAIMessages(ms: seq<Json>): (r: Option<Prompt>)
    ensures r.None? <==> JNull in ms
  {
    if JNull in ms then None
    else Some(Prompt(ContentAt(ms, LastWithRole(ms, "user")), ContentAt(ms, FirstWithRole(ms, "system"))))
  }

  /** The prompt is the content of the last user message and the system
   *  message the content of the first system message; each is `JNull`
   *  exactly when no message has that role or its content is missing. */
  lemma ParseOpenAIMessagesSpec(ms: seq<Json>, k: nat)
    requires JNull !in ms && k < |ms|
    ensures HasRole(ms[k], "user") && (forall j :: k < j < |ms| ==> !HasRole(ms[j], "user")) ==>
              ParseOpenAIMessages(ms).value.content == Get(ms[k], "content")
    ensures HasRole(ms[k], "system") && (forall j :: 0 <= j < k ==> !HasRole(ms[j], "system")) ==>
              ParseOpenAIMessages(ms).value.system == Get(ms[k], "content")
  {
    var u := LastWithRole(ms, "user");
    var s := FirstWithRole(ms, "system");
    if HasRole(ms[k], "user") && (forall j :: k < j < |ms| ==> !HasRole(ms[j], "user")) {
      assert u.Some?;
      if u.value < k {
        assert false;
      }
    }
    if HasRole(ms[k], "system") && (forall j :: 0 <= j < k ==> !HasRole(ms[j], "system")) {
      assert s.Some?;
      if s.value > k {
        assert false;
      }
    }
  }

  lemma NoUserMessage(ms: seq<Json>)
    requires JNull !in ms && forall k :: 0 <= k < |ms| ==> !HasRole(ms[k], "user")
    ensures ParseOpenAIMessages(ms).value.content == JNull
  {
  }

  function WrapFunction(fn: Json): Json {
    JObj(map["type" := JStr("function"), "function" := fn])
  }

  /** `tools || (functions ? functions.map(...) : null)`; `None` when
   *  `functions` is truthy but not an array, so that `.map` throws. */
  function BuildCombinedTools(tools: Json, functions: Json): (r: Option<Json>)
  {
    if Truthy(tools) then Some(tools)
    else if !Truthy(functions) then Some(JNull)
    else if functions.JArr? then
      Some(JArr(seq(|functions.items|, k requires 0 <= k < |functions.items| => WrapFunction(functions.items[k]))))
    else None
  }

  /** Given tools win as they are; otherwise each legacy function becomes a
   *  `{type: 'function', function}` entry, in order; with neither there are
   *  no tools; and only a non-array `functions` throws. */
  lemma CombinedToolsSpec(tools: Json, functions: Json)
    ensures BuildCombinedTools(tools, functions).None? <==>
              !Truthy(tools) && Truthy(functions) && !functions.JArr?
    ensures Truthy(tools) ==> BuildCombinedTools(tools, functions) == Some(tools)
    ensures !Truthy(tools) && functions.JArr? ==>
              var r := BuildCombinedTools(tools, functions).value;
              && r.JArr? && |r.items| == |functions.items|
              && forall k :: 0 <= k < |r.items| ==>
                   Get(r.items[k], "type") == JStr("function") && Get(r.items[k], "function") == functions.items[k]
    ensures !Truthy(tools) && !Truthy(functions) ==> BuildCombinedTools(tools, functions) == Some(JNull)
  {
  }

  // ---------------------------------------------------------------------
  // handleStreamingResponse (src/api/routes.js:76-127)
  // ---------------------------------------------------------------------

  const ChunkSize: nat := 16

  /** The frames written, without the `id`/`object`/`created`/`model`
   *  envelope every one of them carries. */
  datatype Frame =
    | RoleFrame                  // delta {role: 'assistant'}
    | ContentFrame(text: string) // delta {content}, finish_reason null
    | StopFrame                  // delta {}, finish_reason 'stop'
    | FailureFrame(text: string) // delta {content}, finish_reason 'stop'
    | DoneFrame                  // data: [DONE]

  /** `codePoints.slice(i, i + 16)` for i = 0, 16, 32, ... (a Dafny `char`
   *  is one code point). */
  function Chunks(cps: string): seq<string>
    decreases |cps|
  {
    if cps == [] then []
    else if |cps| <= ChunkSize then [cps]
    else [cps[..ChunkSize]] + Chunks(cps[ChunkSize..])
  }

  /** The chunks put back together are the content; there are ⌈n/16⌉ of
   *  them, each non-empty and at most 16 code points, all but the last
   *  exactly 16. */
  lemma {:induction false} ChunksSpec(cps: string)
    ensures Concat(Chunks(cps)) == cps
    ensures |Chunks(cps)| == (|cps| + ChunkSize - 1) / ChunkSize
    ensures forall k :: 0 <= k < |Chunks(cps)| ==> 1 <= |Chunks(cps)[k]| <= ChunkSize
    ensures forall k :: 0 <= k < |Chunks(cps)| - 1 ==> |Chunks(cps)[k]| == ChunkSize
    decreases |cps|
  {
    if |cps| > ChunkSize {
      var rest := cps[ChunkSize..];
      ChunksSpec(rest);
      assert Chunks(cps) == [cps[..ChunkSize]] + Chunks(rest);
      assert cps[..ChunkSize] + rest == cps;
      forall k | 1 <= k < |Chunks(cps)| ensures Chunks(cps)[k] == Chunks(rest)[k - 1] {
      }
    } else if cps != [] {
      assert Concat([cps]) == cps + Concat([]);
    }
  }

  function ContentFrames(chunks: seq<string>): (r: seq<Frame>)
    ensures |r| == |chunks| && forall k :: 0 <= k < |r| ==> r[k] == ContentFrame(chunks[k])
  {
    seq(|chunks|, k requires 0 <= k < |chunks| => ContentFrame(chunks[k]))
  }

  /** The loop `for (i = 0; i < n; i += 16)`, one content frame per slice. */
  method WriteChunks(cps: string) returns (frames: seq<Frame>)
    ensures frames == ContentFrames(Chunks(cps))
  {
    frames := [];
    ghost var chunks: seq<string> := [];
    var i := 0;
    while i < |cps|
      invariant 0 <= i <= |cps| + ChunkSize
      invariant frames == ContentFrames(chunks)
      invariant i < |cps| ==> chunks + Chunks(cps[i..]) == Chunks(cps)
      invariant i >= |cps| ==> chunks == Chunks(cps)
      decreases |cps| - i
    {
      var stop := if i + ChunkSize < |cps| then i + ChunkSize else |cps|;
      if |cps| - i > ChunkSize {
        assert cps[i..][ChunkSize..] == cps[i + ChunkSize..];
        assert cps[i..][..ChunkSize] == cps[i..stop];
        assert Chunks(cps[i..]) == [cps[i..stop]] + Chunks(cps[i + ChunkSize..]);
      } else {
        assert cps[i..] == cps[i..stop];
      }
      frames := frames + [ContentFrame(cps[i..stop])];
      chunks := chunks + [cps[i..stop]];
      i := i + ChunkSize;
    }
  }

  /** `result.choices?.[0]?.message`. */
  function MessageOf(result: Json): Json {
    Get(First(Get(result, "choices")), "message")
  }

  /** `String(result.choices[0].message.content || '')`. */
  function ReplyText(result: Json): string {
    JsText(FirstTruthy([Get(MessageOf(result), "content"), JStr("")]))
  }

  const StreamFailureText: string := "Internal server error"

  /** Every frame written for a request, given what sendMessage returned
   *  (`None` when it threw; reading `error` of a `null` result throws
   *  too). The role frame is written before sendMessage is called. */
  function StreamFrames(result: Option<Json>): seq<Frame> {
    if result.None? || result.value.JNull? then [RoleFrame, FailureFrame(StreamFailureText), DoneFrame]
    else
      var r := result.value;
      if Truthy(Get(r, "error")) then [RoleFrame, ContentFrame("Error: " + JsText(Get(r, "error"))), StopFrame, DoneFrame]
      else if Truthy(MessageOf(r)) then ReplyFrames(ReplyText(r))
      else [RoleFrame, StopFrame, DoneFrame]
  }

  method HandleStreamingResponse(result: Option<Json>) returns (frames: seq<Frame>)
    ensures frames == StreamFrames(result)
  {
    frames := [RoleFrame];
    if result.None? || result.value.JNull? {
      return frames + [FailureFrame(StreamFailureText), DoneFrame];
    }
    var r := result.value;
    if Truthy(Get(r, "error")) {
      frames := frames + [ContentFrame("Error: " + JsText(Get(r, "error")))];
    } else if Truthy(MessageOf(r)) {
      var content := WriteChunks(ReplyText(r));
      frames := frames + content;
    }
    frames := frames + [StopFrame, DoneFrame];
  }

  /** The text a client reads from the content frames. */
  function StreamedText(frames: seq<Frame>): string {
    if frames == [] then []
    else (if frames[0].ContentFrame? then frames[0].text else []) + StreamedText(frames[1..])
  }

  lemma {:induction false} StreamedTextAppend(a: seq<Frame>, b: seq<Frame>)
    ensures StreamedText(a + b) == StreamedText(a) + StreamedText(b)
    decreases |a|
  {
    if a != [] {
      assert (a + b)[1..] == a[1..] + b;
      StreamedTextAppend(a[1..], b);
    } else {
      assert a + b == b;
    }
  }

  lemma {:induction false} QuietFrames(frames: seq<Frame>)
    requires forall k :: 0 <= k < |frames| ==> !frames[k].ContentFrame?
    ensures StreamedText(frames) == []
    decreases |frames|
  {
    if frames != [] {
      QuietFrames(frames[1..]);
    }
  }

  lemma {:induction false} StreamedChunks(chunks: seq<string>)
    ensures StreamedText(ContentFrames(chunks)) == Concat(chunks)
    decreases |chunks|
  {
    if chunks != [] {
      assert ContentFrames(chunks)[1..] == ContentFrames(chunks[1..]);
      StreamedChunks(chunks[1..]);
    }
  }

  /** The stream always opens with the role frame and closes with
   *  `[DONE]`, after the stop frame unless sendMessage threw; a throw
   *  writes a stop-marked failure frame and no content. */
  lemma StreamFramesEnds(result: Option<Json>)
    ensures var f := StreamFrames(result);
            && |f| >= 3 && f[0] == RoleFrame && f[|f| - 1] == DoneFrame
            && ((result.None? || result.value.JNull?) <==> f[1] == FailureFrame(StreamFailureText))
            && (result.Some? && !result.value.JNull? ==> f[|f| - 2] == StopFrame)
  {
  }

  lemma StreamThrewIsQuiet(result: Option<Json>)
    requires result.None? || result.value.JNull?
    ensures StreamedText(StreamFrames(result)) == []
  {
    QuietFrames(StreamFrames(result));
  }

  /** An error reply is streamed as one content frame `Error: <error>`. */
  lemma StreamErrorText(r: Json)
    requires !r.JNull? && Truthy(Get(r, "error"))
    ensures StreamedText(StreamFrames(Some(r))) == "Error: " + JsText(Get(r, "error"))
  {
    var f := StreamFrames(Some(r));
    QuietFrames(f[2..]);
    assert f == [f[0], f[1]] + f[2..];
    StreamedTextAppend([f[0], f[1]], f[2..]);
  }

  /** The frames of a reply that carries a message. */
  function ReplyFrames(text: string): seq<Frame> {
    [RoleFrame] + ContentFrames(Chunks(text)) + [StopFrame, DoneFrame]
  }

  lemma ReplyFramesText(text: string)
    ensures StreamedText(ReplyFrames(text)) == text
  {
    var mid := ContentFrames(Chunks(text));
    assert ReplyFrames(text) == [RoleFrame] + (mid + [StopFrame, DoneFrame]);
    StreamedTextAppend([RoleFrame], mid + [StopFrame, DoneFrame]);
    StreamedTextAppend(mid, [StopFrame, DoneFrame]);
    StreamedChunks(Chunks(text));
    ChunksSpec(text);
    QuietFrames([StopFrame, DoneFrame]);
    QuietFrames([RoleFrame]);
  }

  lemma ReplyFramesSizes(text: string)
    ensures forall k :: 0 <= k < |ReplyFrames(text)| && ReplyFrames(text)[k].ContentFrame? ==>
              1 <= |ReplyFrames(text)[k].text| <= ChunkSize
  {
    var f := ReplyFrames(text);
    var mid := ContentFrames(Chunks(text));
    ChunksSpec(text);
    forall k | 0 <= k < |f| && f[k].ContentFrame? ensures 1 <= |f[k].text| <= ChunkSize {
      assert 1 <= k <= |mid| && f[k] == mid[k - 1];
    }
  }

  /** A reply's content is streamed whole and in order, in frames of at
   *  most 16 code points; a result with no message streams nothing. */
  lemma StreamReplyText(r: Json)
    requires !r.JNull? && !Truthy(Get(r, "error"))
    ensures StreamedText(StreamFrames(Some(r))) == (if Truthy(MessageOf(r)) then ReplyText(r) else [])
    ensures forall k :: 0 <= k < |StreamFrames(Some(r))| && StreamFrames(Some(r))[k].ContentFrame? ==>
              1 <= |StreamFrames(Some(r))[k].text| <= ChunkSize
  {
    if Truthy(MessageOf(r)) {
      ReplyFramesText(ReplyText(r));
      ReplyFramesSizes(ReplyText(r));
    } else {
      QuietFrames(StreamFrames(Some(r)));
    }
  }

  // ---------------------------------------------------------------------
  // handleNonStreamingResponse (src/api/routes.js:131-146)
  // ---------------------------------------------------------------------

  /** The reply: `res.json(...)` with the completion, or a 500 whose body
   *  is `{error: {message, type: 'server_error'}}`. */
  datatype Completion = Completion(id: Json, object: string, created: nat, model: Json, choices: Json,
                                   usage: Json, chatId: Json, parentId: Json)
  datatype NonStreamed = Completed(completion: Completion) | ServerFailure(message: Json)

  const InternalError: string := "Внутренняя ошибка сервера"

  const DefaultChoices: Json :=
    JArr([JObj(map["index" := JNum(0),
                   "message" := JObj(map["role" := JStr("assistant"), "content" := JStr("")]),
                   "finish_reason" := JStr("stop")])])

  /** The reply to a non-streamed completion, at time `now` (ms). A `null`
   *  result makes reading `error` throw, which the route turns into its
   *  own 500. */
  function NonStreamingReply(result: Json, mappedModel: string, now: nat): NonStreamed {
    if result.JNull? then ServerFailure(JStr(InternalError))
    else if Truthy(Get(result, "error")) then ServerFailure(Get(result, "error"))
    else
      Completed(Completion(
        FirstTruthy([Get(result, "id"), JStr("chatcmpl-" + NatToString(now))]),
        "chat.completion",
        now / 1000,
        FirstTruthy([Get(result, "model"), JStr(mappedModel)]),
        FirstTruthy([Get(result, "choices"), DefaultChoices]),
        FirstTruthy([Get(result, "usage"), ZeroUsage]),
        Get(result, "chatId"),
        Get(result, "parentId")))
  }

  /** An error is a 500 `server_error` carrying the error as it is;
   *  otherwise each of `id`, `model`, `choices` and `usage` is kept when the
   *  result has it and defaulted only when it is missing, so the reply is
   *  never without them. */
  lemma NonStreamingSpec(result: Json, mappedModel: string, now: nat)
    ensures NonStreamingReply(result, mappedModel, now).ServerFailure? <==> result.JNull? || Truthy(Get(result, "error"))
    ensures !result.JNull? && Truthy(Get(result, "error")) ==>
              NonStreamingReply(result, mappedModel, now) == ServerFailure(Get(result, "error"))
    ensures var r := NonStreamingReply(result, mappedModel, now);
            r.Completed? ==>
              var c := r.completion;
              && Truthy(c.id) && Truthy(c.choices) && Truthy(c.usage)
              && (Truthy(Get(result, "id")) ==> c.id == Get(result, "id"))
              && (Truthy(Get(result, "model")) ==> c.model == Get(result, "model"))
              && (Truthy(Get(result, "choices")) ==> c.choices == Get(result, "choices"))
              && (Truthy(Get(result, "usage")) ==> c.usage == Get(result, "usage"))
              && (!Truthy(Get(result, "model")) ==> c.model == JStr(mappedModel))
              && (!Truthy(Get(result, "choices")) ==> c.choices == DefaultChoices)
              && (!Truthy(Get(result, "usage")) ==> c.usage == ZeroUsage)
              && c.chatId == Get(result, "chatId") && c.parentId == Get(result, "parentId")
  {
    FirstTruthySpec([Get(result, "id"), JStr("chatcmpl-" + NatToString(now))]);
    FirstTruthySpec([Get(result, "model"), JStr(mappedModel)]);
    FirstTruthySpec([Get(result, "choices"), DefaultChoices]);
    FirstTruthySpec([Get(result, "usage"), ZeroUsage]);
  }

  // ---------------------------------------------------------------------
  // What reaches the handlers for an answered call
  // ---------------------------------------------------------------------

  /** The object sendMessage returns for a decoded reply
   *  (src/api/chat.js:574-598 and 774-781): the completion, with the chat
   *  id, the response id as the next parent id, and an id. */
  function AnswerBody(d: Decoded, model: string, chatId: string, created: nat): Json {
    JObj(map[
      "id" := d.id,
      "object" := JStr("chat.completion"),
      "created" := JNum(created),
      "model" := JStr(model),
      "choices" := AnswerChoices(d.content),
      "usage" := d.usage,
      "response_id" := d.responseId,
      "chatId" := JStr(chatId),
      "parentId" := d.responseId])
  }

  function AnswerChoices(content: string): Json {
    JArr([JObj(map["index" := JNum(0),
                   "message" := JObj(map["role" := JStr("assistant"), "content" := JStr(content)]),
                   "finish_reason" := JStr("stop")])])
  }

  lemma AnswerBodyFields(d: Decoded, model: string, chatId: string, created: nat)
    ensures var b := AnswerBody(d, model, chatId, created);
            && Get(b, "error") == JNull && Get(b, "id") == d.id && Get(b, "usage") == d.usage
            && Get(b, "choices") == AnswerChoices(d.content) && Get(b, "parentId") == d.responseId
  {
  }

  /** A streamed answer delivers exactly the decoded text. */
  lemma AnswerStreamsDecodedText(d: Decoded, model: string, chatId: string, created: nat)
    ensures StreamedText(StreamFrames(Some(AnswerBody(d, model, chatId, created)))) == d.content
  {
    var b := AnswerBody(d, model, chatId, created);
    AnswerBodyFields(d, model, chatId, created);
    assert Truthy(MessageOf(b));
    FirstTruthySpec([Get(MessageOf(b), "content"), JStr("")]);
    assert ReplyText(b) == d.content;
    StreamReplyText(b);
  }

  /** A non-streamed answer is a 200 whose id, usage and text are the
   *  decoder's, whatever the stream held. */
  lemma AnswerRepliesDecoded(chunks: seq<string>, parse: string -> Option<Json>, stamp: nat,
                             model: string, chatId: string, created: nat, mappedModel: string, now: nat)
    ensures var d := Decode(chunks, parse, stamp);
            var r := NonStreamingReply(AnswerBody(d, model, chatId, created), mappedModel, now);
            && r.Completed?
            && r.completion.id == d.id && r.completion.usage == d.usage
            && Get(Get(First(r.completion.choices), "message"), "content") == JStr(d.content)
            && r.completion.parentId == d.responseId
  {
    var d := Decode(chunks, parse, stamp);
    AnswerReplies(d, model, chatId, created, mappedModel, now);
  }

  /** The same for any decoded answer with a truthy id and usage. */
  lemma AnswerReplies(d: Decoded, model: string, chatId: string, created: nat, mappedModel: string, now: nat)
    requires Truthy(d.id) && Truthy(d.usage)
    ensures var r := NonStreamingReply(AnswerBody(d, model, chatId, created), mappedModel, now);
            && r.Completed?
            && r.completion.id == d.id && r.completion.usage == d.usage
            && Get(Get(First(r.completion.choices), "message"), "content") == JStr(d.content)
            && r.completion.parentId == d.responseId
  {
    AnswerBodyFields(d, model, chatId, created);
  }

  // ---------------------------------------------------------------------
  // /status (src/api/routes.js:212-248)
  // ---------------------------------------------------------------------

  /** One entry of the `accounts` list. */
  datatype Account = Account(id: string, status: string, resetAt: Option<int>)

  /** `t.resetAt` is truthy (a stored 0 is not). */
  predicate HasReset(t: Token) {
    t.resetAt.Some? && t.resetAt.value != 0
  }

  predicate Waiting(t: Token, now: int) {
    HasReset(t) && t.resetAt.value > now
  }

  function StatusName(r: TokenTest): string {
    match r
    case OK => "OK"
    case RATELIMIT => "WAIT"
    case UNAUTHORIZED => "INVALID"
    case ERROR => "ERROR"
  }

  /** One account: a pending reset waits without a probe; otherwise the
   *  probe's verdict decides the status and the mark applied to the store. */
  function CheckAccount(s: Store, t: Token, now: int, probe: string -> Probe): (Account, Store) {
    var acc := Account(t.id, "UNKNOWN", if HasReset(t) then t.resetAt else None);
    if Waiting(t, now) then (acc.(status := "WAIT"), s)
    else
      var verdict := TestToken(probe(t.secret));
      var s1 := match verdict
        case OK => if t.invalid || HasReset(t) then s.MarkValid(t.id, []) else s
        case RATELIMIT => s.MarkRateLimited(t.id, 24, now)
        case UNAUTHORIZED => if !t.invalid then s.MarkInvalid(t.id) else s
        case ERROR => s;
      (acc.(status := StatusName(verdict)), s1)
  }

  /** All accounts of the list read at the start, in order; the marks are
   *  applied one after the other. */
  function CheckAccounts(s: Store, ts: seq<Token>, now: int, probe: string -> Probe): (seq<Account>, Store)
    decreases |ts|
  {
    if ts == [] then ([], s)
    else
      var (acc, s1) := CheckAccount(s, ts[0], now, probe);
      var (rest, s2) := CheckAccounts(s1, ts[1..], now, probe);
      ([acc] + rest, s2)
  }

  /** The body of the `tokens.map(async t => ...)` callback. */
  method CheckOne(pool: TokenPool, t: Token, now: int, probe: string -> Probe) returns (acc: Account)
    modifies pool
    ensures (acc, pool.State()) == CheckAccount(old(pool.State()), t, now, probe)
  {
    acc := Account(t.id, "UNKNOWN", if HasReset(t) then t.resetAt else None);
    if Waiting(t, now) {
      return acc.(status := "WAIT");
    }
    var verdict := TestToken(probe(t.secret));
    acc := acc.(status := StatusName(verdict));
    match verdict
    case OK =>
      if t.invalid || HasReset(t) {
        pool.MarkValid(t.id, []);
      }
    case RATELIMIT =>
      pool.MarkRateLimited(t.id, 24, now);
    case UNAUTHORIZED =>
      if !t.invalid {
        pool.MarkInvalid(t.id);
      }
    case ERROR =>
  }

  /** The probes of /status, run one after the other against the pool. */
  method AccountStatuses(pool: TokenPool, now: int, probe: string -> Probe) returns (accounts: seq<Account>)
    modifies pool
    ensures (accounts, pool.State()) == CheckAccounts(old(pool.State()), old(pool.State().Load()), now, probe)
  {
    var ts := pool.LoadTokens();
    ghost var spec := CheckAccounts(pool.State(), ts, now, probe);
    accounts := [];
    var i := 0;
    assert ts[i..] == ts;
    while i < |ts|
      invariant 0 <= i <= |ts|
      invariant spec.0 == accounts + CheckAccounts(pool.State(), ts[i..], now, probe).0
      invariant spec.1 == CheckAccounts(pool.State(), ts[i..], now, probe).1
    {
      assert ts[i..][0] == ts[i] && ts[i..][1..] == ts[i + 1..];
      var acc := CheckOne(pool, ts[i], now, probe);
      accounts := accounts + [acc];
      i := i + 1;
    }
    assert ts[i..] == [];
    assert accounts == spec.0 && pool.State() == spec.1;
  }

  /** One account per listed credential, in order, with its id; a pending
   *  reset reads `WAIT` without a probe, and otherwise the status is the
   *  probe's verdict (`OK`, `WAIT` for a rate limit, `INVALID`, `ERROR`). */
  lemma {:induction false} CheckAccountsSpec(s: Store, ts: seq<Token>, now: int, probe: string -> Probe)
    ensures var accs := CheckAccounts(s, ts, now, probe).0;
            && |accs| == |ts|
            && forall k :: 0 <= k < |ts| ==>
                 && accs[k].id == ts[k].id
                 && accs[k].status == (if Waiting(ts[k], now) then "WAIT" else StatusName(TestToken(probe(ts[k].secret))))
                 && accs[k].resetAt == (if HasReset(ts[k]) then ts[k].resetAt else None)
    decreases |ts|
  {
    if ts != [] {
      var (acc, s1) := CheckAccount(s, ts[0], now, probe);
      CheckAccountsSpec(s1, ts[1..], now, probe);
      var rest := CheckAccounts(s1, ts[1..], now, probe).0;
      assert forall k :: 1 <= k < |ts| ==> CheckAccounts(s, ts, now, probe).0[k] == rest[k - 1] && ts[k] == ts[1..][k - 1];
    }
  }

  predicate Healthy(t: Token) {
    !t.invalid && !HasReset(t)
  }

  /** A pool whose every credential is healthy and answers OK is left as it
   *  was: markValid only runs for an invalid or waiting entry. */
  lemma {:induction false} HealthyPoolUntouched(s: Store, ts: seq<Token>, now: int, probe: string -> Probe)
    requires forall k :: 0 <= k < |ts| ==> Healthy(ts[k]) && TestToken(probe(ts[k].secret)) == OK
    ensures CheckAccounts(s, ts, now, probe).1 == s
    decreases |ts|
  {
    if ts != [] {
      HealthyPoolUntouched(s, ts[1..], now, probe);
    }
  }

  /** An OK verdict revalidates only an invalid or waiting entry, a
   *  rate-limited one waits for 24 hours from now, an UNAUTHORIZED one
   *  marks a valid entry invalid, and an error changes nothing. */
  lemma CheckAccountMarks(s: Store, t: Token, now: int, probe: string -> Probe)
    requires !Waiting(t, now)
    ensures TestToken(probe(t.secret)) == OK ==>
              CheckAccount(s, t, now, probe).1 == (if t.invalid || HasReset(t) then s.MarkValid(t.id, []) else s)
    ensures TestToken(probe(t.secret)) == RATELIMIT ==>
              CheckAccount(s, t, now, probe).1 == s.MarkRateLimited(t.id, 24, now)
    ensures TestToken(probe(t.secret)) == UNAUTHORIZED ==>
              CheckAccount(s, t, now, probe).1 == (if t.invalid then s else s.MarkInvalid(t.id))
    ensures TestToken(probe(t.secret)) == ERROR ==> CheckAccount(s, t, now, probe).1 == s
  {
  }

  // ---------------------------------------------------------------------
  // Request rejection in /chat and /chat/completions
  // (src/api/routes.js:150-178 and 262-286)
  // ---------------------------------------------------------------------

  /** What a route does with a body: refuse it with a status and an error,
   *  or call sendMessage with these arguments. */
  datatype Routed =
    | Refuse(status: int, error: Json)
    | Forward(content: Json, system: Json, model: string, chatId: Json, parentId: Json,
              tools: Json, toolChoice: Json, stream: bool)

  /** Logging `systemMessage.substring(...)` throws for a truthy system
   *  message that is not a string. */
  predicate SystemLogThrows(system: Json) {
    Truthy(system) && !system.JStr?
  }

  /** `model ? getMappedModel(model) : DEFAULT_MODEL`; the mapping is not
   *  part of this model and is a parameter. */
  function MappedModel(model: Json, mapModel: Json -> string): string {
    if Truthy(model) then mapModel(model) else DefaultModel
  }

  /** POST /chat: `messages`, when an array, supplies the system message and,
   *  when truthy, the prompt; otherwise `message` is the prompt. */
  function ChatRoute(body: Json, mapModel: Json -> string): Routed {
    if body.JNull? then Refuse(500, JStr(InternalError))
    else
      var messages := Get(body, "messages");
      var parsed := if Truthy(messages) && messages.JArr? then ParseOpenAIMessages(messages.items)
                    else Some(Prompt(JNull, JNull));
      if parsed.None? then Refuse(500, JStr(InternalError))
      else
        var content := if Truthy(parsed.value.content) then parsed.value.content else Get(body, "message");
        var system := parsed.value.system;
        if !Truthy(content) then Refuse(400, JStr("Сообщение не указано"))
        else if SystemLogThrows(system) then Refuse(500, JStr(InternalError))
        else Forward(content, system, MappedModel(Get(body, "model"), mapModel),
                     Get(body, "chatId"), Get(body, "parentId"), JNull, JNull, false)
  }

  /** A /chat request is refused with 400 exactly when neither the last user
   *  message nor `message` gives a truthy prompt; a forwarded prompt is the
   *  user message's when it has one, else `message`. */
  lemma ChatRouteSpec(body: Json, mapModel: Json -> string)
    requires !body.JNull?
    ensures var messages := Get(body, "messages");
            var parsed := if Truthy(messages) && messages.JArr? then ParseOpenAIMessages(messages.items)
                          else Some(Prompt(JNull, JNull));
            && (ChatRoute(body, mapModel).Refuse? && ChatRoute(body, mapModel).status == 400 <==>
                  parsed.Some? && !Truthy(parsed.value.content) && !Truthy(Get(body, "message")))
            && (ChatRoute(body, mapModel).Forward? ==>
                  && Truthy(ChatRoute(body, mapModel).content)
                  && ChatRoute(body, mapModel).content ==
                       (if Truthy(parsed.value.content) then parsed.value.content else Get(body, "message")))
  {
  }

  const NoMessagesText: string := "Сообщения не указаны"
  const NoUserText: string := "В запросе нет сообщений от пользователя"

  /** POST /chat/completions. */
  function CompletionsRoute(body: Json, mapModel: Json -> string): Routed {
    if body.JNull? then Refuse(500, ServerErrorBody())
    else
      var messages := Get(body, "messages");
      if !Truthy(messages) || !messages.JArr? || messages.items == [] then Refuse(400, JStr(NoMessagesText))
      else match ParseOpenAIMessages(messages.items)
        case None => Refuse(500, ServerErrorBody())
        case Some(p) =>
          if !Truthy(p.content) then Refuse(400, JStr(NoUserText))
          else if SystemLogThrows(p.system) then Refuse(500, ServerErrorBody())
          else match BuildCombinedTools(Get(body, "tools"), Get(body, "functions"))
            case None => Refuse(500, ServerErrorBody())
            case Some(tools) =>
              Forward(p.content, p.system, MappedModel(Get(body, "model"), mapModel), Get(body, "chatId"),
                      Get(body, "parentId"), tools, Get(body, "tool_choice"), Truthy(Get(body, "stream")))
  }

  /** `{message: 'Внутренняя ошибка сервера', type: 'server_error'}`, the
   *  error of this route's own 500. */
  function ServerErrorBody(): Json {
    JObj(map["message" := JStr(InternalError), "type" := JStr("server_error")])
  }

  /** /chat/completions refuses with 400 exactly when `messages` is not a
   *  non-empty array, or is one (without `null`s) whose last user message
   *  has no truthy content; what it forwards is that content, the first
   *  system message and the merged tools. */
  lemma CompletionsRouteSpec(body: Json, mapModel: Json -> string)
    requires !body.JNull?
    ensures var messages := Get(body, "messages");
            var r := CompletionsRoute(body, mapModel);
            && (r.Refuse? && r.status == 400 <==>
                  || !messages.JArr? || messages.items == []
                  || (JNull !in messages.items && !Truthy(ParseOpenAIMessages(messages.items).value.content)))
            && (r.Refuse? && r.status == 400 ==>
                  r.error == JStr(if !messages.JArr? || messages.items == [] then NoMessagesText else NoUserText))
            && (r.Forward? ==>
                  && messages.JArr? && JNull !in messages.items
                  && r.content == ParseOpenAIMessages(messages.items).value.content && Truthy(r.content)
                  && r.system == ParseOpenAIMessages(messages.items).value.system
                  && Some(r.tools) == BuildCombinedTools(Get(body, "tools"), Get(body, "functions"))
                  && r.stream == Truthy(Get(body, "stream")))
  {
  }

  /** A request whose messages hold no user message gets the 400. */
  lemma CompletionsWithoutUser(body: Json, mapModel: Json -> string)
    requires Get(body, "messages").JArr? && Get(body, "messages").items != []
    requires JNull !in Get(body, "messages").items
    requires forall k :: 0 <= k < |Get(body, "messages").items| ==> !HasRole(Get(body, "messages").items[k], "user")
    ensures CompletionsRoute(body, mapModel) == Refuse(400, JStr(NoUserText))
  {
    NoUserMessage(Get(body, "messages").items);
  }
}
