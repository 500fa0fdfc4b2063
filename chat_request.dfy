/**
 * The pure decisions of src/api/chat.js: what message shapes sendMessage
 * accepts, which model it falls back to, what the configuration files
 * contribute, how the upstream payload is assembled, where the task id and
 * the video address are looked up, how testToken reads a probe, and how a
 * failed upstream reply is classified.
 */
module ChatRequest {
  import opened Util
  import opened JsonValues

  const DefaultModel: string := "qwen-max-latest"

  // ---------------------------------------------------------------------
  // Message validation (src/api/chat.js:314-341)
  // ---------------------------------------------------------------------

  datatype MessageCheck =
    | Accepted
    | EmptyMessage
    | BadStructure
    | Unsupported
    | ProcessingError(detail: string)

  /** What V8 reports when `every` reaches a `null` part and reads its
   *  `type`. */
  const NullPartError: string := "Cannot read properties of null (reading 'type')"

  /** One part of a composite message: a `text`, `image` or `file` part
   *  carrying a string under the field of that name. */
  predicate PartOk(item: Json) {
    || (Get(item, "type") == JStr("text") && Get(item, "text").JStr?)
    || (Get(item, "type") == JStr("image") && Get(item, "image").JStr?)
    || (Get(item, "type") == JStr("file") && Get(item, "file").JStr?)
  }

  /** `items.every(PartOk)`, which stops at the first failing part; reading
   *  a field of a `null` part throws. */
  function CheckParts(items: seq<Json>): MessageCheck {
    if items == [] then Accepted
    else if items[0].JNull? then ProcessingError(NullPartError)
    else if PartOk(items[0]) then CheckParts(items[1..])
    else BadStructure
  }

  function ValidateMessage(message: Json): MessageCheck {
    match message
    case JNull => EmptyMessage
    case JStr(_) => Accepted
    case JArr(items) => CheckParts(items)
    case _ => Unsupported
  }

  /** The error sendMessage returns for a rejected message. */
  function MessageError(c: MessageCheck): string {
    match c
    case Accepted => []
    case EmptyMessage => "Сообщение не может быть пустым"
    case BadStructure => "Некорректная структура составного сообщения"
    case Unsupported => "Неподдерживаемый формат сообщения"
    case ProcessingError(d) => "Ошибка при обработке сообщения: " + d
  }

  /** The first part that is not well formed decides: a `null` part makes
   *  the check throw, any other bad part makes it fail; when there is none
   *  every part is well formed. */
  lemma {:induction false} CheckPartsSpec(items: seq<Json>)
    ensures CheckParts(items) == Accepted <==> forall k :: 0 <= k < |items| ==> PartOk(items[k])
    ensures CheckParts(items) != Accepted ==>
              exists k :: 0 <= k < |items| && !PartOk(items[k])
                && (forall j :: 0 <= j < k ==> PartOk(items[j]))
                && CheckParts(items) == (if items[k].JNull? then ProcessingError(NullPartError) else BadStructure)
  {
    if items != [] {
      CheckPartsSpec(items[1..]);
      if !items[0].JNull? && PartOk(items[0]) {
        if CheckParts(items) != Accepted {
          var k' :| 0 <= k' < |items[1..]| && !PartOk(items[1..][k'])
                    && (forall j :: 0 <= j < k' ==> PartOk(items[1..][j]))
                    && CheckParts(items[1..]) == (if items[1..][k'].JNull? then ProcessingError(NullPartError) else BadStructure);
          assert items[k' + 1] == items[1..][k'];
          assert forall j :: 1 <= j < k' + 1 ==> items[j] == items[1..][j - 1];
        } else {
          assert forall k :: 1 <= k < |items| ==> items[k] == items[1..][k - 1];
        }
      } else {
        assert !PartOk(items[0]);
      }
    }
  }

  /** null and undefined are rejected, strings accepted, arrays accepted
   *  exactly when every part is well formed, every other value rejected as
   *  unsupported. */
  lemma ValidateMessageSpec(message: Json)
    ensures ValidateMessage(message) == EmptyMessage <==> message.JNull?
    ensures ValidateMessage(message) == Accepted <==>
              message.JStr? || (message.JArr? && forall k :: 0 <= k < |message.items| ==> PartOk(message.items[k]))
    ensures ValidateMessage(message) == Unsupported <==>
              message.JBool? || message.JNum? || message.JObj?
  {
    if message.JArr? {
      CheckPartsSpec(message.items);
    }
  }

  // ---------------------------------------------------------------------
  // Model fallback and the configuration files (src/api/chat.js:219-273, 343-350)
  // ---------------------------------------------------------------------

  /** The `model` sendMessage goes on with: a blank name or one not in the
   *  list becomes the default. */
  function ResolveModel(model: string, available: seq<string>): string {
    if model == [] || Trim(model) == [] then DefaultModel
    else if model in available then model
    else DefaultModel
  }

  /** The resolved model is the requested one exactly when that is a
   *  non-blank listed name, and otherwise the default; resolving again
   *  changes nothing. */
  lemma ResolveModelSpec(model: string, available: seq<string>)
    ensures ResolveModel(model, available) == model <==>
              (Trim(model) != [] && model in available) || model == DefaultModel
    ensures ResolveModel(model, available) != model ==> ResolveModel(model, available) == DefaultModel
    ensures ResolveModel(model, available) in available || ResolveModel(model, available) == DefaultModel
    ensures ResolveModel(ResolveModel(model, available), available) == ResolveModel(model, available)
  {
    assert Trim(DefaultModel) == DefaultModel by {
      assert LeadingBlanks(DefaultModel) == 0;
      assert KeptLength(DefaultModel) == |DefaultModel|;
    }
  }

  /** The line filter shared by the models file and the API-keys file:
   *  trimmed lines that are neither empty nor `#` comments. */
  function KeepLines(lines: seq<string>): (r: seq<string>)
    ensures |r| <= |lines|
  {
    if lines == [] then []
    else
      var t := Trim(lines[0]);
      (if t != [] && !StartsWith(t, "#") then [t] else []) + KeepLines(lines[1..])
  }

  /** One line is kept, trimmed, exactly when it is neither blank nor a
   *  comment. */
  lemma KeepLinesSingle(line: string)
    ensures KeepLines([line]) == (if Kept(line) then [Trim(line)] else [])
  {
    assert [line][1..] == [];
  }

  /** The filter keeps the file's order: the lines kept from `a + b` are
   *  those kept from `a` followed by those kept from `b`. */
  lemma {:induction false} KeepLinesAppend(a: seq<string>, b: seq<string>)
    ensures KeepLines(a + b) == KeepLines(a) + KeepLines(b)
  {
    if a != [] {
      assert (a + b)[0] == a[0];
      assert (a + b)[1..] == a[1..] + b;
      KeepLinesAppend(a[1..], b);
    } else {
      assert a + b == b;
    }
  }

  function ConfigLines(content: string): seq<string> {
    KeepLines(Split(content, '\n'))
  }

  predicate Kept(line: string) {
    Trim(line) != [] && !StartsWith(Trim(line), "#")
  }

  /** A name is listed exactly when some line trims to it and it is neither
   *  empty nor a comment; listed names carry no surrounding blanks. */
  lemma {:induction false} KeepLinesSpec(lines: seq<string>)
    ensures forall x :: x in KeepLines(lines) <==> exists k :: 0 <= k < |lines| && Kept(lines[k]) && Trim(lines[k]) == x
    ensures forall x :: x in KeepLines(lines) ==> Trim(x) == x && x != []
  {
    if lines != [] {
      KeepLinesSpec(lines[1..]);
      TrimIdempotent(lines[0]);
      forall x ensures x in KeepLines(lines) <==> exists k :: 0 <= k < |lines| && Kept(lines[k]) && Trim(lines[k]) == x {
        if x in KeepLines(lines[1..]) {
          var k :| 0 <= k < |lines[1..]| && Kept(lines[1..][k]) && Trim(lines[1..][k]) == x;
          assert lines[k + 1] == lines[1..][k];
        }
        if exists k :: 0 <= k < |lines| && Kept(lines[k]) && Trim(lines[k]) == x {
          var k :| 0 <= k < |lines| && Kept(lines[k]) && Trim(lines[k]) == x;
          if k > 0 {
            assert lines[1..][k - 1] == lines[k];
          }
        }
      }
    }
  }

  /** getAvailableModelsFromFile: a missing or unreadable file
   *  (`None`) gives the default model alone. */
  function AvailableModels(file: Option<string>): (r: seq<string>)
    ensures file.None? ==> r == [DefaultModel]
  {
    match file
    case None => [DefaultModel]
    case Some(content) => ConfigLines(content)
  }

  /** getAuthKeysFromFile: a missing or unreadable file gives no keys (the
   *  template the source writes in its place is left out). */
  function AuthKeys(file: Option<string>): (r: seq<string>)
    ensures file.None? ==> r == []
  {
    match file
    case None => []
    case Some(content) => ConfigLines(content)
  }

  // ---------------------------------------------------------------------
  // Payload construction (src/api/chat.js:407-479)
  // ---------------------------------------------------------------------

  datatype VideoExtras = VideoExtras(researchMode: string, autoThinking: bool, thinkingFormat: string, autoSearch: bool)

  datatype FeatureConfig = FeatureConfig(thinkingEnabled: bool, outputSchema: string, video: Option<VideoExtras>)

  /** The user message sent upstream (the random message ids and the
   *  timestamp are left out). */
  datatype UserMessage = UserMessage(parentId: Json, role: string, content: Json, chatType: string,
                                     subChatType: string, userAction: string, models: seq<string>,
                                     files: Json, featureConfig: FeatureConfig)

  /** The body of the completion request; an optional field is `None` when
   *  the source leaves it out of the object. */
  datatype Payload = Payload(stream: bool, version: string, incrementalOutput: bool, chatId: string,
                             chatMode: string, messages: seq<UserMessage>, model: string, parentId: Json,
                             systemMessage: Option<Json>, tools: Option<Json>, toolChoice: Option<Json>,
                             size: Option<Json>)

  function Features(chatType: string): FeatureConfig {
    FeatureConfig(chatType == "t2v", "phase",
                  if chatType == "t2v" then Some(VideoExtras("normal", true, "summary", true)) else None)
  }

  function BuildPayload(content: Json, model: string, chatId: string, parentId: Json, files: Json,
                        tools: Json, toolChoice: Json, systemMessage: Json, chatType: string,
                        size: Json): Payload
  {
    var msg := UserMessage(parentId, "user", content, chatType, chatType, "chat", [model],
                           if Truthy(files) then files else JArr([]), Features(chatType));
    var attachTools := tools.JArr? && |tools.items| > 0;
    Payload(chatType != "t2v", "2.1", true, chatId, "normal", [msg], model, parentId,
            if Truthy(systemMessage) then Some(systemMessage) else None,
            if attachTools then Some(tools) else None,
            if attachTools then Some(if Truthy(toolChoice) then toolChoice else JStr("auto")) else None,
            if (chatType == "t2i" || chatType == "t2v") && Truthy(size) then Some(size) else None)
  }

  /** The feature flags: thinking on and streaming off only for video; the
   *  video extras only for video; tools only for a non-empty array, with
   *  the choice defaulting to "auto"; size only for image and video
   *  generation; the system message only when given. */
  lemma PayloadFlags(content: Json, model: string, chatId: string, parentId: Json, files: Json,
                     tools: Json, toolChoice: Json, systemMessage: Json, chatType: string, size: Json)
    ensures var p := BuildPayload(content, model, chatId, parentId, files, tools, toolChoice,
                                  systemMessage, chatType, size);
            && |p.messages| == 1
            && (p.messages[0].featureConfig.thinkingEnabled <==> chatType == "t2v")
            && (!p.stream <==> chatType == "t2v")
            && (p.messages[0].featureConfig.video.Some? <==> chatType == "t2v")
            && (p.tools.Some? <==> tools.JArr? && tools.items != [])
            && (p.tools.Some? ==> p.tools.value == tools && Truthy(p.toolChoice.value))
            && (p.toolChoice.Some? <==> p.tools.Some?)
            && (p.toolChoice.Some? && Truthy(toolChoice) ==> p.toolChoice.value == toolChoice)
            && (p.size.Some? <==> (chatType == "t2i" || chatType == "t2v") && Truthy(size))
            && (p.systemMessage.Some? <==> Truthy(systemMessage))
            && p.model == model && p.messages[0].models == [model]
            && p.parentId == parentId && p.messages[0].parentId == parentId
            && p.messages[0].content == content
            && (Truthy(files) ==> p.messages[0].files == files)
            && (!Truthy(files) ==> p.messages[0].files == JArr([]))
  {
  }

  // ---------------------------------------------------------------------
  // Task id and video address (src/api/chat.js:634-717)
  // ---------------------------------------------------------------------

  /** `data.data.messages[0].extra.wanx.task_id`, each step guarded. */
  function WanxTaskId(data: Json): Json {
    Get(Get(Get(First(Get(Get(data, "data"), "messages")), "extra"), "wanx"), "task_id")
  }

  /** The places a task id is looked for, in order of priority. */
  function TaskIdCandidates(data: Json): seq<Json> {
    [WanxTaskId(data), Get(data, "id"), Get(data, "task_id"), Get(data, "response_id"),
     Get(Get(data, "data"), "message_id")]
  }

  /** The task id, or `JNull` when no candidate is truthy. */
  function ExtractTaskId(data: Json): (r: Json)
    ensures Truthy(r) || r == JNull
  {
    var c := FirstTruthy(TaskIdCandidates(data));
    if Truthy(c) then c else JNull
  }

  /** First match wins: the task id is the highest-priority truthy
   *  candidate, and there is one exactly when some candidate is truthy. */
  lemma TaskIdSpec(data: Json, k: nat)
    requires k < 5 && Truthy(TaskIdCandidates(data)[k])
    requires forall j :: 0 <= j < k ==> !Truthy(TaskIdCandidates(data)[j])
    ensures ExtractTaskId(data) == TaskIdCandidates(data)[k]
  {
    FirstTruthyIsFirst(TaskIdCandidates(data), k);
  }

  lemma TaskIdMissing(data: Json)
    ensures ExtractTaskId(data) == JNull <==> forall k :: 0 <= k < 5 ==> !Truthy(TaskIdCandidates(data)[k])
  {
    FirstTruthySpec(TaskIdCandidates(data));
  }

  function VideoCandidates(data: Json): seq<Json> {
    var result := Get(data, "result");
    [Get(data, "content"), if result.JStr? then result else JNull, Get(result, "url"), Get(result, "video_url")]
  }

  /** `videoUrl`: `content`, else a string `result`, else `result.url`,
   *  else `result.video_url`; `JNull` when none of them is truthy. */
  function VideoUrl(data: Json): (r: Json)
    ensures Truthy(r) || r == JNull
  {
    var c := FirstTruthy(VideoCandidates(data));
    if Truthy(c) then c else JNull
  }

  lemma VideoUrlSpec(data: Json, k: nat)
    requires k < 4 && Truthy(VideoCandidates(data)[k])
    requires forall j :: 0 <= j < k ==> !Truthy(VideoCandidates(data)[j])
    ensures VideoUrl(data) == VideoCandidates(data)[k]
  {
    FirstTruthyIsFirst(VideoCandidates(data), k);
  }

  /** `JNull` exactly when none of the candidates is truthy. */
  lemma VideoUrlMissing(data: Json)
    ensures VideoUrl(data) == JNull <==> forall k :: 0 <= k < 4 ==> !Truthy(VideoCandidates(data)[k])
  {
    FirstTruthySpec(VideoCandidates(data));
  }

  /** The message content of a finished video task: the address when one
   *  was found, else the JSON text of `result` (or of the whole record). */
  datatype VideoText = UrlText(url: Json) | Serialized(value: Json)

  function VideoContent(data: Json): (r: VideoText)
    ensures r.UrlText? <==> Truthy(VideoUrl(data))
    ensures r.Serialized? ==> r.value == (if Truthy(Get(data, "result")) then Get(data, "result") else data)
  {
    var url := VideoUrl(data);
    if Truthy(url) then UrlText(url)
    else Serialized(if Truthy(Get(data, "result")) then Get(data, "result") else data)
  }

  // ---------------------------------------------------------------------
  // testToken (src/api/chat.js:966-1018)
  // ---------------------------------------------------------------------

  datatype TokenTest = OK | UNAUTHORIZED | RATELIMIT | ERROR

  /** What a probe came back with: no browser, an exception outside the
   *  fetch, or the `{ok, status}` pair (a failed fetch reads as status 0). */
  datatype Probe = NoBrowser | ProbeThrew | Probed(ok: bool, status: int)

  function TestToken(p: Probe): TokenTest {
    match p
    case NoBrowser => ERROR
    case ProbeThrew => ERROR
    case Probed(ok, status) =>
      if ok || status == 400 then OK
      else if status == 401 || status == 403 then UNAUTHORIZED
      else if status == 429 then RATELIMIT
      else ERROR
  }

  /** A 400 counts as a live credential (the probe body is deliberately
   *  minimal); 401/403 mean a dead one, 429 a rate limit; everything else,
   *  including a missing browser, is an error. */
  lemma TestTokenSpec(p: Probe)
    ensures TestToken(p) == OK <==> p.Probed? && (p.ok || p.status == 400)
    ensures TestToken(p) == UNAUTHORIZED <==> p.Probed? && !p.ok && (p.status == 401 || p.status == 403)
    ensures TestToken(p) == RATELIMIT <==> p.Probed? && !p.ok && p.status == 429
    ensures TestToken(p) == ERROR <==>
              !p.Probed? || (!p.ok && p.status !in {400, 401, 403, 429})
  {
  }

  // ---------------------------------------------------------------------
  // Failure classification (src/api/chat.js:787-839)
  // ---------------------------------------------------------------------

  /** A `{success: false, …}` reply; absent fields are 0 / "". */
  datatype Failure = Failure(status: int, statusText: string, errorBody: string, error: string, html: string)

  datatype Verdict =
    | NeedsVerification
    | Unauthorized
    | RateLimited
    | Other(error: string, details: string)

  function Classify(r: Failure): Verdict {
    if Contains(r.html, "Verification") then NeedsVerification
    else if r.status == 401 || Contains(r.errorBody, "Unauthorized") || Contains(r.errorBody, "Token has expired")
    then Unauthorized
    else if Contains(r.errorBody, "RateLimited") then RateLimited
    else Other(if r.error != [] then r.error else r.statusText,
               if r.errorBody != [] then r.errorBody else "Нет дополнительных деталей")
  }

  predicate AuthFailure(r: Failure) {
    r.status == 401 || Contains(r.errorBody, "Unauthorized") || Contains(r.errorBody, "Token has expired")
  }

  /** The precedence of the checks: verification first, then an expired
   *  credential, then a rate limit, and only then the reply passed through
   *  with its error and details. */
  lemma ClassifySpec(r: Failure)
    ensures Classify(r) == NeedsVerification <==> Contains(r.html, "Verification")
    ensures Classify(r) == Unauthorized <==> !Contains(r.html, "Verification") && AuthFailure(r)
    ensures Classify(r) == RateLimited <==>
              !Contains(r.html, "Verification") && !AuthFailure(r) && Contains(r.errorBody, "RateLimited")
    ensures Classify(r).Other? <==>
              !Contains(r.html, "Verification") && !AuthFailure(r) && !Contains(r.errorBody, "RateLimited")
    ensures Classify(r).Other? ==>
              Classify(r).details != [] && (r.errorBody != [] ==> Classify(r).details == r.errorBody)
  {
  }

  /** The cooldown a rate-limit reply asks for: `Number(num) || 24` hours
   *  from the parsed body, `None` when the body does not parse (or parses
   *  to `null`), in which case no credential is marked. */
  function RateLimitHours(errorBody: string, parse: string -> Option<Json>): (h: Option<int>)
    ensures h.Some? ==> h.value != 0
  {
    match parse(errorBody)
    case None => None
    case Some(info) =>
      if info.JNull? then None
      else
        var n := ToNumber(Get(info, "num"));
        if n.None? || n.value == 0 then Some(24) else Some(n.value)
  }

  /** A body whose `num` is a positive count is honoured as is; a missing,
   *  zero or unreadable count falls back to 24 hours. */
  lemma RateLimitHoursSpec(errorBody: string, parse: string -> Option<Json>)
    ensures parse(errorBody).Some? && parse(errorBody).value.JObj? ==>
              var num := Get(parse(errorBody).value, "num");
              && (num.JNum? && num.n > 0 ==> RateLimitHours(errorBody, parse) == Some(num.n))
              && (num.JNull? ==> RateLimitHours(errorBody, parse) == Some(24))
    ensures RateLimitHours(errorBody, parse).None? <==> parse(errorBody).None? || parse(errorBody).value.JNull?
  {
  }
}
