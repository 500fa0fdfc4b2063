/**
 * `sendMessage` and `createChatV2` of src/api/chat.js: one call creates the
 * conversation when none is given, validates the message, picks a
 * credential and a page, sends the request through the browser, follows a
 * video task to its end, and on failure decides between giving up and
 * calling itself again. The recursion is modelled as a loop over the
 * successive calls; what the browser, the service and the clock answer in
 * each call is an oracle `World`, and the list of worlds bounds the number
 * of calls (the source has no bound).
 */
module Dispatcher {
  import opened Util
  import opened JsonValues
  import opened TokenManager
  import opened PagePool
  import opened TaskPoller
  import opened StreamDecoder
  import opened ChatRequest

  /** The arguments of sendMessage; "" stands for an absent chat id. */
  datatype Request = Request(message: Json, model: string, chatId: string, parentId: Json, files: Json,
                             tools: Json, toolChoice: Json, systemMessage: Json, chatType: string,
                             size: Json, wait: bool)

  /** What the chat-creation fetch inside the page comes back with. */
  datatype CreateReply = CreateOk(data: Json) | CreateHttpFail(status: int, errorBody: string) | CreateFetchThrew(error: string)

  /** What the completion request inside the page comes back with: the body
   *  as text chunks, a non-ok reply, a fetch that threw (caught inside the
   *  page), or `page.evaluate` itself throwing. */
  datatype ChatReply =
    | HttpOk(chunks: seq<string>)
    | HttpFail(status: int, statusText: string, errorBody: string)
    | FetchThrew(error: string)
    | EvalThrew(error: string)

  /** Everything outside the process that one call of sendMessage sees. */
  datatype World = World(
    now: int,                       // Date.now(), fixed for the call
    stamp: nat,                     // Date.now() as used in generated ids
    browserReady: bool,             // getBrowserContext() is set
    authenticated: bool,            // getAuthenticationStatus()
    authCheck: bool,                // checkAuthentication(...) when not authenticated
    extracted: Option<string>,      // what extractAuthToken reads from a fresh page
    stored: Option<string>,         // localStorage 'token' of a page the pool opens
    openThrew: Option<string>,      // opening a fresh page (newPage or goto) throws this
    reloadThrew: Option<string>,    // a verification page was found and its reload throws this
    createThrew: Option<string>,    // createChatV2's page.evaluate itself throws this
    create: CreateReply,
    reply: ChatReply,
    poll: nat -> PollReply,         // the task-status replies, by attempt
    parse: string -> Option<Json>)  // JSON.parse, None when it throws

  /** The module-level state sendMessage works on. */
  datatype ProxyState = ProxyState(store: Store, pool: PoolState, authToken: string)

  datatype Outcome =
    | ChatCreateFailed(error: string)
    | Rejected(error: string, chatId: string)
    | Answered(reply: Decoded, model: string, chatId: string, parentId: Json)
    | TaskMissing(chatId: string, raw: Json)
    | TaskPending(taskId: Json, model: string, chatId: string, parentId: Json)
    | Video(taskId: Json, content: VideoText, videoUrl: Json, usage: Json, model: string, chatId: string)
    | VideoFailed(reason: Json, status: string, taskId: Json, chatId: string, taskData: Json)
    | VerificationRequired(chatId: string)
    | UpstreamError(message: string, details: string, chatId: string)
    | ProcessExit
    | Thrown(exception: string, chatId: string)
    | Exhausted

  datatype Step = Done(outcome: Outcome) | Retry(next: Request)

  /** The text of the TypeError V8 raises when a property of `null` is
   *  read. */
  function NullRead(prop: string): string {
    "TypeError: Cannot read properties of null (reading '" + prop + "')"
  }

  const JsonParseError: string := "SyntaxError: Unexpected token in JSON"

  /** A truthy system message that is not a string has no `substring`:
   *  logging it throws this before the request is sent. */
  predicate OddSystemMessage(j: Json) { Truthy(j) && !j.JStr? }

  const SubstringError: string := "TypeError: systemMessage.substring is not a function"

  const VideoUsageDefault: Json :=
    JObj(map["prompt_tokens" := JNum(0), "output_tokens" := JNum(0), "total_tokens" := JNum(0)])

  /** extractAuthToken with no credential held: the token a fresh page
   *  finds, "" when there is none. */
  function Extracted(w: World): string {
    match w.extracted case None => [] case Some(t) => t
  }

  /** `if (tokenObj && tokenObj.token) authToken = tokenObj.token`. */
  function TakeCredential(tok: Option<Token>, authToken: string): string {
    if tok.Some? && tok.value.secret != [] then tok.value.secret else authToken
  }

  // ---------------------------------------------------------------------
  // createChatV2 (src/api/chat.js:868-962)
  // ---------------------------------------------------------------------

  datatype Created = ChatOk(chatId: string) | ChatErr(error: string)

  /** The chat id as a string: `undefined`/`null` (and other falsy values)
   *  become the absent id. */
  function ChatIdText(j: Json): string {
    if j.JStr? then j.s else if Truthy(j) then JsText(j) else []
  }

  function CreateResult(r: CreateReply): (c: Created)
    ensures c.ChatErr? ==> c.error != []
  {
    match r
    case CreateOk(data) =>
      if data.JNull? then ChatErr(NullRead("success"))
      else if !Truthy(Get(data, "success")) then ChatErr("Неизвестная ошибка")
      else if Get(data, "data").JNull? then ChatErr(NullRead("id"))
      else ChatOk(ChatIdText(Get(Get(data, "data"), "id")))
    case CreateHttpFail(_, body) => ChatErr(if body != [] then body else "Неизвестная ошибка")
    case CreateFetchThrew(e) => ChatErr(if e != [] then e else "Неизвестная ошибка")
  }

  /** A page that cannot be opened leaves the pool alone; a page whose
   *  `evaluate` throws is closed by the `finally` instead of released. */
  function CreateChat(p: ProxyState, w: World): (Created, ProxyState) {
    if !w.browserReady then (ChatErr("Браузер не инициализирован"), p)
    else
      var (tok, store1) := p.store.Acquire(w.now);
      var auth1 := TakeCredential(tok, p.authToken);
      if auth1 == [] && Extracted(w) == [] then
        (ChatErr("Не удалось получить токен авторизации"), ProxyState(store1, p.pool, []))
      else
        var auth2 := if auth1 != [] then auth1 else Extracted(w);
        if p.pool.idle == [] && w.openThrew.Some? then (ChatErr(w.openThrew.value), ProxyState(store1, p.pool, auth2))
        else
          var (page, pool1, auth3) := p.pool.Get(auth2, w.stored);
          match w.createThrew
          case Some(e) => (ChatErr(e), ProxyState(store1, pool1.Discard(page), auth3))
          case None => (CreateResult(w.create), ProxyState(store1, pool1.Release(page), auth3))
  }

  // ---------------------------------------------------------------------
  // One call of sendMessage (src/api/chat.js:293-864)
  // ---------------------------------------------------------------------

  /** What `page.evaluate` hands back for the completion request. */
  datatype Response = StreamOk(decoded: Decoded) | TaskOk(data: Json) | Refused(failure: Failure) | Escaped(error: string)

  function Respond(reply: ChatReply, stream: bool, w: World): (r: Response)
    ensures r.Refused? ==> r.failure.html == []
  {
    match reply
    case HttpOk(chunks) =>
      if stream then StreamOk(Decode(chunks, w.parse, w.stamp))
      else (match w.parse(Concat(chunks))
            case None => Refused(Failure(0, [], [], JsonParseError, []))
            case Some(j) => TaskOk(j))
    case HttpFail(status, statusText, body) => Refused(Failure(status, statusText, body, [], []))
    case FetchThrew(e) => Refused(Failure(0, [], [], e, []))
    case EvalThrew(e) => Escaped(e)
  }

  /** The call sendMessage makes on itself after an expired credential or
   *  a rate limit: `sendMessage(message, model, chatId, files)`, so `files`
   *  lands in the `parentId` slot and every later argument takes its
   *  default. */
  function RetryRequest(req: Request): Request {
    Request(req.message, req.model, req.chatId, req.files, JNull, JNull, JNull, JNull, "t2t", JNull, true)
  }

  /** The video-task branch (src/api/chat.js:634-763). */
  function TaskPath(p: ProxyState, page: Page, req: Request, data: Json, w: World): (Step, ProxyState) {
    if data.JNull? then (Done(Thrown(NullRead("data"), req.chatId)), p.(pool := p.pool.Discard(page)))
    else
      var taskId := ExtractTaskId(data);
      var released := p.(pool := p.pool.Release(page));
      if !Truthy(taskId) then (Done(TaskMissing(req.chatId, data)), released)
      else if !req.wait then
        (Done(TaskPending(taskId, req.model, req.chatId, FirstTruthy([Get(Get(data, "data"), "parent_id"), taskId]))), released)
      else
        match Poll(w.poll, DefaultMaxAttempts).0
        case Completed(td) =>
          (Done(Video(taskId, VideoContent(td), VideoUrl(td),
                      if Truthy(Get(td, "usage")) then Get(td, "usage") else VideoUsageDefault,
                      req.model, req.chatId)), released)
        case Failed(e, td) =>
          (Done(VideoFailed(if Truthy(e) then e else JStr("Video generation failed"), "failed", taskId, req.chatId, td)), released)
        case TimedOut =>
          (Done(VideoFailed(JStr(TimeoutError), "timeout", taskId, req.chatId, JNull)), released)
  }

  /** The failure branch (src/api/chat.js:778-839); the page is already
   *  back in the pool. */
  function HandleFailure(p: ProxyState, tok: Option<Token>, req: Request, f: Failure, w: World): (Step, ProxyState) {
    match Classify(f)
    case NeedsVerification => (Done(VerificationRequired(req.chatId)), ProxyState(p.store, p.pool.Clear(), []))
    case Unauthorized =>
      var store1 := if tok.Some? && tok.value.id != [] then p.store.MarkInvalid(tok.value.id) else p.store;
      if store1.HasValid(w.now) then (Retry(RetryRequest(req)), ProxyState(store1, p.pool, []))
      else (Done(ProcessExit), ProxyState(store1, p.pool.Clear(), []))
    case RateLimited =>
      var hours := RateLimitHours(f.errorBody, w.parse);
      var store1 := if hours.Some? && tok.Some? && tok.value.id != []
                    then p.store.MarkRateLimited(tok.value.id, hours.value, w.now) else p.store;
      (Retry(RetryRequest(req)), ProxyState(store1, p.pool, []))
    case Other(e, d) => (Done(UpstreamError(e, d, req.chatId)), p)
  }

  /** From the request to the service on: `p` holds the page's pool and the
   *  credential in use. Logging a system message that is not a string
   *  throws first, and the `finally` closes the page. */
  function Send(p: ProxyState, page: Page, tok: Option<Token>, req: Request, w: World): (Step, ProxyState) {
    if OddSystemMessage(req.systemMessage) then (Done(Thrown(SubstringError, req.chatId)), p.(pool := p.pool.Discard(page)))
    else
      var payload := BuildPayload(req.message, req.model, req.chatId, req.parentId, req.files, req.tools,
                                  req.toolChoice, req.systemMessage, req.chatType, req.size);
      match Respond(w.reply, payload.stream, w)
      case Escaped(e) => (Done(Thrown(e, req.chatId)), p.(pool := p.pool.Discard(page)))
      case TaskOk(data) => TaskPath(p, page, req, data, w)
      case StreamOk(d) => (Done(Answered(d, req.model, req.chatId, d.responseId)), p.(pool := p.pool.Release(page)))
      case Refused(f) => HandleFailure(p.(pool := p.pool.Release(page)), tok, req, f, w)
  }

  /** What the checks before the request leave: a settled step, or the
   *  page, credential and request to send with. */
  datatype Admission = Stopped(step: Step) | Admitted(page: Page, tok: Option<Token>, req: Request)

  /** Validation, model fallback, credential and page (src/api/chat.js:314-400).
   *  Opening a fresh page can throw (nothing is held yet), and so can the
   *  reload after a verification page (the page is then closed). */
  function Admit(p: ProxyState, req: Request, available: seq<string>, w: World): (Admission, ProxyState) {
    var check := ValidateMessage(req.message);
    if check != Accepted then (Stopped(Done(Rejected(MessageError(check), req.chatId))), p)
    else
      var model := ResolveModel(req.model, available);
      var (tok, store1) := p.store.Acquire(w.now);
      var auth1 := TakeCredential(tok, p.authToken);
      if !w.browserReady then (Stopped(Done(Rejected("Браузер не инициализирован", req.chatId))), ProxyState(store1, p.pool, auth1))
      else if !w.authenticated && !w.authCheck then
        (Stopped(Done(Rejected("Требуется авторизация. Пожалуйста, авторизуйтесь в открытом браузере.", req.chatId))),
         ProxyState(store1, p.pool, auth1))
      else if auth1 == [] && Extracted(w) == [] then
        (Stopped(Done(Rejected("Ошибка авторизации: не удалось получить токен", req.chatId))), ProxyState(store1, p.pool, []))
      else
        var auth2 := if auth1 != [] then auth1 else Extracted(w);
        if p.pool.idle == [] && w.openThrew.Some? then
          (Stopped(Done(Thrown(w.openThrew.value, req.chatId))), ProxyState(store1, p.pool, auth2))
        else
          var (page, pool1, auth3) := p.pool.Get(auth2, w.stored);
          match w.reloadThrew
          case Some(e) => (Stopped(Done(Thrown(e, req.chatId))), ProxyState(store1, pool1.Discard(page), auth3))
          case None => (Admitted(page, tok, req.(model := model)), ProxyState(store1, pool1, auth3))
  }

  /** The checks, then the request itself. */
  function Execute(p: ProxyState, req: Request, available: seq<string>, w: World): (Step, ProxyState) {
    var (a, p1) := Admit(p, req, available, w);
    match a
    case Stopped(step) => (step, p1)
    case Admitted(page, tok, r) => Send(p1, page, tok, r, w)
  }

  /** One call of sendMessage: the chat is created first when none is
   *  given, before the message is even looked at. */
  function Attempt(p: ProxyState, req: Request, available: seq<string>, w: World): (Step, ProxyState) {
    if req.chatId == [] then
      var (c, p1) := CreateChat(p, w);
      match c
      case ChatErr(e) => (Done(ChatCreateFailed("Не удалось создать чат: " + e)), p1)
      case ChatOk(id) => Execute(p1, req.(chatId := id), available, w)
    else Execute(p, req, available, w)
  }

  /** The chain of calls, one world each; `Exhausted` when the worlds run
   *  out before a call settles. */
  function Run(p: ProxyState, req: Request, available: seq<string>, worlds: seq<World>): (Outcome, ProxyState)
    decreases |worlds|
  {
    if worlds == [] then (Exhausted, p)
    else
      var (step, p1) := Attempt(p, req, available, worlds[0]);
      match step
      case Done(o) => (o, p1)
      case Retry(next) => Run(p1, next, available, worlds[1..])
  }
}

/**
 * What the chain of calls promises, and the consequences of the retry being
 * a recursive call with no counter.
 */
module DispatcherProperties {
  import opened Util
  import opened JsonValues
  import opened TokenManager
  import opened PagePool
  import opened TaskPoller
  import opened StreamDecoder
  import opened ChatRequest
  import opened Dispatcher

  /** A call that gets so far that the service answers 401: the browser
   *  is up, the session is authenticated, a credential can be read from
   *  the browser, no page fails to open or reload, and the completion
   *  request is refused with 401. */
  predicate Answers401(w: World) {
    && w.browserReady && w.authenticated && Extracted(w) != []
    && w.openThrew.None? && w.reloadThrew.None?
    && w.reply.HttpFail? && w.reply.status == 401
  }

  /** A request that skips chat creation, passes validation and has a
   *  system message that can be logged. */
  predicate Proceeds(req: Request) {
    req.chatId != [] && ValidateMessage(req.message) == Accepted && !OddSystemMessage(req.systemMessage)
  }

  lemma RetryKeepsProceeding(req: Request)
    requires Proceeds(req)
    ensures Proceeds(RetryRequest(req))
  {
  }

  /** The retried call is a plain text chat: `files` became the parent
   *  id, no files, tools, system message or size are sent, and the reply
   *  is streamed even if the original request was a video generation. */
  lemma RetryDropsOptions(req: Request)
    ensures var r := RetryRequest(req);
            var p := BuildPayload(r.message, r.model, r.chatId, r.parentId, r.files, r.tools,
                                  r.toolChoice, r.systemMessage, r.chatType, r.size);
            && p.parentId == req.files
            && p.stream && p.tools.None? && p.toolChoice.None? && p.systemMessage.None? && p.size.None?
            && p.messages[0].files == JArr([]) && p.messages[0].chatType == "t2t"
            && p.chatId == req.chatId && p.model == req.model && p.messages[0].content == req.message
            && r.wait
  {
  }

  /** The conversation is created before the message is validated: an
   *  invalid message is rejected only after a chat was made for it, with
   *  the new id in the reply and the credential cursor already moved. */
  lemma ChatCreatedBeforeValidation(p: ProxyState, req: Request, available: seq<string>, w: World, id: string)
    requires req.chatId == [] && ValidateMessage(req.message) != Accepted
    requires CreateChat(p, w).0 == ChatOk(id)
    ensures Attempt(p, req, available, w) ==
              (Done(Rejected(MessageError(ValidateMessage(req.message)), id)), CreateChat(p, w).1)
    ensures CreateChat(p, w).1.store == p.store.Acquire(w.now).1
  {
  }

  /** A chat is created exactly when the browser is up, a credential is at
   *  hand, a page is at hand (an idle one, or a fresh one that opens), the
   *  in-page call does not throw and the service's reply carries
   *  `success`. */
  lemma CreateChatSpec(p: ProxyState, w: World)
    ensures CreateChat(p, w).0.ChatOk? <==>
              && w.browserReady
              && (TakeCredential(p.store.Acquire(w.now).0, p.authToken) != [] || Extracted(w) != [])
              && (p.pool.idle != [] || w.openThrew.None?)
              && w.createThrew.None?
              && CreateResult(w.create).ChatOk?
    ensures CreateChat(p, w).0.ChatOk? ==> CreateChat(p, w).1.authToken != []
  {
  }

  /** The credential createChatV2 holds once it has one. */
  function CreateAuth(p: ProxyState, w: World): string {
    var auth1 := TakeCredential(p.store.Acquire(w.now).0, p.authToken);
    if auth1 != [] then auth1 else Extracted(w)
  }

  /** What happens to the page when createChatV2 throws: a page that does
   *  not open leaves the pool as it was, and one whose `evaluate` throws is
   *  closed rather than returned to the pool. */
  lemma CreateChatThrows(p: ProxyState, w: World)
    requires w.browserReady && CreateAuth(p, w) != []
    ensures var store1 := p.store.Acquire(w.now).1;
            p.pool.idle == [] && w.openThrew.Some? ==>
              CreateChat(p, w) == (ChatErr(w.openThrew.value), ProxyState(store1, p.pool, CreateAuth(p, w)))
    ensures var store1 := p.store.Acquire(w.now).1;
            var (page, pool1, auth3) := p.pool.Get(CreateAuth(p, w), w.stored);
            (p.pool.idle != [] || w.openThrew.None?) && w.createThrew.Some? ==>
              CreateChat(p, w) == (ChatErr(w.createThrew.value), ProxyState(store1, pool1.Discard(page), auth3))
  {
  }

  /** sendMessage's page acquisition throws: a page that does not open
   *  ends the call with nothing held, and a reload that throws ends it
   *  with the page closed. */
  lemma AdmitThrows(p: ProxyState, req: Request, available: seq<string>, w: World)
    requires ValidateMessage(req.message) == Accepted && w.browserReady && (w.authenticated || w.authCheck)
    requires CreateAuth(p, w) != []
    ensures var store1 := p.store.Acquire(w.now).1;
            p.pool.idle == [] && w.openThrew.Some? ==>
              Admit(p, req, available, w) ==
                (Stopped(Done(Thrown(w.openThrew.value, req.chatId))), ProxyState(store1, p.pool, CreateAuth(p, w)))
    ensures var store1 := p.store.Acquire(w.now).1;
            var (page, pool1, auth3) := p.pool.Get(CreateAuth(p, w), w.stored);
            (p.pool.idle != [] || w.openThrew.None?) && w.reloadThrew.Some? ==>
              Admit(p, req, available, w) ==
                (Stopped(Done(Thrown(w.reloadThrew.value, req.chatId))), ProxyState(store1, pool1.Discard(page), auth3))
  {
  }

  /** A truthy system message that is not a string never reaches the
   *  service: logging it throws, and the page is closed. */
  lemma OddSystemMessageThrows(p: ProxyState, page: Page, tok: Option<Token>, req: Request, w: World)
    requires OddSystemMessage(req.systemMessage)
    ensures Send(p, page, tok, req, w) == (Done(Thrown(SubstringError, req.chatId)), p.(pool := p.pool.Discard(page)))
  {
  }

  /** The reply classification never sees a verification page: the
   *  in-page code never sets `html`, so that branch is dead. */
  lemma {:induction false} NoVerification(p: ProxyState, req: Request, available: seq<string>, worlds: seq<World>)
    ensures !Run(p, req, available, worlds).0.VerificationRequired?
    decreases |worlds|
  {
    if worlds != [] {
      var w := worlds[0];
      AttemptNoVerification(p, req, available, w);
      var (step, p1) := Attempt(p, req, available, w);
      if step.Retry? {
        NoVerification(p1, step.next, available, worlds[1..]);
      }
    }
  }

  lemma AttemptNoVerification(p: ProxyState, req: Request, available: seq<string>, w: World)
    ensures var step := Attempt(p, req, available, w).0;
            step.Done? ==> !step.outcome.VerificationRequired?
  {
    if req.chatId == [] {
      var (c, p1) := CreateChat(p, w);
      if c.ChatOk? {
        ExecuteNoVerification(p1, req.(chatId := c.chatId), available, w);
      }
    } else {
      ExecuteNoVerification(p, req, available, w);
    }
  }

  lemma ExecuteNoVerification(p: ProxyState, req: Request, available: seq<string>, w: World)
    ensures var step := Execute(p, req, available, w).0;
            step.Done? ==> !step.outcome.VerificationRequired?
  {
    var (a, p1) := Admit(p, req, available, w);
    if a.Admitted? {
      SendNoVerification(p1, a.page, a.tok, a.req, w);
    }
  }

  lemma SendNoVerification(p: ProxyState, page: Page, tok: Option<Token>, req: Request, w: World)
    ensures var step := Send(p, page, tok, req, w).0;
            step.Done? ==> !step.outcome.VerificationRequired?
  {
    var payload := BuildPayload(req.message, req.model, req.chatId, req.parentId, req.files, req.tools,
                                req.toolChoice, req.systemMessage, req.chatType, req.size);
    var r := Respond(w.reply, payload.stream, w);
    if r.Refused? {
      NothingInEmpty("Verification");
      ClassifySpec(r.failure);
    }
  }

  lemma NothingInEmpty(t: string)
    requires t != []
    ensures !Contains([], t)
  {
  }

  /** The video branch never uses its own fallback 'Video generation
   *  failed': a failed task already carries a truthy error, which is
   *  reported as it is, and a timeout reports the polling timeout. */
  lemma VideoFailureHasReason(p: ProxyState, page: Page, req: Request, data: Json, w: World)
    ensures var step := TaskPath(p, page, req, data, w).0;
            step.Done? && step.outcome.VideoFailed? ==>
              && Truthy(step.outcome.reason)
              && (step.outcome.status == "failed" ==>
                    Poll(w.poll, DefaultMaxAttempts).0.Failed? && step.outcome.reason == Poll(w.poll, DefaultMaxAttempts).0.error)
              && (step.outcome.status != "failed" ==>
                    Poll(w.poll, DefaultMaxAttempts).0.TimedOut? && step.outcome.reason == JStr(TimeoutError))
  {
    PollFailedHasError(w.poll, 1, DefaultMaxAttempts);
  }

  // ---------------------------------------------------------------------
  // Retry decisions
  // ---------------------------------------------------------------------

  /** After an expired credential the call retries exactly when some
   *  credential is still eligible once the used one is marked invalid;
   *  otherwise the pages are closed and the process exits. */
  lemma UnauthorizedDecision(p: ProxyState, tok: Option<Token>, req: Request, f: Failure, w: World)
    requires Classify(f) == Unauthorized
    ensures var store1 := if tok.Some? && tok.value.id != [] then p.store.MarkInvalid(tok.value.id) else p.store;
            var (step, p1) := HandleFailure(p, tok, req, f, w);
            && p1.store == store1 && p1.authToken == []
            && (step == Retry(RetryRequest(req)) <==> store1.HasValid(w.now))
            && (step == Done(ProcessExit) <==> !store1.HasValid(w.now))
            && (step == Done(ProcessExit) ==> p1.pool.idle == [])
  {
  }

  /** A rate limit always leads to another call, whatever is left in the
   *  pool: the source has no guard on this path. */
  lemma RateLimitAlwaysRetries(p: ProxyState, tok: Option<Token>, req: Request, f: Failure, w: World)
    requires Classify(f) == RateLimited
    ensures HandleFailure(p, tok, req, f, w).0 == Retry(RetryRequest(req))
    ensures var h := RateLimitHours(f.errorBody, w.parse);
            HandleFailure(p, tok, req, f, w).1.store ==
              (if h.Some? && tok.Some? && tok.value.id != [] then p.store.MarkRateLimited(tok.value.id, h.value, w.now)
               else p.store)
    ensures var h := RateLimitHours(f.errorBody, w.parse);
            h.Some? && !DateInRange(w.now + h.value * MillisPerHour) ==>
              HandleFailure(p, tok, req, f, w).1.store == p.store
  {
  }

  // ---------------------------------------------------------------------
  // Where the unbounded retry goes
  // ---------------------------------------------------------------------

  /** A pool of environment credentials only, all usable. */
  ghost predicate EnvOnly(s: Store) {
    && Clean(s) && s.file == [] && s.env != []
    && (forall k :: 0 <= k < |s.env| ==> !s.env[k].invalid && s.env[k].resetAt.None?)
  }

  /** A call that gets a 401 reaches the failure branch with the page back
   *  in the pool and the cursor moved by one acquisition. */
  lemma AttemptReaches401(p: ProxyState, req: Request, available: seq<string>, w: World)
    requires Proceeds(req) && Answers401(w)
    ensures var (tok, store1) := p.store.Acquire(w.now);
            var auth1 := TakeCredential(tok, p.authToken);
            var auth2 := if auth1 != [] then auth1 else Extracted(w);
            var (page, pool1, auth3) := p.pool.Get(auth2, w.stored);
            var f := Failure(401, w.reply.statusText, w.reply.errorBody, [], []);
            && Classify(f) == Unauthorized
            && Attempt(p, req, available, w) ==
                 HandleFailure(ProxyState(store1, pool1.Release(page), auth3), tok,
                               req.(model := ResolveModel(req.model, available)), f, w)
  {
    var (tok, store1) := p.store.Acquire(w.now);
    var auth1 := TakeCredential(tok, p.authToken);
    var auth2 := if auth1 != [] then auth1 else Extracted(w);
    var (page, pool1, auth3) := p.pool.Get(auth2, w.stored);
    var req1 := req.(model := ResolveModel(req.model, available));
    var f := Failure(401, w.reply.statusText, w.reply.errorBody, [], []);
    NothingInEmpty("Verification");
    ClassifySpec(f);
    var payload := BuildPayload(req1.message, req1.model, req1.chatId, req1.parentId, req1.files, req1.tools,
                                req1.toolChoice, req1.systemMessage, req1.chatType, req1.size);
    assert Respond(w.reply, payload.stream, w) == Refused(f);
    assert Send(ProxyState(store1, pool1, auth3), page, tok, req1, w)
        == HandleFailure(ProxyState(store1, pool1.Release(page), auth3), tok, req1, f, w);
  }

  /** With environment credentials only and a service that keeps answering
   *  401, one call ends in another call and nothing but the cursor
   *  changes: marking an environment credential invalid does not last. */
  lemma EnvAttemptRetries(p: ProxyState, req: Request, available: seq<string>, w: World)
    requires EnvOnly(p.store) && Proceeds(req) && Answers401(w)
    ensures Attempt(p, req, available, w).0 == Retry(RetryRequest(req).(model := ResolveModel(req.model, available)))
    ensures var s1 := Attempt(p, req, available, w).1.store; s1.env == p.store.env && s1.file == p.store.file
  {
    AttemptReaches401(p, req, available, w);
    var (tok, store1) := p.store.Acquire(w.now);
    assert Eligible(p.store.Load()[0], w.now);
    AcquireSpec(p.store, w.now);
    var t := tok.value;
    assert store1.Load() == p.store.env;
    assert Eligible(store1.Load()[0], w.now);
    if t.id != [] {
      assert FindIndex(store1.Load(), t.id) != -1;
      MarkInvalidEnvIsLost(store1, t.id);
    }
  }

  /** ... so such a chain of calls never settles, however many calls it is
   *  given: in the source it recurses forever. */
  lemma {:induction false} EnvPoolNeverSettles(p: ProxyState, req: Request, available: seq<string>, worlds: seq<World>)
    requires EnvOnly(p.store) && Proceeds(req)
    requires forall i :: 0 <= i < |worlds| ==> Answers401(worlds[i])
    ensures Run(p, req, available, worlds).0 == Exhausted
    decreases |worlds|
  {
    if worlds != [] {
      EnvAttemptRetries(p, req, available, worlds[0]);
      var (step, p1) := Attempt(p, req, available, worlds[0]);
      var next := RetryRequest(req).(model := ResolveModel(req.model, available));
      assert step == Retry(next);
      assert EnvOnly(p1.store) by {
        assert p1.store.env == p.store.env && p1.store.file == p.store.file;
      }
      EnvPoolNeverSettles(p1, next, available, worlds[1..]);
    }
  }

  /** A pool of persisted credentials only, with distinct non-empty ids. */
  ghost predicate FileOnly(s: Store) {
    && Clean(s) && s.env == []
    && (forall j, k :: 0 <= j < k < |s.file| ==> s.file[j].id != s.file[k].id)
    && (forall k :: 0 <= k < |s.file| ==> s.file[k].id != [])
  }

  /** With persisted credentials only and a service that keeps answering
   *  401, each call either exits the process or marks one more eligible
   *  credential invalid and calls again. */
  lemma FileAttemptStep(p: ProxyState, req: Request, available: seq<string>, w: World)
    requires FileOnly(p.store) && Proceeds(req) && Answers401(w)
    ensures var (step, p1) := Attempt(p, req, available, w);
            && FileOnly(p1.store)
            && (step.Done? ==> step.outcome == ProcessExit)
            && (step.Retry? ==>
                  && step.next == RetryRequest(req).(model := ResolveModel(req.model, available))
                  && |EligibleTokens(p1.store.Load(), w.now)| + 1 == |EligibleTokens(p.store.Load(), w.now)|)
  {
    AttemptReaches401(p, req, available, w);
    var (tok, store1) := p.store.Acquire(w.now);
    AcquireSpec(p.store, w.now);
    HasValidIffAcquire(p.store, w.now);
    var auth1 := TakeCredential(tok, p.authToken);
    var auth2 := if auth1 != [] then auth1 else Extracted(w);
    var (page, pool1, auth3) := p.pool.Get(auth2, w.stored);
    var f := Failure(401, w.reply.statusText, w.reply.errorBody, [], []);
    var req1 := req.(model := ResolveModel(req.model, available));
    UnauthorizedDecision(ProxyState(store1, pool1.Release(page), auth3), tok, req1, f, w);
    if tok.Some? {
      MarkUsedFileToken(store1, tok.value, w.now);
    } else {
      assert store1.Load() == p.store.Load();
    }
  }

  /** Marking the credential just handed out shrinks the eligible list by
   *  one and keeps the pool persisted-only with distinct ids. */
  lemma MarkUsedFileToken(s: Store, t: Token, now: int)
    requires FileOnly(s) && t in s.Load() && Eligible(t, now)
    ensures t.id != [] && FileOnly(s.MarkInvalid(t.id))
    ensures |EligibleTokens(s.MarkInvalid(t.id).Load(), now)| + 1 == |EligibleTokens(s.Load(), now)|
  {
    var ts := s.Load();
    assert ts == s.file;
    var j :| 0 <= j < |ts| && ts[j] == t;
    assert FindIndex(ts, t.id) == j;
    MarkInvalidShrinks(s, t.id, now);
    MarkKeepsFileOnly(s, t.id, j);
  }

  lemma MarkKeepsFileOnly(s: Store, id: string, j: nat)
    requires FileOnly(s) && j < |s.file| && FindIndex(s.Load(), id) == j
    ensures FileOnly(s.MarkInvalid(id))
  {
    MarkInvalidEffect(s, id);
    var f2 := s.file[j := s.file[j].(invalid := true)];
    assert s.MarkInvalid(id).file == f2;
    assert forall k :: 0 <= k < |f2| ==> f2[k].id == s.file[k].id && f2[k].source == s.file[k].source;
  }

  /** ... so when every call answers 401 and the clock stands still, the
   *  chain ends in process.exit(1) once the eligible credentials are used
   *  up: it takes at most one call more than there are eligible ones. */
  lemma {:induction false} FilePoolExits(p: ProxyState, req: Request, available: seq<string>, worlds: seq<World>, now: int)
    requires FileOnly(p.store) && Proceeds(req)
    requires forall i :: 0 <= i < |worlds| ==> Answers401(worlds[i]) && worlds[i].now == now
    requires |worlds| > |EligibleTokens(p.store.Load(), now)|
    ensures Run(p, req, available, worlds).0 == ProcessExit
    decreases |worlds|
  {
    FileAttemptStep(p, req, available, worlds[0]);
    var (step, p1) := Attempt(p, req, available, worlds[0]);
    if step.Retry? {
      RetryKeepsProceeding(req);
      FilePoolExits(p1, step.next, available, worlds[1..], now);
    }
  }
}
