/**
 * sendMessage as the source runs it: the module-level credential pool, page
 * pool and `authToken` are the fields of one object, and each step updates
 * them in place. Every method is tied to the pure transition of the
 * Dispatcher module that states what the step does.
 */
module ChatSession {
  import opened Util
  import opened JsonValues
  import opened TokenManager
  import opened PagePool
  import opened TaskPoller
  import opened StreamDecoder
  import opened ChatRequest
  import opened Dispatcher

  class Session {
    const tokens: TokenPool
    const pages: PagePool
    var authToken: string

    function Snapshot(): ProxyState
      reads this, tokens, pages
    {
      ProxyState(tokens.State(), pages.State(), authToken)
    }

    constructor (tokens: TokenPool, pages: PagePool)
      ensures this.tokens == tokens && this.pages == pages && authToken == []
    {
      this.tokens := tokens;
      this.pages := pages;
      authToken := [];
    }

    /** createChatV2 (src/api/chat.js:868-962). */
    method CreateChatV2(w: World) returns (c: Created)
      modifies this, tokens, pages
      ensures (c, Snapshot()) == CreateChat(old(Snapshot()), w)
    {
      if !w.browserReady {
        return ChatErr("Браузер не инициализирован");
      }
      var tok := tokens.GetAvailableToken(w.now);
      if tok.Some? && tok.value.secret != [] {
        authToken := tok.value.secret;
      }
      if authToken == [] {
        authToken := Extracted(w);
        if authToken == [] {
          return ChatErr("Не удалось получить токен авторизации");
        }
      }
      if pages.idle == [] && w.openThrew.Some? {
        return ChatErr(w.openThrew.value);
      }
      var page, token := pages.GetPage(authToken, w.stored);
      authToken := token;
      if w.createThrew.Some? {
        pages.Discard(page);
        return ChatErr(w.createThrew.value);
      }
      c := CreateResult(w.create);
      pages.ReleasePage(page);
    }

    /** The failure branch: the page is already back in the pool. */
    method HandleFailureStep(tok: Option<Token>, req: Request, f: Failure, w: World) returns (step: Step)
      modifies this, tokens, pages
      ensures (step, Snapshot()) == HandleFailure(old(Snapshot()), tok, req, f, w)
    {
      match Classify(f)
      case NeedsVerification =>
        pages.Clear();
        authToken := [];
        step := Done(VerificationRequired(req.chatId));
      case Unauthorized =>
        if tok.Some? && tok.value.id != [] {
          tokens.MarkInvalid(tok.value.id);
        }
        authToken := [];
        if tokens.HasValidTokens(w.now) {
          step := Retry(RetryRequest(req));
        } else {
          pages.Clear();
          step := Done(ProcessExit);
        }
      case RateLimited =>
        var hours := RateLimitHours(f.errorBody, w.parse);
        if hours.Some? && tok.Some? && tok.value.id != [] {
          tokens.MarkRateLimited(tok.value.id, hours.value, w.now);
        }
        authToken := [];
        step := Retry(RetryRequest(req));
      case Other(e, d) =>
        step := Done(UpstreamError(e, d, req.chatId));
    }

    /** The video-task branch: look for the task id and poll the task. */
    method TaskStep(page: Page, req: Request, data: Json, w: World) returns (step: Step)
      modifies pages
      ensures (step, Snapshot()) == TaskPath(old(Snapshot()), page, req, data, w)
    {
      if data.JNull? {
        pages.Discard(page);
        return Done(Thrown(NullRead("data"), req.chatId));
      }
      var taskId := ExtractTaskId(data);
      pages.ReleasePage(page);
      if !Truthy(taskId) {
        return Done(TaskMissing(req.chatId, data));
      }
      if !req.wait {
        return Done(TaskPending(taskId, req.model, req.chatId, FirstTruthy([Get(Get(data, "data"), "parent_id"), taskId])));
      }
      var result, _ := PollTaskStatus(w.poll, DefaultMaxAttempts);
      match result
      case Completed(td) =>
        var usage := if Truthy(Get(td, "usage")) then Get(td, "usage") else VideoUsageDefault;
        step := Done(Video(taskId, VideoContent(td), VideoUrl(td), usage, req.model, req.chatId));
      case Failed(e, td) =>
        step := Done(VideoFailed(if Truthy(e) then e else JStr("Video generation failed"), "failed", taskId, req.chatId, td));
      case TimedOut =>
        step := Done(VideoFailed(JStr(TimeoutError), "timeout", taskId, req.chatId, JNull));
    }

    /** The completion request and what follows from its reply. */
    method SendStep(page: Page, tok: Option<Token>, req: Request, w: World) returns (step: Step)
      modifies this, tokens, pages
      ensures (step, Snapshot()) == Send(old(Snapshot()), page, tok, req, w)
    {
      if OddSystemMessage(req.systemMessage) {
        pages.Discard(page);
        return Done(Thrown(SubstringError, req.chatId));
      }
      var payload := BuildPayload(req.message, req.model, req.chatId, req.parentId, req.files, req.tools,
                                  req.toolChoice, req.systemMessage, req.chatType, req.size);
      var response: Response;
      if w.reply.HttpOk? && payload.stream {
        var decoded := DecodeStream(w.reply.chunks, w.parse, w.stamp);
        response := StreamOk(decoded);
      } else {
        response := Respond(w.reply, payload.stream, w);
      }
      match response
      case Escaped(e) =>
        pages.Discard(page);
        step := Done(Thrown(e, req.chatId));
      case TaskOk(data) =>
        step := TaskStep(page, req, data, w);
      case StreamOk(d) =>
        pages.ReleasePage(page);
        step := Done(Answered(d, req.model, req.chatId, d.responseId));
      case Refused(f) =>
        pages.ReleasePage(page);
        step := HandleFailureStep(tok, req, f, w);
    }

    /** Validation, model fallback, credential and page. */
    method AdmitStep(req: Request, available: seq<string>, w: World) returns (a: Admission)
      modifies this, tokens, pages
      ensures (a, Snapshot()) == Admit(old(Snapshot()), req, available, w)
    {
      var check := ValidateMessage(req.message);
      if check != Accepted {
        return Stopped(Done(Rejected(MessageError(check), req.chatId)));
      }
      ghost var p0 := Snapshot();
      var model := ResolveModel(req.model, available);
      var tok := tokens.GetAvailableToken(w.now);
      if tok.Some? && tok.value.secret != [] {
        authToken := tok.value.secret;
      }
      assert (tok, tokens.State()) == p0.store.Acquire(w.now);
      assert pages.State() == p0.pool;
      assert authToken == TakeCredential(tok, p0.authToken);
      if !w.browserReady {
        return Stopped(Done(Rejected("Браузер не инициализирован", req.chatId)));
      }
      if !w.authenticated && !w.authCheck {
        return Stopped(Done(Rejected("Требуется авторизация. Пожалуйста, авторизуйтесь в открытом браузере.", req.chatId)));
      }
      if authToken == [] {
        authToken := Extracted(w);
        if authToken == [] {
          return Stopped(Done(Rejected("Ошибка авторизации: не удалось получить токен", req.chatId)));
        }
      }
      if pages.idle == [] && w.openThrew.Some? {
        return Stopped(Done(Thrown(w.openThrew.value, req.chatId)));
      }
      var page, token := pages.GetPage(authToken, w.stored);
      authToken := token;
      if w.reloadThrew.Some? {
        pages.Discard(page);
        return Stopped(Done(Thrown(w.reloadThrew.value, req.chatId)));
      }
      return Admitted(page, tok, req.(model := model));
    }

    method ExecuteStep(req: Request, available: seq<string>, w: World) returns (step: Step)
      modifies this, tokens, pages
      ensures (step, Snapshot()) == Execute(old(Snapshot()), req, available, w)
    {
      var a := AdmitStep(req, available, w);
      match a
      case Stopped(s) =>
        step := s;
      case Admitted(page, tok, r) =>
        step := SendStep(page, tok, r, w);
    }

    /** One call of sendMessage. */
    method AttemptStep(req: Request, available: seq<string>, w: World) returns (step: Step)
      modifies this, tokens, pages
      ensures (step, Snapshot()) == Attempt(old(Snapshot()), req, available, w)
    {
      if req.chatId == [] {
        var c := CreateChatV2(w);
        match c
        case ChatErr(e) =>
          step := Done(ChatCreateFailed("Не удалось создать чат: " + e));
        case ChatOk(id) =>
          step := ExecuteStep(req.(chatId := id), available, w);
      } else {
        step := ExecuteStep(req, available, w);
      }
    }

    /** sendMessage with its recursion unrolled into a loop: each pass is one
     *  call, seeing the next world, until a call settles or the worlds run
     *  out. */
    method SendMessage(req: Request, available: seq<string>, worlds: seq<World>) returns (outcome: Outcome)
      modifies this, tokens, pages
      ensures (outcome, Snapshot()) == Run(old(Snapshot()), req, available, worlds)
    {
      var current := req;
      var i := 0;
      while i < |worlds|
        invariant 0 <= i <= |worlds|
        invariant Run(Snapshot(), current, available, worlds[i..]) == Run(old(Snapshot()), req, available, worlds)
        decreases |worlds| - i
      {
        assert worlds[i..][1..] == worlds[i + 1..];
        var step := AttemptStep(current, available, worlds[i]);
        match step
        case Done(o) =>
          return o;
        case Retry(next) =>
          current := next;
        i := i + 1;
      }
      return Exhausted;
    }
  }
}
