/**
 * `pollTaskStatus` of src/api/chat.js: query the status of a generation
 * task up to `maxAttempts` times and stop at the first terminal status.
 * The replies the service gives are an oracle indexed by attempt (0-based);
 * the delays between queries are left out.
 */
module TaskPoller {
  import opened Util
  import opened JsonValues

  const DefaultMaxAttempts: nat := 90

  /** One query: a non-ok HTTP reply, an exception, or the parsed body. */
  datatype PollReply = NotOk(status: int, body: string) | Threw | Reply(data: Json)

  datatype PollResult =
    | Completed(data: Json)
    | Failed(error: Json, data: Json)
    | TimedOut

  const TimeoutError: string := "Task polling timeout exceeded"

  /** `task_status || status || 'unknown'`. */
  function TaskStatus(data: Json): (r: Json)
    ensures Truthy(r)
  {
    var cands := [Get(data, "task_status"), Get(data, "status"), JStr("unknown")];
    FirstTruthyDefault(cands);
    FirstTruthy(cands)
  }

  /** What one reply decides: a terminal result, or `None` to keep going.
   *  A `null` body makes reading its status throw, which counts like any
   *  other exception. */
  function Decide(r: PollReply): Option<PollResult> {
    match r
    case NotOk(_, _) => None
    case Threw => None
    case Reply(data) =>
      if data.JNull? then None
      else if TaskStatus(data) == JStr("completed") || TaskStatus(data) == JStr("success") then Some(Completed(data))
      else if TaskStatus(data) == JStr("failed") || TaskStatus(data) == JStr("error") then
        Some(Failed(FirstTruthy([Get(data, "error"), Get(data, "message"), JStr("Task failed")]), data))
      else None
  }

  /** What each query decides, by attempt (0-based). */
  function Decisions(replies: nat -> PollReply): nat -> Option<PollResult> {
    (k: nat) => Decide(replies(k))
  }

  /** The outcome of polling from `attempt` (1-based) on, given what each
   *  query decides, with the number of the last query made. */
  function PollFrom(decide: nat -> Option<PollResult>, attempt: nat, maxAttempts: nat): (r: (PollResult, nat))
    requires 1 <= attempt
    decreases maxAttempts + 1 - attempt
  {
    if attempt > maxAttempts then (TimedOut, attempt - 1)
    else match decide(attempt - 1)
      case Some(res) => (res, attempt)
      case None => PollFrom(decide, attempt + 1, maxAttempts)
  }

  function Poll(replies: nat -> PollReply, maxAttempts: nat): (PollResult, nat) {
    PollFrom(Decisions(replies), 1, maxAttempts)
  }

  method PollTaskStatus(replies: nat -> PollReply, maxAttempts: nat) returns (result: PollResult, queries: nat)
    ensures (result, queries) == Poll(replies, maxAttempts)
  {
    var attempt := 1;
    while attempt <= maxAttempts
      invariant 1 <= attempt <= maxAttempts + 1
      invariant PollFrom(Decisions(replies), attempt, maxAttempts) == Poll(replies, maxAttempts)
      decreases maxAttempts + 1 - attempt
    {
      var decision := Decide(replies(attempt - 1));
      if decision.Some? {
        return decision.value, attempt;
      }
      attempt := attempt + 1;
    }
    return TimedOut, maxAttempts;
  }

  /** At most `maxAttempts` queries, and never fewer than were already
   *  made; a timeout comes only after the last one, provided no decision
   *  is itself a timeout. */
  lemma {:induction false} PollFromBound(decide: nat -> Option<PollResult>, attempt: nat, maxAttempts: nat)
    requires 1 <= attempt <= maxAttempts + 1
    requires forall k :: decide(k).Some? ==> !decide(k).value.TimedOut?
    ensures attempt - 1 <= PollFrom(decide, attempt, maxAttempts).1 <= maxAttempts
    ensures PollFrom(decide, attempt, maxAttempts).0 == TimedOut ==>
              PollFrom(decide, attempt, maxAttempts).1 == maxAttempts
    decreases maxAttempts + 1 - attempt
  {
    if attempt <= maxAttempts && decide(attempt - 1).None? {
      PollFromBound(decide, attempt + 1, maxAttempts);
    }
  }

  /** Without a terminal decision the result is a timeout, and a timeout
   *  means no decision was terminal, provided no decision is itself a
   *  timeout. */
  lemma {:induction false} PollFromTimeout(decide: nat -> Option<PollResult>, attempt: nat, maxAttempts: nat)
    requires 1 <= attempt <= maxAttempts + 1
    requires forall k :: decide(k).Some? ==> !decide(k).value.TimedOut?
    ensures PollFrom(decide, attempt, maxAttempts).0 == TimedOut <==>
              forall k :: attempt - 1 <= k < maxAttempts ==> decide(k).None?
    decreases maxAttempts + 1 - attempt
  {
    if attempt <= maxAttempts && decide(attempt - 1).None? {
      PollFromTimeout(decide, attempt + 1, maxAttempts);
    }
  }

  /** The first terminal decision decides: its attempt is the last query
   *  made and its verdict is the result. */
  lemma {:induction false} PollFromFirst(decide: nat -> Option<PollResult>, attempt: nat, maxAttempts: nat, k: nat)
    requires 1 <= attempt && attempt - 1 <= k < maxAttempts
    requires decide(k).Some?
    requires forall j :: attempt - 1 <= j < k ==> decide(j).None?
    ensures PollFrom(decide, attempt, maxAttempts) == (decide(k).value, k + 1)
    decreases k - (attempt - 1)
  {
    if attempt - 1 < k {
      PollFromFirst(decide, attempt + 1, maxAttempts, k);
    }
  }

  lemma PollSpec(replies: nat -> PollReply, maxAttempts: nat)
    ensures Poll(replies, maxAttempts).1 <= maxAttempts
    ensures Poll(replies, maxAttempts).0 == TimedOut <==>
              forall k :: 0 <= k < maxAttempts ==> Decide(replies(k)).None?
    ensures Poll(replies, maxAttempts).0 == TimedOut ==> Poll(replies, maxAttempts).1 == maxAttempts
  {
    var decide := Decisions(replies);
    forall k | decide(k).Some? ensures !decide(k).value.TimedOut? {
      TerminalShapes(replies(k));
    }
    PollFromBound(decide, 1, maxAttempts);
    PollFromTimeout(decide, 1, maxAttempts);
    assert forall k :: decide(k) == Decide(replies(k));
  }

  /** The reply of the first terminal attempt `k` is the result, after
   *  `k + 1` queries. */
  lemma PollDecidedBy(replies: nat -> PollReply, maxAttempts: nat, k: nat)
    requires k < maxAttempts && Decide(replies(k)).Some?
    requires forall j :: 0 <= j < k ==> Decide(replies(j)).None?
    ensures Poll(replies, maxAttempts) == (Decide(replies(k)).value, k + 1)
  {
    PollFromFirst(Decisions(replies), 1, maxAttempts, k);
  }

  /** The terminal results carry what the source promises: a completed task
   *  reported `completed` or `success`, and a failed one always has a
   *  truthy error. */
  lemma TerminalShapes(r: PollReply)
    ensures Decide(r).Some? && Decide(r).value.Completed? ==>
              r.Reply? && TaskStatus(r.data) in [JStr("completed"), JStr("success")]
              && Decide(r).value.data == r.data
    ensures Decide(r).Some? && Decide(r).value.Failed? ==>
              r.Reply? && TaskStatus(r.data) in [JStr("failed"), JStr("error")]
              && Truthy(Decide(r).value.error)
    ensures Decide(r).Some? ==> !Decide(r).value.TimedOut?
  {
    if r.Reply? {
      FirstTruthyDefault([Get(r.data, "error"), Get(r.data, "message"), JStr("Task failed")]);
    }
  }

  /** Whatever polling fails with has a truthy error. */
  lemma {:induction false} PollFailedHasError(replies: nat -> PollReply, attempt: nat, maxAttempts: nat)
    requires 1 <= attempt
    ensures var r := PollFrom(Decisions(replies), attempt, maxAttempts).0;
            r.Failed? ==> Truthy(r.error)
    decreases maxAttempts + 1 - attempt
  {
    if attempt <= maxAttempts {
      TerminalShapes(replies(attempt - 1));
      if Decide(replies(attempt - 1)).None? {
        PollFailedHasError(replies, attempt + 1, maxAttempts);
      }
    }
  }

  /** Three replies that say "processing", with a limit of three, give
   *  three queries and a timeout. */
  lemma ThreeProcessingTimesOut()
    ensures Poll(_ => Reply(JObj(map["status" := JStr("processing")])), 3) == (TimedOut, 3)
  {
    var replies := (_: nat) => Reply(JObj(map["status" := JStr("processing")]));
    var d := JObj(map["status" := JStr("processing")]);
    assert Get(d, "task_status") == JNull;
    assert TaskStatus(d) == JStr("processing");
    var decide := Decisions(replies);
    assert Decide(Reply(d)) == None;
    assert forall k :: decide(k) == None;
    assert PollFrom(decide, 4, 3) == (TimedOut, 3);
    assert PollFrom(decide, 3, 3) == (TimedOut, 3);
    assert PollFrom(decide, 2, 3) == (TimedOut, 3);
  }
}
