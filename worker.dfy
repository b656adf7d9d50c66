// worker.py: the worker's side of a task. It keeps the task's status and
// Activity, batches them with queued log lines into task updates for the
// Manager, decides when to push at once and when to schedule a delayed push,
// and fetches and runs tasks. Clock readings, the Manager's replies, the task
// runner's outcome and the random source are inputs; time is in milliseconds.
module Worker {
  import opened Wrappers
  import opened Values
  import opened Text
  import opened Documents
  import opened UpdateQueue
  import Config
  import MayIRun

  // Delays in seconds.
  const RegisterAtManagerFailedRetryDelay: nat := 30
  const FetchTaskFailedRetryDelay: nat := 10
  const FetchTaskEmptyRetryDelay: nat := 5
  const FetchTaskDoneScheduleNewDelay: nat := 3

  const PushLogMaxEntries: nat := 10
  /** PUSH_LOG_MAX_INTERVAL, 5 seconds, in milliseconds. */
  const PushLogMaxInterval: nat := 5000
  /** PUSH_ACT_MAX_INTERVAL, 1 second, in milliseconds. */
  const PushActMaxInterval: nat := 1000

  /** '%s' % task_id: the id itself, or "None" before any task was fetched. */
  function TaskIdText(taskId: Option<string>): string
  {
    if taskId.Some? then taskId.value else "None"
  }

  /** The URL a task update is queued under: '/tasks/<task_id>/update'. */
  function UpdateUrl(taskId: Option<string>): string
  {
    "/tasks/" + TaskIdText(taskId) + "/update"
  }

  /** Different task ids are updated under different URLs. */
  lemma UpdateUrlInjective(a: string, b: string)
    requires UpdateUrl(Some(a)) == UpdateUrl(Some(b))
    ensures a == b
  {
    var ua, ub := UpdateUrl(Some(a)), UpdateUrl(Some(b));
    assert |a| == |b|;
    assert a == ua[7..7 + |a|];
    assert b == ub[7..7 + |b|];
  }

  /** The JSON value of current_task_status. */
  function StatusValue(status: Option<string>): Value
  {
    if status.Some? then StrV(status.value) else NoneV
  }

  /**
   * push_to_manager's payload: attr.asdict of the activity, plus task_status,
   * plus the queued log lines joined by newlines under "log" when there are any.
   */
  function Payload(activity: Activity, status: Option<string>, logs: seq<string>): Value
  {
    var d := ActivityDict(activity)["task_status" := StatusValue(status)];
    DictV(if logs == [] then d else d["log" := StrV(Join(logs, "\n"))])
  }

  /**
   * What a payload carries: the Activity fields, from which the Activity is
   * rebuilt unchanged, the status, and the log text exactly when logs were queued.
   */
  lemma PayloadContents(activity: Activity, status: Option<string>, logs: seq<string>)
    ensures var p := Payload(activity, status, logs).entries;
      p.Keys == ActivityFields + {"task_status"} + (if logs == [] then {} else {"log"}) &&
      MakeActivity(p - {"task_status", "log"}) == Ok(activity) &&
      p["task_status"] == StatusValue(status) &&
      ("log" in p <==> logs != []) &&
      ("log" in p ==> p["log"] == StrV(Join(logs, "\n")))
  {
    var p := Payload(activity, status, logs).entries;
    assert p - {"task_status", "log"} == ActivityDict(activity);
    ActivityDictRoundTrip(activity);
  }

  /** A reply to POST /task. `taskId` is the `_id` of a 200 reply's JSON, absent when it has none. */
  datatype FetchReply = FetchFailed(exc: Exception) | FetchResponse(status: int, taskId: Option<string>)

  /**
   * How long fetch_task waits before the next fetch when it gets no task:
   * a failed request or a status other than 200 and 204 retries after 10 s,
   * 204 (no task available) after 5 s; a 200 gives a task.
   */
  function FetchRetryDelay(reply: FetchReply): (d: Option<nat>)
    ensures d.None? <==> reply.FetchResponse? && reply.status == 200
    ensures d == Some(FetchTaskEmptyRetryDelay) <==> reply.FetchResponse? && reply.status == 204
    ensures d.Some? && d != Some(FetchTaskEmptyRetryDelay) ==> d == Some(FetchTaskFailedRetryDelay)
  {
    if reply.FetchFailed? then Some(FetchTaskFailedRetryDelay)
    else if reply.status == 204 then Some(FetchTaskEmptyRetryDelay)
    else if reply.status != 200 then Some(FetchTaskFailedRetryDelay)
    else None
  }

  /** How awaiting the task runner ended: True, False, CancelledError or another exception. */
  datatype RunOutcome = Succeeded | Failed | Cancelled | Crashed(exc: Exception)

  /** A call register_task_update(task_status=..., activity=...) with the given optional activity. */
  datatype Report = Report(status: string, activity: Option<string>)

  /**
   * The update fetch_task registers once the runner is done, or None when a
   * failure or cancellation is ignored because failures are acceptable.
   */
  function FinalReport(outcome: RunOutcome, failuresAreAcceptable: bool): (r: Option<Report>)
    ensures r.None? <==> failuresAreAcceptable && (outcome.Failed? || outcome.Cancelled?)
    ensures r.Some? ==> (r.value.status == "completed" <==> outcome.Succeeded?)
    ensures r.Some? ==> (r.value.status == "canceled" <==> outcome.Cancelled?)
    ensures outcome.Crashed? ==> r.Some? && r.value.status == "failed"
  {
    match outcome
    case Succeeded => Some(Report("completed", Some("Task completed")))
    case Failed => if failuresAreAcceptable then None else Some(Report("failed", None))
    case Cancelled => if failuresAreAcceptable then None else Some(Report("canceled", Some("Task was canceled")))
    case Crashed(e) => Some(Report("failed", Some("Uncaught exception: " + e.kind + " " + e.message)))
  }

  /** The keyword arguments of a register_task_update call that only passes `activity`, if any. */
  function ActivityOnly(activity: Option<string>): ActivityUpdate
  {
    ActivityUpdate(activity, None, None, None)
  }

  predicate IsAsciiAlnum(c: char)
  {
    'a' <= c <= 'z' || 'A' <= c <= 'Z' || '0' <= c <= '9'
  }

  /** The character at position i of string.ascii_letters + string.digits. */
  function Token(i: nat): (c: char)
    requires i < 62
    ensures IsAsciiAlnum(c)
  {
    if i < 26 then ('a' as int + i) as char
    else if i < 52 then ('A' as int + i - 26) as char
    else ('0' as int + i - 52) as char
  }

  /** string.ascii_letters + string.digits: the 26 lower-case letters, the 26 upper-case ones, the 10 digits. */
  function SecretTokens(): (t: string)
    ensures |t| == 62 && forall i :: 0 <= i < 62 ==> t[i] == Token(i)
  {
    seq(62, i requires 0 <= i < 62 => Token(i))
  }

  /** The position of an ASCII letter or digit in SecretTokens. */
  function TokenIndex(c: char): (k: nat)
    requires IsAsciiAlnum(c)
    ensures k < |SecretTokens()| && SecretTokens()[k] == c
  {
    if 'a' <= c <= 'z' then (c as int - 'a' as int)
    else if 'A' <= c <= 'Z' then 26 + (c as int - 'A' as int)
    else 52 + (c as int - '0' as int)
  }

  /**
   * generate_secret(): 64 choices from SecretTokens; the system random
   * source's choices are the input `picks`.
   */
  function GenerateSecret(picks: seq<nat>): (s: string)
    requires |picks| == 64 && forall i :: 0 <= i < |picks| ==> picks[i] < |SecretTokens()|
    ensures |s| == 64 && forall i :: 0 <= i < |s| ==> IsAsciiAlnum(s[i])
  {
    var tokens := SecretTokens();
    var s := seq(64, i requires 0 <= i < 64 => tokens[picks[i]]);
    assert forall i :: 0 <= i < 64 ==> s[i] == Token(picks[i]);
    s
  }

  /** The choices that make generate_secret return `s`. */
  function PicksOf(s: string): (picks: seq<nat>)
    requires forall i :: 0 <= i < |s| ==> IsAsciiAlnum(s[i])
    ensures |picks| == |s| && forall i :: 0 <= i < |s| ==> picks[i] < |SecretTokens()|
  {
    seq(|s|, i requires 0 <= i < |s| => TokenIndex(s[i]))
  }

  /** Every string of 64 ASCII letters and digits is a secret generate_secret can return. */
  lemma EverySecretPossible(s: string)
    requires |s| == 64 && forall i :: 0 <= i < |s| ==> IsAsciiAlnum(s[i])
    ensures GenerateSecret(PicksOf(s)) == s
  {
  }

  const KnownPlatforms: set<string> := {"linux", "windows", "darwin"}

  /**
   * detect_platform() given platform.system(): its lower-cased name when that
   * is linux, windows or darwin; OSError (EnvironmentError) otherwise, with
   * its own message for an empty name.
   */
  function DetectPlatform(system: string): (r: Result<string>)
    ensures r.Ok? <==> Lower(system) in KnownPlatforms
    ensures r.Ok? ==> r.value == Lower(system)
    ensures r.Raise? ==> r.exc.kind == "OSError"
    ensures Lower(system) == [] ==> r == Raise(Exception("OSError", "Unable to determine platform."))
  {
    var plat := Lower(system);
    if plat == [] then Raise(Exception("OSError", "Unable to determine platform."))
    else if plat in KnownPlatforms then Ok(plat)
    else Raise(Exception("OSError", "('Unable to determine platform; unknown platform %r', " + Repr(plat) + ")"))
  }

  /** A detected platform name is detected as itself again. */
  lemma DetectPlatformIdempotent(system: string)
    requires DetectPlatform(system).Ok?
    ensures DetectPlatform(DetectPlatform(system).value) == DetectPlatform(system)
  {
    LowerIdempotent(system);
  }

  /** One POST attempt of _keep_posting_to_manager: a reply, or a requests exception. */
  datatype PostReply = Accepted(id: Option<string>) | Refused(exc: Exception)

  const UnableToRegister := Exception("UnableToRegisterError", "")

  /** The index of the first accepted attempt. */
  function FirstAccepted(attempts: seq<PostReply>): (k: Option<nat>)
    ensures k.Some? ==> (k.value < |attempts| && attempts[k.value].Accepted? &&
      forall j :: 0 <= j < k.value ==> attempts[j].Refused?)
    ensures k.None? ==> forall j :: 0 <= j < |attempts| ==> attempts[j].Refused?
  {
    if attempts == [] then None
    else if attempts[0].Accepted? then Some(0)
    else match FirstAccepted(attempts[1..])
      case None => None
      case Some(k) => Some(k + 1)
  }

  /**
   * What _keep_posting_to_manager makes of the successive attempts: the id
   * of the first accepted reply, UnableToRegisterError on a refusal when it
   * may not retry, and None while it is still retrying.
   */
  function PostResult(attempts: seq<PostReply>, mayRetryLoop: bool): Option<Result<Option<string>>>
  {
    if attempts == [] then None
    else if attempts[0].Accepted? then Some(Ok(attempts[0].id))
    else if !mayRetryLoop then Some(Raise(UnableToRegister))
    else PostResult(attempts[1..], mayRetryLoop)
  }

  /** With retries, the outcome is the first accepted attempt's, and there is one exactly when one was accepted. */
  lemma {:induction false} PostResultIsFirstAccepted(attempts: seq<PostReply>)
    ensures PostResult(attempts, true).Some? <==> FirstAccepted(attempts).Some?
    ensures PostResult(attempts, true).Some? ==>
      PostResult(attempts, true).value == Ok(attempts[FirstAccepted(attempts).value].id)
  {
    if attempts != [] && attempts[0].Refused? {
      PostResultIsFirstAccepted(attempts[1..]);
    }
  }

  /**
   * _keep_posting_to_manager: posts until an attempt is accepted, sleeping
   * 30 s after each refused one; without may_retry_loop a refused attempt
   * raises UnableToRegisterError instead. `r` is None when every given
   * attempt was refused and the loop would go on retrying; `slept` is the
   * time spent sleeping, in seconds.
   */
  method KeepPosting(attempts: seq<PostReply>, mayRetryLoop: bool)
    returns (r: Option<Result<Option<string>>>, used: nat, slept: nat)
    ensures r == PostResult(attempts, mayRetryLoop)
    ensures !mayRetryLoop && attempts != [] ==>
      used == 1 && slept == 0 &&
      r == Some(if attempts[0].Accepted? then Ok(attempts[0].id) else Raise(UnableToRegister))
    ensures mayRetryLoop ==> (r.Some? <==> FirstAccepted(attempts).Some?)
    ensures mayRetryLoop && r.Some? ==>
      var k := FirstAccepted(attempts).value;
      r.value == Ok(attempts[k].id) && used == k + 1 && slept == RegisterAtManagerFailedRetryDelay * k
    ensures r.None? ==> used == |attempts| && slept == RegisterAtManagerFailedRetryDelay * |attempts|
  {
    used, slept := 0, 0;
    while used < |attempts|
      invariant used <= |attempts| && slept == RegisterAtManagerFailedRetryDelay * used
      invariant forall j :: 0 <= j < used ==> attempts[j].Refused?
      invariant !mayRetryLoop ==> used == 0
      invariant PostResult(attempts, mayRetryLoop) == PostResult(attempts[used..], mayRetryLoop)
    {
      var reply := attempts[used];
      used := used + 1;
      if reply.Accepted? {
        return Some(Ok(reply.id)), used, slept;
      }
      if !mayRetryLoop {
        return Some(Raise(UnableToRegister)), used, slept;
      }
      slept := slept + RegisterAtManagerFailedRetryDelay;
      assert attempts[used - 1..][1..] == attempts[used..];
    }
    r := None;
  }

  /** The KeyError raised when the JSON of a fetched task has no `_id`. */
  const MissingTaskId := Exception("KeyError", "'_id'")

  /** The KeyError raised when the Manager's reply to the registration has no `_id`. */
  const MissingWorkerId := Exception("KeyError", "'_id'")

  /** What startup makes of the registration POST: the new id, or the error that ends startup. */
  function RegisterOutcome(post: Option<Result<Option<string>>>): Option<Result<()>>
  {
    match post
    case None => None
    case Some(Raise(e)) => Some(Raise(e))
    case Some(Ok(None)) => Some(Raise(MissingWorkerId))
    case Some(Ok(Some(_))) => Some(Ok(()))
  }

  /** What startup makes of the sign-on POST, whose reply it does not read. */
  function SignOnOutcome(post: Option<Result<Option<string>>>): Option<Result<()>>
  {
    match post
    case None => None
    case Some(Raise(e)) => Some(Raise(e))
    case Some(Ok(_)) => Some(Ok(()))
  }

  /** The two delayed pushes: _push_act_to_manager and _push_log_to_manager. */
  datatype PushKind = ActivityPush | LogPush

  /**
   * A FlamencoWorker. The asyncio futures of the delayed pushes are the flags
   * pushActScheduled and pushLogScheduled (scheduled and not yet done), the
   * execution task is `executing`, and each fetch_task scheduled by
   * schedule_fetch_task is one delay in scheduledFetches. `sent` is the
   * Activity and status of the last update pushed (at first the initial ones).
   */
  class FlamencoWorker {
    const tuqueue: TaskUpdateQueue
    var workerId: string
    var workerSecret: string
    /** manager.auth, set by startup. */
    var auth: Option<(string, string)>

    var taskId: Option<string>
    var currentTaskStatus: Option<string>
    var lastTaskActivity: Activity

    var queuedLogEntries: seq<string>
    var lastLogPush: int
    var lastActivityPush: int
    var pushLogScheduled: bool
    var pushActScheduled: bool

    var failuresAreAcceptable: bool
    var executing: bool
    /** The execution task was cancelled by stop_current_task and has not yet ended. */
    var stopRequested: bool
    /** shutdown_future.done(), set by whoever owns the future. */
    var shutdownDone: bool
    var scheduledFetches: seq<nat>

    const pushLogMaxInterval: int
    const pushLogMaxEntries: nat
    const pushActMaxInterval: int

    ghost var sent: (Activity, Option<string>)

    predicate Valid()
      reads this, tuqueue
    {
      tuqueue.Valid()
    }

    function Task(): (Option<string>, Option<string>, Activity)
      reads this
    {
      (taskId, currentTaskStatus, lastTaskActivity)
    }

    function Pushes(): (seq<string>, int, int, bool, bool)
      reads this
    {
      (queuedLogEntries, lastLogPush, lastActivityPush, pushLogScheduled, pushActScheduled)
    }

    function Identity(): (string, string, Option<(string, string)>)
      reads this
    {
      (workerId, workerSecret, auth)
    }

    function Flags(): (bool, bool, bool)
      reads this
    {
      (failuresAreAcceptable, executing, shutdownDone)
    }

    /** Every registered Activity and status reaches the Manager: it was pushed, or a push is pending. */
    ghost predicate ActivityCovered()
      reads this
    {
      sent != (lastTaskActivity, currentTaskStatus) ==> pushActScheduled
    }

    /** Every queued log line reaches the Manager: a log push is pending while any is queued. */
    predicate LogsCovered()
      reads this
    {
      queuedLogEntries != [] ==> pushLogScheduled
    }

    /** The queue holds `rows0` plus one update with the current Activity and status and the lines `logs0`. */
    ghost predicate QueuedOnto(rows0: seq<Row>, logs0: seq<string>)
      requires Ascending(rows0)
      reads this, tuqueue
    {
      tuqueue.rows == Enqueue(rows0, UpdateUrl(taskId), Payload(lastTaskActivity, currentTaskStatus, logs0))
    }

    /**
     * The state right after push_to_manager at `now`, from a queue holding
     * `rows0` and the log lines `logs0`: one update queued with the current
     * Activity, status and those lines, the log queue emptied, the pending
     * activity push cancelled, and the pending log push cancelled when there
     * were lines to send.
     */
    ghost predicate PushedFrom(rows0: seq<Row>, logs0: seq<string>, lastLog0: int, logScheduled0: bool, now: int)
      requires Ascending(rows0)
      reads this, tuqueue
    {
      QueuedOnto(rows0, logs0) &&
      queuedLogEntries == [] && lastActivityPush == now && !pushActScheduled &&
      lastLogPush == (if logs0 != [] then now else lastLog0) &&
      pushLogScheduled == (logScheduled0 && logs0 == []) &&
      sent == (lastTaskActivity, currentTaskStatus)
    }

    /**
     * A worker with nothing queued and nothing pending; the push clocks start
     * at `now`, and the Activity has its defaults.
     */
    constructor (tuqueue: TaskUpdateQueue, workerId: string, workerSecret: string, now: int,
                 pushLogMaxInterval: int, pushLogMaxEntries: nat, pushActMaxInterval: int)
      requires tuqueue.Valid()
      ensures Valid() && ActivityCovered() && LogsCovered()
      ensures this.tuqueue == tuqueue && Identity() == (workerId, workerSecret, None)
      ensures Task() == (None, None, Activity("", 0, 0, 0))
      ensures Pushes() == ([], now, now, false, false)
      ensures Flags() == (false, false, false) && !stopRequested && scheduledFetches == []
      ensures this.pushLogMaxInterval == pushLogMaxInterval && this.pushLogMaxEntries == pushLogMaxEntries
      ensures this.pushActMaxInterval == pushActMaxInterval
    {
      this.tuqueue := tuqueue;
      this.workerId := workerId;
      this.workerSecret := workerSecret;
      auth := None;
      taskId := None;
      currentTaskStatus := None;
      lastTaskActivity := Activity("", 0, 0, 0);
      queuedLogEntries := [];
      lastLogPush := now;
      lastActivityPush := now;
      pushLogScheduled := false;
      pushActScheduled := false;
      failuresAreAcceptable := false;
      executing := false;
      stopRequested := false;
      shutdownDone := false;
      scheduledFetches := [];
      this.pushLogMaxInterval := pushLogMaxInterval;
      this.pushLogMaxEntries := pushLogMaxEntries;
      this.pushActMaxInterval := pushActMaxInterval;
      sent := (Activity("", 0, 0, 0), None);
    }

    /** active_task_id: the task id, but only while its execution task runs. */
    function ActiveTaskId(): (r: Option<string>)
      reads this
      ensures r.Some? ==> executing
      ensures executing ==> r == taskId
    {
      if !executing then None else taskId
    }

    /**
     * push_to_manager() at `now`, with the update queued as
     * tuqueue.queue(url, payload): see PushedFrom.
     */
    method PushToManager(now: int)
      requires Valid()
      modifies this`queuedLogEntries, this`lastLogPush, this`lastActivityPush, this`pushLogScheduled, this`pushActScheduled, this`sent, tuqueue
      ensures Valid()
      ensures PushedFrom(old(tuqueue.rows), old(queuedLogEntries), old(lastLogPush), old(pushLogScheduled), now)
    {
      var logs := queuedLogEntries;
      ghost var rows0 := tuqueue.rows;
      // Cancelling the pending pushes: the log push only when there are lines to send.
      lastActivityPush, pushActScheduled, queuedLogEntries, lastLogPush, pushLogScheduled :=
        now, false, [], if logs != [] then now else lastLogPush, pushLogScheduled && logs == [];
      sent := (lastTaskActivity, currentTaskStatus);
      tuqueue.Queue(UpdateUrl(taskId), Payload(lastTaskActivity, currentTaskStatus, logs));
      assert QueuedOnto(rows0, logs);
    }

    /**
     * push_to_manager() as written: tuqueue.queue() takes no `loop` keyword,
     * so the call raises TypeError after the queued log lines were cleared.
     * Nothing is queued and the lines are lost; the push clocks still move.
     */
    method PushToManagerAsWritten(now: int) returns (r: Result<()>)
      modifies this`queuedLogEntries, this`lastLogPush, this`lastActivityPush, this`pushLogScheduled, this`pushActScheduled
      ensures r == Raise(Exception("TypeError", "queue() got an unexpected keyword argument 'loop'"))
      ensures queuedLogEntries == [] && lastActivityPush == now && !pushActScheduled
      ensures old(queuedLogEntries) != [] ==> lastLogPush == now && !pushLogScheduled
      ensures old(queuedLogEntries) == [] ==> lastLogPush == old(lastLogPush) && pushLogScheduled == old(pushLogScheduled)
    {
      lastActivityPush := now;
      pushActScheduled := false;
      if queuedLogEntries != [] {
        queuedLogEntries := [];
        lastLogPush := now;
        pushLogScheduled := false;
      }
      r := Raise(Exception("TypeError", "queue() got an unexpected keyword argument 'loop'"));
    }

    /**
     * register_task_update(task_status=status, **update) at `now`: applies
     * the keyword arguments to the Activity and a given status to the task;
     * pushes at once when the status changed or more than
     * push_act_max_interval passed since the last activity push, and else
     * makes sure a delayed activity push is pending. In every case the new
     * Activity and status reach the Manager (ActivityCovered).
     */
    method RegisterTaskUpdate(status: Option<string>, update: ActivityUpdate, now: int)
      requires Valid()
      modifies this`queuedLogEntries, this`lastLogPush, this`lastActivityPush, this`pushLogScheduled, this`pushActScheduled, this`sent, this`lastTaskActivity, this`currentTaskStatus, tuqueue
      ensures Valid() && ActivityCovered()
      ensures old(LogsCovered()) ==> LogsCovered()
      ensures lastTaskActivity == ApplyUpdate(old(lastTaskActivity), update)
      ensures currentTaskStatus == if status.Some? then status else old(currentTaskStatus)
      ensures (status.Some? && status != old(currentTaskStatus)) || now - old(lastActivityPush) > pushActMaxInterval ==>
        PushedFrom(old(tuqueue.rows), old(queuedLogEntries), old(lastLogPush), old(pushLogScheduled), now)
      ensures !((status.Some? && status != old(currentTaskStatus)) || now - old(lastActivityPush) > pushActMaxInterval) ==>
        tuqueue.rows == old(tuqueue.rows) && sent == old(sent) && pushActScheduled &&
        (queuedLogEntries, lastLogPush, lastActivityPush, pushLogScheduled) ==
          (old(queuedLogEntries), old(lastLogPush), old(lastActivityPush), old(pushLogScheduled))
    {
      lastTaskActivity := ApplyUpdate(lastTaskActivity, update);
      var changed := false;
      if status.Some? {
        changed := currentTaskStatus != status;
        currentTaskStatus := status;
      }
      if changed {
        PushToManager(now);
      } else if now - lastActivityPush > pushActMaxInterval {
        PushToManager(now);
      } else if !pushActScheduled {
        pushActScheduled := true;
      }
    }

    /**
     * register_log(entry) at `now`, stamped with the ISO time `timestamp`:
     * queues "<timestamp>: <entry>"; pushes at once when more than
     * push_log_max_entries lines are queued or more than push_log_max_interval
     * passed since the last log push, and else makes sure a delayed log push
     * is pending. Queued lines always reach the Manager, and never more than
     * push_log_max_entries stay queued.
     */
    method RegisterLog(entry: string, timestamp: string, now: int)
      requires Valid()
      modifies this`queuedLogEntries, this`lastLogPush, this`lastActivityPush, this`pushLogScheduled, this`pushActScheduled, this`sent, tuqueue
      ensures Valid() && LogsCovered()
      ensures old(ActivityCovered()) ==> ActivityCovered()
      ensures old(|queuedLogEntries| <= pushLogMaxEntries) ==> |queuedLogEntries| <= pushLogMaxEntries
      ensures |old(queuedLogEntries)| + 1 > pushLogMaxEntries || now - old(lastLogPush) > pushLogMaxInterval ==>
        PushedFrom(old(tuqueue.rows), old(queuedLogEntries) + [timestamp + ": " + entry], old(lastLogPush),
                   old(pushLogScheduled), now)
      ensures !(|old(queuedLogEntries)| + 1 > pushLogMaxEntries || now - old(lastLogPush) > pushLogMaxInterval) ==>
        tuqueue.rows == old(tuqueue.rows) && sent == old(sent) && pushLogScheduled &&
        queuedLogEntries == old(queuedLogEntries) + [timestamp + ": " + entry] &&
        (lastLogPush, lastActivityPush, pushActScheduled) == (old(lastLogPush), old(lastActivityPush), old(pushActScheduled))
    {
      queuedLogEntries := queuedLogEntries + [timestamp + ": " + entry];
      if |queuedLogEntries| > pushLogMaxEntries {
        PushToManager(now);
      } else if now - lastLogPush > pushLogMaxInterval {
        PushToManager(now);
      } else if !pushLogScheduled {
        pushLogScheduled := true;
      }
    }

    /**
     * A delayed push firing, as written: after its delay it pushes even when
     * shutdown_future is done, although it logs that it does not.
     */
    method DelayedPushAsWritten(kind: PushKind, now: int)
      requires Valid()
      requires kind.ActivityPush? ==> pushActScheduled
      requires kind.LogPush? ==> pushLogScheduled
      modifies this`queuedLogEntries, this`lastLogPush, this`lastActivityPush, this`pushLogScheduled, this`pushActScheduled, this`sent, tuqueue
      ensures Valid()
      ensures PushedFrom(old(tuqueue.rows), old(queuedLogEntries), old(lastLogPush),
                         kind.ActivityPush? && old(pushLogScheduled), now)
    {
      if kind.LogPush? {
        pushLogScheduled := false;
      }
      PushToManager(now);
    }

    /**
     * A delayed push firing, with the return its log message announces:
     * once shutdown_future is done it ends without pushing.
     */
    method DelayedPush(kind: PushKind, now: int)
      requires Valid()
      requires kind.ActivityPush? ==> pushActScheduled
      requires kind.LogPush? ==> pushLogScheduled
      modifies this`queuedLogEntries, this`lastLogPush, this`lastActivityPush, this`pushLogScheduled, this`pushActScheduled, this`sent, tuqueue
      ensures Valid()
      ensures !old(shutdownDone) ==>
        PushedFrom(old(tuqueue.rows), old(queuedLogEntries), old(lastLogPush),
                   kind.ActivityPush? && old(pushLogScheduled), now)
      ensures old(shutdownDone) ==>
        tuqueue.rows == old(tuqueue.rows) && sent == old(sent) &&
        queuedLogEntries == old(queuedLogEntries) &&
        (kind.ActivityPush? ==> !pushActScheduled && pushLogScheduled == old(pushLogScheduled)) &&
        (kind.LogPush? ==> !pushLogScheduled && pushActScheduled == old(pushActScheduled))
    {
      if shutdownDone {
        if kind.LogPush? {
          pushLogScheduled := false;
        } else {
          pushActScheduled := false;
        }
        return;
      }
      if kind.LogPush? {
        pushLogScheduled := false;
      }
      PushToManager(now);
    }

    /** schedule_fetch_task(delay): schedules one more fetch_task, unless shutdown_future is done. */
    method ScheduleFetchTask(delay: nat)
      modifies this`scheduledFetches
      ensures scheduledFetches == old(scheduledFetches) + (if shutdownDone then [] else [delay])
    {
      if shutdownDone {
        return;
      }
      scheduledFetches := scheduledFetches + [delay];
    }

    /**
     * fetch_task() once its delay has passed, given the Manager's reply, how
     * the task runner's execution ends and, for a crash, the formatted
     * traceback. Without a task it schedules the next fetch (FetchRetryDelay);
     * a 200 reply without `_id` raises KeyError and schedules nothing; a task
     * is run by ExecuteTask.
     */
    method FetchTask(reply: FetchReply, outcome: RunOutcome, traceback: string, now: int) returns (r: Result<()>)
      requires Valid()
      modifies this`queuedLogEntries, this`lastLogPush, this`lastActivityPush, this`pushLogScheduled, this`pushActScheduled, this`sent, this`lastTaskActivity, this`currentTaskStatus, this`taskId, this`executing, this`stopRequested, this`scheduledFetches, tuqueue
      ensures Valid() && old(tuqueue.rows) <= tuqueue.rows
      ensures old(ActivityCovered()) ==> ActivityCovered()
      ensures old(LogsCovered()) ==> LogsCovered()
      ensures r.Raise? <==> reply.FetchResponse? && reply.status == 200 && reply.taskId.None?
      ensures r.Raise? ==> r.exc == MissingTaskId
      ensures FetchRetryDelay(reply).Some? || r.Raise? ==>
        tuqueue.rows == old(tuqueue.rows) && Task() == old(Task()) && Pushes() == old(Pushes()) &&
        executing == old(executing) &&
        scheduledFetches == old(scheduledFetches) +
          (if r.Raise? || shutdownDone then [] else [FetchRetryDelay(reply).value])
      ensures reply.FetchResponse? && reply.status == 200 && reply.taskId.Some? ==>
        taskId == reply.taskId && !executing
    {
      var delay := FetchRetryDelay(reply);
      if delay.Some? {
        ScheduleFetchTask(delay.value);
        return Ok(());
      }
      if reply.taskId.None? {
        return Raise(MissingTaskId);
      }
      ExecuteTask(reply.taskId.value, outcome, traceback, now);
      r := Ok(());
    }

    /**
     * The part of fetch_task() that runs a received task: it starts the
     * execution task (StartTask) and awaits its end (FinishTask).
     */
    method ExecuteTask(id: string, outcome: RunOutcome, traceback: string, now: int)
      requires Valid()
      modifies this`queuedLogEntries, this`lastLogPush, this`lastActivityPush, this`pushLogScheduled, this`pushActScheduled, this`sent, this`lastTaskActivity, this`currentTaskStatus, this`taskId, this`executing, this`stopRequested, this`scheduledFetches, tuqueue
      ensures Valid() && old(tuqueue.rows) <= tuqueue.rows
      ensures old(LogsCovered()) ==> LogsCovered()
      ensures ActivityCovered() && taskId == Some(id) && !executing
      ensures currentTaskStatus == Some(if FinalReport(outcome, failuresAreAcceptable).Some?
        then FinalReport(outcome, failuresAreAcceptable).value.status else "active")
      ensures FinalReport(outcome, failuresAreAcceptable).Some? ==> sent == (lastTaskActivity, currentTaskStatus)
      ensures outcome.Crashed? ==> queuedLogEntries == []
      ensures scheduledFetches == old(scheduledFetches) +
        (if failuresAreAcceptable || shutdownDone then [] else [FetchTaskDoneScheduleNewDelay])
    {
      StartTask(id, now);
      FinishTask(outcome, traceback, now);
    }

    /**
     * fetch_task() up to `await self.asyncio_execution_task`: the task id is
     * set, status active is registered and the execution task runs, so that
     * active_task_id() now answers the task id.
     */
    method StartTask(id: string, now: int)
      requires Valid()
      modifies this`queuedLogEntries, this`lastLogPush, this`lastActivityPush, this`pushLogScheduled, this`pushActScheduled, this`sent, this`lastTaskActivity, this`currentTaskStatus, this`taskId, this`executing, this`stopRequested, tuqueue
      ensures Valid() && old(tuqueue.rows) <= tuqueue.rows
      ensures old(LogsCovered()) ==> LogsCovered()
      ensures ActivityCovered() && taskId == Some(id) && currentTaskStatus == Some("active")
      ensures executing && !stopRequested && ActiveTaskId() == Some(id)
    {
      taskId := Some(id);
      RegisterTaskUpdate(Some("active"), ActivityOnly(None), now);
      // The execution task runs; the runner's own updates are not part of this model.
      executing, stopRequested := true, false;
    }

    /**
     * fetch_task() once the awaited execution task has ended with `outcome`:
     * a cancelled execution task ends in asyncio.CancelledError whatever the
     * runner would have returned, and that end is reported (ReportOutcome).
     * Afterwards no task is active.
     */
    method FinishTask(outcome: RunOutcome, traceback: string, now: int)
      requires Valid() && executing && currentTaskStatus == Some("active")
      modifies this`queuedLogEntries, this`lastLogPush, this`lastActivityPush, this`pushLogScheduled, this`pushActScheduled, this`sent, this`lastTaskActivity, this`currentTaskStatus, this`executing, this`stopRequested, this`scheduledFetches, tuqueue
      ensures Valid() && old(tuqueue.rows) <= tuqueue.rows
      ensures old(LogsCovered()) ==> LogsCovered()
      ensures old(ActivityCovered()) ==> ActivityCovered()
      ensures !executing && !stopRequested && ActiveTaskId().None?
      ensures var ended := if old(stopRequested) then Cancelled else outcome;
        currentTaskStatus == Some(if FinalReport(ended, failuresAreAcceptable).Some?
          then FinalReport(ended, failuresAreAcceptable).value.status else "active") &&
        (FinalReport(ended, failuresAreAcceptable).Some? ==> sent == (lastTaskActivity, currentTaskStatus)) &&
        (ended.Crashed? ==> queuedLogEntries == [])
      ensures old(stopRequested) ==> currentTaskStatus == Some(if failuresAreAcceptable then "active" else "canceled")
      ensures scheduledFetches == old(scheduledFetches) +
        (if failuresAreAcceptable || shutdownDone then [] else [FetchTaskDoneScheduleNewDelay])
    {
      var ended := if stopRequested then Cancelled else outcome;
      executing, stopRequested := false, false;
      ReportOutcome(ended, traceback, now);
    }

    /**
     * How fetch_task() ends a task run with status active: a final status
     * (FinalReport) is registered and so reaches the Manager at once, a
     * crash's traceback going with it; unless failures are acceptable the
     * next fetch is scheduled after 3 s.
     */
    method ReportOutcome(outcome: RunOutcome, traceback: string, now: int)
      requires Valid() && currentTaskStatus == Some("active")
      modifies this`queuedLogEntries, this`lastLogPush, this`lastActivityPush, this`pushLogScheduled, this`pushActScheduled, this`sent, this`lastTaskActivity, this`currentTaskStatus, this`scheduledFetches, tuqueue
      ensures Valid() && old(tuqueue.rows) <= tuqueue.rows
      ensures old(LogsCovered()) ==> LogsCovered()
      ensures old(ActivityCovered()) ==> ActivityCovered()
      ensures currentTaskStatus == Some(if FinalReport(outcome, failuresAreAcceptable).Some?
        then FinalReport(outcome, failuresAreAcceptable).value.status else "active")
      ensures FinalReport(outcome, failuresAreAcceptable).Some? ==> sent == (lastTaskActivity, currentTaskStatus)
      ensures outcome.Crashed? ==> queuedLogEntries == []
      ensures scheduledFetches == old(scheduledFetches) +
        (if failuresAreAcceptable || shutdownDone then [] else [FetchTaskDoneScheduleNewDelay])
    {
      var report := FinalReport(outcome, failuresAreAcceptable);
      if outcome.Crashed? {
        queuedLogEntries := queuedLogEntries + [traceback];
      }
      if report.Some? {
        RegisterTaskUpdate(Some(report.value.status), ActivityOnly(report.value.activity), now);
      }
      if !failuresAreAcceptable {
        ScheduleFetchTask(FetchTaskDoneScheduleNewDelay);
      }
    }

    /**
     * startup(): registers when the worker id or secret is empty, setting a
     * fresh secret, sending the detected platform and saving the id and
     * secret in the home configuration (`saved`); signs on otherwise. It
     * then sets manager.auth and schedules a fetch straight away. `r` is None
     * while a POST is still being retried; the attempts, platform.system()
     * and the random choices are inputs.
     */
    method Startup(picks: seq<nat>, system: string, attempts: seq<PostReply>, mayRetryLoop: bool,
                   home: Config.ConfigFile)
      returns (r: Option<Result<()>>, saved: Option<map<string, string>>)
      requires |picks| == 64 && forall i :: 0 <= i < |picks| ==> picks[i] < |SecretTokens()|
      modifies this`workerId, this`workerSecret, this`auth, this`scheduledFetches
      ensures old(workerId) == [] || old(workerSecret) == [] ==>
        workerSecret == GenerateSecret(picks) &&
        r == (if DetectPlatform(system).Raise? then Some(Raise(DetectPlatform(system).exc))
              else RegisterOutcome(PostResult(attempts, mayRetryLoop)))
      ensures old(workerId) == [] || old(workerSecret) == [] ==>
        if r == Some(Ok(())) then
          PostResult(attempts, mayRetryLoop) == Some(Ok(Some(workerId))) &&
          saved == Some(Config.Overlay(if home.Present? then home.contents else map[],
                                       [("worker_id", workerId), ("worker_secret", workerSecret)]))
        else workerId == old(workerId) && auth == old(auth) && saved.None?
      ensures old(workerId) != [] && old(workerSecret) != [] ==>
        workerId == old(workerId) && workerSecret == old(workerSecret) && saved.None? &&
        auth == Some((workerId, workerSecret)) && r == SignOnOutcome(PostResult(attempts, mayRetryLoop))
      ensures r == Some(Ok(())) ==>
        auth == Some((workerId, workerSecret)) &&
        scheduledFetches == old(scheduledFetches) + (if shutdownDone then [] else [0])
      ensures r != Some(Ok(())) ==> scheduledFetches == old(scheduledFetches)
    {
      saved := None;
      var register := workerId == [] || workerSecret == [];
      if register {
        workerSecret := GenerateSecret(picks);
        var platform := DetectPlatform(system);
        if platform.Raise? {
          return Some(Raise(platform.exc)), None;
        }
        var post, used, slept := KeepPosting(attempts, mayRetryLoop);
        r := RegisterOutcome(post);
        if r != Some(Ok(())) {
          return;
        }
        workerId := post.value.value.value;
        var written := Config.MergeWithHomeConfig([("worker_id", workerId), ("worker_secret", workerSecret)], home);
        saved := Some(written);
      }
      auth := Some((workerId, workerSecret));
      if !register {
        var post, used, slept := KeepPosting(attempts, mayRetryLoop);
        r := SignOnOutcome(post);
        if r != Some(Ok(())) {
          return;
        }
      }
      ScheduleFetchTask(0);
    }

    /**
     * shutdown() as written, with push_to_manager as corrected: failures
     * become acceptable, a pending push is made at once, and then the call
     * tuqueue.flush_for_shutdown() raises AttributeError, since the queue has
     * no such method. The final flush and the sign-off never happen, and
     * failures stay acceptable.
     */
    method ShutdownAsWritten(now: int) returns (r: Result<()>)
      requires Valid()
      modifies this`queuedLogEntries, this`lastLogPush, this`lastActivityPush, this`pushLogScheduled, this`pushActScheduled, this`sent, this`failuresAreAcceptable, tuqueue
      ensures Valid() && failuresAreAcceptable
      ensures r == Raise(Exception("AttributeError", "'TaskUpdateQueue' object has no attribute 'flush_for_shutdown'"))
      ensures old(pushActScheduled || pushLogScheduled) ==>
        PushedFrom(old(tuqueue.rows), old(queuedLogEntries), old(lastLogPush), old(pushLogScheduled), now)
      ensures !old(pushActScheduled || pushLogScheduled) ==> tuqueue.rows == old(tuqueue.rows)
    {
      failuresAreAcceptable := true;
      if pushActScheduled || pushLogScheduled {
        PushToManager(now);
      }
      r := Raise(Exception("AttributeError", "'TaskUpdateQueue' object has no attribute 'flush_for_shutdown'"));
    }

    /**
     * shutdown() with the final flush made by tuqueue.flush_and_report(),
     * the queue's "one last push" that only logs its errors: a pending push
     * is queued first, so that everything registered is flushed (ActivityCovered,
     * LogsCovered); afterwards failures are no longer acceptable. `posted`
     * is what the flush posted.
     */
    method Shutdown(now: int, manager: Manager) returns (posted: seq<Row>)
      requires Valid()
      modifies this`queuedLogEntries, this`lastLogPush, this`lastActivityPush, this`pushLogScheduled, this`pushActScheduled, this`sent, this`failuresAreAcceptable, tuqueue
      ensures Valid() && !failuresAreAcceptable
      ensures var queued := if old(pushActScheduled || pushLogScheduled)
        then Enqueue(old(tuqueue.rows), UpdateUrl(taskId), Payload(lastTaskActivity, currentTaskStatus, old(queuedLogEntries)))
        else old(tuqueue.rows);
        tuqueue.rows == FlushOutcome(queued, manager).1 && posted == FlushOutcome(queued, manager).2
      ensures old(ActivityCovered()) ==> sent == (lastTaskActivity, currentTaskStatus)
      ensures old(LogsCovered()) ==> queuedLogEntries == []
    {
      failuresAreAcceptable := true;
      if pushActScheduled || pushLogScheduled {
        PushToManager(now);
      }
      posted := tuqueue.FlushAndReport(manager);
      failuresAreAcceptable := false;
    }

    /**
     * stop_current_task(): cancels the execution task when one is running
     * (so that it ends in CancelledError, see FinishTask) and does nothing
     * otherwise; `cancelled` says which. The task runner's
     * abort_current_task() it awaits first is TaskRunner.AbortCurrentTask.
     */
    method StopCurrentTask() returns (cancelled: bool)
      modifies this`stopRequested
      ensures cancelled == old(executing)
      ensures stopRequested == (old(stopRequested) || old(executing))
    {
      cancelled := executing;
      if executing {
        stopRequested := true;
      }
    }
  }

  /** A worker that runs no task is never asked to stop or change status by may_i_run. */
  lemma IdleWorkerIsNotAsked(w: FlamencoWorker, json: Value)
    requires !w.executing
    ensures MayIRun.OneIteration(w.ActiveTaskId(), json) == Ok([])
  {
  }

  /**
   * A worker whose execution task runs, under a non-empty task id, is asked
   * by may_i_run: its status changes are applied, and stop_current_task
   * follows them exactly when the Manager says no. An error answer is raised.
   */
  lemma RunningWorkerIsAsked(w: FlamencoWorker, json: Value)
    requires w.executing && w.taskId.Some? && w.taskId.value != []
    ensures MayIRun.MayIRun(json).Raise? ==> MayIRun.OneIteration(w.ActiveTaskId(), json) == Raise(MayIRun.MayIRun(json).exc)
    ensures MayIRun.MayIRun(json).Ok? ==>
      MayIRun.OneIteration(w.ActiveTaskId(), json) ==
      Ok(MayIRun.MayIRun(json).value.1 + (if MayIRun.MayIRun(json).value.0 then [] else [MayIRun.StopCurrentTask]))
  {
    assert w.ActiveTaskId() == w.taskId;
    if MayIRun.MayIRun(json).Ok? && MayIRun.MayIRun(json).value.0 {
      assert MayIRun.MayIRun(json).value.1 + [] == MayIRun.MayIRun(json).value.1;
    }
  }
}
