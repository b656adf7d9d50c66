// may_i_run.py: while a task runs, the worker asks the Manager whether it may
// keep running it, and stops the task when the answer is no. The Manager's
// JSON reply is an input; what the worker is told to do comes out as effects.
module MayIRun {
  import opened Wrappers
  import opened Values
  import opened Documents

  /** A call one_iteration makes on the worker, in the order made. */
  datatype Effect = ChangeStatus(status: string) | StopCurrentTask

  /** The TypeError of `MayKeepRunningResponse(**json)` when the reply is not a JSON object. */
  function NotAMapping(json: Value): Exception
  {
    Exception("TypeError", "MayKeepRunningResponse() argument after ** must be a mapping, not " + TypeName(TypeOf(json)))
  }

  /**
   * may_i_run(task_id) as written: MayKeepRunningResponse has no
   * status_requested field, so a refusal ends in AttributeError when the
   * code reads it, and a reply carrying the field is refused by the
   * constructor with TypeError. Only a permission comes back as a value.
   */
  function MayIRunAsWritten(json: Value): (r: Result<(bool, seq<Effect>)>)
    ensures r.Ok? <==> json.DictV? && ParseMayKeepRunning(json.entries).Ok? && ParseMayKeepRunning(json.entries).value.mayKeepRunning
    ensures r.Ok? ==> r.value == (true, [])
  {
    if !json.DictV? then Raise(NotAMapping(json))
    else match ParseMayKeepRunning(json.entries)
      case Raise(e) => Raise(e)
      case Ok(resp) =>
        if !resp.mayKeepRunning then
          Raise(Exception("AttributeError", "'MayKeepRunningResponse' object has no attribute 'status_requested'"))
        else Ok((true, []))
  }

  /**
   * may_i_run(task_id) with the status_requested field read as an optional
   * str: returns exactly the may_keep_running flag; on a refusal with a
   * non-empty requested status, asks the worker to change to it first.
   */
  function MayIRun(json: Value): (r: Result<(bool, seq<Effect>)>)
    ensures r.Ok? <==> json.DictV? && ParseMayKeepRunningReply(json.entries).Ok?
    ensures r.Ok? ==> r.value.0 == ParseMayKeepRunningReply(json.entries).value.mayKeepRunning
    ensures r.Ok? ==> var reply := ParseMayKeepRunningReply(json.entries).value;
      r.value.1 == if !reply.mayKeepRunning && reply.statusRequested.Some? && reply.statusRequested.value != []
        then [ChangeStatus(reply.statusRequested.value)] else []
  {
    if !json.DictV? then Raise(NotAMapping(json))
    else match ParseMayKeepRunningReply(json.entries)
      case Raise(e) => Raise(e)
      case Ok(reply) =>
        var effects :=
          if !reply.mayKeepRunning && reply.statusRequested.Some? && reply.statusRequested.value != []
          then [ChangeStatus(reply.statusRequested.value)] else [];
        Ok((reply.mayKeepRunning, effects))
  }

  /** What one_iteration does with a task id and may_i_run's outcome. */
  function Iterate(activeTaskId: Option<string>, answer: Result<(bool, seq<Effect>)>): Result<seq<Effect>>
  {
    if activeTaskId.None? || activeTaskId.value == [] then Ok([])
    else match answer
      case Raise(e) => Raise(e)
      case Ok((mayRun, effects)) => if mayRun then Ok(effects) else Ok(effects + [StopCurrentTask])
  }

  /**
   * one_iteration() given the worker's active task id and the Manager's reply:
   * nothing happens without a task id (None or empty); otherwise the task is
   * stopped, after any status change, exactly when the answer is no.
   */
  function OneIteration(activeTaskId: Option<string>, json: Value): (r: Result<seq<Effect>>)
    ensures activeTaskId.None? || activeTaskId.value == [] ==> r == Ok([])
    ensures activeTaskId.Some? && activeTaskId.value != [] ==>
      (r.Ok? <==> MayIRun(json).Ok?) &&
      (r.Ok? ==> (StopCurrentTask in r.value <==> !MayIRun(json).value.0)) &&
      (r.Ok? ==> forall i :: 0 <= i < |r.value| && r.value[i].ChangeStatus? ==> !MayIRun(json).value.0)
  {
    Iterate(activeTaskId, MayIRun(json))
  }

  /** one_iteration() over may_i_run as written. */
  function OneIterationAsWritten(activeTaskId: Option<string>, json: Value): (r: Result<seq<Effect>>)
    ensures activeTaskId.None? || activeTaskId.value == [] ==> r == Ok([])
    ensures r.Ok? ==> StopCurrentTask !in r.value
  {
    Iterate(activeTaskId, MayIRunAsWritten(json))
  }

  /**
   * As written, a refusal never stops the task: for the reply
   * {"may_keep_running": false}, the corrected reading stops it, the code as
   * written raises AttributeError instead.
   */
  lemma RefusalStopsOnlyWhenCorrected(taskId: string)
    requires taskId != []
    ensures var json := DictV(map["may_keep_running" := BoolV(false)]);
      OneIteration(Some(taskId), json) == Ok([StopCurrentTask]) &&
      OneIterationAsWritten(Some(taskId), json).Raise? &&
      OneIterationAsWritten(Some(taskId), json).exc.kind == "AttributeError"
  {
    var json := map["may_keep_running" := BoolV(false)];
    assert json - {"status_requested"} == json;
    assert json.Keys <= {"may_keep_running", "reason"};
    assert ParseMayKeepRunning(json) == Ok(MayKeepRunningResponse(false, None));
    assert ParseMayKeepRunningReply(json) == Ok(MayKeepRunningReply(false, None, None));
    assert MayIRun(DictV(json)) == Ok((false, []));
    assert [] + [StopCurrentTask] == [StopCurrentTask];
  }
}
