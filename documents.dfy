// The JSON documents exchanged with Flamenco Manager: the Activity record a task
// update carries and the reply of the may-i-run endpoint.
module Documents {
  import opened Wrappers
  import opened Values

  /** What the worker is doing on its task; every field has a default. */
  datatype Activity = Activity(
    activity: string,
    currentCommandIdx: int,
    taskProgressPercentage: int,
    commandProgressPercentage: int)

  const ActivityFields: set<string> :=
    {"activity", "current_command_idx", "task_progress_percentage", "command_progress_percentage"}

  function TypeError(message: string): Exception { Exception("TypeError", message) }

  /** The value of an optional keyword argument, or its default. */
  function Arg(kwargs: map<string, Value>, key: string, default: Value): Value
  {
    if key in kwargs then kwargs[key] else default
  }

  /** With only Activity fields given, every non-activity argument is an int exactly when each of the three is. */
  lemma IntArgs(kwargs: map<string, Value>)
    requires kwargs.Keys <= ActivityFields
    ensures (forall k :: k in kwargs && k != "activity" ==> IsInstance(kwargs[k], IntType)) <==>
      (IsInstance(Arg(kwargs, "current_command_idx", IntV(0)), IntType) &&
       IsInstance(Arg(kwargs, "task_progress_percentage", IntV(0)), IntType) &&
       IsInstance(Arg(kwargs, "command_progress_percentage", IntV(0)), IntType))
  {
    if IsInstance(Arg(kwargs, "current_command_idx", IntV(0)), IntType) &&
       IsInstance(Arg(kwargs, "task_progress_percentage", IntV(0)), IntType) &&
       IsInstance(Arg(kwargs, "command_progress_percentage", IntV(0)), IntType) {
      forall k | k in kwargs && k != "activity" ensures IsInstance(kwargs[k], IntType) {
        assert k in ActivityFields;
      }
    }
  }

  /**
   * Activity(**kwargs): unknown keywords and values that fail the attribute's
   * instance_of validator raise TypeError; omitted fields take their defaults.
   */
  function MakeActivity(kwargs: map<string, Value>): (r: Result<Activity>)
    ensures r.Ok? <==>
      kwargs.Keys <= ActivityFields &&
      ("activity" in kwargs ==> kwargs["activity"].StrV?) &&
      (forall k :: k in kwargs && k != "activity" ==> IsInstance(kwargs[k], IntType))
    ensures kwargs == map[] ==> r == Ok(Activity("", 0, 0, 0))
    ensures r.Ok? ==>
      r.value.activity == (if "activity" in kwargs then kwargs["activity"].s else "") &&
      r.value.currentCommandIdx == AsInt(Arg(kwargs, "current_command_idx", IntV(0))) &&
      r.value.taskProgressPercentage == AsInt(Arg(kwargs, "task_progress_percentage", IntV(0))) &&
      r.value.commandProgressPercentage == AsInt(Arg(kwargs, "command_progress_percentage", IntV(0)))
  {
    var unknown := kwargs.Keys - ActivityFields;
    if unknown != {} then
      Raise(TypeError("__init__() got an unexpected keyword argument"))
    else
      var a := Arg(kwargs, "activity", StrV(""));
      var c := Arg(kwargs, "current_command_idx", IntV(0));
      var t := Arg(kwargs, "task_progress_percentage", IntV(0));
      var p := Arg(kwargs, "command_progress_percentage", IntV(0));
      IntArgs(kwargs);
      if !a.StrV? then Raise(TypeError("'activity' must be <class 'str'>"))
      else if !IsInstance(c, IntType) then Raise(TypeError("'current_command_idx' must be <class 'int'>"))
      else if !IsInstance(t, IntType) then Raise(TypeError("'task_progress_percentage' must be <class 'int'>"))
      else if !IsInstance(p, IntType) then Raise(TypeError("'command_progress_percentage' must be <class 'int'>"))
      else Ok(Activity(a.s, AsInt(c), AsInt(t), AsInt(p)))
  }

  /** attr.asdict(activity). */
  function ActivityDict(a: Activity): map<string, Value>
  {
    map["activity" := StrV(a.activity),
        "current_command_idx" := IntV(a.currentCommandIdx),
        "task_progress_percentage" := IntV(a.taskProgressPercentage),
        "command_progress_percentage" := IntV(a.commandProgressPercentage)]
  }

  /** attr.asdict(a) has exactly the Activity fields, and Activity(**attr.asdict(a)) rebuilds `a`. */
  lemma ActivityDictRoundTrip(a: Activity)
    ensures ActivityDict(a).Keys == ActivityFields
    ensures MakeActivity(ActivityDict(a)) == Ok(a)
  {
  }

  /** The keyword arguments of one register_task_update call; None means "not given". */
  datatype ActivityUpdate = ActivityUpdate(
    activity: Option<string>,
    currentCommandIdx: Option<int>,
    taskProgressPercentage: Option<int>,
    commandProgressPercentage: Option<int>)

  function Pick<T>(given: Option<T>, current: T): T
  {
    if given.Some? then given.value else current
  }

  /** setattr(activity, key, value) for every given keyword. */
  function ApplyUpdate(a: Activity, u: ActivityUpdate): (r: Activity)
    ensures u.activity.Some? ==> r.activity == u.activity.value
    ensures u.activity.None? ==> r.activity == a.activity
    ensures u.currentCommandIdx.Some? ==> r.currentCommandIdx == u.currentCommandIdx.value
    ensures u.currentCommandIdx.None? ==> r.currentCommandIdx == a.currentCommandIdx
    ensures u.taskProgressPercentage.Some? ==> r.taskProgressPercentage == u.taskProgressPercentage.value
    ensures u.taskProgressPercentage.None? ==> r.taskProgressPercentage == a.taskProgressPercentage
    ensures u.commandProgressPercentage.Some? ==> r.commandProgressPercentage == u.commandProgressPercentage.value
    ensures u.commandProgressPercentage.None? ==> r.commandProgressPercentage == a.commandProgressPercentage
  {
    Activity(
      Pick(u.activity, a.activity),
      Pick(u.currentCommandIdx, a.currentCommandIdx),
      Pick(u.taskProgressPercentage, a.taskProgressPercentage),
      Pick(u.commandProgressPercentage, a.commandProgressPercentage))
  }

  /** The reply of /may-i-run/<task-id>, with the fields documents.py declares. */
  datatype MayKeepRunningResponse = MayKeepRunningResponse(mayKeepRunning: bool, reason: Option<string>)

  /**
   * MayKeepRunningResponse(**json): may_keep_running is required and must be a bool;
   * reason is optional, None by default, and a str when given; any other key raises TypeError.
   */
  function ParseMayKeepRunning(json: map<string, Value>): (r: Result<MayKeepRunningResponse>)
    ensures r.Ok? <==>
      json.Keys <= {"may_keep_running", "reason"} &&
      "may_keep_running" in json && json["may_keep_running"].BoolV? &&
      ("reason" in json ==> json["reason"].NoneV? || json["reason"].StrV?)
    ensures r.Ok? ==> r.value.mayKeepRunning == json["may_keep_running"].b
    ensures r.Ok? ==> (r.value.reason.Some? <==> "reason" in json && json["reason"].StrV?)
    ensures r.Ok? && r.value.reason.Some? ==> r.value.reason.value == json["reason"].s
  {
    if !(json.Keys <= {"may_keep_running", "reason"}) then
      Raise(TypeError("__init__() got an unexpected keyword argument"))
    else if "may_keep_running" !in json then
      Raise(TypeError("__init__() missing 1 required positional argument: 'may_keep_running'"))
    else if !json["may_keep_running"].BoolV? then
      Raise(TypeError("'may_keep_running' must be <class 'bool'>"))
    else
      var reason := Arg(json, "reason", NoneV);
      if reason.NoneV? then Ok(MayKeepRunningResponse(json["may_keep_running"].b, None))
      else if reason.StrV? then Ok(MayKeepRunningResponse(json["may_keep_running"].b, Some(reason.s)))
      else Raise(TypeError("'reason' must be <class 'str'>"))
  }

  /** The reply as may_i_run.py uses it: with an optional status_requested field. */
  datatype MayKeepRunningReply = MayKeepRunningReply(
    mayKeepRunning: bool, reason: Option<string>, statusRequested: Option<string>)

  /** Taking status_requested out of a reply leaves the other keys and their values. */
  lemma WithoutStatusRequested(json: map<string, Value>, rest: map<string, Value>)
    requires rest == json - {"status_requested"}
    ensures rest.Keys <= {"may_keep_running", "reason"} <==> json.Keys <= {"may_keep_running", "reason", "status_requested"}
    ensures ("may_keep_running" in rest <==> "may_keep_running" in json) && ("reason" in rest <==> "reason" in json)
    ensures "may_keep_running" in rest ==> rest["may_keep_running"] == json["may_keep_running"]
    ensures "reason" in rest ==> rest["reason"] == json["reason"]
  {
    if json.Keys <= {"may_keep_running", "reason", "status_requested"} {
      forall k | k in rest ensures k in {"may_keep_running", "reason"} {
        assert k in json && k != "status_requested";
      }
    }
  }

  /** ParseMayKeepRunning with an optional str field status_requested added. */
  function ParseMayKeepRunningReply(json: map<string, Value>): (r: Result<MayKeepRunningReply>)
    ensures r.Ok? <==>
      json.Keys <= {"may_keep_running", "reason", "status_requested"} &&
      "may_keep_running" in json && json["may_keep_running"].BoolV? &&
      ("reason" in json ==> json["reason"].NoneV? || json["reason"].StrV?) &&
      ("status_requested" in json ==> json["status_requested"].NoneV? || json["status_requested"].StrV?)
    ensures r.Ok? ==> r.value.mayKeepRunning == json["may_keep_running"].b
    ensures r.Ok? ==> (r.value.statusRequested.Some? <==> "status_requested" in json && json["status_requested"].StrV?)
    ensures r.Ok? && r.value.statusRequested.Some? ==> r.value.statusRequested.value == json["status_requested"].s
  {
    var status := Arg(json, "status_requested", NoneV);
    var rest := json - {"status_requested"};
    WithoutStatusRequested(json, rest);
    var base := ParseMayKeepRunning(rest);
    if base.Raise? then Raise(base.exc)
    else if status.NoneV? then Ok(MayKeepRunningReply(base.value.mayKeepRunning, base.value.reason, None))
    else if status.StrV? then Ok(MayKeepRunningReply(base.value.mayKeepRunning, base.value.reason, Some(status.s)))
    else Raise(TypeError("'status_requested' must be <class 'str'>"))
  }

  /** Without status_requested in the reply, the two readings agree. */
  lemma ReplyExtendsResponse(json: map<string, Value>)
    requires "status_requested" !in json
    ensures ParseMayKeepRunning(json).Ok? <==> ParseMayKeepRunningReply(json).Ok?
    ensures ParseMayKeepRunning(json).Ok? ==>
      ParseMayKeepRunningReply(json).value.mayKeepRunning == ParseMayKeepRunning(json).value.mayKeepRunning &&
      ParseMayKeepRunningReply(json).value.reason == ParseMayKeepRunning(json).value.reason &&
      ParseMayKeepRunningReply(json).value.statusRequested.None?
  {
    assert json - {"status_requested"} == json;
  }
}
