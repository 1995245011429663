/** fireflower/utils.py: type predicates, the date conversions, the scheduler task counts
    and the JSON column type. The HTTP requests to the scheduler, `json` and `arrow.get`
    are inputs of the model. */
module Utils {
  import opened Common
  import opened Dates
  import Values

  /** A Python `float`. */
  datatype Float = Finite(r: real) | Infinity(negative: bool) | NaN

  /** The Python objects the helpers of this file are called on. `PNaT` is `pandas.NaT`,
      an instance of `datetime` that is not equal to itself; `PArrow` is an
      `arrow.Arrow`, given by its wall-clock date and time. */
  datatype PyObject =
    | PNone
    | PBool(b: bool)
    | PInt(i: int)
    | PFloat(f: Float)
    | PStr(s: string)
    | PDate(d: Date)
    | PDateTime(t: DateTime)
    | PNaT
    | PArrow(a: DateTime)
    | POther

  // ----- type predicates (utils.py:9-39) ------------------------------------------------

  /** A string takes none of the other branches of the conversions. */
  predicate IsString(o: PyObject)
    ensures IsString(o) ==> !IsNumeric(o) && !IsBoolean(o) && !IsDate(o) && !IsDateTime(o)
  {
    o.PStr?
  }

  /** A bool is neither a date nor a datetime; that it is not numeric either is stated by
      `IsNumeric`. */
  predicate IsBoolean(o: PyObject)
    ensures IsBoolean(o) ==> !IsDate(o) && !IsDateTime(o) && !o.PInt?
  {
    o.PBool?
  }

  /** `isinstance(obj, int) and not is_boolean(obj)`: `bool` is a subclass of `int`. */
  predicate IsInteger(o: PyObject)
    ensures IsInteger(o) <==> o.PInt?
    ensures IsBoolean(o) ==> !IsInteger(o)
  {
    (o.PInt? || o.PBool?) && !IsBoolean(o)
  }

  /** A float is never an integer, whatever its value (`1.0` included). */
  predicate IsFloat(o: PyObject)
    ensures IsFloat(o) ==> !IsInteger(o) && !IsBoolean(o)
  {
    o.PFloat?
  }

  /** An int or a float; a bool is not numeric, although `bool` is a subclass of `int`. */
  predicate IsNumeric(o: PyObject)
    ensures IsNumeric(o) <==> o.PInt? || o.PFloat?
    ensures IsBoolean(o) ==> !IsNumeric(o)
  {
    IsFloat(o) || IsInteger(o)
  }

  /** `obj == obj`, false only for NaN and NaT. */
  predicate SelfEqual(o: PyObject)
  {
    !(o.PNaT? || (o.PFloat? && o.f.NaN?))
  }

  /** `isinstance(obj, datetime) and obj == obj`: NaT is filtered out. */
  predicate IsDateTime(o: PyObject)
    ensures IsDateTime(o) <==> o.PDateTime?
  {
    (o.PDateTime? || o.PNaT?) && SelfEqual(o)
  }

  /** `isinstance(obj, date) and not isinstance(obj, datetime)`. */
  predicate IsDate(o: PyObject)
    ensures IsDate(o) <==> o.PDate?
    ensures IsDateTime(o) ==> !IsDate(o)
  {
    (o.PDate? || o.PDateTime? || o.PNaT?) && !(o.PDateTime? || o.PNaT?)
  }

  /** A number that is neither NaN nor infinite. */
  predicate IsFinite(o: PyObject)
    ensures IsFinite(o) <==> o.PInt? || (o.PFloat? && o.f.Finite?)
  {
    IsNumeric(o) && SelfEqual(o) && !(o.PFloat? && o.f.Infinity?)
  }

  // ----- to_date / to_datetime (utils.py:97-126) ----------------------------------------

  /** The exceptions the conversions swallow from `arrow.get`. */
  predicate Swallowed(e: Exc)
  {
    e.kind == "TypeError" || e.kind == "RuntimeError"
  }

  /** What both conversions do when no branch produced a value. */
  function Fallback(default: PyObject, raise_: bool, what: string): (r: Outcome<PyObject>)
    ensures raise_ <==> r.Raised?
    ensures r.Raised? ==> r.exc.kind == "TypeError"
    ensures r.Returned? ==> r.value == default
  {
    if raise_ then Raised(Exc("TypeError", "could not convert to " + what)) else Returned(default)
  }

  /** `to_date(obj, default, raise_)`; `arrowGet` is `arrow.get`. */
  function ToDate(obj: PyObject, default: PyObject, raise_: bool, arrowGet: PyObject -> Outcome<DateTime>)
    : (r: Outcome<PyObject>)
    ensures IsDateTime(obj) ==> r == Returned(PDate(obj.t.date))
    ensures obj.PArrow? ==> r == Returned(PDate(obj.a.date))
    ensures IsDate(obj) ==> r == Returned(obj)
    ensures (IsString(obj) || IsFinite(obj)) && arrowGet(obj).Returned?
            ==> r == Returned(PDate(arrowGet(obj).value.date))
    ensures r.Returned? ==> r.value.PDate? || (!raise_ && r.value == default)
    ensures r.Raised? ==> raise_ || (arrowGet(obj).Raised? && r.exc == arrowGet(obj).exc)
    ensures !(IsDateTime(obj) || obj.PArrow? || IsDate(obj) || IsString(obj) || IsFinite(obj))
            ==> r == Fallback(default, raise_, "date")
    ensures (IsString(obj) || IsFinite(obj)) && arrowGet(obj).Raised? ==>
      r == (if Swallowed(arrowGet(obj).exc) then Fallback(default, raise_, "date")
            else Raised(arrowGet(obj).exc))
  {
    if IsDateTime(obj) || obj.PArrow? then
      Returned(PDate(if obj.PArrow? then obj.a.date else obj.t.date))
    else if IsDate(obj) then
      Returned(obj)
    else if IsString(obj) || (IsNumeric(obj) && IsFinite(obj)) then
      match arrowGet(obj)
      case Returned(t) => Returned(PDate(t.date))
      case Raised(e) => if Swallowed(e) then Fallback(default, raise_, "date") else Raised(e)
    else
      Fallback(default, raise_, "date")
  }

  /** `to_datetime(obj, default, raise_)`; `arrowGet(obj)` gives `arrow.get(obj).naive`. */
  function ToDateTime(obj: PyObject, default: PyObject, raise_: bool, arrowGet: PyObject -> Outcome<DateTime>)
    : (r: Outcome<PyObject>)
    ensures IsDateTime(obj) ==> r == Returned(obj)
    ensures IsDate(obj) ==> r == Returned(PDateTime(Midnight(obj.d)))
    ensures obj.PArrow? ==> r == Returned(PDateTime(obj.a))
    ensures (IsString(obj) || IsFinite(obj)) && arrowGet(obj).Returned?
            ==> r == Returned(PDateTime(arrowGet(obj).value))
    ensures r.Returned? ==> r.value.PDateTime? || (!raise_ && r.value == default)
    ensures r.Raised? ==> raise_ || (arrowGet(obj).Raised? && r.exc == arrowGet(obj).exc)
    ensures !(IsDateTime(obj) || obj.PArrow? || IsDate(obj) || IsString(obj) || IsFinite(obj))
            ==> r == Fallback(default, raise_, "datetime")
    ensures (IsString(obj) || IsFinite(obj)) && arrowGet(obj).Raised? ==>
      r == (if Swallowed(arrowGet(obj).exc) then Fallback(default, raise_, "datetime")
            else Raised(arrowGet(obj).exc))
  {
    if IsDateTime(obj) then
      Returned(obj)
    else if IsDate(obj) then
      Returned(PDateTime(Midnight(obj.d)))
    else if IsString(obj) || (IsNumeric(obj) && IsFinite(obj)) then
      match arrowGet(obj)
      case Returned(t) => Returned(PDateTime(t))
      case Raised(e) => if Swallowed(e) then Fallback(default, raise_, "datetime") else Raised(e)
    else if obj.PArrow? then
      Returned(PDateTime(obj.a))
    else
      Fallback(default, raise_, "datetime")
  }

  /** Converting to a datetime and then to a date gives the same date as converting
      straight to a date, for every object either conversion accepts unaided. */
  lemma ToDateOfToDateTime(obj: PyObject, arrowGet: PyObject -> Outcome<DateTime>)
    requires IsDateTime(obj) || IsDate(obj) || obj.PArrow?
    ensures ToDateTime(obj, PNone, true, arrowGet).Returned?
    ensures ToDate(ToDateTime(obj, PNone, true, arrowGet).value, PNone, true, arrowGet)
            == ToDate(obj, PNone, true, arrowGet)
  {
  }

  // ----- task counts (utils.py:51-94) ----------------------------------------------------

  /** A reply of the scheduler's `/api/task_list`: its HTTP status and the task ids that
      are the keys of its `response` object. */
  datatype Response = Response(statusCode: int, taskIds: set<string>)

  /** `get_pending_task_count`, given the replies for the plain, UPSTREAM_DISABLED and
      UPSTREAM_FAILED pending filters. */
  function PendingTaskCount(plain: Response, disabled: Response, failed: Response): (r: Outcome<nat>)
    ensures r.Returned? <==> plain.statusCode == 200 && disabled.statusCode == 200 && failed.statusCode == 200
    ensures r.Raised? ==> r.exc.kind == "RuntimeError"
    ensures r.Returned? ==> r.value <= |plain.taskIds|
    ensures r.Returned? ==>
      r.value == |set t | t in plain.taskIds && t !in disabled.taskIds && t !in failed.taskIds|
  {
    if plain.statusCode != 200 || disabled.statusCode != 200 || failed.statusCode != 200 then
      Raised(Exc("RuntimeError", "Failed to retrive pending task_lists."))
    else
      var pending := plain.taskIds - disabled.taskIds - failed.taskIds;
      assert pending <= plain.taskIds;
      assert pending == set t | t in plain.taskIds && t !in disabled.taskIds && t !in failed.taskIds;
      SubsetCard(pending, plain.taskIds);
      Returned(|pending|)
  }

  lemma SubsetCard<T>(a: set<T>, b: set<T>)
    requires a <= b
    ensures |a| <= |b|
  {
    assert b == a + (b - a);
  }

  /** The scenario of tests/utils_tests.py: five pending tasks, one of them upstream-disabled
      and two upstream-failed, leave two. */
  lemma PendingCountScenario()
    ensures PendingTaskCount(
      Response(200, {"pending-task-1", "pending-task-2", "pending-upstream-disabled-task-1",
                     "pending-upstream-failed-task-1", "pending-upstream-failed-task-2"}),
      Response(200, {"pending-upstream-disabled-task-1"}),
      Response(200, {"pending-upstream-failed-task-1", "pending-upstream-failed-task-2"}))
      == Returned(2)
  {
    var p := {"pending-task-1", "pending-task-2", "pending-upstream-disabled-task-1",
              "pending-upstream-failed-task-1", "pending-upstream-failed-task-2"};
    var d := {"pending-upstream-disabled-task-1"};
    var f := {"pending-upstream-failed-task-1", "pending-upstream-failed-task-2"};
    assert p - d - f == {"pending-task-1", "pending-task-2"};
    assert "pending-task-1" != "pending-task-2";
  }

  /** `get_running_task_count` as written: on a failed reply the error message refers to an
      undefined name, so the call raises NameError instead of the intended RuntimeError. */
  function RunningTaskCountAsWritten(reply: Response): (r: Outcome<nat>)
    ensures r.Returned? <==> reply.statusCode == 200
    ensures r.Raised? ==> r.exc.kind == "NameError"
  {
    if reply.statusCode != 200 then Raised(Exc("NameError", "name 'status_code' is not defined"))
    else Returned(|reply.taskIds|)
  }

  /** `get_running_task_count` as intended: the number of running tasks, or a RuntimeError
      when the scheduler did not answer 200. */
  function RunningTaskCount(reply: Response): (r: Outcome<nat>)
    ensures r.Returned? <==> reply.statusCode == 200
    ensures r.Returned? ==> r.value == |reply.taskIds|
    ensures r.Raised? ==> r.exc.kind == "RuntimeError"
  {
    if reply.statusCode != 200 then Raised(Exc("RuntimeError", "Failed to retrive running task_lists."))
    else Returned(|reply.taskIds|)
  }

  /** The two agree on every successful reply and differ on the kind of every failure. */
  lemma RunningTaskCountDiscrepancy(reply: Response)
    ensures reply.statusCode == 200 ==> RunningTaskCountAsWritten(reply) == RunningTaskCount(reply)
    ensures reply.statusCode != 200 ==>
      RunningTaskCountAsWritten(reply).exc.kind != RunningTaskCount(reply).exc.kind
  {
  }

  // ----- JSONEncoded (utils.py:129-145) --------------------------------------------------

  /** `process_bind_param`: `None` stays SQL NULL, anything else is stored as `json.dumps`. */
  function ProcessBindParam(dumps: Values.Value -> string, v: Values.Value): (r: Option<string>)
    ensures r.None? <==> v.Null?
    ensures r.Some? ==> r.value == dumps(v)
  {
    if v.Null? then None else Some(dumps(v))
  }

  /** `process_result_value`: SQL NULL reads as `None`, anything else through `json.loads`. */
  function ProcessResultValue(loads: string -> Values.Value, s: Option<string>): (r: Values.Value)
    ensures s.None? ==> r.Null?
    ensures s.Some? ==> r == loads(s.value)
  {
    if s.None? then Values.Null else loads(s.value)
  }

  /** A column value reads back as it was written, given that `json.loads` inverts
      `json.dumps` on it; `None` needs no such assumption. */
  lemma JSONEncodedRoundTrip(dumps: Values.Value -> string, loads: string -> Values.Value, v: Values.Value)
    requires !v.Null? ==> loads(dumps(v)) == v
    ensures ProcessResultValue(loads, ProcessBindParam(dumps, v)) == v
  {
  }
}
