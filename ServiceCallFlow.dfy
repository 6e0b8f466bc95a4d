/** How ServiceCall turns the raw outcome of its background task into
    callbacks (ServiceCall's FutureTask.done(), onServiceCallFailed and
    onServiceCallCanceled), as values. The worker thread and the UI-thread
    Handler are not modelled: the outcome of the task is a parameter, and the
    callbacks are listed in the order they are issued. */
module ServiceCallFlow {
  import opened Lang
  import SCR = ServiceCallResult

  /** The contents of a ServiceCallResult at the moment it is handed on. */
  datatype ResultValue = ResultValue(exception: Option<JavaException>, returnInfo: Option<SCR.ReturnInfo>)

  /** new ServiceCallResult(). */
  const EmptyValue: ResultValue := ResultValue(None, None)

  /** ServiceCallResult.setCanceled on a result with these contents. */
  function CanceledValue(r: ResultValue): (c: ResultValue)
    ensures c.exception == r.exception && c.returnInfo == Some(SCR.CanceledInfo)
    ensures IsCanceledValue(c)
  {
    r.(returnInfo := Some(SCR.ReturnInfo(SCR.CANCELED, Some(SCR.MSG_CANCELED))))
  }

  /** ServiceCallResult.isCanceled. */
  predicate IsCanceledValue(r: ResultValue)
  {
    r.returnInfo.Some? && r.returnInfo.value.returnCode == SCR.CANCELED
  }

  /** ServiceCallResult.setResult(Exception): the earlier contents are overwritten. */
  function ExceptionValue(e: JavaException): (r: ResultValue)
    ensures r.exception == Some(e) && r.returnInfo.Some? && r.returnInfo.value.returnCode == SCR.FAILURE
    ensures !IsCanceledValue(r)
  {
    ResultValue(Some(e), Some(SCR.ReturnInfo(SCR.FAILURE, Some(e.text))))
  }

  /** ServiceCallResult.setResult(Throwable): the throwable wrapped in an Exception. */
  function ThrowableValue(t: JavaException): (r: ResultValue)
    ensures r == ExceptionValue(WrapThrowable(t))
  {
    ResultValue(Some(WrapThrowable(t)), Some(SCR.ReturnInfo(SCR.FAILURE, Some(WrapThrowable(t).text))))
  }

  /** The contents of a ServiceCallResult object. done() changes m_result
      only through the object's own setters before handing it on, so the
      flow below works on these contents; the members that follow show that
      each value update is what the corresponding setter does to them. */
  function ValueOf(o: SCR.ServiceCallResult): ResultValue
    reads o
  {
    ResultValue(o.exception, o.returnInfo)
  }

  lemma IsCanceledMatches(o: SCR.ServiceCallResult)
    ensures IsCanceledValue(ValueOf(o)) <==> o.IsCanceled()
  {
  }

  method SetCanceledMatches(o: SCR.ServiceCallResult)
    modifies o
    ensures ValueOf(o) == CanceledValue(old(ValueOf(o)))
  {
    o.SetCanceled();
  }

  method SetExceptionMatches(o: SCR.ServiceCallResult, e: JavaException)
    modifies o
    ensures ValueOf(o) == ExceptionValue(e)
  {
    o.SetException(e);
  }

  method SetThrowableMatches(o: SCR.ServiceCallResult, t: JavaException)
    modifies o
    ensures ValueOf(o) == ThrowableValue(t)
  {
    o.SetThrowable(t);
  }

  /** `result.exception instanceof NotConnectedToNetworkException`. */
  predicate NotConnected(r: ResultValue)
  {
    r.exception.Some? && r.exception.value.kind == NotConnectedToNetwork
  }

  /** What FutureTask.get() does inside done(): return what doInBackground
      returned (possibly null), or throw. */
  datatype Outcome =
    | Returned(value: Option<ResultValue>)
    | Cancelled                         // CancellationException
    | GetInterrupted(text: string)      // InterruptedException, with its toString()
    | TaskThrew(cause: JavaException)   // ExecutionException wrapping what doInBackground threw
    | GetThrew(t: JavaException)        // any other Throwable

  /** ServiceCallResultMapper.map: a new result, or a Throwable. */
  datatype MapOutcome = Mapped(value: ResultValue) | MapThrew(t: JavaException)

  type Mapper = ResultValue -> MapOutcome

  /** How done() ends: it throws (NullPointerException) before anything is
      delivered, or it hands a result to onServiceCallFailed,
      onServiceCallCanceled or the success path. */
  datatype Completion = Aborted | Failed(result: ResultValue) | Canceled(result: ResultValue) | Succeeded(result: ResultValue)

  /** The success path of done(): the mapper may replace the result, and a
      mapper that throws turns it into a failure. */
  function MapResult(r: ResultValue, mapper: Option<Mapper>): (c: Completion)
    ensures mapper.None? ==> c == Succeeded(r)
    ensures mapper.Some? && mapper.value(r).Mapped? ==> c == Succeeded(mapper.value(r).value)
    ensures mapper.Some? && mapper.value(r).MapThrew? ==> c == Failed(ThrowableValue(mapper.value(r).t))
  {
    if mapper.None? then Succeeded(r)
    else match mapper.value(r)
      case Mapped(v) => Succeeded(v)
      case MapThrew(t) => Failed(ThrowableValue(t))
  }

  /** done() as written. m_result is set to null before get(), so every catch
      branch dereferences null: a cancelled, interrupted or failed task, and a
      doInBackground that returned null (whose NullPointerException lands in
      the Throwable branch), all end with done() throwing. */
  function DoneAsWritten(outcome: Outcome, mapper: Option<Mapper>): (c: Completion)
    ensures !c.Aborted? <==> outcome.Returned? && outcome.value.Some?
    ensures outcome.Returned? && outcome.value.Some? && outcome.value.value.exception.Some? ==>
      c == Failed(outcome.value.value)
    ensures outcome.Returned? && outcome.value.Some? && outcome.value.value.exception.None? ==>
      c == MapResult(outcome.value.value, mapper)
    ensures !c.Canceled?
  {
    match outcome
    case Returned(v) =>
      if v.None? then Aborted
      else if v.value.exception.Some? then Failed(v.value)
      else MapResult(v.value, mapper)
    case _ => Aborted
  }

  /** done() as evidently intended: the catch branches work on a fresh
      result instead of null, storing the exception get() threw, so a
      failure of doInBackground is stored as its ExecutionException wrapper,
      never a NotConnectedToNetworkException. A doInBackground that returned null still
      aborts, since get() itself stores the null. */
  function DoneIntended(outcome: Outcome, mapper: Option<Mapper>): (c: Completion)
    ensures outcome == Cancelled ==> c == Canceled(CanceledValue(EmptyValue))
    ensures outcome.GetInterrupted? ==> c == Failed(ExceptionValue(JavaException(Interrupted, outcome.text)))
    ensures outcome.TaskThrew? ==> c == Failed(ExceptionValue(ExecutionWrapper(outcome.cause)))
    ensures !outcome.Returned? ==> !c.Aborted? && !NotConnected(c.result)
    ensures outcome.GetThrew? ==> c == Failed(ThrowableValue(outcome.t))
    ensures outcome.Returned? ==> c == DoneAsWritten(outcome, mapper)
  {
    match outcome
    case Returned(_) => DoneAsWritten(outcome, mapper)
    case Cancelled => Canceled(CanceledValue(EmptyValue))
    case GetInterrupted(text) => Failed(ExceptionValue(JavaException(Interrupted, text)))
    case TaskThrew(cause) => Failed(ExceptionValue(ExecutionWrapper(cause)))
    case GetThrew(t) => Failed(ThrowableValue(t))
  }

  /** The call cancelled (a straggler when it starts, or cancel()) gets no
      callback at all as written. */
  lemma CancelledIsNeverDelivered(mapper: Option<Mapper>)
    ensures DoneAsWritten(Cancelled, mapper) == Aborted
    ensures DoneIntended(Cancelled, mapper).Canceled?
    ensures IsCanceledValue(DoneIntended(Cancelled, mapper).result)
  {
  }

  /** Where the two agree: every task that returned a result. */
  lemma IntendedDiffersOnlyOnThrownOutcomes(outcome: Outcome, mapper: Option<Mapper>)
    ensures DoneIntended(outcome, mapper) != DoneAsWritten(outcome, mapper) <==> !outcome.Returned?
    ensures !outcome.Returned? ==> DoneAsWritten(outcome, mapper) == Aborted && !DoneIntended(outcome, mapper).Aborted?
  {
  }

  /** The classification, for either version: a result with an exception or
      a failing mapper is a failure, anything else a success, and only a
      cancellation is a cancellation. */
  lemma DoneClassification(outcome: Outcome, mapper: Option<Mapper>)
    ensures var c := DoneIntended(outcome, mapper);
      && (c.Failed? <==>
            (outcome.Returned? && outcome.value.Some? &&
               (outcome.value.value.exception.Some? ||
                (mapper.Some? && mapper.value(outcome.value.value).MapThrew?)))
            || outcome.GetInterrupted? || outcome.TaskThrew? || outcome.GetThrew?)
      && (c.Canceled? <==> outcome == Cancelled)
      && (c.Succeeded? <==>
            outcome.Returned? && outcome.value.Some? && outcome.value.value.exception.None?
            && (mapper.None? || mapper.value(outcome.value.value).Mapped?))
      && (c.Failed? ==> c.result.exception.Some?)
  {
  }

  /** What the service call does once done() has a result, in order. */
  datatype Step =
    | OnDone(result: ResultValue)
    | RemoveActive
    | PostExecute(posted: Option<ResultValue>)  // onPostExecute(m_result); None is null
    | ClientFinished(result: ResultValue)
    | ClientFailed(result: ResultValue)
    | ClientCanceled(result: ResultValue)
    | ShowNoConnectivity
    | ExecEnd

  predicate IsClientCallback(s: Step)
  {
    s.ClientFinished? || s.ClientFailed? || s.ClientCanceled?
  }

  function ExecEndIf(hasCmd: bool): seq<Step>
  {
    if hasCmd then [ExecEnd] else []
  }

  /** onServiceCallFailed after removeActive: with a client, a straggler is
      told "canceled" (its result marked canceled first), the others "failed"
      plus the connectivity message when the exception says so; without a
      client only the message and the command's end remain. */
  function FailedSteps(r: ResultValue, hasClient: bool, hasCmd: bool, stale: bool): seq<Step>
  {
    var message := if NotConnected(r) then [ShowNoConnectivity] else [];
    if hasClient then
      (if stale then [ClientCanceled(CanceledValue(r))] else [ClientFailed(r)] + message) + ExecEndIf(hasCmd)
    else message + ExecEndIf(hasCmd)
  }

  /** onServiceCallCanceled after removeActive. */
  function CanceledSteps(r: ResultValue, hasClient: bool, hasCmd: bool): seq<Step>
  {
    (if hasClient then [ClientCanceled(r)] else []) + ExecEndIf(hasCmd)
  }

  /** The success path of done() after removeActive: a straggler skips
      onPostExecute and is told "canceled". */
  function FinishedSteps(r: ResultValue, hasClient: bool, hasCmd: bool, stale: bool): seq<Step>
  {
    if hasClient then
      (if stale then [ClientCanceled(CanceledValue(r))] else [PostExecute(Some(r)), ClientFinished(r)]) + ExecEndIf(hasCmd)
    else ExecEndIf(hasCmd)
  }

  /** Everything done() sets off: onDone, removeActive, then the posted
      callbacks. `stale` is isStraggler() when the posted callback runs. */
  function Steps(c: Completion, hasClient: bool, hasCmd: bool, stale: bool): (s: seq<Step>)
    ensures c.Aborted? <==> s == []
    ensures !c.Aborted? ==> |s| >= 2 && s[0] == OnDone(c.result) && s[1] == RemoveActive
  {
    match c
    case Aborted => []
    case Failed(r) => [OnDone(r), RemoveActive] + FailedSteps(r, hasClient, hasCmd, stale)
    case Canceled(r) => [OnDone(r), RemoveActive] + CanceledSteps(r, hasClient, hasCmd)
    case Succeeded(r) => [OnDone(r), RemoveActive] + FinishedSteps(r, hasClient, hasCmd, stale)
  }

  /** The number of steps satisfying p. */
  function Count(s: seq<Step>, p: Step -> bool): nat
  {
    if |s| == 0 then 0 else (if p(s[0]) then 1 else 0) + Count(s[1..], p)
  }

  lemma {:induction false} CountAppend(a: seq<Step>, b: seq<Step>, p: Step -> bool)
    ensures Count(a + b, p) == Count(a, p) + Count(b, p)
  {
    if |a| > 0 {
      assert (a + b)[1..] == a[1..] + b;
      CountAppend(a[1..], b, p);
    } else {
      assert a + b == b;
    }
  }

  /** The steps after removeActive, whichever path. */
  function Posted(c: Completion, hasClient: bool, hasCmd: bool, stale: bool): seq<Step>
    requires !c.Aborted?
  {
    match c
    case Failed(r) => FailedSteps(r, hasClient, hasCmd, stale)
    case Canceled(r) => CanceledSteps(r, hasClient, hasCmd)
    case Succeeded(r) => FinishedSteps(r, hasClient, hasCmd, stale)
  }

  lemma PostedShape(c: Completion, hasClient: bool, hasCmd: bool, stale: bool)
    requires !c.Aborted?
    ensures Steps(c, hasClient, hasCmd, stale) == [OnDone(c.result), RemoveActive] + Posted(c, hasClient, hasCmd, stale)
    ensures RemoveActive !in Posted(c, hasClient, hasCmd, stale)
    ensures forall i :: 0 <= i < |Posted(c, hasClient, hasCmd, stale)| ==> !Posted(c, hasClient, hasCmd, stale)[i].OnDone?
  {
  }

  predicate IsRemoveActive(s: Step)
  {
    s == RemoveActive
  }

  predicate IsOnDone(s: Step)
  {
    s.OnDone?
  }

  /** The posted callbacks hold one client callback exactly when there is a
      client, and neither removeActive nor onDone. */
  lemma PostedCounts(c: Completion, hasClient: bool, hasCmd: bool, stale: bool)
    requires !c.Aborted?
    ensures Count(Posted(c, hasClient, hasCmd, stale), IsClientCallback) == (if hasClient then 1 else 0)
    ensures Count(Posted(c, hasClient, hasCmd, stale), IsRemoveActive) == 0
    ensures Count(Posted(c, hasClient, hasCmd, stale), IsOnDone) == 0
  {
    var posted := Posted(c, hasClient, hasCmd, stale);
    var message := if NotConnected(c.result) then [ShowNoConnectivity] else [];
    var first := match c
      case Failed(r) => (if hasClient then (if stale then [ClientCanceled(CanceledValue(r))] else [ClientFailed(r)] + message) else message)
      case Canceled(r) => (if hasClient then [ClientCanceled(r)] else [])
      case Succeeded(r) => (if hasClient then (if stale then [ClientCanceled(CanceledValue(r))] else [PostExecute(Some(r)), ClientFinished(r)]) else []);
    assert posted == first + ExecEndIf(hasCmd);
    CountAppend(first, ExecEndIf(hasCmd), IsClientCallback);
    CountAppend(first, ExecEndIf(hasCmd), IsRemoveActive);
    CountAppend(first, ExecEndIf(hasCmd), IsOnDone);
    if c.Failed? && hasClient && !stale {
      assert first == [ClientFailed(c.result)] + message;
      CountAppend([ClientFailed(c.result)], message, IsClientCallback);
      CountAppend([ClientFailed(c.result)], message, IsRemoveActive);
      CountAppend([ClientFailed(c.result)], message, IsOnDone);
    }
  }

  /** Every delivered completion calls onDone and removeActive exactly once,
      and first; a client hears exactly one of finished/failed/canceled. */
  lemma OneCallbackPerCompletion(c: Completion, hasClient: bool, hasCmd: bool, stale: bool)
    requires !c.Aborted?
    ensures Count(Steps(c, hasClient, hasCmd, stale), IsClientCallback) == (if hasClient then 1 else 0)
    ensures Count(Steps(c, hasClient, hasCmd, stale), IsRemoveActive) == 1
    ensures Count(Steps(c, hasClient, hasCmd, stale), IsOnDone) == 1
  {
    var posted := Posted(c, hasClient, hasCmd, stale);
    var head := [OnDone(c.result), RemoveActive];
    PostedShape(c, hasClient, hasCmd, stale);
    PostedCounts(c, hasClient, hasCmd, stale);
    CountAppend(head, posted, IsClientCallback);
    CountAppend(head, posted, IsRemoveActive);
    CountAppend(head, posted, IsOnDone);
  }

  /** With a command, its onExecEnd comes once and last, after the client's
      callback; without one it never comes. */
  lemma ExecEndComesLast(c: Completion, hasClient: bool, hasCmd: bool, stale: bool)
    requires !c.Aborted?
    ensures var s := Steps(c, hasClient, hasCmd, stale);
      && (hasCmd ==> s[|s| - 1] == ExecEnd && ExecEnd !in s[..|s| - 1])
      && (!hasCmd ==> ExecEnd !in s)
  {
    var s := Steps(c, hasClient, hasCmd, stale);
    if hasCmd {
      assert s[..|s| - 1] == [OnDone(c.result), RemoveActive] + (match c
        case Failed(r) => (if hasClient then (if stale then [ClientCanceled(CanceledValue(r))] else [ClientFailed(r)] + (if NotConnected(r) then [ShowNoConnectivity] else [])) else (if NotConnected(r) then [ShowNoConnectivity] else []))
        case Canceled(r) => (if hasClient then [ClientCanceled(r)] else [])
        case Succeeded(r) => (if hasClient then (if stale then [ClientCanceled(CanceledValue(r))] else [PostExecute(Some(r)), ClientFinished(r)]) else []));
    }
  }

  /** A straggler at delivery: the client is told "canceled", a failed or
      finished result being marked canceled first; onPostExecute is skipped and no connectivity message is shown. */
  lemma StragglerIsCanceled(c: Completion, hasCmd: bool)
    requires !c.Aborted?
    ensures var s := Steps(c, true, hasCmd, true);
      && s[2].ClientCanceled?
      && (c.Canceled? ==> s[2].result == c.result)
      && (!c.Canceled? ==> s[2].result == CanceledValue(c.result) && IsCanceledValue(s[2].result))
      && (forall i :: 0 <= i < |s| ==> !s[i].PostExecute? && s[i] != ShowNoConnectivity)
  {
  }

  /** Not a straggler: the client hears the classification itself, a finished
      call after onPostExecute with the same result. */
  lemma DeliveredAsClassified(c: Completion, hasCmd: bool)
    requires !c.Aborted?
    ensures var s := Steps(c, true, hasCmd, false);
      && (c.Failed? ==> s[2] == ClientFailed(c.result))
      && (c.Canceled? ==> s[2] == ClientCanceled(c.result))
      && (c.Succeeded? ==> s[2] == PostExecute(Some(c.result)) && s[3] == ClientFinished(c.result))
  {
  }

  /** The connectivity message is shown exactly for a failure caused by a
      missing network, unless a client is told the call was canceled. */
  lemma ConnectivityMessage(c: Completion, hasClient: bool, hasCmd: bool, stale: bool)
    requires !c.Aborted?
    ensures ShowNoConnectivity in Steps(c, hasClient, hasCmd, stale)
      <==> c.Failed? && NotConnected(c.result) && !(hasClient && stale)
  {
  }
}
