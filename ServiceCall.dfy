/** com.zidsoft.zdlib.service.ServiceCall: a call run once on a background
    thread pool, its status machine, and the process-wide registry of active
    calls. The thread pool, the lock helper thread and the UI-thread Handler
    are not modelled: when the pool runs the task, what doInBackground
    produced and whether the command is a straggler are parameters, and the
    callbacks done() sets off are appended to a trace in the order they are
    issued. The classification itself is module ServiceCallFlow, the registry
    updates module ActiveCalls. */
module ServiceCall {
  import opened Lang
  import opened ActiveCalls
  import Flow = ServiceCallFlow

  const MSG_ALREADY_EXECUTING: string := "Cannot execute task: the task is already running."
  const MSG_ALREADY_EXECUTED: string :=
    "Cannot execute task: the task has already been executed (a task can be executed only once)"

  /** A ServiceCallCommand as the service call sees it: its class key and key. */
  datatype Command = Command(classKey: string, key: string)

  /** A ServiceCallClient and a PropertyChangeListener, by identity. */
  datatype Client = Client(id: nat)
  datatype Listener = Listener(id: nat)

  /** ServiceCall.Status; each is entered at most once, in this order. */
  datatype Status = PENDING | RUNNING | FINISHED

  function Rank(s: Status): nat
  {
    match s
    case PENDING => 0
    case RUNNING => 1
    case FINISHED => 2
  }

  /** What the registry tells commands and listeners: onExecBegin, and the
      onEndActive and onEndActiveListenBegin property changes. */
  datatype RegistryEvent =
    | ExecBegin(cmd: Command)
    | EndActive(listener: Listener, classKey: string)
    | EndActiveListenBegin(listener: Listener, classKey: string)

  /** The registry after addActive. */
  function Added(m: Active<ServiceCall, Listener>, cmd: Option<Command>, call: ServiceCall): Active<ServiceCall, Listener>
  {
    if cmd.None? then m else WithCall(m, cmd.value.classKey, cmd.value.key, call)
  }

  /** The registry after removeActive. */
  function Removed(m: Active<ServiceCall, Listener>, cmd: Option<Command>, call: ServiceCall): Active<ServiceCall, Listener>
  {
    if cmd.None? then m else Remove(m, cmd.value.classKey, cmd.value.key, call).active
  }

  /** The events addActive issues. */
  function BeginEvents(cmd: Option<Command>): seq<RegistryEvent>
  {
    if cmd.None? then [] else [ExecBegin(cmd.value)]
  }

  function ClassKeyOf(cmd: Option<Command>): string
  {
    if cmd.None? then "" else cmd.value.classKey
  }

  /** The listeners removeActive notifies: those of a class whose last call
      went, none otherwise. */
  function ToNotify(m: Active<ServiceCall, Listener>, cmd: Option<Command>, call: ServiceCall): set<Listener>
  {
    if cmd.None? then {}
    else
      var notify := Remove(m, cmd.value.classKey, cmd.value.key, call).notify;
      if notify.None? then {} else notify.value
  }

  /** `after` is `before` followed by one onEndActive for the class per
      listener: each listener is told, and nothing else is said. */
  ghost predicate Notified(before: seq<RegistryEvent>, after: seq<RegistryEvent>, classKey: string, listeners: set<Listener>)
  {
    && |after| == |before| + |listeners|
    && after[..|before|] == before
    && (forall i :: |before| <= i < |after| ==>
          after[i].EndActive? && after[i].classKey == classKey && after[i].listener in listeners)
    && (forall l :: l in listeners ==> EndActive(l, classKey) in after[|before|..])
  }

  /** With nobody to notify nothing is said. */
  lemma NotifiedNobody(before: seq<RegistryEvent>, after: seq<RegistryEvent>, classKey: string)
    requires Notified(before, after, classKey, {})
    ensures after == before
  {
  }

  /** Telling one more listener extends what has been said. */
  lemma NotifiedOneMore(before: seq<RegistryEvent>, after: seq<RegistryEvent>, classKey: string,
                        sent: set<Listener>, l: Listener)
    requires Notified(before, after, classKey, sent) && l !in sent
    ensures Notified(before, after + [EndActive(l, classKey)], classKey, sent + {l})
  {
    var next := after + [EndActive(l, classKey)];
    assert next[|before|..] == after[|before|..] + [EndActive(l, classKey)];
    assert next[..|before|] == after[..|before|];
  }

  /** ServiceCall.m_mapActive with the events it has issued. Java keeps it in
      a static field; here every call is given the registry it uses. */
  class Registry {
    var active: Active<ServiceCall, Listener>
    var events: seq<RegistryEvent>

    ghost predicate Valid()
      reads this
    {
      WellFormed(active)
    }

    constructor ()
      ensures Valid() && active == map[] && events == []
    {
      active, events := map[], [];
    }

    /** ServiceCall.addActive: register the call under its command and tell
        the command its execution began; nothing for a null command. */
    method AddActive(cmd: Option<Command>, call: ServiceCall)
      requires Valid()
      modifies this
      ensures Valid()
      ensures active == Added(old(active), cmd, call)
      ensures events == old(events) + BeginEvents(cmd)
    {
      if cmd.Some? {
        WellFormedPreserved(active, cmd.value.classKey, cmd.value.key, call);
        active := WithCall(active, cmd.value.classKey, cmd.value.key, call);
        events := events + [ExecBegin(cmd.value)];
      }
    }

    /** ServiceCall.removeActive: unregister the call; when its class has no
        call left, drop the class and send onEndActive to each listener of the
        snapshot. */
    method RemoveActive(cmd: Option<Command>, call: ServiceCall)
      requires Valid()
      modifies this
      ensures Valid()
      ensures active == Removed(old(active), cmd, call)
      ensures Notified(old(events), events, ClassKeyOf(cmd), ToNotify(old(active), cmd, call))
    {
      if cmd.Some? {
        WellFormedPreserved(active, cmd.value.classKey, cmd.value.key, call);
      }
      var notify := ToNotify(active, cmd, call);
      active := Removed(active, cmd, call);
      NotifyEndActive(ClassKeyOf(cmd), notify);
    }

    /** The posted runnable of removeActive: onEndActive to each listener of
        the snapshot, in the set's iteration order. */
    method NotifyEndActive(classKey: string, listeners: set<Listener>)
      modifies this
      ensures active == old(active)
      ensures Notified(old(events), events, classKey, listeners)
    {
      var pending := listeners;
      ghost var sent: set<Listener> := {};
      while pending != {}
        invariant sent + pending == listeners && sent !! pending
        invariant active == old(active)
        invariant Notified(old(events), events, classKey, sent)
        decreases |pending|
      {
        var l :| l in pending;
        NotifiedOneMore(old(events), events, classKey, sent, l);
        events := events + [EndActive(l, classKey)];
        sent, pending := sent + {l}, pending - {l};
      }
    }

    /** ServiceCall.addEndActiveListener: true, and the listener registered
        and told so, exactly when the class has an active command. */
    method AddEndActiveListener(classKey: string, listener: Listener) returns (added: bool)
      requires Valid()
      modifies this
      ensures Valid()
      ensures added == HasActiveCommand(old(active), classKey)
      ensures active == WithListener(old(active), classKey, listener)
      ensures events == old(events) + (if added then [EndActiveListenBegin(listener, classKey)] else [])
    {
      WithListenerKeepsCalls(active, classKey, listener);
      if !HasActiveCommand(active, classKey) {
        return false;
      }
      active := WithListener(active, classKey, listener);
      events := events + [EndActiveListenBegin(listener, classKey)];
      return true;
    }

    /** ServiceCall.isActiveCommand. */
    function IsActive(classKey: string, key: string): (r: bool)
      reads this
      ensures r <==> Calls(active, classKey, key) != {}
    {
      ActiveCalls.IsActiveCommand(active, classKey, key)
    }

    /** ServiceCall.hasActiveCommand. */
    function HasActive(classKey: string): (r: bool)
      reads this
      requires Valid()
      ensures r <==> exists key :: Calls(active, classKey, key) != {}
    {
      HasActiveIffSomeKeyActive(active, classKey);
      HasActiveCommand(active, classKey)
    }
  }

  /** The state of the FutureTask: not yet run, run to completion, or
      cancelled before it ran. */
  datatype TaskState = NotRun | Ran | CancelledTask

  /** The steps in the order execImmediate sees them: onDone and
      removeActive, then onPostExecute unless the command is a straggler
      once the task has run (`stale`), then the posted callbacks. */
  function ImmediateSteps(c: Flow.Completion, hasCmd: bool, stale: bool): seq<Flow.Step>
    requires !c.Aborted?
  {
    var s := Flow.Steps(c, false, hasCmd, stale);
    s[..2] + (if stale then [] else [Flow.PostExecute(Some(c.result))]) + s[2..]
  }

  /** What m_result holds once the posted callbacks have run: a straggler's
      failed or finished result is marked canceled. */
  function FinalResult(c: Flow.Completion, hasClient: bool, stale: bool): Flow.ResultValue
    requires !c.Aborted?
  {
    if hasClient && stale && !c.Canceled? then Flow.CanceledValue(c.result) else c.result
  }

  class ServiceCall {
    var status: Status
    /** m_result; None is null. */
    var result: Option<Flow.ResultValue>
    var client: Option<Client>
    const cmd: Option<Command>
    var mapper: Option<Flow.Mapper>
    const reg: Registry
    var task: TaskState
    /** The task is in the pool's work queue. */
    var queued: bool
    /** The callbacks done() has set off so far. */
    var trace: seq<Flow.Step>

    /** What the status machine keeps: a call not started has an untouched
        task, and a task that ran or was cancelled has a finished call. */
    ghost predicate Valid()
      reads this, reg
    {
      && reg.Valid()
      && (status == PENDING ==> task == NotRun && !queued)
      && (task != NotRun ==> status == FINISHED)
    }

    /** ServiceCall(cmd) and ServiceCall(), with the registry it reports to. */
    constructor (cmd: Option<Command>, reg: Registry)
      ensures this.cmd == cmd && this.reg == reg
      ensures status == PENDING && result.None? && client.None? && mapper.None?
      ensures task == NotRun && !queued && trace == []
      ensures reg.Valid() ==> Valid()
    {
      this.cmd, this.reg := cmd, reg;
      status, result, client, mapper := PENDING, None, None, None;
      task, queued, trace := NotRun, false, [];
    }

    /** ServiceCall.getStatus. */
    function GetStatus(): (s: Status)
      reads this
      ensures s == status
    {
      status
    }

    method SetMapper(mapper: Option<Flow.Mapper>)
      modifies this
      ensures this.mapper == mapper
      ensures status == old(status) && result == old(result) && client == old(client)
      ensures task == old(task) && queued == old(queued) && trace == old(trace)
    {
      this.mapper := mapper;
    }

    /** ServiceCall.isCancelled: the task was cancelled before it ran. */
    predicate IsCancelled()
      reads this, reg
      ensures IsCancelled() <==> task == CancelledTask
      ensures Valid() && IsCancelled() ==> status == FINISHED
    {
      task == CancelledTask
    }

    /** ServiceCall.isStraggler, the command's answer being given. */
    function IsStraggler(stale: bool): (r: bool)
      reads this
      ensures r <==> cmd.Some? && stale
    {
      cmd.Some? && stale
    }

    /** The IllegalStateException exec and execImmediate throw when the call
        was already started. */
    function AlreadyStarted(): (r: Option<Thrown>)
      reads this
      ensures r.None? <==> status == PENDING
      ensures status == RUNNING ==> r == Some(IllegalState(MSG_ALREADY_EXECUTING))
      ensures status == FINISHED ==> r == Some(IllegalState(MSG_ALREADY_EXECUTED))
    {
      match status
      case PENDING => None
      case RUNNING => Some(IllegalState(MSG_ALREADY_EXECUTING))
      case FINISHED => Some(IllegalState(MSG_ALREADY_EXECUTED))
    }

    /** ServiceCall.exec(lock, client): a call is started once. It becomes
        RUNNING, is registered, and its task goes to the pool; a rejected
        submission is dropped by the rejection handler, which does nothing,
        so the call stays RUNNING and registered. */
    method Exec(client: Option<Client>, accepted: bool) returns (thrown: Option<Thrown>)
      requires Valid()
      modifies this, reg
      ensures Rank(old(status)) <= Rank(status)
      ensures Valid()
      ensures thrown == old(AlreadyStarted())
      ensures thrown.Some? ==>
        && status == old(status) && this.client == old(this.client) && queued == old(queued)
        && reg.active == old(reg.active) && reg.events == old(reg.events)
      ensures thrown.None? ==>
        && status == RUNNING && this.client == client && queued == accepted
        && reg.active == Added(old(reg.active), cmd, this)
        && reg.events == old(reg.events) + BeginEvents(cmd)
      ensures result == old(result) && task == old(task) && trace == old(trace) && mapper == old(mapper)
    {
      thrown := AlreadyStarted();
      if thrown.Some? {
        return;
      }
      this.client := client;
      status := RUNNING;
      reg.AddActive(cmd, this);
      queued := accepted;
    }

    /** done(), shared by the pool and execImmediate. As written it throws
        NullPointerException (aborted is true) for every outcome but a
        returned result, leaving the call registered and nothing delivered. */
    method Done(outcome: Flow.Outcome, hasClient: bool, stale: bool) returns (aborted: bool)
      requires reg.Valid()
      modifies this, reg
      ensures Rank(old(status)) <= Rank(status)
      ensures reg.Valid()
      ensures status == FINISHED
      ensures aborted <==> Flow.DoneAsWritten(outcome, mapper).Aborted?
      ensures aborted ==>
        && result.None? && trace == old(trace)
        && reg.active == old(reg.active) && reg.events == old(reg.events)
      ensures !aborted ==>
        var c := Flow.DoneAsWritten(outcome, mapper);
        && result == Some(FinalResult(c, hasClient, IsStraggler(stale)))
        && trace == old(trace) + Flow.Steps(c, hasClient, cmd.Some?, IsStraggler(stale))
        && reg.active == Removed(old(reg.active), cmd, this)
        && Notified(old(reg.events), reg.events, ClassKeyOf(cmd), ToNotify(old(reg.active), cmd, this))
      ensures client == old(client) && task == old(task) && queued == old(queued) && mapper == old(mapper)
    {
      status := FINISHED;
      var c := Flow.DoneAsWritten(outcome, mapper);
      if c.Aborted? {
        result := None;
        return true;
      }
      result := Some(FinalResult(c, hasClient, IsStraggler(stale)));
      reg.RemoveActive(cmd, this);
      trace := trace + Flow.Steps(c, hasClient, cmd.Some?, IsStraggler(stale));
      return false;
    }

    /** A pool worker runs the queued task. A task cancelled meanwhile does
        nothing. A straggler at start cancels its own task, whose done()
        throws inside call(), where FutureTask swallows it: doInBackground
        never runs and nothing is delivered. Otherwise doInBackground returns
        or throws (`outcome`), and done() classifies it; when done() throws,
        the exception escapes to the worker (`crashed`). `staleAtDelivery` is
        isStraggler() when the posted callback runs. */
    method Run(staleAtStart: bool, outcome: Flow.Outcome, staleAtDelivery: bool) returns (crashed: bool)
      requires Valid() && queued
      requires outcome.Returned? || outcome.TaskThrew?
      modifies this, reg
      ensures Rank(old(status)) <= Rank(status)
      ensures Valid()
      ensures !queued
      ensures old(task) != NotRun ==>
        !crashed && status == old(status) && result == old(result) && trace == old(trace)
        && task == old(task) && reg.active == old(reg.active) && reg.events == old(reg.events)
      ensures old(task) == NotRun && IsStraggler(staleAtStart) ==>
        && !crashed && task == CancelledTask && status == FINISHED && result.None?
        && trace == old(trace) && reg.active == old(reg.active) && reg.events == old(reg.events)
      ensures old(task) == NotRun && !IsStraggler(staleAtStart) ==>
        && task == Ran && status == FINISHED
        && (crashed <==> Flow.DoneAsWritten(outcome, mapper).Aborted?)
        && (crashed ==>
              result.None? && trace == old(trace) && reg.active == old(reg.active) && reg.events == old(reg.events))
        && (!crashed ==>
              var c := Flow.DoneAsWritten(outcome, mapper);
              && result == Some(FinalResult(c, client.Some?, IsStraggler(staleAtDelivery)))
              && trace == old(trace) + Flow.Steps(c, client.Some?, cmd.Some?, IsStraggler(staleAtDelivery))
              && reg.active == Removed(old(reg.active), cmd, this)
              && Notified(old(reg.events), reg.events, ClassKeyOf(cmd), ToNotify(old(reg.active), cmd, this)))
      ensures client == old(client) && mapper == old(mapper)
    {
      queued := false;
      if task != NotRun {
        return false;
      }
      if IsStraggler(staleAtStart) {
        task := CancelledTask;
        var _ := Done(Flow.Cancelled, client.Some?, staleAtDelivery);
        return false;
      }
      task := Ran;
      crashed := Done(outcome, client.Some?, staleAtDelivery);
    }

    /** ServiceCall.execImmediate: run on the caller's thread without a
        client. isStraggler() is asked twice, by call() before
        doInBackground (`staleAtStart`) and after the task has run
        (`staleAfterRun`). A straggler at start gets null back, with
        onPostExecute(null) when it is no longer a straggler afterwards; a
        done() that throws makes execImmediate throw NullPointerException;
        otherwise onPostExecute sees the result (unless a straggler by then)
        and the result is returned. */
    method ExecImmediate(staleAtStart: bool, outcome: Flow.Outcome, staleAfterRun: bool)
      returns (r: Result<Option<Flow.ResultValue>>)
      requires Valid()
      requires outcome.Returned? || outcome.TaskThrew?
      modifies this, reg
      ensures Rank(old(status)) <= Rank(status)
      ensures Valid()
      ensures old(AlreadyStarted()).Some? ==>
        && r == Throws(old(AlreadyStarted()).value)
        && status == old(status) && client == old(client) && result == old(result) && task == old(task)
        && trace == old(trace) && reg.active == old(reg.active) && reg.events == old(reg.events)
      ensures old(AlreadyStarted()).None? ==> status == FINISHED && client.None?
      ensures old(AlreadyStarted()).None? && IsStraggler(staleAtStart) ==>
        && r == Ok(None) && task == CancelledTask && result.None?
        && trace == old(trace) + (if IsStraggler(staleAfterRun) then [] else [Flow.PostExecute(None)])
        && reg.active == Added(old(reg.active), cmd, this)
        && reg.events == old(reg.events) + BeginEvents(cmd)
      ensures old(AlreadyStarted()).None? && !IsStraggler(staleAtStart) ==>
        var c := Flow.DoneAsWritten(outcome, mapper);
        && task == Ran
        && (c.Aborted? ==>
              r == Throws(NullPointer) && result.None? && trace == old(trace)
              && reg.active == Added(old(reg.active), cmd, this)
              && reg.events == old(reg.events) + BeginEvents(cmd))
        && (!c.Aborted? ==>
              r == Ok(Some(c.result)) && result == Some(c.result)
              && trace == old(trace) + ImmediateSteps(c, cmd.Some?, IsStraggler(staleAfterRun))
              && reg.active == Removed(Added(old(reg.active), cmd, this), cmd, this)
              && Notified(old(reg.events) + BeginEvents(cmd), reg.events, ClassKeyOf(cmd),
                          ToNotify(Added(old(reg.active), cmd, this), cmd, this)))
      ensures queued == old(queued) && mapper == old(mapper)
    {
      var thrown := AlreadyStarted();
      if thrown.Some? {
        return Throws(thrown.value);
      }
      client := None;
      status := RUNNING;
      reg.AddActive(cmd, this);
      r := RunImmediate(staleAtStart, outcome, staleAfterRun);
    }

    /** The part of execImmediate after the call is registered: the task
        runs on this thread, then onPostExecute is invoked unless the
        command is a straggler by then; when done() went through,
        onPostExecute comes directly after removeActive. */
    method RunImmediate(staleAtStart: bool, outcome: Flow.Outcome, staleAfterRun: bool)
      returns (r: Result<Option<Flow.ResultValue>>)
      requires reg.Valid() && status == RUNNING && task == NotRun && client.None?
      modifies this, reg
      ensures reg.Valid() && status == FINISHED && client.None?
      ensures IsStraggler(staleAtStart) ==>
        && r == Ok(None) && task == CancelledTask && result.None?
        && trace == old(trace) + (if IsStraggler(staleAfterRun) then [] else [Flow.PostExecute(None)])
        && reg.active == old(reg.active) && reg.events == old(reg.events)
      ensures !IsStraggler(staleAtStart) ==>
        var c := Flow.DoneAsWritten(outcome, mapper);
        && task == Ran
        && (c.Aborted? ==>
              r == Throws(NullPointer) && result.None? && trace == old(trace)
              && reg.active == old(reg.active) && reg.events == old(reg.events))
        && (!c.Aborted? ==>
              r == Ok(Some(c.result)) && result == Some(c.result)
              && trace == old(trace) + ImmediateSteps(c, cmd.Some?, IsStraggler(staleAfterRun))
              && reg.active == Removed(old(reg.active), cmd, this)
              && Notified(old(reg.events), reg.events, ClassKeyOf(cmd), ToNotify(old(reg.active), cmd, this)))
      ensures queued == old(queued) && mapper == old(mapper)
    {
      if IsStraggler(staleAtStart) {
        r := CancelOwnTask(staleAfterRun);
        return;
      }
      var before := trace;
      task := Ran;
      var aborted := Done(outcome, false, staleAfterRun);
      if aborted {
        return Throws(NullPointer);
      }
      var c := Flow.DoneAsWritten(outcome, mapper);
      var s := Flow.Steps(c, false, cmd.Some?, IsStraggler(staleAfterRun));
      assert trace == before + s;
      if !IsStraggler(staleAfterRun) {
        trace := before + s[..2] + [Flow.PostExecute(result)] + s[2..];
      }
      return Ok(result);
    }

    /** execImmediate for a straggler at start: call() cancels its own
        task, whose done() throws on the null m_result inside call(), where
        FutureTask swallows it; execImmediate then hands onPostExecute and
        its caller the null m_result. */
    method CancelOwnTask(staleAfterRun: bool) returns (r: Result<Option<Flow.ResultValue>>)
      requires reg.Valid() && status == RUNNING && task == NotRun && client.None?
      modifies this, reg
      ensures reg.Valid() && status == FINISHED && client.None?
      ensures r == Ok(None) && task == CancelledTask && result.None?
      ensures trace == old(trace) + (if IsStraggler(staleAfterRun) then [] else [Flow.PostExecute(None)])
      ensures reg.active == old(reg.active) && reg.events == old(reg.events)
      ensures queued == old(queued) && mapper == old(mapper)
    {
      task := CancelledTask;
      var _ := Done(Flow.Cancelled, false, staleAfterRun);
      if !IsStraggler(staleAfterRun) {
        trace := trace + [Flow.PostExecute(result)];
      }
      return Ok(result);
    }

    /** ServiceCall.cancel: a task not yet run is cancelled, and its done()
        throws NullPointerException out of cancel, leaving the call
        registered and its client uninformed; otherwise false. */
    method Cancel(mayInterruptIfRunning: bool) returns (r: Result<bool>)
      requires Valid()
      modifies this, reg
      ensures Rank(old(status)) <= Rank(status)
      ensures Valid()
      ensures old(task) == NotRun ==>
        r == Throws(NullPointer) && task == CancelledTask && status == FINISHED && result.None?
      ensures old(task) != NotRun ==>
        r == Ok(false) && task == old(task) && status == old(status) && result == old(result)
      ensures trace == old(trace) && reg.active == old(reg.active) && reg.events == old(reg.events)
      ensures client == old(client) && queued == old(queued) && mapper == old(mapper)
    {
      if task != NotRun {
        return Ok(false);
      }
      task := CancelledTask;
      var _ := Done(Flow.Cancelled, client.Some?, false);
      return Throws(NullPointer);
    }
  }

  /** A command's begin is announced once and its call is registered until
      done() delivers: exec followed by a delivering run leaves the registry
      as it was. */
  lemma ExecThenDeliverRestoresRegistry(m: Active<ServiceCall, Listener>, cmd: Option<Command>, call: ServiceCall)
    requires WellFormed(m) && (cmd.Some? ==> call !in Calls(m, cmd.value.classKey, cmd.value.key))
    ensures Removed(Added(m, cmd, call), cmd, call) == m
  {
    if cmd.Some? {
      AddThenRemove(m, cmd.value.classKey, cmd.value.key, call);
    }
  }

  /** The status only moves forward. */
  lemma RankOrder(s: Status)
    ensures Rank(PENDING) <= Rank(s) <= Rank(FINISHED)
    ensures Rank(s) == Rank(PENDING) <==> s == PENDING
  {
  }
}
