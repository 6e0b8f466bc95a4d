/** The process-wide registry of running service calls (ServiceCall.m_mapActive
    and ServiceCall.ActiveInfo) as a value: a map from command class key to
    the calls running per command key, with the listeners waiting for the
    class to go idle. The imperative registry in module ServiceCall is proved
    against these functions. */
module ActiveCalls {
  import opened Lang

  /** ServiceCall.ActiveInfo. */
  datatype ActiveInfo<Call, L> = ActiveInfo(commandCalls: map<string, set<Call>>, emptyActiveListeners: Option<set<L>>)

  type Active<Call, L> = map<string, ActiveInfo<Call, L>>

  /** What addActive and removeActive keep: no class without a command key
      and no command key without a call. */
  ghost predicate WellFormed<Call, L>(m: Active<Call, L>)
  {
    forall classKey :: classKey in m ==>
      && m[classKey].commandCalls != map[]
      && forall key :: key in m[classKey].commandCalls ==> m[classKey].commandCalls[key] != {}
  }

  /** The calls running for a class key and command key. */
  function Calls<Call, L>(m: Active<Call, L>, classKey: string, key: string): set<Call>
  {
    if classKey in m && key in m[classKey].commandCalls then m[classKey].commandCalls[key] else {}
  }

  /** ServiceCall.isActiveCommand: some call runs for the class and command key. */
  function IsActiveCommand<Call, L>(m: Active<Call, L>, classKey: string, key: string): (r: bool)
    ensures r <==> Calls(m, classKey, key) != {}
  {
    classKey in m && key in m[classKey].commandCalls && m[classKey].commandCalls[key] != {}
  }

  /** ServiceCall.hasActiveCommand: the class has an entry with a command key. */
  function HasActiveCommand<Call, L>(m: Active<Call, L>, classKey: string): (r: bool)
    ensures r ==> classKey in m
    ensures WellFormed(m) && classKey in m ==> r
  {
    classKey in m && m[classKey].commandCalls != map[]
  }

  /** In a well-formed registry the class has an active command exactly when
      one of its command keys is active. */
  lemma HasActiveIffSomeKeyActive<Call, L>(m: Active<Call, L>, classKey: string)
    requires WellFormed(m)
    ensures HasActiveCommand(m, classKey) <==> exists key :: IsActiveCommand(m, classKey, key)
  {
    if HasActiveCommand(m, classKey) {
      var key :| key in m[classKey].commandCalls;
      assert IsActiveCommand(m, classKey, key);
    }
  }

  /** addActive on a non-null command: create the class entry and the key's
      set when missing, and add the call. */
  function WithCall<Call, L>(m: Active<Call, L>, classKey: string, key: string, call: Call): (r: Active<Call, L>)
    ensures r.Keys == m.Keys + {classKey}
    ensures Calls(r, classKey, key) == Calls(m, classKey, key) + {call}
    ensures forall ck, k :: (ck != classKey || k != key) ==> Calls(r, ck, k) == Calls(m, ck, k)
    ensures forall ck :: ck in m ==> r[ck].emptyActiveListeners == m[ck].emptyActiveListeners
    ensures classKey !in m ==> r[classKey].emptyActiveListeners.None?
  {
    var info := if classKey in m then m[classKey] else ActiveInfo(map[], None);
    var calls := if key in info.commandCalls then info.commandCalls[key] else {};
    m[classKey := info.(commandCalls := info.commandCalls[key := calls + {call}])]
  }

  /** What removeActive does to the registry: the registry after it, and the
      snapshot of listeners to notify when the class went idle. */
  datatype Removal<Call, L> = Removal(active: Active<Call, L>, notify: Option<set<L>>)

  /** The command-key map of a class after the call is taken out of its
      key's set and an emptied key is dropped. */
  function RemainingCalls<Call>(commandCalls: map<string, set<Call>>, key: string, call: Call): map<string, set<Call>>
  {
    if key in commandCalls then
      var calls := commandCalls[key] - {call};
      if calls == {} then commandCalls - {key} else commandCalls[key := calls]
    else commandCalls
  }

  /** removeActive on a non-null command: take the call out of its key's
      set, drop the key when its set is empty, and, when the class has no key
      left, drop the class and hand back its listeners (if it had any). */
  function Remove<Call, L>(m: Active<Call, L>, classKey: string, key: string, call: Call): (r: Removal<Call, L>)
    ensures classKey !in m ==> r == Removal(m, None)
    ensures r.active.Keys <= m.Keys
    ensures r.notify.Some? ==> classKey in m && classKey !in r.active && r.notify == m[classKey].emptyActiveListeners
  {
    if classKey !in m then Removal(m, None)
    else
      var info := m[classKey];
      var commandCalls := RemainingCalls(info.commandCalls, key, call);
      if commandCalls == map[] then Removal(m - {classKey}, info.emptyActiveListeners)
      else Removal(m[classKey := info.(commandCalls := commandCalls)], None)
  }

  /** removeActive removes the given call and nothing else: every other
      call stays, and every class left keeps its end-active listeners. */
  lemma RemoveOnlyThatCall<Call, L>(m: Active<Call, L>, classKey: string, key: string, call: Call)
    ensures Calls(Remove(m, classKey, key, call).active, classKey, key) == Calls(m, classKey, key) - {call}
    ensures forall ck, k :: (ck != classKey || k != key) ==>
      Calls(Remove(m, classKey, key, call).active, ck, k) == Calls(m, ck, k)
    ensures forall ck :: ck != classKey ==>
      (ck in Remove(m, classKey, key, call).active <==> ck in m)
    ensures forall ck :: ck in Remove(m, classKey, key, call).active ==>
      ck in m && Remove(m, classKey, key, call).active[ck].emptyActiveListeners == m[ck].emptyActiveListeners
  {
    var r := Remove(m, classKey, key, call).active;
    if classKey in m {
      var info := m[classKey];
      var cc := RemainingCalls(info.commandCalls, key, call);
      forall k
        ensures (if k in cc then cc[k] else {})
             == (if k == key then Calls(m, classKey, key) - {call} else Calls(m, classKey, k))
      {
      }
      if cc == map[] {
        assert r == m - {classKey};
      } else {
        assert r == m[classKey := info.(commandCalls := cc)];
      }
    }
  }

  /** Both updates keep the registry well formed: removeActive prunes the
      emptied key, then the emptied class. */
  lemma WellFormedPreserved<Call, L>(m: Active<Call, L>, classKey: string, key: string, call: Call)
    requires WellFormed(m)
    ensures WellFormed(WithCall(m, classKey, key, call))
    ensures WellFormed(Remove(m, classKey, key, call).active)
  {
    var w := WithCall(m, classKey, key, call);
    assert key in w[classKey].commandCalls;
    forall ck | ck in w
      ensures w[ck].commandCalls != map[]
      ensures forall k :: k in w[ck].commandCalls ==> w[ck].commandCalls[k] != {}
    {
      if ck != classKey {
        assert w[ck] == m[ck];
      }
    }
  }

  /** The end-active listeners are handed back exactly when the call was the
      last one of its class; the class entry, listeners included, is then gone. */
  lemma RemoveNotifiesWhenIdle<Call, L>(m: Active<Call, L>, classKey: string, key: string, call: Call)
    requires WellFormed(m)
    ensures var rm := Remove(m, classKey, key, call);
      && (classKey in m && classKey !in rm.active ==> rm.notify == m[classKey].emptyActiveListeners)
      && (rm.notify.Some? ==> classKey in m && classKey !in rm.active)
      && (classKey in m && classKey !in rm.active <==>
            classKey in m && m[classKey].commandCalls.Keys <= {key}
            && Calls(m, classKey, key) <= {call})
      && (!HasActiveCommand(rm.active, classKey) ==> classKey !in rm.active)
  {
    var rm := Remove(m, classKey, key, call);
    if classKey in m {
      var info := m[classKey];
      if info.commandCalls.Keys <= {key} && Calls(m, classKey, key) <= {call} {
        assert key in info.commandCalls;
        assert info.commandCalls - {key} == map[];
      } else if key in info.commandCalls && info.commandCalls[key] - {call} == {} {
        var k :| k in info.commandCalls && k != key;
        assert k in (info.commandCalls - {key});
      } else if key in info.commandCalls {
        assert key in info.commandCalls[key := info.commandCalls[key] - {call}];
      } else {
        var k :| k in info.commandCalls;
        assert k in info.commandCalls;
      }
    }
  }

  /** Registering a call that was not registered and then removing it gives
      the registry back, with nobody to notify. */
  lemma AddThenRemove<Call, L>(m: Active<Call, L>, classKey: string, key: string, call: Call)
    requires WellFormed(m) && call !in Calls(m, classKey, key)
    ensures Remove(WithCall(m, classKey, key, call), classKey, key, call) == Removal(m, None)
  {
    var w := WithCall(m, classKey, key, call);
    var info := w[classKey];
    if classKey in m {
      var old_ := m[classKey];
      if key in old_.commandCalls {
        assert info.commandCalls[key] - {call} == old_.commandCalls[key];
        assert info.commandCalls[key := old_.commandCalls[key]] == old_.commandCalls;
      } else {
        assert info.commandCalls - {key} == old_.commandCalls;
      }
      assert w[classKey := old_] == m;
    } else {
      assert info.commandCalls[key] - {call} == {};
      assert info.commandCalls - {key} == map[];
      assert w - {classKey} == m;
    }
  }

  /** addActive makes both queries true for the command. */
  lemma AddMakesActive<Call, L>(m: Active<Call, L>, classKey: string, key: string, call: Call)
    ensures IsActiveCommand(WithCall(m, classKey, key, call), classKey, key)
    ensures HasActiveCommand(WithCall(m, classKey, key, call), classKey)
  {
    assert key in WithCall(m, classKey, key, call)[classKey].commandCalls;
  }

  /** addEndActiveListener: nothing for a class without active commands;
      otherwise the listener joins the class's set, created if needed. */
  function WithListener<Call, L>(m: Active<Call, L>, classKey: string, listener: L): (r: Active<Call, L>)
    ensures !HasActiveCommand(m, classKey) ==> r == m
    ensures HasActiveCommand(m, classKey) ==>
      && r.Keys == m.Keys
      && r[classKey].commandCalls == m[classKey].commandCalls
      && r[classKey].emptyActiveListeners.Some?
      && r[classKey].emptyActiveListeners.value
           == (if m[classKey].emptyActiveListeners.Some? then m[classKey].emptyActiveListeners.value else {}) + {listener}
      && forall ck :: ck in m && ck != classKey ==> r[ck] == m[ck]
  {
    if !HasActiveCommand(m, classKey) then m
    else
      var info := m[classKey];
      var listeners := if info.emptyActiveListeners.Some? then info.emptyActiveListeners.value else {};
      m[classKey := info.(emptyActiveListeners := Some(listeners + {listener}))]
  }

  /** Adding a listener changes no call and keeps the registry well formed. */
  lemma WithListenerKeepsCalls<Call, L>(m: Active<Call, L>, classKey: string, listener: L)
    requires WellFormed(m)
    ensures WellFormed(WithListener(m, classKey, listener))
    ensures forall ck, k :: Calls(WithListener(m, classKey, listener), ck, k) == Calls(m, ck, k)
  {
  }

  /** A listener registered on a busy class is handed back when its last call
      is removed, whatever else was registered around it. */
  lemma ListenerNotifiedAtIdle<Call, L>(m: Active<Call, L>, classKey: string, key: string, call: Call, listener: L)
    requires WellFormed(m) && HasActiveCommand(m, classKey)
    requires m[classKey].commandCalls.Keys == {key} && m[classKey].commandCalls[key] == {call}
    ensures var rm := Remove(WithListener(m, classKey, listener), classKey, key, call);
      rm.notify.Some? && listener in rm.notify.value && classKey !in rm.active
  {
    var w := WithListener(m, classKey, listener);
    WithListenerKeepsCalls(m, classKey, listener);
    RemoveNotifiesWhenIdle(w, classKey, key, call);
  }
}
