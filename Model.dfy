/** The base model of the MVP layer (com.zidsoft.zdlib.mvp.Model): its
    listener set, the queue of command-state notifications kept for listeners
    that arrive late, and the map of each command's last message. */
module Model {
  import opened Lang
  import ObjectUtils
  import MsgInfo

  /** ServiceCallCommand.State, the values a command-state notification carries. */
  datatype State = Inactive | Active

  /** Model.CommandStateNotification: the command and its old and new state. */
  datatype Note<C> = Note(cmd: C, oldValue: State, newValue: State)

  /** The notification sent when a command starts. */
  function Begin<C>(cmd: C): Note<C> { Note(cmd, Inactive, Active) }
  /** The notification sent when a command ends. */
  function End<C>(cmd: C): Note<C> { Note(cmd, Active, Inactive) }

  predicate IsEnd<C>(n: Note<C>)
  {
    n.oldValue == Active && n.newValue == Inactive
  }

  /** CommandStateNotification.equals: `other` is None when the object
      compared with is not a notification (or is null). The three fields are
      compared with ObjectUtils.equals; commands and states are compared by
      identity. */
  function NoteEquals<C(==)>(n: Note<C>, other: Option<Note<C>>): (r: bool)
    ensures r <==> other == Some(n)
  {
    ObjectUtils.EqualsIsReferenceEquality(Some(n.cmd), if other.Some? then Some(other.value.cmd) else None);
    ObjectUtils.EqualsIsReferenceEquality(Some(n.oldValue), if other.Some? then Some(other.value.oldValue) else None);
    ObjectUtils.EqualsIsReferenceEquality(Some(n.newValue), if other.Some? then Some(other.value.newValue) else None);
    other.Some?
    && ObjectUtils.Equals(Some(n.cmd), Some(other.value.cmd), (x: C, y: C) => x == y)
    && ObjectUtils.Equals(Some(n.oldValue), Some(other.value.oldValue), (x: State, y: State) => x == y)
    && ObjectUtils.Equals(Some(n.newValue), Some(other.value.newValue), (x: State, y: State) => x == y)
  }

  /** Every bit of each operand is set in an OR. */
  lemma OrAbsorbs(a: bv32, b: bv32, c: bv32)
    ensures (a | b | c) | a == a | b | c
    ensures (a | b | c) | b == a | b | c
    ensures (a | b | c) | c == a | b | c
  {
  }

  /** CommandStateNotification.hashCode in 32-bit arithmetic: the command's
      hash, or the old state's, or twice the new state's. The objects' own
      hashCode methods are parameters. */
  function HashCode<C>(n: Note<C>, cmdHash: C -> bv32, stateHash: State -> bv32): (h: bv32)
    ensures (h | cmdHash(n.cmd)) == h && (h | stateHash(n.oldValue)) == h
  {
    var a, b, c := cmdHash(n.cmd), stateHash(n.oldValue), stateHash(n.newValue) << 1;
    OrAbsorbs(a, b, c);
    a | b | c
  }

  /** Equal notifications have equal hash codes, whatever hash codes the
      command and the states have. */
  lemma EqualNotesHashEqually<C>(n: Note<C>, other: Option<Note<C>>, cmdHash: C -> bv32, stateHash: State -> bv32)
    requires NoteEquals(n, other)
    ensures other.Some? && HashCode(n, cmdHash, stateHash) == HashCode(other.value, cmdHash, stateHash)
  {
  }

  /** Queue.remove(Object): the first element equal to x is removed; the
      queue is unchanged when there is none. */
  function RemoveFirst<T(==)>(q: seq<T>, x: T): (r: seq<T>)
    ensures x !in q ==> r == q
    ensures x in q ==> |r| == |q| - 1
  {
    if |q| == 0 then q
    else if q[0] == x then q[1..]
    else [q[0]] + RemoveFirst(q[1..], x)
  }

  lemma {:induction false} RemoveFirstMultiset<T>(q: seq<T>, x: T)
    ensures multiset(RemoveFirst(q, x)) == multiset(q) - multiset{x}
  {
    if |q| > 0 {
      assert q == [q[0]] + q[1..];
      if q[0] != x {
        RemoveFirstMultiset(q[1..], x);
      }
    }
  }

  /** Removing from a queue whose tail does not hold x leaves the tail alone. */
  lemma {:induction false} RemoveFirstAppend<T>(q: seq<T>, t: seq<T>, x: T)
    requires x !in t
    ensures RemoveFirst(q + t, x) == RemoveFirst(q, x) + t
  {
    if |q| == 0 {
      assert q + t == t;
    } else {
      assert (q + t)[1..] == q[1..] + t;
      if q[0] != x {
        RemoveFirstAppend(q[1..], t, x);
      }
    }
  }

  /** Removing x from a queue whose head part does not hold it. */
  lemma {:induction false} RemoveFirstAfter<T>(q: seq<T>, t: seq<T>, x: T)
    requires x !in q
    ensures RemoveFirst(q + t, x) == q + RemoveFirst(t, x)
  {
    if |q| == 0 {
      assert q + t == t;
    } else {
      assert (q + t)[1..] == q[1..] + t;
      RemoveFirstAfter(q[1..], t, x);
      assert q == [q[0]] + q[1..];
    }
  }

  /** a is a subsequence of b: a's elements occur in b in the same order. */
  ghost predicate Subseq<T>(a: seq<T>, b: seq<T>)
    decreases |b|
  {
    |a| == 0 || (|b| > 0 && ((a[0] == b[0] && Subseq(a[1..], b[1..])) || Subseq(a, b[1..])))
  }

  lemma {:induction false} SubseqRefl<T>(a: seq<T>)
    ensures Subseq(a, a)
  {
    if |a| > 0 {
      SubseqRefl(a[1..]);
    }
  }

  lemma {:induction false} SubseqTrans<T>(a: seq<T>, b: seq<T>, c: seq<T>)
    requires Subseq(a, b) && Subseq(b, c)
    ensures Subseq(a, c)
    decreases |c|
  {
    if |a| > 0 {
      if Subseq(b, c[1..]) {
        SubseqTrans(a, b, c[1..]);
      } else if a[0] == b[0] && Subseq(a[1..], b[1..]) {
        SubseqTrans(a[1..], b[1..], c[1..]);
      } else {
        SubseqTrans(a, b[1..], c[1..]);
      }
    }
  }

  lemma {:induction false} RemoveFirstSubseq<T>(q: seq<T>, x: T)
    ensures Subseq(RemoveFirst(q, x), q)
  {
    if |q| > 0 {
      if q[0] == x {
        SubseqRefl(q[1..]);
      } else {
        RemoveFirstSubseq(q[1..], x);
        assert ([q[0]] + RemoveFirst(q[1..], x))[1..] == RemoveFirst(q[1..], x);
      }
    }
  }

  /** The commands of the end notifications in q, in queue order (the
      `deletes` list of cleanNotificationQueue). */
  function EndCmds<C>(q: seq<Note<C>>): seq<C>
  {
    if |q| == 0 then []
    else EndCmds(q[..|q| - 1]) + (if IsEnd(q[|q| - 1]) then [q[|q| - 1].cmd] else [])
  }

  /** One step of the second loop: the begin, then the end, of cmd. */
  function RemovePair<C(==)>(q: seq<Note<C>>, cmd: C): seq<Note<C>>
  {
    RemoveFirst(RemoveFirst(q, Begin(cmd)), End(cmd))
  }

  /** The begin/end pair of every command in cmds, removed in order. */
  function RemovePairs<C(==)>(q: seq<Note<C>>, cmds: seq<C>): seq<Note<C>>
    decreases |cmds|
  {
    if |cmds| == 0 then q else RemovePairs(RemovePair(q, cmds[0]), cmds[1..])
  }

  /** The queue after cleanNotificationQueue. */
  function Cleaned<C(==)>(q: seq<Note<C>>): seq<Note<C>>
  {
    RemovePairs(q, EndCmds(q))
  }

  /** Number of occurrences of x in s. */
  function Occurrences<T(==)>(s: seq<T>, x: T): nat
  {
    multiset(s)[x]
  }

  lemma {:induction false} EndCmdsCount<C>(q: seq<Note<C>>, cmd: C)
    ensures Occurrences(EndCmds(q), cmd) == Occurrences(q, End(cmd))
  {
    if |q| > 0 {
      EndCmdsCount(q[..|q| - 1], cmd);
      assert q == q[..|q| - 1] + [q[|q| - 1]];
    }
  }

  /** Removing the first x takes one x away, if there is one, and nothing else. */
  lemma RemoveFirstCount<T>(q: seq<T>, x: T, n: T)
    ensures Occurrences(RemoveFirst(q, x), n)
         == if n == x && Occurrences(q, n) > 0 then Occurrences(q, n) - 1 else Occurrences(q, n)
  {
    RemoveFirstMultiset(q, x);
  }

  /** One step removes at most one begin and one end of its command. */
  lemma RemovePairCount<C>(q: seq<Note<C>>, c: C, n: Note<C>)
    ensures n == Begin(c) || n == End(c) ==>
      Occurrences(RemovePair(q, c), n) == (if Occurrences(q, n) > 0 then Occurrences(q, n) - 1 else 0)
    ensures n != Begin(c) && n != End(c) ==> Occurrences(RemovePair(q, c), n) == Occurrences(q, n)
  {
    var r1 := RemoveFirst(q, Begin(c));
    RemoveFirstCount(q, Begin(c), n);
    RemoveFirstCount(r1, End(c), n);
    assert Begin(c) != End(c);
  }

  /** Each listed occurrence of a command removes one of its begins and one
      of its ends, as long as there are any; all other notifications stay. */
  lemma {:induction false} RemovePairsCount<C>(q: seq<Note<C>>, cmds: seq<C>, n: Note<C>)
    ensures IsEnd(n) || n == Begin(n.cmd) ==>
      Occurrences(RemovePairs(q, cmds), n)
        == (if Occurrences(q, n) > Occurrences(cmds, n.cmd) then Occurrences(q, n) - Occurrences(cmds, n.cmd) else 0)
    ensures !IsEnd(n) && n != Begin(n.cmd) ==> Occurrences(RemovePairs(q, cmds), n) == Occurrences(q, n)
    decreases |cmds|
  {
    if |cmds| > 0 {
      var c := cmds[0];
      RemovePairCount(q, c, n);
      RemovePairsCount(RemovePair(q, c), cmds[1..], n);
      assert cmds == [c] + cmds[1..];
      assert Occurrences(cmds, n.cmd) == (if c == n.cmd then 1 else 0) + Occurrences(cmds[1..], n.cmd);
    }
  }

  /** cleanNotificationQueue leaves no end notification, keeps for each
      command only the begins that outnumber its ends, and keeps every other
      notification. */
  lemma CleanedCounts<C>(q: seq<Note<C>>, cmd: C)
    ensures Occurrences(Cleaned(q), End(cmd)) == 0
    ensures Occurrences(Cleaned(q), Begin(cmd))
      == if Occurrences(q, Begin(cmd)) > Occurrences(q, End(cmd))
         then Occurrences(q, Begin(cmd)) - Occurrences(q, End(cmd)) else 0
  {
    EndCmdsCount(q, cmd);
    RemovePairsCount(q, EndCmds(q), End(cmd));
    RemovePairsCount(q, EndCmds(q), Begin(cmd));
  }

  /** ... and every notification that is neither a begin nor an end stays. */
  lemma CleanedKeepsOthers<C>(q: seq<Note<C>>, n: Note<C>)
    requires !IsEnd(n) && n != Begin(n.cmd)
    ensures Occurrences(Cleaned(q), n) == Occurrences(q, n)
  {
    RemovePairsCount(q, EndCmds(q), n);
  }

  lemma {:induction false} RemovePairsSubseq<C>(q: seq<Note<C>>, cmds: seq<C>)
    ensures Subseq(RemovePairs(q, cmds), q)
    decreases |cmds|
  {
    if |cmds| == 0 {
      SubseqRefl(q);
    } else {
      var c := cmds[0];
      RemoveFirstSubseq(q, Begin(c));
      RemoveFirstSubseq(RemoveFirst(q, Begin(c)), End(c));
      SubseqTrans(RemovePair(q, c), RemoveFirst(q, Begin(c)), q);
      RemovePairsSubseq(RemovePair(q, c), cmds[1..]);
      SubseqTrans(RemovePairs(q, cmds), RemovePair(q, c), q);
    }
  }

  /** The survivors of cleanNotificationQueue keep their relative order. */
  lemma CleanedKeepsOrder<C>(q: seq<Note<C>>)
    ensures Subseq(Cleaned(q), q)
  {
    RemovePairsSubseq(q, EndCmds(q));
  }

  /** The notifications of one command. */
  ghost predicate Mentions<C>(q: seq<Note<C>>, cmd: C)
  {
    exists i :: 0 <= i < |q| && q[i].cmd == cmd
  }

  lemma {:induction false} RemovePairsAppend<C>(q: seq<Note<C>>, t: seq<Note<C>>, cmds: seq<C>, cmd: C)
    requires forall i :: 0 <= i < |t| ==> t[i].cmd == cmd
    requires cmd !in cmds
    ensures RemovePairs(q + t, cmds) == RemovePairs(q, cmds) + t
    decreases |cmds|
  {
    if |cmds| > 0 {
      var c := cmds[0];
      assert Begin(c) !in t && End(c) !in t;
      RemoveFirstAppend(q, t, Begin(c));
      RemoveFirstAppend(RemoveFirst(q, Begin(c)), t, End(c));
      RemovePairsAppend(RemovePair(q, c), t, cmds[1..], cmd);
    }
  }

  lemma {:induction false} EndCmdsMention<C>(q: seq<Note<C>>, cmd: C)
    requires !Mentions(q, cmd)
    ensures cmd !in EndCmds(q)
  {
    if |q| > 0 {
      EndCmdsMention(q[..|q| - 1], cmd);
    }
  }

  /** A command that began and ended, after everything already queued, leaves
      no trace once the queue is cleaned. */
  lemma CleanedForgetsFinishedCommand<C>(q: seq<Note<C>>, cmd: C)
    requires !Mentions(q, cmd)
    ensures Cleaned(q + [Begin(cmd), End(cmd)]) == Cleaned(q)
  {
    var t := [Begin(cmd), End(cmd)];
    var q' := q + t;
    assert q'[..|q'| - 1] == q + [Begin(cmd)];
    assert (q + [Begin(cmd)])[..|q|] == q;
    assert EndCmds(q + [Begin(cmd)]) == EndCmds(q);
    assert EndCmds(q') == EndCmds(q) + [cmd];
    EndCmdsMention(q, cmd);
    assert forall i :: 0 <= i < |t| ==> t[i].cmd == cmd;
    RemovePairsToLast(q', EndCmds(q), cmd);
    RemovePairsAppend(q, t, EndCmds(q), cmd);
    var r := RemovePairs(q, EndCmds(q));
    RemovePairsSubseq(q, EndCmds(q));
    SubseqMentions(r, q, cmd);
    assert Begin(cmd) !in r && End(cmd) !in r;
    RemoveFirstAfter(r, t, Begin(cmd));
    assert RemoveFirst(t, Begin(cmd)) == [End(cmd)];
    RemoveFirstAfter(r, [End(cmd)], End(cmd));
    assert RemoveFirst([End(cmd)], End(cmd)) == [];
    assert r + [] == r;
  }

  /** Removing the pairs of cmds and then of one more command. */
  lemma {:induction false} RemovePairsToLast<C>(q: seq<Note<C>>, cmds: seq<C>, cmd: C)
    ensures RemovePairs(q, cmds + [cmd]) == RemovePair(RemovePairs(q, cmds), cmd)
    decreases |cmds|
  {
    if |cmds| == 0 {
      assert cmds + [cmd] == [cmd];
    } else {
      assert (cmds + [cmd])[1..] == cmds[1..] + [cmd];
      RemovePairsToLast(RemovePair(q, cmds[0]), cmds[1..], cmd);
    }
  }

  lemma {:induction false} SubseqMentions<C>(a: seq<Note<C>>, b: seq<Note<C>>, cmd: C)
    requires Subseq(a, b) && !Mentions(b, cmd)
    ensures !Mentions(a, cmd)
    decreases |b|
  {
    if |a| > 0 {
      assert !Mentions(b[1..], cmd) by {
        forall i | 0 <= i < |b| - 1 ensures b[1..][i].cmd != cmd {
          assert b[1..][i] == b[i + 1];
        }
      }
      if a[0] == b[0] && Subseq(a[1..], b[1..]) {
        SubseqMentions(a[1..], b[1..], cmd);
        assert a == [a[0]] + a[1..];
      } else {
        SubseqMentions(a, b[1..], cmd);
      }
    }
  }

  /** A begin queued and auto-popped at the end leaves the queue as it was. */
  lemma AutoPopRestoresQueue<C>(q: seq<Note<C>>, cmd: C)
    requires Begin(cmd) !in q
    ensures RemoveFirst(q + [Begin(cmd)], Begin(cmd)) == q
  {
    RemoveFirstAfter(q, [Begin(cmd)], Begin(cmd));
    assert RemoveFirst([Begin(cmd)], Begin(cmd)) == [];
    assert q + [] == q;
  }

  /** cleanNotificationQueue's two loops on a queue value: collect the
      commands of the end notifications, then remove, for each, its begin and
      its end. */
  method CleanQueue<C(==)>(q: seq<Note<C>>) returns (r: seq<Note<C>>)
    ensures r == Cleaned(q)
  {
    var deletes: seq<C> := [];
    var i := 0;
    while i < |q|
      invariant 0 <= i <= |q|
      invariant deletes == EndCmds(q[..i])
    {
      assert q[..i + 1][..i] == q[..i];
      if q[i].oldValue == Active && q[i].newValue == Inactive {
        deletes := deletes + [q[i].cmd];
      }
      i := i + 1;
    }
    assert q[..i] == q;
    r := q;
    var j := 0;
    while j < |deletes|
      invariant 0 <= j <= |deletes|
      invariant RemovePairs(r, deletes[j..]) == Cleaned(q)
    {
      assert deletes[j..][1..] == deletes[j + 1..];
      r := RemoveFirst(r, Note(deletes[j], Inactive, Active));
      r := RemoveFirst(r, Note(deletes[j], Active, Inactive));
      j := j + 1;
    }
  }

  /** What a listener receives: a broadcast to every listener of the set (in
      the set's iteration order, which is not modelled), or one replayed
      notification to a listener just added. */
  datatype Event<C, L> = Broadcast(to: set<L>, note: Note<C>) | Replayed(listener: L, note: Note<C>)

  /** The replay a new listener receives: the whole queue, in order. */
  function Replay<C, L>(listener: L, q: seq<Note<C>>): (r: seq<Event<C, L>>)
    ensures |r| == |q|
    ensures forall i :: 0 <= i < |q| ==> r[i] == Replayed(listener, q[i])
  {
    seq(|q|, i requires 0 <= i < |q| => Replayed(listener, q[i]))
  }

  class Model<C(==), L(==)> {
    var delayedListenerSupport: bool
    /** m_qCmdStateNotification. */
    var queue: seq<Note<C>>
    /** m_setModelChangeListener. */
    var listeners: set<L>
    /** Every notification sent to listeners, in the order sent. */
    var events: seq<Event<C, L>>
    /** m_mapLastMessage, keyed by the command's name; HashMap allows null values. */
    var lastMessage: map<string, MsgInfo.MsgInfo?>

    constructor ()
      ensures !delayedListenerSupport && queue == [] && listeners == {} && events == []
      ensures lastMessage == map[]
    {
      delayedListenerSupport, queue, listeners, events := false, [], {}, [];
      lastMessage := map[];
    }

    /** Model.isDelayedListenerSupported. */
    predicate IsDelayedListenerSupported()
      reads this
      ensures IsDelayedListenerSupported() == delayedListenerSupport
    {
      delayedListenerSupport
    }

    /** Model.setDelayedListenerSupported. */
    method SetDelayedListenerSupported(state: bool)
      modifies this
      ensures delayedListenerSupport == state
      ensures queue == old(queue) && listeners == old(listeners) && events == old(events)
      ensures lastMessage == old(lastMessage)
    {
      delayedListenerSupport := state;
    }

    /** DelayedListenerCommand.onExecBegin: tell the listeners the command is
        active and, with delayed-listener support, queue the begin notification
        for listeners still to come. */
    method OnExecBegin(cmd: C)
      modifies this
      ensures events == old(events) + [Broadcast(listeners, Begin(cmd))]
      ensures queue == old(queue) + (if delayedListenerSupport then [Begin(cmd)] else [])
      ensures listeners == old(listeners) && delayedListenerSupport == old(delayedListenerSupport)
      ensures lastMessage == old(lastMessage)
    {
      events := events + [Broadcast(listeners, Note(cmd, Inactive, Active))];
      if IsDelayedListenerSupported() {
        queue := queue + [Note(cmd, Inactive, Active)];
      }
    }

    /** DelayedListenerCommand.onExecEnd: tell the listeners the command is
        inactive (with no listener, the error-dialog branch, which is not
        modelled); then, with delayed-listener support, an auto-pop or
        straggler command takes its begin notification off the queue and any
        other command queues its end notification. */
    method OnExecEnd(cmd: C, autoPop: bool, straggler: bool)
      modifies this
      ensures events == old(events) + (if listeners == {} then [] else [Broadcast(listeners, End(cmd))])
      ensures !delayedListenerSupport ==> queue == old(queue)
      ensures delayedListenerSupport && (autoPop || straggler) ==> queue == RemoveFirst(old(queue), Begin(cmd))
      ensures delayedListenerSupport && !autoPop && !straggler ==> queue == old(queue) + [End(cmd)]
      ensures listeners == old(listeners) && delayedListenerSupport == old(delayedListenerSupport)
      ensures lastMessage == old(lastMessage)
    {
      if listeners != {} {
        events := events + [Broadcast(listeners, Note(cmd, Active, Inactive))];
      }
      if IsDelayedListenerSupported() {
        if autoPop || straggler {
          queue := RemoveFirst(queue, Note(cmd, Inactive, Active));
        } else {
          queue := queue + [Note(cmd, Active, Inactive)];
        }
      }
    }

    /** Model.addModelChangeListener: a listener not yet in the set is added
        and sent every queued notification, in queue order; adding it again
        does nothing. */
    method AddModelChangeListener(listener: L)
      modifies this
      ensures listeners == old(listeners) + {listener}
      ensures events == old(events) + (if listener in old(listeners) then [] else Replay(listener, queue))
      ensures queue == old(queue) && delayedListenerSupport == old(delayedListenerSupport)
      ensures lastMessage == old(lastMessage)
    {
      if listener in listeners {
        return;
      }
      listeners := listeners + {listener};
      var i := 0;
      while i < |queue|
        invariant 0 <= i <= |queue|
        invariant events == old(events) + Replay(listener, queue[..i])
        invariant queue == old(queue) && listeners == old(listeners) + {listener}
        invariant lastMessage == old(lastMessage) && delayedListenerSupport == old(delayedListenerSupport)
      {
        var notification := queue[i];
        assert Replay(listener, queue[..i + 1]) == Replay(listener, queue[..i]) + [Replayed(listener, notification)];
        events := events + [Replayed(listener, notification)];
        i := i + 1;
      }
      assert queue[..i] == queue;
    }

    /** Model.removeModelChangeListener. */
    method RemoveModelChangeListener(listener: L)
      modifies this
      ensures listeners == old(listeners) - {listener}
      ensures queue == old(queue) && events == old(events)
      ensures lastMessage == old(lastMessage) && delayedListenerSupport == old(delayedListenerSupport)
    {
      listeners := listeners - {listener};
    }

    /** Model.cleanNotificationQueue. */
    method CleanNotificationQueue()
      modifies this
      ensures queue == Cleaned(old(queue))
      ensures listeners == old(listeners) && events == old(events)
      ensures lastMessage == old(lastMessage) && delayedListenerSupport == old(delayedListenerSupport)
    {
      queue := CleanQueue(queue);
    }

    /** Model.clearLastMessages. */
    method ClearLastMessages()
      modifies this
      ensures lastMessage == map[]
      ensures queue == old(queue) && listeners == old(listeners) && events == old(events)
      ensures delayedListenerSupport == old(delayedListenerSupport)
    {
      lastMessage := map[];
    }

    /** Model.clearLastMessage. */
    method ClearLastMessage(command: string)
      modifies this
      ensures lastMessage == old(lastMessage) - {command}
      ensures GetLastMessage(command) == null
      ensures queue == old(queue) && listeners == old(listeners) && events == old(events)
      ensures delayedListenerSupport == old(delayedListenerSupport)
    {
      lastMessage := lastMessage - {command};
    }

    /** Model.getLastMessage(command): null for a command with no message. */
    function GetLastMessage(command: string): (r: MsgInfo.MsgInfo?)
      reads this
      ensures command !in lastMessage ==> r == null
      ensures command in lastMessage ==> r == lastMessage[command]
    {
      if command in lastMessage then lastMessage[command] else null
    }

    /** Model.setLastMessage: the message is what getLastMessage returns next,
        and the other commands' messages are kept. */
    method SetLastMessage(command: string, msgInfo: MsgInfo.MsgInfo?)
      modifies this
      ensures lastMessage == old(lastMessage)[command := msgInfo]
      ensures GetLastMessage(command) == msgInfo
      ensures forall c :: c != command ==> GetLastMessage(c) == old(GetLastMessage(c))
      ensures queue == old(queue) && listeners == old(listeners) && events == old(events)
      ensures delayedListenerSupport == old(delayedListenerSupport)
    {
      lastMessage := lastMessage[command := msgInfo];
    }

    /** Model.getLastMessage(command, flags): the stored record itself, with
        the flags ORed into it. */
    method GetLastMessageWithFlags(command: string, flags: bv32) returns (r: MsgInfo.MsgInfo?)
      modifies if command in lastMessage && lastMessage[command] != null then {lastMessage[command]} else {}
      ensures r == GetLastMessage(command)
      ensures r != null ==> r.flags == old(r.flags) | flags
      ensures r != null ==> r.msg == old(r.msg) && r.msgId == old(r.msgId) && r.msgType == old(r.msgType)
    {
      r := GetLastMessage(command);
      if r != null {
        r.flags := r.flags | flags;
      }
    }
  }
}
