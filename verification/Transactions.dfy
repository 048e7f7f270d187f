/** MULTI, EXEC and DISCARD over whole runs of commands from many connections. */
module Transactions {
  import opened GoStrings
  import opened Resp
  import opened Hosts
  import opened Runs

  // ----- whose transaction a command touches

  /** What one connection has open: nothing, or the commands since its MULTI. */
  type Pending = Option<Queue>

  function PendingOf(h: Host, c: ConnId): Pending {
    if c in h.tx then Some(h.tx[c]) else None
  }

  /** The protocol of one connection's own commands. */
  function NextPending(p: Pending, content: string, arr: seq<Resp>): Pending {
    var name := Lower(content);
    var verb := VerbOf(name);
    match p
    case None => if verb.Multi? then Some([]) else None
    case Some(queue) =>
      if verb.Exec? || verb.Discard? then None
      else
        QueueableName(content, arr);
        Some(queue + [Queued(name, arr)])
  }

  lemma {:induction false} InTransaction(env: Env, h: Host, d: ConnId, content: string, arr: seq<Resp>)
    requires d in h.tx && !VerbOf(Lower(content)).Exec? && !VerbOf(Lower(content)).Discard?
    ensures Queueable(Queued(Lower(content), arr))
    ensures Handle(env, h, d, content, arr).0.tx == h.tx[d := h.tx[d] + [Queued(Lower(content), arr)]]
  {
    QueueableName(content, arr);
  }

  lemma {:induction false} OnDiscard(env: Env, h: Host, d: ConnId, content: string, arr: seq<Resp>)
    requires VerbOf(Lower(content)).Discard?
    ensures Handle(env, h, d, content, arr).0.tx == if d in h.tx then h.tx - {d} else h.tx
  {
  }

  lemma {:induction false} OutsideTransaction(env: Env, h: Host, d: ConnId, content: string, arr: seq<Resp>)
    requires d !in h.tx
    ensures Handle(env, h, d, content, arr).0.tx == if VerbOf(Lower(content)).Multi? then h.tx[d := []] else h.tx
  {
  }

  /** A command other than EXEC leaves, removes, opens or extends the transaction under its own id. */
  lemma {:induction false} TransactionsAfter(env: Env, h: Host, d: ConnId, content: string, arr: seq<Resp>)
    requires !VerbOf(Lower(content)).Exec?
    ensures var tx := Handle(env, h, d, content, arr).0.tx;
            || tx == h.tx || tx == h.tx - {d} || tx == h.tx[d := []]
            || (d in h.tx && Queueable(Queued(Lower(content), arr))
                && tx == h.tx[d := h.tx[d] + [Queued(Lower(content), arr)]])
  {
    if VerbOf(Lower(content)).Discard? {
      OnDiscard(env, h, d, content, arr);
    } else if d in h.tx {
      InTransaction(env, h, d, content, arr);
    } else {
      OutsideTransaction(env, h, d, content, arr);
    }
  }

  lemma {:induction false} OthersMoveNoOther(env: Env, h: Host, d: ConnId, content: string, arr: seq<Resp>, c: ConnId)
    requires !VerbOf(Lower(content)).Exec? && c != d
    ensures PendingOf(Handle(env, h, d, content, arr).0, c) == PendingOf(h, c)
  {
    TransactionsAfter(env, h, d, content, arr);
  }

  /** A queued command touches no transaction but that of the zero id. */
  lemma {:induction false} QueuedCommandFrame(env: Env, h: Host, d: ConnId, q: Queued, c: ConnId)
    requires Queueable(q) && c != d
    ensures PendingOf(Handle(env, h, d, q.command, q.arr).0, c) == PendingOf(h, c)
  {
    OthersMoveNoOther(env, h, d, q.command, q.arr, c);
  }

  lemma {:induction false} RunQueueFrame(env: Env, h: Host, queue: Queue, replies: seq<string>, c: ConnId)
    requires c != NO_CONN
    ensures PendingOf(RunQueue(env, h, queue, replies).0, c) == PendingOf(h, c)
    decreases |queue|
  {
    if queue != [] {
      var q := queue[0];
      assert Queueable(q);
      QueuedCommandFrame(env, h, NO_CONN, q, c);
      var (h', out) := Handle(env, h, NO_CONN, q.command, q.arr);
      if out.Text? {
        RunQueueFrame(env, h', queue[1..], replies + [out.text], c);
      }
    }
  }

  lemma {:induction false} ExecMovesOwn(env: Env, h: Host, d: ConnId, content: string, arr: seq<Resp>, c: ConnId)
    requires c != NO_CONN && VerbOf(Lower(content)).Exec?
    ensures PendingOf(Handle(env, h, d, content, arr).0, c) == if c == d then None else PendingOf(h, c)
  {
    if d in h.tx {
      RunQueueFrame(env, h.(tx := h.tx - {d}), h.tx[d], [], c);
    }
  }

  lemma {:induction false} OthersMoveOwn(env: Env, h: Host, c: ConnId, content: string, arr: seq<Resp>)
    requires !VerbOf(Lower(content)).Exec?
    ensures PendingOf(Handle(env, h, c, content, arr).0, c) == NextPending(PendingOf(h, c), content, arr)
  {
    if VerbOf(Lower(content)).Discard? {
      OnDiscard(env, h, c, content, arr);
    } else if c in h.tx {
      InTransaction(env, h, c, content, arr);
    } else {
      OutsideTransaction(env, h, c, content, arr);
    }
  }

  /** A command moves its own connection's transaction by the protocol and no other one. */
  lemma {:induction false} HandleMovesOwn(env: Env, h: Host, d: ConnId, content: string, arr: seq<Resp>, c: ConnId)
    requires c != NO_CONN
    ensures PendingOf(Handle(env, h, d, content, arr).0, c) ==
            if c == d then NextPending(PendingOf(h, c), content, arr) else PendingOf(h, c)
  {
    if VerbOf(Lower(content)).Exec? {
      ExecMovesOwn(env, h, d, content, arr, c);
    } else if c == d {
      OthersMoveOwn(env, h, c, content, arr);
    } else {
      OthersMoveNoOther(env, h, d, content, arr, c);
    }
  }

  // ----- what holds of every queued command

  ghost predicate EveryQueued(fine: Queued -> bool, h: Host) {
    forall c :: c in h.tx ==> forall i :: 0 <= i < |h.tx[c]| ==> fine(h.tx[c][i])
  }

  lemma {:induction false} OneMoreQueued(fine: Queued -> bool, queue: seq<Queued>, q: Queued)
    requires fine(q) && forall i :: 0 <= i < |queue| ==> fine(queue[i])
    ensures forall i :: 0 <= i < |queue + [q]| ==> fine((queue + [q])[i])
  {
  }

  lemma {:induction false} SimpleKeepsQueues(env: Env, h: Host, conn: ConnId, content: string, arr: seq<Resp>, fine: Queued -> bool)
    requires !VerbOf(Lower(content)).Exec? && EveryQueued(fine, h)
    requires conn in h.tx ==> VerbOf(Lower(content)).Discard? || fine(Queued(Lower(content), arr))
    ensures EveryQueued(fine, Handle(env, h, conn, content, arr).0)
  {
    if VerbOf(Lower(content)).Discard? {
      OnDiscard(env, h, conn, content, arr);
    } else if conn in h.tx {
      InTransaction(env, h, conn, content, arr);
      OneMoreQueued(fine, h.tx[conn], Queued(Lower(content), arr));
    } else {
      OutsideTransaction(env, h, conn, content, arr);
    }
  }

  lemma {:induction false} RunQueueKeepsQueues(env: Env, h: Host, queue: Queue, replies: seq<string>, fine: Queued -> bool)
    requires EveryQueued(fine, h) && forall i :: 0 <= i < |queue| ==> fine(queue[i])
    ensures EveryQueued(fine, RunQueue(env, h, queue, replies).0)
    decreases |queue|
  {
    if queue != [] {
      var q := queue[0];
      assert Queueable(q) && fine(q);
      var (h1, out) := Handle(env, h, NO_CONN, q.command, q.arr);
      RunQueueFirst(env, h, queue, replies, h1, out);
      assert Queued(Lower(q.command), q.arr) == q;
      SimpleKeepsQueues(env, h, NO_CONN, q.command, q.arr, fine);
      if out.Text? {
        RunQueueKeepsQueues(env, h1, queue[1..], replies + [out.text], fine);
      }
    }
  }

  /** If every queued command is fine, and so is the next one in case it is queued, it stays so, EXEC included. */
  lemma {:induction false} HandleKeepsQueues(env: Env, h: Host, conn: ConnId, content: string, arr: seq<Resp>, fine: Queued -> bool)
    requires EveryQueued(fine, h)
    requires conn in h.tx ==>
               VerbOf(Lower(content)).Exec? || VerbOf(Lower(content)).Discard? || fine(Queued(Lower(content), arr))
    ensures EveryQueued(fine, Handle(env, h, conn, content, arr).0)
  {
    if VerbOf(Lower(content)).Exec? {
      if conn in h.tx {
        RunQueueKeepsQueues(env, h.(tx := h.tx - {conn}), h.tx[conn], [], fine);
      }
    } else {
      SimpleKeepsQueues(env, h, conn, content, arr, fine);
    }
  }

  // ----- whole runs

  /** One command that arrives on a connection. */
  datatype Event = Event(conn: ConnId, content: string, arr: seq<Resp>)

  function Serve(env: Env): (Host, Event) -> Host {
    (h: Host, e: Event) => Handle(env, h, e.conn, e.content, e.arr).0
  }

  function VerbAt(e: Event): Verb {
    VerbOf(Lower(e.content))
  }

  predicate Begins(e: Event, c: ConnId) {
    e.conn == c && VerbAt(e).Multi?
  }

  predicate Ends(e: Event, c: ConnId) {
    e.conn == c && (VerbAt(e).Exec? || VerbAt(e).Discard?)
  }

  /** No EXEC or DISCARD of `c` among the events from `i` up to `j`. */
  ghost predicate Unended(events: seq<Event>, c: ConnId, i: nat, j: nat) {
    forall k :: i <= k < j && k < |events| ==> !Ends(events[k], c)
  }

  /** Event `i` is the MULTI with which the transaction of `c` that is still open began. */
  ghost predicate OpenedAt(events: seq<Event>, c: ConnId, i: nat) {
    && i < |events| && Begins(events[i], c)
    && Unended(events, c, i, |events|)
    && (forall j :: 0 <= j < i && Begins(events[j], c) ==> !Unended(events, c, j, i))
  }

  /** The commands of `c` in order, as they are queued. */
  function CommandsOf(events: seq<Event>, c: ConnId): seq<Queued> {
    if events == [] then []
    else
      var e := events[|events| - 1];
      CommandsOf(events[..|events| - 1], c) + if e.conn == c then [Queued(Lower(e.content), e.arr)] else []
  }

  /** The protocol of one connection, run over the events of all connections. */
  function PendingAfter(events: seq<Event>, c: ConnId): Pending {
    if events == [] then None
    else
      var e := events[|events| - 1];
      var p := PendingAfter(events[..|events| - 1], c);
      if e.conn == c then NextPending(p, e.content, e.arr) else p
  }

  lemma {:induction false} RunFollowsProtocol(env: Env, h: Host, events: seq<Event>, c: ConnId)
    requires c != NO_CONN && c !in h.tx
    ensures PendingOf(Run(Serve(env), h, events), c) == PendingAfter(events, c)
    decreases |events|
  {
    if events != [] {
      var init, e := events[..|events| - 1], events[|events| - 1];
      RunFollowsProtocol(env, h, init, c);
      assert events == init + [e];
      RunConcat(Serve(env), h, init, [e]);
      var before := Run(Serve(env), h, init);
      RunOne(Serve(env), before, e);
      HandleMovesOwn(env, before, e.conn, e.content, e.arr, c);
    }
  }

  /** An open transaction of the protocol goes back to one MULTI and holds the commands since. */
  ghost predicate Explains(events: seq<Event>, c: ConnId, p: Pending) {
    && (p.Some? ==> exists i: nat :: OpenedAt(events, c, i) && p.value == CommandsOf(events[i + 1..], c))
    && (p.None? ==> forall i: nat :: !OpenedAt(events, c, i))
  }

  lemma {:induction false} OpenedBefore(init: seq<Event>, e: Event, c: ConnId, i: nat)
    requires i < |init|
    ensures OpenedAt(init + [e], c, i) <==> OpenedAt(init, c, i) && !Ends(e, c)
  {
    var events := init + [e];
    assert forall k :: 0 <= k < |init| ==> events[k] == init[k];
    assert events[|init|] == e;
    forall j | 0 <= j <= i
      ensures Unended(events, c, j, i) <==> Unended(init, c, j, i)
    {
    }
  }

  /** A new MULTI opens a transaction exactly when none is open. */
  lemma {:induction false} OpenedNow(init: seq<Event>, e: Event, c: ConnId)
    ensures OpenedAt(init + [e], c, |init|) <==> Begins(e, c) && forall j: nat :: !OpenedAt(init, c, j)
  {
    var events, n := init + [e], |init|;
    assert forall k :: 0 <= k < n ==> events[k] == init[k];
    assert events[n] == e;
    assert forall j: nat :: Unended(events, c, j, n) <==> Unended(init, c, j, n);
    if j: nat :| OpenedAt(init, c, j) {
      assert Begins(events[j], c) && Unended(events, c, j, n);
    }
    if j: nat :| j < n && Begins(init[j], c) && Unended(init, c, j, n) {
      FirstOpens(init, c, j);
    }
  }

  /** If a MULTI has not been ended, the first one not ended is the one that opened. */
  lemma {:induction false} FirstOpens(events: seq<Event>, c: ConnId, j: nat)
    requires j < |events| && Begins(events[j], c) && Unended(events, c, j, |events|)
    ensures exists i: nat :: OpenedAt(events, c, i)
    decreases j
  {
    if !OpenedAt(events, c, j) {
      var k :| 0 <= k < j && Begins(events[k], c) && Unended(events, c, k, j);
      FirstOpens(events, c, k);
    }
  }

  /** A further event leaves an open transaction where it began, with one more command of its connection. */
  lemma {:induction false} StillOpened(init: seq<Event>, e: Event, c: ConnId, i: nat)
    requires OpenedAt(init, c, i) && !Ends(e, c)
    ensures OpenedAt(init + [e], c, i)
    ensures CommandsOf((init + [e])[i + 1..], c) ==
            CommandsOf(init[i + 1..], c) + if e.conn == c then [Queued(Lower(e.content), e.arr)] else []
  {
    OpenedBefore(init, e, c, i);
    var since := init[i + 1..];
    assert (init + [e])[i + 1..] == since + [e];
    assert (since + [e])[..|since|] == since;
  }

  lemma {:induction false} ProtocolIsExplained(events: seq<Event>, c: ConnId)
    ensures Explains(events, c, PendingAfter(events, c))
    decreases |events|
  {
    if events != [] {
      var init, e, n := events[..|events| - 1], events[|events| - 1], |events| - 1;
      assert events == init + [e];
      ProtocolIsExplained(init, c);
      var p, p' := PendingAfter(init, c), PendingAfter(events, c);
      forall i: nat | i < n
        ensures OpenedAt(events, c, i) <==> OpenedAt(init, c, i) && !Ends(e, c)
      {
        OpenedBefore(init, e, c, i);
      }
      OpenedNow(init, e, c);
      if p.Some? && p'.Some? {
        var i: nat :| OpenedAt(init, c, i) && p.value == CommandsOf(init[i + 1..], c);
        StillOpened(init, e, c, i);
      } else if p'.Some? {
        assert OpenedAt(events, c, n);
        assert events[n + 1..] == [];
      }
    }
  }

  /**
    For every interleaving of connections, starting without transactions: connection `c` has a queue
    exactly when one of its MULTIs has no later EXEC or DISCARD, and the queue then holds exactly its
    commands since the first such MULTI, in order, whatever the other connections did.
  */
  lemma {:induction false} QueuesOverRuns(env: Env, h: Host, events: seq<Event>, c: ConnId)
    requires c != NO_CONN && c !in h.tx
    ensures var tx := Run(Serve(env), h, events).tx;
            && (c in tx <==> exists i: nat :: OpenedAt(events, c, i))
            && (c in tx ==> exists i: nat :: OpenedAt(events, c, i) && tx[c] == CommandsOf(events[i + 1..], c))
  {
    RunFollowsProtocol(env, h, events, c);
    ProtocolIsExplained(events, c);
  }
}
