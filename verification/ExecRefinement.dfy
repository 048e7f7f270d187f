/** EXEC compared with running the queued commands one by one on the connection itself. */
module ExecRefinement {
  import opened GoStrings
  import opened Resp
  import opened Hosts
  import opened Runs
  import opened Transactions

  /** Running commands one by one on a connection, up to the first that does not answer. */
  function OneByOne(env: Env, h: Host, conn: ConnId, queue: Queue): (Host, seq<Outcome>)
    decreases |queue|
  {
    if queue == [] then (h, [])
    else
      var (h', out) := Handle(env, h, conn, queue[0].command, queue[0].arr);
      if !out.Text? then (h', [out])
      else
        var (h'', outs) := OneByOne(env, h', conn, queue[1..]);
        (h'', [out] + outs)
  }

  /** All commands answered, or the last outcome is the error that stopped them. */
  predicate AllTexts(outs: seq<Outcome>) {
    forall o :: o in outs ==> o.Text?
  }

  function Texts(outs: seq<Outcome>): seq<string>
    requires AllTexts(outs)
  {
    seq(|outs|, i requires 0 <= i < |outs| => assert outs[i] in outs; outs[i].text)
  }

  function Summary(outs: seq<Outcome>, before: seq<string>): Outcome {
    if AllTexts(outs) then Text(JoinReplies(before + Texts(outs)))
    else if outs[|outs| - 1].Crash? then Crash else Failure
  }

  lemma {:induction false} RunQueueIsOneByOne(env: Env, h: Host, queue: Queue, replies: seq<string>)
    ensures var (h', outs) := OneByOne(env, h, NO_CONN, queue);
            RunQueue(env, h, queue, replies) == (h', Summary(outs, replies))
    decreases |queue|
  {
    if queue == [] {
      assert replies + Texts([]) == replies;
    } else {
      assert Queueable(queue[0]);
      var (h', out) := Handle(env, h, NO_CONN, queue[0].command, queue[0].arr);
      if out.Text? {
        RunQueueIsOneByOne(env, h', queue[1..], replies + [out.text]);
        SummaryCons(out, OneByOne(env, h', NO_CONN, queue[1..]).1, replies);
      } else {
        assert out in [out];
      }
    }
  }

  lemma {:induction false} SummaryCons(out: Outcome, outs: seq<Outcome>, replies: seq<string>)
    requires out.Text?
    ensures Summary([out] + outs, replies) == Summary(outs, replies + [out.text])
  {
    var all := [out] + outs;
    assert AllTexts(all) <==> AllTexts(outs) by {
      assert forall o :: o in outs ==> o in all;
    }
    if AllTexts(all) {
      assert replies + Texts(all) == replies + [out.text] + Texts(outs);
    } else {
      assert outs != [];
    }
  }

  // ----- when the zero id has no transaction

  /** Outside a transaction the connection id of a command other than MULTI makes no difference. */
  lemma {:induction false} IdDoesNotMatter(env: Env, h: Host, c: ConnId, d: ConnId, q: Queued)
    requires Queueable(q) && !VerbOf(q.command).Multi?
    requires c !in h.tx && d !in h.tx
    ensures Handle(env, h, c, q.command, q.arr) == Handle(env, h, d, q.command, q.arr)
    ensures Handle(env, h, c, q.command, q.arr).0.tx == h.tx
  {
  }

  /** Run one by one, the queue comes to a MULTI before anything fails. */
  predicate ReachesMulti(env: Env, h: Host, queue: Queue)
    decreases |queue|
  {
    && queue != []
    && (VerbOf(queue[0].command).Multi? ||
        var (h', out) := Handle(env, h, NO_CONN, queue[0].command, queue[0].arr);
        out.Text? && ReachesMulti(env, h', queue[1..]))
  }

  predicate HoldsMulti(queue: Queue) {
    exists i :: 0 <= i < |queue| && VerbOf(queue[i].command).Multi?
  }

  /** What can be seen without running the queue: one without a MULTI never comes to one. */
  lemma {:induction false} WithoutMulti(env: Env, h: Host, queue: Queue)
    requires !HoldsMulti(queue)
    ensures !ReachesMulti(env, h, queue)
    decreases |queue|
  {
    if queue != [] {
      assert Queueable(queue[0]);
      var (h', out) := Handle(env, h, NO_CONN, queue[0].command, queue[0].arr);
      assert forall i :: 0 <= i < |queue| - 1 ==> queue[1..][i] == queue[i + 1];
      WithoutMulti(env, h', queue[1..]);
    }
  }

  lemma {:induction false} SameRuns(env: Env, h: Host, c: ConnId, queue: Queue)
    requires c !in h.tx && NO_CONN !in h.tx && !ReachesMulti(env, h, queue)
    ensures OneByOne(env, h, c, queue) == OneByOne(env, h, NO_CONN, queue)
    decreases |queue|
  {
    if queue != [] {
      var q := queue[0];
      assert Queueable(q);
      IdDoesNotMatter(env, h, c, NO_CONN, q);
      var (h', out) := Handle(env, h, NO_CONN, q.command, q.arr);
      if out.Text? {
        SameRuns(env, h', c, queue[1..]);
      }
    }
  }

  // ----- when it has one

  /** A command that finds a transaction open under its id is only queued. */
  lemma {:induction false} JustQueued(env: Env, h: Host, q: Queued)
    requires Queueable(q) && NO_CONN in h.tx
    ensures Handle(env, h, NO_CONN, q.command, q.arr) ==
            (h.(tx := h.tx[NO_CONN := h.tx[NO_CONN] + [q]]), Text(Encode(QUEUED)))
  {
  }

  function Moved(h: Host, queue: Queue): Host
    requires NO_CONN in h.tx
  {
    h.(tx := h.tx[NO_CONN := h.tx[NO_CONN] + queue])
  }

  lemma {:induction false} MovedStepwise(h: Host, q: Queued, rest: Queue)
    requires NO_CONN in h.tx && Queueable(q)
    ensures Moved(h, []) == h
    ensures Moved(Moved(h, [q]), rest) == Moved(h, [q] + rest)
  {
    assert h.tx[NO_CONN] + [] == h.tx[NO_CONN];
    assert h.tx[NO_CONN := h.tx[NO_CONN]] == h.tx;
    assert h.tx[NO_CONN] + [q] + rest == h.tx[NO_CONN] + ([q] + rest);
    assert Moved(Moved(h, [q]), rest).tx == Moved(h, [q] + rest).tx;
  }

  /** With a transaction open under the zero id, a queue is not executed but moved there. */
  lemma {:induction false} ZeroSwallows(env: Env, h: Host, queue: Queue)
    requires NO_CONN in h.tx
    ensures var (h', outs) := OneByOne(env, h, NO_CONN, queue);
            && h' == Moved(h, queue)
            && |outs| == |queue| && forall o :: o in outs ==> o == Text(Encode(QUEUED))
    decreases |queue|
  {
    if queue == [] {
      MovedStepwise(h, Queued("", []), []);
    } else {
      var q, rest := queue[0], queue[1..];
      assert Queueable(q) && queue == [q] + rest;
      JustQueued(env, h, q);
      ZeroSwallows(env, Moved(h, [q]), rest);
      MovedStepwise(h, q, rest);
    }
  }

  lemma {:induction false} MultiOpensZero(env: Env, h: Host, queue: Queue)
    requires NO_CONN !in h.tx && ReachesMulti(env, h, queue)
    ensures NO_CONN in OneByOne(env, h, NO_CONN, queue).0.tx
    decreases |queue|
  {
    var q := queue[0];
    assert Queueable(q);
    var (h', out) := Handle(env, h, NO_CONN, q.command, q.arr);
    if VerbOf(q.command).Multi? {
      ZeroSwallows(env, h', queue[1..]);
    } else {
      IdDoesNotMatter(env, h, NO_CONN, NO_CONN, q);
      MultiOpensZero(env, h', queue[1..]);
    }
  }

  lemma {:induction false} OneByOneFrame(env: Env, h: Host, c: ConnId, queue: Queue, d: ConnId)
    requires c != d
    ensures PendingOf(OneByOne(env, h, c, queue).0, d) == PendingOf(h, d)
    decreases |queue|
  {
    if queue != [] {
      var q := queue[0];
      assert Queueable(q);
      QueuedCommandFrame(env, h, c, q, d);
      var (h', out) := Handle(env, h, c, q.command, q.arr);
      if out.Text? {
        OneByOneFrame(env, h', c, queue[1..], d);
      }
    }
  }

  // ----- the comparison

  function Closed(h: Host, c: ConnId): Host {
    h.(tx := h.tx - {c})
  }

  /** What a caller checks: nothing queued, or no transaction under the zero id now or through a queued MULTI. */
  predicate ExecIsSound(env: Env, h: Host, c: ConnId)
    requires c in h.tx
  {
    h.tx[c] == [] || (NO_CONN !in h.tx && !ReachesMulti(env, Closed(h, c), h.tx[c]))
  }

  /**
    EXEC leaves the server as running the queued commands one by one on the connection would,
    stopping at the first error, if and only if the check holds. The reply then sums up the single
    ones. The queue is gone in any case.
  */
  lemma {:induction false} ExecRefinesIff(env: Env, h: Host, c: ConnId, content: string, arr: seq<Resp>)
    requires c != NO_CONN && c in h.tx && VerbOf(Lower(content)).Exec?
    ensures var (h', out) := Handle(env, h, c, content, arr);
            var (seq', outs) := OneByOne(env, Closed(h, c), c, h.tx[c]);
            && (h' == seq' <==> ExecIsSound(env, h, c))
            && (ExecIsSound(env, h, c) ==> out == Summary(outs, []))
            && c !in h'.tx
  {
    var start, queue := Closed(h, c), h.tx[c];
    RunQueueIsOneByOne(env, start, queue, []);
    HandleMovesOwn(env, h, c, content, arr, c);
    if NO_CONN in h.tx {
      ZeroSwallows(env, start, queue);
      OneByOneFrame(env, start, c, queue, NO_CONN);
      assert queue != [] ==> |h.tx[NO_CONN] + queue| != |h.tx[NO_CONN]|;
    } else if ReachesMulti(env, start, queue) {
      MultiOpensZero(env, start, queue);
      OneByOneFrame(env, start, c, queue, NO_CONN);
    } else {
      SameRuns(env, start, c, queue);
    }
  }

  // ----- runs in which no MULTI is queued

  /** The zero id has no transaction, and no queue has a MULTI in it. */
  ghost predicate Unnested(h: Host) {
    NO_CONN !in h.tx && EveryQueued(NoMulti, h)
  }

  predicate NoMulti(q: Queued) {
    !VerbOf(q.command).Multi?
  }

  /** A client does not send MULTI while it is in a transaction. */
  function NestsNone(): (Host, Event) -> bool {
    (h: Host, e: Event) => e.conn != NO_CONN && (VerbAt(e).Multi? ==> e.conn !in h.tx)
  }

  lemma {:induction false} UnnestedIsSound(env: Env, h: Host, c: ConnId)
    requires Unnested(h) && c in h.tx
    ensures ExecIsSound(env, h, c)
  {
    assert !HoldsMulti(h.tx[c]);
    WithoutMulti(env, Closed(h, c), h.tx[c]);
  }

  lemma {:induction false} QueueKeepsTransactions(env: Env, h: Host, queue: Queue, replies: seq<string>)
    requires NO_CONN !in h.tx && !HoldsMulti(queue)
    ensures RunQueue(env, h, queue, replies).0.tx == h.tx
    decreases |queue|
  {
    if queue != [] {
      var q := queue[0];
      assert Queueable(q);
      var (h1, out) := Handle(env, h, NO_CONN, q.command, q.arr);
      IdDoesNotMatter(env, h, NO_CONN, NO_CONN, q);
      RunQueueFirst(env, h, queue, replies, h1, out);
      if out.Text? {
        assert forall i :: 0 <= i < |queue| - 1 ==> queue[1..][i] == queue[i + 1];
        QueueKeepsTransactions(env, h1, queue[1..], replies + [out.text]);
      }
    }
  }

  lemma {:induction false} StaysUnnested(env: Env, h: Host, e: Event)
    requires Unnested(h) && NestsNone()(h, e)
    ensures Unnested(Serve(env)(h, e))
  {
    HandleKeepsQueues(env, h, e.conn, e.content, e.arr, NoMulti);
    if !VerbAt(e).Exec? {
      OthersMoveNoOther(env, h, e.conn, e.content, e.arr, NO_CONN);
    } else if e.conn in h.tx {
      assert !HoldsMulti(h.tx[e.conn]);
      QueueKeepsTransactions(env, Closed(h, e.conn), h.tx[e.conn], []);
    }
  }

  /**
    As long as no client sends MULTI in a transaction, every EXEC of every client refines the run of its
    commands one by one: the zero id never comes into it.
  */
  lemma {:induction false} RunsStaySound(env: Env, h: Host, events: seq<Event>, c: ConnId)
    requires Unnested(h) && Allowed(Serve(env), NestsNone(), h, events)
    ensures var h' := Run(Serve(env), h, events); c in h'.tx ==> ExecIsSound(env, h', c)
  {
    forall g: Host, e | Unnested(g) && NestsNone()(g, e)
      ensures Unnested(Serve(env)(g, e))
    {
      StaysUnnested(env, g, e);
    }
    Invariant(Serve(env), NestsNone(), Unnested, h, events);
    var h' := Run(Serve(env), h, events);
    if c in h'.tx {
      UnnestedIsSound(env, h', c);
    }
  }

  // ----- the reply of EXEC

  /** Every reply but PSYNC's is the text of one RESP value. */
  lemma {:induction false} ReplyIsValue(env: Env, h: Host, c: ConnId, q: Queued) returns (v: Resp)
    requires Queueable(q) && !VerbOf(q.command).PSync?
    ensures var out := Handle(env, h, c, q.command, q.arr).1; out.Text? ==> out.text == Encode(v)
  {
    var verb := VerbOf(q.command);
    if c in h.tx {
      v := QUEUED;
    } else if verb.Multi? {
      v := OK_RESPONSE;
    } else {
      var answer := Apply(env, h, verb, q.arr).answer;
      v := if answer.Reply? then answer.v else QUEUED;
    }
  }

  lemma {:induction false} RepliesAreValues(env: Env, h: Host, c: ConnId, queue: Queue) returns (vs: seq<Resp>)
    requires forall i :: 0 <= i < |queue| ==> !VerbOf(queue[i].command).PSync?
    ensures var outs := OneByOne(env, h, c, queue).1;
            AllTexts(outs) ==>
              && |vs| == |queue| == |outs|
              && forall i :: 0 <= i < |vs| ==> outs[i] == Text(Encode(vs[i]))
    decreases |queue|
  {
    vs := [];
    if queue != [] {
      assert Queueable(queue[0]);
      var v := ReplyIsValue(env, h, c, queue[0]);
      var (h', out) := Handle(env, h, c, queue[0].command, queue[0].arr);
      if out.Text? {
        var rest := RepliesAreValues(env, h', c, queue[1..]);
        vs := [v] + rest;
        ValuesCons(out, v, OneByOne(env, h', c, queue[1..]).1, rest);
      } else {
        assert out in [out];
      }
    }
  }

  lemma {:induction false} ValuesCons(out: Outcome, v: Resp, outs: seq<Outcome>, vs: seq<Resp>)
    requires out == Text(Encode(v))
    requires AllTexts(outs) ==> |vs| == |outs| && forall i :: 0 <= i < |vs| ==> outs[i] == Text(Encode(vs[i]))
    ensures var all, values := [out] + outs, [v] + vs;
            AllTexts(all) ==> AllTexts(outs) && forall i :: 0 <= i < |values| ==> all[i] == Text(Encode(values[i]))
  {
    assert forall o :: o in outs ==> o in [out] + outs;
  }

  /** A successful EXEC replies with the RESP array of the single replies. */
  lemma {:induction false} ExecReplyIsArray(env: Env, h: Host, c: ConnId, content: string, arr: seq<Resp>)
    returns (vs: seq<Resp>)
    requires c != NO_CONN && c in h.tx && VerbOf(Lower(content)).Exec? && ExecIsSound(env, h, c)
    requires forall i :: 0 <= i < |h.tx[c]| ==> !VerbOf(h.tx[c][i].command).PSync?
    ensures var out := Handle(env, h, c, content, arr).1;
            var outs := OneByOne(env, Closed(h, c), c, h.tx[c]).1;
            && (out.Text? <==> AllTexts(outs))
            && (out.Text? ==> out.text == Encode(Arr(vs)) && |vs| == |h.tx[c]| == |outs|
                              && forall i :: 0 <= i < |vs| ==> outs[i] == Text(Encode(vs[i])))
  {
    ExecRefinesIff(env, h, c, content, arr);
    vs := RepliesAreValues(env, Closed(h, c), c, h.tx[c]);
    var outs := OneByOne(env, Closed(h, c), c, h.tx[c]).1;
    if AllTexts(outs) {
      assert [] + Texts(outs) == Texts(outs);
      JoinIsArray(Texts(outs), vs);
    }
  }

  // ----- after a queued MULTI

  /** EXEC on a server with a transaction under the zero id executes nothing. */
  lemma {:induction false} ExecDoesNothing(env: Env, h: Host, c: ConnId, content: string, arr: seq<Resp>)
    requires c != NO_CONN && NO_CONN in h.tx && VerbOf(Lower(content)).Exec?
    ensures var h' := Handle(env, h, c, content, arr).0;
            h'.store == h.store && h'.log == h.log && NO_CONN in h'.tx
  {
    if c in h.tx {
      RunQueueIsOneByOne(env, Closed(h, c), h.tx[c], []);
      ZeroSwallows(env, Closed(h, c), h.tx[c]);
    }
  }

  /** The zero id's transaction never ends: no client has that id, and no queue holds what would end it. */
  lemma {:induction false} ZeroStaysOpen(env: Env, h: Host, e: Event)
    requires e.conn != NO_CONN && NO_CONN in h.tx
    ensures NO_CONN in Serve(env)(h, e).tx
  {
    if VerbAt(e).Exec? {
      ExecDoesNothing(env, h, e.conn, e.content, e.arr);
    }
  }

  /** Once an EXEC has come to a queued MULTI, no EXEC of any client ever executes a command again. */
  lemma {:induction false} QueuedMultiDisablesExec(env: Env, h: Host, c: ConnId, content: string, arr: seq<Resp>,
                                                   later: seq<Event>, e: Event)
    requires c != NO_CONN && c in h.tx && VerbOf(Lower(content)).Exec?
    requires NO_CONN !in h.tx && ReachesMulti(env, Closed(h, c), h.tx[c])
    requires forall i :: 0 <= i < |later| ==> later[i].conn != NO_CONN
    requires e.conn != NO_CONN && VerbAt(e).Exec?
    ensures var before := Run(Serve(env), Handle(env, h, c, content, arr).0, later);
            var after := Serve(env)(before, e);
            after.store == before.store && after.log == before.log
  {
    RunQueueIsOneByOne(env, Closed(h, c), h.tx[c], []);
    MultiOpensZero(env, Closed(h, c), h.tx[c]);
    StaysOpenOverRun(env, Handle(env, h, c, content, arr).0, later);
    ExecDoesNothing(env, Run(Serve(env), Handle(env, h, c, content, arr).0, later), e.conn, e.content, e.arr);
  }

  /** Two MULTIs of one client are enough to come to that. */
  lemma {:induction false} MultiCanBeQueued(env: Env, c: ConnId, m: Event)
    requires c != NO_CONN && m == Event(c, "multi", [Bulk("multi")])
    ensures var h := Run(Serve(env), NEW_HOST, [m, m]);
            c in h.tx && NO_CONN !in h.tx && ReachesMulti(env, Closed(h, c), h.tx[c]) && !ExecIsSound(env, h, c)
  {
    assert Lower("multi") == "multi";
    assert [m] + [m] == [m, m];
    RunConcat(Serve(env), NEW_HOST, [m], [m]);
    RunOne(Serve(env), NEW_HOST, m);
    var first := Serve(env)(NEW_HOST, m);
    RunOne(Serve(env), first, m);
    OutsideTransaction(env, NEW_HOST, c, "multi", m.arr);
    InTransaction(env, first, c, "multi", m.arr);
  }

  lemma {:induction false} StaysOpenOverRun(env: Env, h: Host, later: seq<Event>)
    requires NO_CONN in h.tx
    requires forall i :: 0 <= i < |later| ==> later[i].conn != NO_CONN
    ensures NO_CONN in Run(Serve(env), h, later).tx
    decreases |later|
  {
    if later != [] {
      ZeroStaysOpen(env, h, later[0]);
      StaysOpenOverRun(env, Serve(env)(h, later[0]), later[1..]);
    }
  }
}
