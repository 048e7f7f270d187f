/** Readers that follow a stream with XREAD, on a server that everyone else uses at the same time. */
module StreamReaders {
  import opened GoStrings
  import opened Resp
  import opened StreamIds
  import opened Stores
  import opened StreamQueries
  import opened Hosts
  import opened Runs
  import opened Transactions
  import opened ServerInvariants

  // ----- commands that let a stream be

  /** The command does not set `key`, nor count it if it is `dated`, that is, if it may have a deadline. */
  predicate Spares(key: string, dated: bool, content: string, arr: seq<Resp>) {
    var verb := VerbOf(Lower(content));
    Arg(arr, 1) == Some(key) ==> !verb.Set? && (dated ==> !verb.Incr?)
  }

  function SparesKey(key: string, dated: bool): Queued -> bool {
    (q: Queued) => Spares(key, dated, q.command, q.arr)
  }

  /** The entries under `key` are valid, it has a deadline only if it is `dated`, and no queue will hurt it. */
  ghost predicate Safe(key: string, dated: bool, h: Host) {
    && ValidStore(h.store)
    && (key in h.store.expiries ==> dated)
    && EveryQueued(SparesKey(key, dated), h)
  }

  /** The entries under `key` were only added to. */
  predicate Grows(key: string, s: Store, s': Store) {
    EntriesOf(s, key) <= EntriesOf(s', key)
  }

  lemma {:induction false} XAddGrows(s: Store, arr: seq<Resp>, key: string, now: Millis)
    requires ValidStore(s)
    ensures Grows(key, s, ApplyXAdd(s, arr, now).store) && ApplyXAdd(s, arr, now).store.expiries == s.expiries
  {
    if Arg(arr, 1).Some? && Arg(arr, 2).Some? && Arg(arr, 3).Some? && Arg(arr, 4).Some? {
      SetStreamKeepsStore(s, arr[1].content, arr[2].content, arr[3].content, arr[4].content, now);
    }
  }

  /** A stream without a deadline is safe from INCR, which fails on it. */
  lemma {:induction false} IncrGrows(s: Store, arr: seq<Resp>, key: string, now: Millis)
    requires key in s.expiries ==> Arg(arr, 1) != Some(key)
    ensures var s' := ApplyIncr(s, arr, now).store; Grows(key, s, s') && (key in s'.expiries ==> key in s.expiries)
  {
  }

  lemma {:induction false} ApplyGrows(env: Env, h: Host, content: string, arr: seq<Resp>, key: string, dated: bool)
    requires ValidStore(h.store) && (key in h.store.expiries ==> dated) && Spares(key, dated, content, arr)
    ensures var s' := Apply(env, h, VerbOf(Lower(content)), arr).store;
            Grows(key, h.store, s') && (key in s'.expiries ==> key in h.store.expiries)
  {
    var s, now := h.store, env.clock(h.ticks);
    match VerbOf(Lower(content)) {
      case XAdd => XAddGrows(s, arr, key, now);
      case Incr => IncrGrows(s, arr, key, now);
      case _ =>
    }
  }

  lemma {:induction false} SimpleGrows(env: Env, h: Host, conn: ConnId, content: string, arr: seq<Resp>, key: string, dated: bool)
    requires !VerbOf(Lower(content)).Exec? && Safe(key, dated, h) && Spares(key, dated, content, arr)
    ensures var h' := Handle(env, h, conn, content, arr).0; Safe(key, dated, h') && Grows(key, h.store, h'.store)
  {
    StoreAfter(env, h, conn, content, arr);
    HandleKeeps(env, h, conn, content, arr);
    ApplyGrows(env, h, content, arr, key, dated);
    LowerIdempotent(content);
    SimpleKeepsQueues(env, h, conn, content, arr, SparesKey(key, dated));
  }

  lemma {:induction false} QueueGrows(env: Env, h: Host, queue: Queue, replies: seq<string>, key: string, dated: bool)
    requires Safe(key, dated, h) && forall i :: 0 <= i < |queue| ==> SparesKey(key, dated)(queue[i])
    ensures var h' := RunQueue(env, h, queue, replies).0; Safe(key, dated, h') && Grows(key, h.store, h'.store)
    decreases |queue|
  {
    if queue != [] {
      var q := queue[0];
      assert Queueable(q) && Spares(key, dated, q.command, q.arr);
      var (h1, out) := Handle(env, h, NO_CONN, q.command, q.arr);
      RunQueueFirst(env, h, queue, replies, h1, out);
      SimpleGrows(env, h, NO_CONN, q.command, q.arr, key, dated);
      if out.Text? {
        QueueGrows(env, h1, queue[1..], replies + [out.text], key, dated);
      }
    }
  }

  /** A command that spares the key, EXEC of such commands included, only adds to its entries. */
  lemma {:induction false} HandleGrows(env: Env, h: Host, e: Event, key: string, dated: bool)
    requires Safe(key, dated, h) && Spares(key, dated, e.content, e.arr)
    ensures var h' := Serve(env)(h, e); Safe(key, dated, h') && Grows(key, h.store, h'.store)
  {
    if VerbAt(e).Exec? {
      if e.conn in h.tx {
        QueueGrows(env, h.(tx := h.tx - {e.conn}), h.tx[e.conn], [], key, dated);
      }
    } else {
      SimpleGrows(env, h, e.conn, e.content, e.arr, key, dated);
    }
  }

  // ----- the reader's command

  function ReadCommand(key: string, last: string): seq<Resp> {
    [Bulk("xread"), Bulk("streams"), Bulk(key), Bulk(last)]
  }

  /** What the reader is sent for the entries it receives. */
  function Sent(key: string, es: seq<Entry>): string {
    Encode(Arr([Arr([Bulk(key), EntriesReply(es)])]))
  }

  lemma {:induction false} ReadAnswer(s: Store, arr: seq<Resp>, key: string, last: string)
    requires |arr| == 4 && arr[2] == Bulk(key) && arr[3] == Bulk(last)
    ensures var r := XReadStream(s, key, last);
            XReadAnswer(s, arr) ==
            if r.Ok? then Reply(Arr([Arr([Bulk(key), EntriesReply(r.value)])])) else Failed
  {
    assert Arg(arr, 2) == Some(key) && Arg(arr, 3) == Some(last);
    assert (|arr| - 2) / 2 == 1;
    XReadStep(s, arr, 1, 0, 1, []);
    var r := XReadStream(s, key, last);
    if r.Ok? {
      assert [] + [Arr([Bulk(key), EntriesReply(r.value)])] == [Arr([Bulk(key), EntriesReply(r.value)])];
    }
  }

  lemma {:induction false} XReadIsPerformed(env: Env, h: Host, reader: ConnId, arr: seq<Resp>)
    requires reader !in h.tx
    ensures Handle(env, h, reader, "xread", arr) == (h.(ticks := h.ticks + 1), Told(XReadAnswer(h.store, arr)))
  {
    assert Lower("xread") == "xread";
  }

  /** The reader's command answers with what XREAD finds in the stream, and changes nothing. */
  lemma {:induction false} ReadIsAnswered(env: Env, h: Host, reader: ConnId, key: string, last: string)
    requires reader !in h.tx
    ensures var (h', out) := Handle(env, h, reader, "xread", ReadCommand(key, last));
            var r := XReadStream(h.store, key, last);
            && h' == h.(ticks := h.ticks + 1)
            && out == if r.Ok? then Text(Sent(key, r.value)) else Failure
  {
    XReadIsPerformed(env, h, reader, ReadCommand(key, last));
    ReadAnswer(h.store, ReadCommand(key, last), key, last);
  }

  // ----- sessions

  /** The server, and a reader that asks from `last` on, has got `got`, and is `fed` if entries came since it read. */
  datatype Session = Session(host: Host, last: string, got: seq<Entry>, fed: bool)

  /** What happens: a command of any connection, or the reader's next XREAD. */
  datatype Act = Other(e: Event) | Read

  function DoOne(env: Env, reader: ConnId, key: string, ss: Session, act: Act): Session {
    match act
    case Other(e) => Served(ss, key, Serve(env)(ss.host, e))
    case Read =>
      var h := Handle(env, ss.host, reader, "xread", ReadCommand(key, ss.last)).0;
      Received(ss, h, XReadStream(ss.host.store, key, ss.last))
  }

  function Served(ss: Session, key: string, h: Host): Session {
    ss.(host := h, fed := ss.fed || EntriesOf(h.store, key) != EntriesOf(ss.host.store, key))
  }

  function Received(ss: Session, h: Host, r: Result<seq<Entry>>): Session {
    match r
    case Ok(reply) => Session(h, LastKey(reply, ss.last), ss.got + reply, false)
    case _ => ss.(host := h, fed := false)
  }

  function Do(env: Env, reader: ConnId, key: string): (Session, Act) -> Session {
    (ss: Session, act: Act) => DoOne(env, reader, key, ss, act)
  }

  /** The reader is in no transaction, and reads again only when something came, unless it never got anything. */
  predicate MayRead(reader: ConnId, ss: Session) {
    reader !in ss.host.tx && (ss.fed || ss.got == [])
  }

  /** No command hits the key, and the reader keeps its pace. */
  function Paced(reader: ConnId, key: string, dated: bool): (Session, Act) -> bool {
    (ss: Session, act: Act) => if act.Read? then MayRead(reader, ss) else Spares(key, dated, act.e.content, act.e.arr)
  }

  ghost predicate Tracks(ss: Session, key: string, start: string) {
    exists rest :: Following(EntriesOf(ss.host.store, key), start, ss.last, ss.got, ss.fed, rest)
  }

  lemma {:induction false} ServedTracks(ss: Session, key: string, start: string, h: Host)
    requires Tracks(ss, key, start) && Grows(key, ss.host.store, h.store)
    ensures Tracks(Served(ss, key, h), key, start)
  {
    var es, es' := EntriesOf(ss.host.store, key), EntriesOf(h.store, key);
    var rest :| Following(es, start, ss.last, ss.got, ss.fed, rest);
    var more := es'[|es|..];
    assert es' == ss.got + (rest + more);
    assert es' != es ==> more != [];
    assert Following(es', start, ss.last, ss.got, Served(ss, key, h).fed, rest + more);
  }

  lemma {:induction false} ReceivedAll(ss: Session, key: string, start: string, h: Host) returns (rest: seq<Entry>)
    requires Tracks(ss, key, start) && (ss.fed || ss.got == [])
    requires ValidStore(ss.host.store) && SplitSeqKey(start) == ZERO && h.store == ss.host.store
    ensures var r := XReadStream(ss.host.store, key, ss.last);
            var ss' := Received(ss, h, r);
            && (r.Ok? ==> r.value == rest) && (!r.Ok? ==> rest == [])
            && ss'.got == ss.got + rest == EntriesOf(h.store, key)
            && Tracks(ss', key, start)
  {
    var es := EntriesOf(h.store, key);
    rest :| Following(es, start, ss.last, ss.got, ss.fed, rest);
    StoreDelivers(ss.host.store, key, start, ss.got, rest);
    LastKeyOfConcat(ss.got, rest, start);
    var ss' := Received(ss, h, XReadStream(ss.host.store, key, ss.last));
    assert es + [] == es && ss.got + [] == ss.got;
    assert Following(es, start, ss'.last, ss'.got, ss'.fed, []);
  }

  ghost predicate Inv(ss: Session, key: string, start: string, dated: bool) {
    Safe(key, dated, ss.host) && Tracks(ss, key, start)
  }

  lemma {:induction false} OtherKeeps(env: Env, reader: ConnId, key: string, start: string, dated: bool, ss: Session, e: Event)
    requires Inv(ss, key, start, dated) && Spares(key, dated, e.content, e.arr)
    ensures Inv(DoOne(env, reader, key, ss, Other(e)), key, start, dated)
  {
    HandleGrows(env, ss.host, e, key, dated);
    ServedTracks(ss, key, start, Serve(env)(ss.host, e));
  }

  lemma {:induction false} ReadKeeps(env: Env, reader: ConnId, key: string, start: string, dated: bool, ss: Session)
    requires Inv(ss, key, start, dated) && SplitSeqKey(start) == ZERO && MayRead(reader, ss)
    ensures Inv(DoOne(env, reader, key, ss, Read), key, start, dated)
  {
    ReadIsAnswered(env, ss.host, reader, key, ss.last);
    var rest := ReceivedAll(ss, key, start, ss.host.(ticks := ss.host.ticks + 1));
  }

  function NewReader(h: Host, key: string, start: string): Session {
    Session(h, start, [], EntriesOf(h.store, key) != [])
  }

  lemma {:induction false} PacedKeeps(env: Env, reader: ConnId, key: string, start: string, dated: bool, ss: Session, acts: seq<Act>)
    requires Inv(ss, key, start, dated) && SplitSeqKey(start) == ZERO
    requires Allowed(Do(env, reader, key), Paced(reader, key, dated), ss, acts)
    ensures Inv(Run(Do(env, reader, key), ss, acts), key, start, dated)
  {
    var inv := (t: Session) => Inv(t, key, start, dated);
    forall t: Session, act: Act | inv(t) && Paced(reader, key, dated)(t, act)
      ensures inv(Do(env, reader, key)(t, act))
    {
      if act.Read? {
        ReadKeeps(env, reader, key, start, dated, t);
      } else {
        OtherKeeps(env, reader, key, start, dated, t, act.e);
      }
    }
    Invariant(Do(env, reader, key), Paced(reader, key, dated), inv, ss, acts);
  }

  /**
    Exactly once: take a reader that starts at 0-0, always passes on the last id it received and reads
    again only when something came, while any number of connections run commands, transactions
    included, that spare the key. With each read it is sent just what it lacks, and has then received the
    whole stream: every entry once, in order.
  */
  lemma {:induction false} ExactlyOnce(env: Env, h: Host, reader: ConnId, key: string, start: string, dated: bool,
                                       acts: seq<Act>, ss: Session)
    returns (rest: seq<Entry>)
    requires Safe(key, dated, h) && SplitSeqKey(start) == ZERO
    requires Allowed(Do(env, reader, key), Paced(reader, key, dated), NewReader(h, key, start), acts)
    requires ss == Run(Do(env, reader, key), NewReader(h, key, start), acts) && MayRead(reader, ss)
    ensures var out := Handle(env, ss.host, reader, "xread", ReadCommand(key, ss.last)).1;
            && (out == Text(Sent(key, rest)) || (out == Failure && rest == []))
            && DoOne(env, reader, key, ss, Read).got == ss.got + rest == EntriesOf(ss.host.store, key)
  {
    var first, es := NewReader(h, key, start), EntriesOf(h.store, key);
    assert [] + es == es;
    assert Following(es, start, start, [], first.fed, es);
    PacedKeeps(env, reader, key, start, dated, first, acts);
    ReadIsAnswered(env, ss.host, reader, key, ss.last);
    rest := ReceivedAll(ss, key, start, ss.host.(ticks := ss.host.ticks + 1));
  }

  /** The usual first id of a reader, and one that lies before everything. */
  lemma {:induction false} ZeroKey()
    ensures SplitSeqKey("0-0") == ZERO && SplitSeqKey("0") == ZERO
  {
    assert "0-0" == "0" + ['-'] + "0";
    CutExact("0", '-', "0");
    AtoiItoa(0);
    assert Itoa(0) == "0";
  }
}
