/**
  Every command by the name that a client writes: what it does to the store, the published events and the
  transactions, and the bytes that it is answered with.
*/
module CommandEffects {
  import opened GoStrings
  import opened Resp
  import opened StreamIds
  import opened Stores
  import opened StreamQueries
  import opened Hosts
  import opened ExecRefinement
  import opened StoreCommands
  import opened StreamReaders
  import Replication

  // ----- names

  lemma {:induction false} StoreNames()
    ensures VerbOf("get").Get? && VerbOf("set").Set? && VerbOf("incr").Incr? && VerbOf("type").Type?
    ensures VerbOf("xadd").XAdd? && VerbOf("xrange").XRange? && VerbOf("xread").XRead?
  {
  }

  lemma {:induction false} OtherNames()
    ensures VerbOf("config").Config? && VerbOf("info").Info? && VerbOf("keys").Keys?
    ensures VerbOf("echo").Echo? && VerbOf("ping").Ping? && VerbOf("wait").Wait?
    ensures VerbOf("psync").PSync? && VerbOf("replconf").ReplConf?
  {
  }

  lemma {:induction false} TransactionNames(name: string)
    ensures VerbOf(name).Exec? <==> name == "exec"
    ensures VerbOf(name).Discard? <==> name == "discard"
    ensures VerbOf(name).Multi? <==> name == "multi"
  {
  }

  predicate IsName(name: string) {
    || name == "config" || name == "discard" || name == "echo" || name == "exec" || name == "get" || name == "incr"
    || name == "info" || name == "keys" || name == "multi" || name == "ping" || name == "psync" || name == "replconf"
    || name == "set" || name == "type" || name == "wait" || name == "xadd" || name == "xrange" || name == "xread"
  }

  lemma {:induction false} UnknownNames(name: string)
    requires !IsName(name)
    ensures VerbOf(name).Unknown?
  {
  }

  /** A command outside a transaction that does not itself begin or end one. */
  lemma {:induction false} IsPerformed(env: Env, h: Host, c: ConnId, content: string, arr: seq<Resp>, verb: Verb)
    requires c !in h.tx && verb == VerbOf(Lower(content))
    requires !verb.Multi? && !verb.Discard? && !verb.Exec? && !verb.PSync? && !verb.Unknown?
    ensures Handle(env, h, c, content, arr) == Perform(env, h, verb, arr)
  {
  }

  /** The server after a command that read the clock, and changed the store and the log at most. */
  function Served(h: Host, s: Store, log: seq<string>): Host {
    Host(s, h.tx, log, h.processed, h.ticks + 1)
  }

  function Done(h: Host, arr: seq<Resp>, e: Effect): (Host, Outcome) {
    (Served(h, e.store, if e.published then h.log + [Encode(Arr(arr))] else h.log), Told(e.answer))
  }

  lemma {:induction false} IsServed(env: Env, h: Host, c: ConnId, content: string, arr: seq<Resp>, verb: Verb, e: Effect)
    requires c !in h.tx && verb == VerbOf(Lower(content)) && e == Apply(env, h, verb, arr)
    requires !verb.Multi? && !verb.Discard? && !verb.Exec? && !verb.PSync? && !verb.Unknown?
    ensures Handle(env, h, c, content, arr) == Done(h, arr, e)
  {
    IsPerformed(env, h, c, content, arr, verb);
  }

  lemma {:induction false} IsSet(env: Env, h: Host, c: ConnId, content: string, arr: seq<Resp>)
    requires c !in h.tx && Lower(content) == "set"
    ensures Handle(env, h, c, content, arr) == Done(h, arr, ApplySet(h.store, arr, env.clock(h.ticks)))
  {
    StoreNames();
    IsServed(env, h, c, content, arr, Set, ApplySet(h.store, arr, env.clock(h.ticks)));
  }

  lemma {:induction false} IsGet(env: Env, h: Host, c: ConnId, content: string, arr: seq<Resp>)
    requires c !in h.tx && Lower(content) == "get"
    ensures Handle(env, h, c, content, arr) == Done(h, arr, ApplyGet(h.store, arr, env.clock(h.ticks)))
  {
    StoreNames();
    IsServed(env, h, c, content, arr, Get, ApplyGet(h.store, arr, env.clock(h.ticks)));
  }

  lemma {:induction false} IsType(env: Env, h: Host, c: ConnId, content: string, arr: seq<Resp>)
    requires c !in h.tx && Lower(content) == "type"
    ensures Handle(env, h, c, content, arr) == Done(h, arr, ApplyType(h.store, arr, env.clock(h.ticks)))
  {
    StoreNames();
    IsServed(env, h, c, content, arr, Type, ApplyType(h.store, arr, env.clock(h.ticks)));
  }

  lemma {:induction false} IsIncr(env: Env, h: Host, c: ConnId, content: string, arr: seq<Resp>)
    requires c !in h.tx && Lower(content) == "incr"
    ensures Handle(env, h, c, content, arr) == Done(h, arr, ApplyIncr(h.store, arr, env.clock(h.ticks)))
  {
    StoreNames();
    IsServed(env, h, c, content, arr, Incr, ApplyIncr(h.store, arr, env.clock(h.ticks)));
  }

  lemma {:induction false} IsXAdd(env: Env, h: Host, c: ConnId, content: string, arr: seq<Resp>)
    requires c !in h.tx && Lower(content) == "xadd"
    ensures Handle(env, h, c, content, arr) == Done(h, arr, ApplyXAdd(h.store, arr, env.clock(h.ticks)))
  {
    StoreNames();
    IsServed(env, h, c, content, arr, XAdd, ApplyXAdd(h.store, arr, env.clock(h.ticks)));
  }

  lemma {:induction false} IsXRange(env: Env, h: Host, c: ConnId, content: string, arr: seq<Resp>)
    requires c !in h.tx && Lower(content) == "xrange"
    ensures Handle(env, h, c, content, arr) == Done(h, arr, Effect(h.store, false, XRangeAnswer(h.store, arr)))
  {
    StoreNames();
    IsServed(env, h, c, content, arr, XRange, Effect(h.store, false, XRangeAnswer(h.store, arr)));
  }

  lemma {:induction false} IsXRead(env: Env, h: Host, c: ConnId, content: string, arr: seq<Resp>)
    requires c !in h.tx && Lower(content) == "xread"
    ensures Handle(env, h, c, content, arr) == Done(h, arr, Effect(h.store, false, XReadAnswer(h.store, arr)))
  {
    StoreNames();
    IsServed(env, h, c, content, arr, XRead, Effect(h.store, false, XReadAnswer(h.store, arr)));
  }

  lemma {:induction false} IsReplConf(env: Env, h: Host, c: ConnId, content: string, arr: seq<Resp>)
    requires c !in h.tx && Lower(content) == "replconf"
    ensures Handle(env, h, c, content, arr) == Done(h, arr, Effect(h.store, false, ReplConfAnswer(h.processed, arr)))
  {
    OtherNames();
    IsServed(env, h, c, content, arr, ReplConf, Effect(h.store, false, ReplConfAnswer(h.processed, arr)));
  }

  // ----- replies, byte for byte

  /** A text as it is sent; an empty one is sent as the null string. */
  function TextBytes(t: string): string {
    if t == "" then "$-1\r\n" else "$" + Itoa(|t|) + "\r\n" + t + "\r\n"
  }

  /** A stream entry as it is sent: its id, and its field and value. */
  function EntryBytes(e: Entry): string {
    "*2\r\n" + (TextBytes(e.seqkey) + ("*2\r\n" + (TextBytes(e.field) + TextBytes(e.value))))
  }

  function EntriesBytes(es: seq<Entry>): string {
    if es == [] then "" else EntryBytes(es[0]) + EntriesBytes(es[1..])
  }

  function StreamBytes(es: seq<Entry>): string {
    "*" + Itoa(|es|) + "\r\n" + EntriesBytes(es)
  }

  lemma {:induction false} PairIsSpelled(a: Resp, b: Resp)
    ensures Encode(Arr([a, b])) == "*2\r\n" + (Encode(a) + Encode(b))
  {
    EncodeTwo(a, b);
    assert Itoa(2) == "2" && "*" + Itoa(2) + CRLF == "*2\r\n";
  }

  lemma {:induction false} EntryIsSpelled(e: Entry)
    ensures Encode(EntryReply(e)) == EntryBytes(e)
  {
    PairIsSpelled(Bulk(e.field), Bulk(e.value));
    PairIsSpelled(Bulk(e.seqkey), Arr([Bulk(e.field), Bulk(e.value)]));
  }

  lemma {:induction false} EntriesAreSpelled(es: seq<Entry>)
    ensures EncodeAll(EntriesReply(es).elements) == EntriesBytes(es)
  {
    if es != [] {
      EntryIsSpelled(es[0]);
      assert EntriesReply(es).elements[1..] == EntriesReply(es[1..]).elements;
      EntriesAreSpelled(es[1..]);
    }
  }

  lemma {:induction false} StreamIsSpelled(es: seq<Entry>)
    ensures Encode(EntriesReply(es)) == StreamBytes(es)
  {
    EntriesAreSpelled(es);
  }

  // ----- MULTI, EXEC and DISCARD

  /** In a transaction every other command is only queued, under its lower-case name. */
  lemma {:induction false} QueuesOthers(env: Env, h: Host, c: ConnId, content: string, arr: seq<Resp>)
    requires c in h.tx && Lower(content) != "exec" && Lower(content) != "discard"
    ensures Queueable(Queued(Lower(content), arr))
    ensures Handle(env, h, c, content, arr) ==
            (h.(tx := h.tx[c := h.tx[c] + [Queued(Lower(content), arr)]]), Text("+QUEUED\r\n"))
  {
    TransactionNames(Lower(content));
    QueueableName(content, arr);
    assert Encode(QUEUED) == "+QUEUED\r\n";
  }

  lemma {:induction false} MultiOpens(env: Env, h: Host, c: ConnId, content: string, arr: seq<Resp>)
    requires c !in h.tx && Lower(content) == "multi"
    ensures Handle(env, h, c, content, arr) == (h.(tx := h.tx[c := []]), Text("+OK\r\n"))
  {
    TransactionNames(Lower(content));
    assert Encode(OK_RESPONSE) == "+OK\r\n";
  }

  lemma {:induction false} DiscardCloses(env: Env, h: Host, c: ConnId, content: string, arr: seq<Resp>)
    requires Lower(content) == "discard"
    ensures Handle(env, h, c, content, arr) ==
            if c in h.tx then (h.(tx := h.tx - {c}), Text("+OK\r\n")) else (h, Text("-" + "ERR DISCARD without MULTI" + "\r\n"))
  {
    TransactionNames(Lower(content));
    assert Encode(OK_RESPONSE) == "+OK\r\n" && Encode(DISCARD_ALONE) == "-" + "ERR DISCARD without MULTI" + "\r\n";
  }

  lemma {:induction false} ExecAlone(env: Env, h: Host, c: ConnId, content: string, arr: seq<Resp>)
    requires c !in h.tx && Lower(content) == "exec"
    ensures Handle(env, h, c, content, arr) == (h, Text("-" + "ERR EXEC without MULTI" + "\r\n"))
  {
    TransactionNames(Lower(content));
    assert Encode(EXEC_ALONE) == "-" + "ERR EXEC without MULTI" + "\r\n";
  }

  /**
    EXEC closes the transaction and leaves what its commands leave one by one; its answer is their number
    and then their answers, if none fails.
  */
  lemma {:induction false} ExecRuns(env: Env, h: Host, c: ConnId, content: string, arr: seq<Resp>,
                                    h': Host, outs: seq<Outcome>)
    requires c != NO_CONN && c in h.tx && NO_CONN !in h.tx && Lower(content) == "exec"
    requires forall i :: 0 <= i < |h.tx[c]| ==> h.tx[c][i].command != "multi"
    requires (h', outs) == OneByOne(env, h.(tx := h.tx - {c}), c, h.tx[c])
    ensures Handle(env, h, c, content, arr).0 == h'
    ensures AllTexts(outs) ==>
              Handle(env, h, c, content, arr).1 == Text("*" + Itoa(|outs|) + "\r\n" + Flatten(Texts(outs)))
    ensures !AllTexts(outs) ==> !Handle(env, h, c, content, arr).1.Text?
  {
    TransactionNames(Lower(content));
    forall i | 0 <= i < |h.tx[c]|
      ensures !VerbOf(h.tx[c][i].command).Multi?
    {
      TransactionNames(h.tx[c][i].command);
    }
    WithoutMulti(env, Closed(h, c), h.tx[c]);
    ExecRefinesIff(env, h, c, content, arr);
    if AllTexts(outs) {
      assert [] + Texts(outs) == Texts(outs);
    }
  }

  /** The smallest transaction: one SET. */
  lemma {:induction false} ExecRunsSet(env: Env, h: Host, c: ConnId, content: string, arr: seq<Resp>,
                                       put: seq<Resp>, key: string, text: string)
    requires c != NO_CONN && c in h.tx && NO_CONN !in h.tx && Lower(content) == "exec"
    requires put == [Bulk("set"), Bulk(key), Bulk(text)] && h.tx[c] == [Queued("set", put)]
    ensures Handle(env, h, c, content, arr) ==
            (Host(h.store.(values := h.store.values[key := Str(text)]), h.tx - {c}, h.log + [Encode(Arr(put))],
                  h.processed, h.ticks + 1), Text("*1\r\n+OK\r\n"))
  {
    var start := h.(tx := h.tx - {c});
    var (h', outs) := OneByOne(env, start, c, h.tx[c]);
    assert Lower("set") == "set";
    SetStores(env, start, c, "set", put, key, text);
    OneIsOne(env, start, c, h.tx[c]);
    ExecRuns(env, h, c, content, arr, h', outs);
    assert Texts(outs) == ["+OK\r\n"] && Itoa(1) == "1";
    assert Flatten(["+OK\r\n"]) == "+OK\r\n" + Flatten([]) == "+OK\r\n";
    assert "*" + "1" + "\r\n" + "+OK\r\n" == "*1\r\n+OK\r\n";
  }

  lemma {:induction false} OneIsOne(env: Env, h: Host, c: ConnId, queue: Queue)
    requires |queue| == 1
    ensures var (h', out) := Handle(env, h, c, queue[0].command, queue[0].arr);
            OneByOne(env, h, c, queue) == (h', [out])
  {
    var (h', out) := Handle(env, h, c, queue[0].command, queue[0].arr);
    assert queue[1..] == [] && [out] + [] == [out];
  }

  // ----- SET and GET

  /** A SET without the expiry option stores the text, keeps any deadline, and publishes itself. */
  lemma {:induction false} SetStores(env: Env, h: Host, c: ConnId, content: string, arr: seq<Resp>, key: string, text: string)
    requires c !in h.tx && Lower(content) == "set"
    requires |arr| >= 3 && arr[1] == Bulk(key) && arr[2] == Bulk(text)
    requires |arr| > 3 ==> arr[3].Bulk? && arr[3].content != "px"
    ensures Handle(env, h, c, content, arr) ==
            (Served(h, h.store.(values := h.store.values[key := Str(text)]), h.log + [Encode(Arr(arr))]), Text("+OK\r\n"))
  {
    IsSet(env, h, c, content, arr);
    assert Encode(OK_RESPONSE) == "+OK\r\n";
  }

  /** With the option, a number other than 0 sets the deadline that many milliseconds from now, in 64 unsigned bits. */
  lemma {:induction false} SetExpires(env: Env, h: Host, c: ConnId, content: string, arr: seq<Resp>,
                                      key: string, text: string, n: int)
    requires c !in h.tx && Lower(content) == "set" && MIN_INT <= n <= MAX_INT && n != 0
    requires |arr| >= 5 && arr[1] == Bulk(key) && arr[2] == Bulk(text) && arr[3] == Bulk("px") && arr[4] == Bulk(Itoa(n))
    ensures var deadline := env.clock(h.ticks) + n;
            var unsigned := if deadline < 0 then deadline + 0x1_0000_0000_0000_0000 else deadline;
            Handle(env, h, c, content, arr) ==
            (Served(h, Store(h.store.values[key := Str(text)], h.store.expiries[key := unsigned]),
                    h.log + [Encode(Arr(arr))]), Text("+OK\r\n"))
  {
    IsSet(env, h, c, content, arr);
    AtoiItoa(n);
    ExpiryIsRead(arr, n);
    DeadlineWraps(env.clock(h.ticks), n);
    assert Encode(OK_RESPONSE) == "+OK\r\n";
  }

  lemma {:induction false} ExpiryIsRead(arr: seq<Resp>, n: int)
    requires MIN_INT <= n <= MAX_INT && |arr| >= 5 && arr[3] == Bulk("px") && arr[4] == Bulk(Itoa(n))
    ensures SetExpiry(arr) == Ok(if n < 0 then n + MAX_UINT + 1 else n)
  {
    AtoiItoa(n);
  }

  lemma {:induction false} DeadlineWraps(now: Millis, n: int)
    requires MIN_INT <= n <= MAX_INT
    ensures var px := if n < 0 then n + MAX_UINT + 1 else n;
            (now + px) % (MAX_UINT + 1) == if now + n < 0 then now + n + 0x1_0000_0000_0000_0000 else now + n
  {
  }

  /** A SET that lacks an argument, or has one of another type, panics; an unreadable expiry is an error. Neither stores. */
  lemma {:induction false} SetRefuses(env: Env, h: Host, c: ConnId, content: string, arr: seq<Resp>)
    requires c !in h.tx && Lower(content) == "set"
    ensures |arr| < 3 || !arr[1].Bulk? || !arr[2].Bulk? || (|arr| > 3 && !arr[3].Bulk?) ==>
              Handle(env, h, c, content, arr) == (Served(h, h.store, h.log), Crash)
    ensures |arr| == 4 && arr[1].Bulk? && arr[2].Bulk? && arr[3] == Bulk("px") ==>
              Handle(env, h, c, content, arr) == (Served(h, h.store, h.log), Crash)
    ensures |arr| > 4 && arr[1].Bulk? && arr[2].Bulk? && arr[3] == Bulk("px") && arr[4].Bulk? && Atoi(arr[4].content).Err() ==>
              Handle(env, h, c, content, arr) == (Served(h, h.store, h.log), Failure)
  {
    IsSet(env, h, c, content, arr);
  }

  /** GET answers the text under the key, or the null string if it is absent or hidden; a stream is an error. */
  lemma {:induction false} GetAnswers(env: Env, h: Host, c: ConnId, content: string, arr: seq<Resp>, key: string)
    requires c !in h.tx && Lower(content) == "get" && |arr| >= 2 && arr[1] == Bulk(key)
    ensures var s := h.store;
            var late := key in s.expiries && env.clock(h.ticks) > s.expiries[key];
            Handle(env, h, c, content, arr) ==
            (Served(h, if late then s.(expiries := s.expiries - {key}) else s, h.log),
             if late || key !in s.values then Text("$-1\r\n")
             else match s.values[key] case Str(t) => Text(TextBytes(t)) case Stream(_) => Failure)
  {
    IsGet(env, h, c, content, arr);
    assert Encode(Bulk("")) == "$-1\r\n";
  }

  lemma {:induction false} TypeWords()
    ensures Encode(Simple("none")) == "+none\r\n" && Encode(Simple("string")) == "+string\r\n"
    ensures Encode(Simple("stream")) == "+stream\r\n"
  {
  }

  lemma {:induction false} TypeAnswers(env: Env, h: Host, c: ConnId, content: string, arr: seq<Resp>, key: string)
    requires c !in h.tx && Lower(content) == "type" && |arr| >= 2 && arr[1] == Bulk(key)
    ensures var s := h.store;
            var late := key in s.expiries && env.clock(h.ticks) > s.expiries[key];
            Handle(env, h, c, content, arr) ==
            (Served(h, if late then s.(expiries := s.expiries - {key}) else s, h.log),
             Text(if late || key !in s.values then "+none\r\n" else if s.values[key].Str? then "+string\r\n" else "+stream\r\n"))
  {
    IsType(env, h, c, content, arr);
    TypeWords();
  }

  // ----- INCR

  /** INCR of a number stores, publishes and answers the next one; of a key that shows nothing, 1. */
  lemma {:induction false} IncrCountsUp(env: Env, h: Host, c: ConnId, content: string, arr: seq<Resp>, key: string, n: int)
    requires c !in h.tx && Lower(content) == "incr" && |arr| >= 2 && arr[1] == Bulk(key)
    requires !Hidden(h.store, key, env.clock(h.ticks))
    requires if key in h.store.values then MIN_INT <= n < MAX_INT && h.store.values[key] == Str(Itoa(n)) else n == 0
    ensures Handle(env, h, c, content, arr) ==
            (Served(h, h.store.(values := h.store.values[key := Str(Itoa(n + 1))]), h.log + [Encode(Arr(arr))]),
             Text(":" + Itoa(n + 1) + "\r\n"))
  {
    IsIncr(env, h, c, content, arr);
    if key in h.store.values {
      IncrOnce(h.store, arr, key, n, n + 1, env.clock(h.ticks));
    } else {
      IncrUnseen(h.store, arr, key, env.clock(h.ticks));
    }
  }

  /** INCR of a text that is no number answers the error; of a stream it fails. Neither stores nor publishes. */
  lemma {:induction false} IncrFails(env: Env, h: Host, c: ConnId, content: string, arr: seq<Resp>, key: string)
    requires c !in h.tx && Lower(content) == "incr" && |arr| >= 2 && arr[1] == Bulk(key)
    requires !Hidden(h.store, key, env.clock(h.ticks)) && key in h.store.values
    requires h.store.values[key].Str? ==> Atoi(h.store.values[key].text).Err()
    ensures Handle(env, h, c, content, arr) ==
            (Served(h, h.store, h.log),
             if h.store.values[key].Stream? then Failure
             else Text("-" + "ERR value is not an integer or out of range" + "\r\n"))
  {
    IsIncr(env, h, c, content, arr);
    IncrRefuses(h.store, arr, key, env.clock(h.ticks));
    assert Encode(NOT_AN_INTEGER) == "-" + "ERR value is not an integer or out of range" + "\r\n";
  }

  // ----- streams

  /**
    XADD with an id of two numbers: appended and answered under the very text, if and only if it lies above
    0-0 and above the last id, and otherwise refused with the error of the check that failed first.
  */
  lemma {:induction false} XAddAppends(env: Env, h: Host, c: ConnId, content: string, arr: seq<Resp>, key: string,
                                       t: int, n: int, field: string, value: string, text: string)
    requires c !in h.tx && Lower(content) == "xadd" && TakesEntries(h.store, key)
    requires 0 <= t <= MAX_INT && 0 <= n <= MAX_INT && text == Itoa(t) + "-" + Itoa(n)
    requires |arr| >= 5 && arr[1] == Bulk(key) && arr[2] == Bulk(text) && arr[3] == Bulk(field) && arr[4] == Bulk(value)
    ensures var es, s := EntriesOf(h.store, key), h.store;
            Handle(env, h, c, content, arr) ==
            if t == 0 && n == 0 then
              (Served(h, s.(values := s.values[key := Stream(es)]), h.log),
               Text("-" + "ERR The ID specified in XADD must be greater than 0-0" + "\r\n"))
            else if es != [] && !Less(SplitSeqKey(es[|es| - 1].seqkey), Id(t, n)) then
              (Served(h, s.(values := s.values[key := Stream(es)]), h.log),
               Text("-" + "ERR The ID specified in XADD is equal or smaller than the target stream top item" + "\r\n"))
            else
              (Served(h, s.(values := s.values[key := Stream(es + [Entry(text, field, value)])]), h.log),
               Text("$" + Itoa(|text|) + "\r\n" + text + "\r\n"))
  {
    var (s', r) := SetStream(h.store, key, text, field, value, env.clock(h.ticks));
    StoreNames();
    XAddIs(env, h, c, content, arr, key, text, field, value);
    GivenIdIsAppended(h.store, key, t, n, field, value, env.clock(h.ticks));
    XAddReplies(text);
  }

  /** XADD does what the store does, and answers the id or the error. */
  lemma {:induction false} XAddIs(env: Env, h: Host, c: ConnId, content: string, arr: seq<Resp>, key: string, text: string,
                                  field: string, value: string)
    requires c !in h.tx && Lower(content) == "xadd"
    requires |arr| >= 5 && arr[1] == Bulk(key) && arr[2] == Bulk(text) && arr[3] == Bulk(field) && arr[4] == Bulk(value)
    ensures var (s', r) := SetStream(h.store, key, text, field, value, env.clock(h.ticks));
            Handle(env, h, c, content, arr) ==
            (Served(h, s', h.log), Text(Encode(if r.Added? then Bulk(r.seqkey) else Err(AddError(r)))))
  {
    IsXAdd(env, h, c, content, arr);
  }

  lemma {:induction false} XAddReplies(text: string)
    ensures Encode(Err(AddError(TooSmall(NotAboveZero)))) == "-" + "ERR The ID specified in XADD must be greater than 0-0" + "\r\n"
    ensures Encode(Err(AddError(TooSmall(NotAboveLast)))) ==
            "-" + "ERR The ID specified in XADD is equal or smaller than the target stream top item" + "\r\n"
    ensures Encode(Err(AddError(NotAStream))) == "-" + "expected stream to be a stream" + "\r\n"
    ensures text != "" ==> Encode(Bulk(text)) == "$" + Itoa(|text|) + "\r\n" + text + "\r\n"
  {
  }

  /** XADD to a string is refused. */
  lemma {:induction false} XAddSparesStrings(env: Env, h: Host, c: ConnId, content: string, arr: seq<Resp>, key: string,
                                             text: string, field: string, value: string)
    requires c !in h.tx && Lower(content) == "xadd" && key in h.store.values && h.store.values[key].Str?
    requires |arr| >= 5 && arr[1] == Bulk(key) && arr[2] == Bulk(text) && arr[3] == Bulk(field) && arr[4] == Bulk(value)
    ensures Handle(env, h, c, content, arr) ==
            (Served(h, h.store, h.log), Text("-" + "expected stream to be a stream" + "\r\n"))
  {
    XAddIs(env, h, c, content, arr, key, text, field, value);
    XAddReplies("");
  }

  /**
    XRANGE changes nothing. Where the check holds it answers just the entries between the bounds, where the
    other one holds it panics, and without a stream it fails.
  */
  lemma {:induction false} XRangeAnswers(env: Env, h: Host, c: ConnId, content: string, arr: seq<Resp>, key: string,
                                         es: seq<Entry>, start: string, end: string)
    requires c !in h.tx && Lower(content) == "xrange" && HoldsStream(h.store, key, es)
    requires |arr| >= 4 && arr[1] == Bulk(key) && arr[2] == Bulk(start) && arr[3] == Bulk(end)
    ensures var (h', out) := Handle(env, h, c, content, arr);
            var lo, hi := LowerBound(start), UpperBound(end);
            && h' == Served(h, h.store, h.log)
            && (RangeIsSound(Ids(es), lo, hi, end == "+") ==> out == Text(StreamBytes(Filter(es, Between(lo, hi)))))
            && (out == Crash <==> RangePanics(Ids(es), lo, hi, end == "+"))
  {
    XRangeIs(env, h, c, content, arr, key, start, end);
    RangeIsFilterIff(h.store, key, es, start, end);
    RangePanicsIff(h.store, key, es, start, end);
    StreamIsSpelled(Filter(es, Between(LowerBound(start), UpperBound(end))));
  }

  /** XRANGE answers what the store finds; its panic is a panic, and its error closes the connection. */
  lemma {:induction false} XRangeIs(env: Env, h: Host, c: ConnId, content: string, arr: seq<Resp>, key: string,
                                    start: string, end: string)
    requires c !in h.tx && Lower(content) == "xrange"
    requires |arr| >= 4 && arr[1] == Bulk(key) && arr[2] == Bulk(start) && arr[3] == Bulk(end)
    ensures var r := GetStream(h.store, key, start, end);
            Handle(env, h, c, content, arr) ==
            (Served(h, h.store, h.log),
             match r case Ok(es) => Text(Encode(EntriesReply(es))) case Panic => Crash case _ => Failure)
  {
    IsXRange(env, h, c, content, arr);
  }

  /** XREAD of one stream answers its key and what is newer, if there is anything newer, and else the whole stream. */
  lemma {:induction false} XReadAnswers(env: Env, h: Host, c: ConnId, content: string, arr: seq<Resp>, key: string,
                                        es: seq<Entry>, start: string)
    requires c !in h.tx && Lower(content) == "xread" && HoldsStream(h.store, key, es)
    requires |arr| == 4 && arr[2] == Bulk(key) && arr[3] == Bulk(start)
    ensures var newer := Filter(es, After(SplitSeqKey(start)));
            var sent := if es != [] && !Less(SplitSeqKey(start), Ids(es)[|es| - 1]) then es else newer;
            Handle(env, h, c, content, arr) == (Served(h, h.store, h.log), Text(ReadBytes(key, sent)))
  {
    XReadIs(env, h, c, content, arr, key, start);
    ReadIsNewerIff(h.store, key, es, start);
    ReadIsSpelled(key, XReadStream(h.store, key, start).value);
  }

  lemma {:induction false} XReadIs(env: Env, h: Host, c: ConnId, content: string, arr: seq<Resp>, key: string, start: string)
    requires c !in h.tx && Lower(content) == "xread"
    requires |arr| == 4 && arr[2] == Bulk(key) && arr[3] == Bulk(start)
    ensures var r := XReadStream(h.store, key, start);
            Handle(env, h, c, content, arr) ==
            (Served(h, h.store, h.log), if r.Ok? then Text(Sent(key, r.value)) else Failure)
  {
    IsXRead(env, h, c, content, arr);
    ReadAnswer(h.store, arr, key, start);
  }

  function ReadBytes(key: string, es: seq<Entry>): string {
    "*1\r\n" + ("*2\r\n" + (TextBytes(key) + StreamBytes(es)))
  }

  lemma {:induction false} ReadIsSpelled(key: string, es: seq<Entry>)
    ensures Sent(key, es) == ReadBytes(key, es)
  {
    var entries := EntriesReply(es);
    StreamIsSpelled(es);
    PairIsSpelled(Bulk(key), entries);
    SingleIsSpelled(Arr([Bulk(key), entries]));
    assert Encode(Bulk(key)) == TextBytes(key);
  }

  lemma {:induction false} SingleIsSpelled(v: Resp)
    ensures Encode(Arr([v])) == "*1\r\n" + Encode(v)
  {
    assert Itoa(1) == "1" && [v][1..] == [] && EncodeAll([v]) == Encode(v) + EncodeAll([]);
    assert Encode(v) + "" == Encode(v);
    assert "*" + Itoa(1) + CRLF == "*1\r\n";
  }

  /** Both queries fail on a key without a stream. */
  lemma {:induction false} QueriesNeedStreams(env: Env, h: Host, c: ConnId, content: string, arr: seq<Resp>, key: string,
                                              start: string, end: string)
    requires c !in h.tx && (key in h.store.values ==> h.store.values[key].Str?)
    requires || (Lower(content) == "xrange" && |arr| >= 4 && arr[1] == Bulk(key) && arr[2] == Bulk(start) && arr[3] == Bulk(end))
             || (Lower(content) == "xread" && |arr| == 4 && arr[2] == Bulk(key) && arr[3] == Bulk(start))
    ensures Handle(env, h, c, content, arr) == (Served(h, h.store, h.log), Failure)
  {
    NoStreamFails(h.store, key, start, end);
    if Lower(content) == "xrange" {
      XRangeIs(env, h, c, content, arr, key, start, end);
    } else {
      XReadIs(env, h, c, content, arr, key, start);
    }
  }

  // ----- missing arguments

  /** Commands that take a key panic without one. */
  lemma {:induction false} MissingKeyPanics(env: Env, h: Host, c: ConnId, content: string, arr: seq<Resp>)
    requires c !in h.tx && (|arr| < 2 || !arr[1].Bulk?)
    requires Lower(content) == "get" || Lower(content) == "type" || Lower(content) == "incr" || Lower(content) == "replconf"
    ensures Handle(env, h, c, content, arr) == (Served(h, h.store, h.log), Crash)
  {
    if Lower(content) == "get" {
      IsGet(env, h, c, content, arr);
    } else if Lower(content) == "type" {
      IsType(env, h, c, content, arr);
    } else if Lower(content) == "incr" {
      IsIncr(env, h, c, content, arr);
    } else {
      IsReplConf(env, h, c, content, arr);
    }
  }

  /** XADD panics without one of its four arguments. */
  lemma {:induction false} XAddMissesArgument(env: Env, h: Host, c: ConnId, content: string, arr: seq<Resp>, i: nat)
    requires c !in h.tx && Lower(content) == "xadd" && 1 <= i <= 4 && (i < |arr| ==> !arr[i].Bulk?)
    ensures Handle(env, h, c, content, arr) == (Served(h, h.store, h.log), Crash)
  {
    IsXAdd(env, h, c, content, arr);
    XAddCrashes(h.store, arr, env.clock(h.ticks), i);
  }

  lemma {:induction false} XAddCrashes(s: Store, arr: seq<Resp>, now: Millis, i: nat)
    requires 1 <= i <= 4 && Arg(arr, i) == None
    ensures ApplyXAdd(s, arr, now) == Effect(s, false, Crashed)
  {
    assert Arg(arr, 1).None? || Arg(arr, 2).None? || Arg(arr, 3).None? || Arg(arr, 4).None?;
  }

  /** XRANGE panics without one of its three arguments. */
  lemma {:induction false} XRangeMissesArgument(env: Env, h: Host, c: ConnId, content: string, arr: seq<Resp>, i: nat)
    requires c !in h.tx && Lower(content) == "xrange" && 1 <= i <= 3 && (i < |arr| ==> !arr[i].Bulk?)
    ensures Handle(env, h, c, content, arr) == (Served(h, h.store, h.log), Crash)
  {
    IsXRange(env, h, c, content, arr);
    assert Arg(arr, i) == None;
  }

  /** XREAD panics on a key or start that is no text. */
  lemma {:induction false} XReadMissesArgument(env: Env, h: Host, c: ConnId, content: string, arr: seq<Resp>, i: nat)
    requires c !in h.tx && Lower(content) == "xread" && 2 <= i < |arr| && (i < |arr| ==> !arr[i].Bulk?)
    ensures Handle(env, h, c, content, arr) == (Served(h, h.store, h.log), Crash)
  {
    IsXRead(env, h, c, content, arr);
    assert Arg(arr, i) == None;
  }

  // ----- the small commands

  lemma {:induction false} PingAnswers(env: Env, h: Host, c: ConnId, content: string, arr: seq<Resp>)
    requires c !in h.tx && Lower(content) == "ping"
    ensures Handle(env, h, c, content, arr) == (Served(h, h.store, h.log), Text("+PONG\r\n"))
  {
    OtherNames();
    IsServed(env, h, c, content, arr, Ping, Effect(h.store, false, Reply(Simple("PONG"))));
    assert Encode(Simple("PONG")) == "+PONG\r\n";
  }

  lemma {:induction false} WaitAnswers(env: Env, h: Host, c: ConnId, content: string, arr: seq<Resp>)
    requires c !in h.tx && Lower(content) == "wait"
    ensures Handle(env, h, c, content, arr) == (Served(h, h.store, h.log), Text(":0\r\n"))
  {
    OtherNames();
    IsServed(env, h, c, content, arr, Wait, Effect(h.store, false, Reply(Int(0))));
    assert Itoa(0) == "0" && Encode(Int(0)) == ":0\r\n";
  }

  lemma {:induction false} EchoAnswers(env: Env, h: Host, c: ConnId, content: string, arr: seq<Resp>)
    requires c !in h.tx && Lower(content) == "echo"
    ensures Handle(env, h, c, content, arr) ==
            (Served(h, h.store, h.log), if |arr| == 2 then Text(Encode(arr[1])) else Failure)
  {
    OtherNames();
    IsServed(env, h, c, content, arr, Echo, Effect(h.store, false, if |arr| == 2 then Reply(arr[1]) else Failed));
  }

  lemma {:induction false} PSyncIsEmpty(env: Env, h: Host, c: ConnId, content: string, arr: seq<Resp>)
    requires c !in h.tx && Lower(content) == "psync"
    ensures Handle(env, h, c, content, arr) == (h, Text(""))
  {
    OtherNames();
  }

  lemma {:induction false} OpenAnswers(env: Env, h: Host, c: ConnId, content: string, arr: seq<Resp>)
    requires c !in h.tx && Lower(content) in ["config", "info", "keys"]
    ensures Handle(env, h, c, content, arr) == (Served(h, h.store, h.log), Told(env.answer(h.ticks, arr)))
  {
    OtherNames();
    IsPerformed(env, h, c, content, arr, VerbOf(Lower(content)));
  }

  /** REPLCONF accepts the two handshake options and GETACK, in any letter case, and fails on any other. */
  lemma {:induction false} ReplConfAnswers(env: Env, h: Host, c: ConnId, content: string, arr: seq<Resp>, option: string)
    requires c !in h.tx && Lower(content) == "replconf" && |arr| >= 2 && arr[1].Bulk? && Lower(arr[1].content) == option
    ensures var (h', out) := Handle(env, h, c, content, arr);
            && h' == Served(h, h.store, h.log)
            && (option == "listening-port" || option == "capa" ==> out == Text("+OK\r\n"))
            && (option == "getack" ==> out == Text(Replication.AckBytes(h.processed)))
            && (option != "listening-port" && option != "capa" && option != "getack" ==> out == Failure)
  {
    IsReplConf(env, h, c, content, arr);
    assert Encode(OK_RESPONSE) == "+OK\r\n";
    Replication.AckIsSpelled(h.processed);
  }

  /** A command of any other name ends the process. */
  lemma {:induction false} OtherNamesPanic(env: Env, h: Host, c: ConnId, content: string, arr: seq<Resp>)
    requires c !in h.tx && !IsName(Lower(content))
    ensures Handle(env, h, c, content, arr) == (h, Crash)
  {
    UnknownNames(Lower(content));
  }
}
