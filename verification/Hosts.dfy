/** The command interpreter as a function: what one command does to a server, and what it answers. */
module Hosts {
  import opened GoStrings
  import opened Resp
  import opened Stores

  type ConnId = nat

  /** The zero value of a connection id. Commands that EXEC runs carry it. */
  const NO_CONN: ConnId := 0

  datatype Verb =
    | Config | Discard | Echo | Exec | Get | Incr | Info | Keys | Multi | Ping | PSync
    | ReplConf | Set | Type | Wait | XAdd | XRange | XRead | Unknown

  function VerbOf(name: string): Verb {
    if name == "config" then Config
    else if name == "discard" then Discard
    else if name == "echo" then Echo
    else if name == "exec" then Exec
    else if name == "get" then Get
    else if name == "incr" then Incr
    else if name == "info" then Info
    else if name == "keys" then Keys
    else if name == "multi" then Multi
    else if name == "ping" then Ping
    else if name == "psync" then PSync
    else if name == "replconf" then ReplConf
    else if name == "set" then Set
    else if name == "type" then Type
    else if name == "wait" then Wait
    else if name == "xadd" then XAdd
    else if name == "xrange" then XRange
    else if name == "xread" then XRead
    else Unknown
  }

  datatype Queued = Queued(command: string, arr: seq<Resp>)

  /** Queued names are lower-case and neither EXEC nor DISCARD. */
  predicate Queueable(q: Queued) {
    Lower(q.command) == q.command && !VerbOf(q.command).Exec? && !VerbOf(q.command).Discard?
  }

  type Queue = q: seq<Queued> | forall i :: 0 <= i < |q| ==> Queueable(q[i])

  /**
    A server: its store, the open transactions, the events published so far, the replication
    offset, and how many commands have read the clock.
  */
  datatype Host = Host(store: Store, tx: map<ConnId, Queue>, log: seq<string>, processed: int, ticks: nat)

  /** A server that has just been started. */
  const NEW_HOST := Host(Store(map[], map[]), map[], [], 0, 0)

  /** The clock, and the answers of the handlers whose replies this model leaves open. */
  datatype Env = Env(clock: nat -> Millis, answer: (nat, seq<Resp>) -> Answer)

  /** What a handler gives back: a value, an error that closes the connection, or a Go panic. */
  datatype Answer = Reply(v: Resp) | Failed | Crashed

  /** What the client connection sees of a command. */
  datatype Outcome = Text(text: string) | Failure | Crash

  /** What a handler does: the new store, whether the command is published, and the answer. */
  datatype Effect = Effect(store: Store, published: bool, answer: Answer)

  /** The content of a bulk string argument; Go panics on a missing one or on another type. */
  function Arg(arr: seq<Resp>, i: nat): Option<string> {
    if i < |arr| && arr[i].Bulk? then Some(arr[i].content) else None
  }

  // ----- the handlers

  function ApplyGet(s: Store, arr: seq<Resp>, now: Millis): Effect {
    match Arg(arr, 1)
    case None => Effect(s, false, Crashed)
    case Some(key) =>
      var (s', r) := Stores.Get(s, key, now);
      Effect(s', false,
             if r.Ok? then if r.value.Str? then Reply(Bulk(r.value.text)) else Failed else Reply(Bulk("")))
  }

  function ApplyType(s: Store, arr: seq<Resp>, now: Millis): Effect {
    match Arg(arr, 1)
    case None => Effect(s, false, Crashed)
    case Some(key) =>
      var (s', r) := Stores.Get(s, key, now);
      Effect(s', false,
             Reply(Simple(if r.Ok? then if r.value.Str? then "string" else "stream" else "none")))
  }

  /** The expiry option of SET: none, or "px" and a number taken as unsigned. */
  function SetExpiry(arr: seq<Resp>): Result<nat> {
    if |arr| <= 3 then Ok(0)
    else
      match Arg(arr, 3)
      case None => Panic
      case Some(option) =>
        if option != "px" then Ok(0)
        else
          match Arg(arr, 4)
          case None => Panic
          case Some(text) => if Atoi(text).Err() then Error else Ok(Atoi(text).n % (MAX_UINT + 1))
  }

  function ApplySet(s: Store, arr: seq<Resp>, now: Millis): Effect {
    match (Arg(arr, 1), Arg(arr, 2))
    case (Some(key), Some(text)) =>
      (match SetExpiry(arr)
       case Ok(expiry) => Effect(Stores.Set(s, key, text, expiry, now), true, Reply(OK_RESPONSE))
       case Error => Effect(s, false, Failed)
       case _ => Effect(s, false, Crashed))
    case _ => Effect(s, false, Crashed)
  }

  const NOT_AN_INTEGER := Err("ERR value is not an integer or out of range")

  /** INCR: the 64-bit successor of the number under the key, or 1; anything else is left as it is. */
  function ApplyIncr(s: Store, arr: seq<Resp>, now: Millis): Effect {
    match Arg(arr, 1)
    case None => Effect(s, false, Crashed)
    case Some(key) =>
      var (s', r) := Stores.Get(s, key, now);
      if r.Ok? && r.value.Stream? then Effect(s', false, Failed)
      else if r.Ok? && Atoi(r.value.text).Err() then Effect(s', false, Reply(NOT_AN_INTEGER))
      else
        var newval := if r.Ok? then Wrap(Atoi(r.value.text).n + 1) else 1;
        Effect(Stores.Set(s', key, Itoa(newval), 0, now), true, Reply(Int(newval)))
  }

  function AddError(r: AddResult): string
    requires !r.Added?
  {
    match r
    case NotAStream => "expected stream to be a stream"
    case TooSmall(c) =>
      if c.NotAboveZero? then "ERR The ID specified in XADD must be greater than 0-0"
      else "ERR The ID specified in XADD is equal or smaller than the target stream top item"
  }

  /** XADD answers its errors and publishes nothing. */
  function ApplyXAdd(s: Store, arr: seq<Resp>, now: Millis): Effect {
    match (Arg(arr, 1), Arg(arr, 2), Arg(arr, 3), Arg(arr, 4))
    case (Some(streamkey), Some(seqkey), Some(field), Some(value)) =>
      var (s', r) := Stores.SetStream(s, streamkey, seqkey, field, value, now);
      Effect(s', false, Reply(if r.Added? then Bulk(r.seqkey) else Err(AddError(r))))
    case _ => Effect(s, false, Crashed)
  }

  function EntryReply(e: Entry): Resp {
    Arr([Bulk(e.seqkey), Arr([Bulk(e.field), Bulk(e.value)])])
  }

  function EntriesReply(es: seq<Entry>): Resp {
    Arr(seq(|es|, i requires 0 <= i < |es| => EntryReply(es[i])))
  }

  function StreamAnswer(r: Result<seq<Entry>>): Answer {
    match r
    case Ok(es) => Reply(EntriesReply(es))
    case Panic => Crashed
    case _ => Failed
  }

  function XRangeAnswer(s: Store, arr: seq<Resp>): Answer {
    match (Arg(arr, 1), Arg(arr, 2), Arg(arr, 3))
    case (Some(key), Some(start), Some(end)) => StreamAnswer(GetStream(s, key, start, end))
    case _ => Crashed
  }

  /** XREAD: the arguments after the second are the keys and then, one for each, the starts. */
  function XReadAnswer(s: Store, arr: seq<Resp>): Answer {
    var count := if |arr| < 2 then 0 else (|arr| - 2) / 2;
    if exists i :: 2 <= i < |arr| && !arr[i].Bulk? then Crashed
    else XReadKeys(s, arr, count, 0, [])
  }

  function XReadKeys(s: Store, arr: seq<Resp>, count: nat, i: nat, replies: seq<Resp>): Answer
    requires count == 0 || 2 + 2 * count <= |arr|
    requires i <= count
    decreases count - i
  {
    if i == count then Reply(Arr(replies))
    else
      match (Arg(arr, 2 + i), Arg(arr, 2 + count + i))
      case (Some(key), Some(start)) =>
        (match XReadStream(s, key, start)
         case Ok(es) => XReadKeys(s, arr, count, i + 1, replies + [Arr([Bulk(key), EntriesReply(es)])])
         case _ => Failed)
      case _ => Crashed
  }

  lemma {:induction false} XReadStep(s: Store, arr: seq<Resp>, count: nat, i: nat, next: nat, replies: seq<Resp>)
    requires 2 + 2 * count <= |arr| && i < count && next == i + 1
    ensures XReadKeys(s, arr, count, i, replies) ==
            match (Arg(arr, 2 + i), Arg(arr, 2 + count + i))
            case (Some(key), Some(start)) =>
              (match XReadStream(s, key, start)
               case Ok(es) => XReadKeys(s, arr, count, next, replies + [Arr([Bulk(key), EntriesReply(es)])])
               case _ => Failed)
            case _ => Crashed
  {
  }

  function ReplConfAnswer(processed: int, arr: seq<Resp>): Answer {
    match Arg(arr, 1)
    case None => Crashed
    case Some(option) =>
      var name := Lower(option);
      if name == "listening-port" || name == "capa" then Reply(OK_RESPONSE)
      else if name == "getack" then Reply(AckResponse(processed))
      else Failed
  }

  /** The effect of every command that leaves transactions alone. */
  function Apply(env: Env, h: Host, verb: Verb, arr: seq<Resp>): Effect {
    var now := env.clock(h.ticks);
    match verb
    case Get => ApplyGet(h.store, arr, now)
    case Type => ApplyType(h.store, arr, now)
    case Set => ApplySet(h.store, arr, now)
    case Incr => ApplyIncr(h.store, arr, now)
    case XAdd => ApplyXAdd(h.store, arr, now)
    case XRange => Effect(h.store, false, XRangeAnswer(h.store, arr))
    case XRead => Effect(h.store, false, XReadAnswer(h.store, arr))
    case ReplConf => Effect(h.store, false, ReplConfAnswer(h.processed, arr))
    case Echo => Effect(h.store, false, if |arr| == 2 then Reply(arr[1]) else Failed)
    case Ping => Effect(h.store, false, Reply(Simple("PONG")))
    case Wait => Effect(h.store, false, Reply(Int(0)))
    case Config => Effect(h.store, false, env.answer(h.ticks, arr))
    case Info => Effect(h.store, false, env.answer(h.ticks, arr))
    case Keys => Effect(h.store, false, env.answer(h.ticks, arr))
    case _ => Effect(h.store, false, Crashed)
  }

  function Told(a: Answer): Outcome {
    match a
    case Reply(v) => Text(Encode(v))
    case Failed => Failure
    case Crashed => Crash
  }

  function Perform(env: Env, h: Host, verb: Verb, arr: seq<Resp>): (Host, Outcome) {
    var e := Apply(env, h, verb, arr);
    (Host(e.store, h.tx, if e.published then h.log + [Encode(Arr(arr))] else h.log, h.processed, h.ticks + 1),
     Told(e.answer))
  }

  // ----- HandleCommand and HandleExec

  const QUEUED := Simple("QUEUED")
  const EXEC_ALONE := Err("ERR EXEC without MULTI")
  const DISCARD_ALONE := Err("ERR DISCARD without MULTI")

  lemma {:induction false} QueueableName(content: string, arr: seq<Resp>)
    requires !VerbOf(Lower(content)).Exec? && !VerbOf(Lower(content)).Discard?
    ensures Queueable(Queued(Lower(content), arr))
  {
    LowerIdempotent(content);
  }

  /**
    HandleCommand. It ends: EXEC is the only command that runs others, and a queue holds no EXEC.
    PSYNC answers on the connection itself and comes back empty-handed when the follower hangs up.
  */
  function Handle(env: Env, h: Host, conn: ConnId, content: string, arr: seq<Resp>): (Host, Outcome)
    decreases if VerbOf(Lower(content)).Exec? then 1 else 0, 1, 0
  {
    var name := Lower(content);
    var verb := VerbOf(name);
    if conn in h.tx && !verb.Exec? && !verb.Discard? then
      QueueableName(content, arr);
      (h.(tx := h.tx[conn := h.tx[conn] + [Queued(name, arr)]]), Text(Encode(QUEUED)))
    else
      match verb
      case Multi => (h.(tx := h.tx[conn := []]), Text(Encode(OK_RESPONSE)))
      case Discard =>
        if conn !in h.tx then (h, Text(Encode(DISCARD_ALONE)))
        else (h.(tx := h.tx - {conn}), Text(Encode(OK_RESPONSE)))
      case Exec =>
        if conn !in h.tx then (h, Text(Encode(EXEC_ALONE)))
        else RunQueue(env, h.(tx := h.tx - {conn}), h.tx[conn], [])
      case PSync => (h, Text(""))
      case Unknown => (h, Crash)
      case _ => Perform(env, h, verb, arr)
  }

  /** The loop of HandleExec: every queued command under the zero id, until one fails. */
  function RunQueue(env: Env, h: Host, queue: Queue, replies: seq<string>): (Host, Outcome)
    decreases 0, 2, |queue|
  {
    if queue == [] then (h, Text(JoinReplies(replies)))
    else
      assert Queueable(queue[0]);
      var (h', out) := Handle(env, h, NO_CONN, queue[0].command, queue[0].arr);
      match out
      case Text(t) => RunQueue(env, h', queue[1..], replies + [t])
      case Failure => (h', Failure)
      case Crash => (h', Crash)
  }

  /** What RunQueue makes of its first command. */
  lemma {:induction false} RunQueueFirst(env: Env, h: Host, queue: Queue, replies: seq<string>, h': Host, out: Outcome)
    requires queue != [] && (h', out) == Handle(env, h, NO_CONN, queue[0].command, queue[0].arr)
    ensures RunQueue(env, h, queue, replies).0 ==
            if out.Text? then RunQueue(env, h', queue[1..], replies + [out.text]).0 else h'
  {
  }
}
