/** The server as an object: the shared context that the command handlers update. */
module HostContexts {
  import opened GoStrings
  import opened Resp
  import opened Stores
  import opened KvStores
  import opened Hosts

  class HostContext {
    const env: Env
    const store: KvStore
    var tx: map<ConnId, Queue>
    var log: seq<string>
    var processed: int
    var ticks: nat

    ghost function View(): Host
      reads this, store
    {
      Host(store.View(), tx, log, processed, ticks)
    }

    constructor (env: Env, store: KvStore)
      ensures this.env == env && this.store == store
      ensures View() == Host(store.View(), map[], [], 0, 0)
    {
      this.env, this.store := env, store;
      tx, log, processed, ticks := map[], [], 0, 0;
    }

    method AppendProcessedBytes(count: int)
      modifies this
      ensures View() == old(View()).(processed := old(processed) + count)
    {
      processed := processed + count;
    }

    predicate IsInTransaction(conn: ConnId)
      reads this
    {
      conn in tx
    }

    method BeginTransaction(conn: ConnId)
      modifies this
      ensures View() == old(View()).(tx := old(tx)[conn := []])
    {
      tx := tx[conn := []];
    }

    method ConsumeTransactionQueue(conn: ConnId) returns (queue: Queue)
      modifies this
      ensures queue == if conn in old(tx) then old(tx)[conn] else []
      ensures View() == old(View()).(tx := old(tx) - {conn})
    {
      queue := if conn in tx then tx[conn] else [];
      tx := tx - {conn};
    }

    method QueueCommand(conn: ConnId, command: string, arr: seq<Resp>) returns (ok: bool)
      requires Queueable(Queued(command, arr))
      modifies this
      ensures ok == (conn in old(tx))
      ensures View() == old(View()).(tx :=
                if conn in old(tx) then old(tx)[conn := old(tx)[conn] + [Queued(command, arr)]] else old(tx))
    {
      ok := conn in tx;
      if ok {
        tx := tx[conn := tx[conn] + [Queued(command, arr)]];
      }
    }

    /** Hands an event to the publisher. */
    method Publish(event: string)
      modifies this
      ensures View() == old(View()).(log := old(log) + [event])
    {
      log := log + [event];
    }

    /** The reading of the clock that the next command sees. */
    method Now() returns (ms: Millis)
      modifies this
      ensures ms == env.clock(old(ticks))
      ensures View() == old(View()).(ticks := old(ticks) + 1)
    {
      ms := env.clock(ticks);
      ticks := ticks + 1;
    }

    method HandleSet(arr: seq<Resp>) returns (out: Outcome)
      modifies this, store
      ensures (View(), out) == Perform(env, old(View()), Set, arr)
    {
      var ms := Now();
      var key, text := Arg(arr, 1), Arg(arr, 2);
      if key.None? || text.None? {
        return Crash;
      }
      var expiry := 0;
      if |arr| > 3 {
        var option := Arg(arr, 3);
        if option.None? {
          return Crash;
        }
        if option.value == "px" {
          var px := Arg(arr, 4);
          if px.None? {
            return Crash;
          }
          if Atoi(px.value).Err() {
            return Failure;
          }
          expiry := Atoi(px.value).n % (MAX_UINT + 1);
        }
      }
      store.Set(key.value, text.value, expiry, ms);
      var event := ArrayAsRespString(arr);
      Publish(event);
      out := Text(Encode(OK_RESPONSE));
    }

    method HandleIncr(arr: seq<Resp>) returns (out: Outcome)
      modifies this, store
      ensures (View(), out) == Perform(env, old(View()), Incr, arr)
    {
      var ms := Now();
      var key := Arg(arr, 1);
      if key.None? {
        return Crash;
      }
      var val := store.Get(key.value, ms);
      var newval := 1;
      if val.Ok? {
        match val.value
        case Stream(_) =>
          return Failure;
        case Str(v) =>
          var intval := Atoi(v);
          if intval.Err() {
            return Text(Encode(NOT_AN_INTEGER));
          }
          newval := Wrap(intval.n + 1);
      }
      store.Set(key.value, Itoa(newval), 0, ms);
      assert ApplyIncr(old(store.View()), arr, ms) == Effect(store.View(), true, Reply(Int(newval)));
      var event := ArrayAsRespString(arr);
      Publish(event);
      out := Text(Encode(Int(newval)));
    }

    method HandleXAdd(arr: seq<Resp>) returns (out: Outcome)
      modifies this, store
      ensures (View(), out) == Perform(env, old(View()), XAdd, arr)
    {
      var ms := Now();
      var streamkey, seqkey, field, value := Arg(arr, 1), Arg(arr, 2), Arg(arr, 3), Arg(arr, 4);
      if streamkey.None? || seqkey.None? || field.None? || value.None? {
        return Crash;
      }
      var r := store.SetStream(streamkey.value, seqkey.value, field.value, value.value, ms);
      out := Text(Encode(if r.Added? then Bulk(r.seqkey) else Err(AddError(r))));
    }

    method HandleGet(arr: seq<Resp>) returns (out: Outcome)
      modifies this, store
      ensures (View(), out) == Perform(env, old(View()), Get, arr)
    {
      var ms := Now();
      var key := Arg(arr, 1);
      if key.None? {
        return Crash;
      }
      var val := store.Get(key.value, ms);
      if !val.Ok? {
        return Text(Encode(Bulk("")));
      }
      out := if val.value.Str? then Text(Encode(Bulk(val.value.text))) else Failure;
    }

    method HandleType(arr: seq<Resp>) returns (out: Outcome)
      modifies this, store
      ensures (View(), out) == Perform(env, old(View()), Type, arr)
    {
      var ms := Now();
      var key := Arg(arr, 1);
      if key.None? {
        return Crash;
      }
      var val := store.Get(key.value, ms);
      out := Text(Encode(Simple(if !val.Ok? then "none" else if val.value.Str? then "string" else "stream")));
    }

    method HandleXRange(arr: seq<Resp>) returns (out: Outcome)
      modifies this, store
      ensures (View(), out) == Perform(env, old(View()), XRange, arr)
    {
      var ms := Now();
      var key, start, end := Arg(arr, 1), Arg(arr, 2), Arg(arr, 3);
      if key.None? || start.None? || end.None? {
        return Crash;
      }
      var r := store.GetStream(key.value, start.value, end.value);
      out := Told(StreamAnswer(r));
    }

    method HandleXRead(arr: seq<Resp>) returns (out: Outcome)
      modifies this, store
      ensures (View(), out) == Perform(env, old(View()), XRead, arr)
    {
      var ms := Now();
      var count := if |arr| < 2 then 0 else (|arr| - 2) / 2;
      if exists i :: 2 <= i < |arr| && !arr[i].Bulk? {
        return Crash;
      }
      var arrs := [];
      ghost var answer := XReadKeys(store.View(), arr, count, 0, arrs);
      var i := 0;
      while i < count
        invariant 0 <= i <= count
        invariant View() == old(View()).(ticks := old(ticks) + 1)
        invariant answer == XReadKeys(store.View(), arr, count, i, arrs)
        decreases count - i
      {
        ghost var next := i + 1;
        XReadStep(store.View(), arr, count, i, next, arrs);
        var key, start := arr[2 + i].content, arr[2 + count + i].content;
        var r := store.XReadStream(key, start);
        if !r.Ok? {
          return Failure;
        }
        arrs := arrs + [Arr([Bulk(key), EntriesReply(r.value)])];
        i := i + 1;
        assert i == next;
      }
      out := Text(Encode(Arr(arrs)));
    }

    /** The handlers that compute a reply and change nothing. */
    method HandlePlain(verb: Verb, arr: seq<Resp>) returns (out: Outcome)
      requires verb.ReplConf? || verb.Echo? || verb.Ping? || verb.Wait? || verb.Config? || verb.Info? || verb.Keys?
      modifies this, store
      ensures (View(), out) == Perform(env, old(View()), verb, arr)
    {
      var now := ticks;
      var ms := Now();
      match verb
      case ReplConf => out := Told(ReplConfAnswer(processed, arr));
      case Echo => out := if |arr| == 2 then Text(Encode(arr[1])) else Failure;
      case Ping =>
        assert "+" + "PONG" + CRLF == "+PONG\r\n";
        out := Text("+PONG\r\n");
      case Wait => out := Text(Encode(Int(0)));
      case _ => out := Told(env.answer(now, arr));
    }

    method HandleMulti(conn: ConnId) returns (out: Outcome)
      modifies this
      ensures View() == old(View()).(tx := old(tx)[conn := []]) && out == Text(Encode(OK_RESPONSE))
    {
      BeginTransaction(conn);
      out := Text(Encode(OK_RESPONSE));
    }

    method HandleDiscard(conn: ConnId) returns (out: Outcome)
      modifies this
      ensures View() == old(View()).(tx := old(tx) - {conn})
      ensures out == Text(Encode(if conn in old(tx) then OK_RESPONSE else DISCARD_ALONE))
    {
      if !IsInTransaction(conn) {
        assert tx - {conn} == tx;
        return Text(Encode(DISCARD_ALONE));
      }
      var queue := ConsumeTransactionQueue(conn);
      out := Text(Encode(OK_RESPONSE));
    }

    /** Consumes the queue and then runs it, command by command, under the zero id. */
    method HandleExec(conn: ConnId) returns (out: Outcome)
      modifies this, store
      ensures (View(), out) ==
              if conn !in old(tx) then (old(View()), Text(Encode(EXEC_ALONE)))
              else RunQueue(env, old(View()).(tx := old(tx) - {conn}), old(tx)[conn], [])
      decreases 1, 0
    {
      if !IsInTransaction(conn) {
        return Text(Encode(EXEC_ALONE));
      }
      var queue := ConsumeTransactionQueue(conn);
      var result := [];
      ghost var end := RunQueue(env, View(), queue, result);
      ghost var rest: Queue := queue;
      var i := 0;
      while i < |queue|
        invariant 0 <= i <= |queue| && rest == queue[i..]
        invariant end == RunQueue(env, View(), rest, result)
        decreases |queue| - i
      {
        assert Queueable(queue[i]) && rest[0] == queue[i];
        var res := HandleCommand(NO_CONN, queue[i].command, queue[i].arr);
        match res
        case Failure => return Failure;
        case Crash => return Crash;
        case Text(t) =>
          result := result + [t];
          i := i + 1;
          rest := rest[1..];
      }
      var text := ArrayFromRespStrings(result);
      out := Text(text);
    }

    method HandleCommand(conn: ConnId, content: string, arr: seq<Resp>) returns (out: Outcome)
      modifies this, store
      ensures (View(), out) == Handle(env, old(View()), conn, content, arr)
      decreases if VerbOf(Lower(content)).Exec? then 1 else 0, 1
    {
      var name := Lower(content);
      var verb := VerbOf(name);
      if IsInTransaction(conn) && !verb.Exec? && !verb.Discard? {
        QueueableName(content, arr);
        var queued := QueueCommand(conn, name, arr);
        return Text(Encode(QUEUED));
      }
      match verb
      case Discard => out := HandleDiscard(conn); assert old(tx) - {conn} == old(tx) || conn in old(tx);
      case Exec => out := HandleExec(conn);
      case Multi => out := HandleMulti(conn);
      case PSync => out := Text("");
      case Unknown => out := Crash;
      case Get => out := HandleGet(arr);
      case Type => out := HandleType(arr);
      case Set => out := HandleSet(arr);
      case Incr => out := HandleIncr(arr);
      case XAdd => out := HandleXAdd(arr);
      case XRange => out := HandleXRange(arr);
      case XRead => out := HandleXRead(arr);
      case _ => out := HandlePlain(verb, arr);
    }
  }
}
