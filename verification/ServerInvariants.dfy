/** What every command keeps of the store, and so every run of commands from any connections. */
module ServerInvariants {
  import opened GoStrings
  import opened Resp
  import opened Stores
  import opened Hosts
  import opened Runs
  import opened Transactions

  /** Streams are valid, and no string has become a stream. */
  ghost predicate Keeps(s: Store, s': Store) {
    && (ValidStore(s) ==> ValidStore(s'))
    && (forall k :: k in s.values && s.values[k].Str? ==> k in s'.values && s'.values[k].Str?)
  }

  lemma {:induction false} XAddKeeps(s: Store, arr: seq<Resp>, now: Millis)
    ensures Keeps(s, ApplyXAdd(s, arr, now).store)
  {
    if Arg(arr, 1).Some? && Arg(arr, 2).Some? && Arg(arr, 3).Some? && Arg(arr, 4).Some? && ValidStore(s) {
      SetStreamKeepsStore(s, arr[1].content, arr[2].content, arr[3].content, arr[4].content, now);
    }
  }

  lemma {:induction false} GetKeeps(s: Store, key: string, now: Millis)
    ensures Keeps(s, Stores.Get(s, key, now).0)
  {
  }

  lemma {:induction false} SetKeeps(s: Store, key: string, text: string, expiry: nat, now: Millis)
    ensures Keeps(s, Stores.Set(s, key, text, expiry, now))
  {
  }

  lemma {:induction false} IncrKeeps(s: Store, arr: seq<Resp>, now: Millis)
    ensures Keeps(s, ApplyIncr(s, arr, now).store)
  {
    if Arg(arr, 1).Some? {
      var key := arr[1].content;
      var (s', r) := Stores.Get(s, key, now);
      GetKeeps(s, key, now);
      var newval := if r.Ok? && r.value.Str? && !Atoi(r.value.text).Err() then Wrap(Atoi(r.value.text).n + 1) else 1;
      SetKeeps(s', key, Itoa(newval), 0, now);
    }
  }

  lemma {:induction false} ApplyKeeps(env: Env, h: Host, verb: Verb, arr: seq<Resp>)
    ensures Keeps(h.store, Apply(env, h, verb, arr).store)
  {
    var s, now := h.store, env.clock(h.ticks);
    match verb {
      case XAdd => XAddKeeps(s, arr, now);
      case Incr => IncrKeeps(s, arr, now);
      case Set =>
        if Arg(arr, 1).Some? && Arg(arr, 2).Some? && SetExpiry(arr).Ok? {
          SetKeeps(s, arr[1].content, arr[2].content, SetExpiry(arr).value, now);
        }
      case Get =>
        if Arg(arr, 1).Some? {
          GetKeeps(s, arr[1].content, now);
        }
      case Type =>
        if Arg(arr, 1).Some? {
          GetKeeps(s, arr[1].content, now);
        }
      case _ =>
    }
  }

  lemma {:induction false} StoreAfter(env: Env, h: Host, conn: ConnId, content: string, arr: seq<Resp>)
    requires !VerbOf(Lower(content)).Exec?
    ensures var s := Handle(env, h, conn, content, arr).0.store;
            s == h.store || s == Apply(env, h, VerbOf(Lower(content)), arr).store
  {
  }

  lemma {:induction false} SimpleKeeps(env: Env, h: Host, conn: ConnId, content: string, arr: seq<Resp>)
    requires !VerbOf(Lower(content)).Exec?
    ensures Keeps(h.store, Handle(env, h, conn, content, arr).0.store)
  {
    StoreAfter(env, h, conn, content, arr);
    ApplyKeeps(env, h, VerbOf(Lower(content)), arr);
  }

  lemma {:induction false} QueueKeeps(env: Env, h: Host, queue: Queue, replies: seq<string>)
    ensures Keeps(h.store, RunQueue(env, h, queue, replies).0.store)
    decreases |queue|
  {
    if queue != [] {
      var q := queue[0];
      assert Queueable(q);
      var (h', out) := Handle(env, h, NO_CONN, q.command, q.arr);
      SimpleKeeps(env, h, NO_CONN, q.command, q.arr);
      if out.Text? {
        QueueKeeps(env, h', queue[1..], replies + [out.text]);
      }
    }
  }

  /** Every command, EXEC with all it runs included, keeps the store sound. */
  lemma {:induction false} HandleKeeps(env: Env, h: Host, conn: ConnId, content: string, arr: seq<Resp>)
    ensures Keeps(h.store, Handle(env, h, conn, content, arr).0.store)
  {
    if VerbOf(Lower(content)).Exec? {
      if conn in h.tx {
        QueueKeeps(env, h.(tx := h.tx - {conn}), h.tx[conn], []);
      }
    } else {
      SimpleKeeps(env, h, conn, content, arr);
    }
  }

  /** In every reachable server each stream is increasing, properly keyed, and no string key turned into a stream. */
  lemma {:induction false} RunKeeps(env: Env, h: Host, events: seq<Event>)
    ensures Keeps(h.store, Run(Serve(env), h, events).store)
    decreases |events|
  {
    if events != [] {
      var e := events[0];
      HandleKeeps(env, h, e.conn, e.content, e.arr);
      RunKeeps(env, Serve(env)(h, e), events[1..]);
    }
  }
}
