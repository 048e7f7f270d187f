/** A follower that replays what the leader publishes ends with the leader's strings. */
module Convergence {
  import opened GoStrings
  import opened Resp
  import opened Stores
  import opened Hosts
  import opened Runs
  import opened Transactions
  import opened Replication
  import opened RespGrammar
  import opened StoreCommands

  /** The string-valued part of a store, which is all that is replicated. */
  function StringPart(s: Store): map<string, Value> {
    map k | k in s.values && s.values[k].Str? :: s.values[k]
  }

  /** The follower's store holds the leader's strings and nothing else. */
  predicate SameStrings(leader: Store, follower: Store) {
    follower.values == StringPart(leader)
  }

  /** Equal strings, and only the keys in `dated` have deadlines, whatever these are on either side. */
  predicate Synced(dated: set<string>, leader: Store, follower: Store) {
    && SameStrings(leader, follower)
    && leader.expiries.Keys <= dated && follower.expiries.Keys <= dated
  }

  // ----- commands that replicate

  /** Commands that may be published: a SET that is not refused, and an INCR. */
  predicate MayPublish(verb: Verb, arr: seq<Resp>) {
    || (verb.Set? && Arg(arr, 1).Some? && Arg(arr, 2).Some? && SetExpiry(arr).Ok?)
    || (verb.Incr? && Arg(arr, 1).Some?)
  }

  /**
    Nothing is asked of a command that is not published. One that may be is named by its first element
    and reads back, and an INCR counts no key that ever got a deadline, which are the keys in `dated`.
  */
  predicate Replicable(dated: set<string>, q: Queued) {
    var verb := VerbOf(q.command);
    MayPublish(verb, q.arr) ==>
      Sendable(q.arr) && Lower(q.arr[0].content) == q.command && (verb.Incr? ==> Arg(q.arr, 1).value !in dated)
  }

  /** A SET with a deadline adds its key. */
  function Grown(dated: set<string>, verb: Verb, arr: seq<Resp>): set<string> {
    if verb.Set? && MayPublish(verb, arr) && SetExpiry(arr).value != 0 then dated + {Arg(arr, 1).value} else dated
  }

  predicate AllReplicable(dated: set<string>, qs: seq<Queued>)
    decreases |qs|
  {
    qs == [] || (Replicable(dated, qs[0]) && AllReplicable(Grown(dated, VerbOf(qs[0].command), qs[0].arr), qs[1..]))
  }

  function GrownAll(dated: set<string>, qs: seq<Queued>): (all: set<string>)
    ensures dated <= all
    decreases |qs|
  {
    if qs == [] then dated else GrownAll(Grown(dated, VerbOf(qs[0].command), qs[0].arr), qs[1..])
  }

  /** The commands that an event executes: the queue of an EXEC, none while one is filled, else the command itself. */
  function Executed(h: Host, e: Event): seq<Queued> {
    if VerbAt(e).Exec? then if e.conn in h.tx then h.tx[e.conn] else []
    else if e.conn in h.tx then []
    else [Queued(Lower(e.content), e.arr)]
  }

  // ----- one command

  lemma {:induction false} SetSyncs(dated: set<string>, s: Store, f: Store, arr: seq<Resp>, now: Millis, now': Millis)
    requires Synced(dated, s, f)
    ensures var e, e' := ApplySet(s, arr, now), ApplySet(f, arr, now');
            if e.published then
              && MayPublish(Set, arr) && e'.answer.Reply? && e'.published
              && Synced(Grown(dated, Set, arr), e.store, e'.store)
            else e.store == s
  {
    if MayPublish(Set, arr) {
      SetKeepsStrings(s, f, arr[1].content, arr[2].content, SetExpiry(arr).value, now, now');
    }
  }

  lemma {:induction false} SetKeepsStrings(s: Store, f: Store, key: string, text: string, px: nat, now: Millis, now': Millis)
    requires SameStrings(s, f)
    ensures SameStrings(Stores.Set(s, key, text, px, now), Stores.Set(f, key, text, px, now'))
  {
  }

  lemma {:induction false} IncrSyncs(dated: set<string>, s: Store, f: Store, arr: seq<Resp>, now: Millis, now': Millis)
    requires Synced(dated, s, f) && (MayPublish(Incr, arr) ==> Arg(arr, 1).value !in dated)
    ensures var e, e' := ApplyIncr(s, arr, now), ApplyIncr(f, arr, now');
            if e.published then MayPublish(Incr, arr) && e'.answer.Reply? && e'.published && Synced(dated, e.store, e'.store)
            else e.store.values == s.values && e.store.expiries.Keys <= s.expiries.Keys
  {
    if Arg(arr, 1).Some? {
      var key := arr[1].content;
      IncrStores(s, arr, key, now);
      IncrStores(f, arr, key, now');
      assert key in f.values <==> key in s.values && s.values[key].Str?;
      if ApplyIncr(s, arr, now).published {
        StringPartOfSet(s.values, key, Itoa(Counted(s, key, now)), ApplyIncr(s, arr, now).store);
      }
    }
  }

  lemma {:induction false} StringPartOfSet(values: map<string, Value>, key: string, text: string, s: Store)
    requires s.values == values[key := Str(text)]
    ensures StringPart(s) == StringPart(Store(values, map[]))[key := Str(text)]
  {
  }

  /** What the two sides count, and when that is the same. */
  lemma {:induction false} CountsAgreeIff(s: Store, f: Store, key: string, now: Millis, now': Millis, m: int, n: int)
    requires SameStrings(s, f) && m == Counted(s, key, now) && n == Counted(f, key, now')
    requires key !in s.values || Hidden(s, key, now) || (s.values[key].Str? && !Atoi(s.values[key].text).Err())
    ensures var agree := Hidden(s, key, now) == Hidden(f, key, now') || key !in f.values || Atoi(f.values[key].text) == Good(0);
            if key !in f.values || Hidden(f, key, now') || !Atoi(f.values[key].text).Err()
            then m == n <==> agree
            else !agree && f.values[key] != Str(Itoa(m))
  {
    assert key in f.values <==> key in s.values && s.values[key].Str?;
    AtoiItoa(1);
  }

  /** A published INCR leaves what the leader counted. */
  lemma {:induction false} CountIsStored(s: Store, f: Store, arr: seq<Resp>, key: string, now: Millis)
    requires SameStrings(s, f) && Arg(arr, 1) == Some(key) && ApplyIncr(s, arr, now).published
    ensures StringPart(ApplyIncr(s, arr, now).store) == f.values[key := Str(Itoa(Counted(s, key, now)))]
    ensures key !in s.values || Hidden(s, key, now) || (s.values[key].Str? && !Atoi(s.values[key].text).Err())
  {
    IncrStores(s, arr, key, now);
    StringPartOfSet(s.values, key, Itoa(Counted(s, key, now)), ApplyIncr(s, arr, now).store);
  }

  /**
    One published INCR, whatever deadlines the two sides have: the strings stay equal if and only if
    the deadline hides the key on both sides or on neither, or it makes no difference, because the key
    holds no string or the number 0.
  */
  lemma {:induction false} IncrKeepsStringsIff(s: Store, f: Store, arr: seq<Resp>, key: string, now: Millis, now': Millis)
    requires SameStrings(s, f) && Arg(arr, 1) == Some(key) && ApplyIncr(s, arr, now).published
    ensures SameStrings(ApplyIncr(s, arr, now).store, ApplyIncr(f, arr, now').store) <==>
            || Hidden(s, key, now) == Hidden(f, key, now')
            || key !in f.values
            || Atoi(f.values[key].text) == Good(0)
  {
    var m, n := Counted(s, key, now), Counted(f, key, now');
    CountIsStored(s, f, arr, key, now);
    CountsAgreeIff(s, f, key, now, now', m, n);
    IncrStores(f, arr, key, now');
    OneKeyApart(f.values, key, Itoa(m), Itoa(n));
    if Itoa(n) == Itoa(m) {
      ItoaInjective(m, n);
    }
  }

  /** Maps that differ in one key at most are equal exactly when they agree there. */
  lemma {:induction false} OneKeyApart(values: map<string, Value>, key: string, a: string, b: string)
    ensures values[key := Str(b)] == values[key := Str(a)] <==> a == b
    ensures values == values[key := Str(a)] <==> key in values && values[key] == Str(a)
  {
    assert values[key := Str(a)][key] == Str(a) && values[key := Str(b)][key] == Str(b);
    assert key in values ==> values[key := values[key]] == values;
  }

  /** XADD touches no string: it is not published and need not be. */
  lemma {:induction false} XAddKeepsStrings(s: Store, arr: seq<Resp>, now: Millis)
    ensures var e := ApplyXAdd(s, arr, now);
            StringPart(e.store) == StringPart(s) && e.store.expiries == s.expiries && !e.published
  {
    assert StringPart(ApplyXAdd(s, arr, now).store) == StringPart(s);
  }

  /** What is not published leaves the strings as they were; what is published has the same effect there. */
  lemma {:induction false} ApplySyncs(dated: set<string>, env: Env, h: Host, env': Env, f: Host, verb: Verb, arr: seq<Resp>)
    requires Synced(dated, h.store, f.store)
    requires verb.Incr? && MayPublish(verb, arr) ==> Arg(arr, 1).value !in dated
    ensures var e := Apply(env, h, verb, arr);
            if e.published then
              && MayPublish(verb, arr)
              && var e' := Apply(env', f, verb, arr);
                 e'.answer.Reply? && e'.published && Synced(Grown(dated, verb, arr), e.store, e'.store)
            else Synced(dated, e.store, f.store)
  {
    var now, now' := env.clock(h.ticks), env'.clock(f.ticks);
    match verb {
      case Set => SetSyncs(dated, h.store, f.store, arr, now, now');
      case Incr => IncrSyncs(dated, h.store, f.store, arr, now, now');
      case XAdd => XAddKeepsStrings(h.store, arr, now);
      case _ =>
    }
  }

  // ----- one published command at the follower

  /** The follower between two turns: up to date, without transactions, its offset equal to its counter. */
  ghost predicate Ready(dated: set<string>, leader: Host, f: Follower) {
    Synced(dated, leader.store, f.host.store) && f.host.tx == map[] && f.host.processed == f.counter
  }

  /** The follower after it has run one published command. */
  function AfterTurn(env: Env, f: Follower, verb: Verb, arr: seq<Resp>): Follower {
    var h := Perform(env, f.host, verb, arr).0;
    var counter := f.counter + |Encode(Arr(arr))|;
    Follower(h.(processed := h.processed + (counter - f.host.processed)), counter, f.drawn + 1, f.sent)
  }

  /** A connection without a transaction runs SET and INCR at once. */
  lemma {:induction false} RunsAtOnce(env: Env, h: Host, conn: ConnId, content: string, arr: seq<Resp>)
    requires h.tx == map[]
    requires VerbOf(Lower(content)).Set? || VerbOf(Lower(content)).Incr?
    ensures Handle(env, h, conn, content, arr) == Perform(env, h, VerbOf(Lower(content)), arr)
  {
  }

  lemma {:induction false} TurnReplays(env: Env, ids: nat -> ConnId, f: Follower, c: Command, s: string, rest: string)
    requires WellSent(c) && s == Encode(Arr(c.arr)) + rest && f.host.tx == map[]
    requires var verb := VerbOf(Lower(c.name));
             (verb.Set? || verb.Incr?) && Apply(env, f.host, verb, c.arr).answer.Reply?
    ensures Turn(env, ids, f, s) == (AfterTurn(env, f, VerbOf(Lower(c.name)), c.arr), rest, Completed)
  {
    var count := |Encode(Arr(c.arr))|;
    assert ParseCommand(s) == Step(Ok(c), rest, count) by {
      SentIsParsed(c.arr, rest);
      assert c == Command(c.arr[0].content, c.arr);
    }
    TurnOfCommand(env, ids, f, s, c, rest, count);
    RunsAtOnce(env, f.host, ids(f.drawn), c.name, c.arr);
    ConcludesReplay(env, f, c, count);
  }

  lemma {:induction false} ConcludesReplay(env: Env, f: Follower, c: Command, count: nat)
    requires count == |Encode(Arr(c.arr))|
    requires var verb := VerbOf(Lower(c.name));
             (verb.Set? || verb.Incr?) && Apply(env, f.host, verb, c.arr).answer.Reply?
    ensures var verb := VerbOf(Lower(c.name));
            var (h, out) := Perform(env, f.host, verb, c.arr);
            Conclude(f, f.counter + count, c, h, out) == (AfterTurn(env, f, verb, c.arr), Completed)
  {
  }

  lemma {:induction false} ListenReplays(env: Env, ids: nat -> ConnId, f: Follower, arr: seq<Resp>, rest: string)
    requires Sendable(arr) && f.host.tx == map[]
    requires var verb := VerbOf(Lower(arr[0].content));
             (verb.Set? || verb.Incr?) && Apply(env, f.host, verb, arr).answer.Reply?
    ensures Listen(env, ids, f, Encode(Arr(arr)) + rest) ==
            Listen(env, ids, AfterTurn(env, f, VerbOf(Lower(arr[0].content)), arr), rest)
  {
    TurnReplays(env, ids, f, Command(arr[0].content, arr), Encode(Arr(arr)) + rest, rest);
  }

  /** Fed with `events`, a follower in state `f` goes on as one in state `f'`. */
  ghost predicate Catches(feed: Feed, f: Follower, events: seq<string>, f': Follower) {
    && f'.counter == f.counter + |Flatten(events)| && f'.sent == f.sent
    && forall rest :: feed(f, Flatten(events) + rest) == feed(f', rest)
  }

  lemma {:induction false} NothingInFront(s: string)
    ensures "" + s == s
  {
  }

  lemma {:induction false} CatchesNothing(feed: Feed, f: Follower)
    ensures Catches(feed, f, [], f)
  {
    var none: seq<string> := [];
    assert Flatten(none) == "";
    forall rest
      ensures feed(f, Flatten(none) + rest) == feed(f, rest)
    {
      NothingInFront(rest);
    }
  }

  lemma {:induction false} CatchesBoth(feed: Feed, f: Follower, a: seq<string>, f': Follower, b: seq<string>, f'': Follower)
    requires Catches(feed, f, a, f') && Catches(feed, f', b, f'')
    ensures Catches(feed, f, a + b, f'')
  {
    FlattenConcat(a, b);
    forall rest
      ensures feed(f, Flatten(a + b) + rest) == feed(f'', rest)
    {
      var more := Flatten(b) + rest;
      assert Flatten(a + b) + rest == Flatten(a) + more;
      assert feed(f, Flatten(a) + more) == feed(f', more);
    }
  }

  lemma {:induction false} CatchesOne(env: Env, ids: nat -> ConnId, f: Follower, arr: seq<Resp>)
    requires Sendable(arr) && f.host.tx == map[]
    requires var verb := VerbOf(Lower(arr[0].content));
             (verb.Set? || verb.Incr?) && Apply(env, f.host, verb, arr).answer.Reply?
    ensures Catches(Listener(env, ids), f, [Encode(Arr(arr))], AfterTurn(env, f, VerbOf(Lower(arr[0].content)), arr))
  {
    var e := Encode(Arr(arr));
    assert Flatten([e]) == e + Flatten([]) == e;
    forall rest
      ensures Listener(env, ids)(f, Flatten([e]) + rest) ==
              Listener(env, ids)(AfterTurn(env, f, VerbOf(Lower(arr[0].content)), arr), rest)
    {
      ListenReplays(env, ids, f, arr, rest);
    }
  }

  // ----- one command at the leader

  /** The leader went from `h` to `h'` and published `events`; fed with them the follower is ready again. */
  ghost predicate Follows(dated: set<string>, feed: Feed, h: Host, f: Follower, h': Host, events: seq<string>, f': Follower) {
    && h'.log == h.log + events
    && Ready(dated, h', f')
    && Catches(feed, f, events, f')
  }

  lemma {:induction false} FollowsIdle(dated: set<string>, feed: Feed, h: Host, f: Follower, h': Host)
    requires h'.log == h.log && Ready(dated, h', f)
    ensures Follows(dated, feed, h, f, h', [], f)
  {
    assert h.log + [] == h.log;
    CatchesNothing(feed, f);
  }

  lemma {:induction false} FollowsMore(dated: set<string>, feed: Feed, h: Host, f: Follower, h': Host, events: seq<string>,
                                       f': Follower, more: set<string>)
    requires Follows(dated, feed, h, f, h', events, f') && dated <= more
    ensures Follows(more, feed, h, f, h', events, f')
  {
  }

  lemma {:induction false} FollowsBoth(dated: set<string>, feed: Feed, h: Host, f: Follower, h': Host, a: seq<string>, f': Follower,
                                       more: set<string>, h'': Host, b: seq<string>, f'': Follower)
    requires Follows(dated, feed, h, f, h', a, f') && Follows(more, feed, h', f', h'', b, f'')
    ensures Follows(more, feed, h, f, h'', a + b, f'')
  {
    assert h.log + a + b == h.log + (a + b);
    CatchesBoth(feed, f, a, f', b, f'');
  }

  lemma {:induction false} PerformFollows(dated: set<string>, env: Env, h: Host, env': Env, ids: nat -> ConnId, f: Follower,
                                          q: Queued, verb: Verb)
    returns (events: seq<string>, f': Follower)
    requires Ready(dated, h, f) && Replicable(dated, q) && verb == VerbOf(q.command)
    ensures Follows(Grown(dated, verb, q.arr), Listener(env', ids), h, f, Perform(env, h, verb, q.arr).0, events, f')
  {
    ApplySyncs(dated, env, h, env', f.host, verb, q.arr);
    if Apply(env, h, verb, q.arr).published {
      events, f' := [Encode(Arr(q.arr))], AfterTurn(env', f, verb, q.arr);
      CatchesOne(env', ids, f, q.arr);
    } else {
      events, f' := [], f;
      FollowsIdle(Grown(dated, verb, q.arr), Listener(env', ids), h, f, Perform(env, h, verb, q.arr).0);
    }
  }

  /** A command other than EXEC, at the leader. */
  lemma {:induction false} SimpleFollows(dated: set<string>, env: Env, h: Host, env': Env, ids: nat -> ConnId, f: Follower,
                                         conn: ConnId, content: string, arr: seq<Resp>)
    returns (events: seq<string>, f': Follower)
    requires Ready(dated, h, f) && (conn in h.tx || Replicable(dated, Queued(Lower(content), arr)))
    requires !VerbOf(Lower(content)).Exec?
    ensures Follows(Grown(dated, VerbOf(Lower(content)), arr), Listener(env', ids), h, f,
                    Handle(env, h, conn, content, arr).0, events, f')
    ensures conn in h.tx ==> Follows(dated, Listener(env', ids), h, f, Handle(env, h, conn, content, arr).0, events, f')
  {
    var h' := Handle(env, h, conn, content, arr).0;
    var verb := VerbOf(Lower(content));
    if conn !in h.tx && h' == Perform(env, h, verb, arr).0 {
      events, f' := PerformFollows(dated, env, h, env', ids, f, Queued(Lower(content), arr), verb);
    } else {
      events, f' := [], f;
      FollowsIdle(dated, Listener(env', ids), h, f, h');
      FollowsMore(dated, Listener(env', ids), h, f, h', [], f, Grown(dated, verb, arr));
    }
  }

  lemma {:induction false} QueueFollows(dated: set<string>, env: Env, h: Host, env': Env, ids: nat -> ConnId, f: Follower,
                                        queue: Queue, replies: seq<string>)
    returns (events: seq<string>, f': Follower)
    requires Ready(dated, h, f) && AllReplicable(dated, queue)
    ensures Follows(GrownAll(dated, queue), Listener(env', ids), h, f, RunQueue(env, h, queue, replies).0, events, f')
    decreases |queue|
  {
    var feed, all := Listener(env', ids), GrownAll(dated, queue);
    if queue == [] {
      events, f' := [], f;
      FollowsIdle(dated, feed, h, f, h);
    } else {
      var q := queue[0];
      assert Queueable(q);
      var (h1, out) := Handle(env, h, NO_CONN, q.command, q.arr);
      var more := Grown(dated, VerbOf(q.command), q.arr);
      RunQueueFirst(env, h, queue, replies, h1, out);
      events, f' := SimpleFollows(dated, env, h, env', ids, f, NO_CONN, q.command, q.arr);
      if out.Text? {
        var rest, replies' := queue[1..], replies + [out.text];
        var later, f'' := QueueFollows(more, env, h1, env', ids, f', rest, replies');
        FollowsBoth(more, feed, h, f, h1, events, f', all, RunQueue(env, h1, rest, replies').0, later, f'');
        events, f' := events + later, f'';
      } else {
        FollowsMore(more, feed, h, f, h1, events, f', all);
      }
    }
  }

  /** Whatever one event makes the leader execute and publish, the follower can follow. */
  lemma {:induction false} HandleFollows(dated: set<string>, env: Env, h: Host, env': Env, ids: nat -> ConnId, f: Follower, e: Event)
    returns (events: seq<string>, f': Follower)
    requires Ready(dated, h, f) && AllReplicable(dated, Executed(h, e))
    ensures Follows(GrownAll(dated, Executed(h, e)), Listener(env', ids), h, f, Serve(env)(h, e), events, f')
  {
    if VerbAt(e).Exec? {
      if e.conn in h.tx {
        var start := h.(tx := h.tx - {e.conn});
        events, f' := QueueFollows(dated, env, start, env', ids, f, h.tx[e.conn], []);
      } else {
        events, f' := [], f;
        FollowsIdle(dated, Listener(env', ids), h, f, h);
      }
    } else {
      if e.conn !in h.tx {
        OneReplicable(dated, Queued(Lower(e.content), e.arr));
      }
      events, f' := SimpleFollows(dated, env, h, env', ids, f, e.conn, e.content, e.arr);
    }
  }

  lemma {:induction false} OneReplicable(dated: set<string>, q: Queued)
    ensures AllReplicable(dated, [q]) == Replicable(dated, q)
    ensures GrownAll(dated, [q]) == Grown(dated, VerbOf(q.command), q.arr)
  {
    var grown := Grown(dated, VerbOf(q.command), q.arr);
    assert [q][1..] == [] && AllReplicable(grown, []) && GrownAll(grown, []) == grown;
  }

  // ----- whole runs

  /** Every command that the run executes is replicable when its turn comes. */
  predicate RunReplicable(step: (Host, Event) -> Host, dated: set<string>, h: Host, run: seq<Event>)
    decreases |run|
  {
    run == [] ||
    (AllReplicable(dated, Executed(h, run[0])) &&
     RunReplicable(step, GrownAll(dated, Executed(h, run[0])), step(h, run[0]), run[1..]))
  }

  /** What can be checked of each command by itself: deadlines come to keys in `dated` only, and these are not counted. */
  function PlainIn(dated: set<string>): Queued -> bool {
    (q: Queued) =>
      var verb := VerbOf(q.command);
      Replicable(dated, q) && (verb.Set? && MayPublish(verb, q.arr) ==> SetExpiry(q.arr).value == 0 || Arg(q.arr, 1).value in dated)
  }

  lemma {:induction false} PlainIsReplicable(dated: set<string>, qs: seq<Queued>)
    requires forall i :: 0 <= i < |qs| ==> PlainIn(dated)(qs[i])
    ensures AllReplicable(dated, qs) && GrownAll(dated, qs) == dated
    decreases |qs|
  {
    if qs != [] {
      var q := qs[0];
      assert PlainIn(dated)(q);
      assert Grown(dated, VerbOf(q.command), q.arr) == dated;
      PlainIsReplicable(dated, qs[1..]);
    }
  }

  /** A run of plain commands, whatever their order and their transactions, is replicable. */
  lemma {:induction false} PlainRunIsReplicable(dated: set<string>, env: Env, h: Host, run: seq<Event>)
    requires EveryQueued(PlainIn(dated), h)
    requires forall i :: 0 <= i < |run| ==> PlainIn(dated)(Queued(Lower(run[i].content), run[i].arr))
    ensures RunReplicable(Serve(env), dated, h, run)
    decreases |run|
  {
    if run != [] {
      var e := run[0];
      PlainIsReplicable(dated, Executed(h, e));
      HandleKeepsQueues(env, h, e.conn, e.content, e.arr, PlainIn(dated));
      PlainRunIsReplicable(dated, env, Serve(env)(h, e), run[1..]);
    }
  }

  /** If the follower is ready, what replicable commands do at the leader can be followed. */
  ghost predicate Followed(dated: set<string>, step: (Host, Event) -> Host, feed: Feed, h: Host, f: Follower, e: Event) {
    Ready(dated, h, f) && AllReplicable(dated, Executed(h, e)) ==>
      exists events, f' :: Follows(GrownAll(dated, Executed(h, e)), feed, h, f, step(h, e), events, f')
  }

  lemma {:induction false} RunFollows(dated: set<string>, step: (Host, Event) -> Host, feed: Feed, h: Host, f: Follower, run: seq<Event>)
    returns (all: set<string>, events: seq<string>, f': Follower)
    requires forall d, g: Host, k, e :: Followed(d, step, feed, g, k, e)
    requires Ready(dated, h, f) && RunReplicable(step, dated, h, run)
    ensures Follows(all, feed, h, f, Run(step, h, run), events, f')
    decreases |run|
  {
    if run == [] {
      all, events, f' := dated, [], f;
      FollowsIdle(dated, feed, h, f, h);
    } else {
      var h1, more := step(h, run[0]), GrownAll(dated, Executed(h, run[0]));
      assert Followed(dated, step, feed, h, f, run[0]);
      var a, f1 :| Follows(more, feed, h, f, h1, a, f1);
      var b, f2;
      all, b, f2 := RunFollows(more, step, feed, h1, f1, run[1..]);
      FollowsBoth(more, feed, h, f, h1, a, f1, all, Run(step, h1, run[1..]), b, f2);
      events, f' := a + b, f2;
    }
  }

  lemma {:induction false} EveryEventIsFollowed(env: Env, env': Env, ids: nat -> ConnId)
    ensures forall d, g: Host, k, e :: Followed(d, Serve(env), Listener(env', ids), g, k, e)
  {
    forall d, g: Host, k, e
      ensures Followed(d, Serve(env), Listener(env', ids), g, k, e)
    {
      if Ready(d, g, k) && AllReplicable(d, Executed(g, e)) {
        var es, k' := HandleFollows(d, env, g, env', ids, k, e);
      }
    }
  }

  /**
    The follower that a run leaves. Whatever else is still to come on its stream, it goes on from there
    with exactly the leader's strings.
  */
  lemma {:induction false} RunCatches(dated: set<string>, env: Env, h: Host, env': Env, ids: nat -> ConnId, f: Follower, run: seq<Event>)
    returns (events: seq<string>, f': Follower)
    requires Ready(dated, h, f) && RunReplicable(Serve(env), dated, h, run)
    ensures var h' := Run(Serve(env), h, run);
            && h'.log == h.log + events
            && SameStrings(h'.store, f'.host.store) && f'.host.tx == map[]
            && f'.host.processed == f'.counter == f.counter + |Flatten(events)| && f'.sent == f.sent
            && Catches(Listener(env', ids), f, events, f')
  {
    EveryEventIsFollowed(env, env', ids);
    var all;
    all, events, f' := RunFollows(dated, Serve(env), Listener(env', ids), h, f, run);
  }

  /**
    Convergence. Take any serial run of commands from any connections at the leader: SET, INCR, XADD,
    transactions and all the rest. What is executed and may be published has arguments that read back,
    and no key is counted after it was given a deadline. A follower that starts with the leader's
    strings, parses the bytes published in the run and executes them ends with exactly the leader's
    strings, whatever the two clocks show, its offset is the length of those bytes, and it answers nothing.
  */
  lemma {:induction false} FollowerConverges(dated: set<string>, env: Env, h: Host, env': Env, ids: nat -> ConnId, f: Follower, run: seq<Event>)
    returns (events: seq<string>)
    requires Ready(dated, h, f) && RunReplicable(Serve(env), dated, h, run)
    ensures var h' := Run(Serve(env), h, run);
            var f' := Listen(env', ids, f, Flatten(events));
            && h'.log == h.log + events
            && SameStrings(h'.store, f'.host.store)
            && f'.host.processed == f.counter + |Flatten(events)| && f'.sent == f.sent
  {
    var f';
    events, f' := RunCatches(dated, env, h, env', ids, f, run);
    CaughtToTheEnd(env', ids, f, events, f');
  }

  lemma {:induction false} CaughtToTheEnd(env: Env, ids: nat -> ConnId, f: Follower, events: seq<string>, f': Follower)
    requires Catches(Listener(env, ids), f, events, f')
    ensures var g := Listen(env, ids, f, Flatten(events)); g.host == f'.host && g.sent == f'.sent
  {
    assert Flatten(events) + "" == Flatten(events);
    assert Listener(env, ids)(f, Flatten(events) + "") == Listener(env, ids)(f', "");
    ListenToNothing(env, ids, f');
  }

  lemma {:induction false} ListenToNothing(env: Env, ids: nat -> ConnId, f: Follower)
    ensures Listen(env, ids, f, "") == f.(counter := f.counter + 1)
  {
    assert ParseCommand("") == Step(Eof, "", 1);
  }

  // ----- why the side conditions are there

  /** A published command comes back as the command it was if and only if all its arguments read back. */
  lemma {:induction false} EventSurvivesIff(arr: seq<Resp>, rest: string)
    requires arr != [] && arr[0].Bulk?
    ensures ParseCommand(Encode(Arr(arr)) + rest).res == Ok(Command(arr[0].content, arr)) <==> Readable(Arr(arr))
  {
    RoundTripIff(Arr(arr), rest);
  }

  /** An argument that does not read back, in an array that could itself have been parsed. */
  predicate Unreadable(arr: seq<Resp>) {
    arr != [] && arr[0].Bulk? && Parsable(Arr(arr)) && !Readable(Arr(arr))
  }

  /** Such an event ends the follower's process: it executes neither the event nor anything behind it. */
  lemma {:induction false} FollowerDies(env: Env, ids: nat -> ConnId, f: Follower, arr: seq<Resp>, rest: string)
    requires Unreadable(arr)
    ensures Turn(env, ids, f, Encode(Arr(arr)) + rest).2 == Died
    ensures Listen(env, ids, f, Encode(Arr(arr)) + rest).host == f.host
  {
    UnreadablePanics(Arr(arr), rest);
    TurnOfFailure(env, ids, f, Encode(Arr(arr)) + rest);
  }

  /** After any replicable run, one unreadable event leaves the follower for good where the leader was then. */
  lemma {:induction false} FollowerStopsAt(dated: set<string>, env: Env, h: Host, env': Env, ids: nat -> ConnId, f: Follower,
                                           run: seq<Event>, arr: seq<Resp>, rest: string)
    returns (events: seq<string>)
    requires Ready(dated, h, f) && RunReplicable(Serve(env), dated, h, run) && Unreadable(arr)
    ensures var h' := Run(Serve(env), h, run);
            && h'.log == h.log + events
            && SameStrings(h'.store, Listen(env', ids, f, Flatten(events) + (Encode(Arr(arr)) + rest)).host.store)
  {
    var f';
    events, f' := RunCatches(dated, env, h, env', ids, f, run);
    CaughtUpTo(env', ids, f, events, f', Encode(Arr(arr)) + rest);
    FollowerDies(env', ids, f', arr, rest);
  }

  lemma {:induction false} CaughtUpTo(env: Env, ids: nat -> ConnId, f: Follower, events: seq<string>, f': Follower, more: string)
    requires Catches(Listener(env, ids), f, events, f')
    ensures Listen(env, ids, f, Flatten(events) + more) == Listen(env, ids, f', more)
  {
    assert Listener(env, ids)(f, Flatten(events) + more) == Listener(env, ids)(f', more);
  }

  /**
    A SET that is published but does not read back: afterwards the strings are the same if and only if
    the follower already held that very text.
  */
  lemma {:induction false} UnreadableSetConvergesIff(env: Env, h: Host, env': Env, ids: nat -> ConnId, f: Follower, c: ConnId,
                                                     arr: seq<Resp>, key: string, text: string, rest: string)
    requires SameStrings(h.store, f.host.store) && c !in h.tx && Unreadable(arr)
    requires VerbOf(Lower(arr[0].content)).Set? && MayPublish(Set, arr) && Arg(arr, 1) == Some(key) && Arg(arr, 2) == Some(text)
    ensures var h' := Handle(env, h, c, arr[0].content, arr).0;
            var f' := Listen(env', ids, f, Encode(Arr(arr)) + rest);
            && h'.log == h.log + [Encode(Arr(arr))]
            && (SameStrings(h'.store, f'.host.store) <==>
                key in f.host.store.values && f.host.store.values[key] == Str(text))
  {
    var e := ApplySet(h.store, arr, env.clock(h.ticks));
    FollowerDies(env', ids, f, arr, rest);
    StringPartOfSet(h.store.values, key, text, e.store);
    OneKeyApart(f.host.store.values, key, text, text);
  }

  /**
    The same for an INCR: the strings are the same if and only if the leader's deadline hid the text "1",
    which is then counted to 1 again.
  */
  lemma {:induction false} UnreadableIncrConvergesIff(env: Env, h: Host, env': Env, ids: nat -> ConnId, f: Follower, c: ConnId,
                                                      arr: seq<Resp>, key: string, rest: string)
    requires SameStrings(h.store, f.host.store) && c !in h.tx && Unreadable(arr)
    requires VerbOf(Lower(arr[0].content)).Incr? && Arg(arr, 1) == Some(key)
    requires ApplyIncr(h.store, arr, env.clock(h.ticks)).published
    ensures var h' := Handle(env, h, c, arr[0].content, arr).0;
            var f' := Listen(env', ids, f, Encode(Arr(arr)) + rest);
            && h'.log == h.log + [Encode(Arr(arr))]
            && (SameStrings(h'.store, f'.host.store) <==>
                && key in f.host.store.values && f.host.store.values[key] == Str("1")
                && Hidden(h.store, key, env.clock(h.ticks)))
  {
    var now := env.clock(h.ticks);
    FollowerDies(env', ids, f, arr, rest);
    CountIsStored(h.store, f.host.store, arr, key, now);
    OneKeyApart(f.host.store.values, key, Itoa(Counted(h.store, key, now)), "");
    CountIsNew(h.store, key, now);
  }

  /** Counting gives another text, unless a hidden "1" is counted from nothing. */
  lemma {:induction false} CountIsNew(s: Store, key: string, now: Millis)
    requires key in s.values && s.values[key].Str? ==> Hidden(s, key, now) || !Atoi(s.values[key].text).Err()
    ensures key in s.values && s.values[key] == Str(Itoa(Counted(s, key, now))) <==>
            key in s.values && s.values[key] == Str("1") && Hidden(s, key, now)
  {
    assert Itoa(1) == "1";
    AtoiItoa(Counted(s, key, now));
  }

  /**
    An INCR that the leader publishes, replayed by a follower with the same strings, whatever the
    deadlines: afterwards the strings are the same if and only if the deadline hid the key on both sides
    or on neither, or the key held no string or the number 0.
  */
  lemma {:induction false} CountConvergesIff(env: Env, h: Host, env': Env, ids: nat -> ConnId, f: Follower,
                                             c: ConnId, arr: seq<Resp>, key: string)
    requires SameStrings(h.store, f.host.store) && f.host.tx == map[] && c !in h.tx
    requires Sendable(arr) && VerbOf(Lower(arr[0].content)).Incr? && Arg(arr, 1) == Some(key)
    requires ApplyIncr(h.store, arr, env.clock(h.ticks)).published
    ensures var h' := Handle(env, h, c, arr[0].content, arr).0;
            var f' := Listen(env', ids, f, Encode(Arr(arr)));
            && h'.log == h.log + [Encode(Arr(arr))]
            && (SameStrings(h'.store, f'.host.store) <==>
                || Hidden(h.store, key, env.clock(h.ticks)) == Hidden(f.host.store, key, env'.clock(f.host.ticks))
                || key !in f.host.store.values
                || Atoi(f.host.store.values[key].text) == Good(0))
  {
    var s := Encode(Arr(arr));
    IncrKeepsStringsIff(h.store, f.host.store, arr, key, env.clock(h.ticks), env'.clock(f.host.ticks));
    FollowerCounts(env', ids, f, arr, key);
  }

  /** What a follower makes of one INCR. */
  lemma {:induction false} FollowerCounts(env: Env, ids: nat -> ConnId, f: Follower, arr: seq<Resp>, key: string)
    requires f.host.tx == map[] && Sendable(arr) && VerbOf(Lower(arr[0].content)).Incr? && Arg(arr, 1) == Some(key)
    requires key in f.host.store.values ==> f.host.store.values[key].Str?
    ensures Listen(env, ids, f, Encode(Arr(arr))).host.store == ApplyIncr(f.host.store, arr, env.clock(f.host.ticks)).store
  {
    assert Encode(Arr(arr)) + "" == Encode(Arr(arr));
    ListenReplays(env, ids, f, arr, "");
    ListenToNothing(env, ids, AfterTurn(env, f, Incr, arr));
  }

  /** A store that holds one text, until a millisecond after `now`. */
  function OneMilli(key: string, text: string, now: Millis): Store {
    Store(map[key := Str(text)], map[key := now + 1])
  }

  lemma {:induction false} PutIsStored(env: Env, c: ConnId, key: string, text: string, put: seq<Resp>)
    requires put == [Bulk("set"), Bulk(key), Bulk(text), Bulk("px"), Bulk("1")]
    ensures var h := Host(OneMilli(key, text, env.clock(0)), map[], [Encode(Arr(put))], 0, 1);
            && Serve(env)(NEW_HOST, Event(c, "set", put)) == h
            && Perform(env, NEW_HOST, Set, put) == (h, Text(Encode(OK_RESPONSE)))
  {
    AtoiItoa(1);
    assert Itoa(1) == "1" && Lower("set") == "set";
  }

  lemma {:induction false} FollowerPuts(env: Env, ids: nat -> ConnId, key: string, text: string, put: seq<Resp>, rest: string)
    returns (f: Follower)
    requires put == [Bulk("set"), Bulk(key), Bulk(text), Bulk("px"), Bulk("1")] && Sendable(put)
    ensures Listen(env, ids, Follower(NEW_HOST, 0, 0, []), Encode(Arr(put)) + rest) == Listen(env, ids, f, rest)
    ensures f.host.store == OneMilli(key, text, env.clock(0)) && f.host.tx == map[] && f.host.ticks == 1
  {
    assert Lower(put[0].content) == "set";
    PutIsStored(env, ids(0), key, text, put);
    f := AfterTurn(env, Follower(NEW_HOST, 0, 0, []), Set, put);
    ListenReplays(env, ids, Follower(NEW_HOST, 0, 0, []), put, rest);
  }

  /** The deadline has passed for the leader but not for the follower, and the text is a number other than 0. */
  lemma {:induction false} CountsPart(env: Env, h: Host, env': Env, ids: nat -> ConnId, f: Follower, c: ConnId,
                                      key: string, text: string, incr: seq<Resp>)
    requires incr == [Bulk("incr"), Bulk(key)] && Sendable(incr) && Atoi(text).Good? && Atoi(text).n != 0
    requires h.store == OneMilli(key, text, env.clock(0)) && h.tx == map[] && h.ticks == 1
    requires f.host.store == OneMilli(key, text, env'.clock(0)) && f.host.tx == map[] && f.host.ticks == 1
    requires env.clock(1) > env.clock(0) + 1 && env'.clock(1) <= env'.clock(0) + 1
    ensures var h' := Serve(env)(h, Event(c, "incr", incr));
            && h'.log == h.log + [Encode(Arr(incr))]
            && !SameStrings(h'.store, Listen(env', ids, f, Encode(Arr(incr))).host.store)
  {
    assert Lower("incr") == "incr" && incr[0].content == "incr";
    IncrStores(h.store, incr, key, env.clock(1));
    assert SameStrings(h.store, f.host.store);
    CountConvergesIff(env, h, env', ids, f, c, incr, key);
  }

  /**
    So a run can part them: the leader stores a number with a deadline and counts it when the deadline
    has passed; by the follower's clock it has not.
  */
  lemma {:induction false} DeadlineDiverges(env: Env, env': Env, ids: nat -> ConnId, c: ConnId, key: string, text: string,
                                            put: seq<Resp>, incr: seq<Resp>)
    requires 0 < |key| <= MAX_INT && |text| <= MAX_INT && Atoi(text).Good? && Atoi(text).n != 0
    requires put == [Bulk("set"), Bulk(key), Bulk(text), Bulk("px"), Bulk("1")] && incr == [Bulk("incr"), Bulk(key)]
    requires env.clock(1) > env.clock(0) + 1 && env'.clock(1) <= env'.clock(0) + 1
    ensures var h := Run(Serve(env), NEW_HOST, [Event(c, "set", put), Event(c, "incr", incr)]);
            var f := Listen(env', ids, Follower(NEW_HOST, 0, 0, []), Flatten([Encode(Arr(put)), Encode(Arr(incr))]));
            && h.log == [Encode(Arr(put)), Encode(Arr(incr))]
            && !SameStrings(h.store, f.host.store)
  {
    var h := Serve(env)(NEW_HOST, Event(c, "set", put));
    assert Sendable(put) && Sendable(incr);
    PutIsStored(env, c, key, text, put);
    var f := FollowerPuts(env', ids, key, text, put, Encode(Arr(incr)));
    CountsPart(env, h, env', ids, f, c, key, text, incr);
    FlattenBoth(Encode(Arr(put)), Encode(Arr(incr)));
    RunBoth(env, c, put, incr);
  }

  lemma {:induction false} FlattenBoth(a: string, b: string)
    ensures Flatten([a, b]) == a + b
  {
    assert [a, b][1..] == [b] && Flatten([b]) == b + Flatten([]);
  }

  lemma {:induction false} RunBoth(env: Env, c: ConnId, put: seq<Resp>, incr: seq<Resp>)
    ensures Run(Serve(env), NEW_HOST, [Event(c, "set", put), Event(c, "incr", incr)]) ==
            Serve(env)(Serve(env)(NEW_HOST, Event(c, "set", put)), Event(c, "incr", incr))
  {
    RunConcat(Serve(env), NEW_HOST, [Event(c, "set", put)], [Event(c, "incr", incr)]);
    RunOne(Serve(env), NEW_HOST, Event(c, "set", put));
    RunOne(Serve(env), Serve(env)(NEW_HOST, Event(c, "set", put)), Event(c, "incr", incr));
    assert [Event(c, "set", put)] + [Event(c, "incr", incr)] == [Event(c, "set", put), Event(c, "incr", incr)];
  }
}
