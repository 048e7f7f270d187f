/**
  Clients that set keys at the same time. A handler updates the store in one step and publishes its
  command in a later one, and no lock spans the two, so the steps of other clients come in between.
*/
module Races {
  import opened GoStrings
  import opened Resp
  import opened Stores
  import opened Hosts
  import opened Runs
  import opened Replication
  import opened Convergence

  datatype Put = Put(key: string, text: string)

  function SetCommand(p: Put): seq<Resp> {
    [Bulk("set"), Bulk(p.key), Bulk(p.text)]
  }

  /** What reads back when it is published. */
  predicate Writable(p: Put) {
    0 < |p.key| <= MAX_INT && 0 < |p.text| <= MAX_INT
  }

  /**
    The leader: its store, the clients that have updated it and not yet published, and all updates and
    all publications so far, each in its own order.
  */
  datatype Leader = Leader(store: Store, pending: map<ConnId, Put>, updates: seq<Put>, published: seq<Put>)

  datatype Step = Update(c: ConnId, put: Put) | Publish(c: ConnId)

  predicate Enabled(s: Leader, step: Step) {
    match step
    case Update(c, put) => c !in s.pending && Writable(put)
    case Publish(c) => c in s.pending
  }

  function Next(s: Leader, step: Step): Leader {
    match step
    case Update(c, put) =>
      Leader(Stores.Set(s.store, put.key, put.text, 0, 0), s.pending[c := put], s.updates + [put], s.published)
    case Publish(c) =>
      if c in s.pending then s.(pending := s.pending - {c}, published := s.published + [s.pending[c]]) else s
  }

  /** One client's two steps without another one's in between are what SET does in one step. */
  lemma {:induction false} BothStepsAreSet(env: Env, h: Host, s: Leader, c: ConnId, put: Put)
    requires s.store == h.store && c !in s.pending
    ensures var s' := Next(Next(s, Update(c, put)), Publish(c));
            var h' := Perform(env, h, Set, SetCommand(put)).0;
            && s'.store == h'.store && h'.log == h.log + [Encode(Arr(SetCommand(put)))]
            && s'.published == s.published + [put] && s'.pending == s.pending
  {
    assert s.pending[c := put] - {c} == s.pending;
    assert SetExpiry(SetCommand(put)) == Ok(0);
  }

  // ----- what a list of SETs leaves under a key

  /** The last text that the list gives to `key`. */
  function Last(puts: seq<Put>, key: string): Option<string> {
    if puts == [] then None
    else
      var p := puts[|puts| - 1];
      if p.key == key then Some(p.text) else Last(puts[..|puts| - 1], key)
  }

  lemma {:induction false} LastOfMore(puts: seq<Put>, p: Put, key: string)
    ensures Last(puts + [p], key) == if p.key == key then Some(p.text) else Last(puts, key)
  {
    assert (puts + [p])[..|puts|] == puts;
  }

  lemma {:induction false} LastIsThere(puts: seq<Put>, key: string)
    ensures Last(puts, key).Some? <==> exists p :: p in puts && p.key == key
  {
    if puts != [] {
      var p, before := puts[|puts| - 1], puts[..|puts| - 1];
      LastIsThere(before, key);
      assert puts == before + [p];
    }
  }

  function Replayed(values: map<string, Value>, puts: seq<Put>): map<string, Value> {
    if puts == [] then values
    else
      var p := puts[|puts| - 1];
      Replayed(values, puts[..|puts| - 1])[p.key := Str(p.text)]
  }

  lemma {:induction false} ReplayedAt(values: map<string, Value>, puts: seq<Put>, key: string)
    ensures var after, last := Replayed(values, puts), Last(puts, key);
            if last.Some? then key in after && after[key] == Str(last.value)
            else (key in after <==> key in values) && (key in after ==> after[key] == values[key])
  {
    if puts != [] {
      ReplayedAt(values, puts[..|puts| - 1], key);
    }
  }

  // ----- what every interleaving keeps

  /** The store is what the updates left, and every update is published or still pending. */
  ghost predicate Inv(first: map<string, Value>, s: Leader) {
    && s.store.values == Replayed(first, s.updates)
    && (forall p :: p in s.updates ==> p in s.published || p in s.pending.Values)
    && (forall p :: p in s.published || p in s.pending.Values ==> p in s.updates && Writable(p))
  }

  lemma {:induction false} UpdateKeeps(first: map<string, Value>, s: Leader, c: ConnId, put: Put)
    requires Inv(first, s) && Enabled(s, Update(c, put))
    ensures Inv(first, Next(s, Update(c, put)))
  {
    var s' := Next(s, Update(c, put));
    assert s'.updates[..|s.updates|] == s.updates;
    assert s'.pending[c] == put;
    forall p | p in s.pending.Values
      ensures p in s'.pending.Values
    {
      var d :| d in s.pending && s.pending[d] == p;
      assert s'.pending[d] == p;
    }
  }

  lemma {:induction false} PublishKeeps(first: map<string, Value>, s: Leader, c: ConnId)
    requires Inv(first, s) && Enabled(s, Publish(c))
    ensures Inv(first, Next(s, Publish(c)))
  {
    var s' := Next(s, Publish(c));
    forall p | p in s.pending.Values && p != s.pending[c]
      ensures p in s'.pending.Values
    {
      var d :| d in s.pending && s.pending[d] == p;
      assert s'.pending[d] == p;
    }
  }

  function Start(store: Store): Leader {
    Leader(store, map[], [], [])
  }

  lemma {:induction false} EveryRunKeeps(store: Store, steps: seq<Step>)
    requires Allowed(Next, Enabled, Start(store), steps)
    ensures Inv(store.values, Run(Next, Start(store), steps))
  {
    var inv := (s: Leader) => Inv(store.values, s);
    forall s: Leader, step: Step | inv(s) && Enabled(s, step)
      ensures inv(Next(s, step))
    {
      match step {
        case Update(c, put) => UpdateKeeps(store.values, s, c, put);
        case Publish(c) => PublishKeeps(store.values, s, c);
      }
    }
    Invariant(Next, Enabled, inv, Start(store), steps);
  }

  // ----- the follower

  function Wire(puts: seq<Put>): string {
    if puts == [] then "" else Wire(puts[..|puts| - 1]) + Encode(Arr(SetCommand(puts[|puts| - 1])))
  }

  /** What the follower makes of one SET. */
  lemma {:induction false} FollowerPutsOne(env: Env, ids: nat -> ConnId, f: Follower, p: Put, rest: string)
    returns (f': Follower)
    requires Writable(p) && f.host.tx == map[]
    ensures Listen(env, ids, f, Encode(Arr(SetCommand(p))) + rest) == Listen(env, ids, f', rest)
    ensures f'.host.tx == map[] && f'.host.store.values == f.host.store.values[p.key := Str(p.text)]
  {
    var arr := SetCommand(p);
    assert Sendable(arr) && Lower(arr[0].content) == "set" && SetExpiry(arr) == Ok(0);
    ListenReplays(env, ids, f, arr, rest);
    f' := AfterTurn(env, f, Set, arr);
  }

  lemma {:induction false} FollowerPutsAll(env: Env, ids: nat -> ConnId, f: Follower, puts: seq<Put>, rest: string)
    returns (f': Follower)
    requires f.host.tx == map[] && forall p :: p in puts ==> Writable(p)
    ensures Listen(env, ids, f, Wire(puts) + rest) == Listen(env, ids, f', rest)
    ensures f'.host.tx == map[] && f'.host.store.values == Replayed(f.host.store.values, puts)
  {
    if puts == [] {
      f' := f;
      assert Wire(puts) + rest == rest;
    } else {
      var p, before := puts[|puts| - 1], puts[..|puts| - 1];
      var more := Encode(Arr(SetCommand(p))) + rest;
      assert Wire(puts) + rest == Wire(before) + more;
      var f1 := FollowerPutsAll(env, ids, f, before, more);
      f' := FollowerPutsOne(env, ids, f1, p, rest);
    }
  }

  lemma {:induction false} FollowerReplays(env: Env, ids: nat -> ConnId, f: Follower, puts: seq<Put>)
    requires f.host.tx == map[] && forall p :: p in puts ==> Writable(p)
    ensures Listen(env, ids, f, Wire(puts)).host.store.values == Replayed(f.host.store.values, puts)
  {
    assert Wire(puts) + "" == Wire(puts);
    var f' := FollowerPutsAll(env, ids, f, puts, "");
    ListenToNothing(env, ids, f');
  }

  // ----- when the two sides agree

  /** For every key the last publication has the text of the last update. */
  ghost predicate LastsAgree(s: Leader) {
    forall key :: Last(s.updates, key) == Last(s.published, key)
  }

  lemma {:induction false} StringsAgreeIff(first: Store, s: Leader, f: Store, f': Store)
    requires Inv(first.values, s) && s.pending == map[]
    requires SameStrings(first, f) && f'.values == Replayed(f.values, s.published)
    ensures SameStrings(s.store, f') <==> LastsAgree(s)
  {
    forall key
      ensures var a, b := StringPart(s.store), f'.values;
              (key in a <==> key in b) && (key in a ==> a[key] == b[key]) <==> Last(s.updates, key) == Last(s.published, key)
    {
      ReplayedAt(first.values, s.updates, key);
      ReplayedAt(f.values, s.published, key);
      LastIsThere(s.updates, key);
      LastIsThere(s.published, key);
    }
    if LastsAgree(s) {
      assert f'.values == StringPart(s.store);
    }
  }

  /**
    For every interleaving of clients that set keys, once all have published: the follower that reads
    the published bytes has the leader's strings if and only if, for every key, the SET published last
    gives the text of the SET that updated the store last.
  */
  lemma {:induction false} RaceConvergesIff(env: Env, ids: nat -> ConnId, store: Store, f: Follower, steps: seq<Step>, s: Leader)
    requires SameStrings(store, f.host.store) && f.host.tx == map[]
    requires Allowed(Next, Enabled, Start(store), steps) && s == Run(Next, Start(store), steps) && s.pending == map[]
    ensures SameStrings(s.store, Listen(env, ids, f, Wire(s.published)).host.store) <==> LastsAgree(s)
  {
    EveryRunKeeps(store, steps);
    FollowerReplays(env, ids, f, s.published);
    StringsAgreeIff(store, s, f.host.store, Listen(env, ids, f, Wire(s.published)).host.store);
  }

  /** Two clients set one key, and publish in the opposite order: the follower keeps the other text. */
  lemma {:induction false} RaceDiverges(env: Env, ids: nat -> ConnId, c: ConnId, d: ConnId, p: Put, q: Put, steps: seq<Step>)
    requires c != d && p.key == q.key && p.text != q.text && Writable(p) && Writable(q)
    requires steps == [Update(c, p), Update(d, q), Publish(d), Publish(c)]
    ensures var start := Start(NEW_HOST.store);
            var s := Run(Next, start, steps);
            && Allowed(Next, Enabled, start, steps) && s.pending == map[]
            && !SameStrings(s.store, Listen(env, ids, Follower(NEW_HOST, 0, 0, []), Wire(s.published)).host.store)
  {
    var start := Start(NEW_HOST.store);
    var s := Run(Next, start, steps);
    FourSteps(start, c, d, p, q, steps);
    LastOfMore([p], q, p.key);
    LastOfMore([q], p, p.key);
    assert [p] + [q] == [p, q] && [q] + [p] == [q, p];
    assert Last(s.updates, p.key) != Last(s.published, p.key);
    RaceConvergesIff(env, ids, NEW_HOST.store, Follower(NEW_HOST, 0, 0, []), steps, s);
  }

  lemma {:induction false} FourSteps(s: Leader, c: ConnId, d: ConnId, p: Put, q: Put, steps: seq<Step>)
    requires c != d && s.pending == map[] && s.updates == s.published == [] && Writable(p) && Writable(q)
    requires steps == [Update(c, p), Update(d, q), Publish(d), Publish(c)]
    ensures Allowed(Next, Enabled, s, steps)
    ensures var s' := Run(Next, s, steps); s'.pending == map[] && s'.updates == [p, q] && s'.published == [q, p]
  {
    var a, b := [Update(c, p)], [Update(c, p), Update(d, q)];
    var e := [Update(c, p), Update(d, q), Publish(d)];
    assert [] + a == a && a + [Update(d, q)] == b && b + [Publish(d)] == e && e + [Publish(c)] == steps;
    OneMore(Next, Enabled, s, [], Update(c, p));
    OneMore(Next, Enabled, s, a, Update(d, q));
    OneMore(Next, Enabled, s, b, Publish(d));
    OneMore(Next, Enabled, s, e, Publish(c));
  }

  // ----- clients that leave each other's keys alone

  /** A client starts on a key only when no other one has an update of that key to publish. */
  predicate Exclusive(s: Leader, step: Step) {
    && Enabled(s, step)
    && (step.Update? ==> forall c :: c in s.pending ==> s.pending[c].key != step.put.key)
  }

  /** Only a key that is being set has an update that is not published, and only one client sets it. */
  ghost predicate InStep(s: Leader) {
    && (forall c, d :: c in s.pending && d in s.pending && s.pending[c].key == s.pending[d].key ==> c == d)
    && (forall c :: c in s.pending ==> Last(s.updates, s.pending[c].key) == Some(s.pending[c].text))
    && (forall key :: (forall c :: c in s.pending ==> s.pending[c].key != key) ==>
          Last(s.updates, key) == Last(s.published, key))
  }

  lemma {:induction false} ExclusiveKeeps(s: Leader, step: Step)
    requires InStep(s) && Exclusive(s, step)
    ensures InStep(Next(s, step))
  {
    var s' := Next(s, step);
    match step {
      case Update(c, put) =>
        forall key
          ensures Last(s'.updates, key) == if key == put.key then Some(put.text) else Last(s.updates, key)
        {
          LastOfMore(s.updates, put, key);
        }
        assert s'.pending[c] == put;
        forall key | forall d :: d in s'.pending ==> s'.pending[d].key != key
          ensures Last(s'.updates, key) == Last(s'.published, key)
        {
          assert forall d :: d in s.pending ==> d in s'.pending && s'.pending[d] == s.pending[d];
        }
      case Publish(c) =>
        var p := s.pending[c];
        forall key
          ensures Last(s'.published, key) == if key == p.key then Some(p.text) else Last(s.published, key)
        {
          LastOfMore(s.published, p, key);
        }
        forall key | forall d :: d in s'.pending ==> s'.pending[d].key != key
          ensures Last(s'.updates, key) == Last(s'.published, key)
        {
          if key != p.key {
            assert forall d :: d in s.pending ==> d == c || d in s'.pending;
          }
        }
    }
  }

  /** Without two SETs of one key at the same time the follower ends with the leader's strings. */
  lemma {:induction false} ExclusiveConverges(env: Env, ids: nat -> ConnId, store: Store, f: Follower, steps: seq<Step>, s: Leader)
    requires SameStrings(store, f.host.store) && f.host.tx == map[]
    requires Allowed(Next, Exclusive, Start(store), steps) && s == Run(Next, Start(store), steps) && s.pending == map[]
    ensures SameStrings(s.store, Listen(env, ids, f, Wire(s.published)).host.store)
  {
    forall t, step | InStep(t) && Exclusive(t, step)
      ensures InStep(Next(t, step))
    {
      ExclusiveKeeps(t, step);
    }
    Invariant(Next, Exclusive, InStep, Start(store), steps);
    ExclusiveIsEnabled(Start(store), steps);
    RaceConvergesIff(env, ids, store, f, steps, s);
    assert LastsAgree(s);
  }

  lemma {:induction false} ExclusiveIsEnabled(s: Leader, steps: seq<Step>)
    requires Allowed(Next, Exclusive, s, steps)
    ensures Allowed(Next, Enabled, s, steps)
    decreases |steps|
  {
    if steps != [] {
      ExclusiveIsEnabled(Next(s, steps[0]), steps[1..]);
    }
  }
}
