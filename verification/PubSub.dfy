/**
  The publisher as a state machine. Two loops share the subscribers under a lock: one registers and
  removes subscribers, the other takes an event, holds the lock and sends the event to each of them.
  Every interleaving of their steps is a run.
*/
module PubSub {
  import opened Runs

  type Event = string
  type Channel = nat

  /** Where the fan-out loop stands. */
  datatype Fanout = Idle | Waiting(event: Event) | Sending(event: Event, todo: set<Channel>)

  /**
    `started` are the events whose fan-out has begun, in order; `delivered` is what each channel has
    received. `since` and `until` record how many events had started when a channel was registered
    and when it was removed.
  */
  datatype State = State(
    subscribers: map<string, Channel>,
    fanout: Fanout,
    started: seq<Event>,
    delivered: map<Channel, seq<Event>>,
    since: map<Channel, nat>,
    until: map<Channel, nat>)

  const START := State(map[], Idle, [], map[], map[], map[])

  datatype Step =
    | Subscribe(id: string, channel: Channel)
    | Unsubscribe(id: string)
    | Take(event: Event)
    | Lock
    | Send(channel: Channel)
    | Unlock

  /** The lock keeps registration out while an event is sent; a subscriber brings a channel of its own. */
  predicate Enabled(s: State, step: Step) {
    match step
    case Subscribe(_, channel) => !s.fanout.Sending? && channel !in s.delivered
    case Unsubscribe(_) => !s.fanout.Sending?
    case Take(_) => s.fanout.Idle?
    case Lock => s.fanout.Waiting?
    case Send(channel) => s.fanout.Sending? && channel in s.fanout.todo
    case Unlock => s.fanout.Sending? && s.fanout.todo == {}
  }

  /** Takes the channel under `id` out of service, if there is one. */
  function Retire(s: State, id: string): State {
    if id in s.subscribers then
      s.(subscribers := s.subscribers - {id}, until := s.until[s.subscribers[id] := |s.started|])
    else s
  }

  function Register(s: State, id: string, channel: Channel): State {
    s.(subscribers := s.subscribers[id := channel],
       delivered := s.delivered[channel := []],
       since := s.since[channel := |s.started|])
  }

  function SendTo(s: State, event: Event, todo: set<Channel>, channel: Channel): State {
    s.(fanout := Sending(event, todo - {channel}),
       delivered := if channel in s.delivered then s.delivered[channel := s.delivered[channel] + [event]]
                    else s.delivered)
  }

  function Next(s: State, step: Step): State {
    match step
    case Subscribe(id, channel) => Register(Retire(s, id), id, channel)
    case Unsubscribe(id) => Retire(s, id)
    case Take(event) => s.(fanout := Waiting(event))
    case Lock =>
      if s.fanout.Waiting?
      then s.(fanout := Sending(s.fanout.event, s.subscribers.Values), started := s.started + [s.fanout.event])
      else s
    case Send(channel) =>
      if s.fanout.Sending? then SendTo(s, s.fanout.event, s.fanout.todo, channel) else s
    case Unlock => s.(fanout := Idle)
  }

  // ----- what every step keeps

  /** How many of the started events a channel has passed: all but a pending one, or those up to its removal. */
  function End(s: State, channel: Channel): int {
    if channel in s.until then s.until[channel]
    else if s.fanout.Sending? && channel in s.fanout.todo then |s.started| - 1
    else |s.started|
  }

  /** The registered channels are distinct, and a channel is either registered or retired. */
  ghost predicate Registered(s: State) {
    && (forall id, id' :: id in s.subscribers && id' in s.subscribers && s.subscribers[id] == s.subscribers[id'] ==> id == id')
    && (forall id :: id in s.subscribers ==> s.subscribers[id] in s.delivered && s.subscribers[id] !in s.until)
    && (forall c :: c in s.delivered ==> c in s.since && (c in s.until || c in s.subscribers.Values))
    && (forall c :: c in s.until ==> c in s.delivered && s.until[c] <= |s.started|)
  }

  ghost predicate Pending(s: State) {
    s.fanout.Sending? ==>
      && s.started != [] && s.fanout.event == s.started[|s.started| - 1]
      && (forall c :: c in s.fanout.todo ==> c in s.delivered && c !in s.until)
  }

  /** One contiguous block of the event sequence, in order, from registration on. */
  ghost predicate Block(s: State, c: Channel)
    requires c in s.delivered && c in s.since
  {
    && s.since[c] <= End(s, c) <= |s.started|
    && s.delivered[c] == s.started[s.since[c]..End(s, c)]
  }

  ghost predicate Inv(s: State) {
    && Registered(s) && Pending(s)
    && forall c :: c in s.delivered ==> Block(s, c)
  }

  lemma {:induction false} RetireRegistered(s: State, id: string)
    requires Registered(s)
    ensures Registered(Retire(s, id))
  {
    var s' := Retire(s, id);
    forall c | c in s'.delivered
      ensures c in s'.until || c in s'.subscribers.Values
    {
      if c !in s'.until {
        var id' :| id' in s.subscribers && s.subscribers[id'] == c;
        assert s'.subscribers[id'] == c;
      }
    }
  }

  lemma {:induction false} RetireKeeps(s: State, id: string)
    requires Inv(s) && !s.fanout.Sending?
    ensures Inv(Retire(s, id)) && Retire(s, id).delivered == s.delivered
    ensures id !in Retire(s, id).subscribers
  {
    RetireRegistered(s, id);
    forall c | c in s.delivered
      ensures Block(Retire(s, id), c)
    {
      assert Block(s, c);
    }
  }

  lemma {:induction false} RegisterKeeps(s: State, id: string, channel: Channel)
    requires Inv(s) && !s.fanout.Sending? && channel !in s.delivered && id !in s.subscribers
    ensures Inv(Register(s, id, channel))
  {
    var s' := Register(s, id, channel);
    assert s'.subscribers[id] == channel;
    forall c | c in s'.delivered
      ensures c in s'.since && (c in s'.until || c in s'.subscribers.Values) && Block(s', c)
    {
      if c != channel {
        OtherStaysRegistered(s, id, channel, c);
      }
    }
  }

  lemma {:induction false} OtherStaysRegistered(s: State, id: string, channel: Channel, c: Channel)
    requires Inv(s) && !s.fanout.Sending? && channel !in s.delivered && id !in s.subscribers
    requires c in s.delivered
    ensures var s' := Register(s, id, channel);
            && c in s'.delivered && c in s'.since
            && (c in s'.until || c in s'.subscribers.Values) && Block(s', c)
  {
    var s' := Register(s, id, channel);
    assert Block(s, c);
    if c !in s.until {
      var id' :| id' in s.subscribers && s.subscribers[id'] == c;
      assert s'.subscribers[id'] == c;
    }
  }

  lemma {:induction false} LockKeeps(s: State)
    requires Inv(s) && s.fanout.Waiting?
    ensures Inv(Next(s, Lock))
  {
    var s', n := Next(s, Lock), |s.started|;
    forall c | c in s'.delivered
      ensures Block(s', c)
    {
      assert Block(s, c);
      assert End(s', c) == End(s, c);
      assert s'.started[s.since[c]..End(s, c)] == s.started[s.since[c]..End(s, c)];
    }
  }

  lemma {:induction false} BlockAfterSend(s: State, channel: Channel, c: Channel)
    requires Inv(s) && Enabled(s, Send(channel)) && c in s.delivered
    ensures var s' := Next(s, Send(channel)); c in s'.delivered && Block(s', c)
  {
    var s' := Next(s, Send(channel));
    assert Block(s, c);
    if c == channel {
      LastEvent(s.started, s.since[c]);
      assert End(s, c) == |s.started| - 1 && End(s', c) == |s.started|;
    } else {
      assert End(s', c) == End(s, c) && s'.delivered[c] == s.delivered[c];
    }
  }

  lemma {:induction false} SendKeeps(s: State, channel: Channel)
    requires Inv(s) && Enabled(s, Send(channel))
    ensures Inv(Next(s, Send(channel)))
  {
    var s' := Next(s, Send(channel));
    assert Registered(s') && Pending(s');
    forall c | c in s'.delivered
      ensures Block(s', c)
    {
      BlockAfterSend(s, channel, c);
    }
  }

  lemma {:induction false} LastEvent(events: seq<Event>, from: nat)
    requires from < |events|
    ensures events[from..|events| - 1] + [events[|events| - 1]] == events[from..|events|]
  {
  }

  lemma {:induction false} QuietKeeps(s: State, step: Step)
    requires Inv(s) && Enabled(s, step) && (step.Take? || step.Unlock?)
    ensures Inv(Next(s, step))
  {
    forall c | c in s.delivered
      ensures Block(Next(s, step), c)
    {
      assert Block(s, c);
    }
  }

  lemma {:induction false} NextKeeps(s: State, step: Step)
    requires Inv(s) && Enabled(s, step)
    ensures Inv(Next(s, step))
  {
    match step {
      case Subscribe(id, channel) =>
        RetireKeeps(s, id);
        RegisterKeeps(Retire(s, id), id, channel);
      case Unsubscribe(id) => RetireKeeps(s, id);
      case Lock => LockKeeps(s);
      case Send(channel) => SendKeeps(s, channel);
      case _ => QuietKeeps(s, step);
    }
  }

  // ----- whole runs

  predicate Interleaving(steps: seq<Step>) {
    Allowed(Next, Enabled, START, steps)
  }

  function After(steps: seq<Step>): State {
    Run(Next, START, steps)
  }

  lemma {:induction false} EveryRunKeeps(steps: seq<Step>)
    requires Interleaving(steps)
    ensures Inv(After(steps))
  {
    forall s, step | Inv(s) && Enabled(s, step)
      ensures Inv(Next(s, step))
    {
      NextKeeps(s, step);
    }
    Invariant(Next, Enabled, Inv, START, steps);
  }

  /** Events only accumulate, a registration is never rewritten, and a removal is final. */
  ghost predicate Later(s: State, s': State) {
    && |s.started| <= |s'.started| && s.started == s'.started[..|s.started|]
    && (forall c :: c in s.delivered ==> c in s'.delivered)
    && (forall c :: c in s.delivered && c in s.since ==> c in s'.since && s'.since[c] == s.since[c])
    && (forall c :: c in s.until ==> c in s'.until && s'.until[c] == s.until[c])
  }

  lemma {:induction false} NextIsLater(s: State, step: Step)
    requires Inv(s) && Enabled(s, step)
    ensures Later(s, Next(s, step))
  {
    if step.Subscribe? && step.id in s.subscribers {
      assert s.subscribers[step.id] !in s.until;
    }
  }

  lemma {:induction false} LaterTrans(s: State, t: State, u: State)
    requires Later(s, t) && Later(t, u)
    ensures Later(s, u)
  {
    assert u.started[..|t.started|][..|s.started|] == u.started[..|s.started|];
  }

  lemma {:induction false} RunIsLater(s: State, steps: seq<Step>)
    requires Inv(s) && Allowed(Next, Enabled, s, steps)
    ensures Later(s, Run(Next, s, steps))
    decreases |steps|
  {
    if steps == [] {
      assert s.started[..|s.started|] == s.started;
    } else {
      var t := Next(s, steps[0]);
      NextKeeps(s, steps[0]);
      NextIsLater(s, steps[0]);
      RunIsLater(t, steps[1..]);
      LaterTrans(s, t, Run(Next, t, steps[1..]));
    }
  }

  /** A run up to some step and what comes after it. */
  lemma {:induction false} RunSplits(before: seq<Step>, step: Step, after: seq<Step>)
    requires Interleaving(before + [step] + after)
    ensures Inv(After(before)) && Enabled(After(before), step)
    ensures var s := Next(After(before), step);
            && Inv(s) && Allowed(Next, Enabled, s, after)
            && After(before + [step] + after) == Run(Next, s, after)
  {
    var tail := [step] + after;
    assert before + [step] + after == before + tail;
    AllowedConcat(Next, Enabled, START, before, tail);
    RunConcat(Next, START, before, tail);
    EveryRunKeeps(before);
    assert tail[0] == step && tail[1..] == after;
    NextKeeps(After(before), step);
  }

  /**
    Fan-out safety: in every interleaving, what a channel has received is one contiguous, in-order,
    duplicate-free block of the event sequence. The block starts with the first event started after
    the channel's registration. While it stays registered, it lacks at most the event being sent.
  */
  lemma {:induction false} DeliveredIsBlock(before: seq<Step>, id: string, channel: Channel, after: seq<Step>)
    requires Interleaving(before + [Subscribe(id, channel)] + after)
    ensures var s, s' := After(before), After(before + [Subscribe(id, channel)] + after);
            && channel in s'.delivered
            && |s.started| <= End(s', channel) <= |s'.started|
            && s'.delivered[channel] == s'.started[|s.started|..End(s', channel)]
            && (channel in s'.subscribers.Values ==> End(s', channel) >= |s'.started| - 1)
            && (channel in s'.subscribers.Values && !s'.fanout.Sending? ==> End(s', channel) == |s'.started|)
  {
    var step := Subscribe(id, channel);
    RunSplits(before, step, after);
    var s := Next(After(before), step);
    var s' := Run(Next, s, after);
    RunIsLater(s, after);
    EveryRunKeeps(before + [step] + after);
    assert Block(s', channel);
  }

  /** After its removal a channel receives nothing more: its block ends with the events started before. */
  lemma {:induction false} NothingAfterRemoval(before: seq<Step>, id: string, after: seq<Step>)
    requires Interleaving(before + [Unsubscribe(id)] + after)
    requires id in After(before).subscribers
    ensures var s, s' := After(before), After(before + [Unsubscribe(id)] + after);
            var channel := s.subscribers[id];
            && channel in s.delivered && channel in s'.delivered
            && s'.delivered[channel] == s.delivered[channel]
            && End(s', channel) == |s.started|
  {
    var step := Unsubscribe(id);
    RunSplits(before, step, after);
    var s0 := After(before);
    var channel := s0.subscribers[id];
    var s := Next(s0, step);
    var s' := Run(Next, s, after);
    RunIsLater(s, after);
    EveryRunKeeps(before + [step] + after);
    SameBlock(s, s', channel);
  }

  lemma {:induction false} SameBlock(s: State, s': State, c: Channel)
    requires Inv(s) && Inv(s') && Later(s, s') && c in s.until
    ensures c in s.delivered && c in s'.delivered && s'.delivered[c] == s.delivered[c] && End(s', c) == s.until[c]
  {
    assert Block(s, c) && Block(s', c);
    var a, b := s.since[c], s.until[c];
    assert s'.started[..|s.started|][a..b] == s'.started[a..b];
  }

  /** The machine does run: a subscriber, an event, and its delivery. */
  lemma {:induction false} OneDelivery(id: string, channel: Channel, event: Event, steps: seq<Step>)
    requires steps == [Subscribe(id, channel), Take(event), Lock, Send(channel), Unlock]
    ensures Interleaving(steps)
    ensures channel in After(steps).delivered && After(steps).delivered[channel] == [event]
  {
    var s1 := Next(START, Subscribe(id, channel));
    var s2 := Next(s1, Take(event));
    var s3 := Next(s2, Lock);
    assert s3.subscribers[id] == channel;
    var s4 := Next(s3, Send(channel));
    var a, b, c, d := steps[..1], steps[..2], steps[..3], steps[..4];
    assert a == [] + [steps[0]] && b == a + [steps[1]] && c == b + [steps[2]] && d == c + [steps[3]] && steps == d + [steps[4]];
    OneMore(Next, Enabled, START, [], steps[0]);
    OneMore(Next, Enabled, START, a, steps[1]);
    OneMore(Next, Enabled, START, b, steps[2]);
    OneMore(Next, Enabled, START, c, steps[3]);
    assert s4.fanout.todo == {};
    OneMore(Next, Enabled, START, d, steps[4]);
  }
}
