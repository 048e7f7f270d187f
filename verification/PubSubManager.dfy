/**
  The publisher as an object: what one turn of each of its two loops does to the subscribers' channels,
  as steps of the state machine.
*/
module PubSubManagers {
  import opened Runs
  import PubSub

  /** A subscriber's channel, as the sequence of events sent on it. */
  class Channel {
    const number: PubSub.Channel
    var sent: seq<string>

    constructor (number: PubSub.Channel)
      ensures this.number == number && sent == []
    {
      this.number, sent := number, [];
    }

    method Send(event: string)
      modifies this
      ensures sent == old(sent) + [event]
    {
      sent := sent + [event];
    }
  }

  datatype SubscriberEvent = Subscribe(id: string, channel: Channel) | Unsubscribe(id: string)

  function StepOf(event: SubscriberEvent): PubSub.Step {
    match event
    case Subscribe(id, channel) => PubSub.Subscribe(id, channel.number)
    case Unsubscribe(id) => PubSub.Unsubscribe(id)
  }

  function Sends(order: seq<PubSub.Channel>): seq<PubSub.Step> {
    seq(|order|, i requires 0 <= i < |order| => PubSub.Send(order[i]))
  }

  /** What the fan-out loop does with one event: take the lock, send in some order, and give it back. */
  function FanOutSteps(order: seq<PubSub.Channel>): seq<PubSub.Step> {
    [PubSub.Lock] + Sends(order) + [PubSub.Unlock]
  }

  class PubSubManager {
    var subscribers: map<string, Channel>
    ghost var state: PubSub.State  // the state of the machine that this object is in

    /** The registered channels are those of the machine, and each holds what the machine says it received. */
    ghost predicate Matches()
      reads this, subscribers.Values
    {
      && subscribers.Keys == state.subscribers.Keys
      && (forall id, id' :: id in subscribers && id' in subscribers && subscribers[id].number == subscribers[id'].number ==> id == id')
      && forall id :: id in subscribers ==>
           var number := state.subscribers[id];
           && subscribers[id].number == number && number in state.delivered
           && subscribers[id].sent == state.delivered[number]
    }

    /** Between two turns the lock is free. */
    ghost predicate Valid()
      reads this, subscribers.Values
    {
      Matches() && !state.fanout.Sending?
    }

    constructor ()
      ensures Valid() && state == PubSub.START
    {
      subscribers, state := map[], PubSub.START;
    }

    /** One turn of the subscription loop is one step of the machine. */
    method Handle(event: SubscriberEvent)
      requires Valid() && PubSub.Enabled(state, StepOf(event))
      requires event.Subscribe? ==> event.channel.sent == []
      modifies this
      ensures Valid() && state == PubSub.Next(old(state), StepOf(event))
      ensures subscribers == match event
                             case Subscribe(id, channel) => old(subscribers)[id := channel]
                             case Unsubscribe(id) => old(subscribers) - {id}
    {
      state := PubSub.Next(state, StepOf(event));
      match event
      case Subscribe(id, channel) => subscribers := subscribers[id := channel];
      case Unsubscribe(id) => subscribers := subscribers - {id};
    }

    /** The fan-out loop gets the next event, and then waits for the lock. */
    method Receive(event: string)
      requires Valid() && state.fanout.Idle?
      modifies this
      ensures Valid() && subscribers == old(subscribers)
      ensures state == PubSub.Next(old(state), PubSub.Take(event))
    {
      state := PubSub.Next(state, PubSub.Take(event));
    }

    ghost function Numbers(ids: set<string>): set<PubSub.Channel>
      reads this
    {
      set id | id in ids && id in subscribers :: subscribers[id].number
    }

    /**
      The machine is sending `event`, and just the subscribers of `todo` are still to get it: these hold
      what they held at first, the others one event more.
    */
    ghost predicate Sending(todo: set<string>, event: string, first: map<string, seq<string>>)
      reads this, subscribers.Values
    {
      && Matches() && todo <= subscribers.Keys == first.Keys
      && state.fanout.Sending? && state.fanout.event == event
      && state.fanout.todo == Numbers(todo)
      && (forall id :: id in subscribers ==> subscribers[id].sent == if id in todo then first[id] else first[id] + [event])
    }

    /** The fan-out loop gets the lock. */
    method Acquire(event: string) returns (ghost first: map<string, seq<string>>)
      requires Valid() && state.fanout == PubSub.Waiting(event)
      modifies this`state
      ensures Sending(subscribers.Keys, event, first)
      ensures forall id :: id in subscribers ==> first[id] == old(subscribers[id].sent)
      ensures Reaches(old(state), [PubSub.Lock], state)
    {
      first := map id | id in subscribers :: subscribers[id].sent;
      OneStep(state, PubSub.Lock);
      state := PubSub.Next(state, PubSub.Lock);
    }

    /** Sends the event to one more subscriber, which is one step of the machine. */
    method SendTo(id: string, event: string, ghost todo: set<string>, ghost first: map<string, seq<string>>)
      requires Sending(todo, event, first) && id in todo
      modifies this`state, subscribers[id]
      ensures Sending(todo - {id}, event, first)
      ensures Steps(old(state), PubSub.Send(subscribers[id].number), state)
    {
      NumbersWithout(todo, id);
      state := PubSub.Next(state, PubSub.Send(subscribers[id].number));
      subscribers[id].Send(event);
    }

    lemma {:induction false} NumbersWithout(todo: set<string>, id: string)
      requires Matches() && todo <= subscribers.Keys && id in todo
      ensures Numbers(todo - {id}) == Numbers(todo) - {subscribers[id].number}
    {
    }

    /** The fan-out loop gives the lock back. */
    method Release(event: string, ghost first: map<string, seq<string>>)
      requires Sending({}, event, first)
      modifies this`state
      ensures Valid() && state.fanout.Idle?
      ensures forall id :: id in subscribers ==> id in first && subscribers[id].sent == first[id] + [event]
      ensures Steps(old(state), PubSub.Unlock, state)
    {
      state := PubSub.Next(state, PubSub.Unlock);
    }

    /** The same as one more step of the run since `start`. */
    method SendNext(id: string, event: string, ghost todo: set<string>, ghost first: map<string, seq<string>>,
                    ghost start: PubSub.State, ghost order: seq<PubSub.Channel>)
      returns (ghost order': seq<PubSub.Channel>)
      requires Sending(todo, event, first) && id in todo && Reaches(start, [PubSub.Lock] + Sends(order), state)
      modifies this`state, subscribers[id]
      ensures Sending(todo - {id}, event, first) && Reaches(start, [PubSub.Lock] + Sends(order'), state)
    {
      ghost var before := state;
      SendTo(id, event, todo, first);
      AnotherSend(start, order, before, subscribers[id].number, state);
      order' := order + [subscribers[id].number];
    }

    /** The loop under the lock: every subscriber gets the event once, in whatever order the map is walked. */
    method SendToAll(event: string, ghost start: PubSub.State, ghost first: map<string, seq<string>>)
      returns (ghost order: seq<PubSub.Channel>)
      requires Sending(subscribers.Keys, event, first) && Reaches(start, [PubSub.Lock], state)
      modifies this`state, subscribers.Values
      ensures Sending({}, event, first) && Reaches(start, [PubSub.Lock] + Sends(order), state)
    {
      order := [];
      var todo := subscribers.Keys;
      NoSends();
      while todo != {}
        invariant Sending(todo, event, first)
        invariant Reaches(start, [PubSub.Lock] + Sends(order), state)
        decreases todo
      {
        var id :| id in todo;
        var left := todo - {id};
        order := SendNext(id, event, todo, first, start, order);
        todo := left;
      }
    }

    /**
      The rest of a turn of the fan-out loop: every channel gets the event once, and no other channel gets
      anything. To the machine this is a run.
    */
    method FanOut(event: string) returns (ghost order: seq<PubSub.Channel>)
      requires Valid() && state.fanout == PubSub.Waiting(event)
      modifies this`state, subscribers.Values
      ensures Valid() && state.fanout.Idle?
      ensures forall id :: id in subscribers ==> subscribers[id].sent == old(subscribers[id].sent) + [event]
      ensures Reaches(old(state), FanOutSteps(order), state)
    {
      ghost var start := state;
      ghost var first := Acquire(event);
      order := SendToAll(event, start, first);
      ghost var before := state;
      Release(event, first);
      AnotherStep(start, [PubSub.Lock] + Sends(order), before, PubSub.Unlock, state);
    }
  }

  predicate Steps(s: PubSub.State, step: PubSub.Step, s': PubSub.State) {
    PubSub.Enabled(s, step) && s' == PubSub.Next(s, step)
  }

  /** The steps are allowed one after the other, and lead from `start` to `s`. */
  predicate Reaches(start: PubSub.State, steps: seq<PubSub.Step>, s: PubSub.State) {
    Allowed(PubSub.Next, PubSub.Enabled, start, steps) && s == Run(PubSub.Next, start, steps)
  }

  lemma {:induction false} OneStep(start: PubSub.State, step: PubSub.Step)
    requires PubSub.Enabled(start, step)
    ensures Reaches(start, [step], PubSub.Next(start, step))
  {
    RunOne(PubSub.Next, start, step);
  }

  lemma {:induction false} AnotherStep(start: PubSub.State, steps: seq<PubSub.Step>, s: PubSub.State, step: PubSub.Step,
                                       s': PubSub.State)
    requires Reaches(start, steps, s) && Steps(s, step, s')
    ensures Reaches(start, steps + [step], s')
  {
    OneMore(PubSub.Next, PubSub.Enabled, start, steps, step);
  }

  lemma {:induction false} NoSends()
    ensures [PubSub.Lock] + Sends([]) == [PubSub.Lock]
  {
  }

  lemma {:induction false} AnotherSend(start: PubSub.State, order: seq<PubSub.Channel>, s: PubSub.State,
                                       number: PubSub.Channel, s': PubSub.State)
    requires Reaches(start, [PubSub.Lock] + Sends(order), s) && Steps(s, PubSub.Send(number), s')
    ensures Reaches(start, [PubSub.Lock] + Sends(order + [number]), s')
  {
    AnotherStep(start, [PubSub.Lock] + Sends(order), s, PubSub.Send(number), s');
    assert [PubSub.Lock] + Sends(order) + [PubSub.Send(number)] == [PubSub.Lock] + Sends(order + [number]);
  }
}
