/** One client connection: a pipeline of commands is read, handled and answered in order. */
module Connections {
  import opened GoStrings
  import opened Resp
  import opened RespGrammar
  import opened Hosts
  import opened Runs
  import opened Transactions
  import opened Replication

  /** How the loop of handleConnection ends: with the connection, or with the whole process. */
  datatype Ending = HungUp | Killed

  /** handleConnection as a function: the server it leaves and what it writes to the client. */
  function Connection(env: Env, h: Host, conn: ConnId, s: string, written: string): (Host, string, Ending)
    decreases |s|
  {
    var p := ParseCommand(s);
    match p.res
    case Ok(c) =>
      var (h', out) := Handle(env, h, conn, c.name, c.arr);
      (match out
       case Text(t) => Connection(env, h', conn, p.rest, written + t)
       case Failure => (h', written, HungUp)
       case Crash => (h', written, Killed))
    case Panic => (h, written, Killed)
    case _ => (h, written, HungUp)
  }

  /** The commands of a pipeline as events of one connection. */
  function EventsOf(conn: ConnId, cs: seq<Command>): seq<Event> {
    if cs == [] then [] else [Event(conn, cs[0].name, cs[0].arr)] + EventsOf(conn, cs[1..])
  }

  /** Every command of the list answers when they are run in order. */
  predicate AllAnswer(env: Env, h: Host, conn: ConnId, cs: seq<Command>)
    decreases |cs|
  {
    cs == [] ||
    var (h', out) := Handle(env, h, conn, cs[0].name, cs[0].arr);
    out.Text? && AllAnswer(env, h', conn, cs[1..])
  }

  lemma {:induction false} ServesFirst(env: Env, h: Host, conn: ConnId, c: Command, rest: string, written: string)
    requires WellSent(c)
    ensures var (h', out) := Handle(env, h, conn, c.name, c.arr);
            Connection(env, h, conn, Encode(Arr(c.arr)) + rest, written) ==
            if out.Text? then Connection(env, h', conn, rest, written + out.text)
            else (h', written, if out.Failure? then HungUp else Killed)
  {
    SentIsParsed(c.arr, rest);
    assert c == Command(c.arr[0].content, c.arr);
  }

  /** The same commands taken from a list instead of a stream, up to the first that fails. */
  function ServeAll(env: Env, h: Host, conn: ConnId, cs: seq<Command>, written: string): (Host, string, Ending)
    decreases |cs|
  {
    if cs == [] then (h, written, HungUp)
    else
      var (h', out) := Handle(env, h, conn, cs[0].name, cs[0].arr);
      match out
      case Text(t) => ServeAll(env, h', conn, cs[1..], written + t)
      case Failure => (h', written, HungUp)
      case Crash => (h', written, Killed)
  }

  /**
    A pipeline written without a pause is served as the list of its commands: each taken once and in
    order, answered in order, and nothing behind the first that fails.
  */
  lemma {:induction false} PipelineIsServed(env: Env, h: Host, conn: ConnId, cs: seq<Command>, written: string)
    requires forall i :: 0 <= i < |cs| ==> WellSent(cs[i])
    ensures Connection(env, h, conn, Sent(cs), written) == ServeAll(env, h, conn, cs, written)
    decreases |cs|
  {
    if cs == [] {
      assert ParseCommand("") == Step(Eof, "", 1);
    } else {
      var c, rest := cs[0], cs[1..];
      var (h', out) := Handle(env, h, conn, c.name, c.arr);
      ServesFirst(env, h, conn, c, Sent(rest), written);
      if out.Text? {
        PipelineIsServed(env, h', conn, rest, written + out.text);
      }
    }
  }

  /** The answers to a list of commands, in order. */
  function Answers(env: Env, h: Host, conn: ConnId, cs: seq<Command>): seq<string>
    decreases |cs|
  {
    if cs == [] then []
    else
      var (h', out) := Handle(env, h, conn, cs[0].name, cs[0].arr);
      [if out.Text? then out.text else ""] + Answers(env, h', conn, cs[1..])
  }

  /** Where no command fails, the list is a run of the server, and the client gets all the answers. */
  lemma {:induction false} ServedIsRun(env: Env, h: Host, conn: ConnId, cs: seq<Command>, written: string)
    requires AllAnswer(env, h, conn, cs)
    ensures ServeAll(env, h, conn, cs, written) ==
            (Run(Serve(env), h, EventsOf(conn, cs)), written + Flatten(Answers(env, h, conn, cs)), HungUp)
    decreases |cs|
  {
    if cs == [] {
      assert written + "" == written;
    } else {
      var c, rest := cs[0], cs[1..];
      var (h', out) := Handle(env, h, conn, c.name, c.arr);
      ServedIsRun(env, h', conn, rest, written + out.text);
      assert EventsOf(conn, cs)[0] == Event(conn, c.name, c.arr);
      assert EventsOf(conn, cs)[1..] == EventsOf(conn, rest);
      assert Serve(env)(h, Event(conn, c.name, c.arr)) == h';
      FlattenCons(written, out.text, Answers(env, h', conn, rest));
    }
  }

  lemma {:induction false} FlattenCons(written: string, t: string, more: seq<string>)
    ensures written + Flatten([t] + more) == written + t + Flatten(more)
  {
    assert ([t] + more)[1..] == more;
  }

  /** A pipeline without failures leaves the server as the run of its commands, and writes their answers. */
  lemma {:induction false} PipelineIsRun(env: Env, h: Host, conn: ConnId, cs: seq<Command>)
    requires forall i :: 0 <= i < |cs| ==> WellSent(cs[i])
    requires AllAnswer(env, h, conn, cs)
    ensures Connection(env, h, conn, Sent(cs), "") ==
            (Run(Serve(env), h, EventsOf(conn, cs)), Flatten(Answers(env, h, conn, cs)), HungUp)
  {
    PipelineIsServed(env, h, conn, cs, "");
    ServedIsRun(env, h, conn, cs, "");
    assert "" + Flatten(Answers(env, h, conn, cs)) == Flatten(Answers(env, h, conn, cs));
  }

  /** Commands that all answer are served and answered, and the connection goes on behind them. */
  lemma {:induction false} ServesThen(env: Env, h: Host, conn: ConnId, cs: seq<Command>, rest: string, written: string)
    requires forall i :: 0 <= i < |cs| ==> WellSent(cs[i])
    requires AllAnswer(env, h, conn, cs)
    ensures Connection(env, h, conn, Sent(cs) + rest, written) ==
            Connection(env, Run(Serve(env), h, EventsOf(conn, cs)), conn, rest,
                       written + Flatten(Answers(env, h, conn, cs)))
    decreases |cs|
  {
    if cs == [] {
      assert Sent(cs) + rest == rest && written + "" == written;
    } else {
      var c, tail := cs[0], cs[1..];
      var (h1, out) := Handle(env, h, conn, c.name, c.arr);
      assert Sent(cs) + rest == Encode(Arr(c.arr)) + (Sent(tail) + rest);
      ServesFirst(env, h, conn, c, Sent(tail) + rest, written);
      ServesThen(env, h1, conn, tail, rest, written + out.text);
      assert EventsOf(conn, cs)[0] == Event(conn, c.name, c.arr);
      assert EventsOf(conn, cs)[1..] == EventsOf(conn, tail);
      assert Serve(env)(h, Event(conn, c.name, c.arr)) == h1;
      FlattenCons(written, out.text, Answers(env, h1, conn, tail));
    }
  }

  /**
    The first command that fails ends the connection: what came before it is served and answered, and what
    comes behind it, whatever it is, is neither read nor answered.
  */
  lemma {:induction false} FailureEnds(env: Env, h: Host, conn: ConnId, cs: seq<Command>, c: Command, rest: string,
                                       before: Host, h': Host, out: Outcome)
    requires (forall i :: 0 <= i < |cs| ==> WellSent(cs[i])) && WellSent(c)
    requires AllAnswer(env, h, conn, cs) && before == Run(Serve(env), h, EventsOf(conn, cs))
    requires (h', out) == Handle(env, before, conn, c.name, c.arr) && !out.Text?
    ensures Connection(env, h, conn, Sent(cs) + (Encode(Arr(c.arr)) + rest), "") ==
            (h', Flatten(Answers(env, h, conn, cs)), if out.Crash? then Killed else HungUp)
  {
    ServesThen(env, h, conn, cs, Encode(Arr(c.arr)) + rest, "");
    assert "" + Flatten(Answers(env, h, conn, cs)) == Flatten(Answers(env, h, conn, cs));
    ServesFirst(env, before, conn, c, rest, Flatten(Answers(env, h, conn, cs)));
  }

  /** Input that is no command ends the connection, and a count that panics ends the process. */
  lemma {:induction false} GarbageEnds(env: Env, h: Host, conn: ConnId, s: string, written: string)
    requires !ParseCommand(s).res.Ok?
    ensures Connection(env, h, conn, s, written) == (h, written, if ParseCommand(s).res.Panic? then Killed else HungUp)
  {
  }
}
