/** The two endless loops of the server: the client connection and the replication listener. */
module Servers {
  import opened GoStrings
  import opened RespParser
  import opened Hosts
  import opened HostContexts
  import opened Replication
  import opened Connections

  method ParseServerCommand(p: Parser) returns (r: Result<Command>)
    modifies p.lexer, p.lexer.reader
    ensures var step := ParseCommand(old(p.Rest()));
            r == step.res && p.Rest() == step.rest && p.lexer.byteCounter == old(p.lexer.byteCounter) + step.count
    ensures p.lexer.reader.Stream() == old(p.lexer.reader.Stream())
  {
    var c := p.Parse();
    match c
    case Eof => r := Eof;
    case Error => r := Error;
    case Panic => r := Panic;
    case Ok(v) =>
      if !v.Arr? || |v.elements| == 0 || !v.elements[0].Bulk? {
        return Error;
      }
      r := Ok(Command(v.elements[0].content, v.elements));
  }

  /** Serves one client until the stream ends, a command fails, or the process dies. */
  method HandleConnection(hostctx: HostContext, p: Parser, conn: ConnId) returns (written: string, ending: Ending)
    modifies hostctx, hostctx.store, p.lexer, p.lexer.reader
    ensures (hostctx.View(), written, ending) ==
            Connection(hostctx.env, old(hostctx.View()), conn, old(p.Rest()), "")
  {
    written := "";
    ghost var end := Connection(hostctx.env, hostctx.View(), conn, p.Rest(), written);
    while true
      invariant end == Connection(hostctx.env, hostctx.View(), conn, p.Rest(), written)
      decreases |p.Rest()|
    {
      var c := ParseServerCommand(p);
      if !c.Ok? {
        ending := if c.Panic? then Killed else HungUp;
        return;
      }
      var res := hostctx.HandleCommand(conn, c.value.name, c.value.arr);
      if !res.Text? {
        ending := if res.Crash? then Killed else HungUp;
        return;
      }
      if res.text != "" {
        written := written + res.text;
      }
      assert written + "" == written;
    }
  }

  ghost function FollowerOf(hostctx: HostContext, p: Parser, drawn: nat, sent: seq<string>): Follower
    reads hostctx, hostctx.store, p.lexer
  {
    Follower(hostctx.View(), p.lexer.byteCounter, drawn, sent)
  }

  /** Handles a replicated command; only GETACK is answered, and only an answered command moves the offset. */
  method RunReplicated(hostctx: HostContext, p: Parser, c: Command, conn: ConnId, offset: int,
                       ghost drawn: nat, sent: seq<string>)
    returns (sent': seq<string>, status: Status)
    requires offset == hostctx.processed
    modifies hostctx, hostctx.store
    ensures var (h, out) := Handle(hostctx.env, old(hostctx.View()), conn, c.name, c.arr);
            (FollowerOf(hostctx, p, drawn + 1, sent'), status) ==
            Conclude(old(FollowerOf(hostctx, p, drawn, sent)), p.lexer.byteCounter, c, h, out)
  {
    ghost var f := FollowerOf(hostctx, p, drawn, sent);
    sent' := sent;
    var res := hostctx.HandleCommand(conn, c.name, c.arr);
    ghost var h := hostctx.View();
    if !res.Text? {
      status := if res.Failure? then Skipped else Died;
      return;
    }
    if IsGetAck(c) {
      sent' := sent + [res.text];
    }
    hostctx.AppendProcessedBytes(p.lexer.byteCounter - offset);
    status := Completed;
    assert hostctx.View() == h.(processed := h.processed + (p.lexer.byteCounter - f.host.processed));
    assert (FollowerOf(hostctx, p, drawn + 1, sent'), status) == Conclude(f, p.lexer.byteCounter, c, h, res);
  }

  /**
    One turn of the replication listener. The offset is read at the start and brought up to the byte
    counter at the end; a turn that fails leaves it as it is.
  */
  method ListenerTurn(hostctx: HostContext, p: Parser, ids: nat -> ConnId, drawn: nat, sent: seq<string>)
    returns (drawn': nat, sent': seq<string>, status: Status)
    modifies hostctx, hostctx.store, p.lexer, p.lexer.reader
    ensures (FollowerOf(hostctx, p, drawn', sent'), p.Rest(), status) ==
            Turn(hostctx.env, ids, old(FollowerOf(hostctx, p, drawn, sent)), old(p.Rest()))
  {
    ghost var f, s := FollowerOf(hostctx, p, drawn, sent), p.Rest();
    ghost var count := ParseCommand(s).count;
    drawn', sent' := drawn, sent;
    var offset := hostctx.processed;
    var c := ParseServerCommand(p);
    ghost var begun := p.lexer.byteCounter;
    assert FollowerOf(hostctx, p, drawn, sent) == f.(counter := begun) && begun == f.counter + count;
    if !c.Ok? {
      TurnOfFailure(hostctx.env, ids, f, s);
      status := if c.Eof? then AtEnd else if c.Error? then Skipped else Died;
      return;
    }
    ghost var (h, out) := Handle(hostctx.env, f.host, ids(drawn), c.value.name, c.value.arr);
    TurnOfCommand(hostctx.env, ids, f, s, c.value, p.Rest(), count);
    ConcludeAnyCounter(f, begun, begun, c.value, h, out);
    drawn' := drawn + 1;
    sent', status := RunReplicated(hostctx, p, c.value, ids(drawn), offset, drawn, sent);
  }

  lemma {:induction false} ListenTurns(env: Env, ids: nat -> ConnId, f: Follower, s: string)
    ensures var (f', rest, status) := Turn(env, ids, f, s);
            && (status.Completed? || status.Skipped? ==> |rest| < |s|)
            && Listen(env, ids, f, s) == if status.AtEnd? || status.Died? then f' else Listen(env, ids, f', rest)
  {
    TurnConsumes(env, ids, f, s);
  }

  /** Replays the leader's stream until it ends or the process dies; failed turns are passed over. */
  method ReplicationListener(hostctx: HostContext, p: Parser, ids: nat -> ConnId)
    returns (drawn: nat, sent: seq<string>)
    modifies hostctx, hostctx.store, p.lexer, p.lexer.reader
    ensures FollowerOf(hostctx, p, drawn, sent) ==
            Listen(hostctx.env, ids, old(FollowerOf(hostctx, p, 0, [])), old(p.Rest()))
  {
    drawn, sent := 0, [];
    ghost var end := Listen(hostctx.env, ids, FollowerOf(hostctx, p, drawn, sent), p.Rest());
    while true
      invariant end == Listen(hostctx.env, ids, FollowerOf(hostctx, p, drawn, sent), p.Rest())
      decreases |p.Rest()|
    {
      ListenTurns(hostctx.env, ids, FollowerOf(hostctx, p, drawn, sent), p.Rest());
      var status;
      drawn, sent, status := ListenerTurn(hostctx, p, ids, drawn, sent);
      if status.AtEnd? || status.Died? {
        return;
      }
    }
  }
}
