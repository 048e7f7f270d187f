/** Leader and follower: what is published, how a follower replays it, and the offset it acknowledges. */
module Replication {
  import opened GoStrings
  import opened Resp
  import opened RespGrammar
  import opened Hosts
  import opened Transactions

  // ----- ParseServerCommand

  datatype Command = Command(name: string, arr: seq<Resp>)

  /** A command is a non-empty array whose first element is a bulk string. */
  function AsCommand(v: Resp): Result<Command> {
    if v.Arr? && v.elements != [] && v.elements[0].Bulk?
    then Ok(Command(v.elements[0].content, v.elements))
    else Error
  }

  function ParseCommand(s: string): (p: Step<Command>)
    ensures Accounted(s, p) && 0 < p.count
    ensures s != "" ==> |p.rest| < |s|
  {
    var p := Parse(s);
    Step(match p.res
         case Ok(v) => AsCommand(v)
         case Eof => Eof
         case Error => Error
         case Panic => Panic, p.rest, p.count)
  }

  /** An array that a client or a leader may send as a command and that reads back. */
  predicate Sendable(arr: seq<Resp>) {
    arr != [] && arr[0].Bulk? && Readable(Arr(arr))
  }

  lemma {:induction false} SentIsParsed(arr: seq<Resp>, rest: string)
    requires Sendable(arr)
    ensures ParseCommand(Encode(Arr(arr)) + rest) ==
            Step(Ok(Command(arr[0].content, arr)), rest, |Encode(Arr(arr))|)
  {
    RoundTrip(Arr(arr), rest);
  }

  /** Everything else that can be read is refused as a command: another value, an empty array, another first element. */
  lemma {:induction false} OtherValueIsNoCommand(v: Resp, rest: string)
    requires Readable(v) && (v.Arr? && v.elements != [] ==> !v.elements[0].Bulk?)
    ensures ParseCommand(Encode(v) + rest) == Step(Error, rest, |Encode(v)|)
  {
    RoundTrip(v, rest);
  }

  // ----- pipelining

  /** Repeated ParseServerCommand: the commands read before the first result that is none. */
  function ReadAll(s: string): (seq<Command>, Result<Command>)
    decreases |s|
  {
    var p := ParseCommand(s);
    if p.res.Ok? then
      var (cs, end) := ReadAll(p.rest);
      ([p.res.value] + cs, end)
    else ([], p.res)
  }

  function Sent(cs: seq<Command>): string {
    if cs == [] then "" else Encode(Arr(cs[0].arr)) + Sent(cs[1..])
  }

  predicate WellSent(c: Command) {
    Sendable(c.arr) && c.name == c.arr[0].content
  }

  lemma {:induction false} ReadAllCons(c: Command, rest: string)
    requires WellSent(c)
    ensures ReadAll(Encode(Arr(c.arr)) + rest) == ([c] + ReadAll(rest).0, ReadAll(rest).1)
  {
    SentIsParsed(c.arr, rest);
    assert c == Command(c.arr[0].content, c.arr);
  }

  /** A pipeline of commands, written without separators, is read as that list and then the end. */
  lemma {:induction false} PipelineIsUnambiguous(cs: seq<Command>)
    requires forall i :: 0 <= i < |cs| ==> WellSent(cs[i])
    ensures ReadAll(Sent(cs)) == (cs, Eof)
  {
    if cs == [] {
      assert ParseCommand("").res.Eof?;
    } else {
      ReadAllCons(cs[0], Sent(cs[1..]));
      PipelineIsUnambiguous(cs[1..]);
      assert cs == [cs[0]] + cs[1..];
    }
  }

  // ----- the replication listener

  /** A follower: its server, its lexer's byte counter, the connection ids drawn, and what it sent back. */
  datatype Follower = Follower(host: Host, counter: nat, drawn: nat, sent: seq<string>)

  datatype Status = Completed | Skipped | AtEnd | Died

  predicate IsGetAck(c: Command) {
    VerbOf(Lower(c.name)).ReplConf? && Arg(c.arr, 1).Some? && Lower(Arg(c.arr, 1).value) == "getack"
  }

  /**
    One turn of the listener: parse, handle under a fresh connection id, answer GETACK only, and add
    to the offset what the counter has grown since the offset was read at the start of the turn.
  */
  function Turn(env: Env, ids: nat -> ConnId, f: Follower, s: string): (Follower, string, Status) {
    var p := ParseCommand(s);
    var counter := f.counter + p.count;
    match p.res
    case Eof => (f.(counter := counter), p.rest, AtEnd)
    case Error => (f.(counter := counter), p.rest, Skipped)
    case Panic => (f.(counter := counter), p.rest, Died)
    case Ok(c) =>
      var (h, out) := Handle(env, f.host, ids(f.drawn), c.name, c.arr);
      var (f', status) := Conclude(f, counter, c, h, out);
      (f', p.rest, status)
  }

  /** The end of a turn, once the command is handled: the offset moves only when it was answered. */
  function Conclude(f: Follower, counter: nat, c: Command, h: Host, out: Outcome): (Follower, Status) {
    match out
    case Failure => (Follower(h, counter, f.drawn + 1, f.sent), Skipped)
    case Crash => (Follower(h, counter, f.drawn + 1, f.sent), Died)
    case Text(t) =>
      (Follower(h.(processed := h.processed + (counter - f.host.processed)), counter, f.drawn + 1,
                if IsGetAck(c) then f.sent + [t] else f.sent), Completed)
  }

  lemma {:induction false} TurnOfFailure(env: Env, ids: nat -> ConnId, f: Follower, s: string)
    requires !ParseCommand(s).res.Ok?
    ensures var p := ParseCommand(s);
            Turn(env, ids, f, s) ==
            (f.(counter := f.counter + p.count), p.rest,
             if p.res.Eof? then AtEnd else if p.res.Error? then Skipped else Died)
  {
  }

  /** What a turn comes to does not depend on the counter it began with. */
  lemma {:induction false} ConcludeAnyCounter(f: Follower, begun: nat, counter: nat, c: Command, h: Host, out: Outcome)
    ensures Conclude(f.(counter := begun), counter, c, h, out) == Conclude(f, counter, c, h, out)
  {
  }

  lemma {:induction false} TurnOfCommand(env: Env, ids: nat -> ConnId, f: Follower, s: string,
                                         c: Command, rest: string, count: nat)
    requires ParseCommand(s) == Step(Ok(c), rest, count)
    ensures var (h, out) := Handle(env, f.host, ids(f.drawn), c.name, c.arr);
            var (f', status) := Conclude(f, f.counter + count, c, h, out);
            Turn(env, ids, f, s) == (f', rest, status)
  {
  }

  lemma {:induction false} TurnConsumes(env: Env, ids: nat -> ConnId, f: Follower, s: string)
    ensures var (f', rest, status) := Turn(env, ids, f, s);
            && (status.Completed? || status.Skipped? ==> |rest| < |s|)
            && rest == ParseCommand(s).rest && f'.counter == f.counter + ParseCommand(s).count
  {
  }

  /**
    How a turn ends: an error of the handler, like input that is no command, is passed over; a panic ends the
    process; and only the end of the stream ends the loop.
  */
  lemma {:induction false} TurnEnds(env: Env, ids: nat -> ConnId, f: Follower, s: string)
    ensures var res, (f', rest, status) := ParseCommand(s).res, Turn(env, ids, f, s);
            && (res.Eof? ==> status == AtEnd) && (res.Error? ==> status == Skipped) && (res.Panic? ==> status == Died)
            && (res.Ok? ==>
                  var (h, out) := Handle(env, f.host, ids(f.drawn), res.value.name, res.value.arr);
                  && (out == Failure ==> status == Skipped && f'.host == h)
                  && (out == Crash ==> status == Died && f'.host == h)
                  && (out.Text? ==> status == Completed && f'.host == h.(processed := f'.host.processed)))
  {
  }

  /** GETACK by name, in any letter case. */
  lemma {:induction false} GetAckNames(c: Command)
    ensures IsGetAck(c) <==>
            Lower(c.name) == "replconf" && |c.arr| >= 2 && c.arr[1].Bulk? && Lower(c.arr[1].content) == "getack"
  {
    assert VerbOf(Lower(c.name)).ReplConf? <==> Lower(c.name) == "replconf";
  }

  /** The listener runs until the stream ends or the process dies. */
  function Listen(env: Env, ids: nat -> ConnId, f: Follower, s: string): Follower
    decreases |s|
  {
    var (f', rest, status) := Turn(env, ids, f, s);
    if status.AtEnd? || status.Died? then f'
    else
      TurnConsumes(env, ids, f, s);
      Listen(env, ids, f', rest)
  }

  // ----- the offset

  lemma {:induction false} QueueKeepsOffset(env: Env, h: Host, queue: Queue, replies: seq<string>)
    ensures RunQueue(env, h, queue, replies).0.processed == h.processed
    decreases |queue|
  {
    if queue != [] {
      var q := queue[0];
      assert Queueable(q);
      var (h', out) := Handle(env, h, NO_CONN, q.command, q.arr);
      if out.Text? {
        QueueKeepsOffset(env, h', queue[1..], replies + [out.text]);
      }
    }
  }

  lemma {:induction false} HandleKeepsOffset(env: Env, h: Host, conn: ConnId, content: string, arr: seq<Resp>)
    ensures Handle(env, h, conn, content, arr).0.processed == h.processed
  {
    if VerbOf(Lower(content)).Exec? && conn in h.tx {
      QueueKeepsOffset(env, h.(tx := h.tx - {conn}), h.tx[conn], []);
    }
  }

  /** The stream begins with a command, and handling it gives an answer. */
  predicate IsAnswered(env: Env, ids: nat -> ConnId, f: Follower, s: string) {
    var c := ParseCommand(s).res;
    c.Ok? && Handle(env, f.host, ids(f.drawn), c.value.name, c.value.arr).1.Text?
  }

  /**
    The offset corrects itself: a turn whose command is answered sets it to the byte counter, whatever
    turns failed before; any other turn leaves it as it was, behind the counter.
  */
  lemma {:induction false} OffsetAfterTurn(env: Env, ids: nat -> ConnId, f: Follower, s: string)
    requires f.host.processed <= f.counter
    ensures var (f', rest, status) := Turn(env, ids, f, s);
            && f'.host.processed <= f'.counter
            && (f'.host.processed == f'.counter <==> IsAnswered(env, ids, f, s))
            && (!IsAnswered(env, ids, f, s) ==> f'.host.processed == f.host.processed)
  {
    var p := ParseCommand(s);
    if p.res.Ok? {
      HandleKeepsOffset(env, f.host, ids(f.drawn), p.res.value.name, p.res.value.arr);
    }
  }

  /** An acknowledgement, byte for byte. */
  function AckBytes(offset: int): string {
    "*3\r\n" + ("$8\r\nREPLCONF\r\n" + ("$3\r\nACK\r\n" + ("$" + Itoa(|Itoa(offset)|) + "\r\n" + Itoa(offset) + "\r\n")))
  }

  lemma {:induction false} AckIsSpelled(offset: int)
    ensures Encode(AckResponse(offset)) == AckBytes(offset)
  {
    EncodeThree(Bulk("REPLCONF"), Bulk("ACK"), Bulk(Itoa(offset)));
    AckWords();
  }

  lemma {:induction false} AckWords()
    ensures Encode(Bulk("REPLCONF")) == "$8\r\nREPLCONF\r\n" && Encode(Bulk("ACK")) == "$3\r\nACK\r\n"
    ensures "*" + Itoa(3) + CRLF == "*3\r\n"
  {
    assert Itoa(8) == "8" && Itoa(3) == "3";
  }

  /** Read back, the text is REPLCONF, ACK and a number, and the number is `offset`. */
  ghost predicate Acknowledges(text: string, offset: int) {
    exists t :: Parse(text) == Step(Ok(Arr([Bulk("REPLCONF"), Bulk("ACK"), Bulk(t)])), "", |text|) && Atoi(t) == Good(offset)
  }

  lemma {:induction false} DigitsAreFew(n: nat)
    ensures |Digits(n)| <= n / 2 + 1
  {
    if n >= 10 {
      DigitsAreFew(n / 10);
    }
  }

  lemma {:induction false} AckReadsBack(offset: int)
    requires 0 <= offset <= MAX_INT
    ensures Acknowledges(AckBytes(offset), offset)
  {
    DigitsAreFew(offset);
    var v := AckResponse(offset);
    AckIsSpelled(offset);
    RoundTrip(v, "");
    assert Encode(v) + "" == Encode(v);
    AtoiItoa(offset);
  }

  /** One more text was sent to the leader, and it acknowledges `offset`, as far as Go's counter reaches. */
  ghost predicate SentAck(before: seq<string>, after: seq<string>, offset: int) {
    exists reply :: after == before + [reply] && (0 <= offset <= MAX_INT ==> Acknowledges(reply, offset))
  }

  lemma {:induction false} AckIsSent(before: seq<string>, after: seq<string>, offset: int)
    requires after == before + [AckBytes(offset)]
    ensures SentAck(before, after, offset)
  {
    if 0 <= offset <= MAX_INT {
      AckReadsBack(offset);
    }
  }

  lemma {:induction false} GetAckIsAnswered(env: Env, h: Host, conn: ConnId, c: Command)
    requires IsGetAck(c) && conn !in h.tx
    ensures Handle(env, h, conn, c.name, c.arr).1 == Text(AckBytes(h.processed))
  {
    AckIsSpelled(h.processed);
  }

  /** GETACK outside a transaction is answered with the offset held at that moment. */
  lemma {:induction false} GetAckReports(env: Env, ids: nat -> ConnId, f: Follower, s: string, f': Follower)
    requires ParseCommand(s).res.Ok? && IsGetAck(ParseCommand(s).res.value) && ids(f.drawn) !in f.host.tx
    requires f' == Turn(env, ids, f, s).0
    ensures SentAck(f.sent, f'.sent, f.host.processed)
  {
    GetAckIsAnswered(env, f.host, ids(f.drawn), ParseCommand(s).res.value);
    AckIsSent(f.sent, f'.sent, f.host.processed);
  }

  /** Nothing but the answer to a GETACK is ever sent to the leader. */
  lemma {:induction false} OtherTurnsAreSilent(env: Env, ids: nat -> ConnId, f: Follower, s: string)
    requires ParseCommand(s).res.Ok? ==> !IsGetAck(ParseCommand(s).res.value)
    ensures Turn(env, ids, f, s).0.sent == f.sent
  {
  }

  // ----- the offset over any run

  /** The follower after `n` turns, and what is then left of the stream. */
  function AfterTurns(env: Env, ids: nat -> ConnId, f: Follower, s: string, n: nat): (Follower, string) {
    if n == 0 then (f, s)
    else
      var (g, rest) := AfterTurns(env, ids, f, s, n - 1);
      var (g', rest', status) := Turn(env, ids, g, rest);
      (g', rest')
  }

  /** The listener gets through `n` turns: some fail, but none ends the stream or the process. */
  predicate GoesOn(env: Env, ids: nat -> ConnId, f: Follower, s: string, n: nat) {
    n == 0 ||
    (GoesOn(env, ids, f, s, n - 1) &&
     var (g, rest) := AfterTurns(env, ids, f, s, n - 1);
     var status := Turn(env, ids, g, rest).2;
     status.Completed? || status.Skipped?)
  }

  lemma {:induction false} LastTurn(env: Env, ids: nat -> ConnId, f: Follower, s: string, n: nat, m: nat)
    requires n == m + 1 && GoesOn(env, ids, f, s, n)
    ensures GoesOn(env, ids, f, s, m)
    ensures var (g, rest) := AfterTurns(env, ids, f, s, m);
            var (g', rest', status) := Turn(env, ids, g, rest);
            AfterTurns(env, ids, f, s, n) == (g', rest') && (status.Completed? || status.Skipped?)
  {
    assert AfterTurns(env, ids, f, s, m + 1) == AfterTurns(env, ids, f, s, n);
    assert GoesOn(env, ids, f, s, m + 1);
  }

  /** The ids drawn for the turns are distinct, none is the zero id, and none still to come has a transaction. */
  ghost predicate Fresh(ids: nat -> ConnId, f: Follower) {
    && (forall i: nat, j: nat :: i != j ==> ids(i) != ids(j))
    && (forall i: nat :: ids(i) != NO_CONN)
    && (forall i: nat :: f.drawn <= i ==> ids(i) !in f.host.tx)
  }

  lemma {:induction false} TurnKeepsFresh(env: Env, ids: nat -> ConnId, f: Follower, s: string)
    requires Fresh(ids, f)
    ensures Fresh(ids, Turn(env, ids, f, s).0)
  {
    var p, f' := ParseCommand(s), Turn(env, ids, f, s).0;
    if p.res.Ok? {
      var c := p.res.value;
      TurnOfCommand(env, ids, f, s, c, p.rest, p.count);
      forall i: nat | f.drawn + 1 <= i
        ensures ids(i) !in Handle(env, f.host, ids(f.drawn), c.name, c.arr).0.tx
      {
        HandleMovesOwn(env, f.host, ids(f.drawn), c.name, c.arr, ids(i));
      }
    } else {
      TurnOfFailure(env, ids, f, s);
    }
  }

  /** As long as bytes are left, one more turn that goes on counts exactly the bytes it takes. */
  lemma {:induction false} TurnCountsBytes(env: Env, ids: nat -> ConnId, f: Follower, s: string)
    requires var status := Turn(env, ids, f, s).2; status.Completed? || status.Skipped?
    ensures var (f', rest, status) := Turn(env, ids, f, s);
            s != "" && |rest| < |s| && (rest != "" ==> f'.counter == f.counter + |s| - |rest|)
  {
    TurnConsumes(env, ids, f, s);
  }

  /** After any turns, failed ones included, the byte counter has grown by exactly the bytes taken off the stream. */
  lemma {:induction false} CounterIsBytes(env: Env, ids: nat -> ConnId, f: Follower, s: string, n: nat)
    requires GoesOn(env, ids, f, s, n) && Fresh(ids, f) && f.host.processed <= f.counter
    ensures var (g, rest) := AfterTurns(env, ids, f, s, n);
            && |rest| <= |s| && (rest != "" ==> g.counter == f.counter + |s| - |rest|)
            && Fresh(ids, g) && g.host.processed <= g.counter
  {
    if n > 0 {
      var m := n - 1;
      LastTurn(env, ids, f, s, n, m);
      CounterIsBytes(env, ids, f, s, m);
      var (g, rest) := AfterTurns(env, ids, f, s, m);
      TurnCountsBytes(env, ids, g, rest);
      TurnKeepsFresh(env, ids, g, rest);
      OffsetAfterTurn(env, ids, g, rest);
    }
  }

  /** The turns end with a command that is answered, if there are any. */
  predicate EndsAnswered(env: Env, ids: nat -> ConnId, f: Follower, s: string, n: nat) {
    n == 0 ||
    var (g, rest) := AfterTurns(env, ids, f, s, n - 1);
    IsAnswered(env, ids, g, rest)
  }

  lemma {:induction false} EndOfTurns(env: Env, ids: nat -> ConnId, f: Follower, s: string, n: nat, m: nat,
                                      g: Follower, rest: string)
    requires n == m + 1 && GoesOn(env, ids, f, s, n) && (g, rest) == AfterTurns(env, ids, f, s, m)
    ensures AfterTurns(env, ids, f, s, n).0 == Turn(env, ids, g, rest).0
  {
    LastTurn(env, ids, f, s, n, m);
  }

  lemma {:induction false} EndIsAnswered(env: Env, ids: nat -> ConnId, f: Follower, s: string, n: nat, m: nat,
                                         g: Follower, rest: string)
    requires n == m + 1 && (g, rest) == AfterTurns(env, ids, f, s, m)
    ensures EndsAnswered(env, ids, f, s, n) <==> IsAnswered(env, ids, g, rest)
  {
    assert EndsAnswered(env, ids, f, s, m + 1) == EndsAnswered(env, ids, f, s, n);
  }

  lemma {:induction false} OffsetAfterTurns(env: Env, ids: nat -> ConnId, f: Follower, s: string, n: nat, g': Follower)
    requires GoesOn(env, ids, f, s, n) && Fresh(ids, f) && f.host.processed == f.counter
    requires g' == AfterTurns(env, ids, f, s, n).0
    ensures g'.host.processed == g'.counter <==> EndsAnswered(env, ids, f, s, n)
  {
    if n > 0 {
      var m := n - 1;
      var (g, rest) := AfterTurns(env, ids, f, s, m);
      EndOfTurns(env, ids, f, s, n, m, g, rest);
      EndIsAnswered(env, ids, f, s, n, m, g, rest);
      assert g.host.processed <= g.counter by {
        LastTurn(env, ids, f, s, n, m);
        CounterIsBytes(env, ids, f, s, m);
      }
      OffsetAfterTurn(env, ids, g, rest);
    }
  }

  /**
    A GETACK that comes after `n` turns, whatever these were, is acknowledged with the number of all
    bytes before it in the stream if and only if it comes first or the command of the turn before was
    parsed and answered: the bytes of failed turns right before it are missing.
  */
  lemma {:induction false} GetAckIsExactIff(env: Env, ids: nat -> ConnId, start: Follower, stream: string, n: nat,
                                            f: Follower, rest: string)
    returns (offset: int)
    requires Fresh(ids, start) && start.host.processed == start.counter && GoesOn(env, ids, start, stream, n)
    requires (f, rest) == AfterTurns(env, ids, start, stream, n)
    requires ParseCommand(rest).res.Ok? && IsGetAck(ParseCommand(rest).res.value)
    ensures SentAck(f.sent, Turn(env, ids, f, rest).0.sent, offset)
    ensures |rest| <= |stream|
    ensures offset == start.counter + |stream| - |rest| <==> EndsAnswered(env, ids, start, stream, n)
  {
    offset := f.host.processed;
    CounterIsBytes(env, ids, start, stream, n);
    OffsetAfterTurns(env, ids, start, stream, n, f);
    GetAckReports(env, ids, f, rest, Turn(env, ids, f, rest).0);
    assert ParseCommand("").res.Eof?;
  }

  /** The listener that gets through `n` turns goes on from where they end: a failed turn does not stop it. */
  lemma {:induction false} ListenTakesTurns(env: Env, ids: nat -> ConnId, f: Follower, s: string, n: nat)
    requires GoesOn(env, ids, f, s, n)
    ensures var (g, rest) := AfterTurns(env, ids, f, s, n);
            Listen(env, ids, f, s) == Listen(env, ids, g, rest)
  {
    if n > 0 {
      var m := n - 1;
      LastTurn(env, ids, f, s, n, m);
      ListenTakesTurns(env, ids, f, s, m);
      var (g, rest) := AfterTurns(env, ids, f, s, m);
      TurnConsumes(env, ids, g, rest);
    }
  }

  lemma {:induction false} FirstTurnIsSkipped(env: Env, ids: nat -> ConnId, f: Follower, rest: string)
    ensures AfterTurns(env, ids, f, "x" + rest, 1) == (f.(counter := f.counter + 1), rest)
    ensures GoesOn(env, ids, f, "x" + rest, 1) && !EndsAnswered(env, ids, f, "x" + rest, 1)
  {
    var s := "x" + rest;
    assert s[1..] == rest && ParseCommand(s) == Step(Error, rest, 1);
    TurnOfFailure(env, ids, f, s);
    assert AfterTurns(env, ids, f, s, 0) == (f, s);
  }

  lemma {:induction false} AskIsGetAck(ask: seq<Resp>, s: string)
    requires ask == [Bulk("replconf"), Bulk("getack")] && s == Encode(Arr(ask))
    ensures ParseCommand(s).res == Ok(Command("replconf", ask)) && IsGetAck(Command("replconf", ask))
  {
    assert s + "" == s;
    SentIsParsed(ask, "");
    assert Lower("replconf") == "replconf" && Lower("getack") == "getack";
  }

  /**
    So a fresh follower can acknowledge no bytes although one byte of the stream came before: a byte that
    no value begins with, in front of the GETACK `s`.
  */
  lemma {:induction false} GetAckMissesBytes(env: Env, ids: nat -> ConnId, f: Follower, ask: seq<Resp>, s: string,
                                             g: Follower, g': Follower)
    requires f == Follower(NEW_HOST, 0, 0, []) && ask == [Bulk("replconf"), Bulk("getack")] && s == Encode(Arr(ask))
    requires g == f.(counter := 1) && g' == Turn(env, ids, g, s).0
    ensures AfterTurns(env, ids, f, "x" + s, 1) == (g, s)
    ensures GoesOn(env, ids, f, "x" + s, 1) && !EndsAnswered(env, ids, f, "x" + s, 1)
    ensures SentAck([], g'.sent, 0) && |"x" + s| - |s| == 1
  {
    FirstTurnIsSkipped(env, ids, f, s);
    AskIsGetAck(ask, s);
    GetAckReports(env, ids, g, s, g');
  }

  // ----- the offset over a run without failures

  /** A listener seen from outside: the follower it leaves, from a follower and a stream. */
  type Feed = (Follower, string) -> Follower

  function Listener(env: Env, ids: nat -> ConnId): Feed {
    (f: Follower, s: string) => Listen(env, ids, f, s)
  }

  /** The follower after a command that is parsed and handled, and how its turn ended. */
  type CommandStep = (Follower, Command) -> (Follower, Status)

  function AfterCommand(env: Env, ids: nat -> ConnId): CommandStep {
    (f: Follower, c: Command) =>
      var (h, out) := Handle(env, f.host, ids(f.drawn), c.name, c.arr);
      Conclude(f, f.counter + |Encode(Arr(c.arr))|, c, h, out)
  }

  /** Every command of the list completes its turn. */
  predicate AllComplete(after: CommandStep, f: Follower, cs: seq<Command>)
    decreases |cs|
  {
    cs == [] || (after(f, cs[0]).1.Completed? && AllComplete(after, after(f, cs[0]).0, cs[1..]))
  }

  /** A command that a listener is sent: well formed, and not MULTI, which is never published. */
  predicate Published(c: Command) {
    WellSent(c) && !VerbOf(Lower(c.name)).Multi?
  }

  /** The offset is up to date and no transaction is open. */
  predicate UpToDate(f: Follower) {
    f.host.processed == f.counter && f.host.tx == map[]
  }

  /** If `c` comes first in the stream and completes, the listener goes on behind it, up to date again. */
  ghost predicate TakesFirst(feed: Feed, after: CommandStep, f: Follower, c: Command) {
    Published(c) && UpToDate(f) && after(f, c).1.Completed? ==>
      var f' := after(f, c).0;
      && UpToDate(f') && f'.counter == f.counter + |Encode(Arr(c.arr))|
      && forall rest :: feed(f, Encode(Arr(c.arr)) + rest) == feed(f', rest)
  }

  lemma {:induction false} CommandComesFirst(c: Command, rest: string)
    requires WellSent(c)
    ensures ParseCommand(Encode(Arr(c.arr)) + rest) == Step(Ok(c), rest, |Encode(Arr(c.arr))|)
  {
    SentIsParsed(c.arr, rest);
    assert c == Command(c.arr[0].content, c.arr);
  }

  lemma {:induction false} TurnIsStep(env: Env, ids: nat -> ConnId, f: Follower, c: Command, s: string, rest: string)
    requires ParseCommand(s) == Step(Ok(c), rest, |Encode(Arr(c.arr))|)
    ensures var (f', status) := AfterCommand(env, ids)(f, c);
            Turn(env, ids, f, s) == (f', rest, status)
  {
    TurnOfCommand(env, ids, f, s, c, rest, |Encode(Arr(c.arr))|);
  }

  lemma {:induction false} TurnCompletes(env: Env, ids: nat -> ConnId, f: Follower, c: Command, s: string, f': Follower, rest: string)
    requires WellSent(c) && s == Encode(Arr(c.arr)) + rest && AfterCommand(env, ids)(f, c) == (f', Completed)
    ensures Turn(env, ids, f, s) == (f', rest, Completed)
  {
    CommandComesFirst(c, rest);
    TurnIsStep(env, ids, f, c, s, rest);
  }

  /** Without MULTI no transaction comes up. */
  lemma {:induction false} NoTransactionComesUp(env: Env, h: Host, conn: ConnId, content: string, arr: seq<Resp>)
    requires h.tx == map[] && !VerbOf(Lower(content)).Multi?
    ensures Handle(env, h, conn, content, arr).0.tx == map[]
  {
    OutsideTransaction(env, h, conn, content, arr);
  }

  lemma {:induction false} ListenerGoesOn(env: Env, ids: nat -> ConnId, f: Follower, s: string, f': Follower, rest: string)
    requires Turn(env, ids, f, s) == (f', rest, Completed)
    ensures Listener(env, ids)(f, s) == Listener(env, ids)(f', rest)
  {
    TurnConsumes(env, ids, f, s);
  }

  /** A command that completes moves the offset to the counter, if handling it left the offset alone. */
  lemma {:induction false} CompletedIsUpToDate(f: Follower, counter: nat, c: Command, h: Host, out: Outcome, f': Follower)
    requires Conclude(f, counter, c, h, out) == (f', Completed)
    requires h.processed == f.host.processed <= counter && h.tx == map[]
    ensures UpToDate(f') && f'.counter == counter
  {
  }

  lemma {:induction false} CommandLeavesUpToDate(env: Env, ids: nat -> ConnId, f: Follower, c: Command, f': Follower)
    requires Published(c) && UpToDate(f) && AfterCommand(env, ids)(f, c) == (f', Completed)
    ensures UpToDate(f') && f'.counter == f.counter + |Encode(Arr(c.arr))|
  {
    var (h, out) := Handle(env, f.host, ids(f.drawn), c.name, c.arr);
    NoTransactionComesUp(env, f.host, ids(f.drawn), c.name, c.arr);
    HandleKeepsOffset(env, f.host, ids(f.drawn), c.name, c.arr);
    CompletedIsUpToDate(f, f.counter + |Encode(Arr(c.arr))|, c, h, out, f');
  }

  lemma {:induction false} ListenerTakes(env: Env, ids: nat -> ConnId, f: Follower, c: Command, f': Follower, rest: string)
    requires WellSent(c) && UpToDate(f) && AfterCommand(env, ids)(f, c) == (f', Completed)
    ensures Listener(env, ids)(f, Encode(Arr(c.arr)) + rest) == Listener(env, ids)(f', rest)
  {
    TurnCompletes(env, ids, f, c, Encode(Arr(c.arr)) + rest, f', rest);
    ListenerGoesOn(env, ids, f, Encode(Arr(c.arr)) + rest, f', rest);
  }

  /** The case of TakesFirst that matters, for any listener, with the follower after the command as a parameter. */
  lemma {:induction false} CommandIsTaken(env: Env, ids: nat -> ConnId, feed: Feed, f: Follower, c: Command, f': Follower)
    requires feed == Listener(env, ids)
    requires Published(c) && UpToDate(f) && AfterCommand(env, ids)(f, c) == (f', Completed)
    ensures forall rest :: feed(f, Encode(Arr(c.arr)) + rest) == feed(f', rest)
  {
    forall rest
      ensures feed(f, Encode(Arr(c.arr)) + rest) == feed(f', rest)
    {
      ListenerTakes(env, ids, f, c, f', rest);
    }
  }

  lemma {:induction false} TakesFirstBy(feed: Feed, after: CommandStep, f: Follower, c: Command, f': Follower)
    requires after(f, c).1.Completed? ==> f' == after(f, c).0
    requires Published(c) && UpToDate(f) && after(f, c).1.Completed? ==>
               && UpToDate(f') && f'.counter == f.counter + |Encode(Arr(c.arr))|
               && forall rest :: feed(f, Encode(Arr(c.arr)) + rest) == feed(f', rest)
    ensures TakesFirst(feed, after, f, c)
  {
  }

  lemma {:induction false} ListenerTakesFirst(env: Env, ids: nat -> ConnId, f: Follower, c: Command)
    ensures TakesFirst(Listener(env, ids), AfterCommand(env, ids), f, c)
  {
    var (f', status) := AfterCommand(env, ids)(f, c);
    if Published(c) && UpToDate(f) && status.Completed? {
      CommandLeavesUpToDate(env, ids, f, c, f');
      CommandIsTaken(env, ids, Listener(env, ids), f, c, f');
    }
    TakesFirstBy(Listener(env, ids), AfterCommand(env, ids), f, c, f');
  }

  /** The follower after a list of commands, each parsed and handled. */
  function AfterAll(after: CommandStep, f: Follower, cs: seq<Command>): Follower
    decreases |cs|
  {
    if cs == [] then f else AfterAll(after, after(f, cs[0]).0, cs[1..])
  }

  lemma {:induction false} FeedTakesFirst(feed: Feed, after: CommandStep, f: Follower, c: Command, more: string, f': Follower)
    requires TakesFirst(feed, after, f, c) && Published(c) && UpToDate(f) && after(f, c) == (f', Completed)
    ensures feed(f, Encode(Arr(c.arr)) + more) == feed(f', more)
    ensures UpToDate(f') && f'.counter == f.counter + |Encode(Arr(c.arr))|
  {
  }

  lemma {:induction false} FeedTakesAll(feed: Feed, after: CommandStep, f: Follower, cs: seq<Command>, rest: string, f': Follower)
    requires forall g, c :: TakesFirst(feed, after, g, c)
    requires UpToDate(f) && AllComplete(after, f, cs) && f' == AfterAll(after, f, cs)
    requires forall i :: 0 <= i < |cs| ==> Published(cs[i])
    ensures feed(f, Sent(cs) + rest) == feed(f', rest)
    ensures UpToDate(f') && f'.counter == f.counter + |Sent(cs)|
    decreases |cs|
  {
    if cs == [] {
      assert Sent(cs) + rest == rest;
    } else {
      var c, tail := cs[0], cs[1..];
      var (f1, status) := after(f, c);
      var more := Sent(tail) + rest;
      assert Sent(cs) + rest == Encode(Arr(c.arr)) + more;
      FeedTakesFirst(feed, after, f, c, more, f1);
      FeedTakesAll(feed, after, f1, tail, rest, f');
    }
  }

  /**
    After commands that all complete, the listener is where they lead one by one, whatever comes behind
    them, and its offset is the total length of their bytes.
  */
  lemma {:induction false} OffsetOverRun(env: Env, ids: nat -> ConnId, feed: Feed, after: CommandStep,
                                         f: Follower, cs: seq<Command>, rest: string, f': Follower)
    requires feed == Listener(env, ids) && after == AfterCommand(env, ids)
    requires UpToDate(f) && AllComplete(after, f, cs) && f' == AfterAll(after, f, cs)
    requires forall i :: 0 <= i < |cs| ==> Published(cs[i])
    ensures feed(f, Sent(cs) + rest) == feed(f', rest)
    ensures UpToDate(f') && f'.host.processed == f.counter + |Sent(cs)|
  {
    forall g, c
      ensures TakesFirst(feed, after, g, c)
    {
      ListenerTakesFirst(env, ids, g, c);
    }
    FeedTakesAll(feed, after, f, cs, rest, f');
  }

  lemma {:induction false} ConcludeGetAck(f: Follower, counter: nat, c: Command, h: Host, t: string)
    requires IsGetAck(c)
    ensures var (f', status) := Conclude(f, counter, c, h, Text(t)); status == Completed && f'.sent == f.sent + [t]
  {
  }

  lemma {:induction false} GetAckCompletes(env: Env, ids: nat -> ConnId, f: Follower, c: Command)
    requires UpToDate(f) && IsGetAck(c)
    ensures var (f', status) := AfterCommand(env, ids)(f, c);
            status == Completed && f'.sent == f.sent + [AckBytes(f.counter)]
  {
    GetAckIsAnswered(env, f.host, ids(f.drawn), c);
    ConcludeGetAck(f, f.counter + |Encode(Arr(c.arr))|, c, Handle(env, f.host, ids(f.drawn), c.name, c.arr).0,
                   AckBytes(f.counter));
  }

  /** A GETACK is answered with the counter before it, and the listener goes on behind it. */
  ghost predicate TakesGetAck(feed: Feed, after: CommandStep, f: Follower, c: Command) {
    UpToDate(f) && WellSent(c) && IsGetAck(c) ==>
      var f' := after(f, c).0;
      && SentAck(f.sent, f'.sent, f.counter)
      && forall rest :: feed(f, Encode(Arr(c.arr)) + rest) == feed(f', rest)
  }

  lemma {:induction false} ListenerTakesGetAck(env: Env, ids: nat -> ConnId, f: Follower, c: Command)
    ensures TakesGetAck(Listener(env, ids), AfterCommand(env, ids), f, c)
  {
    if UpToDate(f) && WellSent(c) && IsGetAck(c) {
      var f' := AfterCommand(env, ids)(f, c).0;
      GetAckCompletes(env, ids, f, c);
      AckIsSent(f.sent, f'.sent, f.counter);
      forall rest
        ensures Listener(env, ids)(f, Encode(Arr(c.arr)) + rest) == Listener(env, ids)(f', rest)
      {
        ListenerTakes(env, ids, f, c, f', rest);
      }
    }
  }

  lemma {:induction false} GetAckBehind(feed: Feed, after: CommandStep, f: Follower, cs: seq<Command>, c: Command,
                                        more: string, rest: string, g: Follower, f': Follower)
    requires forall k, d :: TakesFirst(feed, after, k, d)
    requires forall k, d :: TakesGetAck(feed, after, k, d)
    requires UpToDate(f) && AllComplete(after, f, cs) && g == AfterAll(after, f, cs)
    requires forall i :: 0 <= i < |cs| ==> Published(cs[i])
    requires WellSent(c) && IsGetAck(c) && f' == after(g, c).0 && more == Encode(Arr(c.arr)) + rest
    ensures SentAck(g.sent, f'.sent, f.counter + |Sent(cs)|)
    ensures feed(f, Sent(cs) + more) == feed(f', rest)
  {
    FeedTakesAll(feed, after, f, cs, more, g);
    assert TakesGetAck(feed, after, g, c);
  }

  /**
    In a run without failures a GETACK is acknowledged with exactly the bytes of all commands before it,
    and the listener goes on behind it.
  */
  lemma {:induction false} GetAckOverRun(env: Env, ids: nat -> ConnId, feed: Feed, after: CommandStep, f: Follower,
                                         cs: seq<Command>, c: Command, more: string, rest: string, g: Follower, f': Follower)
    requires feed == Listener(env, ids) && after == AfterCommand(env, ids)
    requires UpToDate(f) && AllComplete(after, f, cs) && g == AfterAll(after, f, cs)
    requires forall i :: 0 <= i < |cs| ==> Published(cs[i])
    requires WellSent(c) && IsGetAck(c) && f' == after(g, c).0 && more == Encode(Arr(c.arr)) + rest
    ensures SentAck(g.sent, f'.sent, f.counter + |Sent(cs)|)
    ensures feed(f, Sent(cs) + more) == feed(f', rest)
  {
    forall k, d
      ensures TakesFirst(feed, after, k, d) && TakesGetAck(feed, after, k, d)
    {
      ListenerTakesFirst(env, ids, k, d);
      ListenerTakesGetAck(env, ids, k, d);
    }
    GetAckBehind(feed, after, f, cs, c, more, rest, g, f');
  }
}
