/** PSYNC: what the leader writes to a new follower, and where the follower's handshake stops reading. */
module Handshake {
  import opened GoStrings
  import opened Bufio
  import opened Resp
  import opened RespGrammar
  import opened Hosts
  import opened Runs
  import opened Transactions
  import opened Replication
  import opened Convergence
  import PubSub

  // ----- the leader

  /** The payload as it is framed: a length line like a bulk string's, but no CRLF behind the data. */
  function Framed(data: string): string {
    "$" + Itoa(|data|) + CRLF + data
  }

  function Preamble(replId: string, data: string): string {
    Encode(PSyncResponse(replId, 0)) + Framed(data)
  }

  method SerializeRdb(data: string) returns (s: string)
    ensures s == Framed(data)
  {
    s := "$";
    s := s + Itoa(|data|);
    s := s + "\r\n";
    s := s + data;
  }

  /** What HandlePSync does on its connection and at the publisher. */
  datatype Act = Write(text: string) | Subscribe(id: string) | Unsubscribe(id: string)

  function Writes(events: seq<string>): seq<Act> {
    seq(|events|, i requires 0 <= i < |events| => Write(events[i]))
  }

  /**
    Writes the preamble, subscribes, forwards every event until the subscription ends or a write fails,
    and unsubscribes. `alive` is how many events the connection takes before a write fails.
  */
  method HandlePSync(replId: string, data: string, id: string, events: seq<string>, alive: nat) returns (acts: seq<Act>)
    ensures acts == [Write(Encode(PSyncResponse(replId, 0))), Write(Framed(data)), Subscribe(id)] +
                    Writes(events[..Min(alive, |events|)]) + [Unsubscribe(id)]
  {
    var payload := SerializeRdb(data);
    acts := [Write(Encode(PSyncResponse(replId, 0))), Write(payload), Subscribe(id)];
    ghost var begun := acts;
    var i := 0;
    while i < |events| && i < alive
      invariant 0 <= i <= Min(alive, |events|)
      invariant acts == begun + Writes(events[..i])
      decreases |events| - i
    {
      assert events[..i + 1] == events[..i] + [events[i]];
      assert Writes(events[..i + 1]) == Writes(events[..i]) + [Write(events[i])];
      acts := acts + [Write(events[i])];
      i := i + 1;
    }
    acts := acts + [Unsubscribe(id)];
  }

  /** The bytes that the follower is sent. */
  function Wire(acts: seq<Act>): string {
    if acts == [] then ""
    else (if acts[0].Write? then acts[0].text else "") + Wire(acts[1..])
  }

  lemma {:induction false} WireConcat(a: seq<Act>, b: seq<Act>)
    ensures Wire(a + b) == Wire(a) + Wire(b)
  {
    if a == [] {
      assert a + b == b;
    } else {
      assert (a + b)[1..] == a[1..] + b;
      WireConcat(a[1..], b);
    }
  }

  lemma {:induction false} WireOfWrites(events: seq<string>)
    ensures Wire(Writes(events)) == Flatten(events)
  {
    if events != [] {
      assert Writes(events)[1..] == Writes(events[1..]);
      WireOfWrites(events[1..]);
    }
  }

  /** The follower's bytes are the preamble and then the events, nothing between them and nothing behind. */
  lemma {:induction false} WireIsStream(replId: string, data: string, id: string, events: seq<string>)
    ensures Wire([Write(Encode(PSyncResponse(replId, 0))), Write(Framed(data)), Subscribe(id)] +
                 Writes(events) + [Unsubscribe(id)]) == Preamble(replId, data) + Flatten(events)
  {
    var head := [Write(Encode(PSyncResponse(replId, 0))), Write(Framed(data)), Subscribe(id)];
    WireConcat(head + Writes(events), [Unsubscribe(id)]);
    WireConcat(head, Writes(events));
    WireOfWrites(events);
    assert head[1..][1..] == [Subscribe(id)] && head[1..][0] == Write(Framed(data));
    assert Wire(head) == Preamble(replId, data) by {
      assert Wire([Subscribe(id)]) == "";
    }
    assert Wire([Unsubscribe(id)]) == "";
  }

  /** The preamble, byte for byte. */
  lemma {:induction false} PreambleIsSpelled(replId: string, data: string)
    ensures Preamble(replId, data) == "+" + ("FULLRESYNC " + replId + " " + "0") + "\r\n" + ("$" + Itoa(|data|) + "\r\n" + data)
  {
    assert Itoa(0) == "0";
  }

  // ----- the follower

  function Zeros(n: nat): string {
    seq(n, _ => '\0')
  }

  /**
    DeserializeRdb: one byte, a length line, and that many bytes. A stream that ends inside the
    payload is not noticed: the rest of the buffer stays zero.
  */
  function Payload(s: string): (Result<string>, string) {
    var line := LineValue(if s == "" then "" else s[1..]);
    match line.res
    case Ok(header) =>
      (match Atoi(header)
       case Good(n) =>
         if n < 0 then (Panic, line.rest)
         else if n > 0 && line.rest == "" then (Error, "")
         else
           var k := Min(n, |line.rest|);
           (Ok(line.rest[..k] + Zeros(n - k)), line.rest[k..])
       case _ => (Error, line.rest))
    case _ => (Panic, line.rest)
  }

  /** The follower's side: one line in answer to PSYNC, taken as it is, and then the payload. */
  function Synchronise(s: string): (Result<string>, string) {
    var n := LineLen(s, '\n');
    if n == 0 || s[n - 1] != '\n' then (Error, s[n..]) else Payload(s[n..])
  }

  method DeserializeRdb(reader: Reader) returns (r: Result<string>)
    modifies reader
    ensures (r, reader.rest) == Payload(old(reader.rest))
  {
    var prefix := reader.Read(1);
    assert reader.rest == if old(reader.rest) == "" then "" else old(reader.rest)[1..];
    var line := reader.ReadString('\n');
    if |line| < 2 {
      return Panic;
    }
    var count := Atoi(line[..|line| - 2]);
    if count.Err() {
      return Error;
    }
    if count.n < 0 {
      return Panic;
    }
    if count.n > 0 && reader.rest == "" {
      return Error;
    }
    var data := reader.Read(count.n);
    r := Ok(data + Zeros(count.n - |data|));
  }

  function PSyncRequest(replId: string): seq<Resp> {
    [Bulk("PSYNC"), Bulk(replId), Bulk(Itoa(-1))]
  }

  /** Sends the request, and reads one line and then the payload from what the leader answers. */
  method PSync(replId: string, reader: Reader) returns (sent: string, r: Result<string>)
    modifies reader
    ensures sent == Encode(Arr(PSyncRequest(replId)))
    ensures (r, reader.rest) == Synchronise(old(reader.rest))
  {
    sent := ArrayAsRespString(PSyncRequest(replId));
    var res := reader.ReadString('\n');
    if |res| == 0 || res[|res| - 1] != '\n' {
      return sent, Error;
    }
    r := DeserializeRdb(reader);
  }

  /** The leader reads the request as the PSYNC command, and stops behind it. */
  lemma {:induction false} RequestIsPSync(replId: string, rest: string)
    requires 0 < |replId| <= MAX_INT
    ensures var request := PSyncRequest(replId);
            && request == [Bulk("PSYNC"), Bulk(replId), Bulk("-1")]
            && ParseCommand(Encode(Arr(request)) + rest) == Step(Ok(Command("PSYNC", request)), rest, |Encode(Arr(request))|)
            && VerbOf(Lower("PSYNC")).PSync?
  {
    assert Itoa(-1) == "-1";
    SentIsParsed(PSyncRequest(replId), rest);
    assert Lower("PSYNC") == "psync";
  }

  /** A payload that ends early is padded with zeros, and one that does not begin at all is an error. */
  lemma {:induction false} ShortPayload(c: char, n: nat, data: string)
    requires |data| < n <= MAX_INT
    ensures Payload([c] + Itoa(n) + "\r\n" + data) ==
            if data == "" then (Error, "") else (Ok(data + seq(n - |data|, _ => '\0')), "")
  {
    AtoiItoa(n);
    var s := [c] + Itoa(n) + "\r\n" + data;
    assert s[1..] == Itoa(n) + CRLF + data;
    HeaderLine(Itoa(n), data);
    assert data[..|data|] == data && data[|data|..] == "";
    var zeros := seq(n - |data|, _ => '\0');
    assert Zeros(n - |data|) == zeros;
    assert data[..Min(n, |data|)] + Zeros(n - Min(n, |data|)) == data + zeros;
  }

  /** A negative length panics, and one that is no number is an error. */
  lemma {:induction false} BadPayload(c: char, header: string, data: string)
    requires '\n' !in header && (Atoi(header).Err() || Atoi(header).n < 0)
    ensures Payload([c] + header + "\r\n" + data) == (if Atoi(header).Err() then Error else Panic, data)
  {
    var s := [c] + header + "\r\n" + data;
    assert s[1..] == header + CRLF + data;
    HeaderLine(header, data);
  }

  /** A leader that hangs up within its first line is an error. */
  lemma {:induction false} CutReplyFails(line: string)
    requires '\n' !in line
    ensures Synchronise(line) == (Error, "")
  {
    IndexOfExact(line, '\n', "");
    assert LineLen(line, '\n') == |line| && line[|line|..] == "";
    assert line != "" ==> line[|line| - 1] in line;
  }

  // ----- the handshake stops exactly at the first command

  lemma {:induction false} PayloadIsRead(data: string, rest: string)
    requires |data| <= MAX_INT
    ensures Payload(Framed(data) + rest) == (Ok(data), rest)
  {
    var s, header, body := Framed(data) + rest, Itoa(|data|), data + rest;
    AtoiItoa(|data|);
    assert s[1..] == header + CRLF + body;
    HeaderLine(header, body);
    BodyIsRead(data, rest);
  }

  lemma {:induction false} BodyIsRead(data: string, rest: string)
    ensures var body, n := data + rest, |data|;
            && Min(n, |body|) == n && body[..n] + Zeros(0) == data && body[n..] == rest
  {
  }

  lemma {:induction false} HeaderLine(header: string, body: string)
    requires '\n' !in header
    ensures LineValue(header + CRLF + body) == Step(Ok(header), body, |header| + 2)
  {
    var line := header + "\r";
    LineLenExact(line, '\n', body);
    var s := header + CRLF + body;
    assert s == line + ['\n'] + body;
    assert s[..|header| + 2] == header + CRLF;
    assert s[|header| + 2..] == body;
  }

  /** Whatever the payload and whatever follows it, the follower is left at the first byte behind it. */
  lemma {:induction false} HandshakeStopsAtStream(replId: string, data: string, rest: string)
    requires '\n' !in replId && |data| <= MAX_INT
    ensures Synchronise(Preamble(replId, data) + rest) == (Ok(data), rest)
  {
    var reply := "+FULLRESYNC " + replId + " " + Itoa(0) + "\r";
    var more := Framed(data) + rest;
    PreambleIsLine(replId, data, reply);
    assert Preamble(replId, data) + rest == reply + ['\n'] + more;
    LineIsTaken(reply, more);
    PayloadIsRead(data, rest);
  }

  lemma {:induction false} PreambleIsLine(replId: string, data: string, reply: string)
    requires reply == "+FULLRESYNC " + replId + " " + Itoa(0) + "\r"
    ensures Preamble(replId, data) == reply + ['\n'] + Framed(data)
  {
  }

  /** Whatever line the leader answers with is taken, and the payload is looked for behind it. */
  lemma {:induction false} LineIsTaken(reply: string, more: string)
    requires '\n' !in reply
    ensures Synchronise(reply + ['\n'] + more) == Payload(more)
  {
    var s := reply + ['\n'] + more;
    LineLenExact(reply, '\n', more);
    assert s[|reply| + 1..] == more;
  }

  /** A follower from the first byte of the leader's answer on. */
  function Join(env: Env, ids: nat -> ConnId, h: Host, s: string): Option<Follower> {
    var (r, rest) := Synchronise(s);
    if r.Ok? then Some(Listen(env, ids, Follower(h, 0, 0, []), rest)) else None
  }

  /** The listener takes exactly the commands behind the payload, and counts only their bytes. */
  lemma {:induction false} JoinReadsCommands(replId: string, data: string, cs: seq<Command>)
    requires '\n' !in replId && |data| <= MAX_INT
    requires forall i :: 0 <= i < |cs| ==> WellSent(cs[i])
    ensures var (r, rest) := Synchronise(Preamble(replId, data) + Sent(cs));
            r == Ok(data) && ReadAll(rest) == (cs, Eof)
  {
    HandshakeStopsAtStream(replId, data, Sent(cs));
    PipelineIsUnambiguous(cs);
  }

  /** A fresh follower with the leader's strings, a payload, and a run that can be replicated. */
  ghost predicate Joins(step: (Host, Event) -> Host, dated: set<string>, h: Host, follower: Host,
                        replId: string, data: string, run: seq<Event>) {
    && '\n' !in replId && |data| <= MAX_INT
    && Synced(dated, h.store, follower.store) && follower.tx == map[] && follower.processed == 0
    && RunReplicable(step, dated, h, run)
  }

  /** The follower got through the handshake, has the leader's strings, and counted just the events. */
  predicate Caught(joined: Option<Follower>, leader: Host, events: seq<string>) {
    && joined.Some?
    && SameStrings(leader.store, joined.value.host.store)
    && joined.value.host.processed == |Flatten(events)|
  }

  /**
    End to end: a follower joins a leader whose strings it shares, reads the answer to PSYNC and all
    that is then published in any run, and ends with the leader's strings, its offset the number of
    bytes published.
  */
  lemma {:induction false} JoinedFollowerConverges(dated: set<string>, env: Env, h: Host, env': Env, ids: nat -> ConnId,
                                                   follower: Host, replId: string, data: string, run: seq<Event>)
    returns (events: seq<string>)
    requires Joins(Serve(env), dated, h, follower, replId, data, run)
    ensures var h' := Run(Serve(env), h, run);
            && h'.log == h.log + events
            && Caught(Join(env', ids, follower, Preamble(replId, data) + Flatten(events)), h', events)
  {
    events := FollowerConverges(dated, env, h, env', ids, Follower(follower, 0, 0, []), run);
    HandshakeStopsAtStream(replId, data, Flatten(events));
  }

  /** The same, given the events that the run published. */
  lemma {:induction false} JoinedFollowerTakes(dated: set<string>, env: Env, h: Host, env': Env, ids: nat -> ConnId,
                                               follower: Host, replId: string, data: string, run: seq<Event>,
                                               h': Host, events: seq<string>)
    requires Joins(Serve(env), dated, h, follower, replId, data, run)
    requires h' == Run(Serve(env), h, run) && h'.log == h.log + events
    ensures Caught(Join(env', ids, follower, Preamble(replId, data) + Flatten(events)), h', events)
  {
    var published := JoinedFollowerConverges(dated, env, h, env', ids, follower, replId, data, run);
    SameTail(h.log, published, events);
  }

  lemma {:induction false} SameTail<T>(front: seq<T>, a: seq<T>, b: seq<T>)
    requires front + a == front + b
    ensures a == b
  {
    assert (front + a)[|front|..] == a && (front + b)[|front|..] == b;
  }

  /**
    In the interleaving that ends in `s`, the channel is registered behind `before`, `events` are all
    that was started since, and the fan-out is done with them.
  */
  ghost predicate Carries(before: seq<PubSub.Step>, id: string, channel: PubSub.Channel, after: seq<PubSub.Step>,
                          s: PubSub.State, events: seq<string>) {
    && PubSub.Interleaving(before + [PubSub.Subscribe(id, channel)] + after)
    && s == PubSub.After(before + [PubSub.Subscribe(id, channel)] + after)
    && channel in s.subscribers.Values && !s.fanout.Sending?
    && s.started == PubSub.After(before).started + events
  }

  lemma {:induction false} ChannelCarries(before: seq<PubSub.Step>, id: string, channel: PubSub.Channel,
                                          after: seq<PubSub.Step>, s: PubSub.State, events: seq<string>)
    requires Carries(before, id, channel, after, s, events)
    ensures channel in s.delivered && s.delivered[channel] == events
  {
    PubSub.DeliveredIsBlock(before, id, channel, after);
  }

  /**
    The same through the publisher: whatever else subscribes, leaves or is sent meanwhile, once the
    fan-out has passed on the events that the run published since the follower's registration, the
    bytes on the follower's own channel bring it to the leader's strings.
  */
  lemma {:induction false} SubscribedFollowerConverges(
      dated: set<string>, env: Env, h: Host, env': Env, ids: nat -> ConnId, follower: Host, replId: string, data: string,
      run: seq<Event>, h': Host, events: seq<string>,
      before: seq<PubSub.Step>, id: string, channel: PubSub.Channel, after: seq<PubSub.Step>, s: PubSub.State)
    requires Joins(Serve(env), dated, h, follower, replId, data, run)
    requires h' == Run(Serve(env), h, run) && h'.log == h.log + events
    requires Carries(before, id, channel, after, s, events)
    ensures channel in s.delivered
    ensures var received := s.delivered[channel];
            Caught(Join(env', ids, follower, Preamble(replId, data) + Flatten(received)), h', received)
  {
    ChannelCarries(before, id, channel, after, s, events);
    JoinedFollowerTakes(dated, env, h, env', ids, follower, replId, data, run, h', events);
  }
}
