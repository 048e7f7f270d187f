/** What clients see of keys: reading back a SET, counting with INCR, deadlines, and a rejected XADD. */
module StoreCommands {
  import opened GoStrings
  import opened Resp
  import opened Stores
  import opened Hosts
  import opened StreamIds
  import opened StreamQueries

  /** The deadline of `key` after a SET at `now`: a new one, or the old one if the SET brings none. */
  function DeadlineAfter(s: Store, key: string, px: nat, now: Millis): Option<nat> {
    if px != 0 then Some((now + px) % (MAX_UINT + 1))
    else if key in s.expiries then Some(s.expiries[key])
    else None
  }

  /**
    A GET after a SET answers the very text until the deadline has passed, and the null string once it
    has; a GET of any other key answers what it would have answered before.
  */
  lemma {:induction false} SetIsRead(s: Store, put: seq<Resp>, key: string, text: string, px: nat, now: Millis,
                                     get: seq<Resp>, asked: string, later: Millis)
    requires Arg(put, 1) == Some(key) && Arg(put, 2) == Some(text) && SetExpiry(put) == Ok(px)
    requires Arg(get, 1) == Some(asked)
    ensures var e := ApplySet(s, put, now);
            && e.answer == Reply(OK_RESPONSE) && e.published
            && ApplyGet(e.store, get, later).answer ==
               if asked != key then ApplyGet(s, get, later).answer
               else
                 match DeadlineAfter(s, key, px, now)
                 case None => Reply(Bulk(text))
                 case Some(deadline) => Reply(Bulk(if later > deadline then "" else text))
  {
    var e := ApplySet(s, put, now);
    assert e.store == Stores.Set(s, key, text, px, now);
    assert asked != key ==> (asked in e.store.expiries <==> asked in s.expiries);
  }

  /** `m` INCRs of one key, one after the other; `clock` gives each its reading. */
  function IncrTimes(s: Store, arr: seq<Resp>, clock: nat -> Millis, m: nat): Store {
    if m == 0 then s else ApplyIncr(IncrTimes(s, arr, clock, m - 1), arr, clock(m)).store
  }

  function Holding(s: Store, key: string, n: int): Store {
    s.(values := s.values[key := Str(Itoa(n))])
  }

  lemma {:induction false} IncrOnce(s: Store, arr: seq<Resp>, key: string, n: int, next: int, now: Millis)
    requires Arg(arr, 1) == Some(key) && !Hidden(s, key, now) && next == n + 1
    requires MIN_INT <= n < MAX_INT && key in s.values && s.values[key] == Str(Itoa(n))
    ensures ApplyIncr(s, arr, now) == Effect(Holding(s, key, next), true, Reply(Int(next)))
  {
    AtoiItoa(n);
  }

  lemma {:induction false} HoldingLast(s: Store, key: string, m: int, n: int)
    ensures Holding(Holding(s, key, m), key, n) == Holding(s, key, n)
    ensures key in s.values && s.values[key] == Str(Itoa(m)) ==> Holding(s, key, m) == s
  {
    assert s.values[key := Str(Itoa(m))][key := Str(Itoa(n))] == s.values[key := Str(Itoa(n))];
    assert key in s.values ==> s.values[key := s.values[key]] == s.values;
  }

  /**
    Counting: `m` INCRs of a key that holds `n`, none of them after a deadline, leave `n + m`, and every
    other key and every deadline as it was.
  */
  lemma {:induction false} IncrCounts(s: Store, arr: seq<Resp>, key: string, n: int, clock: nat -> Millis, m: nat, end: int)
    requires Arg(arr, 1) == Some(key) && forall i :: 1 <= i <= m ==> !Hidden(s, key, clock(i))
    requires MIN_INT <= n && end == n + m <= MAX_INT && key in s.values && s.values[key] == Str(Itoa(n))
    ensures IncrTimes(s, arr, clock, m) == Holding(s, key, end)
  {
    HoldingLast(s, key, n, end);
    if m > 0 {
      var k, v := m - 1, end - 1;
      IncrCounts(s, arr, key, n, clock, k, v);
      IncrTimesStep(s, arr, clock, m, k);
      IncrOnce(Holding(s, key, v), arr, key, v, end, clock(m));
      HoldingLast(s, key, v, end);
    }
  }

  lemma {:induction false} IncrTimesStep(s: Store, arr: seq<Resp>, clock: nat -> Millis, m: nat, k: nat)
    requires m == k + 1
    ensures IncrTimes(s, arr, clock, m) == ApplyIncr(IncrTimes(s, arr, clock, k), arr, clock(m)).store
  {
    assert IncrTimes(s, arr, clock, k + 1) == IncrTimes(s, arr, clock, m);
  }

  /** A key that is not there, or is hidden by a deadline, counts from nothing; a hidden one loses its deadline. */
  lemma {:induction false} IncrUnseen(s: Store, arr: seq<Resp>, key: string, now: Millis)
    requires Arg(arr, 1) == Some(key) && (key !in s.values || Hidden(s, key, now))
    ensures ApplyIncr(s, arr, now) ==
            Effect(Store(s.values[key := Str(Itoa(1))], if Hidden(s, key, now) then s.expiries - {key} else s.expiries),
                   true, Reply(Int(1)))
  {
  }

  /** A text that is no 64-bit number is refused and kept; a stream fails and is kept. */
  lemma {:induction false} IncrRefuses(s: Store, arr: seq<Resp>, key: string, now: Millis)
    requires Arg(arr, 1) == Some(key) && key in s.values && !Hidden(s, key, now)
    ensures s.values[key].Stream? ==> ApplyIncr(s, arr, now) == Effect(s, false, Failed)
    ensures s.values[key].Str? && Atoi(s.values[key].text).Err() ==>
              ApplyIncr(s, arr, now) == Effect(s, false, Reply(NOT_AN_INTEGER))
  {
  }

  /** What an INCR that counts leaves under its key. */
  function Counted(s: Store, key: string, now: Millis): int {
    if key in s.values && s.values[key].Str? && !Hidden(s, key, now) then Wrap(Atoi(s.values[key].text).Val() + 1) else 1
  }

  /** INCR refuses a text that is no number and a stream, and else stores what it counted. */
  lemma {:induction false} IncrStores(s: Store, arr: seq<Resp>, key: string, now: Millis)
    requires Arg(arr, 1) == Some(key)
    ensures var e, unseen := ApplyIncr(s, arr, now), key !in s.values || Hidden(s, key, now);
            && (e.published <==> unseen || (s.values[key].Str? && !Atoi(s.values[key].text).Err()))
            && e.store.values == (if e.published then s.values[key := Str(Itoa(Counted(s, key, now)))] else s.values)
            && e.store.expiries == (if Hidden(s, key, now) then s.expiries - {key} else s.expiries)
            && (e.published ==> e.answer.Reply?)
  {
    if key !in s.values || Hidden(s, key, now) {
      IncrUnseen(s, arr, key, now);
    } else {
      IncrRefuses(s, arr, key, now);
    }
  }

  /** The largest number is followed by the smallest. */
  lemma {:induction false} IncrWraps(s: Store, arr: seq<Resp>, key: string, now: Millis)
    requires Arg(arr, 1) == Some(key) && !Hidden(s, key, now)
    requires key in s.values && s.values[key] == Str(Itoa(MAX_INT))
    ensures ApplyIncr(s, arr, now) == Effect(Holding(s, key, MIN_INT), true, Reply(Int(MIN_INT)))
  {
    AtoiItoa(MAX_INT);
  }

  /**
    A deadline hides its value from one read only: that read removes the deadline, not the value, and
    the next one finds it again.
  */
  lemma {:induction false} DeadlineHidesOnce(s: Store, key: string, first: Millis, second: Millis)
    requires key in s.values && key in s.expiries && first > s.expiries[key]
    ensures var (s', r) := Stores.Get(s, key, first);
            && r.Error? && s'.values == s.values
            && Stores.Get(s', key, second) == (s', Ok(s.values[key]))
  {
  }

  // ----- what a rejected XADD leads to

  lemma {:induction false} ZeroIsRefused(s: Store, key: string, field: string, value: string, now: Millis)
    requires key !in s.values
    ensures SetStream(s, key, "0-0", field, value, now) ==
            (s.(values := s.values[key := Stream([])]), TooSmall(NotAboveZero))
  {
    CutExact("0", '-', "0");
    assert "0-0" == "0" + ['-'] + "0" && Itoa(0) == "0";
    AtoiItoa(0);
  }

  /**
    The empty stream that a rejected XADD leaves behind turns an XRANGE with an end from an error, which
    closes the connection, into a panic, which ends the process.
  */
  lemma {:induction false} RejectedAddArmsPanic(s: Store, add: seq<Resp>, key: string, field: string, value: string,
                                                range: seq<Resp>, start: string, end: string, now: Millis)
    requires key !in s.values && end != "+"
    requires add == [Bulk("xadd"), Bulk(key), Bulk("0-0"), Bulk(field), Bulk(value)]
    requires range == [Bulk("xrange"), Bulk(key), Bulk(start), Bulk(end)]
    ensures XRangeAnswer(s, range) == Failed
    ensures ApplyXAdd(s, add, now).answer.Reply? && XRangeAnswer(ApplyXAdd(s, add, now).store, range) == Crashed
  {
    ZeroIsRefused(s, key, field, value, now);
    EmptyRangePanics(ApplyXAdd(s, add, now).store, range, key, start, end);
  }

  lemma {:induction false} EmptyRangePanics(s: Store, range: seq<Resp>, key: string, start: string, end: string)
    requires key in s.values && s.values[key] == Stream([]) && end != "+"
    requires range == [Bulk("xrange"), Bulk(key), Bulk(start), Bulk(end)]
    ensures XRangeAnswer(s, range) == Crashed
  {
    EmptyIsValid();
    RangePanicsIff(s, key, [], start, end);
  }
}
