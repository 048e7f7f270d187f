/** XRANGE and XREAD compared with a plain filter, and the readers that follow a stream with XREAD. */
module StreamQueries {
  import opened GoStrings
  import opened StreamIds
  import opened Stores

  /** The reference: the entries that satisfy `keep`, in stream order. */
  function Filter(es: seq<Entry>, keep: Entry -> bool): seq<Entry> {
    if es == [] then []
    else (if keep(es[0]) then [es[0]] else []) + Filter(es[1..], keep)
  }

  function Between(lo: Id, hi: Id): Entry -> bool {
    e => AtMost(lo, IdOf(e)) && AtMost(IdOf(e), hi)
  }

  function After(p: Id): Entry -> bool {
    e => Less(p, IdOf(e))
  }

  /** When just the entries of one index interval are kept, the filter is that slice. */
  lemma {:induction false} FilterIsSlice(es: seq<Entry>, keep: Entry -> bool, l: nat, r: nat)
    requires l <= r <= |es|
    requires forall i :: 0 <= i < |es| ==> (keep(es[i]) <==> l <= i < r)
    ensures Filter(es, keep) == es[l..r]
  {
    if es != [] {
      var l' := if l == 0 then 0 else l - 1;
      var r' := if r == 0 then 0 else r - 1;
      forall i | 0 <= i < |es[1..]|
        ensures keep(es[1..][i]) <==> l' <= i < r'
      {
        assert es[1..][i] == es[i + 1];
      }
      FilterIsSlice(es[1..], keep, l', r');
      if l > 0 {
        assert es[l..r] == es[1..][l'..r'];
      } else if r > 0 {
        assert es[l..r] == [es[0]] + es[1..][l'..r'];
      }
    }
  }

  lemma {:induction false} FilterNone(es: seq<Entry>, keep: Entry -> bool)
    requires forall e :: e in es ==> !keep(e)
    ensures Filter(es, keep) == []
  {
    if es != [] {
      FilterNone(es[1..], keep);
    }
  }

  lemma {:induction false} FilterBySplitPoints(es: seq<Entry>, keep: Entry -> bool, l: nat, r: nat)
    requires l <= |es| && r <= |es|
    requires forall i :: 0 <= i < |es| ==> (keep(es[i]) <==> l <= i < r)
    ensures Filter(es, keep) == if l <= r then es[l..r] else []
  {
    if l <= r {
      FilterIsSlice(es, keep, l, r);
    } else {
      FilterNone(es, keep);
    }
  }

  // ----- XRANGE

  /** The bounds that the two open-ended arguments stand for: all ids lie above 0-0 and none above the top. */
  function LowerBound(start: string): Id {
    if start == "-" then ZERO else SplitSeqKey(start)
  }

  function UpperBound(end: string): Id {
    if end == "+" then TOP else SplitSeqKey(end)
  }

  /** The two searches and the split points of the stream, fallbacks included. */
  lemma {:induction false} SearchesOfRange(es: seq<Entry>, start: string, end: string, l: nat, r: nat)
    requires ValidStream(es)
    requires SplitPoints(Ids(es), LowerBound(start), UpperBound(end), l, r)
    requires l == FirstReaching(Ids(es), LowerBound(start), false) && r == EndWithin(Ids(es), UpperBound(end))
    ensures FindL(start, es) == if l < |es| then l else 0
    ensures FindR(end, es) == if r > 0 || end == "+" then r else |es| - 1
    ensures es != [] && end == "+" ==> r == |es|
  {
    var ids := Ids(es);
    if es != [] {
      var last := |es| - 1;
      assert InRange(ids[0]) && InRange(ids[last]) && Less(ZERO, ids[0]);
      assert start == "-" ==> AtMost(ZERO, ids[0]);
      assert end == "+" ==> AtMost(ids[last], TOP);
    }
  }

  lemma {:induction false} SliceBySplitPoints(es: seq<Entry>, l: nat, r: nat, openEnd: bool)
    requires l <= |es| && r <= |es| && (es != [] && openEnd ==> r == |es|)
    ensures var got := Slice(es, if l < |es| then l else 0, if r > 0 || openEnd then r else |es| - 1);
            var wanted := if l <= r then es[l..r] else [];
            got == Ok(wanted) <==> SoundAt(|es|, l, r, openEnd)
  {
    var got := Slice(es, if l < |es| then l else 0, if r > 0 || openEnd then r else |es| - 1);
    var wanted := if l <= r then es[l..r] else [];
    if SoundAt(|es|, l, r, openEnd) {
      assert got.Ok? && got.value == wanted;
    } else if got.Ok? {
      assert |got.value| != |wanted|;
    }
  }

  lemma {:induction false} SliceIsFilterIff(es: seq<Entry>, start: string, end: string)
    requires ValidStream(es)
    ensures (Slice(es, FindL(start, es), FindR(end, es)) ==
             Ok(Filter(es, Between(LowerBound(start), UpperBound(end)))))
            <==> RangeIsSound(Ids(es), LowerBound(start), UpperBound(end), end == "+")
  {
    var ids, lo, hi := Ids(es), LowerBound(start), UpperBound(end);
    var l, r := FirstReaching(ids, lo, false), EndWithin(ids, hi);
    SearchesSplit(ids, lo, hi);
    SearchesOfRange(es, start, end, l, r);
    KeptBySplitPoints(es, lo, hi, l, r);
    SoundBySplitPoints(ids, lo, hi, end == "+", l, r);
    SliceBySplitPoints(es, l, r, end == "+");
  }

  lemma {:induction false} KeptBySplitPoints(es: seq<Entry>, lo: Id, hi: Id, l: nat, r: nat)
    requires SplitPoints(Ids(es), lo, hi, l, r)
    ensures Filter(es, Between(lo, hi)) == if l <= r then es[l..r] else []
  {
    var ids, keep := Ids(es), Between(lo, hi);
    forall i | 0 <= i < |es|
      ensures keep(es[i]) <==> l <= i < r
    {
      assert keep(es[i]) <==> AtMost(lo, ids[i]) && AtMost(ids[i], hi);
    }
    FilterBySplitPoints(es, keep, l, r);
  }

  lemma {:induction false} PanicBySplitPoints(n: nat, l: nat, r: nat, openEnd: bool, es: seq<Entry>)
    requires n == |es| && l <= n && r <= n && (n > 0 && openEnd ==> r == n)
    ensures Slice(es, if l < n then l else 0, if r > 0 || openEnd then r else n - 1).Panic?
            <==> if n == 0 then !openEnd else r < l < n && r > 0
  {
  }

  /**
    What makes XRANGE panic: an end given for an empty stream, or bounds out of order with entries up to
    the end, between the two, and from the start on.
  */
  predicate RangePanics(ids: seq<Id>, lo: Id, hi: Id, openEnd: bool) {
    if ids == [] then !openEnd
    else SomeUpTo(ids, hi) && SomeFrom(ids, lo) && !NoneBetween(ids, hi, lo)
  }

  lemma {:induction false} SlicePanicsIff(es: seq<Entry>, start: string, end: string)
    requires ValidStream(es)
    ensures Slice(es, FindL(start, es), FindR(end, es)).Panic?
            <==> RangePanics(Ids(es), LowerBound(start), UpperBound(end), end == "+")
  {
    var ids, lo, hi := Ids(es), LowerBound(start), UpperBound(end);
    var l, r := FirstReaching(ids, lo, false), EndWithin(ids, hi);
    SearchesSplit(ids, lo, hi);
    SearchesOfRange(es, start, end, l, r);
    SplitPointsTell(ids, lo, hi, l, r);
    PanicBySplitPoints(|es|, l, r, end == "+", es);
  }

  /** The key holds a valid stream of these entries. */
  predicate HoldsStream(s: Store, key: string, es: seq<Entry>) {
    key in s.values && s.values[key] == Stream(es) && ValidStream(es)
  }

  /** XRANGE gives exactly the entries from start to end, in order, if and only if the check holds. */
  lemma {:induction false} RangeIsFilterIff(s: Store, key: string, es: seq<Entry>, start: string, end: string)
    requires HoldsStream(s, key, es)
    ensures GetStream(s, key, start, end) == Ok(Filter(es, Between(LowerBound(start), UpperBound(end))))
            <==> RangeIsSound(Ids(es), LowerBound(start), UpperBound(end), end == "+")
  {
    SliceIsFilterIff(es, start, end);
  }

  /** XRANGE panics, and with it the whole process, if and only if the check says so. */
  lemma {:induction false} RangePanicsIff(s: Store, key: string, es: seq<Entry>, start: string, end: string)
    requires HoldsStream(s, key, es)
    ensures GetStream(s, key, start, end).Panic?
            <==> RangePanics(Ids(es), LowerBound(start), UpperBound(end), end == "+")
  {
    SlicePanicsIff(es, start, end);
  }

  /** The plain case: bounds in order, and entries from the start on and up to the end. */
  lemma {:induction false} RangeIsFilter(s: Store, key: string, es: seq<Entry>, start: string, end: string)
    requires HoldsStream(s, key, es)
    requires AtMost(LowerBound(start), UpperBound(end))
    requires SomeFrom(Ids(es), LowerBound(start)) && SomeUpTo(Ids(es), UpperBound(end))
    ensures GetStream(s, key, start, end) == Ok(Filter(es, Between(LowerBound(start), UpperBound(end))))
  {
    PlainRangeIsSound(Ids(es), LowerBound(start), UpperBound(end), end == "+");
    RangeIsFilterIff(s, key, es, start, end);
  }

  /** Without a stream under the key both commands fail. */
  lemma {:induction false} NoStreamFails(s: Store, key: string, start: string, end: string)
    requires key in s.values ==> s.values[key].Str?
    ensures GetStream(s, key, start, end) == Error && XReadStream(s, key, start) == Error
  {
  }

  /** With two entries and an end before both, the first one comes back although it lies outside. */
  lemma {:induction false} RangeFallbackMisleads(s: Store, key: string, es: seq<Entry>, end: string)
    requires HoldsStream(s, key, es) && |es| == 2 && end != "+" && Less(SplitSeqKey(end), Ids(es)[0])
    ensures GetStream(s, key, "-", end) == Ok([es[0]])
    ensures Filter(es, Between(ZERO, SplitSeqKey(end))) == []
  {
    var ids, hi := Ids(es), SplitSeqKey(end);
    var l, r := FirstReaching(ids, ZERO, false), EndWithin(ids, hi);
    SearchesSplit(ids, ZERO, hi);
    SearchesOfRange(es, "-", end, l, r);
    assert Less(ids[0], ids[1]) && Less(ZERO, ids[0]);
    assert AtMost(ids[0], hi) <==> 0 < r;
    KeptBySplitPoints(es, ZERO, hi, l, r);
    assert es[0..1] == [es[0]];
  }

  // ----- XREAD

  lemma {:induction false} TailIsNewerIff(es: seq<Entry>, start: string)
    requires ValidStream(es)
    ensures (es[XReadFindL(start, es)..] == Filter(es, After(SplitSeqKey(start))))
            <==> (es == [] || Less(SplitSeqKey(start), Ids(es)[|es| - 1]))
    ensures es != [] && !Less(SplitSeqKey(start), Ids(es)[|es| - 1]) ==> es[XReadFindL(start, es)..] == es
  {
    var ids, p, n := Ids(es), SplitSeqKey(start), |es|;
    var l := FirstReaching(ids, p, true);
    FirstReachingSplits(ids, p, true);
    NewerFrom(es, p, l);
    if l == n && n > 0 {
      assert es[0..] == es && |es| != |es[n..]|;
      assert Reaches(ids[n - 1], p, true) <==> l <= n - 1;
    }
  }

  /** XREAD gives exactly the newer entries unless it is asked of a stream that has none: then it gives all. */
  lemma {:induction false} ReadIsNewerIff(s: Store, key: string, es: seq<Entry>, start: string)
    requires HoldsStream(s, key, es)
    ensures XReadStream(s, key, start) == Ok(Filter(es, After(SplitSeqKey(start))))
            <==> es == [] || Less(SplitSeqKey(start), Ids(es)[|es| - 1])
    ensures es != [] && !Less(SplitSeqKey(start), Ids(es)[|es| - 1]) ==> XReadStream(s, key, start) == Ok(es)
  {
    TailIsNewerIff(es, start);
  }

  lemma {:induction false} NewerFrom(es: seq<Entry>, p: Id, l: nat)
    requires l <= |es|
    requires forall i :: 0 <= i < |es| ==> (Reaches(Ids(es)[i], p, true) <==> l <= i)
    ensures Filter(es, After(p)) == es[l..]
  {
    var ids, keep := Ids(es), After(p);
    forall i | 0 <= i < |es|
      ensures keep(es[i]) <==> l <= i < |es|
    {
      assert keep(es[i]) <==> Less(p, ids[i]);
    }
    FilterIsSlice(es, keep, l, |es|);
    assert es[l..|es|] == es[l..];
  }

  // ----- a reader that follows a stream

  /** The id to ask from after receiving `reply`. */
  function LastKey(reply: seq<Entry>, before: string): string {
    if reply == [] then before else reply[|reply| - 1].seqkey
  }

  /**
    A reader that started at `start` has got all of the stream but `rest`, asks from the end of what
    it got on, and lacks something exactly when something came since, unless it never got anything.
  */
  ghost predicate Following(es: seq<Entry>, start: string, last: string, got: seq<Entry>, fed: bool, rest: seq<Entry>) {
    && es == got + rest
    && last == LastKey(got, start)
    && (fed ==> rest != [])
    && (!fed && got != [] ==> rest == [])
  }

  /** A read from the last id received picks up right behind it, if there is anything behind it. */
  lemma {:induction false} ReadDelivers(got: seq<Entry>, rest: seq<Entry>, start: string)
    requires ValidStream(got + rest) && SplitSeqKey(start) == ZERO
    requires rest != [] || got == []
    ensures (got + rest)[XReadFindL(LastKey(got, start), got + rest)..] == rest
  {
    var es, n := got + rest, |got|;
    var ids := Ids(es);
    if n > 0 {
      assert got[n - 1] == es[n - 1];
      SplitShow(ids[n - 1]);
    }
    if es != [] {
      PositionBehind(ids, n, SplitSeqKey(LastKey(got, start)));
    }
  }

  lemma {:induction false} LastKeyOfConcat(got: seq<Entry>, rest: seq<Entry>, start: string)
    ensures LastKey(got + rest, start) == LastKey(rest, LastKey(got, start))
  {
    assert rest == [] ==> got + rest == got;
  }

  lemma {:induction false} StoreDelivers(s: Store, key: string, start: string, got: seq<Entry>, rest: seq<Entry>)
    requires ValidStore(s) && EntriesOf(s, key) == got + rest && SplitSeqKey(start) == ZERO
    requires rest != [] || got == []
    ensures var r := XReadStream(s, key, LastKey(got, start));
            if key in s.values && s.values[key].Stream? then r == Ok(rest) else r == Error && got == rest == []
  {
    ReadDelivers(got, rest, start);
  }

  /** Reading again with nothing new delivers the whole stream a second time. */
  lemma {:induction false} ReadAgainRepeats(s: Store, key: string, es: seq<Entry>)
    requires HoldsStream(s, key, es) && es != []
    ensures XReadStream(s, key, es[|es| - 1].seqkey) == Ok(es)
  {
    SplitShow(Ids(es)[|es| - 1]);
    ReadIsNewerIff(s, key, es, es[|es| - 1].seqkey);
  }
}
