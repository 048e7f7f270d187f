/** Stream ids as pairs of numbers: their order, the choice of a new id, and the search for a position. */
module StreamIds {
  import opened GoStrings

  datatype Id = Id(time: int, num: int)

  const ZERO := Id(0, 0)
  const TOP := Id(MAX_INT, MAX_INT)

  predicate Less(a: Id, b: Id) {
    a.time < b.time || (a.time == b.time && a.num < b.num)
  }

  predicate AtMost(a: Id, b: Id) {
    a == b || Less(a, b)
  }

  /** compare, with Go's sign convention: negative when the left id is the bigger one. */
  function Compare(l: Id, r: Id): int {
    if l.time == r.time && l.num == r.num then 0
    else if l.time > r.time || (l.time == r.time && l.num >= r.num) then -1
    else 1
  }

  lemma {:induction false} CompareOrders(l: Id, r: Id)
    ensures Compare(l, r) == 0 <==> l == r
    ensures Compare(l, r) < 0 <==> Less(r, l)
    ensures Compare(l, r) > 0 <==> Less(l, r)
  {
  }

  predicate InRange(id: Id) {
    0 <= id.time <= MAX_INT && 0 <= id.num <= MAX_INT
  }

  predicate Increasing(ids: seq<Id>) {
    forall i, j :: 0 <= i < j < |ids| ==> Less(ids[i], ids[j])
  }

  /** The ids of a stream: 64-bit, above 0-0, each above the one before. */
  predicate ValidIds(ids: seq<Id>) {
    && (forall i :: 0 <= i < |ids| ==> InRange(ids[i]) && Less(ZERO, ids[i]))
    && Increasing(ids)
  }

  // ----- the id of a new entry

  /** What an XADD argument asks for; a wildcard leaves the number to the stream. */
  datatype Request = Request(id: Id, wildcard: bool)

  datatype Choice = Chosen(id: Id) | NotAboveZero | NotAboveLast

  /** A wildcard at the time of the last entry takes the next number, with 64-bit wrap-around. */
  function Choose(ids: seq<Id>, req: Request): Choice {
    if req.id.time <= 0 && req.id.num <= 0 then NotAboveZero
    else if ids == [] then Chosen(req.id)
    else
      var last := ids[|ids| - 1];
      var num := if req.wildcard && req.id.time == last.time then Wrap(last.num + 1) else req.id.num;
      if last.time > req.id.time || (last.time == req.id.time && last.num >= num) then NotAboveLast
      else Chosen(Id(req.id.time, num))
  }

  /**
    A chosen id extends a valid stream to a valid stream. The number past the largest one wraps
    round to a negative one, and that is refused as not above the last id.
  */
  lemma {:induction false} ChosenKeepsIds(ids: seq<Id>, req: Request)
    requires ValidIds(ids) && InRange(req.id)
    ensures Choose(ids, req).Chosen? ==> ValidIds(ids + [Choose(ids, req).id])
  {
    if Choose(ids, req).Chosen? && ids != [] {
      var id := Choose(ids, req).id;
      var last := ids[|ids| - 1];
      assert InRange(last) && Less(last, id);
      forall i | 0 <= i < |ids|
        ensures Less(ids[i], id)
      {
        assert i < |ids| - 1 ==> Less(ids[i], last);
      }
    }
  }

  /** A given id is taken exactly when it lies above 0-0 and above the last id. */
  lemma {:induction false} GivenIdIsChosen(ids: seq<Id>, id: Id)
    requires InRange(id)
    ensures Choose(ids, Request(id, false)) ==
            if !Less(ZERO, id) then NotAboveZero
            else if ids != [] && !Less(ids[|ids| - 1], id) then NotAboveLast
            else Chosen(id)
  {
  }

  /** Number `n` at time `t` would be a legal next id. */
  predicate Eligible(ids: seq<Id>, t: int, n: int) {
    && 0 <= n <= MAX_INT
    && Less(ZERO, Id(t, n))
    && (ids != [] ==> Less(ids[|ids| - 1], Id(t, n)))
  }

  ghost predicate LeastEligible(ids: seq<Id>, t: int, n: int) {
    Eligible(ids, t, n) && forall m :: Eligible(ids, t, m) ==> n <= m
  }

  /** A wildcard gets the least legal number at its time, and is refused exactly when there is none. */
  lemma {:induction false} WildcardIsLeast(ids: seq<Id>, t: int)
    requires ValidIds(ids) && 0 <= t <= MAX_INT
    ensures var c := Choose(ids, Request(Id(t, if t == 0 then 1 else 0), true));
            && (c.Chosen? <==> exists n :: Eligible(ids, t, n))
            && (c.Chosen? ==> c.id.time == t && LeastEligible(ids, t, c.id.num))
  {
    var c := Choose(ids, Request(Id(t, if t == 0 then 1 else 0), true));
    if ids != [] {
      assert InRange(ids[|ids| - 1]);
    }
    if c.Chosen? {
      assert Eligible(ids, t, c.id.num);
    }
  }

  // ----- the position of an id

  predicate Reaches(id: Id, p: Id, strict: bool) {
    Less(p, id) || (!strict && id == p)
  }

  /** The position of the first id at `p` or above it (only above it when strict), or the length. */
  function FirstReaching(ids: seq<Id>, p: Id, strict: bool): (i: nat)
    ensures i <= |ids|
  {
    if ids == [] || Reaches(ids[0], p, strict) then 0 else 1 + FirstReaching(ids[1..], p, strict)
  }

  /** One past the position of the last id at `p` or below it, or 0. */
  function EndWithin(ids: seq<Id>, p: Id): (i: nat)
    ensures i <= |ids|
  {
    if ids == [] || AtMost(ids[|ids| - 1], p) then |ids| else EndWithin(ids[..|ids| - 1], p)
  }

  lemma {:induction false} FirstReachingSplits(ids: seq<Id>, p: Id, strict: bool)
    requires Increasing(ids)
    ensures forall i :: 0 <= i < |ids| ==> (Reaches(ids[i], p, strict) <==> FirstReaching(ids, p, strict) <= i)
  {
    if ids != [] {
      FirstReachingSplits(ids[1..], p, strict);
      forall i | 0 < i < |ids|
        ensures Reaches(ids[i], p, strict) <==> FirstReaching(ids, p, strict) <= i
      {
        assert ids[i] == ids[1..][i - 1];
        assert Less(ids[0], ids[i]);
      }
    }
  }

  lemma {:induction false} EndWithinSplits(ids: seq<Id>, p: Id)
    requires Increasing(ids)
    ensures forall i :: 0 <= i < |ids| ==> (AtMost(ids[i], p) <==> i < EndWithin(ids, p))
  {
    if ids != [] {
      var last := |ids| - 1;
      EndWithinSplits(ids[..last], p);
      forall i | 0 <= i < last
        ensures AtMost(ids[i], p) <==> i < EndWithin(ids, p)
      {
        assert ids[i] == ids[..last][i];
        assert Less(ids[i], ids[last]);
      }
    }
  }

  lemma {:induction false} FirstReachingIs(ids: seq<Id>, p: Id, strict: bool, i: nat)
    requires i <= |ids|
    requires forall k :: 0 <= k < i ==> !Reaches(ids[k], p, strict)
    requires i < |ids| ==> Reaches(ids[i], p, strict)
    ensures FirstReaching(ids, p, strict) == i
  {
    if i > 0 {
      var rest, j := ids[1..], i - 1;
      assert forall k :: 0 <= k < |rest| ==> rest[k] == ids[k + 1];
      FirstReachingIs(rest, p, strict, j);
    }
  }

  lemma {:induction false} EndWithinIs(ids: seq<Id>, p: Id, i: nat)
    requires i <= |ids|
    requires forall k :: i <= k < |ids| ==> !AtMost(ids[k], p)
    requires i > 0 ==> AtMost(ids[i - 1], p)
    ensures EndWithin(ids, p) == i
  {
    if i < |ids| {
      EndWithinIs(ids[..|ids| - 1], p, i);
    }
  }

  // ----- XRANGE and XREAD on ids

  /** findl and xreadfindl: index 0 also when nothing is found. */
  function Find(ids: seq<Id>, p: Id, strict: bool): (l: nat)
    ensures l <= |ids|
  {
    var i := FirstReaching(ids, p, strict);
    if i < |ids| then i else 0
  }

  /** findr below the open end: the last index, not the end, when nothing is found; -1 on an empty stream. */
  function FindEnd(ids: seq<Id>, p: Id): (r: int)
    ensures -1 <= r <= |ids|
  {
    var i := EndWithin(ids, p);
    if i > 0 then i else |ids| - 1
  }

  predicate SomeFrom(ids: seq<Id>, lo: Id) {
    exists i :: 0 <= i < |ids| && AtMost(lo, ids[i])
  }

  predicate SomeUpTo(ids: seq<Id>, hi: Id) {
    exists i :: 0 <= i < |ids| && AtMost(ids[i], hi)
  }

  predicate NoneBetween(ids: seq<Id>, hi: Id, lo: Id) {
    forall i :: 0 <= i < |ids| ==> !(Less(hi, ids[i]) && Less(ids[i], lo))
  }

  /**
    What a caller has to check for XRANGE to search well. In the plain case there are ids from the
    start on and ids up to the end, and none lies strictly between a later start and an earlier
    end. The rest are the cases in which a fallback index happens to be harmless.
  */
  predicate RangeIsSound(ids: seq<Id>, lo: Id, hi: Id, openEnd: bool) {
    if ids == [] then openEnd
    else if SomeUpTo(ids, hi) then SomeFrom(ids, lo) && NoneBetween(ids, hi, lo)
    else |ids| == 1 || (SomeFrom(ids, lo) && Less(ids[|ids| - 2], lo))
  }

  /** The ids from lo to hi are those from position `l` to position `r`. */
  ghost predicate SplitPoints(ids: seq<Id>, lo: Id, hi: Id, l: nat, r: nat) {
    && l <= |ids| && r <= |ids|
    && (forall i :: 0 <= i < |ids| ==> (AtMost(lo, ids[i]) <==> l <= i))
    && (forall i :: 0 <= i < |ids| ==> (AtMost(ids[i], hi) <==> i < r))
  }

  lemma {:induction false} SearchesSplit(ids: seq<Id>, lo: Id, hi: Id)
    requires Increasing(ids)
    ensures SplitPoints(ids, lo, hi, FirstReaching(ids, lo, false), EndWithin(ids, hi))
  {
    FirstReachingSplits(ids, lo, false);
    EndWithinSplits(ids, hi);
  }

  /** The same check on split points. */
  predicate SoundAt(n: nat, l: nat, r: nat, openEnd: bool) {
    if n == 0 then openEnd
    else if r > 0 then l < n && l <= r
    else n == 1 || l == n - 1
  }

  /** Where the split points lie tells which ids there are. */
  lemma {:induction false} SplitPointsTell(ids: seq<Id>, lo: Id, hi: Id, l: nat, r: nat)
    requires SplitPoints(ids, lo, hi, l, r)
    ensures SomeFrom(ids, lo) <==> l < |ids|
    ensures SomeUpTo(ids, hi) <==> r > 0
    ensures NoneBetween(ids, hi, lo) <==> l <= r
  {
    assert l < |ids| ==> AtMost(lo, ids[l]);
    assert r > 0 ==> AtMost(ids[0], hi);
    assert r < l ==> Less(hi, ids[r]) && Less(ids[r], lo);
  }

  lemma {:induction false} SoundBySplitPoints(ids: seq<Id>, lo: Id, hi: Id, openEnd: bool, l: nat, r: nat)
    requires SplitPoints(ids, lo, hi, l, r)
    ensures RangeIsSound(ids, lo, hi, openEnd) <==> SoundAt(|ids|, l, r, openEnd)
  {
    SplitPointsTell(ids, lo, hi, l, r);
    assert |ids| > 1 ==> (Less(ids[|ids| - 2], lo) <==> |ids| - 2 < l);
  }

  lemma {:induction false} PlainRangeIsSound(ids: seq<Id>, lo: Id, hi: Id, openEnd: bool)
    requires AtMost(lo, hi) && SomeFrom(ids, lo) && SomeUpTo(ids, hi)
    ensures RangeIsSound(ids, lo, hi, openEnd)
  {
  }

  /** The first id above the one just before position `n` is at position `n`. */
  lemma {:induction false} PositionBehind(ids: seq<Id>, n: nat, p: Id)
    requires ValidIds(ids) && n < |ids|
    requires p == if n == 0 then ZERO else ids[n - 1]
    ensures Find(ids, p, true) == n
  {
    FirstReachingSplits(ids, p, true);
    assert Reaches(ids[n], p, true);
    assert n > 0 ==> !Reaches(ids[n - 1], p, true);
  }
}
