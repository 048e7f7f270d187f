/** The key-value store as an object whose maps are updated in place. The clock is a parameter. */
module KvStores {
  import opened GoStrings
  import opened StreamIds
  import opened Stores

  class KvStore {
    var values: map<string, Value>
    var expiries: map<string, nat>

    function View(): Store
      reads this
    {
      Stores.Store(values, expiries)
    }

    constructor ()
      ensures View() == Stores.Store(map[], map[])
    {
      values, expiries := map[], map[];
    }

    method Get(key: string, ms: Millis) returns (r: Result<Value>)
      modifies this
      ensures (View(), r) == Stores.Get(old(View()), key, ms)
    {
      if key in expiries && ms > expiries[key] {
        expiries := expiries - {key};
        return Error;
      }
      r := if key in values then Ok(values[key]) else Error;
    }

    method Set(key: string, text: string, expiry: nat, ms: Millis)
      modifies this
      ensures View() == Stores.Set(old(View()), key, text, expiry, ms)
    {
      if expiry != 0 {
        expiries := expiries[key := (ms + expiry) % (MAX_UINT + 1)];
      }
      values := values[key := Str(text)];
    }

    /** XADD: an absent key becomes a stream before the id is looked at. */
    method SetStream(streamkey: string, seqkey: string, field: string, value: string, ms: Millis)
      returns (r: AddResult)
      modifies this
      ensures (View(), r) == Stores.SetStream(old(View()), streamkey, seqkey, field, value, ms)
    {
      if streamkey !in values {
        values := values[streamkey := Stream([])];
      }
      if values[streamkey].Str? {
        return NotAStream;
      }
      var cast := values[streamkey].entries;
      assert values == old(values)[streamkey := Stream(cast)];
      var c := NextId(cast, seqkey, ms);
      if !c.Chosen? {
        return TooSmall(c);
      }
      values := values[streamkey := Stream(cast + [Entry(Show(c.id), field, value)])];
      assert values == old(values)[streamkey := values[streamkey]];
      r := Added(Show(c.id));
    }

    /** Parses the asked id, completes it from the last entry, and checks that it is in order. */
    method NextId(cast: seq<Entry>, seqkey: string, ms: Millis) returns (c: Choice)
      ensures c == Choose(Ids(cast), Requested(seqkey, ms))
    {
      var rtime, rseq, wildcard := ms, 0, false;
      var more := Beyond(seqkey, '-');
      if more.Some? {
        rtime := Atoi(Before(seqkey, '-')).Val();
        var num := Atoi(Before(more.value, '-'));
        wildcard := num.Err();
        rseq := num.Val();
        if wildcard && rtime == 0 {
          rseq := 1;
        }
      }
      assert Requested(seqkey, ms) == Request(Id(rtime, rseq), wildcard);
      if rtime <= 0 && rseq <= 0 {
        return NotAboveZero;
      }
      if |cast| != 0 {
        var last := SplitSeqKey(cast[|cast| - 1].seqkey);
        assert last == Ids(cast)[|cast| - 1];
        if wildcard && rtime == last.time {
          rseq := Wrap(last.num + 1);
        }
        if last.time > rtime || (last.time == rtime && last.num >= rseq) {
          return NotAboveLast;
        }
      }
      c := Chosen(Id(rtime, rseq));
    }

    method GetStream(streamkey: string, start: string, end: string) returns (r: Result<seq<Entry>>)
      ensures r == Stores.GetStream(View(), streamkey, start, end)
    {
      if streamkey !in values || values[streamkey].Str? {
        return Error;
      }
      var cast := values[streamkey].entries;
      var lo := FindL(start, cast);
      var hi := FindR(end, cast);
      r := Slice(cast, lo, hi);
    }

    method FindL(start: string, stream: seq<Entry>) returns (l: int)
      ensures l == Stores.FindL(start, stream)
    {
      if start == "-" {
        return 0;
      }
      var p := SplitSeqKey(start);
      ghost var ids := Ids(stream);
      for i := 0 to |stream|
        invariant forall k :: 0 <= k < i ==> !Reaches(ids[k], p, false)
      {
        var id := SplitSeqKey(stream[i].seqkey);
        assert id == ids[i];
        CompareOrders(id, p);
        if Compare(id, p) <= 0 {
          FirstReachingIs(ids, p, false, i);
          return i;
        }
      }
      FirstReachingIs(ids, p, false, |ids|);
      l := 0;
    }

    method FindR(end: string, stream: seq<Entry>) returns (r: int)
      ensures r == Stores.FindR(end, stream)
    {
      if end == "+" {
        return |stream|;
      }
      var p := SplitSeqKey(end);
      ghost var ids := Ids(stream);
      for i := |stream| downto 0
        invariant forall k :: i <= k < |ids| ==> !AtMost(ids[k], p)
      {
        var id := SplitSeqKey(stream[i].seqkey);
        assert id == ids[i];
        CompareOrders(id, p);
        if Compare(id, p) >= 0 {
          EndWithinIs(ids, p, i + 1);
          return i + 1;
        }
      }
      EndWithinIs(ids, p, 0);
      r := |stream| - 1;
    }

    method XReadStream(streamkey: string, start: string) returns (r: Result<seq<Entry>>)
      ensures r == Stores.XReadStream(View(), streamkey, start)
    {
      if streamkey !in values || values[streamkey].Str? {
        return Error;
      }
      var cast := values[streamkey].entries;
      var l := XReadFindL(start, cast);
      r := Ok(cast[l..]);
    }

    method XReadFindL(start: string, stream: seq<Entry>) returns (l: int)
      ensures l == Stores.XReadFindL(start, stream)
    {
      var p := SplitSeqKey(start);
      ghost var ids := Ids(stream);
      for i := 0 to |stream|
        invariant forall k :: 0 <= k < i ==> !Reaches(ids[k], p, true)
      {
        var id := SplitSeqKey(stream[i].seqkey);
        assert id == ids[i];
        CompareOrders(id, p);
        if Compare(id, p) < 0 {
          FirstReachingIs(ids, p, true, i);
          return i;
        }
      }
      FirstReachingIs(ids, p, true, |ids|);
      l := 0;
    }
  }
}
