/** The key-value store as a value: string keys, streams of entries, and expiry deadlines. */
module Stores {
  import opened GoStrings
  import opened StreamIds

  /** A stream entry. XADD stores one field per entry. */
  datatype Entry = Entry(seqkey: string, field: string, value: string)

  datatype Value = Str(text: string) | Stream(entries: seq<Entry>)

  datatype Store = Store(values: map<string, Value>, expiries: map<string, nat>)

  /** The clock in milliseconds, as far as it fits Go's int. */
  type Millis = n: int | 0 <= n <= MAX_INT

  // ----- string keys

  /** The deadline of `key` has passed, and hides what the key holds. */
  predicate Hidden(s: Store, key: string, now: Millis) {
    key in s.expiries && now > s.expiries[key]
  }

  /** Get: a passed deadline is removed and hides the value this once; the value itself stays. */
  function Get(s: Store, key: string, now: Millis): (Store, Result<Value>) {
    if Hidden(s, key, now) then (s.(expiries := s.expiries - {key}), Error)
    else (s, if key in s.values then Ok(s.values[key]) else Error)
  }

  /** Set: an expiry of 0 leaves any old deadline in force; deadlines are unsigned 64-bit sums. */
  function Set(s: Store, key: string, text: string, expiry: nat, now: Millis): Store {
    Store(s.values[key := Str(text)],
          if expiry == 0 then s.expiries else s.expiries[key := (now + expiry) % (MAX_UINT + 1)])
  }

  // ----- stream ids

  /** An id as given or stored. "*" is 0-0, a missing or unreadable part is 0, a third part is ignored. */
  function SplitSeqKey(key: string): Id {
    if key == "*" then ZERO
    else
      match Beyond(key, '-')
      case None => Id(Atoi(Before(key, '-')).Val(), 0)
      case Some(more) => Id(Atoi(Before(key, '-')).Val(), Atoi(Before(more, '-')).Val())
  }

  function Show(id: Id): string {
    Itoa(id.time) + ['-'] + Itoa(id.num)
  }

  lemma {:induction false} ShowParts(id: Id)
    requires InRange(id)
    ensures Before(Show(id), '-') == Itoa(id.time) && Beyond(Show(id), '-') == Some(Itoa(id.num))
    ensures Before(Itoa(id.num), '-') == Itoa(id.num)
  {
    CutExact(Itoa(id.time), '-', Itoa(id.num));
    CutExact(Itoa(id.num), '-', "");
  }

  lemma {:induction false} SplitShow(id: Id)
    requires InRange(id)
    ensures SplitSeqKey(Show(id)) == id
  {
    ShowParts(id);
    AtoiItoa(id.time);
    AtoiItoa(id.num);
    assert |Show(id)| > 1;
  }

  // ----- the stream invariant

  function IdOf(e: Entry): Id {
    SplitSeqKey(e.seqkey)
  }

  function Ids(es: seq<Entry>): (ids: seq<Id>)
    ensures |ids| == |es|
    ensures forall i :: 0 <= i < |es| ==> ids[i] == IdOf(es[i])
  {
    seq(|es|, i requires 0 <= i < |es| => IdOf(es[i]))
  }

  /** Ids that are valid and increasing, each stored as the very text that prints it. */
  predicate ValidStream(es: seq<Entry>) {
    && ValidIds(Ids(es))
    && forall i :: 0 <= i < |es| ==> es[i].seqkey == Show(Ids(es)[i])
  }

  predicate ValidStore(s: Store) {
    forall k :: k in s.values && s.values[k].Stream? ==> ValidStream(s.values[k].entries)
  }

  // ----- XADD

  datatype AddResult = Added(seqkey: string) | NotAStream | TooSmall(choice: Choice)

  /** The id that an XADD argument asks for, before the stream is looked at. */
  function Requested(seqkey: string, now: Millis): Request {
    match Beyond(seqkey, '-')
    case None => Request(Id(now, 0), false)
    case Some(more) => RequestOf(Atoi(Before(seqkey, '-')).Val(), Atoi(Before(more, '-')))
  }

  /** A number part that does not read is a wildcard, which starts from what the failed reading left. */
  function RequestOf(time: int, num: Number): Request {
    Request(Id(time, if num.Err() && time == 0 then 1 else num.Val()), num.Err())
  }

  lemma {:induction false} RequestedInRange(seqkey: string, now: Millis)
    ensures InRange(Requested(seqkey, now).id)
  {
    BeforeIsFree(seqkey, '-');
    if Beyond(seqkey, '-').Some? {
      BeforeIsFree(Beyond(seqkey, '-').value, '-');
    }
  }

  function AppendEntry(es: seq<Entry>, req: Request, field: string, value: string): (seq<Entry>, AddResult) {
    match Choose(Ids(es), req)
    case Chosen(id) => (es + [Entry(Show(id), field, value)], Added(Show(id)))
    case refusal => (es, TooSmall(refusal))
  }

  /** SetStream: an absent key becomes an empty stream even when the entry is then rejected. */
  function SetStream(s: Store, streamkey: string, seqkey: string, field: string, value: string, now: Millis)
    : (Store, AddResult)
  {
    var current := if streamkey in s.values then s.values[streamkey] else Stream([]);
    if current.Str? then (s, NotAStream)
    else
      var (es, r) := AppendEntry(current.entries, Requested(seqkey, now), field, value);
      (s.(values := s.values[streamkey := Stream(es)]), r)
  }

  /** The entries under a key; a key that is absent or no stream has none. */
  function EntriesOf(s: Store, key: string): seq<Entry> {
    if key in s.values && s.values[key].Stream? then s.values[key].entries else []
  }

  // ----- XRANGE and XREAD

  function FindL(start: string, es: seq<Entry>): int {
    if start == "-" then 0 else Find(Ids(es), SplitSeqKey(start), false)
  }

  function FindR(end: string, es: seq<Entry>): int {
    if end == "+" then |es| else FindEnd(Ids(es), SplitSeqKey(end))
  }

  function XReadFindL(start: string, es: seq<Entry>): (l: int)
    ensures 0 <= l <= |es|
  {
    Find(Ids(es), SplitSeqKey(start), true)
  }

  /** The slice es[l:r] of Go, which panics on bounds out of order. */
  function Slice(es: seq<Entry>, l: int, r: int): Result<seq<Entry>> {
    if 0 <= l <= r <= |es| then Ok(es[l..r]) else Panic
  }

  function GetStream(s: Store, key: string, start: string, end: string): Result<seq<Entry>> {
    if key !in s.values || s.values[key].Str? then Error
    else
      var es := s.values[key].entries;
      Slice(es, FindL(start, es), FindR(end, es))
  }

  function XReadStream(s: Store, key: string, start: string): Result<seq<Entry>> {
    if key !in s.values || s.values[key].Str? then Error
    else
      var es := s.values[key].entries;
      Ok(es[XReadFindL(start, es)..])
  }

  // ----- every operation keeps the invariant

  lemma {:induction false} AppendKeepsStream(es: seq<Entry>, req: Request, field: string, value: string)
    requires ValidStream(es) && InRange(req.id)
    ensures var (es', r) := AppendEntry(es, req, field, value);
            && ValidStream(es')
            && (r.Added? ==> es' == es + [Entry(r.seqkey, field, value)])
            && (!r.Added? ==> es' == es)
  {
    var c := Choose(Ids(es), req);
    if c.Chosen? {
      ChosenKeepsIds(Ids(es), req);
      var e := Entry(Show(c.id), field, value);
      assert InRange(c.id) by {
        assert (Ids(es) + [c.id])[|es|] == c.id;
      }
      SplitShow(c.id);
      assert Ids(es + [e]) == Ids(es) + [c.id];
    }
  }

  /**
    XADD keeps every stream valid. A rejected one changes no entry of any key, and leaves the store as
    it was if and only if the key was there; otherwise it leaves an empty stream under the key.
  */
  lemma {:induction false} SetStreamKeepsStore(s: Store, streamkey: string, seqkey: string, field: string, value: string, now: Millis)
    requires ValidStore(s)
    ensures var (s', r) := SetStream(s, streamkey, seqkey, field, value, now);
            && ValidStore(s')
            && s'.expiries == s.expiries
            && (!r.Added? ==> forall k :: EntriesOf(s', k) == EntriesOf(s, k))
            && (!r.Added? ==> (s' == s <==> streamkey in s.values))
            && (!r.Added? && streamkey !in s.values ==> s' == s.(values := s.values[streamkey := Stream([])]))
            && (r.Added? ==> EntriesOf(s', streamkey) == EntriesOf(s, streamkey) + [Entry(r.seqkey, field, value)])
            && (forall k :: k != streamkey ==> EntriesOf(s', k) == EntriesOf(s, k))
  {
    if streamkey !in s.values || s.values[streamkey].Stream? {
      var es, req := EntriesOf(s, streamkey), Requested(seqkey, now);
      EmptyIsValid();
      RequestedInRange(seqkey, now);
      AppendKeepsStream(es, req, field, value);
      SetStreamIsAppend(s, streamkey, seqkey, field, value, now, req, es);
      StreamIsPut(s, streamkey, AppendEntry(es, req, field, value).0);
    }
  }

  /** A stream put under a key that held none or another one. */
  lemma {:induction false} StreamIsPut(s: Store, key: string, es: seq<Entry>)
    requires ValidStore(s) && ValidStream(es) && (key in s.values ==> s.values[key].Stream?)
    ensures var s' := s.(values := s.values[key := Stream(es)]);
            && ValidStore(s') && EntriesOf(s', key) == es
            && (forall k :: k != key ==> EntriesOf(s', k) == EntriesOf(s, k))
            && (es == EntriesOf(s, key) ==> (s' == s <==> key in s.values))
  {
    if key in s.values && es == EntriesOf(s, key) {
      assert s.values[key := Stream(es)] == s.values;
    }
  }

  lemma {:induction false} EmptyIsValid()
    ensures ValidStream([])
  {
  }

  /**
    An id "t-*" is accepted exactly when some 64-bit number makes it a legal id, and it then gets
    the least such number. Any second part that is no number acts as the wildcard.
  */
  lemma {:induction false} AutoNumberIsLeast(es: seq<Entry>, seqkey: string, field: string, value: string, now: Millis)
    requires ValidStream(es)
    requires Beyond(seqkey, '-').Some? && Atoi(Before(Beyond(seqkey, '-').value, '-')).Syntax?
    ensures var t := Atoi(Before(seqkey, '-')).Val();
            var r := AppendEntry(es, Requested(seqkey, now), field, value).1;
            && (r.Added? <==> exists n :: Eligible(Ids(es), t, n))
            && (r.Added? ==> exists n :: LeastEligible(Ids(es), t, n) && r.seqkey == Show(Id(t, n)))
  {
    var t := Atoi(Before(seqkey, '-')).Val();
    BeforeIsFree(seqkey, '-');
    WildcardIsLeast(Ids(es), t);
    assert RequestOf(t, Syntax) == Request(Id(t, if t == 0 then 1 else 0), true);
    var c := Choose(Ids(es), Requested(seqkey, now));
    if c.Chosen? {
      assert c.id == Id(t, c.id.num);
    }
  }

  // ----- ids as clients write them

  function IdText(t: int, n: int): string {
    Itoa(t) + "-" + Itoa(n)
  }

  /** A time alone, and a star, as XRANGE and XREAD read them. */
  lemma {:induction false} SplitTexts(t: int)
    requires 0 <= t <= MAX_INT
    ensures SplitSeqKey(Itoa(t)) == Id(t, 0) && SplitSeqKey("*") == Id(0, 0)
  {
    AtoiItoa(t);
    CutExact(Itoa(t), '-', "");
    assert IsDigit(Itoa(t)[0]);
  }

  /** A third part is cut off before the number is read. */
  lemma {:induction false} ThirdPartIsCut(t: int, n: int, more: string)
    requires 0 <= t <= MAX_INT && 0 <= n <= MAX_INT
    ensures var text := IdText(t, n) + "-" + more;
            && Before(text, '-') == Itoa(t) && Beyond(text, '-') == Some(Itoa(n) + "-" + more)
            && Before(Itoa(n) + "-" + more, '-') == Itoa(n)
  {
    var tail := Itoa(n) + "-" + more;
    CutExact(Itoa(n), '-', more);
    CutExact(Itoa(t), '-', tail);
    assert IdText(t, n) + "-" + more == Itoa(t) + ['-'] + tail;
    assert tail == Itoa(n) + ['-'] + more;
  }

  lemma {:induction false} SplitThreeParts(t: int, n: int, more: string)
    requires 0 <= t <= MAX_INT && 0 <= n <= MAX_INT
    ensures SplitSeqKey(IdText(t, n) + "-" + more) == Id(t, n)
  {
    ThirdPartIsCut(t, n, more);
    AtoiItoa(t);
    AtoiItoa(n);
    assert |IdText(t, n) + "-" + more| > 1;
  }

  lemma {:induction false} RequestedText(t: int, part: string, now: Millis)
    requires 0 <= t <= MAX_INT && '-' !in part
    ensures Requested(Itoa(t) + "-" + part, now) == RequestOf(t, Atoi(part))
  {
    AtoiItoa(t);
    CutExact(Itoa(t), '-', part);
    CutExact(part, '-', "");
    assert Itoa(t) + "-" + part == Itoa(t) + ['-'] + part;
  }

  /** A stream that can take an entry: one that is there, or none yet. */
  predicate TakesEntries(s: Store, key: string) {
    key in s.values ==> s.values[key].Stream? && ValidStream(s.values[key].entries)
  }

  lemma {:induction false} SetStreamIsAppend(s: Store, key: string, text: string, field: string, value: string, now: Millis,
                                             req: Request, es: seq<Entry>)
    requires TakesEntries(s, key) && es == EntriesOf(s, key) && Requested(text, now) == req
    ensures var (es', r) := AppendEntry(es, req, field, value);
            SetStream(s, key, text, field, value, now) == (s.(values := s.values[key := Stream(es')]), r)
  {
  }

  /** The id of the last entry, read from its text, lies below (t, n). */
  predicate Fits(es: seq<Entry>, t: int, n: int) {
    es != [] ==> Less(SplitSeqKey(es[|es| - 1].seqkey), Id(t, n))
  }

  /**
    XADD with an id of two numbers appends the entry under that very text, if and only if the id lies
    above 0-0 and above the last one; otherwise it gives the error of the check that failed first.
  */
  lemma {:induction false} GivenIdIsAppended(s: Store, key: string, t: int, n: int, field: string, value: string, now: Millis)
    requires TakesEntries(s, key) && 0 <= t <= MAX_INT && 0 <= n <= MAX_INT
    ensures var es := EntriesOf(s, key);
            SetStream(s, key, IdText(t, n), field, value, now) ==
            if t == 0 && n == 0 then (s.(values := s.values[key := Stream(es)]), TooSmall(NotAboveZero))
            else if !Fits(es, t, n) then (s.(values := s.values[key := Stream(es)]), TooSmall(NotAboveLast))
            else (s.(values := s.values[key := Stream(es + [Entry(IdText(t, n), field, value)])]), Added(IdText(t, n)))
  {
    var es := EntriesOf(s, key);
    NumberText(t, n, now);
    SetStreamIsAppend(s, key, IdText(t, n), field, value, now, Request(Id(t, n), false), es);
    GivenIdIsChosen(Ids(es), Id(t, n));
  }

  lemma {:induction false} NumberText(t: int, n: int, now: Millis)
    requires 0 <= t <= MAX_INT && 0 <= n <= MAX_INT
    ensures Requested(IdText(t, n), now) == Request(Id(t, n), false)
  {
    RequestedText(t, Itoa(n), now);
    AtoiItoa(n);
  }

  lemma {:induction false} StarText(t: int, now: Millis)
    requires 0 <= t <= MAX_INT
    ensures Requested(Itoa(t) + "-" + "*", now) == Request(Id(t, if t == 0 then 1 else 0), true)
  {
    RequestedText(t, "*", now);
    AtoiIsValue("*");
  }

  /** A star, and any other text without a dash, asks for the id (now, 0). */
  lemma {:induction false} StarIsNow(s: Store, key: string, text: string, field: string, value: string, now: Millis)
    requires '-' !in text
    ensures SetStream(s, key, text, field, value, now) == SetStream(s, key, IdText(now, 0), field, value, now)
  {
    RequestedText(now, Itoa(0), now);
    AtoiItoa(0);
    CutExact(text, '-', "");
  }

  /** XADD with a star for the number succeeds exactly when there is a legal one, and takes the least. */
  lemma {:induction false} StarIsLeast(s: Store, key: string, t: int, field: string, value: string, now: Millis)
    requires TakesEntries(s, key) && 0 <= t <= MAX_INT
    ensures var ids := Ids(EntriesOf(s, key));
            var r := SetStream(s, key, Itoa(t) + "-" + "*", field, value, now).1;
            && (r.Added? <==> exists n :: Eligible(ids, t, n))
            && (r.Added? ==> exists n :: LeastEligible(ids, t, n) && r.seqkey == IdText(t, n))
  {
    var es := EntriesOf(s, key);
    var req := Request(Id(t, if t == 0 then 1 else 0), true);
    EmptyIsValid();
    StarText(t, now);
    SetStreamIsAppend(s, key, Itoa(t) + "-" + "*", field, value, now, req, es);
    WildcardIsLeast(Ids(es), t);
    var c := Choose(Ids(es), req);
    if c.Chosen? {
      assert c.id == Id(t, c.id.num) && Show(c.id) == IdText(t, c.id.num);
    }
  }

  /**
    A number beyond 64 bits is taken for a star behind an entry of the same time, and elsewhere for the
    largest number, or for 1 at time 0.
  */
  lemma {:induction false} HugeNumberIsTaken(s: Store, key: string, t: int, part: string, field: string, value: string, now: Millis)
    requires TakesEntries(s, key) && 0 <= t <= MAX_INT && '-' !in part && Atoi(part).Range?
    ensures var es := EntriesOf(s, key);
            var text := if es != [] && SplitSeqKey(es[|es| - 1].seqkey).time == t then Itoa(t) + "-" + "*"
                        else IdText(t, if t == 0 then 1 else MAX_INT);
            SetStream(s, key, Itoa(t) + "-" + part, field, value, now) == SetStream(s, key, text, field, value, now)
  {
    var es, num := EntriesOf(s, key), if t == 0 then 1 else MAX_INT;
    var asked, star, given := Request(Id(t, num), true), Request(Id(t, if t == 0 then 1 else 0), true), Request(Id(t, num), false);
    HugeText(t, part, now, num);
    StarText(t, now);
    NumberText(t, num, now);
    SetStreamIsAppend(s, key, Itoa(t) + "-" + part, field, value, now, asked, es);
    SetStreamIsAppend(s, key, Itoa(t) + "-" + "*", field, value, now, star, es);
    SetStreamIsAppend(s, key, IdText(t, num), field, value, now, given, es);
    HugeAppends(es, t, num, field, value);
  }

  lemma {:induction false} HugeAppends(es: seq<Entry>, t: int, num: int, field: string, value: string)
    requires t >= 0 && num == if t == 0 then 1 else MAX_INT
    ensures AppendEntry(es, Request(Id(t, num), true), field, value) ==
            if es != [] && SplitSeqKey(es[|es| - 1].seqkey).time == t
            then AppendEntry(es, Request(Id(t, if t == 0 then 1 else 0), true), field, value)
            else AppendEntry(es, Request(Id(t, num), false), field, value)
  {
    HugeIsChosen(Ids(es), t, num);
    if es != [] {
      assert Ids(es)[|es| - 1] == SplitSeqKey(es[|es| - 1].seqkey);
    }
    if es != [] && SplitSeqKey(es[|es| - 1].seqkey).time == t {
      SameChoice(es, Request(Id(t, num), true), Request(Id(t, if t == 0 then 1 else 0), true), field, value);
    } else {
      SameChoice(es, Request(Id(t, num), true), Request(Id(t, num), false), field, value);
    }
  }

  lemma {:induction false} SameChoice(es: seq<Entry>, a: Request, b: Request, field: string, value: string)
    requires Choose(Ids(es), a) == Choose(Ids(es), b)
    ensures AppendEntry(es, a, field, value) == AppendEntry(es, b, field, value)
  {
  }

  lemma {:induction false} HugeText(t: int, part: string, now: Millis, num: int)
    requires 0 <= t <= MAX_INT && '-' !in part && Atoi(part).Range? && num == if t == 0 then 1 else MAX_INT
    ensures Requested(Itoa(t) + "-" + part, now) == Request(Id(t, num), true)
  {
    RequestedText(t, part, now);
    AtoiIsValue(part);
  }

  lemma {:induction false} HugeIsChosen(ids: seq<Id>, t: int, num: int)
    requires t >= 0 && num == if t == 0 then 1 else MAX_INT
    ensures Choose(ids, Request(Id(t, num), true)) ==
            if ids != [] && ids[|ids| - 1].time == t then Choose(ids, Request(Id(t, if t == 0 then 1 else 0), true))
            else Choose(ids, Request(Id(t, num), false))
  {
  }

  /** A time that does not read is 0, and a third part is ignored. */
  lemma {:induction false} OddTextsAreTaken(s: Store, key: string, word: string, t: int, n: int, more: string,
                                            field: string, value: string, now: Millis)
    requires '-' !in word && Atoi(word).Syntax? && 0 <= t <= MAX_INT && 0 <= n <= MAX_INT
    ensures SetStream(s, key, word + "-" + Itoa(n), field, value, now) == SetStream(s, key, IdText(0, n), field, value, now)
    ensures SetStream(s, key, IdText(t, n) + "-" + more, field, value, now) == SetStream(s, key, IdText(t, n), field, value, now)
  {
    NumberText(0, n, now);
    NumberText(t, n, now);
    OddTexts(word, t, n, more, now);
  }

  lemma {:induction false} OddTexts(word: string, t: int, n: int, more: string, now: Millis)
    requires '-' !in word && Atoi(word).Syntax? && 0 <= t <= MAX_INT && 0 <= n <= MAX_INT
    ensures Requested(word + "-" + Itoa(n), now) == Request(Id(0, n), false)
    ensures Requested(IdText(t, n) + "-" + more, now) == Request(Id(t, n), false)
  {
    AtoiItoa(t);
    AtoiItoa(n);
    CutExact(word, '-', Itoa(n));
    CutExact(Itoa(n), '-', "");
    assert word + "-" + Itoa(n) == word + ['-'] + Itoa(n);
    ThirdPartIsCut(t, n, more);
  }
}
