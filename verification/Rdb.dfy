/** The RDB file: its layout as an encoder, its reader as a function, and that one undoes the other. */
module Rdb {
  import opened GoStrings

  // ----- what a file holds

  datatype Meta = Meta(version: string, ctime: nat, usedMem: nat, bits: nat)

  datatype Db = Db(keys: map<string, string>, expiries: map<string, nat>)

  datatype Contents = Contents(meta: Meta, dbs: seq<Db>)

  const EMPTY := Contents(Meta("", 0, 0, 0), [])

  const METADATA: char := '\U{FA}'
  const TABLE_INFO: char := '\U{FB}'
  const EXPIRY_MS: char := '\U{FC}'
  const EXPIRY_S: char := '\U{FD}'
  const DATABASE: char := '\U{FE}'
  const END_OF_FILE: char := '\U{FF}'

  // ----- reading, as a function of the bytes ahead

  /** A value and the bytes behind it. */
  type Read<T> = Option<(T, string)>

  function Skip(n: nat, s: string): string {
    if n <= |s| then s[n..] else ""
  }

  function ReadByte(s: string): (r: Read<char>)
    ensures r.Some? ==> |r.value.1| <= |s|
  {
    if s == "" then None else Some((s[0], s[1..]))
  }

  function ReadBytes(n: nat, s: string): (r: Read<string>)
    ensures r.Some? ==> |r.value.1| <= |s|
  {
    if n <= |s| then Some((s[..n], s[n..])) else None
  }

  /** A length byte and that many bytes. */
  function ReadStr(s: string): (r: Read<string>)
    ensures r.Some? ==> |r.value.1| <= |s|
  {
    match ReadByte(s)
    case None => None
    case Some((c, rest)) => ReadBytes(c as int, rest)
  }

  function LittleEndian(s: string): nat {
    if s == "" then 0 else s[0] as int + 256 * LittleEndian(s[1..])
  }

  function ReadUint(width: nat, s: string): (r: Read<nat>)
    ensures r.Some? ==> |r.value.1| <= |s|
  {
    match ReadBytes(width, s)
    case None => None
    case Some((bytes, rest)) => Some((LittleEndian(bytes), rest))
  }

  function ReadMeta(s: string, meta: Meta): (r: Read<Meta>)
    ensures r.Some? ==> |r.value.1| <= |s|
  {
    match ReadStr(s)
    case None => None
    case Some((key, rest)) =>
      if key == "redis-ver" then
        (match ReadStr(rest) case None => None case Some((v, more)) => Some((meta.(version := v), more)))
      else if key == "ctime" then
        (match ReadUint(4, Skip(1, rest)) case None => None case Some((n, more)) => Some((meta.(ctime := n), more)))
      else if key == "redis-bits" then
        (match ReadByte(Skip(1, rest))
         case None => None
         case Some((b, more)) => if b as int == 64 then Some((meta.(bits := 64), more)) else None)
      else if key == "used-mem" then
        (match ReadUint(4, Skip(1, rest)) case None => None case Some((n, more)) => Some((meta.(usedMem := n), more)))
      else if key == "aof-base" then Some((meta, Skip(2, rest)))
      else None
  }

  /** The optional expiry in front of an entry, told by the byte ahead. */
  function ReadExpiry(s: string): (r: Read<Option<nat>>)
    ensures r.Some? ==> |r.value.1| <= |s|
  {
    match ReadByte(s)
    case None => None
    case Some((c, rest)) =>
      if c == EXPIRY_MS || c == EXPIRY_S then
        match ReadUint(if c == EXPIRY_MS then 8 else 4, rest)
        case None => None
        case Some((n, more)) => Some((Some(n), more))
      else Some((None, s))
  }

  /** The type byte, the key and the value behind an expiry; only type 0, strings, is known. */
  function ReadPair(s: string): (r: Read<(string, string)>)
    ensures r.Some? ==> |r.value.1| <= |s|
  {
    match ReadByte(s)
    case None => None
    case Some((t, rest)) =>
      match ReadStr(rest)
      case None => None
      case Some((key, more)) =>
        if t != '\0' then None
        else
          match ReadStr(more)
          case None => None
          case Some((value, end)) => Some(((key, value), end))
  }

  function Store(db: Db, expiry: Option<nat>, key: string, value: string): Db {
    Db(db.keys[key := value], if expiry.Some? then db.expiries[key := expiry.value] else db.expiries)
  }

  function ReadEntry(s: string, db: Db): (r: Read<Db>)
    ensures r.Some? ==> |r.value.1| <= |s|
  {
    match ReadExpiry(s)
    case None => None
    case Some((expiry, rest)) =>
      match ReadPair(rest)
      case None => None
      case Some((pair, more)) => Some((Store(db, expiry, pair.0, pair.1), more))
  }

  function ReadEntries(n: nat, s: string, db: Db): (r: Read<Db>)
    ensures r.Some? ==> |r.value.1| <= |s|
  {
    if n == 0 then Some((db, s))
    else
      match ReadEntry(s, db)
      case None => None
      case Some((db', rest)) => ReadEntries(n - 1, rest, db')
  }

  /** A database section: index, table sizes, and as many entries as the first size says. */
  function ReadDb(s: string): (r: Read<Db>)
    ensures r.Some? ==> |r.value.1| <= |s|
  {
    match ReadBytes(4, s)
    case None => None
    case Some((head, rest)) =>
      if head[1] != TABLE_INFO then None else ReadEntries(head[2] as int, rest, Db(map[], map[]))
  }

  function ReadSection(c: char, s: string, acc: Contents): (r: Read<Contents>)
    ensures r.Some? ==> |r.value.1| <= |s|
  {
    if c == METADATA then
      match ReadMeta(s, acc.meta)
      case None => None
      case Some((meta, rest)) => Some((acc.(meta := meta), rest))
    else if c == DATABASE then
      match ReadDb(s)
      case None => None
      case Some((db, rest)) => Some((acc.(dbs := acc.dbs + [db]), rest))
    else None
  }

  /** The section loop: the end of the stream ends it, and so does the end marker if a checksum byte follows. */
  function ReadSections(s: string, acc: Contents): Option<Contents>
    decreases |s|
  {
    if s == "" then Some(acc)
    else if s[0] == END_OF_FILE then if |s| > 1 then Some(acc) else None
    else
      match ReadSection(s[0], s[1..], acc)
      case None => None
      case Some((acc', rest)) => ReadSections(rest, acc')
  }

  /** ReadRdbFromFile: nine bytes of header, whatever they are, and the sections. */
  function ReadFile(s: string): Option<Contents> {
    ReadSections(Skip(9, s), EMPTY)
  }

  // ----- the layout, as an encoder, with its marker bytes spelled out

  datatype Expiry = Never | AtMillis(ms: nat) | AtSeconds(s: nat)

  datatype Entry = Entry(key: string, value: string, expiry: Expiry)

  /** The sections of a file. The bytes that the reader skips are free. */
  datatype Section =
    | Version(version: string)
    | CTime(mark: char, n: nat)
    | Bits(mark: char)
    | UsedMem(mark: char, n: nat)
    | AofBase(a: char, b: char)
    | Database(index: char, expirySize: char, entries: seq<Entry>)

  function Byte(n: nat): char
    requires n < 256
  {
    n as char
  }

  function EncodeStr(x: string): string
    requires |x| < 256
  {
    [Byte(|x|)] + x
  }

  function EncodeUint(width: nat, n: nat): string {
    if width == 0 then "" else [Byte(n % 256)] + EncodeUint(width - 1, n / 256)
  }

  function Pow256(width: nat): nat {
    if width == 0 then 1 else 256 * Pow256(width - 1)
  }

  predicate FitsEntry(e: Entry) {
    && |e.key| < 256 && |e.value| < 256
    && match e.expiry
       case Never => true
       case AtMillis(ms) => ms < Pow256(8)
       case AtSeconds(s) => s < Pow256(4)
  }

  /** What the format can hold: strings and tables of at most 255, numbers in their width. */
  predicate Fits(section: Section) {
    match section
    case Version(v) => |v| < 256
    case CTime(_, n) => n < Pow256(4)
    case Bits(_) => true
    case UsedMem(_, n) => n < Pow256(4)
    case AofBase(_, _) => true
    case Database(_, _, entries) => |entries| < 256 && forall i :: 0 <= i < |entries| ==> FitsEntry(entries[i])
  }

  function EncodeExpiry(expiry: Expiry): string {
    match expiry
    case Never => ""
    case AtMillis(ms) => "\U{FC}" + EncodeUint(8, ms)
    case AtSeconds(s) => "\U{FD}" + EncodeUint(4, s)
  }

  function EncodePair(key: string, value: string): string
    requires |key| < 256 && |value| < 256
  {
    ['\0'] + EncodeStr(key) + EncodeStr(value)
  }

  function EncodeEntries(entries: seq<Entry>): string
    requires forall i :: 0 <= i < |entries| ==> FitsEntry(entries[i])
  {
    if entries == [] then ""
    else
      var e := entries[0];
      assert FitsEntry(e);
      EncodeExpiry(e.expiry) + EncodePair(e.key, e.value) + EncodeEntries(entries[1..])
  }

  function EncodeBody(section: Section): string
    requires Fits(section)
  {
    match section
    case Version(v) => EncodeStr("redis-ver") + EncodeStr(v)
    case CTime(mark, n) => EncodeStr("ctime") + [mark] + EncodeUint(4, n)
    case Bits(mark) => EncodeStr("redis-bits") + [mark] + [Byte(64)]
    case UsedMem(mark, n) => EncodeStr("used-mem") + [mark] + EncodeUint(4, n)
    case AofBase(a, b) => EncodeStr("aof-base") + [a, b]
    case Database(index, expirySize, entries) =>
      [index, '\U{FB}', Byte(|entries|), expirySize] + EncodeEntries(entries)
  }

  function EncodeSection(section: Section): string
    requires Fits(section)
  {
    (if section.Database? then "\U{FE}" else "\U{FA}") + EncodeBody(section)
  }

  function EncodeSections(sections: seq<Section>): string
    requires forall i :: 0 <= i < |sections| ==> Fits(sections[i])
  {
    if sections == [] then "" else EncodeSection(sections[0]) + EncodeSections(sections[1..])
  }

  // ----- what an encoded file means

  function ExpiryValue(expiry: Expiry): Option<nat> {
    match expiry
    case Never => None
    case AtMillis(ms) => Some(ms)
    case AtSeconds(s) => Some(s)
  }

  /** Entries fill the maps in order: a later one of the same key replaces an earlier one. */
  function Fill(db: Db, entries: seq<Entry>): Db
    decreases |entries|
  {
    if entries == [] then db
    else
      var e := entries[0];
      Fill(Store(db, ExpiryValue(e.expiry), e.key, e.value), entries[1..])
  }

  function AddSection(acc: Contents, section: Section): Contents {
    match section
    case Version(v) => acc.(meta := acc.meta.(version := v))
    case CTime(_, n) => acc.(meta := acc.meta.(ctime := n))
    case Bits(_) => acc.(meta := acc.meta.(bits := 64))
    case UsedMem(_, n) => acc.(meta := acc.meta.(usedMem := n))
    case AofBase(_, _) => acc
    case Database(_, _, entries) => acc.(dbs := acc.dbs + [Fill(Db(map[], map[]), entries)])
  }

  function Meaning(acc: Contents, sections: seq<Section>): Contents
    decreases |sections|
  {
    if sections == [] then acc else Meaning(AddSection(acc, sections[0]), sections[1..])
  }

  // ----- the reader undoes the encoder

  lemma {:induction false} EncodedLength(width: nat, n: nat)
    ensures |EncodeUint(width, n)| == width
  {
    if width > 0 {
      EncodedLength(width - 1, n / 256);
    }
  }

  /** Little-endian numbers of any width. */
  lemma {:induction false} LittleEndianInverts(width: nat, n: nat)
    requires n < Pow256(width)
    ensures LittleEndian(EncodeUint(width, n)) == n
  {
    if width > 0 {
      LittleEndianInverts(width - 1, n / 256);
      assert EncodeUint(width, n)[1..] == EncodeUint(width - 1, n / 256);
    }
  }

  lemma {:induction false} BytesAreRead(x: string, rest: string)
    ensures ReadBytes(|x|, x + rest) == Some((x, rest))
  {
    assert (x + rest)[..|x|] == x && (x + rest)[|x|..] == rest;
  }

  lemma {:induction false} StrIsRead(x: string, rest: string)
    requires |x| < 256
    ensures ReadStr(EncodeStr(x) + rest) == Some((x, rest))
  {
    var s := EncodeStr(x) + rest;
    assert s[1..] == x + rest;
    BytesAreRead(x, rest);
  }

  lemma {:induction false} UintIsRead(width: nat, n: nat, rest: string)
    requires n < Pow256(width)
    ensures ReadUint(width, EncodeUint(width, n) + rest) == Some((n, rest))
  {
    EncodedLength(width, n);
    LittleEndianInverts(width, n);
    BytesAreRead(EncodeUint(width, n), rest);
  }

  lemma {:induction false} PairIsRead(key: string, value: string, rest: string)
    requires |key| < 256 && |value| < 256
    ensures ReadPair(EncodePair(key, value) + rest) == Some(((key, value), rest))
  {
    var more := EncodeStr(value) + rest;
    var s := EncodePair(key, value) + rest;
    assert s[1..] == EncodeStr(key) + more;
    StrIsRead(key, more);
    StrIsRead(value, rest);
  }

  lemma {:induction false} MarkedIsRead(mark: char, width: nat, n: nat, rest: string)
    requires (mark == EXPIRY_MS && width == 8) || (mark == EXPIRY_S && width == 4)
    requires n < Pow256(width)
    ensures ReadExpiry([mark] + EncodeUint(width, n) + rest) == Some((Some(n), rest))
  {
    var s := [mark] + EncodeUint(width, n) + rest;
    assert s[1..] == EncodeUint(width, n) + rest;
    UintIsRead(width, n, rest);
  }

  /** The byte behind an expiry is a type byte and cannot be mistaken for one more expiry mark. */
  lemma {:induction false} ExpiryIsRead(expiry: Expiry, rest: string)
    requires rest != "" && rest[0] == '\0'
    requires match expiry case Never => true case AtMillis(ms) => ms < Pow256(8) case AtSeconds(s) => s < Pow256(4)
    ensures ReadExpiry(EncodeExpiry(expiry) + rest) == Some((ExpiryValue(expiry), rest))
  {
    match expiry {
      case Never => assert EncodeExpiry(expiry) + rest == rest;
      case AtMillis(ms) => MarkedIsRead(EXPIRY_MS, 8, ms, rest);
      case AtSeconds(n) => MarkedIsRead(EXPIRY_S, 4, n, rest);
    }
  }

  lemma {:induction false} EntryIsRead(e: Entry, rest: string, db: Db)
    requires FitsEntry(e)
    ensures ReadEntry(EncodeExpiry(e.expiry) + EncodePair(e.key, e.value) + rest, db) ==
            Some((Store(db, ExpiryValue(e.expiry), e.key, e.value), rest))
  {
    var more := EncodePair(e.key, e.value) + rest;
    assert EncodeExpiry(e.expiry) + EncodePair(e.key, e.value) + rest == EncodeExpiry(e.expiry) + more;
    ExpiryIsRead(e.expiry, more);
    PairIsRead(e.key, e.value, rest);
  }

  lemma {:induction false} EntriesAreRead(entries: seq<Entry>, rest: string, db: Db)
    requires forall i :: 0 <= i < |entries| ==> FitsEntry(entries[i])
    ensures ReadEntries(|entries|, EncodeEntries(entries) + rest, db) == Some((Fill(db, entries), rest))
    decreases |entries|
  {
    if entries == [] {
      assert EncodeEntries(entries) + rest == rest;
    } else {
      var e, more := entries[0], EncodeEntries(entries[1..]) + rest;
      assert EncodeEntries(entries) + rest == EncodeExpiry(e.expiry) + EncodePair(e.key, e.value) + more;
      EntryIsRead(e, more, db);
      EntriesAreRead(entries[1..], rest, Store(db, ExpiryValue(e.expiry), e.key, e.value));
      EntriesStep(|entries|, |entries[1..]|, EncodeEntries(entries) + rest, db);
    }
  }

  lemma {:induction false} EntriesStep(n: nat, m: nat, s: string, db: Db)
    requires n == m + 1
    ensures ReadEntries(n, s, db) ==
            match ReadEntry(s, db)
            case None => None
            case Some((db', rest)) => ReadEntries(m, rest, db')
  {
    assert ReadEntries(m + 1, s, db) == ReadEntries(n, s, db);
  }

  lemma {:induction false} DatabaseIsRead(section: Section, rest: string)
    requires section.Database? && Fits(section)
    ensures ReadDb(EncodeBody(section) + rest) ==
            Some((Fill(Db(map[], map[]), section.entries), rest))
  {
    var head := [section.index, TABLE_INFO, Byte(|section.entries|), section.expirySize];
    var more := EncodeEntries(section.entries) + rest;
    assert head + EncodeEntries(section.entries) + rest == head + more;
    BytesAreRead(head, more);
    EntriesAreRead(section.entries, rest, Db(map[], map[]));
  }

  lemma {:induction false} VersionIsRead(v: string, rest: string, meta: Meta)
    requires |v| < 256
    ensures ReadMeta(EncodeStr("redis-ver") + EncodeStr(v) + rest, meta) == Some((meta.(version := v), rest))
  {
    var more := EncodeStr(v) + rest;
    assert EncodeStr("redis-ver") + EncodeStr(v) + rest == EncodeStr("redis-ver") + more;
    StrIsRead("redis-ver", more);
    StrIsRead(v, rest);
  }

  lemma {:induction false} NumberIsRead(key: string, mark: char, n: nat, rest: string)
    requires |key| < 256 && n < Pow256(4)
    ensures exists more :: ReadStr(EncodeStr(key) + [mark] + EncodeUint(4, n) + rest) == Some((key, more))
                           && ReadUint(4, Skip(1, more)) == Some((n, rest))
  {
    var more := [mark] + (EncodeUint(4, n) + rest);
    assert EncodeStr(key) + [mark] + EncodeUint(4, n) + rest == EncodeStr(key) + more;
    StrIsRead(key, more);
    assert more[1..] == EncodeUint(4, n) + rest;
    UintIsRead(4, n, rest);
  }

  lemma {:induction false} CTimeIsRead(mark: char, n: nat, rest: string, meta: Meta)
    requires n < Pow256(4)
    ensures ReadMeta(EncodeStr("ctime") + [mark] + EncodeUint(4, n) + rest, meta) == Some((meta.(ctime := n), rest))
  {
    NumberIsRead("ctime", mark, n, rest);
  }

  lemma {:induction false} UsedMemIsRead(mark: char, n: nat, rest: string, meta: Meta)
    requires n < Pow256(4)
    ensures ReadMeta(EncodeStr("used-mem") + [mark] + EncodeUint(4, n) + rest, meta) == Some((meta.(usedMem := n), rest))
  {
    NumberIsRead("used-mem", mark, n, rest);
  }

  lemma {:induction false} BitsAreRead(mark: char, rest: string, meta: Meta)
    ensures ReadMeta(EncodeStr("redis-bits") + [mark] + [Byte(64)] + rest, meta) == Some((meta.(bits := 64), rest))
  {
    var more := [mark] + ([Byte(64)] + rest);
    assert EncodeStr("redis-bits") + [mark] + [Byte(64)] + rest == EncodeStr("redis-bits") + more;
    StrIsRead("redis-bits", more);
    assert more[1..] == [Byte(64)] + rest;
    assert ([Byte(64)] + rest)[1..] == rest;
  }

  lemma {:induction false} AofBaseIsRead(a: char, b: char, rest: string, meta: Meta)
    ensures ReadMeta(EncodeStr("aof-base") + [a, b] + rest, meta) == Some((meta, rest))
  {
    var more := [a, b] + rest;
    assert EncodeStr("aof-base") + [a, b] + rest == EncodeStr("aof-base") + more;
    StrIsRead("aof-base", more);
    assert more[2..] == rest;
  }

  lemma {:induction false} MetaIsRead(section: Section, rest: string, meta: Meta)
    requires Fits(section) && !section.Database?
    ensures ReadMeta(EncodeBody(section) + rest, meta) == Some((AddSection(Contents(meta, []), section).meta, rest))
  {
    match section {
      case Version(v) => VersionIsRead(v, rest, meta);
      case CTime(mark, n) => CTimeIsRead(mark, n, rest, meta);
      case Bits(mark) => BitsAreRead(mark, rest, meta);
      case UsedMem(mark, n) => UsedMemIsRead(mark, n, rest, meta);
      case AofBase(a, b) => AofBaseIsRead(a, b, rest, meta);
    }
  }

  lemma {:induction false} SectionIsRead(section: Section, rest: string, acc: Contents)
    requires Fits(section)
    ensures var s := EncodeSection(section) + rest;
            s != "" && s[0] != END_OF_FILE && ReadSection(s[0], s[1..], acc) == Some((AddSection(acc, section), rest))
  {
    if section.Database? {
      MarkIsFirst('\U{FE}', EncodeBody(section), rest);
      DatabaseIsRead(section, rest);
    } else {
      MarkIsFirst('\U{FA}', EncodeBody(section), rest);
      MetaIsRead(section, rest, acc.meta);
    }
  }

  lemma {:induction false} MarkIsFirst(mark: char, body: string, rest: string)
    ensures var s := [mark] + body + rest; s != "" && s[0] == mark && s[1..] == body + rest
  {
  }

  lemma {:induction false} SectionsAreRead(sections: seq<Section>, tail: string, acc: Contents)
    requires forall i :: 0 <= i < |sections| ==> Fits(sections[i])
    requires tail == "" || (tail[0] == '\U{FF}' && |tail| > 1)
    ensures ReadSections(EncodeSections(sections) + tail, acc) == Some(Meaning(acc, sections))
    decreases |sections|
  {
    if sections == [] {
      assert EncodeSections(sections) + tail == tail;
    } else {
      var more := EncodeSections(sections[1..]) + tail;
      assert EncodeSections(sections) + tail == EncodeSection(sections[0]) + more;
      SectionIsRead(sections[0], more, acc);
      SectionsAreRead(sections[1..], tail, AddSection(acc, sections[0]));
    }
  }

  /**
    Reading undoes writing, for every list of sections and any header and checksum. The file may end
    with the end marker and a checksum or, as far as this reader is concerned, just end.
  */
  lemma {:induction false} DecodeInvertsEncode(header: string, sections: seq<Section>, tail: string)
    requires |header| == 9
    requires forall i :: 0 <= i < |sections| ==> Fits(sections[i])
    requires tail == "" || (tail[0] == '\U{FF}' && |tail| > 1)
    ensures ReadFile(header + EncodeSections(sections) + tail) == Some(Meaning(EMPTY, sections))
  {
    SectionsAreRead(sections, tail, EMPTY);
    HeaderIsSkipped(header, EncodeSections(sections), tail);
  }

  lemma {:induction false} HeaderIsSkipped(header: string, body: string, tail: string)
    requires |header| == 9
    ensures ReadFile(header + body + tail) == ReadSections(body + tail, EMPTY)
  {
    var more := body + tail;
    assert header + body + tail == header + more;
    assert (header + more)[9..] == more;
  }

  // ----- files that are refused

  /** Where a section should begin, any byte but the three markers is refused, and so is an end without a checksum. */
  lemma {:induction false} UnknownSectionFails(header: string, c: char, rest: string)
    requires |header| == 9
    requires (c != '\U{FA}' && c != '\U{FE}' && c != '\U{FF}') || (c == '\U{FF}' && rest == "")
    ensures ReadFile(header + [c] + rest) == None
  {
    HeaderIsSkipped(header, [c], rest);
    assert ([c] + rest)[0] == c;
  }

  /** An attribute of another name is refused. */
  lemma {:induction false} UnknownAttributeFails(header: string, key: string, rest: string)
    requires |header| == 9 && |key| < 256
    requires key != "redis-ver" && key != "ctime" && key != "redis-bits" && key != "used-mem" && key != "aof-base"
    ensures ReadFile(header + ("\U{FA}" + EncodeStr(key)) + rest) == None
  {
    HeaderIsSkipped(header, "\U{FA}" + EncodeStr(key), rest);
    MarkIsFirst('\U{FA}', EncodeStr(key), rest);
    StrIsRead(key, rest);
  }

  /** Another word size than 64 bits is refused. */
  lemma {:induction false} OtherBitsFail(header: string, mark: char, bits: nat, rest: string)
    requires |header| == 9 && bits < 256 && bits != 64
    ensures ReadFile(header + "\U{FA}" + (EncodeStr("redis-bits") + ([mark, Byte(bits)] + rest))) == None
  {
    var more := EncodeStr("redis-bits") + ([mark, Byte(bits)] + rest);
    HeaderIsSkipped(header, "\U{FA}", more);
    assert ("\U{FA}" + more)[1..] == more;
    OtherBitsAreRefused(mark, bits, rest, EMPTY.meta);
  }

  lemma {:induction false} OtherBitsAreRefused(mark: char, bits: nat, rest: string, meta: Meta)
    requires bits < 256 && bits != 64
    ensures ReadMeta(EncodeStr("redis-bits") + ([mark, Byte(bits)] + rest), meta) == None
  {
    var more := [mark, Byte(bits)] + rest;
    StrIsRead("redis-bits", more);
    assert more[1..] == [Byte(bits)] + rest;
  }

  /** A database without table sizes is refused. */
  lemma {:induction false} MissingSizesFail(header: string, index: char, mark: char, sizes: string, rest: string)
    requires |header| == 9 && |sizes| == 2 && mark != '\U{FB}'
    ensures ReadFile(header + ("\U{FE}" + [index, mark] + sizes) + rest) == None
  {
    var body := "\U{FE}" + [index, mark] + sizes;
    HeaderIsSkipped(header, body, rest);
    assert (body + rest)[1..] == [index, mark] + sizes + rest;
    BytesAreRead([index, mark] + sizes, rest);
  }

  /** A value of another type than string is refused. */
  lemma {:induction false} OtherTypeFails(header: string, index: char, size: char, t: char, key: string, rest: string)
    requires |header| == 9 && |key| < 256 && t != '\0' && t != '\U{FC}' && t != '\U{FD}'
    ensures ReadFile(header + ("\U{FE}" + [index, '\U{FB}', '\U{01}', size]) + ([t] + EncodeStr(key) + rest)) == None
  {
    var head, more := [index, '\U{FB}', '\U{01}', size], [t] + EncodeStr(key) + rest;
    HeaderIsSkipped(header, "\U{FE}" + head, more);
    MarkIsFirst('\U{FE}', head, more);
    OtherTypeIsRefused(t, key, rest, Db(map[], map[]));
    BytesAreRead(head, more);
    EntriesStep(1, 0, more, Db(map[], map[]));
  }

  lemma {:induction false} OtherTypeIsRefused(t: char, key: string, rest: string, db: Db)
    requires |key| < 256 && t != '\0' && t != '\U{FC}' && t != '\U{FD}'
    ensures ReadEntry([t] + EncodeStr(key) + rest, db) == None
  {
    MarkIsFirst(t, EncodeStr(key), rest);
    StrIsRead(key, rest);
  }

  // ----- databases with distinct keys

  predicate DistinctKeys(entries: seq<Entry>) {
    forall i, j :: 0 <= i < j < |entries| ==> entries[i].key != entries[j].key
  }

  /** A key that no entry has keeps what it had. */
  lemma {:induction false} FillOther(db: Db, entries: seq<Entry>, k: string)
    requires forall i :: 0 <= i < |entries| ==> entries[i].key != k
    ensures var d := Fill(db, entries);
            && (k in d.keys <==> k in db.keys) && (k in d.keys ==> d.keys[k] == db.keys[k])
            && (k in d.expiries <==> k in db.expiries) && (k in d.expiries ==> d.expiries[k] == db.expiries[k])
    decreases |entries|
  {
    if entries != [] {
      var e := entries[0];
      FillOther(Store(db, ExpiryValue(e.expiry), e.key, e.value), entries[1..], k);
    }
  }

  /** The only entry of a key decides its value, and whether it expires and when. */
  lemma {:induction false} FillFound(db: Db, entries: seq<Entry>, i: nat)
    requires i < |entries| && DistinctKeys(entries) && entries[i].key !in db.expiries
    ensures var d, e := Fill(db, entries), entries[i];
            && e.key in d.keys && d.keys[e.key] == e.value
            && (e.key in d.expiries <==> !e.expiry.Never?)
            && (!e.expiry.Never? ==> Some(d.expiries[e.key]) == ExpiryValue(e.expiry))
    decreases |entries|
  {
    var e, rest := entries[0], entries[1..];
    var db' := Store(db, ExpiryValue(e.expiry), e.key, e.value);
    assert forall j :: 0 <= j < |rest| ==> rest[j] == entries[j + 1];
    if i == 0 {
      FillOther(db', rest, e.key);
    } else {
      FillFound(db', rest, i - 1);
    }
  }

  /** With distinct keys a database section means exactly its entries: these keys, values and expiries and no others. */
  lemma {:induction false} DatabaseIsExact(entries: seq<Entry>)
    requires DistinctKeys(entries)
    ensures var d := Fill(Db(map[], map[]), entries);
            && (forall i :: 0 <= i < |entries| ==>
                  var e := entries[i];
                  && e.key in d.keys && d.keys[e.key] == e.value
                  && (e.key in d.expiries <==> !e.expiry.Never?)
                  && (!e.expiry.Never? ==> Some(d.expiries[e.key]) == ExpiryValue(e.expiry)))
            && (forall k :: k in d.keys || k in d.expiries ==> exists i :: 0 <= i < |entries| && entries[i].key == k)
  {
    var none := Db(map[], map[]);
    var d := Fill(none, entries);
    forall i | 0 <= i < |entries|
      ensures var e := entries[i];
              && e.key in d.keys && d.keys[e.key] == e.value
              && (e.key in d.expiries <==> !e.expiry.Never?)
              && (!e.expiry.Never? ==> Some(d.expiries[e.key]) == ExpiryValue(e.expiry))
    {
      FillFound(none, entries, i);
    }
    forall k | k in d.keys || k in d.expiries
      ensures exists i :: 0 <= i < |entries| && entries[i].key == k
    {
      if forall i :: 0 <= i < |entries| ==> entries[i].key != k {
        FillOther(none, entries, k);
      }
    }
  }
}
