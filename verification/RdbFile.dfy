/** Reading an RDB file: the section loop over a reader that fills the result step by step. */
module RdbFiles {
  import opened GoStrings
  import opened Bufio
  import opened Rdb

  method ReadStringValue(reader: Reader) returns (r: Option<string>)
    modifies reader
    ensures var p := ReadStr(old(reader.rest));
            if p.None? then r.None? else r == Some(p.value.0) && reader.rest == p.value.1
  {
    var len, eof := reader.ReadByte();
    if eof {
      return None;
    }
    ghost var s := reader.rest;
    var buf := reader.Read(len as int);
    if |buf| != len as int {
      return None;
    }
    assert reader.rest == s[len as int..] && buf == s[..len as int];
    r := Some(buf);
  }

  /** readUint32Value and readUint64Value, by their width in bytes. */
  method ReadUintValue(reader: Reader, width: nat) returns (r: Option<nat>)
    modifies reader
    ensures var p := ReadUint(width, old(reader.rest));
            if p.None? then r.None? else r == Some(p.value.0) && reader.rest == p.value.1
  {
    ghost var s := reader.rest;
    var buf := reader.Read(width);
    if |buf| != width {
      return None;
    }
    assert reader.rest == s[width..] && buf == s[..width];
    r := Some(LittleEndian(buf));
  }

  method ReadMetadata(reader: Reader, meta: Meta) returns (r: Option<Meta>)
    modifies reader
    ensures var p := ReadMeta(old(reader.rest), meta);
            if p.None? then r.None? else r == Some(p.value.0) && reader.rest == p.value.1
  {
    var key := ReadStringValue(reader);
    if key.None? {
      return None;
    }
    if key.value == "redis-ver" {
      var v := ReadStringValue(reader);
      return if v.None? then None else Some(meta.(version := v.value));
    }
    if key.value == "aof-base" {
      reader.Discard(2);
      return Some(meta);
    }
    if key.value != "ctime" && key.value != "redis-bits" && key.value != "used-mem" {
      return None;
    }
    reader.Discard(1);
    if key.value == "redis-bits" {
      var b, eof := reader.ReadByte();
      return if eof || b as int != 64 then None else Some(meta.(bits := 64));
    }
    var n := ReadUintValue(reader, 4);
    if n.None? {
      return None;
    }
    r := Some(if key.value == "ctime" then meta.(ctime := n.value) else meta.(usedMem := n.value));
  }

  /** One entry of a database: the expiry if the byte ahead announces one, then type, key and value. */
  method ReadKey(reader: Reader, db: Db) returns (r: Option<Db>)
    modifies reader
    ensures var p := ReadEntry(old(reader.rest), db);
            if p.None? then r.None? else r == Some(p.value.0) && reader.rest == p.value.1
  {
    var c := reader.Peek(1);
    if |c| == 0 {
      return None;
    }
    var expiry: Option<nat> := None;
    if c[0] == EXPIRY_MS || c[0] == EXPIRY_S {
      reader.Discard(1);
      expiry := ReadUintValue(reader, if c[0] == EXPIRY_MS then 8 else 4);
      if expiry.None? {
        return None;
      }
    }
    var t, eof := reader.ReadByte();
    if eof {
      return None;
    }
    var key := ReadStringValue(reader);
    if key.None? || t != '\0' {
      return None;
    }
    var val := ReadStringValue(reader);
    if val.None? {
      return None;
    }
    r := Some(Store(db, expiry, key.value, val.value));
  }

  method ReadDatabase(reader: Reader) returns (r: Option<Db>)
    modifies reader
    ensures var p := ReadDb(old(reader.rest));
            if p.None? then r.None? else r == Some(p.value.0) && reader.rest == p.value.1
  {
    ghost var s := reader.rest;
    var head := reader.Read(4);
    if |head| < 4 {
      return None;
    }
    assert reader.rest == s[4..] && head == s[..4];
    if head[1] != TABLE_INFO {
      return None;
    }
    var db := Db(map[], map[]);
    var left := head[2] as int;
    ghost var whole := ReadEntries(left, reader.rest, db);
    while left > 0
      invariant 0 <= left
      invariant whole == ReadEntries(left, reader.rest, db)
    {
      ghost var m: nat := left - 1;
      EntriesStep(left, m, reader.rest, db);
      var next := ReadKey(reader, db);
      if next.None? {
        return None;
      }
      db, left := next.value, left - 1;
      assert left == m;
    }
    r := Some(db);
  }

  method ReadRdbFromFile(reader: Reader) returns (r: Option<Contents>)
    modifies reader
    ensures r == ReadFile(old(reader.rest))
  {
    reader.Discard(9);
    assert reader.rest == Skip(9, old(reader.rest));
    var result := EMPTY;
    ghost var whole := ReadSections(reader.rest, result);
    while true
      invariant whole == ReadSections(reader.rest, result)
      decreases |reader.rest|
    {
      var c, eof := reader.ReadByte();
      if eof {
        return Some(result);
      }
      if c == METADATA {
        var meta := ReadMetadata(reader, result.meta);
        if meta.None? {
          return None;
        }
        result := result.(meta := meta.value);
      } else if c == DATABASE {
        var db := ReadDatabase(reader);
        if db.None? {
          return None;
        }
        result := result.(dbs := result.dbs + [db.value]);
      } else if c == END_OF_FILE {
        var checksum := reader.Read(8);
        return if |checksum| == 0 then None else Some(result);
      } else {
        return None;
      }
    }
  }
}
