/** The HTTP route table: patterns are cut into segments, and requested paths are matched against them. */
module Router {
  import opened GoStrings
  import opened Bufio

  datatype PathSegment = PathSegment(part: string, isVar: bool)

  // ----- cutting a path

  /** What is left when one slash in front is taken away. */
  function Unslashed(s: string): string {
    if s != "" && s[0] == '/' then s[1..] else s
  }

  function Rest(s: string): string {
    match Beyond(Unslashed(s), '/')
    case None => ""
    case Some(more) => more
  }

  lemma {:induction false} RestIsShorter(s: string)
    requires s != ""
    ensures |Rest(s)| < |s|
  {
  }

  /** The parts of a path: between one optional slash in front and the next slash or the end, again and again. */
  function Tokens(s: string): seq<string>
    decreases |s|
  {
    if s == "" then []
    else
      RestIsShorter(s);
      [Before(Unslashed(s), '/')] + Tokens(Rest(s))
  }

  // ----- patterns

  predicate Braced(part: string) {
    |part| > 1 && part[0] == '{' && part[|part| - 1] == '}'
  }

  function Segment(part: string): PathSegment {
    if Braced(part) then PathSegment(part[1..|part| - 1], true) else PathSegment(Lower(part), false)
  }

  function Segments(parts: seq<string>): (ss: seq<PathSegment>)
    ensures |ss| == |parts|
    ensures forall i :: 0 <= i < |parts| ==> ss[i] == Segment(parts[i])
  {
    seq(|parts|, i requires 0 <= i < |parts| => Segment(parts[i]))
  }

  function GetPathSegments(route: string): seq<PathSegment> {
    Segments(Tokens(route))
  }

  // ----- matching

  /** As many parts as segments, and every literal segment equal to its part. */
  predicate Agrees(parts: seq<string>, segments: seq<PathSegment>) {
    |parts| == |segments| && forall i :: 0 <= i < |parts| ==> segments[i].isVar || parts[i] == segments[i].part
  }

  /** The variables in order, a later one of the same name replacing an earlier one. */
  function Bind(parts: seq<string>, segments: seq<PathSegment>, params: map<string, string>): map<string, string>
    requires |parts| <= |segments|
    decreases |parts|
  {
    if parts == [] then params
    else Bind(parts[1..], segments[1..], if segments[0].isVar then params[segments[0].part := parts[0]] else params)
  }

  function MatchParts(parts: seq<string>, segments: seq<PathSegment>): (bool, map<string, string>) {
    if Agrees(parts, segments) then (true, Bind(parts, segments, map[])) else (false, map[])
  }

  /** Reads one part off the reader, as both loops do. */
  method ReadPart(reader: Reader) returns (part: string)
    modifies reader
    ensures part == Before(Unslashed(old(reader.rest)), '/')
    ensures reader.rest == Rest(old(reader.rest))
  {
    var c := reader.Peek(1);
    if |c| > 0 && c[0] == '/' {
      reader.Discard(1);
    }
    ghost var s := reader.rest;
    assert s == Unslashed(old(reader.rest));
    IndexOfIsFirst(s, '/');
    var line := reader.ReadString('/');
    part := if line != "" && line[|line| - 1] == '/' then line[..|line| - 1] else line;
    TrimmedLine(s);
  }

  /** A line up to a slash, without the slash it may end in. */
  lemma {:induction false} TrimmedLine(s: string)
    ensures var line := s[..LineLen(s, '/')];
            (if line != "" && line[|line| - 1] == '/' then line[..|line| - 1] else line) == Before(s, '/')
  {
    IndexOfIsFirst(s, '/');
    var i, line := IndexOf(s, '/'), s[..LineLen(s, '/')];
    if i < |s| {
      assert |line| == i + 1 && line[i] == '/';
      assert line[..i] == s[..i];
    } else {
      assert line == s && s[..i] == s;
    }
  }

  /** The parts seen so far agree with the first segments, and `params` binds their variables. */
  ghost predicate Matched(seen: seq<string>, segments: seq<PathSegment>, params: map<string, string>) {
    && |seen| <= |segments|
    && (forall i :: 0 <= i < |seen| ==> segments[i].isVar || seen[i] == segments[i].part)
    && params == Bind(seen, segments, map[])
  }

  lemma {:induction false} MatchedMore(seen: seq<string>, segments: seq<PathSegment>, params: map<string, string>, got: string)
    requires Matched(seen, segments, params) && |seen| < |segments|
    requires segments[|seen|].isVar || got == segments[|seen|].part
    ensures var expected := segments[|seen|];
            Matched(seen + [got], segments, if expected.isVar then params[expected.part := got] else params)
  {
    BindOneMore(seen, got, segments, map[]);
  }

  lemma {:induction false} Disagrees(parts: seq<string>, segments: seq<PathSegment>, i: nat)
    requires |parts| != |segments| || (i < |parts| && !segments[i].isVar && parts[i] != segments[i].part)
    ensures MatchParts(parts, segments) == (false, map[])
  {
  }

  /** match: the loop stops at the first literal that differs, at the end of the segments, or of the path. */
  method Match(route: string, segments: seq<PathSegment>) returns (ok: bool, params: map<string, string>)
    ensures (ok, params) == MatchParts(Tokens(Lower(route)), segments)
  {
    var reader := new Reader(Lower(route));
    params := map[];
    var n := 0;
    ghost var parts := Tokens(Lower(route));
    ghost var seen: seq<string> := [];
    while true
      invariant n == |seen| && Matched(seen, segments, params)
      invariant parts == seen + Tokens(reader.rest)
      decreases |reader.rest|
    {
      var c := reader.Peek(1);
      ghost var s := reader.rest;
      if n == |segments| {
        if c == "" {
          assert parts == seen;
          return true, params;
        }
        OnePart(parts, seen, s, Before(Unslashed(s), '/'));
        Disagrees(parts, segments, 0);
        return false, map[];
      }
      if c == "" {
        assert parts == seen;
        Disagrees(parts, segments, 0);
        return false, map[];
      }
      OnePart(parts, seen, s, Before(Unslashed(s), '/'));
      var expected := segments[n];
      var got := ReadPart(reader);
      if !expected.isVar && got != expected.part {
        Disagrees(parts, segments, n);
        return false, map[];
      }
      MatchedMore(seen, segments, params, got);
      if expected.isVar {
        params := params[expected.part := got];
      }
      seen := seen + [got];
      n := n + 1;
    }
  }

  lemma {:induction false} BindOneMore(parts: seq<string>, part: string, segments: seq<PathSegment>, params: map<string, string>)
    requires |parts| < |segments|
    ensures var seg := segments[|parts|];
            Bind(parts + [part], segments, params) ==
            if seg.isVar then Bind(parts, segments, params)[seg.part := part] else Bind(parts, segments, params)
    decreases |parts|
  {
    if parts == [] {
      assert [] + [part] == [part] && [part][1..] == [];
    } else {
      assert (parts + [part])[1..] == parts[1..] + [part];
      var seg := segments[0];
      BindOneMore(parts[1..], part, segments[1..], if seg.isVar then params[seg.part := parts[0]] else params);
    }
  }

  lemma {:induction false} SegmentsAppend(parts: seq<string>, part: string)
    ensures Segments(parts + [part]) == Segments(parts) + [Segment(part)]
  {
  }

  /** The loop that has `seen` parts and `s` to go takes one more part. */
  lemma {:induction false} OnePart(parts: seq<string>, seen: seq<string>, s: string, part: string)
    requires s != "" && parts == seen + Tokens(s) && part == Before(Unslashed(s), '/')
    ensures |Rest(s)| < |s|
    ensures parts == seen + [part] + Tokens(Rest(s))
    ensures |seen| < |parts| && parts[|seen|] == part
  {
    RestIsShorter(s);
    assert Tokens(s) == [part] + Tokens(Rest(s));
  }

  method GetSegments(route: string) returns (segments: seq<PathSegment>)
    ensures segments == GetPathSegments(route)
  {
    var reader := new Reader(route);
    segments := [];
    ghost var parts := Tokens(route);
    ghost var seen: seq<string> := [];
    while true
      invariant parts == seen + Tokens(reader.rest)
      invariant segments == Segments(seen)
      decreases |reader.rest|
    {
      var c := reader.Peek(1);
      if c == "" {
        assert parts == seen;
        return;
      }
      ghost var s := reader.rest;
      var part := ReadPart(reader);
      OnePart(parts, seen, s, part);
      SegmentsAppend(seen, part);
      segments, seen := segments + [Segment(part)], seen + [part];
    }
  }

  // ----- filling a pattern

  /** A piece of a pattern: a fixed text or a named place. */
  datatype Piece = Fixed(text: string) | Place(name: string)

  /** Texts are non-empty, have no slash, and do not look like a place; names have no slash. */
  predicate Writable(p: Piece) {
    match p
    case Fixed(text) => text != "" && '/' !in text && !Braced(text)
    case Place(name) => '/' !in name
  }

  function Written(p: Piece): string {
    match p
    case Fixed(text) => text
    case Place(name) => "{" + name + "}"
  }

  function Pattern(pieces: seq<Piece>): seq<string> {
    seq(|pieces|, i requires 0 <= i < |pieces| => Written(pieces[i]))
  }

  /** The path that a pattern becomes with a value for each piece; the values of fixed texts are not used. */
  function Filled(pieces: seq<Piece>, values: seq<string>): seq<string>
    requires |values| == |pieces|
  {
    seq(|pieces|, i requires 0 <= i < |pieces| => if pieces[i].Fixed? then pieces[i].text else values[i])
  }

  function Joined(parts: seq<string>): string {
    if parts == [] then "" else ['/'] + parts[0] + Joined(parts[1..])
  }

  predicate Plain(part: string) {
    part != "" && '/' !in part
  }

  /** Cutting undoes joining. */
  lemma {:induction false} TokensOfJoined(parts: seq<string>)
    requires forall i :: 0 <= i < |parts| ==> Plain(parts[i])
    ensures Tokens(Joined(parts)) == parts
    decreases |parts|
  {
    if parts != [] {
      var p, more := parts[0], Joined(parts[1..]);
      var s := Joined(parts);
      assert Plain(p);
      assert s[1..] == p + more;
      CutJoined(p, parts[1..]);
      TokensOfJoined(parts[1..]);
      assert parts == [p] + parts[1..];
    }
  }

  /** The slash in front can be left out. */
  lemma {:induction false} SlashInFront(parts: seq<string>, bare: string)
    requires parts != [] && forall i :: 0 <= i < |parts| ==> Plain(parts[i])
    requires bare == parts[0] + Joined(parts[1..])
    ensures Joined(parts) == ['/'] + bare && Tokens(bare) == parts
  {
    assert Plain(parts[0]);
    TokensOfJoined(parts);
    SameUnslashed(bare);
  }

  /** A slash behind makes no difference, with the one in front or without. */
  lemma {:induction false} SlashBehind(parts: seq<string>, bare: string)
    requires parts != [] && forall i :: 0 <= i < |parts| ==> Plain(parts[i])
    requires bare == parts[0] + Joined(parts[1..])
    ensures Tokens(bare + "/") == parts && Tokens(['/'] + (bare + "/")) == parts
    decreases |parts|
  {
    var p, tail := parts[0], parts[1..];
    assert Plain(p) && parts == [p] + tail;
    if tail == [] {
      assert bare + "/" == p + ['/'] + "";
      OneToken(p, "");
      assert Tokens("") == [];
    } else {
      var more := tail[0] + Joined(tail[1..]);
      assert bare + "/" == p + ['/'] + (more + "/");
      OneToken(p, more + "/");
      SlashBehind(tail, more);
    }
    SameUnslashed(bare + "/");
  }

  lemma {:induction false} OneToken(p: string, rest: string)
    requires Plain(p)
    ensures Tokens(p + ['/'] + rest) == [p] + Tokens(rest)
  {
    CutExact(p, '/', rest);
    assert p[0] in p && (p + ['/'] + rest)[0] == p[0];
  }

  lemma {:induction false} SameUnslashed(s: string)
    requires s != "" && s[0] != '/'
    ensures Tokens(['/'] + s) == Tokens(s)
  {
    assert (['/'] + s)[1..] == s;
  }

  /** The root has one empty part, and the empty path none. */
  lemma {:induction false} RootPath()
    ensures Tokens("/") == [""] && Tokens("") == []
  {
    assert "/"[1..] == "";
  }

  /** Two slashes in a row enclose an empty part. */
  lemma {:induction false} EmptyPart(rest: string)
    ensures Tokens("//" + rest) == [""] + Tokens(rest)
  {
    assert ("//" + rest)[1..] == "" + ['/'] + rest;
    CutExact("", '/', rest);
  }

  /** A part stops at the slash in front of the next one; that slash is taken with it. */
  lemma {:induction false} CutJoined(p: string, parts: seq<string>)
    requires Plain(p)
    ensures Before(p + Joined(parts), '/') == p
    ensures Beyond(p + Joined(parts), '/') == if parts == [] then None else Some(parts[0] + Joined(parts[1..]))
  {
    if parts == [] {
      assert p + Joined(parts) == p;
      CutExact(p, '/', "");
    } else {
      var more := parts[0] + Joined(parts[1..]);
      assert p + Joined(parts) == p + ['/'] + more;
      CutExact(p, '/', more);
    }
  }

  // ----- the matcher and the pattern compiler agree

  lemma {:induction false} LowerJoined(parts: seq<string>)
    ensures Lower(Joined(parts)) == Joined(LowerAll(parts))
  {
    if parts != [] {
      LowerConcat(['/'] + parts[0], Joined(parts[1..]));
      LowerConcat(['/'], parts[0]);
      LowerJoined(parts[1..]);
      assert LowerAll(parts)[1..] == LowerAll(parts[1..]);
      assert Lower(['/']) == ['/'];
    }
  }

  function LowerAll(parts: seq<string>): seq<string> {
    seq(|parts|, i requires 0 <= i < |parts| => Lower(parts[i]))
  }

  lemma {:induction false} LowerPlain(part: string)
    requires Plain(part)
    ensures Plain(Lower(part))
  {
    forall i | 0 <= i < |part|
      ensures Lower(part)[i] != '/'
    {
      assert part[i] != '/';
    }
  }

  /** A place compiles to a variable of its name, a fixed text to its lower-case literal. */
  lemma {:induction false} SegmentOfWritten(p: Piece)
    requires Writable(p)
    ensures Segment(Written(p)) ==
            match p case Fixed(text) => PathSegment(Lower(text), false) case Place(name) => PathSegment(name, true)
    ensures Plain(Written(p))
  {
    if p.Place? {
      var w := Written(p);
      assert w[1..|w| - 1] == p.name;
    }
  }

  predicate DistinctNames(pieces: seq<Piece>) {
    forall i, j :: 0 <= i < j < |pieces| && pieces[i].Place? && pieces[j].Place? ==> pieces[i].name != pieces[j].name
  }

  lemma {:induction false} BindOther(parts: seq<string>, segments: seq<PathSegment>, params: map<string, string>, name: string)
    requires |parts| <= |segments|
    requires forall i :: 0 <= i < |parts| ==> !(segments[i].isVar && segments[i].part == name)
    ensures var m := Bind(parts, segments, params);
            (name in m <==> name in params) && (name in m ==> m[name] == params[name])
    decreases |parts|
  {
    if parts != [] {
      assert !(segments[0].isVar && segments[0].part == name);
      BindOther(parts[1..], segments[1..], if segments[0].isVar then params[segments[0].part := parts[0]] else params, name);
    }
  }

  lemma {:induction false} BindFound(parts: seq<string>, segments: seq<PathSegment>, params: map<string, string>, i: nat)
    requires i < |parts| <= |segments| && segments[i].isVar
    requires forall j :: i < j < |parts| ==> !(segments[j].isVar && segments[j].part == segments[i].part)
    ensures var m := Bind(parts, segments, params); segments[i].part in m && m[segments[i].part] == parts[i]
    decreases |parts|
  {
    var params' := if segments[0].isVar then params[segments[0].part := parts[0]] else params;
    if i == 0 {
      BindOther(parts[1..], segments[1..], params', segments[0].part);
    } else {
      var k := i - 1;
      BindFound(parts[1..], segments[1..], params', k);
    }
  }

  /** A variable that does not come again further on. */
  predicate IsLastPlace(segments: seq<PathSegment>, i: nat)
    requires i < |segments|
  {
    segments[i].isVar && forall j :: i < j < |segments| ==> segments[j] != segments[i]
  }

  /**
    A route matches exactly when its parts agree with the segments in number and in every literal. Each
    variable is then bound to the part at its last place, and nothing else is bound.
  */
  lemma {:induction false} MatchesIff(route: string, segments: seq<PathSegment>)
    ensures var (ok, params) := MatchParts(Tokens(Lower(route)), segments);
            && (ok <==> |Tokens(Lower(route))| == |segments| &&
                        forall i :: 0 <= i < |segments| && !segments[i].isVar ==>
                          Tokens(Lower(route))[i] == segments[i].part)
            && (!ok ==> params == map[])
            && (ok ==> forall name :: name in params ==>
                  exists i :: 0 <= i < |segments| && segments[i] == PathSegment(name, true))
            && (ok ==> forall i :: 0 <= i < |segments| && IsLastPlace(segments, i) ==>
                  segments[i].part in params && params[segments[i].part] == Tokens(Lower(route))[i])
  {
    var parts := Tokens(Lower(route));
    if Agrees(parts, segments) {
      var m := Bind(parts, segments, map[]);
      forall name | name in m
        ensures exists i :: 0 <= i < |segments| && segments[i] == PathSegment(name, true)
      {
        if forall i :: 0 <= i < |segments| ==> segments[i] != PathSegment(name, true) {
          BindOther(parts, segments, map[], name);
        }
      }
      forall i | 0 <= i < |segments| && IsLastPlace(segments, i)
        ensures segments[i].part in m && m[segments[i].part] == parts[i]
      {
        forall j | i < j < |parts|
          ensures !(segments[j].isVar && segments[j].part == segments[i].part)
        {
          assert segments[j] != segments[i];
        }
        BindFound(parts, segments, map[], i);
      }
    }
  }

  /**
    Matching inverts filling: a pattern filled with non-empty values without slashes is matched by
    its own segments, in any letter case, and every name is bound to its value in lower case.
  */
  lemma {:induction false} MatchInvertsFilling(pieces: seq<Piece>, values: seq<string>)
    requires |values| == |pieces| && DistinctNames(pieces)
    requires forall i :: 0 <= i < |pieces| ==> Writable(pieces[i]) && (pieces[i].Place? ==> Plain(values[i]))
    ensures var segments := GetPathSegments(Joined(Pattern(pieces)));
            var (ok, params) := MatchParts(Tokens(Lower(Joined(Filled(pieces, values)))), segments);
            && ok
            && (forall i :: 0 <= i < |pieces| && pieces[i].Place? ==>
                  pieces[i].name in params && params[pieces[i].name] == Lower(values[i]))
            && (forall name :: name in params ==> exists i :: 0 <= i < |pieces| && pieces[i] == Place(name))
  {
    var path := Filled(pieces, values);
    var segments, parts := Segments(Pattern(pieces)), LowerAll(path);
    CompilesPattern(pieces);
    CutsFilled(pieces, values);
    FilledAgrees(pieces, values);
    BindsPlaces(pieces, parts, segments);
    BindsOnlyPlaces(pieces, parts, segments);
  }

  lemma {:induction false} CutsFilled(pieces: seq<Piece>, values: seq<string>)
    requires |values| == |pieces|
    requires forall i :: 0 <= i < |pieces| ==> Writable(pieces[i]) && (pieces[i].Place? ==> Plain(values[i]))
    ensures Tokens(Lower(Joined(Filled(pieces, values)))) == LowerAll(Filled(pieces, values))
  {
    var path := Filled(pieces, values);
    forall i | 0 <= i < |path|
      ensures Plain(LowerAll(path)[i])
    {
      LowerPlain(path[i]);
    }
    LowerJoined(path);
    TokensOfJoined(LowerAll(path));
  }

  lemma {:induction false} FilledAgrees(pieces: seq<Piece>, values: seq<string>)
    requires |values| == |pieces|
    requires forall i :: 0 <= i < |pieces| ==> Writable(pieces[i])
    ensures Agrees(LowerAll(Filled(pieces, values)), Segments(Pattern(pieces)))
  {
    forall i | 0 <= i < |pieces|
      ensures var seg := Segments(Pattern(pieces))[i]; seg.isVar || LowerAll(Filled(pieces, values))[i] == seg.part
    {
      SegmentOfWritten(pieces[i]);
    }
  }

  lemma {:induction false} BindsOnlyPlaces(pieces: seq<Piece>, parts: seq<string>, segments: seq<PathSegment>)
    requires |parts| == |segments| == |pieces|
    requires forall i :: 0 <= i < |pieces| ==> Writable(pieces[i]) && segments[i] == Segment(Written(pieces[i]))
    ensures forall name :: name in Bind(parts, segments, map[]) ==> exists i :: 0 <= i < |pieces| && pieces[i] == Place(name)
  {
    forall name | name in Bind(parts, segments, map[])
      ensures exists i :: 0 <= i < |pieces| && pieces[i] == Place(name)
    {
      if forall i :: 0 <= i < |pieces| ==> pieces[i] != Place(name) {
        forall i | 0 <= i < |parts|
          ensures !(segments[i].isVar && segments[i].part == name)
        {
          SegmentOfWritten(pieces[i]);
        }
        BindOther(parts, segments, map[], name);
      }
    }
  }

  lemma {:induction false} CompilesPattern(pieces: seq<Piece>)
    requires forall i :: 0 <= i < |pieces| ==> Writable(pieces[i])
    ensures GetPathSegments(Joined(Pattern(pieces))) == Segments(Pattern(pieces))
  {
    var pattern := Pattern(pieces);
    forall i | 0 <= i < |pattern|
      ensures Plain(pattern[i])
    {
      SegmentOfWritten(pieces[i]);
    }
    TokensOfJoined(pattern);
  }

  lemma {:induction false} BindsPlaces(pieces: seq<Piece>, parts: seq<string>, segments: seq<PathSegment>)
    requires |parts| == |segments| == |pieces| && DistinctNames(pieces)
    requires forall i :: 0 <= i < |pieces| ==> Writable(pieces[i]) && segments[i] == Segment(Written(pieces[i]))
    ensures forall i :: 0 <= i < |pieces| && pieces[i].Place? ==>
              pieces[i].name in Bind(parts, segments, map[]) && Bind(parts, segments, map[])[pieces[i].name] == parts[i]
  {
    forall i | 0 <= i < |pieces|
      ensures segments[i] == match pieces[i] case Fixed(t) => PathSegment(Lower(t), false) case Place(n) => PathSegment(n, true)
    {
      SegmentOfWritten(pieces[i]);
    }
    forall i | 0 <= i < |pieces| && pieces[i].Place?
      ensures pieces[i].name in Bind(parts, segments, map[]) && Bind(parts, segments, map[])[pieces[i].name] == parts[i]
    {
      BindFound(parts, segments, map[], i);
    }
  }
}
