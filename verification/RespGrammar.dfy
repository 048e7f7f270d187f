/** What the RESP lexer and parser do to a stream of bytes, and what their byte counter measures. */
module RespGrammar {
  import opened GoStrings
  import opened Bufio
  import opened Resp

  datatype TokenType = SimpleToken | ErrorToken | BulkToken | ArrayToken | IntegerToken | NullToken | BoolToken

  datatype Token = Token(kind: TokenType, value: string)

  /** What one call does to a stream: its result, what it leaves, and by how much ByteCounter grows. */
  datatype Step<+T> = Step(res: Result<T>, rest: string, count: nat)

  /**
    A step that succeeds, or leaves bytes behind it, counts exactly the bytes it takes. Only a failing
    step at the end of the stream is off: by the byte that was not there, or by a read that came up short.
  */
  ghost predicate Accounted<T>(s: string, p: Step<T>) {
    && |p.rest| <= |s|
    && (p.res.Ok? || p.rest != "" ==> p.count == |s| - |p.rest|)
    && (p.res.Eof? ==> p.rest == "" && p.count == |s| + 1)
    && p.count <= |s| - |p.rest| + 1
  }

  // ----- lexer.go

  function Kind(c: char): (r: Result<TokenType>)
    ensures r.Ok? || r.Error?
  {
    if c == '+' then Ok(SimpleToken)
    else if c == '-' then Ok(ErrorToken)
    else if c == '$' then Ok(BulkToken)
    else if c == '*' then Ok(ArrayToken)
    else if c == ':' then Ok(IntegerToken)
    else if c == '_' then Ok(NullToken)
    else if c == '#' then Ok(BoolToken)
    else Error
  }

  /** A line without its last two bytes, whatever these are; Go panics on a shorter line. */
  function LineValue(s: string): Step<string> {
    var n := LineLen(s, '\n');
    var line := s[..n];
    Step(if |line| < 2 then Panic else Ok(line[..|line| - 2]), s[n..], |line|)
  }

  /** The byte counter moves even when there is no byte to read. */
  function NextToken(s: string): (p: Step<Token>)
    ensures Accounted(s, p)
    ensures 0 < p.count
    ensures p.res.Eof? <==> s == ""
    ensures s != "" ==> |p.rest| < |s|
  {
    if s == "" then Step(Eof, "", 1)
    else
      match Kind(s[0])
      case Ok(NullToken) => Step(Ok(Token(NullToken, "")), s[1..], 1)
      case Ok(kind) =>
        var line := LineValue(s[1..]);
        var res := if line.res.Ok? then Ok(Token(kind, line.res.value)) else Panic;
        Step(res, line.rest, 1 + line.count)
      case _ => Step(Error, s[1..], 1)
  }

  /** ConsumeBytes: a negative count panics, a short read fails with its bytes taken but not counted. */
  function ConsumeBytes(s: string, n: int): Step<string> {
    if n < 0 then Step(Panic, s, 0)
    else if n <= |s| then Step(Ok(s[..n]), s[n..], n)
    else Step(Error, "", 0)
  }

  /** The CRLF behind a bulk string is taken when it is there and forgiven when it is not. */
  function CrlfLen(s: string): (n: nat)
    ensures n <= |s|
  {
    if |s| >= 2 && s[0] == '\r' && s[1] == '\n' then 2 else 0
  }

  // ----- parser.go

  /** Parse as a function of the bytes ahead. It ends because every token takes a byte. */
  function Parse(s: string): (p: Step<Resp>)
    ensures Accounted(s, p)
    ensures 0 < p.count
    ensures s != "" ==> |p.rest| < |s|
    decreases |s|, 0
  {
    var t := NextToken(s);
    match t.res
    case Eof => Step(Eof, t.rest, t.count)
    case Error => Step(Error, t.rest, t.count)
    case Panic => Step(Panic, t.rest, t.count)
    case Ok(token) =>
      match token.kind
      case SimpleToken => Step(Ok(Simple(token.value)), t.rest, t.count)
      case BulkToken =>
        var p := ParseBulkString(token.value, t.rest);
        Step(p.res, p.rest, t.count + p.count)
      case ArrayToken =>
        var p := ParseArray(token.value, t.rest);
        Step(p.res, p.rest, t.count + p.count)
      case _ => Step(Error, t.rest, t.count)
  }

  function ParseBulkString(header: string, s: string): (p: Step<Resp>)
    ensures Accounted(s, p) && !p.res.Eof?
  {
    match Atoi(header)
    case Good(n) =>
      var b := ConsumeBytes(s, n);
      if b.res.Ok? then
        var crlf := CrlfLen(b.rest);
        Step(Ok(Bulk(b.res.value)), b.rest[crlf..], b.count + crlf)
      else Step(if b.res.Panic? then Panic else Error, b.rest, b.count)
    case _ => Step(Error, s, 0)
  }

  function ParseArray(header: string, s: string): (p: Step<Resp>)
    ensures Accounted(s, p)
    decreases |s|, 2
  {
    match Atoi(header)
    case Good(n) =>
      if n < 0 then Step(Panic, s, 0)
      else
        var p := ParseElements(n, s);
        Step(match p.res
             case Ok(es) => Ok(Arr(es))
             case Eof => Eof
             case Error => Error
             case Panic => Panic, p.rest, p.count)
    case _ => Step(Error, s, 0)
  }

  /** The element loop: the first element that fails ends it, and its error is passed on as it is. */
  function ParseElements(n: nat, s: string): (p: Step<seq<Resp>>)
    ensures Accounted(s, p)
    ensures p.res.Ok? ==> |p.res.value| == n
    decreases |s|, 1, n
  {
    if n == 0 then Step(Ok([]), s, 0)
    else
      var first := Parse(s);
      match first.res
      case Eof => Step(Eof, first.rest, first.count)
      case Error => Step(Error, first.rest, first.count)
      case Panic => Step(Panic, first.rest, first.count)
      case Ok(e) =>
        Cons(e, first.count, ParseElements(n - 1, first.rest))
  }

  /** One element in front of a step that reads the others. */
  function Cons(e: Resp, count: nat, more: Step<seq<Resp>>): Step<seq<Resp>> {
    Step(if more.res.Ok? then Ok([e] + more.res.value) else more.res, more.rest, count + more.count)
  }

  lemma {:induction false} ElementsStep(n: nat, m: nat, s: string)
    requires n == m + 1
    ensures var first := Parse(s);
            ParseElements(n, s) ==
            match first.res
            case Ok(e) => Cons(e, first.count, ParseElements(m, first.rest))
            case Eof => Step(Eof, first.rest, first.count)
            case Error => Step(Error, first.rest, first.count)
            case Panic => Step(Panic, first.rest, first.count)
  {
    assert ParseElements(m + 1, s) == ParseElements(n, s);
  }

  /** The element loop part-way: `acc` is read, `taken` bytes are counted, `p` is still to come. */
  function Resume(acc: seq<Resp>, taken: nat, p: Step<seq<Resp>>): Step<seq<Resp>> {
    Step(if p.res.Ok? then Ok(acc + p.res.value) else p.res, p.rest, taken + p.count)
  }

  /** `whole` is what the element loop will have done once it ends. */
  ghost predicate LoopAt(whole: Step<seq<Resp>>, acc: seq<Resp>, taken: nat, left: nat, s: string) {
    whole == Resume(acc, taken, ParseElements(left, s))
  }

  lemma {:induction false} LoopElement(whole: Step<seq<Resp>>, acc: seq<Resp>, taken: nat, left: nat, s: string,
                    taken': nat, left': nat)
    requires left == left' + 1 && LoopAt(whole, acc, taken, left, s)
    requires taken' == taken + Parse(s).count
    ensures var first := Parse(s);
            match first.res
            case Ok(e) => LoopAt(whole, acc + [e], taken', left', first.rest)
            case Eof => whole == Step(Eof, first.rest, taken')
            case Error => whole == Step(Error, first.rest, taken')
            case Panic => whole == Step(Panic, first.rest, taken')
  {
    ElementsStep(left, left', s);
    var first := Parse(s);
    if first.res.Ok? {
      var more := ParseElements(left', first.rest).res;
      if more.Ok? {
        assert acc + ([first.res.value] + more.value) == acc + [first.res.value] + more.value;
      }
    }
  }

  // ----- the parser undoes the serializer

  lemma {:induction false} TokenOfLine(kind: char, line: string, rest: string)
    requires kind in "+-$*:#" && '\n' !in line
    ensures NextToken([kind] + line + CRLF + rest) ==
            Step(Ok(Token(Kind(kind).value, line)), rest, |line| + 3)
  {
    var s := [kind] + line + CRLF + rest;
    var tail := (line + "\r") + ['\n'] + rest;
    assert s[1..] == tail;
    LineLenExact(line + "\r", '\n', rest);
    assert tail[..|line| + 2][..|line|] == line;
    assert tail[|line| + 2..] == rest;
  }

  /** The integers and errors that are replies: the lexer reads their text back, to the last byte. */
  lemma {:induction false} IntegerIsRead(n: int, rest: string)
    ensures Encode(Int(n)) == ":" + Itoa(n) + "\r\n"
    ensures NextToken(Encode(Int(n)) + rest) == Step(Ok(Token(IntegerToken, Itoa(n))), rest, |Encode(Int(n))|)
    ensures MIN_INT <= n <= MAX_INT ==> Atoi(Itoa(n)) == Good(n)
  {
    TokenOfLine(':', Itoa(n), rest);
    assert Encode(Int(n)) + rest == [':'] + Itoa(n) + CRLF + rest;
    AtoiItoa(n);
  }

  lemma {:induction false} ErrorIsRead(m: string, rest: string)
    requires '\n' !in m
    ensures Encode(Err(m)) == "-" + m + "\r\n"
    ensures NextToken(Encode(Err(m)) + rest) == Step(Ok(Token(ErrorToken, m)), rest, |Encode(Err(m))|)
  {
    TokenOfLine('-', m, rest);
    assert Encode(Err(m)) + rest == ['-'] + m + CRLF + rest;
  }

  /** The kind of token that each first byte stands for, and the line as its text. */
  lemma {:induction false} TokenKinds(kind: char, line: string, rest: string)
    requires kind in "+-$*:#" && '\n' !in line
    ensures NextToken([kind] + line + CRLF + rest) ==
            Step(Ok(Token(if kind == '+' then SimpleToken else if kind == '-' then ErrorToken
                          else if kind == '$' then BulkToken else if kind == '*' then ArrayToken
                          else if kind == ':' then IntegerToken else BoolToken, line)), rest, |line| + 3)
  {
    TokenOfLine(kind, line, rest);
  }

  /** A null has no text and no line of its own. */
  lemma {:induction false} NullIsBare(rest: string)
    ensures NextToken("_" + rest) == Step(Ok(Token(NullToken, "")), rest, 1)
  {
    assert ("_" + rest)[1..] == rest;
  }

  // ----- what the parser does not take

  /** Errors, integers and booleans are refused with their line taken. */
  lemma {:induction false} OtherValuesAreRefused(kind: char, line: string, rest: string)
    requires '\n' !in line && kind in "-:#"
    ensures Parse([kind] + line + "\r\n" + rest) == Step(Error, rest, |line| + 3)
  {
    TokenOfLine(kind, line, rest);
  }

  /** A null, and any byte that no value begins with, is refused with that byte. */
  lemma {:induction false} OtherBytesAreRefused(c: char, rest: string)
    requires c != '+' && c != '-' && c != '$' && c != '*' && c != ':' && c != '#'
    ensures Parse([c] + rest) == Step(Error, rest, 1)
  {
    var s := [c] + rest;
    assert s[1..] == rest && s[0] == c;
    assert Kind(c) == Ok(NullToken) || Kind(c) == Error;
    assert NextToken(s) == Step(if c == '_' then Ok(Token(NullToken, "")) else Error, rest, 1);
  }

  /** A negative count panics. */
  lemma {:induction false} NegativeCountPanics(kind: char, n: int, rest: string)
    requires kind in "$*" && MIN_INT <= n < 0
    ensures Parse([kind] + Itoa(n) + "\r\n" + rest) == Step(Panic, rest, |Itoa(n)| + 3)
  {
    TokenOfLine(kind, Itoa(n), rest);
    AtoiItoa(n);
  }

  /** A count that is no 64-bit number is an error behind its line. */
  lemma {:induction false} UnreadableCountFails(kind: char, line: string, rest: string)
    requires kind in "$*" && '\n' !in line && Atoi(line).Err()
    ensures Parse([kind] + line + "\r\n" + rest) == Step(Error, rest, |line| + 3)
  {
    TokenOfLine(kind, line, rest);
  }

  /** The last two bytes of a line go, whatever the first of them is; a line of one byte panics. */
  lemma {:induction false} LineLosesTwo(line: string, a: char, rest: string)
    requires '\n' !in line && a != '\n'
    ensures Parse("+" + line + [a] + "\n" + rest) == Step(Ok(Simple(line)), rest, |line| + 3)
    ensures Parse("+" + "\n" + rest).res.Panic? && Parse("+").res.Panic?
  {
    var s := "+" + line + [a] + "\n" + rest;
    var tail := (line + [a]) + ['\n'] + rest;
    assert s[1..] == tail;
    LineLenExact(line + [a], '\n', rest);
    assert tail[..|line| + 2][..|line|] == line && tail[|line| + 2..] == rest;
    var t := "" + ['\n'] + rest;
    assert ("+" + "\n" + rest)[1..] == t;
    LineLenExact("", '\n', rest);
  }

  /** A bulk string is taken by its count; a CRLF behind it is taken with it, and anything else stays. */
  lemma {:induction false} BulkWithoutCrlf(c: string, rest: string)
    requires |c| <= MAX_INT && !(|rest| >= 2 && rest[0] == '\r' && rest[1] == '\n')
    ensures Parse("$" + Itoa(|c|) + "\r\n" + (c + rest)) == Step(Ok(Bulk(c)), rest, |Itoa(|c|)| + 3 + |c|)
  {
    var body := c + rest;
    assert "$" + Itoa(|c|) + "\r\n" + body == ['$'] + Itoa(|c|) + CRLF + body;
    TokenOfCount('$', |c|, body);
    BareBody(c, rest, Itoa(|c|));
  }

  lemma {:induction false} BareBody(c: string, rest: string, header: string)
    requires !(|rest| >= 2 && rest[0] == '\r' && rest[1] == '\n') && Atoi(header) == Good(|c|)
    ensures ParseBulkString(header, c + rest) == Step(Ok(Bulk(c)), rest, |c|)
  {
    var body := c + rest;
    assert body[..|c|] == c && body[|c|..] == rest;
    assert rest[0..] == rest;
  }

  /** A bulk string that is cut short is an error, with what there is of it taken but not counted. */
  lemma {:induction false} ShortBulkFails(c: string, n: nat)
    requires |c| < n <= MAX_INT
    ensures Parse("$" + Itoa(n) + "\r\n" + c) == Step(Error, "", |Itoa(n)| + 3)
  {
    assert "$" + Itoa(n) + "\r\n" + c == ['$'] + Itoa(n) + CRLF + c;
    TokenOfCount('$', n, c);
  }

  /** The header of a counted value is read back as its count. */
  lemma {:induction false} TokenOfCount(kind: char, n: nat, rest: string)
    requires kind in "$*"
    ensures NextToken([kind] + Itoa(n) + CRLF + rest) ==
            Step(Ok(Token(Kind(kind).value, Itoa(n))), rest, |Itoa(n)| + 3)
    ensures Atoi(Itoa(n)) == if n <= MAX_INT then Good(n) else Range(MAX_INT)
  {
    TokenOfLine(kind, Itoa(n), rest);
    AtoiItoa(n);
  }

  lemma {:induction false} ReadBulkBody(c: string, rest: string)
    requires 0 < |c| <= MAX_INT
    ensures ParseBulkString(Itoa(|c|), c + CRLF + rest) == Step(Ok(Bulk(c)), rest, |c| + 2)
  {
    AtoiItoa(|c|);
    var body := c + CRLF + rest;
    var tail := CRLF + rest;
    assert body[..|c|] == c;
    assert body[|c|..] == tail;
    assert tail[2..] == rest;
  }

  /** Written and read back: the value, the bytes behind it, and the exact count. */
  lemma {:induction false} RoundTrip(v: Resp, rest: string)
    requires Readable(v)
    ensures Parse(Encode(v) + rest) == Step(Ok(v), rest, |Encode(v)|)
    decreases v, 1
  {
    match v {
      case Simple(s) =>
        assert Encode(v) + rest == ['+'] + s + CRLF + rest;
        TokenOfLine('+', s, rest);
      case Bulk(c) =>
        BulkHeader(c, rest);
        ReadBulkBody(c, rest);
      case Arr(es) =>
        RoundTripAll(es, rest);
        ArrayHeader(es, rest);
        ReadArrayBody(es, EncodeAll(es) + rest);
    }
  }

  lemma {:induction false} BulkHeader(c: string, rest: string)
    requires c != ""
    ensures var p := ParseBulkString(Itoa(|c|), c + CRLF + rest);
            Parse(Encode(Bulk(c)) + rest) == Step(p.res, p.rest, |Itoa(|c|)| + 3 + p.count)
  {
    var body := c + CRLF + rest;
    assert Encode(Bulk(c)) + rest == ['$'] + Itoa(|c|) + CRLF + body;
    TokenOfCount('$', |c|, body);
  }

  lemma {:induction false} ArrayHeader(es: seq<Resp>, rest: string)
    ensures var q := ParseArray(Itoa(|es|), EncodeAll(es) + rest);
            Parse(Encode(Arr(es)) + rest) == Step(q.res, q.rest, |Itoa(|es|)| + 3 + q.count)
  {
    var body := EncodeAll(es) + rest;
    assert Encode(Arr(es)) + rest == ['*'] + Itoa(|es|) + CRLF + body;
    TokenOfCount('*', |es|, body);
  }

  lemma {:induction false} ReadArrayBody(es: seq<Resp>, s: string)
    ensures var p := ParseArray(Itoa(|es|), s);
            var q := ParseElements(|es|, s);
            if |es| > MAX_INT then p.res.Error?
            else
              && (p.res.Ok? <==> q.res.Ok?) && (p.res.Panic? <==> q.res.Panic?)
              && (q.res.Ok? ==> p == Step(Ok(Arr(q.res.value)), q.rest, q.count))
  {
    AtoiItoa(|es|);
  }

  lemma {:induction false} RoundTripAll(es: seq<Resp>, rest: string)
    requires forall e :: e in es ==> Readable(e)
    ensures ParseElements(|es|, EncodeAll(es) + rest) == Step(Ok(es), rest, |EncodeAll(es)|)
    decreases es, 0
  {
    if es == [] {
      assert EncodeAll(es) + rest == rest;
    } else {
      var more := EncodeAll(es[1..]) + rest;
      assert EncodeAll(es) + rest == Encode(es[0]) + more;
      RoundTrip(es[0], more);
      RoundTripAll(es[1..], rest);
      ElementsStep(|es|, |es[1..]|, EncodeAll(es) + rest);
      assert es == [es[0]] + es[1..];
    }
  }

  /** Whatever the parser returns has LF-free simple strings, and neither errors nor integers in it. */
  predicate Parsable(v: Resp) {
    match v
    case Simple(s) => '\n' !in s
    case Bulk(c) => |c| <= MAX_INT
    case Arr(es) => |es| <= MAX_INT && forall e :: e in es ==> Parsable(e)
    case Err(_) => false
    case Int(_) => false
  }

  lemma {:induction false} TokenHasNoLf(s: string)
    ensures NextToken(s).res.Ok? ==> '\n' !in NextToken(s).res.value.value
  {
    if s != "" {
      IndexOfIsFirst(s[1..], '\n');
    }
  }

  lemma {:induction false} ParsedIsParsable(s: string)
    ensures Parse(s).res.Ok? ==> Parsable(Parse(s).res.value)
    decreases |s|, 0
  {
    var t := NextToken(s);
    TokenHasNoLf(s);
    if t.res.Ok? && t.res.value.kind.ArrayToken? && !Atoi(t.res.value.value).Err() && Atoi(t.res.value.value).n >= 0 {
      ElementsAreParsable(Atoi(t.res.value.value).n, t.rest);
    }
  }

  lemma {:induction false} ElementsAreParsable(n: nat, s: string)
    ensures ParseElements(n, s).res.Ok? ==> forall e :: e in ParseElements(n, s).res.value ==> Parsable(e)
    decreases |s|, 1, n
  {
    if n > 0 {
      ParsedIsParsable(s);
      if Parse(s).res.Ok? {
        var m := n - 1;
        ElementsStep(n, m, s);
        ElementsAreParsable(m, Parse(s).rest);
      }
    }
  }

  /** The null bulk string that stands for an empty one has a negative count, on which the parser panics. */
  lemma {:induction false} EmptyBulkPanics(rest: string)
    ensures Parse(Encode(Bulk("")) + rest).res.Panic?
  {
    assert Encode(Bulk("")) + rest == ['$'] + "-1" + CRLF + rest;
    TokenOfLine('$', "-1", rest);
    AtoiItoa(-1);
    assert Itoa(-1) == "-1";
  }

  /** A value comes back exactly when it is readable: nothing narrower would do. */
  lemma {:induction false} RoundTripIff(v: Resp, rest: string)
    ensures Parse(Encode(v) + rest).res == Ok(v) <==> Readable(v)
    decreases v, 1
  {
    if Readable(v) {
      RoundTrip(v, rest);
    } else if v == Bulk("") {
      EmptyBulkPanics(rest);
    } else if v.Arr? {
      RoundTripAllIff(v.elements, rest);
      ArrayHeader(v.elements, rest);
      ReadArrayBody(v.elements, EncodeAll(v.elements) + rest);
    } else {
      ParsedIsParsable(Encode(v) + rest);
    }
  }

  /** A value that could have been parsed, but is not readable, makes the parser panic: it holds an empty string. */
  lemma {:induction false} UnreadablePanics(v: Resp, rest: string)
    requires Parsable(v) && !Readable(v)
    ensures Parse(Encode(v) + rest).res.Panic?
    decreases v, 1
  {
    if v.Arr? {
      UnreadableElementPanics(v.elements, rest);
      ArrayHeader(v.elements, rest);
      ReadArrayBody(v.elements, EncodeAll(v.elements) + rest);
    } else {
      EmptyBulkPanics(rest);
    }
  }

  /** The elements before the first unreadable one are read; that one ends it. */
  lemma {:induction false} UnreadableElementPanics(es: seq<Resp>, rest: string)
    requires forall e :: e in es ==> Parsable(e)
    requires exists e :: e in es && !Readable(e)
    ensures ParseElements(|es|, EncodeAll(es) + rest).res.Panic?
    decreases es, 0
  {
    var more, tail := EncodeAll(es[1..]) + rest, es[1..];
    assert EncodeAll(es) + rest == Encode(es[0]) + more;
    ElementsStep(|es|, |tail|, EncodeAll(es) + rest);
    if Readable(es[0]) {
      RoundTrip(es[0], more);
      var e :| e in es && !Readable(e);
      assert e in tail;
      UnreadableElementPanics(tail, rest);
    } else {
      UnreadablePanics(es[0], more);
    }
  }

  lemma {:induction false} RoundTripAllIff(es: seq<Resp>, rest: string)
    ensures ParseElements(|es|, EncodeAll(es) + rest).res == Ok(es) <==> forall e :: e in es ==> Readable(e)
    decreases es, 0
  {
    if es != [] {
      var more, tail := EncodeAll(es[1..]) + rest, es[1..];
      assert EncodeAll(es) + rest == Encode(es[0]) + more;
      RoundTripIff(es[0], more);
      if Readable(es[0]) {
        RoundTrip(es[0], more);
        RoundTripAllIff(tail, rest);
      }
      ElementsStep(|es|, |tail|, EncodeAll(es) + rest);
      if Parse(Encode(es[0]) + more).res.Ok? {
        ConsIff(es, Parse(Encode(es[0]) + more), |tail|);
      }
      assert es == [es[0]] + tail;
    }
  }

  /** An element in front: the list comes back exactly when the element and then the others do. */
  lemma {:induction false} ConsIff(es: seq<Resp>, first: Step<Resp>, m: nat)
    requires es != [] && first.res.Ok?
    ensures var more := ParseElements(m, first.rest);
            Cons(first.res.value, first.count, more).res == Ok(es) <==>
            first.res.value == es[0] && more.res == Ok(es[1..])
  {
    var more := ParseElements(m, first.rest);
    if more.res.Ok? {
      var all := [first.res.value] + more.res.value;
      assert all[0] == first.res.value && all[1..] == more.res.value;
      assert es == [es[0]] + es[1..];
    }
  }

  /** No encoding of a readable value is a prefix of another's, so a stream of them splits one way only. */
  lemma {:induction false} PrefixFree(v: Resp, w: Resp, tail: string)
    requires Readable(v) && Readable(w)
    requires Encode(v) + tail == Encode(w)
    ensures v == w && tail == ""
  {
    RoundTrip(v, tail);
    RoundTrip(w, "");
    assert Encode(w) + "" == Encode(w);
  }
}
