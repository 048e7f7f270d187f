/** The RESP lexer and parser as objects: both advance one shared reader and one byte counter. */
module RespParser {
  import opened GoStrings
  import opened Bufio
  import opened Resp
  import Grammar = RespGrammar

  type Token = Grammar.Token

  class Lexer {
    const reader: Reader
    var byteCounter: nat

    constructor (reader: Reader)
      ensures this.reader == reader && byteCounter == 0
    {
      this.reader := reader;
      byteCounter := 0;
    }

    method NextToken() returns (r: Result<Token>)
      modifies this, reader
      ensures reader.Stream() == old(reader.Stream())
      ensures var p := Grammar.NextToken(old(reader.rest));
              r == p.res && reader.rest == p.rest && byteCounter == old(byteCounter) + p.count
    {
      var next, eof := reader.ReadByte();
      byteCounter := byteCounter + 1;
      if eof {
        return Eof;
      }
      match Grammar.Kind(next)
      case Ok(NullToken) =>
        r := Ok(Grammar.Token(Grammar.NullToken, ""));
      case Ok(kind) =>
        var line := ReadLine();
        r := if line.Ok? then Ok(Grammar.Token(kind, line.value)) else Panic;
      case _ =>
        r := Error;
    }

    method ReadLine() returns (r: Result<string>)
      modifies this, reader
      ensures reader.Stream() == old(reader.Stream())
      ensures r == Grammar.LineValue(old(reader.rest)).res
      ensures reader.rest == Grammar.LineValue(old(reader.rest)).rest
      ensures byteCounter == old(byteCounter) + Grammar.LineValue(old(reader.rest)).count
    {
      var line := reader.ReadString('\n');
      byteCounter := byteCounter + |line|;
      r := if |line| < 2 then Panic else Ok(line[..|line| - 2]);
    }

    /** Takes a CRLF ahead; anything else is an error and stays unread. */
    method ConsumeCrlf() returns (ok: bool)
      modifies this, reader
      ensures reader.Stream() == old(reader.Stream())
      ensures var n := Grammar.CrlfLen(old(reader.rest));
              reader.rest == old(reader.rest)[n..] && byteCounter == old(byteCounter) + n && ok == (n == 2)
    {
      var peeked := reader.Peek(2);
      ok := |peeked| == 2 && peeked[0] == '\r' && peeked[1] == '\n';
      if ok {
        reader.Discard(2);
        byteCounter := byteCounter + 2;
      }
    }

    method ConsumeBytes(count: int) returns (r: Result<string>)
      modifies this, reader
      ensures reader.Stream() == old(reader.Stream())
      ensures var p := Grammar.ConsumeBytes(old(reader.rest), count);
              r == p.res && reader.rest == p.rest && byteCounter == old(byteCounter) + p.count
    {
      if count < 0 {
        return Panic;
      }
      var buf := reader.Read(count);
      if |buf| != count {
        return Error;
      }
      byteCounter := byteCounter + count;
      r := Ok(buf);
    }
  }

  class Parser {
    const lexer: Lexer

    constructor (lexer: Lexer)
      ensures this.lexer == lexer
    {
      this.lexer := lexer;
    }

    function Rest(): string
      reads this, lexer, lexer.reader
    {
      lexer.reader.rest
    }

    method Parse() returns (r: Result<Resp>)
      modifies lexer, lexer.reader
      ensures lexer.reader.Stream() == old(lexer.reader.Stream())
      ensures var p := Grammar.Parse(old(Rest()));
              r == p.res && Rest() == p.rest && lexer.byteCounter == old(lexer.byteCounter) + p.count
      decreases |Rest()|, 0
    {
      var t := lexer.NextToken();
      match t
      case Eof => r := Eof;
      case Error => r := Error;
      case Panic => r := Panic;
      case Ok(token) =>
        match token.kind
        case SimpleToken => r := Ok(Simple(token.value));
        case BulkToken => r := ParseBulkString(token);
        case ArrayToken => r := ParseArray(token);
        case _ => r := Error;
    }

    method ParseBulkString(token: Token) returns (r: Result<Resp>)
      modifies lexer, lexer.reader
      ensures lexer.reader.Stream() == old(lexer.reader.Stream())
      ensures var p := Grammar.ParseBulkString(token.value, old(Rest()));
              r == p.res && Rest() == p.rest && lexer.byteCounter == old(lexer.byteCounter) + p.count
    {
      var count := Atoi(token.value);
      if count.Err() {
        return Error;
      }
      var str := lexer.ConsumeBytes(count.n);
      if !str.Ok? {
        return if str.Panic? then Panic else Error;
      }
      var crlf := lexer.ConsumeCrlf();
      r := Ok(Bulk(str.value));
    }

    method ParseArray(token: Token) returns (r: Result<Resp>)
      modifies lexer, lexer.reader
      ensures lexer.reader.Stream() == old(lexer.reader.Stream())
      ensures var p := Grammar.ParseArray(token.value, old(Rest()));
              r == p.res && Rest() == p.rest && lexer.byteCounter == old(lexer.byteCounter) + p.count
      decreases |Rest()|, 1
    {
      var count := Atoi(token.value);
      if count.Err() {
        return Error;
      }
      if count.n < 0 {
        return Panic;
      }
      var elements := [];
      ghost var whole := Grammar.ParseElements(count.n, Rest());
      assert whole.res.Ok? ==> elements + whole.res.value == whole.res.value;
      ghost var taken: nat, left: nat := 0, count.n;
      var i := 0;
      while i < count.n
        invariant 0 <= i <= count.n && left == count.n - i
        invariant lexer.reader.Stream() == old(lexer.reader.Stream())
        invariant |Rest()| <= |old(Rest())|
        invariant lexer.byteCounter == old(lexer.byteCounter) + taken
        invariant Grammar.LoopAt(whole, elements, taken, left, Rest())
        decreases count.n - i
      {
        ghost var left', taken' := left - 1, taken + Grammar.Parse(Rest()).count;
        Grammar.LoopElement(whole, elements, taken, left, Rest(), taken', left');
        var element := Parse();
        if !element.Ok? {
          return match element case Eof => Eof case Error => Error case _ => Panic;
        }
        elements := elements + [element.value];
        i, taken, left := i + 1, taken', left';
      }
      assert elements + [] == elements;
      r := Ok(Arr(elements));
    }
  }

}
