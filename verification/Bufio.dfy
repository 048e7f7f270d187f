/**
  Go's bufio.Reader over a finite stream of bytes. A read delivers everything
  that is asked for and still there; only the end of the stream cuts it short.
*/
module Bufio {
  import opened GoStrings

  /** How many bytes ReadString(delim) takes: through the first `delim`, or all. */
  function LineLen(s: string, delim: char): (n: nat)
    ensures n <= |s|
    ensures s != "" ==> 0 < n
  {
    var i := IndexOf(s, delim);
    if i < |s| then i + 1 else i
  }

  /** A line that ends in its only delimiter is read whole, whatever follows. */
  lemma {:induction false} LineLenExact(line: string, delim: char, rest: string)
    requires delim !in line
    ensures LineLen(line + [delim] + rest, delim) == |line| + 1
  {
    IndexOfExact(line, delim, rest);
  }

  function Min(a: nat, b: nat): nat {
    if a < b then a else b
  }

  class Reader {
    var rest: string  // the bytes not yet read
    ghost var taken: string  // the bytes read so far

    constructor (data: string)
      ensures rest == data && taken == ""
    {
      rest, taken := data, "";
    }

    /** The whole stream: reading moves bytes from `rest` to `taken` and loses none. */
    ghost function Stream(): string
      reads this
    {
      taken + rest
    }

    method ReadByte() returns (c: char, eof: bool)
      modifies this
      ensures Stream() == old(Stream())
      ensures eof == (old(rest) == "")
      ensures eof ==> rest == ""
      ensures !eof ==> c == old(rest)[0] && rest == old(rest)[1..]
    {
      if rest == "" {
        return '\0', true;
      }
      c, eof := rest[0], false;
      taken, rest := taken + [rest[0]], rest[1..];
    }

    /** The next `n` bytes without taking them; fewer at the end of the stream. */
    method Peek(n: nat) returns (bytes: string)
      ensures bytes == rest[..Min(n, |rest|)]
    {
      bytes := rest[..Min(n, |rest|)];
    }

    method Discard(n: nat)
      modifies this
      ensures Stream() == old(Stream())
      ensures rest == old(rest)[Min(n, |old(rest)|)..]
    {
      var k := Min(n, |rest|);
      taken, rest := taken + rest[..k], rest[k..];
    }

    method Read(n: nat) returns (bytes: string)
      modifies this
      ensures Stream() == old(Stream())
      ensures bytes == old(rest)[..Min(n, |old(rest)|)]
      ensures rest == old(rest)[Min(n, |old(rest)|)..]
    {
      var k := Min(n, |rest|);
      bytes, taken, rest := rest[..k], taken + rest[..k], rest[k..];
    }

    method ReadString(delim: char) returns (line: string)
      modifies this
      ensures Stream() == old(Stream())
      ensures line == old(rest)[..LineLen(old(rest), delim)]
      ensures rest == old(rest)[LineLen(old(rest), delim)..]
    {
      var n := LineLen(rest, delim);
      line, taken, rest := rest[..n], taken + rest[..n], rest[n..];
    }
  }
}
