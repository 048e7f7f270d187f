/** RESP values and the bytes each one is written as. */
module Resp {
  import opened GoStrings

  datatype Resp =
    | Simple(value: string)
    | Err(message: string)
    | Bulk(content: string)
    | Arr(elements: seq<Resp>)
    | Int(n: int)

  const CRLF := "\r\n"

  /** AsRespString of every value type. An empty bulk string is written as the null bulk string. */
  function Encode(v: Resp): (s: string)
    ensures s != ""
    decreases v, 1
  {
    match v
    case Simple(s) => "+" + s + CRLF
    case Err(m) => "-" + m + CRLF
    case Bulk(c) => if |c| == 0 then "$-1" + CRLF else "$" + Itoa(|c|) + CRLF + c + CRLF
    case Int(n) => ":" + Itoa(n) + CRLF
    case Arr(es) => "*" + Itoa(|es|) + CRLF + EncodeAll(es)
  }

  function EncodeAll(vs: seq<Resp>): string
    decreases vs, 0
  {
    if vs == [] then "" else Encode(vs[0]) + EncodeAll(vs[1..])
  }

  lemma {:induction false} EncodeThree(a: Resp, b: Resp, c: Resp)
    ensures Encode(Arr([a, b, c])) == "*" + Itoa(3) + CRLF + (Encode(a) + (Encode(b) + Encode(c)))
  {
    EncodeTwo(b, c);
    assert [a, b, c][1..] == [b, c];
  }

  lemma {:induction false} EncodeTwo(a: Resp, b: Resp)
    ensures EncodeAll([a, b]) == Encode(a) + Encode(b)
    ensures Encode(Arr([a, b])) == "*" + Itoa(2) + CRLF + (Encode(a) + Encode(b))
  {
    assert [a, b][1..] == [b] && [b][1..] == [];
    assert EncodeAll([b]) == Encode(b) + EncodeAll([]);
    assert Encode(b) + "" == Encode(b);
  }

  /** RespArray.AsRespString, which fills a builder element by element. */
  method ArrayAsRespString(elements: seq<Resp>) returns (s: string)
    ensures s == Encode(Arr(elements))
  {
    s := "*" + Itoa(|elements|) + CRLF;
    for i := 0 to |elements|
      invariant s + EncodeAll(elements[i..]) == Encode(Arr(elements))
    {
      assert elements[i..][1..] == elements[i + 1..];
      s := s + Encode(elements[i]);
    }
  }

  /** NewRespArrStringFromRespStrings: an array reply from replies that are already encoded. */
  method ArrayFromRespStrings(items: seq<string>) returns (s: string)
    ensures s == JoinReplies(items)
  {
    s := "*" + Itoa(|items|) + CRLF;
    for i := 0 to |items|
      invariant s + Flatten(items[i..]) == JoinReplies(items)
    {
      assert items[i..][1..] == items[i + 1..];
      s := s + items[i];
    }
  }

  function JoinReplies(items: seq<string>): string {
    "*" + Itoa(|items|) + CRLF + Flatten(items)
  }

  /** Joining encoded values as strings is encoding the array of the values. */
  lemma {:induction false} JoinIsArray(items: seq<string>, vs: seq<Resp>)
    requires |items| == |vs|
    requires forall i :: 0 <= i < |vs| ==> items[i] == Encode(vs[i])
    ensures Flatten(items) == EncodeAll(vs)
    ensures JoinReplies(items) == Encode(Arr(vs))
  {
    if vs != [] {
      JoinIsArray(items[1..], vs[1..]);
    }
  }

  /** The values that survive being written and read back. */
  predicate Readable(v: Resp) {
    match v
    case Simple(s) => '\n' !in s
    case Bulk(c) => 0 < |c| <= MAX_INT
    case Arr(es) => |es| <= MAX_INT && forall e :: e in es ==> Readable(e)
    case Err(_) => false
    case Int(_) => false
  }

  // ----- resp_helpers.go

  const OK_RESPONSE := Simple("OK")

  function PSyncResponse(replId: string, offset: int): Resp {
    Simple("FULLRESYNC " + replId + " " + Itoa(offset))
  }

  function AckResponse(offset: int): Resp {
    Arr([Bulk("REPLCONF"), Bulk("ACK"), Bulk(Itoa(offset))])
  }
}
