/**
  The parts of Go's `strings` and `strconv` packages that both servers use.

  A Go string is a sequence of bytes; here one `char` stands for one byte.
*/
module GoStrings {
  const MAX_INT: int := 0x7FFF_FFFF_FFFF_FFFF
  const MIN_INT: int := -0x8000_0000_0000_0000
  const MAX_UINT: int := 0xFFFF_FFFF_FFFF_FFFF

  /** The value a 64-bit signed addition leaves when its true result is `n`. */
  function Wrap(n: int): (w: int)
    ensures MIN_INT <= w <= MAX_INT
    ensures MIN_INT <= n <= MAX_INT ==> w == n
  {
    (n - MIN_INT) % (MAX_UINT + 1) + MIN_INT
  }

  // ----- strings.ToLower, on ASCII letters

  function LowerChar(c: char): char {
    if 'A' <= c <= 'Z' then (c as int + 32) as char else c
  }

  function Lower(s: string): (t: string)
    ensures |t| == |s|
    ensures forall i :: 0 <= i < |s| ==> t[i] == LowerChar(s[i])
  {
    seq(|s|, i requires 0 <= i < |s| => LowerChar(s[i]))
  }

  lemma {:induction false} LowerIdempotent(s: string)
    ensures Lower(Lower(s)) == Lower(s)
  {
  }

  lemma {:induction false} LowerLetters()
    ensures Lower("ABCDEFGHIJKLMNOPQRSTUVWXYZ") == "abcdefghijklmnopqrstuvwxyz"
  {
  }

  lemma {:induction false} LowerOther(s: string)
    requires forall i :: 0 <= i < |s| ==> s[i] < 'A' || 'Z' < s[i]
    ensures Lower(s) == s
  {
  }

  lemma {:induction false} LowerConcat(a: string, b: string)
    ensures Lower(a + b) == Lower(a) + Lower(b)
  {
  }

  // ----- finding and cutting at a byte

  /** The position of the first `c`, or the length of a string without one. */
  function IndexOf(s: string, c: char): (i: nat)
    ensures i <= |s|
  {
    if s == "" || s[0] == c then 0 else 1 + IndexOf(s[1..], c)
  }

  lemma {:induction false} IndexOfIsFirst(s: string, c: char)
    ensures forall k :: 0 <= k < IndexOf(s, c) ==> s[k] != c
    ensures IndexOf(s, c) < |s| ==> s[IndexOf(s, c)] == c
  {
    if s != "" && s[0] != c {
      IndexOfIsFirst(s[1..], c);
      assert forall k :: 0 < k < |s| ==> s[k] == s[1..][k - 1];
    }
  }

  lemma {:induction false} IndexOfExact(a: string, c: char, rest: string)
    requires c !in a
    ensures IndexOf(a + [c] + rest, c) == |a|
    ensures IndexOf(a, c) == |a|
  {
    var s := a + [c] + rest;
    if a != "" {
      assert s[1..] == a[1..] + [c] + rest;
      IndexOfExact(a[1..], c, rest);
    }
  }

  /** The first part of strings.Split(s, sep). */
  function Before(s: string, sep: char): string {
    s[..IndexOf(s, sep)]
  }

  /** What follows the first separator, from which the other parts of the split come. */
  function Beyond(s: string, sep: char): Option<string> {
    var i := IndexOf(s, sep);
    if i < |s| then Some(s[i + 1..]) else None
  }

  datatype Option<+T> = None | Some(value: T)

  lemma {:induction false} CutExact(a: string, sep: char, rest: string)
    requires sep !in a
    ensures Before(a + [sep] + rest, sep) == a && Beyond(a + [sep] + rest, sep) == Some(rest)
    ensures Before(a, sep) == a && Beyond(a, sep) == None
  {
    IndexOfExact(a, sep, rest);
    var s := a + [sep] + rest;
    assert s[..|a|] == a && s[|a| + 1..] == rest;
  }

  lemma {:induction false} BeforeIsFree(s: string, sep: char)
    ensures sep !in Before(s, sep)
  {
    IndexOfIsFirst(s, sep);
  }

  // ----- strconv.Itoa and strconv.Atoi

  function DigitChar(d: nat): char
    requires d < 10
  {
    ('0' as int + d) as char
  }

  predicate IsDigit(c: char) {
    '0' <= c <= '9'
  }

  function Digits(n: nat): (s: string)
    ensures s != ""
    ensures forall i :: 0 <= i < |s| ==> IsDigit(s[i])
  {
    if n < 10 then [DigitChar(n)] else Digits(n / 10) + [DigitChar(n % 10)]
  }

  function Itoa(n: int): (s: string)
    ensures s != ""
    ensures forall i :: 0 <= i < |s| ==> IsDigit(s[i]) || s[i] == '-'
  {
    if n < 0 then "-" + Digits(-n) else Digits(n)
  }

  /**
    What strconv.Atoi gives: a number, or an error that still carries a value.
    A syntax error carries 0, a range error the nearest 64-bit number.
  */
  datatype Number = Good(n: int) | Syntax | Range(nearest: int) {
    predicate Err() { !Good? }

    function Val(): int {
      match this
      case Good(n) => n
      case Syntax => 0
      case Range(v) => v
    }
  }

  /** strconv.ParseUint in base 10: the first bad character or the first overflow decides. */
  function ScanUint(s: string, acc: nat): (r: Number)
    ensures r.Good? ==> 0 <= r.n
    ensures r.Good? && acc <= MAX_UINT ==> r.n <= MAX_UINT
  {
    if s == "" then Good(acc)
    else if !IsDigit(s[0]) then Syntax
    else
      var v := acc * 10 + (s[0] as int - '0' as int);
      if v > MAX_UINT then Range(MAX_UINT) else ScanUint(s[1..], v)
  }

  function Atoi(s: string): (r: Number)
    ensures MIN_INT <= r.Val() <= MAX_INT
    ensures s == "" || s[0] != '-' ==> 0 <= r.Val()
  {
    if s == "" then Syntax
    else
      var neg := s[0] == '-';
      var body := if neg || s[0] == '+' then s[1..] else s;
      if body == "" then Syntax
      else
        match ScanUint(body, 0)
        case Syntax => Syntax
        case Range(_) => Range(if neg then MIN_INT else MAX_INT)
        case Good(u) =>
          if !neg && u > MAX_INT then Range(MAX_INT)
          else if neg && -u < MIN_INT then Range(MIN_INT)
          else Good(if neg then -u else u)
  }

  /** Scanning printed digits reaches the number they print, or overflows exactly when it is too big. */
  lemma {:induction false} ScanDigits(n: nat, rest: string)
    ensures ScanUint(Digits(n) + rest, 0) == if n <= MAX_UINT then ScanUint(rest, n) else Range(MAX_UINT)
  {
    var s := Digits(n) + rest;
    if n < 10 {
      assert s[1..] == rest;
    } else {
      var last := [DigitChar(n % 10)] + rest;
      assert s == Digits(n / 10) + last;
      ScanDigits(n / 10, last);
      assert last[1..] == rest;
    }
  }

  /** Decimal print and parse are inverse on exactly the 64-bit integers. */
  lemma {:induction false} AtoiItoa(n: int)
    ensures Atoi(Itoa(n)) ==
            if n < MIN_INT then Range(MIN_INT) else if n > MAX_INT then Range(MAX_INT) else Good(n)
  {
    var d := Digits(if n < 0 then -n else n);
    ScanDigits(if n < 0 then -n else n, "");
    assert d + "" == d;
    if n < 0 {
      assert Itoa(n)[1..] == d;
    } else {
      assert IsDigit(Itoa(n)[0]);
    }
  }

  lemma {:induction false} ItoaInjective(m: int, n: int)
    requires MIN_INT <= m <= MAX_INT && MIN_INT <= n <= MAX_INT
    requires Itoa(m) == Itoa(n)
    ensures m == n
  {
    AtoiItoa(m);
    AtoiItoa(n);
  }

  // ----- what strconv.Atoi reads, by the value of the digits

  predicate AllDigits(s: string) {
    forall i :: 0 <= i < |s| ==> IsDigit(s[i])
  }

  function DigitsValue(s: string): nat
    requires AllDigits(s)
  {
    if s == "" then 0
    else
      assert IsDigit(s[|s| - 1]);
      10 * DigitsValue(s[..|s| - 1]) + (s[|s| - 1] as int - '0' as int)
  }

  function Unsigned(s: string): string {
    if s != "" && (s[0] == '-' || s[0] == '+') then s[1..] else s
  }

  /** An optional sign and at least one digit, and nothing else. */
  predicate IsNumeral(s: string) {
    Unsigned(s) != "" && AllDigits(Unsigned(s))
  }

  function NumeralValue(s: string): int
    requires IsNumeral(s)
  {
    var v: int := DigitsValue(Unsigned(s));
    if s[0] == '-' then -v else v
  }

  lemma {:induction false} ScanSnoc(s: string, c: char, acc: nat)
    ensures ScanUint(s + [c], acc) == match ScanUint(s, acc) case Good(v) => ScanUint([c], v) case other => other
  {
    if s == "" {
      assert s + [c] == [c];
    } else if IsDigit(s[0]) {
      assert (s + [c])[1..] == s[1..] + [c];
      var v := acc * 10 + (s[0] as int - '0' as int);
      if v <= MAX_UINT {
        ScanSnoc(s[1..], c, v);
      }
    }
  }

  lemma {:induction false} ScanIsValue(s: string)
    ensures AllDigits(s) ==> ScanUint(s, 0) == if DigitsValue(s) <= MAX_UINT then Good(DigitsValue(s)) else Range(MAX_UINT)
    ensures !AllDigits(s) ==> ScanUint(s, 0) == Syntax || ScanUint(s, 0) == Range(MAX_UINT)
  {
    if s != "" {
      var before, c := s[..|s| - 1], s[|s| - 1];
      ScanIsValue(before);
      ScanSnoc(before, c, 0);
      assert s == before + [c];
      assert [c][1..] == "";
      assert IsDigit(c) ==> ScanUint([c], 0) == ScanUint("", c as int - '0' as int);
    }
  }

  /**
    Atoi reads exactly the numerals whose value fits into 64 bits, and as that value. A numeral beyond
    them is a range error with the nearest bound, and what is no numeral is an error.
  */
  lemma {:induction false} AtoiIsValue(s: string)
    ensures IsNumeral(s) ==>
              var v := NumeralValue(s);
              Atoi(s) == if v < MIN_INT then Range(MIN_INT) else if v > MAX_INT then Range(MAX_INT) else Good(v)
    ensures !IsNumeral(s) ==> Atoi(s).Err()
    ensures Unsigned(s) == "" || !IsDigit(Unsigned(s)[0]) ==> Atoi(s) == Syntax
  {
    ScanIsValue(Unsigned(s));
  }

  // ----- joining pieces written one after the other

  function Flatten(parts: seq<string>): string {
    if parts == [] then "" else parts[0] + Flatten(parts[1..])
  }

  lemma {:induction false} FlattenConcat(a: seq<string>, b: seq<string>)
    ensures Flatten(a + b) == Flatten(a) + Flatten(b)
  {
    if a == [] {
      assert a + b == b;
    } else {
      assert (a + b)[1..] == a[1..] + b;
      FlattenConcat(a[1..], b);
    }
  }

  /** The library result types of this model: a value, an error, the end of the input, or a Go panic. */
  datatype Result<+T> = Ok(value: T) | Eof | Error | Panic
}
