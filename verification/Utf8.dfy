/** UTF-8 as `std::str::from_utf8` checks it: the well-formed byte sequences of the Unicode Standard,
    Table 3-7. */
module Utf8 {
  import opened Base

  type Byte = b: int | 0 <= b < 0x100

  predicate Cont(b: Byte) {
    0x80 <= b <= 0xBF
  }

  /** How long the first character is, if the bytes start with a well-formed one. */
  function FirstLength(bs: seq<Byte>): (n: nat)
    ensures n <= |bs|
  {
    if bs == [] then 0
    else if bs[0] <= 0x7F then 1
    else if 0xC2 <= bs[0] <= 0xDF then (if |bs| >= 2 && Cont(bs[1]) then 2 else 0)
    else if 0xE0 <= bs[0] <= 0xEF then
      (if && |bs| >= 3 && Cont(bs[1]) && Cont(bs[2])
          && (bs[0] == 0xE0 ==> bs[1] >= 0xA0) && (bs[0] == 0xED ==> bs[1] <= 0x9F) then 3 else 0)
    else if 0xF0 <= bs[0] <= 0xF4 then
      (if && |bs| >= 4 && Cont(bs[1]) && Cont(bs[2]) && Cont(bs[3])
          && (bs[0] == 0xF0 ==> bs[1] >= 0x90) && (bs[0] == 0xF4 ==> bs[1] <= 0x8F) then 4 else 0)
    else 0
  }

  function FirstChar(bs: seq<Byte>): char
    requires FirstLength(bs) > 0
  {
    var n, a: int := FirstLength(bs), bs[0];
    var b: int, c: int, d: int :=
      if n > 1 then bs[1] - 0x80 else 0, if n > 2 then bs[2] - 0x80 else 0, if n > 3 then bs[3] - 0x80 else 0;
    (if n == 1 then a
     else if n == 2 then (a - 0xC0) * 0x40 + b
     else if n == 3 then (a - 0xE0) * 0x1000 + b * 0x40 + c
     else (a - 0xF0) * 0x40000 + b * 0x1000 + c * 0x40 + d) as char
  }

  function Decode(bs: seq<Byte>): Option<string>
    decreases |bs|
  {
    if bs == [] then Some("")
    else if FirstLength(bs) == 0 then None
    else
      var rest := Decode(bs[FirstLength(bs)..]);
      if rest.None? then None else Some([FirstChar(bs)] + rest.value)
  }

  /** A well-formed beginning is read the same whatever follows. */
  lemma FirstLengthExtend(a: seq<Byte>, b: seq<Byte>)
    requires FirstLength(a) > 0
    ensures FirstLength(a + b) == FirstLength(a) && FirstChar(a + b) == FirstChar(a)
  {
  }

  lemma {:induction false} DecodeJoin(a: seq<Byte>, b: seq<Byte>)
    requires Decode(a).Some?
    ensures Decode(a + b) == if Decode(b).Some? then Some(Decode(a).value + Decode(b).value) else None
    decreases |a|
  {
    hide FirstLength, FirstChar;
    if a == [] {
      assert a + b == b;
      if Decode(b).Some? {
        assert "" + Decode(b).value == Decode(b).value;
      }
    } else {
      var n := FirstLength(a);
      FirstLengthExtend(a, b);
      assert a + b != [] && (a + b)[n..] == a[n..] + b;
      DecodeJoin(a[n..], b);
      if Decode(b).Some? {
        var c, x, y := FirstChar(a), Decode(a[n..]).value, Decode(b).value;
        assert [c] + (x + y) == ([c] + x) + y;
      }
    }
  }

  /** A character never runs on into an ASCII byte. */
  lemma AsciiBoundary(a: seq<Byte>, b: seq<Byte>)
    requires a != [] && (b == [] || b[0] <= 0x7F) && FirstLength(a + b) > 0
    ensures FirstLength(a) == FirstLength(a + b)
  {
    var n := FirstLength(a + b);
    if n > |a| {
      assert (a + b)[|a|] == b[0];
    }
  }

  /** Cutting well-formed bytes before an ASCII byte leaves well-formed bytes on both sides. */
  lemma {:induction false} DecodeCut(a: seq<Byte>, b: seq<Byte>)
    requires Decode(a + b).Some? && (b == [] || b[0] <= 0x7F)
    ensures Decode(a).Some? && Decode(b).Some?
    ensures Decode(a + b).value == Decode(a).value + Decode(b).value
    decreases |a|
  {
    hide FirstLength, FirstChar;
    if a == [] {
      assert a + b == b;
    } else {
      AsciiBoundary(a, b);
      var n := FirstLength(a);
      FirstLengthExtend(a, b);
      assert (a + b)[n..] == a[n..] + b;
      DecodeCut(a[n..], b);
      DecodeJoin(a, b);
    }
  }

  lemma DecodeAscii(b: Byte)
    requires b <= 0x7F
    ensures Decode([b]) == Some([b as char])
  {
    assert [b][1..] == [];
    assert FirstLength([b]) == 1 && FirstChar([b]) == b as char;
    assert Decode([b][1..]) == Some("");
    assert [b as char] + "" == [b as char];
  }

  /** The only byte that decodes to an ASCII character is that character. */
  lemma {:induction false} DecodeHasAscii(bs: seq<Byte>, c: Byte)
    requires Decode(bs).Some? && c <= 0x7F
    ensures c in bs <==> c as char in Decode(bs).value
    decreases |bs|
  {
    if bs != [] {
      var n := FirstLength(bs);
      DecodeHasAscii(bs[n..], c);
      assert bs == bs[..n] + bs[n..];
      FirstAscii(bs, c);
    }
  }

  lemma FirstAscii(bs: seq<Byte>, c: Byte)
    requires FirstLength(bs) > 0 && c <= 0x7F
    ensures c in bs[..FirstLength(bs)] <==> FirstChar(bs) == c as char
  {
  }

  // ---------------------------------------------------------------------------------------------
  // Encoding
  // ---------------------------------------------------------------------------------------------

  function EncodeChar(c: char): seq<Byte> {
    var n := c as int;
    var n1 := n / 0x40;
    var n2 := n1 / 0x40;
    if n < 0x80 then [n]
    else if n < 0x800 then [0xC0 + n1, 0x80 + n % 0x40]
    else if n < 0x10000 then [0xE0 + n2, 0x80 + n1 % 0x40, 0x80 + n % 0x40]
    else [0xF0 + n2 / 0x40, 0x80 + n2 % 0x40, 0x80 + n1 % 0x40, 0x80 + n % 0x40]
  }

  lemma EncodeCharLength(c: char)
    ensures FirstLength(EncodeChar(c)) == |EncodeChar(c)| > 0
    ensures c as int > 0x7F ==> forall b <- EncodeChar(c) :: b > 0x7F
  {
    hide FirstChar;
  }

  lemma EncodeCharDecodes(c: char)
    requires FirstLength(EncodeChar(c)) == |EncodeChar(c)| > 0
    ensures FirstChar(EncodeChar(c)) == c
  {
    hide FirstLength;
  }

  function Encode(s: string): seq<Byte> {
    if s == "" then [] else EncodeChar(s[0]) + Encode(s[1..])
  }

  lemma {:induction false} EncodeJoin(a: string, b: string)
    ensures Encode(a + b) == Encode(a) + Encode(b)
  {
    if a == "" {
      assert a + b == b;
    } else {
      assert (a + b)[1..] == a[1..] + b;
      EncodeJoin(a[1..], b);
    }
  }

  lemma {:induction false} DecodeEncode(s: string)
    ensures Decode(Encode(s)) == Some(s)
  {
    hide FirstLength, FirstChar, EncodeChar;
    if s != "" {
      var first, rest := EncodeChar(s[0]), Encode(s[1..]);
      DecodeEncode(s[1..]);
      EncodeCharLength(s[0]);
      EncodeCharDecodes(s[0]);
      FirstLengthExtend(first, rest);
      assert (first + rest)[|first|..] == rest;
      assert s == [s[0]] + s[1..];
    }
  }

  lemma EncodeFirst(bs: seq<Byte>)
    requires FirstLength(bs) > 0
    ensures EncodeChar(FirstChar(bs)) == bs[..FirstLength(bs)]
  {
    FirstLengthRange(bs);
    hide FirstLength, FirstChar, EncodeChar;
    if FirstLength(bs) == 2 {
      EncodeTwo(bs);
    } else if FirstLength(bs) == 3 {
      EncodeThree(bs);
    } else if FirstLength(bs) == 4 {
      EncodeFour(bs);
    } else {
      EncodeOne(bs);
    }
  }

  lemma FirstLengthRange(bs: seq<Byte>)
    ensures FirstLength(bs) <= 4
  {
  }

  lemma EncodeOne(bs: seq<Byte>)
    requires FirstLength(bs) == 1
    ensures EncodeChar(FirstChar(bs)) == bs[..1]
  {
  }

  lemma EncodeTwo(bs: seq<Byte>)
    requires FirstLength(bs) == 2
    ensures EncodeChar(FirstChar(bs)) == bs[..2]
  {
    var a: int, b := bs[0] - 0xC0, bs[1] - 0x80;
    SplitBits(a * 0x40 + b, a, b);
  }

  lemma EncodeThree(bs: seq<Byte>)
    requires FirstLength(bs) == 3
    ensures EncodeChar(FirstChar(bs)) == bs[..3]
  {
    var a: int, b, c := bs[0] - 0xE0, bs[1] - 0x80, bs[2] - 0x80;
    SplitBits((a * 0x40 + b) * 0x40 + c, a * 0x40 + b, c);
    SplitBits(a * 0x40 + b, a, b);
  }

  lemma EncodeFour(bs: seq<Byte>)
    requires FirstLength(bs) == 4
    ensures EncodeChar(FirstChar(bs)) == bs[..4]
  {
    var a: int, b, c, d := bs[0] - 0xF0, bs[1] - 0x80, bs[2] - 0x80, bs[3] - 0x80;
    var high := a * 0x40 + b;
    SplitBits((high * 0x40 + c) * 0x40 + d, high * 0x40 + c, d);
    SplitBits(high * 0x40 + c, high, c);
    SplitBits(high, a, b);
  }

  lemma SplitBits(n: int, high: int, low: int)
    requires n == high * 0x40 + low && 0 <= low < 0x40 && high >= 0
    ensures n / 0x40 == high && n % 0x40 == low
  {
  }

  /** Bytes decode to a string exactly when they are its encoding. */
  lemma {:induction false} DecodeExact(bs: seq<Byte>, s: string)
    ensures Decode(bs) == Some(s) <==> bs == Encode(s)
    decreases |bs|
  {
    hide FirstLength, FirstChar, EncodeChar;
    DecodeEncode(s);
    if bs != [] && FirstLength(bs) > 0 && s != "" {
      var n := FirstLength(bs);
      EncodeFirst(bs);
      DecodeExact(bs[n..], s[1..]);
      assert bs == bs[..n] + bs[n..] && s == [s[0]] + s[1..];
    }
  }

  /** An ASCII character has a byte of its own: no other character's encoding contains it. */
  lemma {:induction false} EncodeHasAscii(s: string, c: char)
    requires c as int <= 0x7F
    ensures c as int in Encode(s) <==> c in s
  {
    if s != "" {
      EncodeHasAscii(s[1..], c);
      EncodeCharLength(s[0]);
      assert s == [s[0]] + s[1..];
    }
  }
}
