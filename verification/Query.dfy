/** The query string of a submitted form (crates/savvagent-canvas/src/interceptor.rs), and the decoder of
    `application/x-www-form-urlencoded` that recovers what was encoded. */
module Query {
  import opened Base
  import opened Utf8

  datatype Pair = Pair(name: seq<Byte>, value: seq<Byte>)

  const HEX := "0123456789ABCDEF"

  /** The unreserved characters of section 2.3 of RFC 3986. */
  predicate Unreserved(b: Byte) {
    'A' as int <= b <= 'Z' as int || 'a' as int <= b <= 'z' as int || '0' as int <= b <= '9' as int
    || b == '-' as int || b == '_' as int || b == '.' as int || b == '~' as int
  }

  function EncodedByte(b: Byte): string {
    if Unreserved(b) then [b as char]
    else if b == ' ' as int then "+"
    else ['%', HEX[b / 16], HEX[b % 16]]
  }

  function Encoded(s: seq<Byte>): string {
    if s == [] then "" else Encoded(s[..|s| - 1]) + EncodedByte(s[|s| - 1])
  }

  method PercentEncode(s: seq<Byte>) returns (out: string)
    ensures out == Encoded(s)
  {
    out := "";
    for k := 0 to |s|
      invariant out == Encoded(s[..k])
    {
      assert s[..k + 1][..k] == s[..k];
      var b := s[k];
      if Unreserved(b) {
        out := out + [b as char];
      } else if b == ' ' as int {
        out := out + "+";
      } else {
        out := out + "%";
        out := out + [HEX[b / 16], HEX[b % 16]];
      }
    }
    assert s[..|s|] == s;
  }

  function EncodedPair(p: Pair): string {
    Encoded(p.name) + "=" + Encoded(p.value)
  }

  function Query(pairs: seq<Pair>): string {
    if pairs == [] then ""
    else if |pairs| == 1 then EncodedPair(pairs[0])
    else Query(pairs[..|pairs| - 1]) + "&" + EncodedPair(pairs[|pairs| - 1])
  }

  method EncodeQuery(pairs: seq<Pair>) returns (out: string)
    ensures out == Query(pairs)
  {
    out := "";
    for k := 0 to |pairs|
      invariant out == Query(pairs[..k])
    {
      assert pairs[..k + 1][..k] == pairs[..k];
      var name := PercentEncode(pairs[k].name);
      var value := PercentEncode(pairs[k].value);
      out := (if k == 0 then "" else out + "&") + (name + "=" + value);
      assert k == 0 ==> out == name + "=" + value;
    }
    assert pairs[..|pairs|] == pairs;
  }

  // ---------------------------------------------------------------------------------------------
  // Decoding
  // ---------------------------------------------------------------------------------------------

  function HexValue(c: char): (v: int)
    ensures -1 <= v < 16
  {
    if '0' <= c <= '9' then c as int - '0' as int
    else if 'A' <= c <= 'F' then c as int - 'A' as int + 10
    else if 'a' <= c <= 'f' then c as int - 'a' as int + 10
    else -1
  }

  /** Percent decoding: `+` is a space, `%XX` a byte, every other ASCII character itself. */
  function Decoded(s: string): Option<seq<Byte>> {
    if s == "" then Some([])
    else if s[0] == '%' then
      if |s| < 3 || HexValue(s[1]) < 0 || HexValue(s[2]) < 0 then None
      else Then(HexValue(s[1]) * 16 + HexValue(s[2]), Decoded(s[3..]))
    else if s[0] == '+' then Then(' ' as int, Decoded(s[1..]))
    else if s[0] as int > 0x7F then None
    else Then(s[0] as int, Decoded(s[1..]))
  }

  function Then(b: Byte, rest: Option<seq<Byte>>): Option<seq<Byte>> {
    if rest.None? then None else Some([b] + rest.value)
  }

  predicate IsEquals(c: char) {
    c == '='
  }

  predicate IsAmpersand(c: char) {
    c == '&'
  }

  function DecodedPair(piece: string): Option<Pair> {
    var n := Until(piece, IsEquals);
    var name, value := Decoded(piece[..n]), Decoded(if n == |piece| then "" else piece[n + 1..]);
    if name.None? || value.None? then None else Some(Pair(name.value, value.value))
  }

  /** Splitting at every `&`, empty pieces aside, and each piece at its first `=`. */
  function DecodedQuery(s: string): Option<seq<Pair>>
    decreases |s|
  {
    if s == "" then Some([])
    else
      var n := Until(s, IsAmpersand);
      var rest := DecodedQuery(if n == |s| then "" else s[n + 1..]);
      var first := DecodedPair(s[..n]);
      if n == 0 then rest
      else if first.None? || rest.None? then None
      else Some([first.value] + rest.value)
  }

  lemma {:induction false} EncodedFirst(s: seq<Byte>)
    ensures s != [] ==> Encoded(s) == EncodedByte(s[0]) + Encoded(s[1..])
  {
    hide EncodedByte;
    if |s| == 1 {
      assert s[..0] == [] && s[1..] == [];
      assert EncodedByte(s[0]) + "" == EncodedByte(s[0]) == "" + EncodedByte(s[0]);
    } else if |s| > 1 {
      var n := |s| - 1;
      EncodedFirst(s[..n]);
      var middle := s[1..][..n - 1];
      assert s[..n][1..] == middle;
      var a, b, c := EncodedByte(s[0]), Encoded(middle), EncodedByte(s[n]);
      assert Encoded(s[1..]) == b + c;
      assert (a + b) + c == a + (b + c);
    }
  }

  lemma HexRoundTrip(n: nat)
    requires n < 16
    ensures HexValue(HEX[n]) == n
  {
    assert HEX[n] as int == if n < 10 then '0' as int + n else 'A' as int + n - 10;
  }

  lemma DecodedByte(b: Byte, rest: string)
    ensures Decoded(EncodedByte(b) + rest) == Then(b, Decoded(rest))
  {
    HexRoundTrip(b / 16);
    HexRoundTrip(b % 16);
    var s := EncodedByte(b) + rest;
    assert s[|EncodedByte(b)|..] == rest;
  }

  /** Decoding inverts percent encoding, on every byte string. */
  lemma {:induction false} DecodeEncoded(s: seq<Byte>)
    ensures Decoded(Encoded(s)) == Some(s)
  {
    hide EncodedByte;
    if s != [] {
      EncodedFirst(s);
      DecodedByte(s[0], Encoded(s[1..]));
      DecodeEncoded(s[1..]);
      assert s == [s[0]] + s[1..];
    }
  }

  predicate Safe(c: char) {
    c as int <= 0x7F && (Unreserved(c as int) || c == '+' || c == '%')
  }

  /** Nothing but unreserved characters, `+` and `%` comes out, so no separator does. */
  lemma {:induction false} EncodedIsSafe(s: seq<Byte>)
    ensures forall c <- Encoded(s) :: Safe(c) && c != '&' && c != '='
  {
    if s != [] {
      EncodedIsSafe(s[..|s| - 1]);
      var b := s[|s| - 1];
      assert forall k | 0 <= k < 16 :: Unreserved(HEX[k] as int);
    }
  }

  /** How many bytes are neither a letter, a digit, one of `-_.~`, nor a space. */
  function Escapes(s: seq<Byte>): nat {
    if s == [] then 0
    else
      Escapes(s[..|s| - 1]) + if Stays(s[|s| - 1] as char) then 0 else 1
  }

  predicate Stays(c: char) {
    'A' <= c <= 'Z' || 'a' <= c <= 'z' || '0' <= c <= '9' || c in "-_.~ "
  }

  lemma ByteLength(b: Byte)
    ensures |EncodedByte(b)| == if Stays(b as char) then 1 else 3
    ensures Stays(b as char) ==> EncodedByte(b)[0] == if b as char == ' ' then '+' else b as char
  {
  }

  /** Exactly those grow, to three characters; where none does every byte stands for itself, a space for `+`. */
  lemma {:induction false} EncodedLength(s: seq<Byte>)
    ensures |Encoded(s)| == |s| + 2 * Escapes(s)
    ensures Escapes(s) == 0 ==>
      forall k | 0 <= k < |s| :: Encoded(s)[k] == if s[k] as char == ' ' then '+' else s[k] as char
  {
    hide EncodedByte, Stays;
    if s != [] {
      EncodedLength(s[..|s| - 1]);
      ByteLength(s[|s| - 1]);
    }
  }

  lemma {:induction false} UntilAt(s: string, n: nat, stop: char -> bool)
    requires n <= |s| && (forall k | 0 <= k < n :: !stop(s[k])) && (n < |s| ==> stop(s[n]))
    ensures Until(s, stop) == n
  {
    if n > 0 {
      UntilAt(s[1..], n - 1, stop);
    }
  }

  lemma PairRoundTrip(p: Pair)
    ensures DecodedPair(EncodedPair(p)) == Some(p)
    ensures EncodedPair(p) != "" && '&' !in EncodedPair(p)
  {
    hide Encoded, Decoded;
    var name, value, s := Encoded(p.name), Encoded(p.value), EncodedPair(p);
    EncodedIsSafe(p.name);
    EncodedIsSafe(p.value);
    DecodeEncoded(p.name);
    DecodeEncoded(p.value);
    assert s[..|name|] == name && s[|name|] == '=' && s[|name| + 1..] == value;
    assert forall k | 0 <= k < |name| :: s[k] == name[k] && name[k] in name;
    UntilAt(s, |name|, IsEquals);
  }

  lemma DecodeOne(piece: string)
    requires piece != "" && '&' !in piece && DecodedPair(piece).Some?
    ensures DecodedQuery(piece) == Some([DecodedPair(piece).value])
  {
    hide DecodedPair;
    UntilAt(piece, |piece|, IsAmpersand);
    assert piece[..|piece|] == piece;
    assert DecodedQuery("") == Some([]);
    assert [DecodedPair(piece).value] + [] == [DecodedPair(piece).value];
  }

  lemma DecodeFront(piece: string, rest: string)
    requires piece != "" && '&' !in piece && DecodedPair(piece).Some? && DecodedQuery(rest).Some?
    ensures DecodedQuery(piece + "&" + rest) == Some([DecodedPair(piece).value] + DecodedQuery(rest).value)
  {
    hide DecodedPair;
    var s := piece + "&" + rest;
    assert s[..|piece|] == piece && s[|piece|] == '&' && s[|piece| + 1..] == rest;
    assert forall k | 0 <= k < |piece| :: s[k] == piece[k];
    UntilAt(s, |piece|, IsAmpersand);
  }

  lemma {:induction false} QueryFront(pairs: seq<Pair>)
    requires |pairs| > 1
    ensures Query(pairs) == EncodedPair(pairs[0]) + "&" + Query(pairs[1..])
  {
    hide EncodedPair;
    var n := |pairs| - 1;
    if n == 1 {
      assert pairs[..1] == [pairs[0]] && pairs[1..] == [pairs[1]];
    } else {
      QueryFront(pairs[..n]);
      assert pairs[..n][1..] == pairs[1..][..n - 1];
    }
  }

  /** Every list of pairs is recovered from its query string. */
  lemma {:induction false} QueryRoundTrip(pairs: seq<Pair>)
    ensures DecodedQuery(Query(pairs)) == Some(pairs)
  {
    hide DecodedPair, EncodedPair, DecodedQuery;
    if pairs == [] {
      DecodeNothing();
    } else {
      PairRoundTrip(pairs[0]);
      if |pairs| == 1 {
        DecodeOne(EncodedPair(pairs[0]));
        assert pairs == [pairs[0]];
      } else {
        QueryFront(pairs);
        QueryRoundTrip(pairs[1..]);
        DecodeFront(EncodedPair(pairs[0]), Query(pairs[1..]));
        assert pairs == [pairs[0]] + pairs[1..];
      }
    }
  }

  lemma DecodeNothing()
    ensures DecodedQuery("") == Some([])
  {
  }

  /** No two forms give the same query string. */
  lemma QueryInjective(a: seq<Pair>, b: seq<Pair>)
    ensures Query(a) == Query(b) <==> a == b
  {
    QueryRoundTrip(a);
    QueryRoundTrip(b);
  }
}
