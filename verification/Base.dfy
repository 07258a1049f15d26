/** Option and Result, and JSON values. */
module Base {
  datatype Option<+T> = None | Some(value: T)

  function GetOr<T>(o: Option<T>, default: T): T {
    if o.Some? then o.value else default
  }

  datatype Result<+T, +E> = Ok(value: T) | Err(error: E)

  /** A JSON value.  An object is its entry list in iteration order; keys of a `serde_json::Map`
      are distinct, which `Insert` and `Remove` keep. */
  datatype Value =
    | Null
    | Bool(b: bool)
    | Num(n: real)
    | Str(s: string)
    | Arr(items: seq<Value>)
    | Obj(entries: seq<Entry>)
  datatype Entry = Entry(key: string, value: Value)

  const EMPTY_OBJECT := Obj([])

  const DIGITS := "0123456789"

  /** Decimal digits, most significant first. */
  function Decimal(n: nat): (s: string)
    ensures s != ""
    ensures forall c <- s :: c in DIGITS
    decreases n
  {
    if n < 10 then [DIGITS[n]] else Decimal(n / 10) + [DIGITS[n % 10]]
  }

  /** What a string of digits stands for. */
  function Number(s: string): int {
    if s == "" then 0 else Number(s[..|s| - 1]) * 10 + (s[|s| - 1] as int - '0' as int)
  }

  /** It is the number, written without leading zeros. */
  lemma {:induction false} DecimalValue(n: nat)
    ensures Number(Decimal(n)) == n
    ensures Decimal(n)[0] == '0' <==> n == 0
  {
    var s := Decimal(n);
    assert DIGITS[n % 10] as int == '0' as int + n % 10;
    if n >= 10 {
      DecimalValue(n / 10);
      assert s[..|s| - 1] == Decimal(n / 10) && s[0] == Decimal(n / 10)[0];
    } else {
      assert s[..0] == "";
    }
  }

  /** The parts joined, in order. */
  function Concat<T>(parts: seq<seq<T>>): seq<T> {
    if parts == [] then [] else parts[0] + Concat(parts[1..])
  }

  /** How many characters come before the first one that satisfies `stop`. */
  function Until(s: string, stop: char -> bool): (n: nat)
    ensures n <= |s|
    ensures forall k | 0 <= k < n :: !stop(s[k])
    ensures n < |s| ==> stop(s[n])
  {
    if s == "" || stop(s[0]) then 0 else 1 + Until(s[1..], stop)
  }

  lemma {:induction false} DecimalInjective(a: nat, b: nat)
    requires Decimal(a) == Decimal(b)
    ensures a == b
  {
    var s := Decimal(a);
    assert s[|s| - 1] == DIGITS[a % 10] == DIGITS[b % 10];
    DigitsDiffer(a % 10, b % 10);
    if |s| > 1 {
      assert s[..|s| - 1] == Decimal(a / 10) == Decimal(b / 10);
      DecimalInjective(a / 10, b / 10);
    }
  }

  lemma DigitsDiffer(i: nat, j: nat)
    requires i < 10 && j < 10 && DIGITS[i] == DIGITS[j]
    ensures i == j
  {
    assert DIGITS[i] as int == '0' as int + i && DIGITS[j] as int == '0' as int + j;
  }

  lemma DecimalHasNoDash(n: nat)
    ensures '-' !in Decimal(n)
  {
  }

  lemma DashInTail(s: string, n: nat, k: nat)
    requires n <= |s| && k < |s| && s[k] == '-'
    ensures n <= k ==> '-' in s[n..]
  {
    if n <= k {
      assert s[n..][k - n] == s[k];
    }
  }

  /** Behind the last dash is the index, before it the name. */
  lemma DashedInjective(prefix: string, name1: string, i: nat, name2: string, j: nat)
    ensures prefix + name1 + "-" + Decimal(i) == prefix + name2 + "-" + Decimal(j) <==> name1 == name2 && i == j
  {
    var s, t := prefix + name1 + "-" + Decimal(i), prefix + name2 + "-" + Decimal(j);
    var p, d, e := |prefix|, Decimal(i), Decimal(j);
    DecimalHasNoDash(i);
    DecimalHasNoDash(j);
    assert s[|s| - |d| - 1] == '-' && t[|t| - |e| - 1] == '-';
    assert s[|s| - |d|..] == d && t[|t| - |e|..] == e;
    assert s[p..|s| - |d| - 1] == name1 && t[p..|t| - |e| - 1] == name2;
    if s == t {
      DashInTail(s, |s| - |d|, |t| - |e| - 1);
      DashInTail(t, |t| - |e|, |s| - |d| - 1);
      DecimalInjective(i, j);
    }
  }

  /** The parts with the glue between them. */
  function Join(parts: seq<string>, glue: string): string {
    if parts == [] then ""
    else if |parts| == 1 then parts[0]
    else parts[0] + glue + Join(parts[1..], glue)
  }

  lemma {:induction false} JoinSnoc(parts: seq<string>, glue: string, last: string)
    ensures Join(parts + [last], glue) == if parts == [] then last else Join(parts, glue) + glue + last
  {
    if |parts| > 0 {
      var more := parts + [last];
      assert more[1..] == parts[1..] + [last];
      JoinSnoc(parts[1..], glue, last);
      var a, b := parts[0] + glue, Join(parts[1..], glue);
      assert a + (b + glue + last) == (a + b) + glue + last;
    }
  }
}
