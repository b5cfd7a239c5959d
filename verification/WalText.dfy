/**
  The text of the write-ahead log: one line per record, written with stream insertion
  and read back with stream extraction (src/server/wal.cc).
*/
module WalText {
  import opened Protocol

  // ---------------------------------------------------------------- numbers

  predicate IsDigit(c: char) {
    '0' <= c <= '9'
  }

  predicate AllDigits(s: string) {
    forall i :: 0 <= i < |s| ==> IsDigit(s[i])
  }

  function DigitChar(d: nat): char
    requires d < 10
  {
    '0' + d as char
  }

  function DigitValue(c: char): nat
    requires IsDigit(c)
  {
    (c - '0') as nat
  }

  /** Decimal digits, as an unsigned number is inserted into a stream. */
  function Digits(n: nat): string {
    if n < 10 then [DigitChar(n)] else Digits(n / 10) + [DigitChar(n % 10)]
  }

  function Sign(n: int): string {
    if n < 0 then "-" else ""
  }

  function Magnitude(n: int): nat {
    if n < 0 then -n else n
  }

  function Show(n: int): string {
    Sign(n) + Digits(Magnitude(n))
  }

  function Value(ds: string): int
    requires AllDigits(ds)
  {
    if ds == [] then 0 else 10 * Value(ds[..|ds| - 1]) + DigitValue(ds[|ds| - 1])
  }

  lemma {:induction false} ValueOfDigits(n: nat)
    ensures AllDigits(Digits(n)) && Digits(n) != [] && Value(Digits(n)) == n
  {
    if n < 10 {
      assert Digits(n)[..0] == [];
      assert Value(Digits(n)) == 10 * Value([]) + DigitValue(DigitChar(n));
    } else {
      ValueOfDigits(n / 10);
      var d := Digits(n);
      assert d[..|d| - 1] == Digits(n / 10);
    }
  }

  // ---------------------------------------------------------------- extraction

  function Skip(s: string): string {
    if s != [] && s[0] == ' ' then Skip(s[1..]) else s
  }

  function DigitRun(s: string): (k: nat)
    ensures k <= |s| && AllDigits(s[..k])
  {
    if s != [] && IsDigit(s[0]) then
      var k := 1 + DigitRun(s[1..]);
      assert s[..k] == [s[0]] + s[1..][..k - 1];
      k
    else 0
  }

  function WordRun(s: string): (k: nat)
    ensures k <= |s|
  {
    if s != [] && s[0] != ' ' then 1 + WordRun(s[1..]) else 0
  }

  function Signed(neg: bool, v: int): int {
    if neg then -v else v
  }

  /** A sign if there is one, then all the digits there are. */
  function ReadNumber(t: string): Option<(int, string)> {
    var signed := t != [] && (t[0] == '-' || t[0] == '+');
    var u := if signed then t[1..] else t;
    var k := DigitRun(u);
    if k == 0 then None else Some((Signed(signed && t[0] == '-', Value(u[..k])), u[k..]))
  }

  /** Extracting an integer: its value and what is left of the line, or failure. */
  function ReadInt(s: string): Option<(int, string)> {
    ReadNumber(Skip(s))
  }

  function ReadWord(s: string): Option<(string, string)> {
    var t := Skip(s);
    var k := WordRun(t);
    if k == 0 then None else Some((t[..k], t[k..]))
  }

  function ReadInts(s: string, n: nat): Option<seq<int>>
    decreases n
  {
    if n == 0 then Some([])
    else
      match ReadInt(s)
      case None => None
      case Some(v) =>
        (match ReadInts(v.1, n - 1)
         case None => None
         case Some(vs) => Some([v.0] + vs))
  }

  lemma {:induction false} ReadIntsLength(s: string, n: nat)
    ensures ReadInts(s, n).Some? ==> |ReadInts(s, n).value| == n
    decreases n
  {
    if n > 0 && ReadInt(s).Some? {
      ReadIntsLength(ReadInt(s).value.1, n - 1);
    }
  }

  // ---------------------------------------------------------------- fields

  function Field(n: int): string {
    " " + Show(n)
  }

  function Fields(ns: seq<int>): string {
    if ns == [] then "" else Field(ns[0]) + Fields(ns[1..])
  }

  /** Where a number stops. */
  predicate Stops(rest: string) {
    rest == [] || !IsDigit(rest[0])
  }

  lemma {:induction false} DigitRunOf(ds: string, rest: string)
    requires AllDigits(ds) && Stops(rest)
    ensures DigitRun(ds + rest) == |ds|
  {
    if ds == [] {
      assert ds + rest == rest;
    } else {
      assert (ds + rest)[1..] == ds[1..] + rest;
      DigitRunOf(ds[1..], rest);
    }
  }

  lemma SkipOne(t: string)
    requires t == [] || t[0] != ' '
    ensures Skip(" " + t) == t
  {
    assert (" " + t)[1..] == t;
  }

  /** A sign and some digits, read back. */
  lemma ReadSigned(n: int, ds: string, rest: string)
    requires AllDigits(ds) && ds != [] && Stops(rest)
    ensures ReadNumber(Sign(n) + (ds + rest)) == Some((Signed(n < 0, Value(ds)), rest))
  {
    var t := Sign(n) + (ds + rest);
    DigitRunOf(ds, rest);
    assert (ds + rest)[..|ds|] == ds && (ds + rest)[|ds|..] == rest;
    if n < 0 {
      assert t[1..] == ds + rest;
    } else {
      assert t == ds + rest;
    }
  }

  lemma Spaced(sign: string, d: string, rest: string)
    ensures " " + (sign + d) + rest == " " + (sign + (d + rest))
  {
  }

  lemma ReadField(n: int, rest: string)
    requires Stops(rest)
    ensures ReadInt(Field(n) + rest) == Some((n, rest))
  {
    var d := Digits(Magnitude(n));
    ValueOfDigits(Magnitude(n));
    ReadSigned(n, d, rest);
    Spaced(Sign(n), d, rest);
    SkipOne(Sign(n) + (d + rest));
  }

  lemma FieldsStop(ns: seq<int>)
    ensures Stops(Fields(ns))
  {
  }

  /** Every list of numbers reads back as it was written. */
  lemma {:induction false} ReadFields(ns: seq<int>)
    ensures ReadInts(Fields(ns), |ns|) == Some(ns)
  {
    if ns != [] {
      FieldsStop(ns[1..]);
      ReadField(ns[0], Fields(ns[1..]));
      ReadFields(ns[1..]);
      assert [ns[0]] + ns[1..] == ns;
    }
  }

  // ---------------------------------------------------------------- interrupted writes

  /** Where the digits of the last number begin. */
  function LastDigits(ns: seq<int>): nat
    requires ns != []
  {
    if |ns| == 1 then 1 + |Sign(ns[0])| else |Field(ns[0])| + LastDigits(ns[1..])
  }

  /** The number that the first j digits of n spell. */
  function Shortened(n: int, j: nat): int {
    ValueOfDigits(Magnitude(n));
    Signed(n < 0, if j <= |Digits(Magnitude(n))| then Value(Digits(Magnitude(n))[..j]) else 0)
  }

  /** What may follow a cut: nothing, or something that is no part of a list of numbers. */
  predicate Foreign(rest: string) {
    rest == [] || !(IsDigit(rest[0]) || rest[0] == ' ' || rest[0] == '-' || rest[0] == '+')
  }

  lemma ReadForeign(rest: string, n: nat)
    requires Foreign(rest) && n > 0
    ensures ReadNumber(rest) == None && ReadInts(rest, n) == None
  {
  }

  /** A number cut short is unreadable without a digit. */
  lemma CutBeforeDigits(n: int, k: nat, rest: string)
    requires k <= 1 + |Sign(n)| && Foreign(rest)
    ensures k <= |Field(n)| && ReadInt(Field(n)[..k] + rest) == None
  {
    ValueOfDigits(Magnitude(n));
    var t := if k == 0 then "" else Field(n)[1..k];
    assert t == "" || t == "-";
    ReadForeign(rest, 1);
    if k == 0 {
      assert Field(n)[..k] + rest == rest;
    } else {
      assert t == "" ==> t + rest == rest;
      assert t == "-" ==> (t + rest)[1..] == rest;
      SkipOne(t + rest);
      assert Field(n)[..k] + rest == " " + (t + rest);
    }
  }

  /** With a digit left it is what its digits spell, and what follows is left over. */
  lemma CutInDigits(n: int, k: nat, rest: string)
    requires 1 + |Sign(n)| < k <= |Field(n)| && Foreign(rest)
    ensures ReadInt(Field(n)[..k] + rest) == Some((Shortened(n, k - 1 - |Sign(n)|), rest))
  {
    var d, j := Digits(Magnitude(n)), k - 1 - |Sign(n)|;
    ValueOfDigits(Magnitude(n));
    ReadSigned(n, d[..j], rest);
    Spaced(Sign(n), d[..j], rest);
    assert Field(n)[..k] == " " + (Sign(n) + d[..j]);
    SkipOne(Sign(n) + (d[..j] + rest));
  }

  /** The same numbers, but for the last. */
  function WithLast(ns: seq<int>, v: int): seq<int>
    requires ns != []
  {
    ns[|ns| - 1 := v]
  }

  /** What is read of a list of numbers that was cut. */
  function CutReading(ns: seq<int>, k: nat): Option<seq<int>>
    requires ns != []
  {
    if k <= LastDigits(ns) then None else Some(WithLast(ns, Shortened(ns[|ns| - 1], k - LastDigits(ns))))
  }

  lemma CutReadingCons(ns: seq<int>, k: nat)
    requires |ns| > 1 && |Field(ns[0])| <= k
    ensures CutReading(ns, k) == match CutReading(ns[1..], k - |Field(ns[0])|) case None => None case Some(vs) => Some([ns[0]] + vs)
  {
    if k > LastDigits(ns) {
      WithLastCons(ns, Shortened(ns[|ns| - 1], k - LastDigits(ns)));
    }
  }

  /** A list of numbers cut short is readable exactly if the cut leaves a digit of the last one. */
  lemma {:induction false} CutFields(ns: seq<int>, k: nat, rest: string)
    requires ns != [] && k <= |Fields(ns)| && Foreign(rest)
    ensures ReadInts(Fields(ns)[..k] + rest, |ns|) == CutReading(ns, k)
  {
    if |ns| == 1 {
      CutSingle(ns, k, rest);
    } else if k < |Field(ns[0])| {
      CutFirst(ns, k, rest);
    } else {
      var j := k - |Field(ns[0])|;
      CutFields(ns[1..], j, rest);
      CutAfter(ns, k, rest);
      ReadIntsCons(Fields(ns)[..k] + rest, |ns|, ns[0], Fields(ns[1..])[..j] + rest);
      CutReadingCons(ns, k);
    }
  }

  lemma CutSingle(ns: seq<int>, k: nat, rest: string)
    requires |ns| == 1 && k <= |Fields(ns)| && Foreign(rest)
    ensures ReadInts(Fields(ns)[..k] + rest, 1) == CutReading(ns, k)
  {
    assert ns[1..] == [] && Fields(ns) == Field(ns[0]) + "" == Field(ns[0]);
    CutLast(ns[0], k, rest);
    assert k > LastDigits(ns) ==> WithLast(ns, Shortened(ns[0], k - LastDigits(ns))) == [Shortened(ns[0], k - LastDigits(ns))];
  }

  lemma ReadIntsCons(s: string, n: nat, v: int, more: string)
    requires ReadInt(s) == Some((v, more)) && n > 0
    ensures ReadInts(s, n) == match ReadInts(more, n - 1) case None => None case Some(vs) => Some([v] + vs)
  {
  }

  lemma WithLastCons(ns: seq<int>, v: int)
    requires |ns| > 1
    ensures WithLast(ns, v) == [ns[0]] + WithLast(ns[1..], v) && ns[1..][|ns| - 2] == ns[|ns| - 1]
  {
  }

  /** A cut after the first number leaves that number alone. */
  lemma CutAfter(ns: seq<int>, k: nat, rest: string)
    requires ns != [] && |Field(ns[0])| <= k <= |Fields(ns)| && Foreign(rest)
    ensures ReadInt(Fields(ns)[..k] + rest) == Some((ns[0], Fields(ns[1..])[..k - |Field(ns[0])|] + rest))
  {
    var head, more, j := Field(ns[0]), Fields(ns[1..]), k - |Field(ns[0])|;
    FieldsStop(ns[1..]);
    CutConcat(head, more, j, rest);
    CutStops(more, j, rest);
    ReadField(ns[0], more[..j] + rest);
  }

  lemma CutConcat(a: string, b: string, j: nat, rest: string)
    requires j <= |b|
    ensures (a + b)[..|a| + j] + rest == a + (b[..j] + rest)
  {
  }

  lemma CutStops(s: string, j: nat, rest: string)
    requires j <= |s| && Stops(s) && Foreign(rest)
    ensures Stops(s[..j] + rest)
  {
    if j == 0 {
      assert s[..j] + rest == rest;
    }
  }

  lemma CutLast(n: int, k: nat, rest: string)
    requires k <= |Field(n)| && Foreign(rest)
    ensures ReadInts(Field(n)[..k] + rest, 1) == if k <= 1 + |Sign(n)| then None else Some([Shortened(n, k - 1 - |Sign(n)|)])
  {
    if k <= 1 + |Sign(n)| {
      CutBeforeDigits(n, k, rest);
    } else {
      CutInDigits(n, k, rest);
      var v := Shortened(n, k - 1 - |Sign(n)|);
      assert [v] + [] == [v];
    }
  }

  lemma CutFirst(ns: seq<int>, k: nat, rest: string)
    requires |ns| > 1 && k < |Field(ns[0])| && Foreign(rest)
    ensures k <= LastDigits(ns) && k <= |Fields(ns)| && ReadInts(Fields(ns)[..k] + rest, |ns|) == None
  {
    assert Fields(ns)[..k] == Field(ns[0])[..k];
    if k <= 1 + |Sign(ns[0])| {
      CutBeforeDigits(ns[0], k, rest);
    } else {
      CutInDigits(ns[0], k, rest);
      ReadForeign(rest, |ns| - 1);
    }
  }
}
