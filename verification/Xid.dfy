/**
 The ids of utils/id.go: twelve bytes (seconds, machine, process, counter)
 written in the base 32 alphabet of section 7 of RFC 4648, in lower case.
 */
module Xid {
  import opened Text

  const ENCODING := "0123456789abcdefghijklmnopqrstuv"

  type Octet = bv8

  function Num(b: Octet): (n: nat)
    ensures n < 256
  {
    b as nat
  }

  // ----- encode

  /** The first four of the eight indices that `encode` computes from five bytes. */
  function UpperIndices(a: Octet, b: Octet, c: Octet): (indices: seq<Octet>)
    ensures |indices| == 4 && forall i :: 0 <= i < 4 ==> indices[i] < 32
  {
    [a >> 3, (b >> 6) | ((a << 2) & 0x1F), (b >> 1) & 0x1F, (c >> 4) | ((b << 4) & 0x1F)]
  }

  /** The other four. */
  function LowerIndices(c: Octet, d: Octet, e: Octet): (indices: seq<Octet>)
    ensures |indices| == 4 && forall i :: 0 <= i < 4 ==> indices[i] < 32
  {
    [(d >> 7) | ((c << 1) & 0x1F), (d >> 2) & 0x1F, (e >> 5) | ((d << 3) & 0x1F), e & 0x1F]
  }

  /** The four indices from the last two bytes. */
  function TailIndices(a: Octet, b: Octet): (indices: seq<Octet>)
    ensures |indices| == 4 && forall i :: 0 <= i < 4 ==> indices[i] < 32
  {
    [a >> 3, (b >> 6) | ((a << 2) & 0x1F), (b >> 1) & 0x1F, (b << 4) & 0x1F]
  }

  type Id = id: seq<Octet> | |id| == 12 witness [0, 0, 0, 0, 0, 0, 0, 0, 0, 0, 0, 0]

  function Indices(id: Id): (indices: seq<Octet>)
    ensures |indices| == 20 && forall i :: 0 <= i < 20 ==> indices[i] < 32
  {
    UpperIndices(id[0], id[1], id[2]) + LowerIndices(id[2], id[3], id[4])
    + UpperIndices(id[5], id[6], id[7]) + LowerIndices(id[7], id[8], id[9])
    + TailIndices(id[10], id[11])
  }

  // ----- bits and numbers

  lemma {:induction false} Right(b: Octet)
    ensures Num(b >> 1) == Num(b) / 2 && Num(b >> 2) == Num(b) / 4 && Num(b >> 3) == Num(b) / 8
    ensures Num(b >> 4) == Num(b) / 16 && Num(b >> 5) == Num(b) / 32 && Num(b >> 6) == Num(b) / 64
    ensures Num(b >> 7) == Num(b) / 128
  {
  }

  lemma {:induction false} Low(b: Octet)
    ensures Num(b & 0x1F) == Num(b) % 32
  {
  }

  lemma {:induction false} Left1(b: Octet)
    ensures Num((b << 1) & 0x1F) == Num(b) % 16 * 2
  {
  }

  lemma {:induction false} Left2(b: Octet)
    ensures Num((b << 2) & 0x1F) == Num(b) % 8 * 4
  {
  }

  lemma {:induction false} Left3(b: Octet)
    ensures Num((b << 3) & 0x1F) == Num(b) % 4 * 8
  {
  }

  lemma {:induction false} Left4(b: Octet)
    ensures Num((b << 4) & 0x1F) == Num(b) % 2 * 16
  {
  }

  lemma {:induction false} Add(x: Octet, y: Octet)
    requires x < 32 && y < 32
    ensures Num(x + y) == Num(x) + Num(y)
  {
  }

  lemma {:induction false} OrIsAdd(x: Octet, b: Octet)
    ensures (x >> 6) | ((b << 2) & 0x1F) == (x >> 6) + ((b << 2) & 0x1F)
    ensures (x >> 4) | ((b << 4) & 0x1F) == (x >> 4) + ((b << 4) & 0x1F)
    ensures (x >> 7) | ((b << 1) & 0x1F) == (x >> 7) + ((b << 1) & 0x1F)
    ensures (x >> 5) | ((b << 3) & 0x1F) == (x >> 5) + ((b << 3) & 0x1F)
    ensures (x >> 4) < 32 && (x >> 5) < 32 && (x >> 6) < 32 && (x >> 7) < 32 && (x >> 3) < 32
    ensures (b << 1) & 0x1F < 32 && (b << 2) & 0x1F < 32 && (b << 3) & 0x1F < 32 && (b << 4) & 0x1F < 32
  {
  }

  function Nums(bytes: seq<Octet>): (ns: seq<nat>)
    ensures |ns| == |bytes|
  {
    Mapped(Num, bytes)
  }

  function UpperDigits(a: nat, b: nat, c: nat): seq<nat> {
    [a / 8, a % 8 * 4 + b / 64, b / 2 % 32, b % 2 * 16 + c / 16]
  }

  function LowerDigits(c: nat, d: nat, e: nat): seq<nat> {
    [c % 16 * 2 + d / 128, d / 4 % 32, d % 4 * 8 + e / 32, e % 32]
  }

  lemma {:induction false} Digit1(a: Octet, b: Octet)
    ensures Num((b >> 6) | ((a << 2) & 0x1F)) == Num(a) % 8 * 4 + Num(b) / 64
  {
    OrIsAdd(b, a);
    Add(b >> 6, (a << 2) & 0x1F);
    Left2(a);
    Right(b);
  }

  lemma {:induction false} Digit3(b: Octet, c: Octet)
    ensures Num((c >> 4) | ((b << 4) & 0x1F)) == Num(b) % 2 * 16 + Num(c) / 16
  {
    OrIsAdd(c, b);
    Add(c >> 4, (b << 4) & 0x1F);
    Left4(b);
    Right(c);
  }

  lemma {:induction false} Digit4(c: Octet, d: Octet)
    ensures Num((d >> 7) | ((c << 1) & 0x1F)) == Num(c) % 16 * 2 + Num(d) / 128
  {
    OrIsAdd(d, c);
    Add(d >> 7, (c << 1) & 0x1F);
    Left1(c);
    Right(d);
  }

  lemma {:induction false} Digit6(d: Octet, e: Octet)
    ensures Num((e >> 5) | ((d << 3) & 0x1F)) == Num(d) % 4 * 8 + Num(e) / 32
  {
    OrIsAdd(e, d);
    Add(e >> 5, (d << 3) & 0x1F);
    Left3(d);
    Right(e);
  }

  lemma {:induction false} Middle(b: Octet)
    ensures Num((b >> 1) & 0x1F) == Num(b) / 2 % 32 && Num((b >> 2) & 0x1F) == Num(b) / 4 % 32
  {
    Low(b >> 1);
    Low(b >> 2);
    Right(b);
  }

  lemma {:induction false} First(a: Octet)
    ensures Num(a >> 3) == Num(a) / 8
  {
    Right(a);
  }

  /** Four numbers, one by one, whatever a byte stands for. */
  lemma {:induction false} Four(num: Octet -> nat, w: Octet, x: Octet, y: Octet, z: Octet)
    ensures Mapped(num, [w, x, y, z]) == [num(w), num(x), num(y), num(z)]
  {
  }

  lemma {:induction false} UpperWith(num: Octet -> nat, a: Octet, b: Octet, c: Octet)
    requires num(a >> 3) == num(a) / 8
    requires num((b >> 6) | ((a << 2) & 0x1F)) == num(a) % 8 * 4 + num(b) / 64
    requires num((b >> 1) & 0x1F) == num(b) / 2 % 32
    requires num((c >> 4) | ((b << 4) & 0x1F)) == num(b) % 2 * 16 + num(c) / 16
    ensures Mapped(num, UpperIndices(a, b, c)) == UpperDigits(num(a), num(b), num(c))
  {
    Four(num, a >> 3, (b >> 6) | ((a << 2) & 0x1F), (b >> 1) & 0x1F, (c >> 4) | ((b << 4) & 0x1F));
  }

  lemma {:induction false} UpperNums(a: Octet, b: Octet, c: Octet)
    ensures Nums(UpperIndices(a, b, c)) == UpperDigits(Num(a), Num(b), Num(c))
  {
    First(a);
    Digit1(a, b);
    Middle(b);
    Digit3(b, c);
    UpperWith(Num, a, b, c);
  }

  lemma {:induction false} LowerWith(num: Octet -> nat, c: Octet, d: Octet, e: Octet)
    requires num((d >> 7) | ((c << 1) & 0x1F)) == num(c) % 16 * 2 + num(d) / 128
    requires num((d >> 2) & 0x1F) == num(d) / 4 % 32
    requires num((e >> 5) | ((d << 3) & 0x1F)) == num(d) % 4 * 8 + num(e) / 32
    requires num(e & 0x1F) == num(e) % 32
    ensures Mapped(num, LowerIndices(c, d, e)) == LowerDigits(num(c), num(d), num(e))
  {
    Four(num, (d >> 7) | ((c << 1) & 0x1F), (d >> 2) & 0x1F, (e >> 5) | ((d << 3) & 0x1F), e & 0x1F);
  }

  lemma {:induction false} LowerNums(c: Octet, d: Octet, e: Octet)
    ensures Nums(LowerIndices(c, d, e)) == LowerDigits(Num(c), Num(d), Num(e))
  {
    Digit4(c, d);
    Middle(d);
    Digit6(d, e);
    Low(e);
    LowerWith(Num, c, d, e);
  }

  function TailDigits(a: nat, b: nat): seq<nat> {
    [a / 8, a % 8 * 4 + b / 64, b / 2 % 32, b % 2 * 16]
  }

  lemma {:induction false} TailWith(num: Octet -> nat, a: Octet, b: Octet)
    requires num(a >> 3) == num(a) / 8
    requires num((b >> 6) | ((a << 2) & 0x1F)) == num(a) % 8 * 4 + num(b) / 64
    requires num((b >> 1) & 0x1F) == num(b) / 2 % 32
    requires num((b << 4) & 0x1F) == num(b) % 2 * 16
    ensures Mapped(num, TailIndices(a, b)) == TailDigits(num(a), num(b))
  {
    Four(num, a >> 3, (b >> 6) | ((a << 2) & 0x1F), (b >> 1) & 0x1F, (b << 4) & 0x1F);
  }

  lemma {:induction false} TailNums(a: Octet, b: Octet)
    ensures Nums(TailIndices(a, b)) == TailDigits(Num(a), Num(b))
  {
    First(a);
    Digit1(a, b);
    Middle(b);
    Left4(b);
    TailWith(Num, a, b);
  }

  function Digits(ns: seq<nat>): seq<nat>
    requires |ns| == 12
  {
    UpperDigits(ns[0], ns[1], ns[2]) + LowerDigits(ns[2], ns[3], ns[4])
    + UpperDigits(ns[5], ns[6], ns[7]) + LowerDigits(ns[7], ns[8], ns[9])
    + TailDigits(ns[10], ns[11])
  }

  lemma {:induction false} NumsAppend(a: seq<Octet>, b: seq<Octet>)
    ensures Nums(a + b) == Nums(a) + Nums(b)
  {
  }

  lemma {:induction false} Nums5(a: seq<Octet>, b: seq<Octet>, c: seq<Octet>, d: seq<Octet>, e: seq<Octet>)
    ensures Nums(a + b + c + d + e) == Nums(a) + Nums(b) + Nums(c) + Nums(d) + Nums(e)
  {
    NumsAppend(a + b + c + d, e);
    NumsAppend(a + b + c, d);
    NumsAppend(a + b, c);
    NumsAppend(a, b);
  }

  lemma {:induction false} IndicesAreDigits(id: Id)
    ensures Nums(Indices(id)) == Digits(Nums(id))
  {
    Nums5(UpperIndices(id[0], id[1], id[2]), LowerIndices(id[2], id[3], id[4]),
          UpperIndices(id[5], id[6], id[7]), LowerIndices(id[7], id[8], id[9]), TailIndices(id[10], id[11]));
    UpperNums(id[0], id[1], id[2]);
    LowerNums(id[2], id[3], id[4]);
    UpperNums(id[5], id[6], id[7]);
    LowerNums(id[7], id[8], id[9]);
    TailNums(id[10], id[11]);
  }

  // ----- the number behind an id

  predicate InBase(base: nat, ds: seq<nat>) {
    forall i :: 0 <= i < |ds| ==> ds[i] < base
  }

  /** Digits read in a base, the first one the most significant. */
  function Value(base: nat, ds: seq<nat>): nat {
    if ds == [] then 0 else Value(base, ds[..|ds| - 1]) * base + ds[|ds| - 1]
  }

  function Power(base: nat, n: nat): nat {
    if n == 0 then 1 else Power(base, n - 1) * base
  }

  lemma {:induction false} ValueAppend(base: nat, a: seq<nat>, b: seq<nat>)
    ensures Value(base, a + b) == Value(base, a) * Power(base, |b|) + Value(base, b)
    decreases |b|
  {
    if b == [] {
      assert a + b == a;
    } else {
      var b' := b[..|b| - 1];
      ValueAppend(base, a, b');
      assert (a + b)[..|a + b| - 1] == a + b';
      Distribute(Value(base, a), Power(base, |b'|), Value(base, b'), base, b[|b'|]);
    }
  }

  lemma {:induction false} Distribute(x: nat, p: nat, y: nat, base: nat, d: nat)
    ensures (x * p + y) * base + d == x * (p * base) + (y * base + d)
  {
  }

  lemma {:induction false} ValueSnoc(base: nat, ds: seq<nat>, d: nat)
    ensures Value(base, ds + [d]) == Value(base, ds) * base + d
  {
    assert (ds + [d])[..|ds|] == ds;
  }

  lemma {:induction false} Value4(base: nat, a: nat, b: nat, c: nat, d: nat)
    ensures Value(base, [a, b, c, d]) == ((a * base + b) * base + c) * base + d
  {
    assert Value(base, []) == 0 && [] + [a] == [a];
    ValueSnoc(base, [], a);
    ValueSnoc(base, [a], b);
    ValueSnoc(base, [a, b], c);
    ValueSnoc(base, [a, b, c], d);
    assert [a] + [b] == [a, b] && [a, b] + [c] == [a, b, c] && [a, b, c] + [d] == [a, b, c, d];
  }

  lemma {:induction false} UpperValue(a: nat, b: nat, c: nat)
    requires a < 256 && b < 256 && c < 256
    ensures Value(32, UpperDigits(a, b, c)) == (a * 256 + b) * 16 + c / 16
    ensures InBase(32, UpperDigits(a, b, c))
  {
    Value4(32, a / 8, a % 8 * 4 + b / 64, b / 2 % 32, b % 2 * 16 + c / 16);
    UpperSum(a, b, c);
  }

  lemma {:induction false} UpperSum(a: nat, b: nat, c: nat)
    requires b < 256
    ensures ((a / 8 * 32 + (a % 8 * 4 + b / 64)) * 32 + b / 2 % 32) * 32 + (b % 2 * 16 + c / 16)
            == (a * 256 + b) * 16 + c / 16
  {
    assert a == a / 8 * 8 + a % 8;
    assert b == b / 64 * 64 + b / 2 % 32 * 2 + b % 2;
  }

  lemma {:induction false} LowerValue(c: nat, d: nat, e: nat)
    requires c < 256 && d < 256 && e < 256
    ensures Value(32, LowerDigits(c, d, e)) == c % 16 * 65536 + d * 256 + e
    ensures InBase(32, LowerDigits(c, d, e))
  {
    Value4(32, c % 16 * 2 + d / 128, d / 4 % 32, d % 4 * 8 + e / 32, e % 32);
    LowerSum(c % 16, d, e);
  }

  lemma {:induction false} LowerSum(c: nat, d: nat, e: nat)
    requires d < 256
    ensures (((c * 2 + d / 128) * 32 + d / 4 % 32) * 32 + (d % 4 * 8 + e / 32)) * 32 + e % 32 == c * 65536 + d * 256 + e
  {
    assert d == d / 128 * 128 + d / 4 % 32 * 4 + d % 4;
    assert e == e / 32 * 32 + e % 32;
  }

  lemma {:induction false} TailValue(a: nat, b: nat)
    requires a < 256 && b < 256
    ensures Value(32, TailDigits(a, b)) == 16 * (a * 256 + b)
    ensures InBase(32, TailDigits(a, b))
  {
    Value4(32, a / 8, a % 8 * 4 + b / 64, b / 2 % 32, b % 2 * 16);
    UpperSum(a, b, 0);
  }

  lemma {:induction false} Value5(base: nat, a: nat, b: nat, c: nat, d: nat, e: nat)
    ensures Value(base, [a, b, c, d, e]) == (((a * base + b) * base + c) * base + d) * base + e
  {
    Value4(base, a, b, c, d);
    ValueSnoc(base, [a, b, c, d], e);
    assert [a, b, c, d] + [e] == [a, b, c, d, e];
  }

  lemma {:induction false} InBaseAppend(base: nat, a: seq<nat>, b: seq<nat>)
    requires InBase(base, a) && InBase(base, b)
    ensures InBase(base, a + b)
  {
  }

  lemma {:induction false} Meet(a: nat, b: nat, c: nat, d: nat, e: nat)
    ensures ((a * 256 + b) * 16 + c / 16) * 1048576 + (c % 16 * 65536 + d * 256 + e)
         == (((a * 256 + b) * 256 + c) * 256 + d) * 256 + e
  {
  }

  function Group(a: nat, b: nat, c: nat, d: nat, e: nat): seq<nat> {
    UpperDigits(a, b, c) + LowerDigits(c, d, e)
  }

  lemma {:induction false} GroupParts(a: nat, b: nat, c: nat, d: nat, e: nat)
    ensures Value(32, Group(a, b, c, d, e))
            == Value(32, UpperDigits(a, b, c)) * 1048576 + Value(32, LowerDigits(c, d, e))
  {
    ValueAppend(32, UpperDigits(a, b, c), LowerDigits(c, d, e));
    assert Power(32, 4) == 1048576;
  }

  /** Eight digits hold the number of five bytes. */
  lemma {:induction false} GroupValue(a: nat, b: nat, c: nat, d: nat, e: nat)
    requires a < 256 && b < 256 && c < 256 && d < 256 && e < 256
    ensures Value(32, Group(a, b, c, d, e)) == Value(256, [a, b, c, d, e])
  {
    UpperValue(a, b, c);
    LowerValue(c, d, e);
    GroupParts(a, b, c, d, e);
    Meet(a, b, c, d, e);
    Value5(256, a, b, c, d, e);
  }

  lemma {:induction false} GroupInBase(a: nat, b: nat, c: nat, d: nat, e: nat)
    requires a < 256 && b < 256 && c < 256 && d < 256 && e < 256
    ensures InBase(32, Group(a, b, c, d, e))
  {
    UpperValue(a, b, c);
    LowerValue(c, d, e);
    InBaseAppend(32, UpperDigits(a, b, c), LowerDigits(c, d, e));
  }

  lemma {:induction false} ThreeParts(base: nat, x: seq<nat>, y: seq<nat>, z: seq<nat>)
    ensures Value(base, x + y + z)
         == (Value(base, x) * Power(base, |y|) + Value(base, y)) * Power(base, |z|) + Value(base, z)
  {
    ValueAppend(base, x + y, z);
    ValueAppend(base, x, y);
  }

  lemma {:induction false} Parts(ns: seq<nat>)
    requires |ns| == 12
    ensures ns == [ns[0], ns[1], ns[2], ns[3], ns[4]] + [ns[5], ns[6], ns[7], ns[8], ns[9]] + [ns[10], ns[11]]
  {
  }

  lemma {:induction false} DigitParts(ns: seq<nat>)
    requires |ns| == 12
    ensures Digits(ns)
         == Group(ns[0], ns[1], ns[2], ns[3], ns[4]) + Group(ns[5], ns[6], ns[7], ns[8], ns[9])
           + TailDigits(ns[10], ns[11])
  {
    Regroup(UpperDigits(ns[0], ns[1], ns[2]) + LowerDigits(ns[2], ns[3], ns[4]),
            UpperDigits(ns[5], ns[6], ns[7]), LowerDigits(ns[7], ns[8], ns[9]));
  }

  lemma {:induction false} Regroup(a: seq<nat>, b: seq<nat>, c: seq<nat>)
    ensures a + b + c == a + (b + c)
  {
  }

  lemma {:induction false} Powers()
    ensures Power(32, 8) == Power(256, 5) && Power(32, 4) == 16 * Power(256, 2)
  {
    assert Power(256, 5) == 1099511627776;
    assert Power(32, 8) == 1099511627776;
    assert Power(32, 4) == 1048576 && Power(256, 2) == 65536;
  }

  lemma {:induction false} Scale(x: nat, p: nat, q: nat, t: nat)
    requires p == 16 * q
    ensures x * p + 16 * t == 16 * (x * q + t)
  {
  }

  lemma {:induction false} Value2(base: nat, a: nat, b: nat)
    ensures Value(base, [a, b]) == a * base + b
  {
    assert Value(base, []) == 0 && [] + [a] == [a];
    ValueSnoc(base, [], a);
    ValueSnoc(base, [a], b);
    assert [a] + [b] == [a, b];
  }

  lemma {:induction false} DigitsInBase(ns: seq<nat>)
    requires |ns| == 12 && InBase(256, ns)
    ensures InBase(32, Digits(ns)) && |Digits(ns)| == 20
  {
    var g, h := Group(ns[0], ns[1], ns[2], ns[3], ns[4]), Group(ns[5], ns[6], ns[7], ns[8], ns[9]);
    GroupInBase(ns[0], ns[1], ns[2], ns[3], ns[4]);
    GroupInBase(ns[5], ns[6], ns[7], ns[8], ns[9]);
    TailValue(ns[10], ns[11]);
    DigitParts(ns);
    InBaseAppend(32, g, h);
    InBaseAppend(32, g + h, TailDigits(ns[10], ns[11]));
  }

  lemma {:induction false} Assemble(x: seq<nat>, x': seq<nat>, y: seq<nat>, y': seq<nat>, z: seq<nat>, z': seq<nat>)
    requires |y| == 8 && |y'| == 5 && |z| == 4 && |z'| == 2
    requires Value(32, x) == Value(256, x') && Value(32, y) == Value(256, y') && Value(32, z) == 16 * Value(256, z')
    ensures Value(32, x + y + z) == 16 * Value(256, x' + y' + z')
  {
    ThreeParts(32, x, y, z);
    ThreeParts(256, x', y', z');
    Powers();
    Scale(Value(32, x) * Power(32, 8) + Value(32, y), Power(32, 4), Power(256, 2), Value(256, z'));
  }

  /** The twenty digits, read in base 32, are 16 times the 96-bit number of the twelve bytes. */
  lemma {:induction false} DigitsValue(ns: seq<nat>)
    requires |ns| == 12 && InBase(256, ns)
    ensures Value(32, Digits(ns)) == 16 * Value(256, ns)
  {
    var g, h := Group(ns[0], ns[1], ns[2], ns[3], ns[4]), Group(ns[5], ns[6], ns[7], ns[8], ns[9]);
    GroupValue(ns[0], ns[1], ns[2], ns[3], ns[4]);
    GroupValue(ns[5], ns[6], ns[7], ns[8], ns[9]);
    TailValue(ns[10], ns[11]);
    Value2(256, ns[10], ns[11]);
    DigitParts(ns);
    Parts(ns);
    Assemble(g, [ns[0], ns[1], ns[2], ns[3], ns[4]], h, [ns[5], ns[6], ns[7], ns[8], ns[9]],
             TailDigits(ns[10], ns[11]), [ns[10], ns[11]]);
  }

  // ----- the text of an id

  function Letter(index: Octet): char
    requires index < 32
  {
    ENCODING[Num(index)]
  }

  predicate Small(indices: seq<Octet>) {
    forall i :: 0 <= i < |indices| ==> indices[i] < 32
  }

  function Spell(indices: seq<Octet>): (text: string)
    requires Small(indices)
    ensures |text| == |indices|
  {
    seq(|indices|, i requires 0 <= i < |indices| => Letter(indices[i]))
  }

  function Encoded(id: Id): string {
    Spell(Indices(id))
  }

  lemma {:induction false} Spell4(text: string, x: seq<Octet>)
    requires |text| == 4 == |x| && Small(x)
    requires text[0] == Letter(x[0]) && text[1] == Letter(x[1]) && text[2] == Letter(x[2]) && text[3] == Letter(x[3])
    ensures text == Spell(x)
  {
  }

  /** Four letters of `encode`, written from the last to the first. */
  method Put4(dst: array<char>, at: nat, w: Octet, x: Octet, y: Octet, z: Octet)
    requires at + 4 <= dst.Length && w < 32 && x < 32 && y < 32 && z < 32
    modifies dst
    ensures dst[at..] == Spell([w, x, y, z]) + old(dst[at + 4..])
  {
    dst[at + 3] := Letter(z);
    dst[at + 2] := Letter(y);
    dst[at + 1] := Letter(x);
    dst[at] := Letter(w);
    Spell4(dst[at..at + 4], [w, x, y, z]);
    assert dst[at..] == dst[at..at + 4] + dst[at + 4..];
  }

  method EncodeUpper(dst: array<char>, at: nat, a: Octet, b: Octet, c: Octet)
    requires at + 4 <= dst.Length
    modifies dst
    ensures dst[at..] == Spell(UpperIndices(a, b, c)) + old(dst[at + 4..])
  {
    Put4(dst, at, a >> 3, (b >> 6) | ((a << 2) & 0x1F), (b >> 1) & 0x1F, (c >> 4) | ((b << 4) & 0x1F));
  }

  method EncodeLower(dst: array<char>, at: nat, c: Octet, d: Octet, e: Octet)
    requires at + 4 <= dst.Length
    modifies dst
    ensures dst[at..] == Spell(LowerIndices(c, d, e)) + old(dst[at + 4..])
  {
    Put4(dst, at, (d >> 7) | ((c << 1) & 0x1F), (d >> 2) & 0x1F, (e >> 5) | ((d << 3) & 0x1F), e & 0x1F);
  }

  method EncodeTail(dst: array<char>, at: nat, a: Octet, b: Octet)
    requires at + 4 <= dst.Length
    modifies dst
    ensures dst[at..] == Spell(TailIndices(a, b)) + old(dst[at + 4..])
  {
    Put4(dst, at, a >> 3, (b >> 6) | ((a << 2) & 0x1F), (b >> 1) & 0x1F, (b << 4) & 0x1F);
  }

  lemma {:induction false} SpellAppend(a: seq<Octet>, b: seq<Octet>)
    requires Small(a) && Small(b)
    ensures Small(a + b) && Spell(a + b) == Spell(a) + Spell(b)
  {
  }

  lemma {:induction false} EncodedParts(id: Id)
    ensures Encoded(id)
         == Spell(UpperIndices(id[0], id[1], id[2])) + Spell(LowerIndices(id[2], id[3], id[4]))
            + Spell(UpperIndices(id[5], id[6], id[7])) + Spell(LowerIndices(id[7], id[8], id[9]))
            + Spell(TailIndices(id[10], id[11]))
  {
    var a, b := UpperIndices(id[0], id[1], id[2]), LowerIndices(id[2], id[3], id[4]);
    var c, d := UpperIndices(id[5], id[6], id[7]), LowerIndices(id[7], id[8], id[9]);
    SpellAppend(a, b);
    SpellAppend(a + b, c);
    SpellAppend(a + b + c, d);
    SpellAppend(a + b + c + d, TailIndices(id[10], id[11]));
  }

  lemma {:induction false} Regroup5(a: string, b: string, c: string, d: string, e: string, rest: string)
    ensures a + (b + (c + (d + (e + rest)))) == a + b + c + d + e + rest
  {
  }

  /** Letters 19 to 12. */
  method EncodeBack(dst: array<char>, b: Id)
    requires dst.Length >= 20
    modifies dst
    ensures dst[12..]
         == Spell(LowerIndices(b[7], b[8], b[9])) + (Spell(TailIndices(b[10], b[11])) + old(dst[20..]))
  {
    EncodeTail(dst, 16, b[10], b[11]);
    EncodeLower(dst, 12, b[7], b[8], b[9]);
  }

  /** Letters 11 to 0. */
  method EncodeFront(dst: array<char>, b: Id)
    requires dst.Length >= 20
    modifies dst
    ensures dst[..]
         == Spell(UpperIndices(b[0], b[1], b[2])) + (Spell(LowerIndices(b[2], b[3], b[4]))
            + (Spell(UpperIndices(b[5], b[6], b[7])) + old(dst[12..])))
  {
    EncodeUpper(dst, 8, b[5], b[6], b[7]);
    EncodeLower(dst, 4, b[2], b[3], b[4]);
    EncodeUpper(dst, 0, b[0], b[1], b[2]);
    assert dst[0..] == dst[..];
  }

  lemma {:induction false} EncodedIs(b: Id, rest: string)
    ensures Spell(UpperIndices(b[0], b[1], b[2])) + (Spell(LowerIndices(b[2], b[3], b[4]))
            + (Spell(UpperIndices(b[5], b[6], b[7])) + (Spell(LowerIndices(b[7], b[8], b[9]))
            + (Spell(TailIndices(b[10], b[11])) + rest))))
         == Encoded(b) + rest
  {
    EncodedParts(b);
    Regroup5(Spell(UpperIndices(b[0], b[1], b[2])), Spell(LowerIndices(b[2], b[3], b[4])),
             Spell(UpperIndices(b[5], b[6], b[7])), Spell(LowerIndices(b[7], b[8], b[9])),
             Spell(TailIndices(b[10], b[11])), rest);
  }

  /** The letters of the twelve bytes; the rest of the destination stays. */
  method Encode(dst: array<char>, id: array<Octet>)
    requires dst.Length >= 20 && id.Length >= 12
    modifies dst
    ensures dst[..] == Encoded(old(id[..12])) + old(dst[20..])
  {
    var b: Id := id[..12];
    EncodeBack(dst, b);
    EncodeFront(dst, b);
    EncodedIs(b, old(dst[20..]));
  }
}
