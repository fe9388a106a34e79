/** What the text of an id determines: its bytes, their order, and so the counter of one process in one second. */
module XidOrder {
  import opened Sorting
  import opened Xid

  // ----- reading a text back

  function DigitOf(c: char): nat {
    if '0' <= c <= '9' then (c - '0') as nat else if 'a' <= c <= 'v' then (c - 'a') as nat + 10 else 0
  }

  function DigitsOf(text: string): (ds: seq<nat>)
    ensures |ds| == |text|
  {
    seq(|text|, i requires 0 <= i < |text| => DigitOf(text[i]))
  }

  lemma {:induction false} LetterIs(index: Octet)
    requires index < 32
    ensures DigitOf(Letter(index)) == Num(index)
    ensures Letter(index) == if Num(index) < 10 then '0' + Num(index) as char else 'a' + (Num(index) - 10) as char
  {
    EncodingAt(Num(index));
  }

  lemma {:induction false} EncodingAt(n: nat)
    requires n < 32
    ensures ENCODING[n] == if n < 10 then '0' + n as char else 'a' + (n - 10) as char
  {
  }

  lemma {:induction false} DigitsOfSpell(indices: seq<Octet>)
    requires Small(indices)
    ensures DigitsOf(Spell(indices)) == Nums(indices)
  {
    forall i | 0 <= i < |indices| ensures DigitOf(Letter(indices[i])) == Num(indices[i]) {
      LetterIs(indices[i]);
    }
  }

  /** Five bytes from eight digits. */
  function GroupBytes(d: seq<nat>): seq<nat>
    requires |d| == 8
  {
    [d[0] * 8 + d[1] / 4, d[1] % 4 * 64 + d[2] * 2 + d[3] / 16, d[3] % 16 * 16 + d[4] / 2,
     d[4] % 2 * 128 + d[5] * 4 + d[6] / 8, d[6] % 8 * 32 + d[7]]
  }

  function TailBytes(d: seq<nat>): seq<nat>
    requires |d| == 4
  {
    [d[0] * 8 + d[1] / 4, d[1] % 4 * 64 + d[2] * 2 + d[3] / 16]
  }

  /** The decoder: the twelve bytes of a text. */
  function Decode(text: string): seq<nat>
    requires |text| == 20
  {
    var d := DigitsOf(text);
    GroupBytes(d[..8]) + GroupBytes(d[8..16]) + TailBytes(d[16..])
  }

  lemma {:induction false} Byte0(a: nat, b: nat)
    requires a < 256 && b < 256
    ensures a / 8 * 8 + (a % 8 * 4 + b / 64) / 4 == a
  {
  }

  lemma {:induction false} Byte1(a: nat, b: nat, c: nat)
    requires b < 256 && c < 256
    ensures (a % 8 * 4 + b / 64) % 4 * 64 + b / 2 % 32 * 2 + (b % 2 * 16 + c / 16) / 16 == b
  {
    assert (a % 8 * 4 + b / 64) % 4 == b / 64 && (b % 2 * 16 + c / 16) / 16 == b % 2;
  }

  lemma {:induction false} Byte2(b: nat, c: nat, d: nat)
    requires c < 256 && d < 256
    ensures (b % 2 * 16 + c / 16) % 16 * 16 + (c % 16 * 2 + d / 128) / 2 == c
  {
    assert (b % 2 * 16 + c / 16) % 16 == c / 16 && (c % 16 * 2 + d / 128) / 2 == c % 16;
  }

  lemma {:induction false} Byte3(c: nat, d: nat, e: nat)
    requires d < 256 && e < 256
    ensures (c % 16 * 2 + d / 128) % 2 * 128 + d / 4 % 32 * 4 + (d % 4 * 8 + e / 32) / 8 == d
  {
    assert (c % 16 * 2 + d / 128) % 2 == d / 128 && (d % 4 * 8 + e / 32) / 8 == d % 4;
  }

  lemma {:induction false} Byte4(d: nat, e: nat)
    requires e < 256
    ensures (d % 4 * 8 + e / 32) % 8 * 32 + e % 32 == e
  {
    assert (d % 4 * 8 + e / 32) % 8 == e / 32;
  }

  lemma {:induction false} GroupBytesAre(u: seq<nat>, v: seq<nat>, a: nat, b: nat, c: nat, d: nat, e: nat)
    requires |u| == 4 == |v|
    requires u[0] * 8 + u[1] / 4 == a && u[1] % 4 * 64 + u[2] * 2 + u[3] / 16 == b
    requires u[3] % 16 * 16 + v[0] / 2 == c
    requires v[0] % 2 * 128 + v[1] * 4 + v[2] / 8 == d && v[2] % 8 * 32 + v[3] == e
    ensures GroupBytes(u + v) == [a, b, c, d, e]
  {
  }

  lemma {:induction false} GroupBack(a: nat, b: nat, c: nat, d: nat, e: nat)
    requires a < 256 && b < 256 && c < 256 && d < 256 && e < 256
    ensures |Group(a, b, c, d, e)| == 8 && GroupBytes(Group(a, b, c, d, e)) == [a, b, c, d, e]
  {
    Byte0(a, b);
    Byte1(a, b, c);
    Byte2(b, c, d);
    Byte3(c, d, e);
    Byte4(d, e);
    GroupBytesAre(UpperDigits(a, b, c), LowerDigits(c, d, e), a, b, c, d, e);
  }

  lemma {:induction false} TailBack(a: nat, b: nat)
    requires a < 256 && b < 256
    ensures |TailDigits(a, b)| == 4 && TailBytes(TailDigits(a, b)) == [a, b]
  {
    Byte0(a, b);
    Byte1(a, b, 0);
  }

  lemma {:induction false} NumsInBase(bytes: seq<Octet>)
    ensures InBase(256, Nums(bytes))
  {
    assert forall i :: 0 <= i < |bytes| ==> Nums(bytes)[i] == Num(bytes[i]);
  }

  lemma {:induction false} Thirds(g: seq<nat>, h: seq<nat>, t: seq<nat>)
    requires |g| == 8 && |h| == 8 && |t| == 4
    ensures var d := g + h + t; d[..8] == g && d[8..16] == h && d[16..] == t
  {
  }

  /** The decoder inverts the encoding. */
  lemma {:induction false} DecodeEncoded(id: Id)
    ensures |Encoded(id)| == 20 && Decode(Encoded(id)) == Nums(id)
  {
    var ns := Nums(id);
    NumsInBase(id);
    DigitsOfSpell(Indices(id));
    IndicesAreDigits(id);
    DigitParts(ns);
    GroupBack(ns[0], ns[1], ns[2], ns[3], ns[4]);
    GroupBack(ns[5], ns[6], ns[7], ns[8], ns[9]);
    TailBack(ns[10], ns[11]);
    Thirds(Group(ns[0], ns[1], ns[2], ns[3], ns[4]), Group(ns[5], ns[6], ns[7], ns[8], ns[9]),
           TailDigits(ns[10], ns[11]));
    Parts(ns);
  }

  lemma {:induction false} NumInjective(a: Octet, b: Octet)
    requires Num(a) == Num(b)
    ensures a == b
  {
  }

  lemma {:induction false} NumsInjective(a: seq<Octet>, b: seq<Octet>)
    requires Nums(a) == Nums(b)
    ensures a == b
  {
    assert |Nums(a)| == |Nums(b)|;
    forall i | 0 <= i < |a| ensures a[i] == b[i] {
      assert Nums(a)[i] == Nums(b)[i];
      NumInjective(a[i], b[i]);
    }
  }

  lemma {:induction false} EncodedInjective(a: Id, b: Id)
    ensures Encoded(a) == Encoded(b) <==> a == b
  {
    if Encoded(a) == Encoded(b) {
      DecodeEncoded(a);
      DecodeEncoded(b);
      NumsInjective(a, b);
    }
  }

  // ----- order

  /** The lexicographic order on digits. */
  predicate LexLess(a: seq<nat>, b: seq<nat>) {
    b != [] && (a == [] || a[0] < b[0] || (a[0] == b[0] && LexLess(a[1..], b[1..])))
  }

  lemma {:induction false} ValueCons(base: nat, ds: seq<nat>)
    requires ds != []
    ensures Value(base, ds) == ds[0] * Power(base, |ds| - 1) + Value(base, ds[1..])
  {
    assert ds == [ds[0]] + ds[1..];
    ValueAppend(base, [ds[0]], ds[1..]);
    assert Value(base, []) == 0 && [] + [ds[0]] == [ds[0]];
    ValueSnoc(base, [], ds[0]);
  }

  lemma {:induction false} ValueBound(base: nat, ds: seq<nat>)
    requires InBase(base, ds)
    ensures Value(base, ds) < Power(base, |ds|)
  {
    if ds != [] {
      var before := ds[..|ds| - 1];
      ValueBound(base, before);
      OneMoreDigit(Value(base, before), Power(base, |before|), base, ds[|ds| - 1]);
    }
  }

  lemma {:induction false} OneMoreDigit(v: nat, p: nat, base: nat, d: nat)
    requires v < p && d < base
    ensures v * base + d < p * base
  {
    assert (v + 1) * base <= p * base;
  }

  lemma {:induction false} FirstDecides(x: nat, y: nat, p: nat, v: nat, w: nat)
    requires v < p && w < p
    ensures x < y ==> x * p + v < y * p + w
    ensures x > y ==> x * p + v > y * p + w
  {
    if x < y {
      assert (x + 1) * p <= y * p;
    } else if x > y {
      assert (y + 1) * p <= x * p;
    }
  }

  /** Among digit strings of one length, the lexicographic order is the numeric one. */
  lemma {:induction false} LexIsValue(base: nat, a: seq<nat>, b: seq<nat>)
    requires |a| == |b| && InBase(base, a) && InBase(base, b)
    ensures LexLess(a, b) <==> Value(base, a) < Value(base, b)
  {
    if a != [] {
      LexIsValue(base, a[1..], b[1..]);
      ValueCons(base, a);
      ValueCons(base, b);
      ValueBound(base, a[1..]);
      ValueBound(base, b[1..]);
      FirstDecides(a[0], b[0], Power(base, |a| - 1), Value(base, a[1..]), Value(base, b[1..]));
    }
  }

  lemma {:induction false} LetterOrder(x: Octet, y: Octet)
    requires x < 32 && y < 32
    ensures Letter(x) < Letter(y) <==> Num(x) < Num(y)
    ensures Letter(x) == Letter(y) <==> Num(x) == Num(y)
  {
    LetterIs(x);
    LetterIs(y);
  }

  lemma {:induction false} SpellTail(x: seq<Octet>)
    requires x != [] && Small(x)
    ensures Small(x[1..]) && Spell(x)[1..] == Spell(x[1..]) && Spell(x)[0] == Letter(x[0])
    ensures Nums(x)[1..] == Nums(x[1..]) && Nums(x)[0] == Num(x[0])
  {
  }

  lemma {:induction false} SpellOrder(x: seq<Octet>, y: seq<Octet>)
    requires |x| == |y| && Small(x) && Small(y)
    ensures Less(Spell(x), Spell(y)) <==> LexLess(Nums(x), Nums(y))
  {
    if x != [] {
      SpellTail(x);
      SpellTail(y);
      LetterOrder(x[0], y[0]);
      SpellOrder(x[1..], y[1..]);
    }
  }

  /** The order of the texts is the order of the bytes. */
  lemma {:induction false} TextOrderIsByteOrder(a: Id, b: Id)
    ensures Less(Encoded(a), Encoded(b)) <==> LexLess(Nums(a), Nums(b))
  {
    SpellOrder(Indices(a), Indices(b));
    IndicesAreDigits(a);
    IndicesAreDigits(b);
    NumsInBase(a);
    NumsInBase(b);
    DigitsInBase(Nums(a));
    DigitsInBase(Nums(b));
    LexIsValue(32, Digits(Nums(a)), Digits(Nums(b)));
    LexIsValue(256, Nums(a), Nums(b));
    DigitsValue(Nums(a));
    DigitsValue(Nums(b));
  }

  // ----- ids of one process

  lemma {:induction false} NextByte(b: Octet)
    requires Num(b) < 255
    ensures Num(b + 1) == Num(b) + 1
  {
  }

  function ToByte(n: nat): (b: Octet)
    requires n < 256
    ensures Num(b) == n
  {
    if n == 0 then 0
    else
      NextByte(ToByte(n - 1));
      ToByte(n - 1) + 1
  }

  /** A conversion to `byte`. */
  function ByteOf(n: int): (b: Octet)
    ensures Num(b) == n % 256
  {
    ToByte(n % 256)
  }

  type Machine = m: seq<Octet> | |m| == 3 witness [0, 0, 0]

  const UINT32 := 0x1_0000_0000

  /** Four bytes, big-endian. */
  function TimeBytes(t: nat): (bytes: seq<Octet>)
    ensures |bytes| == 4
  {
    [ByteOf(t / 0x100_0000), ByteOf(t / 0x1_0000), ByteOf(t / 0x100), ByteOf(t)]
  }

  /** The low three bytes of the counter. */
  function CountBytes(i: nat): (bytes: seq<Octet>)
    ensures |bytes| == 3
  {
    [ByteOf(i / 0x1_0000), ByteOf(i / 0x100), ByteOf(i)]
  }

  function PidBytes(pid: int): (bytes: seq<Octet>)
    ensures |bytes| == 2
  {
    [ByteOf(pid / 256), ByteOf(pid)]
  }

  function IdOf(now: int, machine: Machine, pid: int, i: nat): Id {
    TimeBytes(now % UINT32) + machine + PidBytes(pid) + CountBytes(i)
  }

  function IdText(now: int, machine: Machine, pid: int, i: nat): string {
    Encoded(IdOf(now, machine, pid, i))
  }

  type UInt32 = n: nat | n < UINT32 witness 0

  /** The package variables of utils/id.go. */
  class Generator {
    const machine: Machine
    const pid: int
    var counter: UInt32

    constructor (machine: Machine, pid: int, start: UInt32)
      ensures this.machine == machine && this.pid == pid && counter == start
    {
      this.machine, this.pid, counter := machine, pid, start;
    }

    static method PutUint32(id: array<Octet>, t: nat)
      requires id.Length == 12
      modifies id
      ensures id[..] == TimeBytes(t) + old(id[4..])
    {
      id[0], id[1], id[2], id[3] := ByteOf(t / 0x100_0000), ByteOf(t / 0x1_0000), ByteOf(t / 0x100), ByteOf(t);
    }

    method PutOrigin(id: array<Octet>)
      requires id.Length == 12
      modifies id
      ensures id[..] == old(id[..4]) + machine + PidBytes(pid) + old(id[9..])
    {
      id[4] := machine[0];
      id[5] := machine[1];
      id[6] := machine[2];
      id[7] := ByteOf(pid / 256);
      id[8] := ByteOf(pid);
    }

    static method PutCounter(id: array<Octet>, i: nat)
      requires id.Length == 12
      modifies id
      ensures id[..] == old(id[..9]) + CountBytes(i)
    {
      id[9] := ByteOf(i / 0x1_0000);
      id[10] := ByteOf(i / 0x100);
      id[11] := ByteOf(i);
    }

    /** `XID`: the counter goes up by one, in 32 bits, and the id carries it. */
    method XID(now: int) returns (text: string)
      modifies this
      ensures counter == (old(counter) + 1) % UINT32
      ensures text == IdText(now, machine, pid, counter)
    {
      var id := new Octet[12];
      PutUint32(id, now % UINT32);
      PutOrigin(id);
      counter := (counter + 1) % UINT32;
      PutCounter(id, counter);
      var dst := new char[20];
      assert id[..12] == IdOf(now, machine, pid, counter);
      Encode(dst, id);
      return dst[..];
    }
  }

  // ----- what two ids of one process have in common

  lemma {:induction false} All32(t: nat)
    requires t < UINT32
    ensures t == t / 0x100_0000 % 256 * 0x100_0000 + t / 0x1_0000 % 256 * 0x1_0000 + t / 0x100 % 256 * 0x100 + t % 256
  {
  }

  lemma {:induction false} TimeBytesEqual(t: nat, u: nat)
    requires t < UINT32 && u < UINT32
    ensures TimeBytes(t) == TimeBytes(u) <==> t == u
  {
    if TimeBytes(t) == TimeBytes(u) {
      All32(t);
      All32(u);
      SameBytes(TimeBytes(t), TimeBytes(u));
    }
  }

  lemma {:induction false} SameBytes(a: seq<Octet>, b: seq<Octet>)
    requires a == b
    ensures forall i :: 0 <= i < |a| ==> Num(a[i]) == Num(b[i])
  {
  }

  lemma {:induction false} LowBytes(i: nat)
    ensures var low := i % 0x100_0000;
            i / 0x1_0000 % 256 == low / 0x1_0000 && i / 0x100 % 256 == low / 0x100 % 256 && i % 256 == low % 256
  {
    var q, low := i / 0x100_0000, i % 0x100_0000;
    assert i / 0x1_0000 == q * 256 + low / 0x1_0000;
    assert i / 0x100 == q * 0x1_0000 + low / 0x100;
  }

  lemma {:induction false} CountNums(i: nat)
    ensures var low := i % 0x100_0000; Nums(CountBytes(i)) == [low / 0x1_0000, low / 0x100 % 256, low % 256]
  {
    LowBytes(i);
  }

  lemma {:induction false} ThreeBytes(low: nat)
    requires low < 0x100_0000
    ensures low == low / 0x1_0000 * 0x1_0000 + low / 0x100 % 256 * 0x100 + low % 256
  {
  }

  lemma {:induction false} CountBytesEqual(i: nat, j: nat)
    ensures CountBytes(i) == CountBytes(j) <==> i % 0x100_0000 == j % 0x100_0000
  {
    CountNums(i);
    CountNums(j);
    if Nums(CountBytes(i)) == Nums(CountBytes(j)) {
      NumsInjective(CountBytes(i), CountBytes(j));
      SameThree(i % 0x100_0000, j % 0x100_0000);
    }
  }

  lemma {:induction false} SameThree(x: nat, y: nat)
    requires x < 0x100_0000 && y < 0x100_0000
    requires [x / 0x1_0000, x / 0x100 % 256, x % 256] == [y / 0x1_0000, y / 0x100 % 256, y % 256]
    ensures x == y
  {
    ThreeBytes(x);
    ThreeBytes(y);
    assert [x / 0x1_0000, x / 0x100 % 256, x % 256][0] == [y / 0x1_0000, y / 0x100 % 256, y % 256][0];
    assert [x / 0x1_0000, x / 0x100 % 256, x % 256][1] == [y / 0x1_0000, y / 0x100 % 256, y % 256][1];
    assert [x / 0x1_0000, x / 0x100 % 256, x % 256][2] == [y / 0x1_0000, y / 0x100 % 256, y % 256][2];
  }

  lemma {:induction false} PartsEqual(a: seq<Octet>, b: seq<Octet>, m: seq<Octet>, p: seq<Octet>, c: seq<Octet>,
                                      d: seq<Octet>)
    requires |a| == |b|
    ensures a + m + p + c == b + m + p + d <==> a == b && c == d
  {
    if a + m + p + c == b + m + p + d {
      assert a == (a + m + p + c)[..|a|] && b == (b + m + p + d)[..|a|];
      assert c == (a + m + p + c)[|a| + |m| + |p|..] && d == (b + m + p + d)[|a| + |m| + |p|..];
    }
  }

  /** Two ids of one process are equal exactly when their seconds and the low 24 bits of their counters are. */
  lemma {:induction false} IdsEqual(machine: Machine, pid: int, now: int, i: nat, now': int, i': nat)
    ensures IdText(now, machine, pid, i) == IdText(now', machine, pid, i')
        <==> now % UINT32 == now' % UINT32 && i % 0x100_0000 == i' % 0x100_0000
  {
    EncodedInjective(IdOf(now, machine, pid, i), IdOf(now', machine, pid, i'));
    PartsEqual(TimeBytes(now % UINT32), TimeBytes(now' % UINT32), machine, PidBytes(pid),
               CountBytes(i), CountBytes(i'));
    TimeBytesEqual(now % UINT32, now' % UINT32);
    CountBytesEqual(i, i');
  }

  lemma {:induction false} TwoBytes(pid: int)
    ensures pid / 256 % 256 * 256 + pid % 256 == pid % 0x1_0000
  {
  }

  lemma {:induction false} PidNums(pid: int)
    ensures Nums(PidBytes(pid)) == [pid / 256 % 256, pid % 256]
  {
  }

  lemma {:induction false} PartNums(a: seq<Octet>, m: seq<Octet>, p: seq<Octet>, c: seq<Octet>)
    requires |a| == 4 && |m| == 3 && |p| == 2 && |c| == 3
    ensures Nums(a + m + p + c)[..4] == Nums(a) && Nums(a + m + p + c)[4..7] == Nums(m)
    ensures Nums(a + m + p + c)[7..9] == Nums(p) && Nums(a + m + p + c)[9..] == Nums(c)
  {
  }

  /** What stands in twelve bytes: 32 bits of seconds, the machine, 16 bits of the process, 24 bits of the counter. */
  predicate Carries(ns: seq<nat>, now: int, machine: Machine, pid: int, i: nat)
    requires |ns| == 12
  {
    && ns[0] * 0x100_0000 + ns[1] * 0x1_0000 + ns[2] * 0x100 + ns[3] == now % 0x1_0000_0000
    && ns[4..7] == Nums(machine)
    && ns[7] * 0x100 + ns[8] == pid % 0x1_0000
    && ns[9] * 0x1_0000 + ns[10] * 0x100 + ns[11] == i % 0x100_0000
  }

  lemma {:induction false} CarriesParts(ns: seq<nat>, now: int, machine: Machine, pid: int, i: nat)
    requires |ns| == 12 && ns[..4] == Nums(TimeBytes(now % UINT32)) && ns[4..7] == Nums(machine)
    requires ns[7..9] == Nums(PidBytes(pid)) && ns[9..] == Nums(CountBytes(i))
    ensures Carries(ns, now, machine, pid, i)
  {
    TimeNums(now % UINT32);
    All32(now % UINT32);
    PidNums(pid);
    TwoBytes(pid);
    CountNums(i);
    ThreeBytes(i % 0x100_0000);
    assert ns[0] == ns[..4][0] && ns[1] == ns[..4][1] && ns[2] == ns[..4][2] && ns[3] == ns[..4][3];
    assert ns[7] == ns[7..9][0] && ns[8] == ns[7..9][1];
    assert ns[9] == ns[9..][0] && ns[10] == ns[9..][1] && ns[11] == ns[9..][2];
  }

  /** The text of an id, decoded, carries the second, the machine, the process and the counter it was made from. */
  lemma {:induction false} IdCarries(now: int, machine: Machine, pid: int, i: nat)
    ensures Carries(Decode(IdText(now, machine, pid, i)), now, machine, pid, i)
  {
    DecodeEncoded(IdOf(now, machine, pid, i));
    PartNums(TimeBytes(now % UINT32), machine, PidBytes(pid), CountBytes(i));
    CarriesParts(Nums(IdOf(now, machine, pid, i)), now, machine, pid, i);
  }

  /** The counter after `n` more calls. */
  function CounterAfter(start: nat, n: nat): nat {
    (start + n) % UINT32
  }

  lemma {:induction false} NextCounter(start: nat, n: nat)
    ensures (CounterAfter(start, n) + 1) % UINT32 == CounterAfter(start, n + 1)
  {
  }

  lemma {:induction false} Wraps(x: nat)
    ensures x % UINT32 % 0x100_0000 == x % 0x100_0000
  {
  }

  lemma {:induction false} SameRemainder(x: nat, d: nat)
    ensures (x + d) % 0x100_0000 == x % 0x100_0000 <==> d % 0x100_0000 == 0
  {
  }

  /**
   Of the ids that one process makes in one second, the j-th and the k-th are
   equal exactly when they are a multiple of 2^24 calls apart, wherever the
   32-bit counter starts or wraps.
   */
  lemma {:induction false} CollideExactly(machine: Machine, pid: int, now: int, start: nat, j: nat, k: nat)
    requires j <= k
    ensures IdText(now, machine, pid, CounterAfter(start, j)) == IdText(now, machine, pid, CounterAfter(start, k))
        <==> (k - j) % 0x100_0000 == 0
  {
    IdsEqual(machine, pid, now, CounterAfter(start, j), now, CounterAfter(start, k));
    Wraps(start + j);
    Wraps(start + k);
    SameRemainder(start + j, k - j);
    assert start + k == start + j + (k - j);
  }

  /** Up to 2^24 ids that one process makes in one second are pairwise distinct. */
  lemma {:induction false} DistinctWithinSecond(machine: Machine, pid: int, now: int, start: nat, j: nat, k: nat)
    requires 1 <= j < k <= 0x100_0000
    ensures IdText(now, machine, pid, CounterAfter(start, j)) != IdText(now, machine, pid, CounterAfter(start, k))
  {
    CollideExactly(machine, pid, now, start, j, k);
    assert (k - j) % 0x100_0000 == k - j;
  }

  /** The ids of calls one after the other, from the counter `start`, when `text` gives the id of a counter. */
  predicate AreMade(ids: seq<string>, text: nat -> string, start: nat) {
    forall j :: 0 <= j < |ids| ==> ids[j] == text(CounterAfter(start, j + 1))
  }

  /** The ids of one process in one second. */
  function Texts(now: int, machine: Machine, pid: int): nat -> string {
    (i: nat) => IdText(now, machine, pid, i)
  }

  lemma {:induction false} OneMore(ids: seq<string>, id: string, text: nat -> string, start: nat)
    requires AreMade(ids, text, start) && id == text(CounterAfter(start, |ids| + 1))
    ensures AreMade(ids + [id], text, start)
  {
  }

  /** The texts of up to 2^24 counters in a row differ. */
  ghost predicate AllDiffer(text: nat -> string, start: nat) {
    forall a: nat, b: nat :: 1 <= a < b <= 0x100_0000 ==> text(CounterAfter(start, a)) != text(CounterAfter(start, b))
  }

  lemma {:induction false} TextsDiffer(now: int, machine: Machine, pid: int, start: nat)
    ensures AllDiffer(Texts(now, machine, pid), start)
  {
    forall a: nat, b: nat | 1 <= a < b <= 0x100_0000
      ensures Texts(now, machine, pid)(CounterAfter(start, a)) != Texts(now, machine, pid)(CounterAfter(start, b))
    {
      DistinctWithinSecond(machine, pid, now, start, a, b);
    }
  }

  lemma {:induction false} MadeAreDistinct(ids: seq<string>, text: nat -> string, start: nat)
    requires AreMade(ids, text, start) && AllDiffer(text, start) && |ids| <= 0x100_0000
    ensures forall j, k :: 0 <= j < k < |ids| ==> ids[j] != ids[k]
  {
    forall j, k | 0 <= j < k < |ids| ensures ids[j] != ids[k] {
      assert text(CounterAfter(start, j + 1)) != text(CounterAfter(start, k + 1));
    }
  }

  method NextText(g: Generator, now: int) returns (id: string)
    modifies g
    ensures g.counter == (old(g.counter) + 1) % UINT32
    ensures id == Texts(now, g.machine, g.pid)(g.counter)
  {
    id := g.XID(now);
  }

  method MakeOne(g: Generator, now: int, ghost ids: seq<string>, ghost start: nat) returns (id: string)
    requires AreMade(ids, Texts(now, g.machine, g.pid), start) && g.counter == CounterAfter(start, |ids|)
    modifies g
    ensures AreMade(ids + [id], Texts(now, g.machine, g.pid), start)
    ensures g.counter == CounterAfter(start, |ids| + 1)
  {
    NextCounter(start, |ids|);
    id := NextText(g, now);
    OneMore(ids, id, Texts(now, g.machine, g.pid), start);
  }

  /** Calling `XID` up to 2^24 times within a second, from any state of the counter, makes no id twice. */
  method MakeIds(g: Generator, now: int, n: nat) returns (ids: seq<string>)
    requires n <= 0x100_0000
    modifies g
    ensures |ids| == n && forall j, k :: 0 <= j < k < n ==> ids[j] != ids[k]
    ensures AreMade(ids, Texts(now, g.machine, g.pid), old(g.counter))
    ensures g.counter == CounterAfter(old(g.counter), n)
  {
    ghost var start := g.counter;
    ids := [];
    for i := 0 to n
      invariant |ids| == i && AreMade(ids, Texts(now, g.machine, g.pid), start)
      invariant g.counter == CounterAfter(start, i)
    {
      var id := MakeOne(g, now, ids, start);
      ids := ids + [id];
    }
    TextsDiffer(now, g.machine, g.pid, start);
    MadeAreDistinct(ids, Texts(now, g.machine, g.pid), start);
  }

  // ----- order in time

  lemma {:induction false} TimeNums(t: nat)
    requires t < UINT32
    ensures Nums(TimeBytes(t)) == [t / 0x100_0000, t / 0x1_0000 % 256, t / 0x100 % 256, t % 256]
  {
    assert t / 0x100_0000 % 256 == t / 0x100_0000;
    Four(Num, ByteOf(t / 0x100_0000), ByteOf(t / 0x1_0000), ByteOf(t / 0x100), ByteOf(t));
  }

  lemma {:induction false} Horner(t: nat)
    ensures ((t / 0x100_0000 * 256 + t / 0x1_0000 % 256) * 256 + t / 0x100 % 256) * 256 + t % 256 == t
  {
    UpperQuotient(t);
    LowerQuotient(t);
  }

  lemma {:induction false} UpperQuotient(t: nat)
    ensures t / 0x1_0000 == t / 0x100_0000 * 256 + t / 0x1_0000 % 256
  {
    assert t / 0x1_0000 / 256 == t / 0x100_0000;
  }

  lemma {:induction false} LowerQuotient(t: nat)
    ensures t / 0x100 == t / 0x1_0000 * 256 + t / 0x100 % 256
  {
    assert t / 0x100 / 256 == t / 0x1_0000;
  }

  lemma {:induction false} TimeValue(t: nat)
    requires t < UINT32
    ensures Value(256, Nums(TimeBytes(t))) == t
  {
    TimeNums(t);
    Value4(256, t / 0x100_0000, t / 0x1_0000 % 256, t / 0x100 % 256, t % 256);
    Horner(t);
  }

  lemma {:induction false} LexPrefix(a: seq<nat>, b: seq<nat>, c: seq<nat>, d: seq<nat>)
    requires |a| == |b| && LexLess(a, b)
    ensures LexLess(a + c, b + d)
  {
    if a[0] == b[0] {
      LexPrefix(a[1..], b[1..], c, d);
      assert (a + c)[1..] == a[1..] + c && (b + d)[1..] == b[1..] + d;
    }
  }

  function Origin(machine: Machine, pid: int, i: nat): seq<nat> {
    Nums(machine + PidBytes(pid) + CountBytes(i))
  }

  lemma {:induction false} IdNums(now: int, machine: Machine, pid: int, i: nat)
    requires 0 <= now < UINT32
    ensures Nums(IdOf(now, machine, pid, i)) == Nums(TimeBytes(now)) + Origin(machine, pid, i)
  {
    assert now % UINT32 == now;
    NumsAppend(TimeBytes(now), machine + PidBytes(pid) + CountBytes(i));
    assert IdOf(now, machine, pid, i) == TimeBytes(now) + (machine + PidBytes(pid) + CountBytes(i));
  }

  lemma {:induction false} ValueDecides(x: seq<nat>, y: seq<nat>, c: seq<nat>, d: seq<nat>)
    requires |x| == |y| && InBase(256, x) && InBase(256, y) && Value(256, x) < Value(256, y)
    ensures LexLess(x + c, y + d)
  {
    LexIsValue(256, x, y);
    LexPrefix(x, y, c, d);
  }

  lemma {:induction false} TimeDecides(t: nat, u: nat, c: seq<nat>, d: seq<nat>)
    requires t < u < UINT32
    ensures LexLess(Nums(TimeBytes(t)) + c, Nums(TimeBytes(u)) + d)
  {
    TimeValue(t);
    TimeValue(u);
    NumsInBase(TimeBytes(t));
    NumsInBase(TimeBytes(u));
    ValueDecides(Nums(TimeBytes(t)), Nums(TimeBytes(u)), c, d);
  }

  lemma {:induction false} LaterBytes(machine: Machine, pid: int, now: int, i: nat, now': int, i': nat)
    requires 0 <= now < now' < UINT32
    ensures LexLess(Nums(IdOf(now, machine, pid, i)), Nums(IdOf(now', machine, pid, i')))
  {
    IdNums(now, machine, pid, i);
    IdNums(now', machine, pid, i');
    TimeDecides(now, now', Origin(machine, pid, i), Origin(machine, pid, i'));
  }

  /** The id of a later second sorts after, as long as the seconds fit 32 bits. */
  lemma {:induction false} LaterSortsAfter(machine: Machine, pid: int, now: int, i: nat, now': int, i': nat)
    requires 0 <= now < now' < UINT32
    ensures Less(IdText(now, machine, pid, i), IdText(now', machine, pid, i'))
  {
    LaterBytes(machine, pid, now, i, now', i');
    TextOrderIsByteOrder(IdOf(now, machine, pid, i), IdOf(now', machine, pid, i'));
  }
}
