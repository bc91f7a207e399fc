/** Numbers in network byte order (wire.hpp). */
module Wire {
  type Byte = x: int | 0 <= x < 256

  function PutU32(n: nat): (b: seq<Byte>)
    requires n < 0x1_0000_0000
    ensures |b| == 4
  {
    [n / 0x100_0000, n / 0x1_0000 % 0x100, n / 0x100 % 0x100, n % 0x100]
  }

  function GetU32(b: seq<Byte>): nat
    requires |b| >= 4
  {
    b[0] as int * 0x100_0000 + b[1] as int * 0x1_0000 + b[2] as int * 0x100 + b[3]
  }

  lemma Recompose(n: nat)
    ensures n / 0x1_0000 == n / 0x100_0000 * 0x100 + n / 0x1_0000 % 0x100
    ensures n / 0x100 == n / 0x1_0000 * 0x100 + n / 0x100 % 0x100
    ensures n == n / 0x100 * 0x100 + n % 0x100
  {
    assert n / 0x1_0000 / 0x100 == n / 0x100_0000 && n / 0x100 / 0x100 == n / 0x1_0000;
  }

  lemma GetPut(n: nat, rest: seq<Byte>)
    requires n < 0x1_0000_0000
    ensures GetU32(PutU32(n) + rest) == n
  {
    Recompose(n);
    var b, p := PutU32(n) + rest, PutU32(n);
    assert b[0] == p[0] && b[1] == p[1] && b[2] == p[2] && b[3] == p[3];
  }

  lemma GetFits(b: seq<Byte>)
    requires |b| >= 4
    ensures GetU32(b) < 0x1_0000_0000
  {
  }

  lemma Digits(a: Byte, b: Byte, c: Byte, d: Byte)
    ensures var n := a as int * 0x100_0000 + b as int * 0x1_0000 + c as int * 0x100 + d;
            n / 0x100_0000 == a && n / 0x1_0000 == a as int * 0x100 + b
                && n / 0x100 == a as int * 0x1_0000 + b as int * 0x100 + c && n % 0x100 == d
  {
  }

  lemma PutGet(b: seq<Byte>)
    requires |b| >= 4
    ensures GetU32(b) < 0x1_0000_0000 && PutU32(GetU32(b)) == b[..4]
  {
    GetFits(b);
    Digits(b[0], b[1], b[2], b[3]);
  }

  function PutU64(n: nat): (b: seq<Byte>)
    requires n < 0x1_0000_0000_0000_0000
    ensures |b| == 8
  {
    PutU32(n / 0x1_0000_0000) + PutU32(n % 0x1_0000_0000)
  }

  function GetU64(b: seq<Byte>): nat
    requires |b| >= 8
  {
    GetU32(b) * 0x1_0000_0000 + GetU32(b[4..])
  }

  lemma GetPut64(n: nat)
    requires n < 0x1_0000_0000_0000_0000
    ensures GetU64(PutU64(n)) == n
  {
    var hi, lo := n / 0x1_0000_0000, n % 0x1_0000_0000;
    GetPut(hi, PutU32(lo));
    GetPut(lo, []);
    assert PutU32(lo) + [] == PutU32(lo) && PutU64(n)[4..] == PutU32(lo);
  }

  /** The number that some bytes stand for, the most significant byte first. */
  function BigEndian(b: seq<Byte>): nat {
    if b == [] then 0 else BigEndian(b[..|b| - 1]) * 0x100 + b[|b| - 1]
  }

  lemma OneMore(x: seq<Byte>, c: Byte)
    ensures BigEndian(x + [c]) == BigEndian(x) * 0x100 + c
  {
    assert (x + [c])[..|x|] == x;
  }

  lemma FourMore(x: seq<Byte>, y: seq<Byte>)
    requires |y| == 4
    ensures BigEndian(x + y) == BigEndian(x) * 0x1_0000_0000 + GetU32(y)
  {
    assert x + y == x + [y[0]] + [y[1]] + [y[2]] + [y[3]];
    OneMore(x, y[0]);
    OneMore(x + [y[0]], y[1]);
    OneMore(x + [y[0]] + [y[1]], y[2]);
    OneMore(x + [y[0]] + [y[1]] + [y[2]], y[3]);
  }

  /** The bytes written stand for the number in network byte order. */
  lemma PutIsBigEndian(n: nat)
    requires n < 0x1_0000_0000
    ensures BigEndian(PutU32(n)) == n
  {
    FourMore([], PutU32(n));
    GetPut(n, []);
    assert [] + PutU32(n) == PutU32(n) == PutU32(n) + [];
  }

  lemma Put64IsBigEndian(n: nat)
    requires n < 0x1_0000_0000_0000_0000
    ensures BigEndian(PutU64(n)) == n
  {
    var hi, lo := n / 0x1_0000_0000, n % 0x1_0000_0000;
    PutIsBigEndian(hi);
    FourMore(PutU32(hi), PutU32(lo));
    GetPut(lo, []);
    assert PutU32(lo) + [] == PutU32(lo);
  }
}
