/** Network byte order: the integers of discovery_wire.c as byte sequences. */
module WireBytes {

  type Byte = b: nat | b < 256
  type U16 = n: nat | n < 0x1_0000
  type U32 = n: nat | n < 0x1_0000_0000
  type U64 = n: nat | n < 0x1_0000_0000_0000_0000

  /** How many numbers fit in n bytes. */
  function Span(n: nat): (p: nat)
    ensures p > 0
  {
    if n == 0 then 1 else 256 * Span(n - 1)
  }

  function BigEndian(v: nat, n: nat): (s: seq<Byte>)
    ensures |s| == n
    decreases n, v
  {
    if n == 0 then [] else BigEndian(v / 256, n - 1) + [v % 256]
  }

  function Value(s: seq<Byte>): nat {
    if s == [] then 0 else 256 * Value(s[..|s| - 1]) + s[|s| - 1]
  }

  function Zeros(n: nat): (s: seq<Byte>)
    ensures |s| == n
    ensures forall k :: 0 <= k < n ==> s[k] == 0
  {
    seq(n, _ => 0)
  }

  lemma Spans()
    ensures Span(2) == 0x1_0000 && Span(4) == 0x1_0000_0000 && Span(8) == 0x1_0000_0000_0000_0000
  {
  }

  lemma {:induction false} ValueOfBigEndian(v: nat, n: nat)
    requires v < Span(n)
    ensures Value(BigEndian(v, n)) == v
    decreases n
  {
    if n != 0 {
      ValueOfBigEndian(v / 256, n - 1);
      assert BigEndian(v, n)[..n - 1] == BigEndian(v / 256, n - 1);
    }
  }

  lemma {:induction false} BigEndianOfValue(s: seq<Byte>)
    ensures Value(s) < Span(|s|) && BigEndian(Value(s), |s|) == s
  {
    if s != [] {
      BigEndianOfValue(s[..|s| - 1]);
      assert s == s[..|s| - 1] + [s[|s| - 1]];
    }
  }

  lemma BelowProduct(a: nat, b: nat, x: nat, r: nat)
    requires x < b && r < a
    ensures a * x + r < a * b
  {
    assert a * x <= a * (b - 1);
  }

  lemma Multiples(d: nat, t: int)
    ensures t >= 1 ==> d * t >= d
    ensures t <= -1 ==> d * t + d <= 0
  {
  }

  lemma QuotientIs(v: int, d: nat, q: int, r: nat)
    requires d > 0 && v == d * q + r && r < d
    ensures v / d == q
  {
    var t := v / d - q;
    assert d * t == r - v % d;
    Multiples(d, t);
  }

  lemma DivideTwice(v: nat, a: nat, b: nat)
    requires a > 0 && b > 0
    ensures v / a / b == v / (a * b)
  {
    var q, r := v / a, v % a;
    var q', r' := q / b, q % b;
    assert a * q == a * (b * q') + a * r';
    assert v == (a * b) * q' + (a * r' + r);
    BelowProduct(a, b, r', r);
    QuotientIs(v, a * b, q', a * r' + r);
  }

  /** The shifts of write_u16, write_u32 and write_u64: byte k is the number shifted right by
      whole bytes and cut. */
  lemma {:induction false} ByteOf(v: nat, n: nat, k: nat)
    requires k < n
    ensures BigEndian(v, n)[k] == v / Span(n - 1 - k) % 256
    decreases n
  {
    if k < n - 1 {
      ByteOf(v / 256, n - 1, k);
      DivideTwice(v, 256, Span(n - 2 - k));
    }
  }
}
