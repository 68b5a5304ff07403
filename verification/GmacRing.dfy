/** The ring index arithmetic of sunxi-gmac.c: circ_cnt, circ_space and circ_inc. */
module GmacRing {

  const WORD: nat := 32

  function Pow2(w: nat): nat { if w == 0 then 1 else 2 * Pow2(w - 1) }

  function BitAnd(a: nat, b: nat): nat {
    if a == 0 || b == 0 then 0 else 2 * BitAnd(a / 2, b / 2) + (a % 2) * (b % 2)
  }

  /** C's `x & mask` for a 32-bit `x`, negative ones in two's complement. */
  function And(x: int, mask: nat): nat
    requires -(Pow2(WORD) as int) <= x
  {
    BitAnd(if x < 0 then Pow2(WORD) + x else x, mask)
  }

  function CircCnt(head: nat, tail: nat, size: nat): nat
    requires size > 0 && tail <= Pow2(WORD)
  {
    if head > tail then head - tail else And(head as int - tail as int, size - 1)
  }

  function CircSpace(head: nat, tail: nat, size: nat): nat
    requires size > 0 && head < Pow2(WORD)
  {
    CircCnt(tail, head + 1, size)
  }

  function CircInc(n: nat, size: nat): nat
    requires size > 0
  {
    (n + 1) % size
  }

  // ------------------------------------------------------------------ the masks

  lemma {:induction false} ComplementIsDisjoint(w: nat, c: nat)
    requires c < Pow2(w)
    ensures BitAnd(Pow2(w) - 1 - c, c) == 0
  {
    if w > 0 {
      var a := Pow2(w) - 1 - c;
      assert a / 2 == Pow2(w - 1) - 1 - c / 2 && a % 2 == 1 - c % 2;
      ComplementIsDisjoint(w - 1, c / 2);
      assert (a % 2) * (c % 2) == 0;
    }
  }

  lemma {:induction false} DisjointFromComplement(w: nat, c: nat, b: nat)
    requires c < Pow2(w) && b < Pow2(w) && BitAnd(Pow2(w) - 1 - c, b) == 0
    ensures b <= c
  {
    if w > 0 {
      var a := Pow2(w) - 1 - c;
      assert a / 2 == Pow2(w - 1) - 1 - c / 2 && a % 2 == 1 - c % 2;
      if a != 0 && b != 0 {
        assert (a % 2) * (b % 2) == 0;
        DisjointFromComplement(w - 1, c / 2, b / 2);
        assert c % 2 == 0 ==> b % 2 == 0;
      }
    }
  }

  /** Masking minus `m` with size - 1 gives zero only for the whole ring. */
  lemma MaskedDistance(w: nat, m: nat, size: nat)
    requires 1 <= m <= size < Pow2(w)
    ensures BitAnd(Pow2(w) - m, size - 1) == 0 <==> m == size
  {
    assert Pow2(w) - m == Pow2(w) - 1 - (m - 1);
    if m == size {
      ComplementIsDisjoint(w, size - 1);
    } else if BitAnd(Pow2(w) - m, size - 1) == 0 {
      DisjointFromComplement(w, m - 1, size - 1);
    }
  }

  lemma NextIndex(n: nat, size: nat)
    requires n < size
    ensures CircInc(n, size) == if n + 1 == size then 0 else n + 1
  {
  }

  /** The refill guard is right for every ring size, not only for powers of two: it lets a
      descriptor in exactly when the ring is not full. */
  lemma RefillGuard(clean: nat, dirty: nat, size: nat)
    requires clean < size && dirty < size && size < Pow2(WORD)
    ensures CircSpace(clean, dirty, size) > 0 <==> CircInc(clean, size) != dirty
  {
    NextIndex(clean, size);
    if dirty <= clean {
      MaskedDistance(WORD, clean + 1 - dirty, size);
    }
  }

  // ------------------------------------------------------------------ absolute positions

  lemma IncIsNext(k: nat, size: nat)
    requires size > 0
    ensures (k + 1) % size == CircInc(k % size, size)
  {
    var q, r := k / size, k % size;
    assert k == q * size + r;
    if r + 1 < size {
      ModIs(k + 1, size, q, r + 1);
      ModIs(r + 1, size, 0, r + 1);
    } else {
      assert k + 1 == (q + 1) * size + 0;
      ModIs(k + 1, size, q + 1, 0);
      ModIs(r + 1, size, 1, 0);
    }
  }

  lemma ModIs(k: nat, size: nat, q: nat, r: nat)
    requires size > 0 && k == q * size + r && r < size
    ensures k % size == r && k / size == q
  {
    var q', r' := k / size, k % size;
    assert k == q' * size + r';
    if q' < q {
      TimesAtLeast(q, q' + 1, size);
    } else if q < q' {
      TimesAtLeast(q', q + 1, size);
    }
  }

  lemma TimesAtLeast(a: nat, b: nat, c: nat)
    requires a >= b
    ensures a * c >= b * c && b * c == (b - 1) * c + c
  {
  }

  /** Positions less than a ring apart are told apart by their index. */
  lemma IndexIsInjective(a: nat, b: nat, size: nat)
    requires size > 0 && a <= b < a + size && a % size == b % size
    ensures a == b
  {
    var q := a / size;
    assert a == q * size + a % size && b == (b / size) * size + b % size;
    if b / size > q {
      TimesAtLeast(b / size, q + 1, size);
    } else if b / size < q {
      TimesAtLeast(q, b / size + 1, size);
    }
  }

  /** The ring is full, by index, exactly when one slot less than its size is in use. */
  lemma FullByIndex(dirty: nat, clean: nat, size: nat)
    requires size > 0 && dirty <= clean <= dirty + size - 1
    ensures CircInc(clean % size, size) == dirty % size <==> clean == dirty + size - 1
  {
    IncIsNext(clean, size);
    if clean == dirty + size - 1 {
      assert dirty + size == (dirty / size + 1) * size + dirty % size;
      ModIs(dirty + size, size, dirty / size + 1, dirty % size);
    } else if (clean + 1) % size == dirty % size {
      IndexIsInjective(dirty, clean + 1, size);
    }
  }
}
