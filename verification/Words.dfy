// Bits of 32-bit words. The bit-vector facts are stated for a mask m, and only then for bit numbers.
module Words {

  predicate Hits(w: bv32, m: bv32) { w & m != 0 }

  // m has a single bit.
  predicate Single(m: bv32) { m & (m - 1) == 0 }

  function Mask(k: nat): bv32 { if k == 0 then 1 else Double(Mask(k - 1)) }

  function Double(m: bv32): bv32 { m << 1 }

  function Half(m: bv32): bv32 { m >> 1 }

  predicate BitSet(w: bv32, k: nat) { Hits(w, Mask(k)) }

  // The word fits below the mask.
  predicate Fits(w: bv32, below: bv32) { w & below == w }

  // The lowest n bits.
  function Low(n: nat): bv32 { if n == 0 then 0 else Append1(Low(n - 1)) }

  function Append1(m: bv32): bv32 { (m << 1) | 1 }

  function Or(a: bv32, b: bv32): bv32 { a | b }

  function Xor(a: bv32, b: bv32): bv32 { a ^ b }

  // The bits of l that b lacks.
  function Fresh(b: bv32, l: bv32): bv32 { l & !b }

  // ---- Facts about masks ----

  lemma OrDistributes(a: bv32, b: bv32, m: bv32)
    ensures (a | b) & m == (a & m) | (b & m)
  {
  }

  lemma OrCases(m: bv32)
    ensures 0 | m == m && m | 0 == m && m | m == m && 0 | 0 == (0 as bv32)
  {
  }

  lemma OrMask(a: bv32, b: bv32, m: bv32)
    requires Single(m)
    ensures Hits(Or(a, b), m) <==> Hits(a, m) || Hits(b, m)
  {
    OrDistributes(a, b, m);
    SingleAnd(a, m);
    SingleAnd(b, m);
    OrCases(m);
  }

  lemma XorDistributes(a: bv32, b: bv32, m: bv32)
    ensures (a ^ b) & m == (a & m) ^ (b & m)
  {
  }

  lemma SingleAnd(a: bv32, m: bv32)
    requires Single(m)
    ensures a & m == 0 || a & m == m
  {
  }

  lemma XorCases(m: bv32)
    ensures 0 ^ m == m && m ^ 0 == m && m ^ m == 0 && 0 ^ 0 == (0 as bv32)
  {
  }

  lemma XorMask(a: bv32, b: bv32, m: bv32)
    requires Single(m)
    ensures Hits(Xor(a, b), m) <==> Hits(a, m) != Hits(b, m)
  {
    XorDistributes(a, b, m);
    SingleAnd(a, m);
    SingleAnd(b, m);
    XorCases(m);
  }

  lemma FreshMask(b: bv32, l: bv32, m: bv32)
    requires Single(m) && Hits(Fresh(b, l), m)
    ensures Hits(l, m) && !Hits(b, m)
  {
  }

  lemma FreshIsGain(b: bv32, l: bv32)
    ensures Fresh(b, l) == 0 ==> Or(b, l) == b
    ensures Fits(Fresh(b, l), 0xFFFF_FFFF)
  {
  }

  lemma DoubleSingle(m: bv32)
    requires Single(m)
    ensures Single(Double(m))
  {
  }

  lemma OneSingle()
    ensures Single(1)
  {
  }

  lemma HalfHits(x: bv32, m: bv32)
    requires Hits(Half(x), m)
    ensures Hits(x, Double(m))
  {
  }

  lemma HalfFits(x: bv32, l: bv32)
    requires Fits(x, Append1(l)) && !Hits(x, 1) && x != 0
    ensures Fits(Half(x), l) && Half(x) != 0
  {
  }

  lemma NothingFits(x: bv32)
    requires Fits(x, 0)
    ensures x == 0
  {
  }

  // ---- Facts about bits ----

  lemma {:induction false} MaskIsSingle(k: nat)
    ensures Single(Mask(k))
  {
    hide Single, Double;
    if k > 0 {
      MaskIsSingle(k - 1);
      DoubleSingle(Mask(k - 1));
    } else {
      OneSingle();
    }
  }

  lemma {:induction false} SomeBit(x: bv32, n: nat) returns (k: nat)
    requires x != 0 && Fits(x, Low(n))
    ensures k < n && BitSet(x, k)
    decreases n
  {
    hide Hits, Fits, Half, Double, Append1;
    if n == 0 {
      NothingFits(x);
    } else if Hits(x, 1) {
      k := 0;
    } else {
      HalfFits(x, Low(n - 1));
      var j := SomeBit(Half(x), n - 1);
      k := j + 1;
      HalfHits(x, Mask(j));
    }
  }

  lemma LowIsAll()
    ensures Low(32) == 0xFFFF_FFFF
  {
    assert Low(8) == 0xFF;
    assert Low(16) == 0xFFFF;
    assert Low(24) == 0xFF_FFFF;
  }

  lemma OrBits(a: bv32, b: bv32, k: nat)
    ensures BitSet(Or(a, b), k) <==> BitSet(a, k) || BitSet(b, k)
  {
    MaskIsSingle(k);
    hide Hits, Or, Mask, Single;
    OrMask(a, b, Mask(k));
  }

  lemma XorBits(a: bv32, b: bv32, k: nat)
    ensures BitSet(Xor(a, b), k) <==> BitSet(a, k) != BitSet(b, k)
  {
    MaskIsSingle(k);
    hide Hits, Xor, Mask, Single;
    XorMask(a, b, Mask(k));
  }

  // b gains from l exactly when l has a bit that b lacks.
  lemma OrGains(b: bv32, l: bv32)
    ensures b != Or(b, l) <==> exists k | 0 <= k < 32 :: BitSet(l, k) && !BitSet(b, k)
  {
    hide Hits, Or, Mask, Low, Single, Fresh, Fits;
    FreshIsGain(b, l);
    if b != Or(b, l) {
      LowIsAll();
      var k := SomeBit(Fresh(b, l), 32);
      MaskIsSingle(k);
      FreshMask(b, l, Mask(k));
      assert BitSet(l, k) && !BitSet(b, k);
    } else {
      forall k | 0 <= k < 32 && BitSet(l, k)
        ensures BitSet(b, k)
      {
        OrBits(b, l, k);
      }
    }
  }

  lemma ZeroHasNoBit(k: nat)
    ensures !BitSet(0, k)
  {
  }
}
