/** 64-bit words as sets of bits. */
module Words {

  type Word = bv64

  // The operators of the source, under names that a proof can hide.

  function And(a: Word, b: Word): Word {
    a & b
  }

  function Or(a: Word, b: Word): Word {
    a | b
  }

  function AndNot(a: Word, b: Word): Word {
    a & !b
  }

  function Xor(a: Word, b: Word): Word {
    a ^ b
  }

  /** The word with only bit `k` set. */
  function Mask(k: nat): Word
    requires k < 64
  {
    1 << k
  }

  predicate Bit(w: Word, k: nat)
    requires k < 64
  {
    And(w, Mask(k)) != 0
  }

  // ---------- masks ----------

  /** The same mask, with the shift as a bit vector. */
  function At(s: bv6): Word {
    1 << s
  }

  lemma MaskIsAt(k: nat)
    requires k < 64
    ensures Mask(k) == At(k as bv6) && (k as bv6) as nat == k
  {
  }

  lemma AtsApart(s: bv6, t: bv6)
    ensures And(At(s), At(t)) == if s == t then At(s) else 0
    ensures At(s) != 0
  {
  }

  lemma MasksApart(k: nat, j: nat)
    requires k < 64 && j < 64
    ensures And(Mask(k), Mask(j)) == if j == k then Mask(k) else 0
    ensures Mask(k) != 0
  {
    hide Mask, At, And;
    MaskIsAt(k);
    MaskIsAt(j);
    AtsApart(k as bv6, j as bv6);
  }

  // ---------- setting and clearing a bit ----------

  lemma OrApart(w: Word, m: Word, n: Word)
    ensures And(m, n) == 0 ==> And(Or(w, m), n) == And(w, n)
    ensures m != 0 ==> And(Or(w, m), m) != 0
  {
  }

  lemma AndNotApart(w: Word, m: Word, n: Word)
    ensures And(m, n) == 0 ==> And(AndNot(w, m), n) == And(w, n)
    ensures And(AndNot(w, m), m) == 0
  {
  }

  lemma XorApart(a: Word, b: Word, c: Word)
    ensures Xor(a, c) == Xor(b, c) <==> a == b
    ensures Xor(c, a) == Xor(c, b) <==> a == b
  {
  }

  lemma SetBit(w: Word, k: nat, j: nat)
    requires k < 64 && j < 64
    ensures Bit(Or(w, Mask(k)), j) <==> j == k || Bit(w, j)
  {
    hide Mask, And, Or;
    MasksApart(k, j);
    OrApart(w, Mask(k), Mask(j));
  }

  lemma ClearBit(w: Word, k: nat, j: nat)
    requires k < 64 && j < 64
    ensures Bit(AndNot(w, Mask(k)), j) <==> j != k && Bit(w, j)
  {
    hide Mask, And, AndNot;
    MasksApart(k, j);
    AndNotApart(w, Mask(k), Mask(j));
  }

  lemma NoBitOfZero(k: nat)
    requires k < 64
    ensures !Bit(0, k)
  {
    hide Mask;
  }

  // ---------- doubling ----------

  function Twice(w: Word): Word {
    w << 1
  }

  lemma AtNext(s: bv6)
    requires s < 63
    ensures At(s + 1) == Twice(At(s))
    ensures (s + 1) as nat == s as nat + 1
  {
  }

  ghost function Power(k: nat): Word {
    if k == 0 then 1 else Twice(Power(k - 1))
  }

  lemma {:induction false} AtIsPower(s: bv6)
    ensures At(s) == Power(s as nat)
    decreases s
  {
    if s == 0 {
      assert At(0) == 1;
    } else {
      hide At, Twice;
      AtIsPower(s - 1);
      AtNext(s - 1);
    }
  }

  lemma MaskIsPower(k: nat)
    requires k < 64
    ensures Mask(k) == Power(k)
  {
    hide Mask, At, Power;
    MaskIsAt(k);
    AtIsPower(k as bv6);
  }

  // ---------- a word is its bits ----------

  const ONES: Word := 0xFFFF_FFFF_FFFF_FFFF

  /** All bits from `k` on. */
  ghost function From(k: nat): Word {
    if k == 0 then ONES else Twice(From(k - 1))
  }

  lemma TwiceOr(a: Word, b: Word)
    ensures Twice(Or(a, b)) == Or(Twice(a), Twice(b))
  {
  }

  lemma {:induction false} FromSplits(k: nat)
    ensures From(k) == Or(Power(k), From(k + 1))
  {
    if k == 0 {
      assert Twice(ONES) == 0xFFFF_FFFF_FFFF_FFFE && Or(1, 0xFFFF_FFFF_FFFF_FFFE) == ONES;
    } else {
      hide Twice, Or;
      FromSplits(k - 1);
      TwiceOr(Power(k - 1), From(k));
    }
  }

  /** Doubling eight times. */
  function Byte(w: Word): Word {
    w << 8
  }

  lemma TwiceEight(w: Word)
    ensures Twice(Twice(Twice(Twice(Twice(Twice(Twice(Twice(w)))))))) == Byte(w)
  {
  }

  lemma FromEight(k: nat)
    ensures From(k + 8) == Byte(From(k))
  {
    hide Twice, Byte;
    TwiceEight(From(k));
    assert From(k + 2) == Twice(Twice(From(k)));
    assert From(k + 4) == Twice(Twice(From(k + 2)));
    assert From(k + 6) == Twice(Twice(From(k + 4)));
  }

  lemma ByteEight()
    ensures Byte(Byte(Byte(Byte(Byte(Byte(Byte(Byte(ONES)))))))) == 0
  {
  }

  /** There are 64 bits. */
  lemma NothingFrom64()
    ensures From(64) == 0
  {
    assert From(0) == ONES;
    hide From, Byte;
    FromEight(0);
    FromEight(8);
    FromEight(16);
    FromEight(24);
    FromEight(32);
    FromEight(40);
    FromEight(48);
    FromEight(56);
    ByteEight();
  }

  lemma SingleBit(w: Word, s: bv6)
    ensures And(w, At(s)) == 0 || And(w, At(s)) == At(s)
  {
  }

  lemma JoinParts(a: Word, b: Word, m: Word, n: Word)
    requires And(a, m) == And(b, m) && And(a, n) == And(b, n)
    ensures And(a, Or(m, n)) == And(b, Or(m, n))
  {
  }

  lemma AndEnds(w: Word)
    ensures And(w, 0) == 0 && And(w, ONES) == w
  {
  }

  ghost predicate SameBits(a: Word, b: Word) {
    forall k: nat :: k < 64 ==> (Bit(a, k) <==> Bit(b, k))
  }

  lemma SamePart(a: Word, b: Word, k: nat)
    requires SameBits(a, b) && k < 64
    ensures And(a, Power(k)) == And(b, Power(k))
  {
    hide Mask, At, And, Power;
    MaskIsPower(k);
    MaskIsAt(k);
    assert Bit(a, k) <==> Bit(b, k);
    SingleBit(a, k as bv6);
    SingleBit(b, k as bv6);
  }

  lemma {:induction false} SameFrom(a: Word, b: Word, k: nat)
    requires SameBits(a, b) && k <= 64
    ensures And(a, From(k)) == And(b, From(k))
    decreases 64 - k
  {
    hide SameBits, From, Power, And, Or;
    if k == 64 {
      NothingFrom64();
      AndEnds(a);
      AndEnds(b);
    } else {
      SameFrom(a, b, k + 1);
      SamePart(a, b, k);
      FromSplits(k);
      JoinParts(a, b, Power(k), From(k + 1));
    }
  }

  /** Words with the same bits are the same word. */
  lemma WordExtensional(a: Word, b: Word)
    requires SameBits(a, b)
    ensures a == b
  {
    assert From(0) == ONES;
    hide SameBits, From, And;
    SameFrom(a, b, 0);
    AndEnds(a);
    AndEnds(b);
  }

  // ---------- counting ----------

  /** The number of 1 bits among the `n` lowest. */
  function Ones(w: Word, n: nat): nat
    requires n <= 64
  {
    if n == 0 then 0 else Ones(w, n - 1) + if Bit(w, n - 1) then 1 else 0
  }

  /** What the library's population count of a word returns. */
  function OnesCount(w: Word): nat {
    Ones(w, 64)
  }
}
