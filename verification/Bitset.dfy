/** Bit sets packed in 64-bit words, as the checker keeps the set of linearized operations. */
module Bitset {

  import opened Words

  type Word = Words.Word

  /** The members of a bit set: bits 0-63 are in word 0, the next in word 1, and so on. */
  ghost function Members(words: seq<Word>): set<nat> {
    set p: nat | p < 64 * |words| && Bit(words[p / 64], p % 64)
  }

  // ---------- facts about word sequences ----------

  lemma JoinPosition(i: nat, j: nat)
    requires j < 64
    ensures (64 * i + j) / 64 == i && (64 * i + j) % 64 == j
  {
  }

  lemma SplitPosition(p: nat, q: nat)
    ensures p / 64 == q / 64 && p % 64 == q % 64 ==> p == q
  {
  }

  /** Bit sets of equally many words are the same words exactly when they have the same members. */
  lemma MembersExtensional(a: seq<Word>, b: seq<Word>)
    requires |a| == |b|
    ensures a == b <==> Members(a) == Members(b)
  {
    hide Bit;
    if Members(a) == Members(b) {
      forall i | 0 <= i < |a|
        ensures a[i] == b[i]
      {
        forall k: nat | k < 64
          ensures Bit(a[i], k) <==> Bit(b[i], k)
        {
          JoinPosition(i, k);
          assert 64 * i + k in Members(a) <==> 64 * i + k in Members(b);
        }
        WordExtensional(a[i], b[i]);
      }
    }
  }

  lemma SetMember(words: seq<Word>, pos: nat)
    requires pos < 64 * |words|
    ensures Members(words[pos / 64 := Or(words[pos / 64], Mask(pos % 64))]) == Members(words) + {pos}
  {
    hide Bit, Mask, Or;
    var w := words[pos / 64 := Or(words[pos / 64], Mask(pos % 64))];
    forall p: nat | p < 64 * |words|
      ensures Bit(w[p / 64], p % 64) <==> p == pos || Bit(words[p / 64], p % 64)
    {
      SplitPosition(p, pos);
      SetBit(words[pos / 64], pos % 64, p % 64);
    }
  }

  lemma ClearMember(words: seq<Word>, pos: nat)
    requires pos < 64 * |words|
    ensures Members(words[pos / 64 := AndNot(words[pos / 64], Mask(pos % 64))]) == Members(words) - {pos}
  {
    hide Bit, Mask, AndNot;
    var w := words[pos / 64 := AndNot(words[pos / 64], Mask(pos % 64))];
    forall p: nat | p < 64 * |words|
      ensures Bit(w[p / 64], p % 64) <==> p != pos && Bit(words[p / 64], p % 64)
    {
      SplitPosition(p, pos);
      ClearBit(words[pos / 64], pos % 64, p % 64);
    }
  }

  // ---------- the operations ----------

  function Chunks(bits: nat): (r: nat)
    ensures bits <= 64 * r < bits + 64
  {
    bits / 64 + if bits % 64 != 0 then 1 else 0
  }

  method NewBitset(bits: nat) returns (b: array<Word>)
    ensures fresh(b) && b.Length == Chunks(bits)
    ensures Members(b[..]) == {}
  {
    hide Bit;
    b := new Word[Chunks(bits)](_ => 0);
    forall p: nat | p < 64 * b.Length
      ensures !Bit(b[..][p / 64], p % 64)
    {
      NoBitOfZero(p % 64);
    }
  }

  method Clone(b: array<Word>) returns (c: array<Word>)
    ensures fresh(c) && c[..] == b[..]
  {
    c := new Word[b.Length];
    for i := 0 to b.Length
      invariant c[..i] == b[..i]
    {
      c[i] := b[i];
    }
  }

  method Set(b: array<Word>, pos: nat)
    requires pos < 64 * b.Length
    modifies b
    ensures Members(b[..]) == old(Members(b[..])) + {pos}
  {
    hide Members, Mask, Or;
    SetMember(b[..], pos);
    var major, minor := pos / 64, pos % 64;
    b[major] := Or(b[major], Mask(minor));
    assert b[..] == old(b[..])[major := Or(old(b[major]), Mask(minor))];
  }

  method Clear(b: array<Word>, pos: nat)
    requires pos < 64 * b.Length
    modifies b
    ensures Members(b[..]) == old(Members(b[..])) - {pos}
  {
    hide Members, Mask, AndNot;
    ClearMember(b[..], pos);
    var major, minor := pos / 64, pos % 64;
    b[major] := AndNot(b[major], Mask(minor));
    assert b[..] == old(b[..])[major := AndNot(old(b[major]), Mask(minor))];
  }

  method Get(b: array<Word>, pos: nat) returns (r: bool)
    requires pos < 64 * b.Length
    ensures r <==> pos in Members(b[..])
  {
    hide Mask, And;
    var major, minor := pos / 64, pos % 64;
    r := And(b[major], Mask(minor)) != 0;
  }

  // ---------- counting ----------

  ghost predicate IsPlace(w: Word, base: nat, p: nat) {
    base <= p < base + 64 && Bit(w, p - base)
  }

  /** Places of the `n` lowest bits that are set, moved up by `base`. */
  ghost function Places(w: Word, n: nat, base: nat): set<nat>
    requires n <= 64
  {
    set p: nat | p < base + n && IsPlace(w, base, p)
  }

  lemma {:induction false} PlacesCount(w: Word, n: nat, base: nat)
    requires n <= 64
    ensures |Places(w, n, base)| == Ones(w, n)
  {
    hide Bit;
    if n > 0 {
      PlacesCount(w, n - 1, base);
      var fewer := Places(w, n - 1, base);
      assert Places(w, n, base) == if Bit(w, n - 1) then fewer + {base + n - 1} else fewer;
    }
  }

  /** A further word adds as many members as it has bits. */
  lemma MembersAppend(words: seq<Word>, w: Word)
    ensures |Members(words + [w])| == |Members(words)| + OnesCount(w)
  {
    hide Bit, Ones;
    var base := 64 * |words|;
    PlacesCount(w, 64, base);
    var all, more := Members(words + [w]), Places(w, 64, base);
    forall p: nat
      ensures p in all <==> p in Members(words) || p in more
    {
      if base <= p < base + 64 {
        JoinPosition(|words|, p - base);
        assert p == base + (p - base);
      }
    }
    assert all == Members(words) + more;
    assert Members(words) !! more;
  }

  /** The bit count is the number of members. */
  method Popcnt(b: array<Word>) returns (total: nat)
    ensures total == |Members(b[..])|
  {
    hide Members, Ones;
    total := 0;
    assert Members(b[..0]) == {} by { NoMembers(); }
    for i := 0 to b.Length
      invariant total == |Members(b[..i])|
    {
      assert b[..i + 1] == b[..i] + [b[i]];
      MembersAppend(b[..i], b[i]);
      total := total + OnesCount(b[i]);
    }
    assert b[..b.Length] == b[..];
  }

  lemma NoMembers()
    ensures Members([]) == {}
  {
  }

  /** A count as a word: its low 64 bits. */
  function WordOf(n: nat): Word {
    (n % 0x1_0000_0000_0000_0000) as Word
  }

  /** Exclusive or of all words, starting from `seed`. */
  function Fold(seed: Word, words: seq<Word>): Word {
    if words == [] then seed else Xor(Fold(seed, words[..|words| - 1]), words[|words| - 1])
  }

  /** A hash value, as a key of the cache. */
  datatype Digest = Digest(word: Word)

  ghost function HashOf(words: seq<Word>): Digest {
    Digest(Fold(WordOf(|Members(words)|), words))
  }

  method Hash(b: array<Word>) returns (digest: Digest)
    ensures digest == HashOf(b[..])
  {
    hide Members, WordOf, Xor;
    var total := Popcnt(b);
    var hash := WordOf(total);
    ghost var seed := hash;
    for i := 0 to b.Length
      invariant hash == Fold(seed, b[..i])
    {
      assert b[..i + 1][..i] == b[..i];
      hash := Xor(hash, b[i]);
    }
    assert b[..b.Length] == b[..];
    digest := Digest(hash);
  }

  /** Bit sets with the same members and the same size share a bucket. */
  lemma EqualMembersEqualHash(a: seq<Word>, b: seq<Word>)
    requires |a| == |b|
    requires Members(a) == Members(b)
    ensures HashOf(a) == HashOf(b)
  {
    hide Members, Fold, WordOf;
    MembersExtensional(a, b);
  }

  lemma {:induction false} FoldTellsApart(seed: Word, a: seq<Word>, b: seq<Word>, k: nat)
    requires k < |a| == |b| && a[k] != b[k] && a[..k] == b[..k] && a[k + 1..] == b[k + 1..]
    ensures Fold(seed, a) != Fold(seed, b)
  {
    hide Xor;
    var n := |a| - 1;
    if k == n {
      XorApart(a[n], b[n], Fold(seed, a[..n]));
    } else {
      assert a[n] == a[k + 1..][n - k - 1] && b[n] == b[k + 1..][n - k - 1];
      assert a[..n][..k] == a[..k] && b[..n][..k] == b[..k];
      assert a[..n][k + 1..] == a[k + 1..][..n - k - 1] && b[..n][k + 1..] == b[k + 1..][..n - k - 1];
      FoldTellsApart(seed, a[..n], b[..n], k);
      XorApart(Fold(seed, a[..n]), Fold(seed, b[..n]), a[n]);
    }
  }

  /** Bit sets with equally many members that differ in one word do not share a bucket. */
  lemma OneWordApart(a: seq<Word>, b: seq<Word>, k: nat)
    requires |Members(a)| == |Members(b)|
    requires k < |a| == |b| && a[k] != b[k] && a[..k] == b[..k] && a[k + 1..] == b[k + 1..]
    ensures HashOf(a) != HashOf(b)
  {
    hide Members, Fold, WordOf;
    FoldTellsApart(WordOf(|Members(a)|), a, b, k);
  }

  method Equals(b: array<Word>, b2: array<Word>) returns (r: bool)
    ensures r <==> b.Length == b2.Length && Members(b[..]) == Members(b2[..])
  {
    if b.Length != b2.Length {
      return false;
    }
    hide Members;
    MembersExtensional(b[..], b2[..]);
    for i := 0 to b.Length
      invariant b[..i] == b2[..i]
    {
      if b[i] != b2[i] {
        assert b[..][i] != b2[..][i];
        return false;
      }
    }
    assert b[..b.Length] == b[..] && b2[..b2.Length] == b2[..];
    return true;
  }
}
