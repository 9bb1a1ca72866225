/** The cache of visited configurations: bit sets and states in buckets, keyed by the hash of the bit set. */
module StateCache {
  import opened Bitset

  // ---------- hash tables in general ----------

  /** Buckets of keyed values, under hashes of the keys. */
  type Table<!H, !K, !S> = map<H, seq<(K, S)>>

  ghost function Bucket<H, K, S>(t: Table<H, K, S>, w: H): seq<(K, S)> {
    if w in t then t[w] else []
  }

  /** Entry `i` of bucket `w` stands for the pair `c`. */
  ghost predicate Filed<H(!new), K(!new), A, S>(view: K -> A, t: Table<H, K, S>, w: H, i: nat, c: (A, S)) {
    i < |Bucket(t, w)| && c == (view(Bucket(t, w)[i].0), Bucket(t, w)[i].1)
  }

  ghost predicate FiledSomewhere<H(!new), K(!new), A, S>(view: K -> A, t: Table<H, K, S>, c: (A, S)) {
    exists w: H, i: nat :: Filed(view, t, w, i, c)
  }

  /** The table stands for the plain set `contents`, and every entry is under its own hash. */
  ghost predicate Represents<H(!new), K(!new), A, S>(hash: K -> H, view: K -> A, t: Table<H, K, S>,
                                                     contents: set<(A, S)>) {
    && (forall w, e :: w in t && e in t[w] ==> w == hash(e.0) && (view(e.0), e.1) in contents)
    && (forall c :: c in contents ==> FiledSomewhere(view, t, c))
  }

  /** A pair is in the set exactly when it is in the one bucket that its hash selects. */
  lemma OneBucketSuffices<H(!new), K(!new), A, S>(hash: K -> H, view: K -> A, t: Table<H, K, S>, contents: set<(A, S)>,
                                                  key: K, s: S)
    requires Represents(hash, view, t, contents)
    requires forall w, e :: w in t && e in t[w] && view(e.0) == view(key) ==> hash(e.0) == hash(key)
    ensures (view(key), s) in contents <==> exists i: nat :: Filed(view, t, hash(key), i, (view(key), s))
  {
    var c := (view(key), s);
    if c in contents {
      var w: H, i: nat :| Filed(view, t, w, i, c);
      assert t[w][i] in t[w];
      assert Filed(view, t, hash(key), i, c);
    }
  }

  lemma AddRepresents<H(!new), K(!new), A, S>(hash: K -> H, view: K -> A, t: Table<H, K, S>, contents: set<(A, S)>,
                                     key: K, s: S, t': Table<H, K, S>)
    requires Represents(hash, view, t, contents)
    requires t' == t[hash(key) := Bucket(t, hash(key)) + [(key, s)]]
    ensures Represents(hash, view, t', contents + {(view(key), s)})
  {
    var c := (view(key), s);
    forall d | d in contents + {c}
      ensures FiledSomewhere(view, t', d)
    {
      if d in contents {
        var w: H, i: nat :| Filed(view, t, w, i, d);
        assert Filed(view, t', w, i, d);
      } else {
        assert Filed(view, t', hash(key), |Bucket(t, hash(key))|, c);
      }
    }
  }

  // ---------- the cache ----------

  datatype CacheEntry<!S> = CacheEntry(linearized: array<Word>, state: S)

  /** Every bit set of the table has `chunks` words. */
  ghost predicate Sized<S>(t: Table<Digest, seq<Word>, S>, chunks: nat) {
    forall w, e :: w in t && e in t[w] ==> |e.0| == chunks
  }

  lemma AddStands<S>(t: Table<Digest, seq<Word>, S>, chunks: nat, contents: set<(set<nat>, S)>,
                     words: seq<Word>, s: S, t': Table<Digest, seq<Word>, S>)
    requires Represents(HashOf, Members, t, contents) && Sized(t, chunks)
    requires |words| == chunks
    requires t' == t[HashOf(words) := Bucket(t, HashOf(words)) + [(words, s)]]
    ensures Represents(HashOf, Members, t', contents + {(Members(words), s)}) && Sized(t', chunks)
  {
    hide Represents, Members, HashOf;
    AddRepresents(HashOf, Members, t, contents, words, s, t');
  }

  class Cache<S(==)> {
    var buckets: map<Digest, seq<CacheEntry<S>>>
    /** The number of words of every cached bit set. */
    ghost const chunks: nat
    /** What the cache stands for: a plain set of pairs. */
    ghost var contents: set<(set<nat>, S)>
    /** The buckets with their bit sets read out of the heap. */
    ghost var table: Table<Digest, seq<Word>, S>
    /** The cached bit sets. They are never written again. */
    ghost var frozen: set<array<Word>>

    ghost predicate Valid()
      reads this, frozen
    {
      && Represents(HashOf, Members, table, contents)
      && Sized(table, chunks)
      && Mirrored()
    }

    ghost predicate Mirrored()
      reads this, frozen
    {
      && table.Keys == buckets.Keys
      && (forall w :: w in buckets ==> |buckets[w]| == |table[w]|)
      && (forall w, i :: w in buckets && 0 <= i < |buckets[w]| ==>
            && buckets[w][i].linearized in frozen
            && (buckets[w][i].linearized[..], buckets[w][i].state) == table[w][i])
    }

    constructor (ghost chunks: nat)
      ensures Valid()
      ensures this.chunks == chunks && contents == {} && frozen == {}
    {
      this.chunks := chunks;
      buckets := map[];
      contents := {};
      table := map[];
      frozen := {};
    }

    lemma SameHash(words: seq<Word>)
      requires Sized(table, chunks)
      requires |words| == chunks
      ensures forall w, e :: w in table && e in table[w] && Members(e.0) == Members(words) ==>
                HashOf(e.0) == HashOf(words)
    {
      forall w, e | w in table && e in table[w] && Members(e.0) == Members(words) {
        EqualMembersEqualHash(e.0, words);
      }
    }

    /** The loop over one bucket. */
    method Scan(entry: CacheEntry<S>, bucket: seq<CacheEntry<S>>) returns (found: bool)
      ensures found <==> exists i :: 0 <= i < |bucket| && SameEntry(entry, bucket[i])
    {
      for i := 0 to |bucket|
        invariant forall k :: 0 <= k < i ==> !SameEntry(entry, bucket[k])
      {
        var same := Equals(entry.linearized, bucket[i].linearized);
        if same && entry.state == bucket[i].state {
          return true;
        }
      }
      return false;
    }

    ghost predicate SameEntry(a: CacheEntry<S>, b: CacheEntry<S>)
      reads a.linearized, b.linearized
    {
      && a.linearized.Length == b.linearized.Length
      && Members(a.linearized[..]) == Members(b.linearized[..])
      && a.state == b.state
    }

    /** In the selected bucket, comparing entries is comparing pairs. */
    lemma ScannedBucket(entry: CacheEntry<S>, w: Digest, c: (set<nat>, S))
      requires Valid()
      requires entry.linearized.Length == chunks
      requires c == (Members(entry.linearized[..]), entry.state)
      ensures
        var bucket := if w in buckets then buckets[w] else [];
        (exists i :: 0 <= i < |bucket| && SameEntry(entry, bucket[i])) <==>
            exists i: nat :: Filed(Members, table, w, i, c)
    {
      var bucket := if w in buckets then buckets[w] else [];
      assert |Bucket(table, w)| == |bucket|;
      forall i: nat | i < |bucket|
        ensures SameEntry(entry, bucket[i]) <==> Filed(Members, table, w, i, c)
      {
        assert table[w][i] in table[w];
      }
    }

    /** The bucketed lookup agrees with membership in the plain set. */
    method Contains(entry: CacheEntry<S>) returns (found: bool)
      requires Valid()
      requires entry.linearized.Length == chunks
      ensures found <==> (Members(entry.linearized[..]), entry.state) in contents
    {
      var hash := Hash(entry.linearized);
      found := Scan(entry, if hash in buckets then buckets[hash] else []);
      ScannedBucket(entry, hash, (Members(entry.linearized[..]), entry.state));
      SameHash(entry.linearized[..]);
      OneBucketSuffices(HashOf, Members, table, contents, entry.linearized[..], entry.state);
    }

    /** Appends an entry to one bucket. */
    method Append(hash: Digest, entry: CacheEntry<S>, ghost c: (set<nat>, S))
      requires Mirrored()
      modifies this
      ensures Mirrored()
      ensures table == old(table)[hash := Bucket(old(table), hash) + [(entry.linearized[..], entry.state)]]
      ensures frozen == old(frozen) + {entry.linearized} && contents == old(contents) + {c}
    {
      var bucket := if hash in buckets then buckets[hash] else [];
      buckets := buckets[hash := bucket + [entry]];
      table := table[hash := Bucket(table, hash) + [(entry.linearized[..], entry.state)]];
      frozen := frozen + {entry.linearized};
      contents := contents + {c};
    }

    /** Files an entry under the hash of its bit set, which is frozen from now on. */
    method Add(entry: CacheEntry<S>)
      requires Valid()
      requires entry.linearized.Length == chunks
      modifies this
      ensures Valid()
      ensures contents == old(contents) + {(Members(entry.linearized[..]), entry.state)}
      ensures frozen == old(frozen) + {entry.linearized}
    {
      var hash := Hash(entry.linearized);
      Append(hash, entry, (Members(entry.linearized[..]), entry.state));
      AddStands(old(table), chunks, old(contents), entry.linearized[..], entry.state, table);
    }
  }
}
