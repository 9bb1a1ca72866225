/** The MapReduce computation: the sequential program, and the map and reduce tasks of the workers. */
module MapReduceJob {
  import opened Sorting

  datatype KeyValue = KeyValue(key: string, value: string)
  datatype Line = Line(key: string, output: string)

  type MapFunction = (string, string) -> seq<KeyValue>
  type ReduceFunction = (string, seq<string>) -> string

  // ---------- the bucket of a key ----------

  function ByteOf(c: char): bv32 {
    ((c as int % 256) as bv8) as bv32
  }

  function FnvStep(hash: bv32, byte: bv32): bv32 {
    (hash ^ byte) * 16777619
  }

  /** 32-bit FNV-1a over the bytes of a string. */
  function Fnv32a(s: string): bv32 {
    if s == "" then 2166136261 else FnvStep(Fnv32a(s[..|s| - 1]), ByteOf(s[|s| - 1]))
  }

  lemma SomeBytes()
    ensures ByteOf('a') == 0x61 && ByteOf('b') == 0x62
  {
    assert 'a' as int % 256 == 97 && 'b' as int % 256 == 98;
    assert 97 as bv8 == 97 && 98 as bv8 == 98;
  }

  lemma SomeSteps()
    ensures FnvStep(0x811c9dc5, 0x61) == 0xe40c292c && FnvStep(0xe40c292c, 0x62) == 0x4d2505ca
  {
  }

  /** The values of FNV-1a for some short strings. */
  lemma FnvOfSomeStrings()
    ensures Fnv32a("") == 0x811c9dc5 && Fnv32a("a") == 0xe40c292c && Fnv32a("ab") == 0x4d2505ca
  {
    hide FnvStep, ByteOf;
    SomeBytes();
    SomeSteps();
    assert "a"[..0] == "" && "ab"[..1] == "a";
  }

  function Ihash(key: string): nat {
    (Fnv32a(key) & 0x7fffffff) as nat
  }

  function Bucket(key: string, nReduce: nat): (p: nat)
    requires nReduce > 0
    ensures p < nReduce
  {
    Ihash(key) % nReduce
  }

  /** The sign bit of the hash is cut off before the remainder is taken. */
  lemma SomeBuckets()
    ensures Ihash("a") == 0x640c292c && Bucket("a", 10) == 2 && Bucket("ab", 10) == 6
  {
    hide Fnv32a;
    FnvOfSomeStrings();
    assert (0xe40c292c as bv32) & 0x7fffffff == 0x640c292c;
    assert (0x4d2505ca as bv32) & 0x7fffffff == 0x4d2505ca;
  }

  // ---------- what a job computes ----------

  /** The values of a key, in order of appearance. */
  function Values(kvs: seq<KeyValue>, key: string): seq<string> {
    if kvs == [] then []
    else
      var kv := kvs[|kvs| - 1];
      Values(kvs[..|kvs| - 1], key) + if kv.key == key then [kv.value] else []
  }

  /** The pairs that belong to one bucket. */
  function PartOf(kvs: seq<KeyValue>, nReduce: nat, p: nat): seq<KeyValue>
    requires nReduce > 0
  {
    if kvs == [] then []
    else
      var kv := kvs[|kvs| - 1];
      PartOf(kvs[..|kvs| - 1], nReduce, p) + if Bucket(kv.key, nReduce) == p then [kv] else []
  }

  function Concat<T>(ss: seq<seq<T>>): seq<T> {
    if ss == [] then [] else Concat(ss[..|ss| - 1]) + ss[|ss| - 1]
  }

  /** The bucket as a reduce task finds it: file by file. */
  function Gathered(emits: seq<seq<KeyValue>>, nReduce: nat, p: nat): seq<KeyValue>
    requires nReduce > 0
  {
    if emits == [] then []
    else Gathered(emits[..|emits| - 1], nReduce, p) + PartOf(emits[|emits| - 1], nReduce, p)
  }

  ghost predicate Ascending(lines: seq<Line>) {
    forall i, j :: 0 <= i < j < |lines| ==> StringLess(lines[i].key, lines[j].key)
  }

  ghost predicate HasLine(lines: seq<Line>, key: string) {
    exists i :: 0 <= i < |lines| && lines[i].key == key
  }

  /** A correct output: one line for each key, in order, with Reduce of all the values of the key. */
  ghost predicate OutputOf(reducef: ReduceFunction, kvs: seq<KeyValue>, lines: seq<Line>) {
    && Ascending(lines)
    && (forall key :: HasLine(lines, key) <==> Values(kvs, key) != [])
    && (forall i :: 0 <= i < |lines| ==> lines[i].output == reducef(lines[i].key, Values(kvs, lines[i].key)))
  }

  /** Reduce does not depend on the order of the values. */
  ghost predicate OrderInsensitive(reducef: ReduceFunction) {
    forall key, v, w :: multiset(v) == multiset(w) ==> reducef(key, v) == reducef(key, w)
  }

  // ---------- splitting and gathering ----------

  lemma {:induction false} ValuesConcat(a: seq<KeyValue>, b: seq<KeyValue>, key: string)
    ensures Values(a + b, key) == Values(a, key) + Values(b, key)
    decreases |b|
  {
    if b == [] {
      assert a + b == a;
    } else {
      assert (a + b)[..|a + b| - 1] == a + b[..|b| - 1];
      ValuesConcat(a, b[..|b| - 1], key);
    }
  }

  lemma {:induction false} PartConcat(a: seq<KeyValue>, b: seq<KeyValue>, nReduce: nat, p: nat)
    requires nReduce > 0
    ensures PartOf(a + b, nReduce, p) == PartOf(a, nReduce, p) + PartOf(b, nReduce, p)
    decreases |b|
  {
    if b == [] {
      assert a + b == a;
    } else {
      assert (a + b)[..|a + b| - 1] == a + b[..|b| - 1];
      PartConcat(a, b[..|b| - 1], nReduce, p);
    }
  }

  /** Splitting each file's pairs and gathering a bucket is taking the bucket of all pairs. */
  lemma {:induction false} GatheredIsPart(emits: seq<seq<KeyValue>>, nReduce: nat, p: nat)
    requires nReduce > 0
    ensures Gathered(emits, nReduce, p) == PartOf(Concat(emits), nReduce, p)
    decreases |emits|
  {
    if emits != [] {
      var n := |emits| - 1;
      GatheredIsPart(emits[..n], nReduce, p);
      PartConcat(Concat(emits[..n]), emits[n], nReduce, p);
    }
  }

  /** A bucket has all the values of its keys, and no other keys. */
  lemma {:induction false} ValuesOfPart(kvs: seq<KeyValue>, nReduce: nat, p: nat, key: string)
    requires nReduce > 0
    ensures Values(PartOf(kvs, nReduce, p), key) == if Bucket(key, nReduce) == p then Values(kvs, key) else []
    decreases |kvs|
  {
    if kvs != [] {
      var n := |kvs| - 1;
      ValuesOfPart(kvs[..n], nReduce, p, key);
      var tail := if Bucket(kvs[n].key, nReduce) == p then [kvs[n]] else [];
      ValuesConcat(PartOf(kvs[..n], nReduce, p), tail, key);
    }
  }

  // ---------- outputs ----------

  /** How often a value of a key occurs does not depend on the order of the pairs. */
  lemma {:induction false} ValuesCount(kvs: seq<KeyValue>, key: string, v: string)
    ensures multiset(Values(kvs, key))[v] == multiset(kvs)[KeyValue(key, v)]
    decreases |kvs|
  {
    if kvs != [] {
      var n := |kvs| - 1;
      ValuesCount(kvs[..n], key, v);
      assert kvs == kvs[..n] + [kvs[n]];
    }
  }

  lemma ValuesPermuted(a: seq<KeyValue>, b: seq<KeyValue>, key: string)
    requires multiset(a) == multiset(b)
    ensures multiset(Values(a, key)) == multiset(Values(b, key))
  {
    forall v
      ensures multiset(Values(a, key))[v] == multiset(Values(b, key))[v]
    {
      ValuesCount(a, key, v);
      ValuesCount(b, key, v);
    }
  }

  /** The output of a permutation of the pairs is the output of the pairs. */
  lemma OutputPermuted(reducef: ReduceFunction, a: seq<KeyValue>, b: seq<KeyValue>, lines: seq<Line>)
    requires OrderInsensitive(reducef) && multiset(a) == multiset(b) && OutputOf(reducef, a, lines)
    ensures OutputOf(reducef, b, lines)
  {
    forall key
      ensures HasLine(lines, key) <==> Values(b, key) != []
    {
      ValuesPermuted(a, b, key);
      assert |Values(a, key)| == |multiset(Values(a, key))| == |multiset(Values(b, key))| == |Values(b, key)|;
    }
    forall i | 0 <= i < |lines|
      ensures lines[i].output == reducef(lines[i].key, Values(b, lines[i].key))
    {
      ValuesPermuted(a, b, lines[i].key);
    }
  }

  lemma {:induction false} AscendingOnce(lines: seq<Line>, l: Line)
    requires Ascending(lines)
    ensures multiset(lines)[l] == if l in lines then 1 else 0
    decreases |lines|
  {
    if lines != [] {
      var n := |lines| - 1;
      assert lines == lines[..n] + [lines[n]];
      AscendingOnce(lines[..n], l);
      forall i | 0 <= i < n
        ensures lines[i] != lines[n]
      {
        StringTrichotomy(lines[i].key, lines[n].key);
      }
    }
  }

  ghost predicate IsLine(reducef: ReduceFunction, kvs: seq<KeyValue>, l: Line) {
    Values(kvs, l.key) != [] && l.output == reducef(l.key, Values(kvs, l.key))
  }

  /** Which lines are in an output, and how often. */
  lemma OutputLines(reducef: ReduceFunction, kvs: seq<KeyValue>, lines: seq<Line>, l: Line)
    requires OutputOf(reducef, kvs, lines)
    ensures multiset(lines)[l] == if IsLine(reducef, kvs, l) then 1 else 0
  {
    AscendingOnce(lines, l);
    if IsLine(reducef, kvs, l) {
      assert HasLine(lines, l.key);
      var i :| 0 <= i < |lines| && lines[i].key == l.key;
      assert lines[i] == l;
    } else if l in lines {
      assert HasLine(lines, l.key);
    }
  }

  /** The outputs of the first `n` buckets. */
  ghost predicate PartOutputs(reducef: ReduceFunction, kvs: seq<KeyValue>, nReduce: nat, outs: seq<seq<Line>>)
    requires nReduce > 0
  {
    && |outs| <= nReduce
    && forall p :: 0 <= p < |outs| ==> OutputOf(reducef, PartOf(kvs, nReduce, p), outs[p])
  }

  lemma {:induction false} PartLines(reducef: ReduceFunction, kvs: seq<KeyValue>, nReduce: nat, outs: seq<seq<Line>>,
                                     l: Line)
    requires nReduce > 0 && PartOutputs(reducef, kvs, nReduce, outs)
    ensures multiset(Concat(outs))[l] == if IsLine(reducef, kvs, l) && Bucket(l.key, nReduce) < |outs| then 1 else 0
    decreases |outs|
  {
    hide OutputOf;
    if outs != [] {
      var n := |outs| - 1;
      PartLines(reducef, kvs, nReduce, outs[..n], l);
      OutputLines(reducef, PartOf(kvs, nReduce, n), outs[n], l);
      ValuesOfPart(kvs, nReduce, n, l.key);
      assert multiset(Concat(outs)) == multiset(Concat(outs[..n])) + multiset(outs[n]);
    }
  }

  /** Distributed equals sequential: the lines of all parts together are the lines of the sequential
      output, each as often. */
  lemma DistributedIsSequential(reducef: ReduceFunction, emits: seq<seq<KeyValue>>, nReduce: nat, outs: seq<seq<Line>>,
                                sequential: seq<Line>)
    requires nReduce > 0 && |outs| == nReduce
    requires forall p :: 0 <= p < nReduce ==> OutputOf(reducef, Gathered(emits, nReduce, p), outs[p])
    requires OutputOf(reducef, Concat(emits), sequential)
    ensures multiset(Concat(outs)) == multiset(sequential)
  {
    hide OutputOf, IsLine;
    var kvs := Concat(emits);
    forall p | 0 <= p < nReduce
      ensures OutputOf(reducef, PartOf(kvs, nReduce, p), outs[p])
    {
      GatheredIsPart(emits, nReduce, p);
    }
    forall l
      ensures multiset(Concat(outs))[l] == multiset(sequential)[l]
    {
      PartLines(reducef, kvs, nReduce, outs, l);
      OutputLines(reducef, kvs, sequential, l);
    }
  }

  /** Every key is in exactly one line of exactly one part. */
  lemma EachKeyOnce(reducef: ReduceFunction, emits: seq<seq<KeyValue>>, nReduce: nat, outs: seq<seq<Line>>, key: string)
    requires nReduce > 0 && |outs| == nReduce
    requires forall p :: 0 <= p < nReduce ==> OutputOf(reducef, Gathered(emits, nReduce, p), outs[p])
    ensures forall p :: 0 <= p < nReduce ==>
              (HasLine(outs[p], key) <==> Values(Concat(emits), key) != [] && p == Bucket(key, nReduce))
    ensures forall p, i, j :: 0 <= p < nReduce && 0 <= i < j < |outs[p]| ==> outs[p][i].key != outs[p][j].key
  {
    forall p | 0 <= p < nReduce
      ensures HasLine(outs[p], key) <==> Values(Concat(emits), key) != [] && p == Bucket(key, nReduce)
    {
      GatheredIsPart(emits, nReduce, p);
      ValuesOfPart(Concat(emits), nReduce, p, key);
    }
    forall p, i, j | 0 <= p < nReduce && 0 <= i < j < |outs[p]|
      ensures outs[p][i].key != outs[p][j].key
    {
      assert OutputOf(reducef, Gathered(emits, nReduce, p), outs[p]);
      StringTrichotomy(outs[p][i].key, outs[p][j].key);
    }
  }

  ghost function Front(a: seq<Line>): seq<Line>
    requires a != []
  {
    a[..|a| - 1]
  }

  lemma AscendingSnoc(a: seq<Line>, b: seq<Line>)
    requires Ascending(a) && Ascending(b) && a != [] && b != []
    requires forall key :: HasLine(a, key) <==> HasLine(b, key)
    ensures a[|a| - 1].key == b[|b| - 1].key
    ensures forall key :: HasLine(Front(a), key) <==> HasLine(Front(b), key)
  {
    var x, y := a[|a| - 1].key, b[|b| - 1].key;
    assert HasLine(a, x) && HasLine(b, y);
    AtMostLast(a, y);
    AtMostLast(b, x);
    StringTrichotomy(x, y);
    forall key
      ensures HasLine(Front(a), key) <==> HasLine(Front(b), key)
    {
      WithoutLast(a, key);
      WithoutLast(b, key);
    }
  }

  lemma AtMostLast(a: seq<Line>, key: string)
    requires Ascending(a) && HasLine(a, key)
    ensures a != [] && (key == a[|a| - 1].key || StringLess(key, a[|a| - 1].key))
  {
  }

  lemma WithoutLast(a: seq<Line>, key: string)
    requires Ascending(a) && a != []
    ensures HasLine(Front(a), key) <==> HasLine(a, key) && key != a[|a| - 1].key
  {
    var n := |a| - 1;
    if HasLine(a[..n], key) {
      var i :| 0 <= i < n && a[..n][i].key == key;
      assert a[i].key == key;
      StringTrichotomy(a[i].key, a[n].key);
    }
    if HasLine(a, key) && key != a[n].key {
      var i :| 0 <= i < |a| && a[i].key == key;
      assert a[..n][i].key == key;
    }
  }

  lemma BothEmpty(a: seq<Line>, b: seq<Line>)
    requires forall key :: HasLine(a, key) <==> HasLine(b, key)
    ensures a == [] <==> b == []
  {
    if a != [] {
      assert HasLine(a, a[0].key);
    }
    if b != [] {
      assert HasLine(b, b[0].key);
    }
  }

  lemma FrontAscending(a: seq<Line>)
    requires Ascending(a) && a != []
    ensures Ascending(Front(a))
  {
  }

  lemma {:induction false} AscendingUnique(reducef: ReduceFunction, kvs: seq<KeyValue>, a: seq<Line>, b: seq<Line>)
    requires Ascending(a) && Ascending(b)
    requires forall key :: HasLine(a, key) <==> HasLine(b, key)
    requires forall i :: 0 <= i < |a| ==> a[i].output == reducef(a[i].key, Values(kvs, a[i].key))
    requires forall i :: 0 <= i < |b| ==> b[i].output == reducef(b[i].key, Values(kvs, b[i].key))
    ensures a == b
    decreases |a|
  {
    hide Values, Ascending;
    BothEmpty(a, b);
    if a != [] {
      AscendingSnoc(a, b);
      FrontAscending(a);
      FrontAscending(b);
      var m, n := |a| - 1, |b| - 1;
      assert a == a[..m] + [a[m]] && b == b[..n] + [b[n]];
      AscendingUnique(reducef, kvs, Front(a), Front(b));
    }
  }

  /** There is only one output, down to the order of its lines; re-executing a task writes the same file. */
  lemma OutputUnique(reducef: ReduceFunction, kvs: seq<KeyValue>, a: seq<Line>, b: seq<Line>)
    requires OutputOf(reducef, kvs, a) && OutputOf(reducef, kvs, b)
    ensures a == b
  {
    AscendingUnique(reducef, kvs, a, b);
  }

  // ---------- the loops ----------

  ghost predicate ByKey(kvs: seq<KeyValue>) {
    forall i, j :: 0 <= i < j < |kvs| ==> StringLeq(kvs[i].key, kvs[j].key)
  }

  method SortByKey(kvs: seq<KeyValue>) returns (r: seq<KeyValue>)
    ensures ByKey(r) && multiset(r) == multiset(kvs)
  {
    StringLeqPreorder();
    var leq := (a: KeyValue, b: KeyValue) => StringLeq(a.key, b.key);
    assert TotalPreorder(leq);
    r := Sort(kvs, leq);
    forall i, j | 0 <= i < j < |r|
      ensures StringLeq(r[i].key, r[j].key)
    {
      assert leq(r[i], r[j]);
    }
  }

  /** The loop of workerMap that writes every pair to the file of its bucket. */
  method Split(kva: seq<KeyValue>, nReduce: nat) returns (outFiles: seq<seq<KeyValue>>)
    requires nReduce > 0
    ensures |outFiles| == nReduce
    ensures forall p :: 0 <= p < nReduce ==> outFiles[p] == PartOf(kva, nReduce, p)
  {
    var files := new seq<KeyValue>[nReduce](_ => []);
    for i := 0 to |kva|
      invariant forall p :: 0 <= p < nReduce ==> files[p] == PartOf(kva[..i], nReduce, p)
    {
      assert kva[..i + 1][..i] == kva[..i];
      var outindex := Bucket(kva[i].key, nReduce);
      files[outindex] := files[outindex] + [kva[i]];
    }
    assert kva[..|kva|] == kva;
    outFiles := files[..];
  }

  /** One run of equal keys, from its first pair to behind its last. */
  ghost predicate IsRun(s: seq<KeyValue>, i: nat, j: nat) {
    && i < j <= |s|
    && (forall k :: i <= k < j ==> s[k].key == s[i].key)
    && (j < |s| ==> s[j].key != s[i].key)
  }

  lemma {:induction false} ValuesOfRun(s: seq<KeyValue>, key: string, values: seq<string>)
    requires |values| == |s| && forall k :: 0 <= k < |s| ==> s[k].key == key && values[k] == s[k].value
    ensures Values(s, key) == values
    decreases |s|
  {
    if s != [] {
      var n := |s| - 1;
      ValuesOfRun(s[..n], key, values[..n]);
      assert values == values[..n] + [values[n]];
    }
  }

  lemma {:induction false} ValuesOfOthers(s: seq<KeyValue>, key: string)
    requires forall k :: 0 <= k < |s| ==> s[k].key != key
    ensures Values(s, key) == []
    decreases |s|
  {
    if s != [] {
      ValuesOfOthers(s[..|s| - 1], key);
    }
  }

  /** Between runs, every key so far is less than every key to come. */
  ghost predicate Separated(s: seq<KeyValue>, i: nat) {
    i <= |s| && forall a, b :: 0 <= a < i <= b < |s| ==> StringLess(s[a].key, s[b].key)
  }

  lemma RunSeparates(s: seq<KeyValue>, i: nat, j: nat)
    requires ByKey(s) && Separated(s, i) && IsRun(s, i, j)
    ensures Separated(s, j)
  {
    forall a, b | 0 <= a < j <= b < |s|
      ensures StringLess(s[a].key, s[b].key)
    {
      if a >= i {
        StringTrichotomy(s[i].key, s[j].key);
        StringTrichotomy(s[i].key, s[b].key);
        assert StringLess(s[i].key, s[j].key);
        if b > j {
          assert StringLeq(s[j].key, s[b].key);
          StringTrichotomy(s[j].key, s[b].key);
          if StringLess(s[j].key, s[b].key) {
            StringLessTransitive(s[i].key, s[j].key, s[b].key);
          }
        }
      }
    }
  }

  lemma KeyOccurs(s: seq<KeyValue>, key: string) returns (k: nat)
    requires Values(s, key) != []
    ensures k < |s| && s[k].key == key
  {
    if forall k :: 0 <= k < |s| ==> s[k].key != key {
      ValuesOfOthers(s, key);
    }
    k :| 0 <= k < |s| && s[k].key == key;
  }

  /** The values of every key after one more run. */
  lemma ValuesAfterRun(s: seq<KeyValue>, i: nat, j: nat, values: seq<string>, key: string)
    requires Separated(s, i) && IsRun(s, i, j)
    requires |values| == j - i && forall k :: i <= k < j ==> values[k - i] == s[k].value
    ensures Values(s[..j], key) == if key == s[i].key then values else Values(s[..i], key)
    ensures key == s[i].key ==> Values(s[..i], key) == []
  {
    assert s[..j] == s[..i] + s[i..j];
    ValuesConcat(s[..i], s[i..j], key);
    if key == s[i].key {
      forall a | 0 <= a < i
        ensures s[..i][a].key != key
      {
        StringTrichotomy(s[a].key, s[i].key);
      }
      ValuesOfOthers(s[..i], key);
      ValuesOfRun(s[i..j], key, values);
    } else {
      ValuesOfOthers(s[i..j], key);
    }
  }

  lemma NextLine(reducef: ReduceFunction, s: seq<KeyValue>, i: nat, j: nat, values: seq<string>, lines: seq<Line>)
    requires Separated(s, i) && IsRun(s, i, j) && OutputOf(reducef, s[..i], lines)
    requires |values| == j - i && forall k :: i <= k < j ==> values[k - i] == s[k].value
    ensures OutputOf(reducef, s[..j], lines + [Line(s[i].key, reducef(s[i].key, values))])
  {
    hide Values, StringLess;
    var l := Line(s[i].key, reducef(s[i].key, values));
    var more := lines + [l];
    forall a | 0 <= a < |lines|
      ensures StringLess(lines[a].key, l.key) && lines[a].key != l.key
    {
      assert HasLine(lines, lines[a].key);
      var k := KeyOccurs(s[..i], lines[a].key);
      StringTrichotomy(lines[a].key, l.key);
    }
    forall key
      ensures HasLine(more, key) <==> Values(s[..j], key) != []
    {
      ValuesAfterRun(s, i, j, values, key);
      OneMoreLine(lines, l, key);
    }
    forall a | 0 <= a < |more|
      ensures more[a].output == reducef(more[a].key, Values(s[..j], more[a].key))
    {
      ValuesAfterRun(s, i, j, values, more[a].key);
    }
  }

  lemma OneMoreLine(lines: seq<Line>, l: Line, key: string)
    ensures HasLine(lines + [l], key) <==> HasLine(lines, key) || key == l.key
  {
    if HasLine(lines, key) {
      var i :| 0 <= i < |lines| && lines[i].key == key;
      assert (lines + [l])[i].key == key;
    }
    assert (lines + [l])[|lines|] == l;
  }

  lemma {:induction false} RunEnds(s: seq<KeyValue>, i: nat, from: nat) returns (j: nat)
    requires i < from <= |s| && forall k :: i <= k < from ==> s[k].key == s[i].key
    ensures IsRun(s, i, j)
    decreases |s| - from
  {
    if from < |s| && s[from].key == s[i].key {
      j := RunEnds(s, i, from + 1);
    } else {
      j := from;
    }
  }

  lemma {:induction false} GroupingGoesOn(reducef: ReduceFunction, s: seq<KeyValue>, i: nat, lines: seq<Line>)
      returns (all: seq<Line>)
    requires ByKey(s) && Separated(s, i) && OutputOf(reducef, s[..i], lines)
    ensures OutputOf(reducef, s, all)
    decreases |s| - i
  {
    hide ByKey, OutputOf;
    if i == |s| {
      assert s[..i] == s;
      all := lines;
    } else {
      hide Separated;
      var j := RunEnds(s, i, i + 1);
      var values := seq(j - i, k requires 0 <= k < j - i => s[i + k].value);
      NextLine(reducef, s, i, j, values, lines);
      RunSeparates(s, i, j);
      all := GroupingGoesOn(reducef, s, j, lines + [Line(s[i].key, reducef(s[i].key, values))]);
    }
  }

  /** Every list of pairs has an output. */
  lemma OutputExists(reducef: ReduceFunction, kvs: seq<KeyValue>) returns (lines: seq<Line>)
    requires OrderInsensitive(reducef)
    ensures OutputOf(reducef, kvs, lines)
  {
    hide OutputOf, OrderInsensitive;
    var leq := (a: KeyValue, b: KeyValue) => StringLeq(a.key, b.key);
    KeyOrderTotal(leq);
    var s := Sorted(kvs, leq);
    assert ByKey(s) by {
      forall i, j | 0 <= i < j < |s|
        ensures StringLeq(s[i].key, s[j].key)
      {
        assert leq(s[i], s[j]);
      }
    }
    EmptyOutput(reducef);
    assert s[..0] == [];
    lines := GroupingGoesOn(reducef, s, 0, []);
    OutputPermuted(reducef, s, kvs, lines);
  }

  lemma KeyOrderTotal(leq: (KeyValue, KeyValue) -> bool)
    requires forall a, b :: leq(a, b) <==> StringLeq(a.key, b.key)
    ensures TotalPreorder(leq)
  {
    StringLeqPreorder();
  }

  /** The grouping loops of the reduce task and of the sequential program. */
  method Group(reducef: ReduceFunction, intermediate: seq<KeyValue>) returns (lines: seq<Line>)
    requires ByKey(intermediate)
    ensures OutputOf(reducef, intermediate, lines)
  {
    hide OutputOf, ByKey;
    lines := [];
    var i := 0;
    assert OutputOf(reducef, intermediate[..0], lines) by { EmptyOutput(reducef); }
    while i < |intermediate|
      invariant 0 <= i <= |intermediate|
      invariant Separated(intermediate, i)
      invariant OutputOf(reducef, intermediate[..i], lines)
    {
      var j := i + 1;
      while j < |intermediate| && intermediate[j].key == intermediate[i].key
        invariant i < j <= |intermediate|
        invariant forall k :: i <= k < j ==> intermediate[k].key == intermediate[i].key
      {
        j := j + 1;
      }
      var values := [];
      for k := i to j
        invariant |values| == k - i && forall m :: i <= m < k ==> values[m - i] == intermediate[m].value
      {
        values := values + [intermediate[k].value];
      }
      var output := reducef(intermediate[i].key, values);
      NextLine(reducef, intermediate, i, j, values, lines);
      RunSeparates(intermediate, i, j);
      lines := lines + [Line(intermediate[i].key, output)];
      i := j;
    }
    assert intermediate[..|intermediate|] == intermediate;
  }

  lemma EmptyOutput(reducef: ReduceFunction)
    ensures OutputOf(reducef, [], [])
  {
  }

  function Pairs(key: string, values: seq<string>): seq<KeyValue> {
    seq(|values|, i requires 0 <= i < |values| => KeyValue(key, values[i]))
  }

  lemma {:induction false} PairsPermuted(key: string, v: seq<string>, kv: KeyValue)
    ensures multiset(Pairs(key, v))[kv] == if kv.key == key then multiset(v)[kv.value] else 0
    decreases |v|
  {
    if v != [] {
      var n := |v| - 1;
      assert Pairs(key, v) == Pairs(key, v[..n]) + [KeyValue(key, v[n])] && v == v[..n] + [v[n]];
      PairsPermuted(key, v[..n], kv);
    }
  }

  lemma SingleKeyOutput(reducef: ReduceFunction, key: string, v: seq<string>)
    requires v != []
    ensures ByKey(Pairs(key, v)) && OutputOf(reducef, Pairs(key, v), [Line(key, reducef(key, v))])
  {
    var kvs, l := Pairs(key, v), Line(key, reducef(key, v));
    forall i, j | 0 <= i < j < |kvs|
      ensures StringLeq(kvs[i].key, kvs[j].key)
    {
      StringTrichotomy(key, key);
    }
    ValuesOfRun(kvs, key, v);
    forall k
      ensures HasLine([l], k) <==> Values(kvs, k) != []
    {
      assert [l][0] == l;
      if k != key {
        ValuesOfOthers(kvs, k);
      }
    }
  }

  /** With a Reduce that depends on the order of the values, two sorted orders of the same pairs have
      different outputs, and the sort may choose either. */
  lemma OrderMatters(reducef: ReduceFunction, key: string, v: seq<string>, w: seq<string>)
    requires multiset(v) == multiset(w) && reducef(key, v) != reducef(key, w)
    ensures multiset(Pairs(key, v)) == multiset(Pairs(key, w)) && ByKey(Pairs(key, v)) && ByKey(Pairs(key, w))
    ensures forall a, b :: OutputOf(reducef, Pairs(key, v), a) && OutputOf(reducef, Pairs(key, w), b) ==> a != b
    ensures OutputOf(reducef, Pairs(key, v), [Line(key, reducef(key, v))]) &&
              OutputOf(reducef, Pairs(key, w), [Line(key, reducef(key, w))])
  {
    hide OutputOf, ByKey;
    assert |v| == |multiset(v)| == |multiset(w)| == |w|;
    assert v == [] ==> v == w;
    SingleKeyOutput(reducef, key, v);
    SingleKeyOutput(reducef, key, w);
    forall kv
      ensures multiset(Pairs(key, v))[kv] == multiset(Pairs(key, w))[kv]
    {
      PairsPermuted(key, v, kv);
      PairsPermuted(key, w, kv);
    }
    forall a, b | OutputOf(reducef, Pairs(key, v), a) && OutputOf(reducef, Pairs(key, w), b)
      ensures a != b
    {
      OutputUnique(reducef, Pairs(key, v), a, [Line(key, reducef(key, v))]);
      OutputUnique(reducef, Pairs(key, w), b, [Line(key, reducef(key, w))]);
    }
  }

  /** The sequential program; `contents` is what each file holds. */
  method Sequential(mapf: MapFunction, reducef: ReduceFunction, names: seq<string>, contents: string -> string)
      returns (lines: seq<Line>)
    requires OrderInsensitive(reducef)
    ensures OutputOf(reducef, Concat(Emitted(mapf, names, contents)), lines)
  {
    var intermediate := [];
    for i := 0 to |names|
      invariant intermediate == Concat(Emitted(mapf, names[..i], contents))
    {
      assert Emitted(mapf, names[..i + 1], contents)[..i] == Emitted(mapf, names[..i], contents);
      intermediate := intermediate + mapf(names[i], contents(names[i]));
    }
    assert names[..|names|] == names;
    var sorted := SortByKey(intermediate);
    lines := Group(reducef, sorted);
    OutputPermuted(reducef, sorted, intermediate, lines);
  }

  /** What Map makes of each file. */
  function Emitted(mapf: MapFunction, names: seq<string>, contents: string -> string): (r: seq<seq<KeyValue>>)
    ensures |r| == |names|
  {
    seq(|names|, i requires 0 <= i < |names| => mapf(names[i], contents(names[i])))
  }

  /** A reduce task, when the files of its bucket are all there. */
  method Reduce(reducef: ReduceFunction, files: seq<seq<KeyValue>>) returns (lines: seq<Line>)
    requires OrderInsensitive(reducef)
    ensures OutputOf(reducef, Concat(files), lines)
  {
    var intermediate := [];
    for i := 0 to |files|
      invariant intermediate == Concat(files[..i])
    {
      assert files[..i + 1][..i] == files[..i];
      var file := files[i];
      for d := 0 to |file|
        invariant intermediate == Concat(files[..i]) + file[..d]
      {
        intermediate := intermediate + [file[d]];
      }
      assert file[..|file|] == file;
    }
    assert files[..|files|] == files;
    var sorted := SortByKey(intermediate);
    lines := Group(reducef, sorted);
    OutputPermuted(reducef, sorted, intermediate, lines);
  }
}
