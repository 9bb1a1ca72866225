/** The key-value specification: one string per key for the checker, and the whole map for the reader. */
module KvModel {
  import opened Linearizability

  /** `op` is 0 for get, 1 for put; anything else appends. */
  datatype KvInput = KvInput(op: nat, key: string, value: string)

  datatype KvOutput = KvOutput(value: string)

  type KvOperation = Operation<KvInput, KvOutput>

  /** The model that the checker runs: the value of a single key. */
  function KvStep(state: string, input: KvInput, output: KvOutput): (bool, string) {
    if input.op == 0 then (output.value == state, state)
    else if input.op == 1 then (true, input.value)
    else (true, state + input.value)
  }

  const KV: Model<string, KvInput, KvOutput> := Model("", KvStep)

  /** A key-value store; a key that was never written holds the empty string. */
  type Store = map<string, string>

  function Lookup(store: Store, key: string): string {
    if key in store then store[key] else ""
  }

  function StoreStep(store: Store, input: KvInput, output: KvOutput): (bool, Store) {
    if input.op == 0 then (output.value == Lookup(store, input.key), store)
    else if input.op == 1 then (true, store[input.key := input.value])
    else (true, store[input.key := Lookup(store, input.key) + input.value])
  }

  /** The reference: a store shared by all keys. */
  const STORE: Model<Store, KvInput, KvOutput> := Model(map[], StoreStep)

  // ---------- what a key holds ----------

  /** No put is among the operations of `order` from place `i` on. */
  ghost predicate NoPut(h: seq<KvOperation>, order: seq<nat>, i: nat)
    requires InRange(order, |h|)
  {
    forall k :: i <= k < |order| ==> h[order[k]].input.op != 1
  }

  /** What the appends from place `i` on add, one behind the other. */
  ghost function Appended(h: seq<KvOperation>, order: seq<nat>, i: nat): string
    requires InRange(order, |h|)
  {
    if |order| <= i then ""
    else
      var input := h[order[|order| - 1]].input;
      Appended(h, order[..|order| - 1], i) + if input.op >= 2 then input.value else ""
  }

  lemma {:induction false} AppendsAfter(h: seq<KvOperation>, order: seq<nat>, i: nat)
    requires InRange(order, |h|) && i <= |order| && NoPut(h, order, i)
    ensures StateAfter(KV, h, order) == StateAfter(KV, h, order[..i]) + Appended(h, order, i)
    decreases |order|
  {
    if i == |order| {
      assert order[..i] == order;
    } else {
      var q := order[..|order| - 1];
      assert q[..i] == order[..i];
      AppendsAfter(h, q, i);
    }
  }

  /** A key holds what the last put wrote and the appends after it added; without a put, what all
      appends added. */
  lemma KeyHolds(h: seq<KvOperation>, order: seq<nat>, i: nat)
    requires InRange(order, |h|) && i <= |order| && NoPut(h, order, i)
    requires i > 0 ==> h[order[i - 1]].input.op == 1
    ensures StateAfter(KV, h, order) == (if i > 0 then h[order[i - 1]].input.value else "") + Appended(h, order, i)
  {
    hide Appended;
    AppendsAfter(h, order, i);
  }

  /** An order is legal exactly when every get returns what the key holds. */
  lemma LegalMeansGetsAreRight(h: seq<KvOperation>, order: seq<nat>)
    requires InRange(order, |h|)
    ensures Legal(KV, h, order) <==>
            forall k :: 0 <= k < |order| && h[order[k]].input.op == 0 ==>
              h[order[k]].output.value == StateAfter(KV, h, order[..k])
  {
    hide StateAfter;
    if Legal(KV, h, order) {
      forall k | 0 <= k < |order| && h[order[k]].input.op == 0
        ensures h[order[k]].output.value == StateAfter(KV, h, order[..k])
      {
        assert Allowed(KV, h, StateAfter(KV, h, order[..k]), order[k]);
      }
    }
  }
}
