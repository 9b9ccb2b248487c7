/**
 * PHP arrays with string keys are ordered maps: iteration follows insertion
 * order, `$a[$k] = $v` replaces the value in place when `$k` is present and
 * appends otherwise, and `unset($a[$k])` removes the key without reordering
 * the rest. This module models them as association sequences.
 */
module OrderedMaps {
  import opened Wrappers

  datatype Binding<V> = Binding(key: string, value: V)

  type OrderedMap<V> = seq<Binding<V>>

  /** `array_keys($m)`, in iteration order. */
  function Keys<V>(m: OrderedMap<V>): (ks: seq<string>)
    ensures |ks| == |m|
    ensures forall i :: 0 <= i < |m| ==> ks[i] == m[i].key
  {
    if m == [] then [] else [m[0].key] + Keys(m[1..])
  }

  /** No element occurs twice. */
  predicate Distinct<T(==)>(xs: seq<T>)
  {
    forall i, j :: 0 <= i < j < |xs| ==> xs[i] != xs[j]
  }

  /** No key occurs twice: every PHP array satisfies this. */
  predicate DistinctKeys<V>(m: OrderedMap<V>)
  {
    Distinct(Keys(m))
  }

  /** `$m[$k]`, or `None` when the key is absent. */
  function Get<V>(m: OrderedMap<V>, k: string): Option<V>
  {
    if m == [] then None
    else if m[0].key == k then Some(m[0].value)
    else Get(m[1..], k)
  }

  /** `$m[$k] = $v`: replaces the value at `$k`'s position, or appends a new binding. */
  function Put<V>(m: OrderedMap<V>, k: string, v: V): OrderedMap<V>
  {
    if m == [] then [Binding(k, v)]
    else if m[0].key == k then [Binding(k, v)] + m[1..]
    else [m[0]] + Put(m[1..], k, v)
  }

  /** `unset($m[$k])`: drops the binding of `$k` and keeps the others in order. */
  function Remove<V>(m: OrderedMap<V>, k: string): OrderedMap<V>
  {
    if m == [] then []
    else if m[0].key == k then Remove(m[1..], k)
    else [m[0]] + Remove(m[1..], k)
  }

  lemma {:induction false} GetPresent<V>(m: OrderedMap<V>, k: string)
    ensures Get(m, k).Some? <==> k in Keys(m)
    ensures Get(m, k).Some? ==> Binding(k, Get(m, k).value) in m
  {
    if m != [] {
      GetPresent(m[1..], k);
      assert Keys(m) == [m[0].key] + Keys(m[1..]);
    }
  }

  /** In a PHP array, the binding of a key is the one `Get` finds. */
  lemma {:induction false} GetBinding<V>(m: OrderedMap<V>, i: nat)
    requires DistinctKeys(m) && i < |m|
    ensures Get(m, m[i].key) == Some(m[i].value)
  {
    if i > 0 {
      assert Keys(m[1..]) == Keys(m)[1..];
      GetBinding(m[1..], i - 1);
    }
  }

  lemma {:induction false} PutGet<V>(m: OrderedMap<V>, k: string, v: V)
    ensures Get(Put(m, k, v), k) == Some(v)
    ensures forall k' :: k' != k ==> Get(Put(m, k, v), k') == Get(m, k')
  {
    if m != [] && m[0].key != k {
      PutGet(m[1..], k, v);
    }
  }

  /** `xs` as an ordered set with `x` inserted: unchanged if present, else appended. */
  function AddNew(xs: seq<string>, x: string): (r: seq<string>)
    ensures Distinct(xs) ==> Distinct(r)
    ensures x in r && forall y :: y in xs ==> y in r
    ensures forall y :: y in r ==> y in xs || y == x
  {
    if x in xs then xs else xs + [x]
  }

  /** Appending a new key leaves the lookups of the others alone. */
  lemma {:induction false} GetSnoc<V>(m: OrderedMap<V>, b: Binding<V>, k: string)
    requires b.key !in Keys(m)
    ensures Get(m + [b], k) == if k == b.key then Some(b.value) else Get(m, k)
  {
    if m == [] {
      assert m + [b] == [b];
    } else {
      assert (m + [b])[1..] == m[1..] + [b];
      assert Keys(m) == [m[0].key] + Keys(m[1..]);
      GetSnoc(m[1..], b, k);
    }
  }

  /** A present key keeps its position; a new key is appended. */
  lemma {:induction false} PutKeys<V>(m: OrderedMap<V>, k: string, v: V)
    ensures Keys(Put(m, k, v)) == AddNew(Keys(m), k)
  {
    if m != [] {
      assert Keys(m) == [m[0].key] + Keys(m[1..]);
      if m[0].key != k {
        PutKeys(m[1..], k, v);
        assert Keys(Put(m, k, v)) == [m[0].key] + Keys(Put(m[1..], k, v));
      } else {
        assert Keys(Put(m, k, v)) == [k] + Keys(m[1..]);
      }
    }
  }

  lemma PutDistinct<V>(m: OrderedMap<V>, k: string, v: V)
    requires DistinctKeys(m)
    ensures DistinctKeys(Put(m, k, v))
  {
    PutKeys(m, k, v);
  }

  lemma {:induction false} RemoveGet<V>(m: OrderedMap<V>, k: string)
    ensures Get(Remove(m, k), k) == None
    ensures forall k' :: k' != k ==> Get(Remove(m, k), k') == Get(m, k')
    ensures k !in Keys(m) ==> Remove(m, k) == m
  {
    if m != [] {
      RemoveGet(m[1..], k);
      assert Keys(m) == [m[0].key] + Keys(m[1..]);
    }
  }

  /** `unset` keeps the other keys in their iteration order. */
  lemma {:induction false} RemoveKeys<V>(m: OrderedMap<V>, k: string)
    ensures Keys(Remove(m, k)) == Without(Keys(m), k)
  {
    if m != [] {
      RemoveKeys(m[1..], k);
      assert Keys(m) == [m[0].key] + Keys(m[1..]);
      if m[0].key != k {
        assert Keys(Remove(m, k)) == [m[0].key] + Keys(Remove(m[1..], k));
      }
    }
  }

  /** `unset` only drops bindings. */
  lemma {:induction false} RemoveMember<V>(m: OrderedMap<V>, k: string, b: Binding<V>)
    requires b in Remove(m, k)
    ensures b in m && b.key != k
  {
    if m[0].key == k || b != m[0] {
      RemoveMember(m[1..], k, b);
    }
  }

  /** After `$m[$k] = $v`, every binding is the new one or an old one. */
  lemma {:induction false} PutMember<V>(m: OrderedMap<V>, k: string, v: V, b: Binding<V>)
    requires b in Put(m, k, v)
    ensures b == Binding(k, v) || b in m
  {
    if m != [] && m[0].key != k && b != m[0] {
      PutMember(m[1..], k, v, b);
    }
  }

  /** In a PHP array, every binding is the one `Get` finds for its key. */
  lemma GetMember<V>(m: OrderedMap<V>, b: Binding<V>)
    requires DistinctKeys(m) && b in m
    ensures Get(m, b.key) == Some(b.value)
  {
    var i :| 0 <= i < |m| && m[i] == b;
    GetBinding(m, i);
  }

  /** `xs` with every occurrence of `x` left out. */
  function Without(xs: seq<string>, x: string): (r: seq<string>)
    ensures x !in r
    ensures forall y :: y != x ==> (y in r <==> y in xs)
  {
    if xs == [] then []
    else if xs[0] == x then Without(xs[1..], x)
    else [xs[0]] + Without(xs[1..], x)
  }

  /** `xs` folded into `acc` as an ordered set. */
  function AddAllNew(acc: seq<string>, xs: seq<string>): seq<string>
    decreases |xs|
  {
    if xs == [] then acc else AddNew(AddAllNew(acc, xs[..|xs| - 1]), xs[|xs| - 1])
  }

  /** Independent reference: keep `xs[i]` exactly when it does not occur in `xs[..i]`. */
  function FirstOccurrences(xs: seq<string>): seq<string>
    decreases |xs|
  {
    if xs == [] then []
    else
      var init := xs[..|xs| - 1];
      FirstOccurrences(init) + (if xs[|xs| - 1] in init then [] else [xs[|xs| - 1]])
  }

  lemma {:induction false} FirstOccurrencesMembers(xs: seq<string>)
    ensures forall x :: x in FirstOccurrences(xs) <==> x in xs
    decreases |xs|
  {
    if xs != [] {
      FirstOccurrencesMembers(xs[..|xs| - 1]);
      assert xs == xs[..|xs| - 1] + [xs[|xs| - 1]];
    }
  }

  lemma {:induction false} FirstOccurrencesOfDistinct(xs: seq<string>)
    requires Distinct(xs)
    ensures FirstOccurrences(xs) == xs
    decreases |xs|
  {
    if xs != [] {
      var init := xs[..|xs| - 1];
      FirstOccurrencesOfDistinct(init);
      assert xs[|xs| - 1] !in init;
      assert xs == init + [xs[|xs| - 1]];
    }
  }

  /** Folding into an ordered set keeps exactly the first occurrence of each element. */
  lemma {:induction false} AddAllNewFirstOccurrences(acc: seq<string>, xs: seq<string>)
    requires Distinct(acc)
    ensures AddAllNew(acc, xs) == FirstOccurrences(acc + xs)
    decreases |xs|
  {
    if xs == [] {
      assert acc + xs == acc;
      FirstOccurrencesOfDistinct(acc);
    } else {
      var init := xs[..|xs| - 1];
      AddAllNewFirstOccurrences(acc, init);
      FirstOccurrencesMembers(acc + init);
      assert (acc + xs)[..|acc + xs| - 1] == acc + init;
    }
  }

  lemma {:induction false} AddAllNewGrows(acc: seq<string>, xs: seq<string>)
    ensures acc <= AddAllNew(acc, xs)
    ensures Distinct(acc) ==> Distinct(AddAllNew(acc, xs))
    decreases |xs|
  {
    if xs != [] {
      AddAllNewGrows(acc, xs[..|xs| - 1]);
    }
  }

  /** Folding two runs in turn is folding their concatenation. */
  lemma {:induction false} AddAllNewAppend(acc: seq<string>, xs: seq<string>, ys: seq<string>)
    ensures AddAllNew(acc, xs + ys) == AddAllNew(AddAllNew(acc, xs), ys)
    decreases |ys|
  {
    if ys == [] {
      assert xs + ys == xs;
    } else {
      var init := ys[..|ys| - 1];
      AddAllNewAppend(acc, xs, init);
      assert (xs + ys)[..|xs + ys| - 1] == xs + init;
    }
  }
}
