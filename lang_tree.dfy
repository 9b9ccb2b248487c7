/**
 * Translation arrays as loaded from a language file: nested PHP arrays whose
 * leaves are strings, together with the two Laravel helpers the commands use
 * on them, `array_dot` (flatten to dotted keys) and `array_set` (insert at a
 * dotted key).
 */
module LangTree {
  import opened Wrappers
  import opened OrderedMaps
  import opened PhpStrings

  /** A translation value: a string, or a nested (ordered) array. */
  datatype Node = Scalar(value: string) | Container(entries: OrderedMap<Node>)

  /** What `array_dot` keeps as a value: a string or an empty array. */
  predicate IsLeaf(n: Node)
  {
    n.Scalar? || n.entries == []
  }

  /** `array_merge($a, $b)` for string keys: `$b`'s bindings put into `$a` in order. */
  function Merge(a: OrderedMap<Node>, b: OrderedMap<Node>): OrderedMap<Node>
    decreases |b|
  {
    if b == [] then a else Merge(Put(a, b[0].key, b[0].value), b[1..])
  }

  /**
   * `array_dot($entries, $prepend)`: a non-empty array recurses with its key
   * and a '.' appended to the prefix and is merged in; anything else (a string
   * or an empty array) is stored under prefix + key.
   */
  function Dot(prepend: string, entries: OrderedMap<Node>): OrderedMap<Node>
    decreases entries
  {
    if entries == [] then []
    else
      var acc := Dot(prepend, entries[..|entries| - 1]);
      var b := entries[|entries| - 1];
      if b.value.Container? && b.value.entries != [] then
        Merge(acc, Dot(prepend + b.key + ".", b.value.entries))
      else
        Put(acc, prepend + b.key, b.value)
  }

  /** Every binding of `m` is a leaf stored under a key that starts with `prefix`. */
  predicate DottedUnder(prefix: string, m: OrderedMap<Node>)
  {
    forall i :: 0 <= i < |m| ==> prefix <= m[i].key && IsLeaf(m[i].value)
  }

  lemma {:induction false} PutDottedUnder(prefix: string, m: OrderedMap<Node>, k: string, v: Node)
    requires DottedUnder(prefix, m) && prefix <= k && IsLeaf(v)
    ensures DottedUnder(prefix, Put(m, k, v))
  {
    if m != [] && m[0].key != k {
      PutDottedUnder(prefix, m[1..], k, v);
    }
  }

  lemma {:induction false} MergeDottedUnder(prefix: string, a: OrderedMap<Node>, b: OrderedMap<Node>)
    requires DottedUnder(prefix, a) && DottedUnder(prefix, b)
    ensures DottedUnder(prefix, Merge(a, b))
    decreases |b|
  {
    if b != [] {
      PutDottedUnder(prefix, a, b[0].key, b[0].value);
      MergeDottedUnder(prefix, Put(a, b[0].key, b[0].value), b[1..]);
    }
  }

  lemma {:induction false} DottedUnderWeaken(prefix: string, longer: string, m: OrderedMap<Node>)
    requires prefix <= longer && DottedUnder(longer, m)
    ensures DottedUnder(prefix, m)
  {
    forall i | 0 <= i < |m| ensures prefix <= m[i].key {
      PrefixTrans(prefix, longer, m[i].key);
    }
  }

  /**
   * Flattening keeps only leaves, each under a key that starts with the prefix:
   * a non-empty array never survives as a value.
   */
  lemma {:induction false} DotLeaves(prepend: string, entries: OrderedMap<Node>)
    ensures DottedUnder(prepend, Dot(prepend, entries))
    decreases entries
  {
    if entries != [] {
      var acc := Dot(prepend, entries[..|entries| - 1]);
      var b := entries[|entries| - 1];
      DotLeaves(prepend, entries[..|entries| - 1]);
      if b.value.Container? && b.value.entries != [] {
        var sub := prepend + b.key + ".";
        DotLeaves(sub, b.value.entries);
        assert prepend <= sub;
        DottedUnderWeaken(prepend, sub, Dot(sub, b.value.entries));
        MergeDottedUnder(prepend, acc, Dot(sub, b.value.entries));
      } else {
        assert prepend <= prepend + b.key;
        PutDottedUnder(prepend, acc, prepend + b.key, b.value);
      }
    }
  }

  /** Flattening one binding `k => n` yields only leaves under `prepend + k`. */
  lemma DotSingle(prepend: string, k: string, n: Node)
    ensures DottedUnder(prepend + k, Dot(prepend, [Binding(k, n)]))
  {
    var es := [Binding(k, n)];
    assert es[..0] == [];
    if n.Container? && n.entries != [] {
      var sub := prepend + k + ".";
      DotLeaves(sub, n.entries);
      assert prepend + k <= sub;
      DottedUnderWeaken(prepend + k, sub, Dot(sub, n.entries));
      MergeDottedUnder(prepend + k, [], Dot(sub, n.entries));
    } else {
      PutDottedUnder(prepend + k, [], prepend + k, n);
    }
  }

  lemma {:induction false} MergeDistinct(a: OrderedMap<Node>, b: OrderedMap<Node>)
    requires DistinctKeys(a)
    ensures DistinctKeys(Merge(a, b))
    decreases |b|
  {
    if b != [] {
      PutDistinct(a, b[0].key, b[0].value);
      MergeDistinct(Put(a, b[0].key, b[0].value), b[1..]);
    }
  }

  /** The flattened array is a PHP array: no dotted key occurs twice. */
  lemma {:induction false} DotDistinct(prepend: string, entries: OrderedMap<Node>)
    ensures DistinctKeys(Dot(prepend, entries))
    decreases entries
  {
    if entries != [] {
      var acc := Dot(prepend, entries[..|entries| - 1]);
      var b := entries[|entries| - 1];
      DotDistinct(prepend, entries[..|entries| - 1]);
      if b.value.Container? && b.value.entries != [] {
        MergeDistinct(acc, Dot(prepend + b.key + ".", b.value.entries));
      } else {
        PutDistinct(acc, prepend + b.key, b.value);
      }
    }
  }

  /** `array_get` on an exploded key: the node found by following `path`. */
  function GetPath(m: OrderedMap<Node>, path: seq<string>): Option<Node>
    requires |path| >= 1
    decreases |path|
  {
    match Get(m, path[0])
    case None => None
    case Some(n) =>
      if |path| == 1 then Some(n)
      else if n.Container? then GetPath(n.entries, path[1..])
      else None
  }

  /** The array `array_set` descends into at `k`: the one there, or a fresh empty one. */
  function Descend(m: OrderedMap<Node>, k: string): OrderedMap<Node>
  {
    match Get(m, k)
    case Some(n) => if n.Container? then n.entries else []
    case None => []
  }

  /**
   * `array_set($m, implode('.', $path), $v)`: every intermediate key that is
   * missing or holds a string becomes an (empty) array, and the last key is set
   * to the string, replacing whatever was there.
   */
  function ArraySet(m: OrderedMap<Node>, path: seq<string>, v: string): OrderedMap<Node>
    requires |path| >= 1
    decreases |path|
  {
    if |path| == 1 then Put(m, path[0], Scalar(v))
    else
      var child := Descend(m, path[0]);
      Put(m, path[0], Container(ArraySet(child, path[1..], v)))
  }

  /** After `array_set`, the value is found at its path. */
  lemma {:induction false} ArraySetFound(m: OrderedMap<Node>, path: seq<string>, v: string)
    requires |path| >= 1
    ensures GetPath(ArraySet(m, path, v), path) == Some(Scalar(v))
    decreases |path|
  {
    if |path| == 1 {
      PutGet(m, path[0], Scalar(v));
    } else {
      var child := Descend(m, path[0]);
      PutGet(m, path[0], Container(ArraySet(child, path[1..], v)));
      ArraySetFound(child, path[1..], v);
    }
  }

  /** Two paths conflict when one is a prefix of the other; otherwise they diverge. */
  predicate Diverge(p: seq<string>, q: seq<string>)
  {
    exists i :: 0 <= i < |p| && i < |q| && p[i] != q[i]
  }

  /** `array_set` at `path` leaves every diverging path as it was. */
  lemma {:induction false} ArraySetKeepsOthers(m: OrderedMap<Node>, path: seq<string>, v: string, q: seq<string>)
    requires |path| >= 1 && |q| >= 1 && Diverge(path, q)
    ensures GetPath(ArraySet(m, path, v), q) == GetPath(m, q)
    decreases |path|
  {
    var child := Descend(m, path[0]);
    var newChild := if |path| == 1 then Scalar(v) else Container(ArraySet(child, path[1..], v));
    PutGet(m, path[0], newChild);
    if path[0] == q[0] {
      assert |path| > 1 && |q| > 1;
      var i :| 0 <= i < |path| && i < |q| && path[i] != q[i];
      assert path[1..][i - 1] != q[1..][i - 1];
      ArraySetKeepsOthers(child, path[1..], v, q[1..]);
      if !(Get(m, path[0]).Some? && Get(m, path[0]).value.Container?) {
        assert GetPath(child, q[1..]) == None;
      }
    }
  }

  /** `array_set` adds at most its first segment to the top-level keys, at the end. */
  lemma ArraySetKeys(m: OrderedMap<Node>, path: seq<string>, v: string)
    requires |path| >= 1
    ensures Keys(ArraySet(m, path, v)) == AddNew(Keys(m), path[0])
  {
    var child := Descend(m, path[0]);
    var newChild := if |path| == 1 then Scalar(v) else Container(ArraySet(child, path[1..], v));
    PutKeys(m, path[0], newChild);
  }

  /** Every array in the tree, at every depth, has distinct keys, as every PHP array does. */
  predicate WellFormed(m: OrderedMap<Node>)
    decreases m
  {
    DistinctKeys(m) &&
    forall i :: 0 <= i < |m| ==> m[i].value.Container? ==> WellFormed(m[i].value.entries)
  }

  lemma WellFormedChild(m: OrderedMap<Node>, k: string)
    requires WellFormed(m)
    ensures WellFormed(Descend(m, k))
  {
    GetPresent(m, k);
    if Get(m, k).Some? && Get(m, k).value.Container? {
      var i :| 0 <= i < |m| && m[i] == Binding(k, Get(m, k).value);
    }
  }

  lemma PutWellFormed(m: OrderedMap<Node>, k: string, n: Node)
    requires WellFormed(m) && (n.Container? ==> WellFormed(n.entries))
    ensures WellFormed(Put(m, k, n))
  {
    PutDistinct(m, k, n);
    var r := Put(m, k, n);
    forall i | 0 <= i < |r| && r[i].value.Container?
      ensures WellFormed(r[i].value.entries)
    {
      PutMember(m, k, n, r[i]);
      if r[i] != Binding(k, n) {
        var j :| 0 <= j < |m| && m[j] == r[i];
      }
    }
  }

  /** `array_set` keeps every array of the tree a PHP array. */
  lemma {:induction false} ArraySetWellFormed(m: OrderedMap<Node>, path: seq<string>, v: string)
    requires |path| >= 1 && WellFormed(m)
    ensures WellFormed(ArraySet(m, path, v))
    decreases |path|
  {
    if |path| == 1 {
      PutWellFormed(m, path[0], Scalar(v));
    } else {
      var child := Descend(m, path[0]);
      WellFormedChild(m, path[0]);
      ArraySetWellFormed(child, path[1..], v);
      PutWellFormed(m, path[0], Container(ArraySet(child, path[1..], v)));
    }
  }

  // ---- What array_dot stores where ----

  /** No key, at any depth, holds a '.'. */
  predicate DotFree(m: OrderedMap<Node>)
    decreases m
  {
    forall i :: 0 <= i < |m| ==> '.' !in m[i].key && (m[i].value.Container? ==> DotFree(m[i].value.entries))
  }

  /** A well-formed array split into its first entries and its last one. */
  lemma WellFormedSplit(m: OrderedMap<Node>)
    requires WellFormed(m) && m != []
    ensures m == m[..|m| - 1] + [m[|m| - 1]]
    ensures WellFormed(m[..|m| - 1])
    ensures m[|m| - 1].key !in Keys(m[..|m| - 1])
    ensures m[|m| - 1].value.Container? ==> WellFormed(m[|m| - 1].value.entries)
  {
    var init := m[..|m| - 1];
    assert Keys(init) == Keys(m)[..|m| - 1];
    forall i | 0 <= i < |init| && init[i].value.Container?
      ensures WellFormed(init[i].value.entries)
    {
      assert init[i] == m[i];
    }
  }

  lemma {:induction false} MergeMember(a: OrderedMap<Node>, c: OrderedMap<Node>, x: Binding<Node>)
    requires x in Merge(a, c)
    ensures x in a || x in c
    decreases |c|
  {
    if c != [] {
      MergeMember(Put(a, c[0].key, c[0].value), c[1..], x);
      if x in Put(a, c[0].key, c[0].value) {
        PutMember(a, c[0].key, c[0].value, x);
      }
    }
  }

  /** `array_merge` with a PHP array `c`: `c`'s value wins where it has the key. */
  lemma {:induction false} MergeGet(a: OrderedMap<Node>, c: OrderedMap<Node>, k: string)
    requires DistinctKeys(c)
    ensures Get(Merge(a, c), k) == if Get(c, k).Some? then Get(c, k) else Get(a, k)
    decreases |c|
  {
    if c != [] {
      assert Keys(c) == [c[0].key] + Keys(c[1..]);
      PutGet(a, c[0].key, c[0].value);
      GetPresent(c[1..], k);
      MergeGet(Put(a, c[0].key, c[0].value), c[1..], k);
    }
  }

  /** A key outside `prefix` is not among keys that all start with `prefix`. */
  lemma NotUnder(prefix: string, m: OrderedMap<Node>, k: string)
    requires DottedUnder(prefix, m) && !(prefix <= k)
    ensures Get(m, k) == None
  {
    GetPresent(m, k);
    assert forall b :: b in m ==> prefix <= b.key;
  }

  /** The keys on a path that exists in a dot-free array are dot-free. */
  lemma {:induction false} GetPathDotFree(m: OrderedMap<Node>, p: seq<string>)
    requires |p| >= 1 && DotFree(m) && GetPath(m, p).Some?
    ensures NoSeparator('.', p)
    decreases |p|
  {
    GetPresent(m, p[0]);
    var n := Get(m, p[0]).value;
    var i :| 0 <= i < |m| && m[i] == Binding(p[0], n);
    if |p| > 1 {
      GetPathDotFree(n.entries, p[1..]);
      forall j | 0 <= j < |p| ensures '.' !in p[j] {
        if j > 0 { assert p[j] == p[1..][j - 1]; }
      }
    }
  }

  lemma DotFreeSplit(m: OrderedMap<Node>)
    requires DotFree(m) && m != []
    ensures DotFree(m[..|m| - 1])
    ensures '.' !in m[|m| - 1].key
    ensures m[|m| - 1].value.Container? ==> DotFree(m[|m| - 1].value.entries)
  {
    var init := m[..|m| - 1];
    forall i | 0 <= i < |init|
      ensures '.' !in init[i].key && (init[i].value.Container? ==> DotFree(init[i].value.entries))
    {
      assert init[i] == m[i];
    }
  }

  /** One step of `array_dot`: the last entry is merged in flattened, or put under its dotted key. */
  lemma DotLast(prepend: string, entries: OrderedMap<Node>)
    requires entries != []
    ensures var b := entries[|entries| - 1];
      Dot(prepend, entries) ==
        if b.value.Container? && b.value.entries != []
        then Merge(Dot(prepend, entries[..|entries| - 1]), Dot(prepend + b.key + ".", b.value.entries))
        else Put(Dot(prepend, entries[..|entries| - 1]), prepend + b.key, b.value)
  {
  }

  /** The dotted key of `[k] + q` is the dotted key of `q` under `prepend + k + "."`. */
  lemma DottedKeyCons(prepend: string, k: string, q: seq<string>)
    requires |q| >= 1
    ensures prepend + Implode('.', [k] + q) == (prepend + k + ".") + Implode('.', q)
  {
    ImplodeCons('.', k, q);
  }

  /** A dotted path whose first key is not `k` is neither `prepend + k` nor under `prepend + k + "."`. */
  lemma DottedKeyElsewhere(prepend: string, k: string, p: seq<string>)
    requires |p| >= 1 && NoSeparator('.', p) && '.' !in k && p[0] != k
    ensures prepend + Implode('.', p) != prepend + k
    ensures !(prepend + k + "." <= prepend + Implode('.', p))
  {
    DottedKeyNotLeaf(prepend, k, p);
    DottedKeyNotUnder(prepend, k, p);
  }

  lemma DottedKeyNotLeaf(prepend: string, k: string, p: seq<string>)
    requires |p| >= 1 && '.' !in k && p[0] != k
    ensures prepend + Implode('.', p) != prepend + k
  {
    var j := Implode('.', p);
    assert (prepend + j)[|prepend|..] == j;
    assert (prepend + k)[|prepend|..] == k;
    if |p| >= 2 {
      SeparatorInImplode('.', p);
    }
  }

  lemma DottedKeyNotUnder(prepend: string, k: string, p: seq<string>)
    requires |p| >= 1 && NoSeparator('.', p) && '.' !in k && p[0] != k
    ensures !(prepend + k + "." <= prepend + Implode('.', p))
  {
    var j := Implode('.', p);
    var dotted := k + ".";
    assert !(dotted <= j) by {
      if dotted <= j {
        SegmentPrefix('.', k, p);
      }
    }
    assert prepend + k + "." == prepend + dotted;
    if prepend + dotted <= prepend + j {
      PrefixCancel(prepend, dotted, j);
    }
  }

  /** A common start can be dropped from both sides of a prefix test. */
  lemma PrefixCancel(pre: string, x: string, y: string)
    requires pre + x <= pre + y
    ensures x <= y
  {
    var n := |pre| + |x|;
    assert (pre + y)[|pre|..n] == y[..|x|];
    assert (pre + x)[|pre|..n] == x;
  }

  /**
   * The flattener's promise: in an array whose keys hold no '.', the string at
   * path `p` is stored under `prepend` followed by the keys of `p` joined with '.'.
   */
  lemma {:induction false} DotFound(prepend: string, entries: OrderedMap<Node>, p: seq<string>, v: string)
    requires WellFormed(entries) && DotFree(entries)
    requires |p| >= 1 && GetPath(entries, p) == Some(Scalar(v))
    ensures Get(Dot(prepend, entries), prepend + Implode('.', p)) == Some(Scalar(v))
    decreases entries
  {
    GetPathDotFree(entries, p);
    var init := entries[..|entries| - 1];
    var b := entries[|entries| - 1];
    var acc := Dot(prepend, init);
    var key := prepend + Implode('.', p);
    WellFormedSplit(entries);
    DotFreeSplit(entries);
    DotLast(prepend, entries);
    GetSnoc(init, b, p[0]);
    if p[0] == b.key {
      if |p| == 1 {
        PutGet(acc, prepend + b.key, b.value);
      } else {
        var sub := prepend + b.key + ".";
        assert GetPath(b.value.entries, p[1..]) == Some(Scalar(v));
        DotFound(sub, b.value.entries, p[1..], v);
        DottedKeyCons(prepend, b.key, p[1..]);
        assert [p[0]] + p[1..] == p;
        DotDistinct(sub, b.value.entries);
        MergeGet(acc, Dot(sub, b.value.entries), key);
      }
    } else {
      assert GetPath(init, p) == Some(Scalar(v));
      DotFound(prepend, init, p, v);
      DottedKeyElsewhere(prepend, b.key, p);
      if b.value.Container? && b.value.entries != [] {
        var sub := prepend + b.key + ".";
        DotLeaves(sub, b.value.entries);
        DotDistinct(sub, b.value.entries);
        NotUnder(sub, Dot(sub, b.value.entries), key);
        MergeGet(acc, Dot(sub, b.value.entries), key);
      } else {
        PutGet(acc, prepend + b.key, b.value);
      }
    }
  }

  /** Going back: every flattened binding is the leaf found at the path its key spells. */
  lemma {:induction false} DotOrigin(prepend: string, entries: OrderedMap<Node>, x: Binding<Node>)
    requires WellFormed(entries) && x in Dot(prepend, entries)
    ensures exists p :: |p| >= 1 && x.key == prepend + Implode('.', p) && GetPath(entries, p) == Some(x.value)
    decreases entries
  {
    var init := entries[..|entries| - 1];
    var b := entries[|entries| - 1];
    var acc := Dot(prepend, init);
    WellFormedSplit(entries);
    DotLast(prepend, entries);
    GetSnoc(init, b, b.key);
    if x in acc {
      DotOrigin(prepend, init, x);
      var p :| |p| >= 1 && x.key == prepend + Implode('.', p) && GetPath(init, p) == Some(x.value);
      OriginInInit(init, b, p);
    } else if b.value.Container? && b.value.entries != [] {
      var sub := prepend + b.key + ".";
      MergeMember(acc, Dot(sub, b.value.entries), x);
      DotOrigin(sub, b.value.entries, x);
      var q :| |q| >= 1 && x.key == sub + Implode('.', q) && GetPath(b.value.entries, q) == Some(x.value);
      DottedKeyCons(prepend, b.key, q);
      assert ([b.key] + q)[1..] == q;
      assert GetPath(entries, [b.key] + q) == Some(x.value);
    } else {
      PutMember(acc, prepend + b.key, b.value, x);
      assert GetPath(entries, [b.key]) == Some(x.value);
      assert x.key == prepend + Implode('.', [b.key]);
    }
  }

  /** A path found among the first entries is found, unchanged, once the last one is added. */
  lemma OriginInInit(init: OrderedMap<Node>, b: Binding<Node>, p: seq<string>)
    requires |p| >= 1 && GetPath(init, p).Some? && b.key !in Keys(init)
    ensures GetPath(init + [b], p) == GetPath(init, p)
  {
    GetPresent(init, p[0]);
    GetSnoc(init, b, p[0]);
  }
}
