/** Python lists filtered by a comprehension, and Python dictionaries, which
    remember the order in which their keys were first inserted. A dictionary
    is a sequence of (key, value) pairs with distinct keys; assigning to a
    key that is present replaces its value where it stands, assigning to a
    new key appends it. */
module Collections {
  import opened Wrappers

  /** `[x for x in s if p(x)]`. */
  function Filter<T(!new)>(s: seq<T>, p: T -> bool): (r: seq<T>)
    ensures |r| <= |s|
    ensures forall i :: 0 <= i < |r| ==> p(r[i])
    ensures forall x :: x in r <==> x in s && p(x)
  {
    if s == [] then [] else (if p(s[0]) then [s[0]] else []) + Filter(s[1..], p)
  }

  lemma {:induction false} FilterAppend<T(!new)>(a: seq<T>, b: seq<T>, p: T -> bool)
    ensures Filter(a + b, p) == Filter(a, p) + Filter(b, p)
  {
    if a == [] {
      assert a + b == b;
    } else {
      var h := if p(a[0]) then [a[0]] else [];
      assert (a + b)[0] == a[0];
      assert (a + b)[1..] == a[1..] + b;
      FilterAppend(a[1..], b, p);
      assert h + (Filter(a[1..], p) + Filter(b, p)) == (h + Filter(a[1..], p)) + Filter(b, p);
    }
  }

  lemma FilterSnoc<T(!new)>(s: seq<T>, i: nat, p: T -> bool)
    requires i < |s|
    ensures Filter(s[..i + 1], p) == Filter(s[..i], p) + (if p(s[i]) then [s[i]] else [])
  {
    assert s[..i + 1] == s[..i] + [s[i]];
    FilterAppend(s[..i], [s[i]], p);
    assert Filter([s[i]], p) == if p(s[i]) then [s[i]] else [] by {
      assert [s[i]][1..] == [];
    }
  }

  /** An element either passes a filter or passes its complement. */
  lemma {:induction false} FilterComplement<T(!new)>(s: seq<T>, p: T -> bool, q: T -> bool)
    requires forall x :: q(x) == !p(x)
    ensures |Filter(s, p)| + |Filter(s, q)| == |s|
  {
    if s != [] {
      FilterComplement(s[1..], p, q);
    }
  }

  /** When p holds exactly where one of q and r does, p's filter is as long
      as the other two together. */
  lemma {:induction false} FilterSplit<T(!new)>(s: seq<T>, p: T -> bool, q: T -> bool, r: T -> bool)
    requires forall x :: p(x) == (q(x) || r(x)) && !(q(x) && r(x))
    ensures |Filter(s, p)| == |Filter(s, q)| + |Filter(s, r)|
  {
    if s != [] {
      FilterSplit(s[1..], p, q, r);
    }
  }

  /** The position of the first element that passes p: the search of a
      `for ... : if ...: return` loop. */
  function FirstWhere<T>(s: seq<T>, p: T -> bool): (r: Option<nat>)
    ensures r.None? <==> forall j :: 0 <= j < |s| ==> !p(s[j])
    ensures r.Some? ==> r.value < |s| && p(s[r.value]) && forall j :: 0 <= j < r.value ==> !p(s[j])
  {
    if s == [] then None
    else if p(s[0]) then Some(0)
    else match FirstWhere(s[1..], p)
      case None => None
      case Some(j) => Some(j + 1)
  }

  /** `m.get(k, k)`: the value of a key, or the key itself when it has
      none. */
  function MapOrSelf<K(==)>(m: map<K, K>, k: K): (r: K)
    ensures k in m ==> r == m[k]
    ensures k !in m ==> r == k
  {
    if k in m then m[k] else k
  }

  /** Python's `max` of a non-empty list of numbers. */
  function Max(s: seq<int>): (m: int)
    requires s != []
    ensures m in s
    ensures forall i :: 0 <= i < |s| ==> s[i] <= m
  {
    if |s| == 1 then s[0]
    else
      var m := Max(s[..|s| - 1]);
      if s[|s| - 1] > m then s[|s| - 1] else m
  }

  /** Python's `min` of a non-empty list of numbers. */
  function Min(s: seq<int>): (m: int)
    requires s != []
    ensures m in s
    ensures forall i :: 0 <= i < |s| ==> m <= s[i]
  {
    if |s| == 1 then s[0]
    else
      var m := Min(s[..|s| - 1]);
      if s[|s| - 1] < m then s[|s| - 1] else m
  }

  /** Appending one element after a concatenation. */
  lemma SnocAssoc<T>(a: seq<T>, b: seq<T>, x: T)
    ensures a + b + [x] == a + (b + [x])
  {
  }

  /** Concatenation is associative. */
  lemma SnocAssocSeq<T>(a: seq<T>, b: seq<T>, c: seq<T>)
    ensures a + b + c == a + (b + c)
  {
  }

  /** A non-empty sequence is its front and its last element. */
  lemma ButLast<T>(s: seq<T>)
    requires s != []
    ensures s[..|s| - 1] + [s[|s| - 1]] == s
  {
  }

  /** The prefix of length i + 1 without its last element. */
  lemma PrefixStep<T>(s: seq<T>, i: nat)
    requires i < |s|
    ensures s[..i + 1][..i] == s[..i] && s[..i + 1][i] == s[i] && |s[..i + 1]| == i + 1
  {
  }

  /** The prefix as long as the sequence is the sequence. */
  lemma PrefixAll<T>(s: seq<T>)
    ensures s[..|s|] == s
  {
  }

  /** Appending an element keeps the front. */
  lemma SnocFront<T>(a: seq<T>, x: T)
    ensures (a + [x])[..|a|] == a
  {
  }

  predicate Distinct<K(==)>(ks: seq<K>) {
    forall i, j :: 0 <= i < j < |ks| ==> ks[i] != ks[j]
  }

  /** A dictionary: its keys in insertion order and the value of each. */
  datatype Dict<K(==), V> = Dict(keys: seq<K>, values: map<K, V>) {
    ghost predicate Valid() {
      Distinct(keys) && values.Keys == set k | k in keys
    }
  }

  function Empty<K(==), V>(): (r: Dict<K, V>)
    ensures r.Valid()
  {
    Dict([], map[])
  }

  /** `d.get(k)`. */
  function Get<K(==), V>(d: Dict<K, V>, k: K): (r: Option<V>)
    ensures r.Some? <==> k in d.values
  {
    if k in d.values then Some(d.values[k]) else None
  }

  /** `d[k] = v`: a key already present keeps its place in the order. */
  function Put<K(==), V>(d: Dict<K, V>, k: K, v: V): (r: Dict<K, V>)
    requires d.Valid()
    ensures r.Valid()
    ensures r.keys == if k in d.values then d.keys else d.keys + [k]
    ensures Get(r, k) == Some(v)
    ensures forall k' :: k' in d.values && k' != k ==> Get(r, k') == Get(d, k')
  {
    Dict(if k in d.values then d.keys else d.keys + [k], d.values[k := v])
  }

  lemma GetPutOther<K, V>(d: Dict<K, V>, k: K, v: V, k': K)
    requires d.Valid() && k' != k
    ensures Get(Put(d, k, v), k') == Get(d, k')
  {
  }

  /** A dictionary of counts. */
  type Counter<K(==)> = Dict<K, nat>

  function Count<K(==)>(c: Counter<K>, k: K): nat {
    Get(c, k).GetOr(0)
  }

  /** `counts[k] = counts.get(k, 0) + n`. */
  function Add<K(==)>(c: Counter<K>, k: K, n: nat): (r: Counter<K>)
    requires c.Valid()
    ensures r.Valid()
  {
    Put(c, k, Count(c, k) + n)
  }

  /** The sum of the values of the keys `ks`. */
  function SumOf<K(==)>(ks: seq<K>, m: map<K, nat>): nat
    requires forall k :: k in ks ==> k in m
  {
    if ks == [] then 0 else SumOf(ks[..|ks| - 1], m) + m[ks[|ks| - 1]]
  }

  /** `sum(counts.values())`. */
  function Total<K(==)>(c: Counter<K>): nat
    requires c.Valid()
  {
    SumOf(c.keys, c.values)
  }

  lemma {:induction false} SumOfUpdate<K>(ks: seq<K>, m: map<K, nat>, k: K, v: nat)
    requires forall x :: x in ks ==> x in m
    requires Distinct(ks) && k in m
    ensures SumOf(ks, m[k := v]) == if k in ks then SumOf(ks, m) - m[k] + v else SumOf(ks, m)
  {
    if ks != [] {
      var init := ks[..|ks| - 1];
      assert forall x :: x in init ==> x in ks;
      SumOfUpdate(init, m, k, v);
      if k in init {
        var i :| 0 <= i < |init| && init[i] == k;
        assert ks[|ks| - 1] != k;
      }
      assert k in ks <==> k in init || ks[|ks| - 1] == k;
    }
  }

  lemma SumOfFresh<K>(ks: seq<K>, m: map<K, nat>, k: K, v: nat)
    requires forall x :: x in ks ==> x in m
    requires k !in ks
    ensures SumOf(ks, m[k := v]) == SumOf(ks, m)
  {
    if ks != [] {
      assert forall x :: x in ks[..|ks| - 1] ==> x in ks;
      SumOfFresh(ks[..|ks| - 1], m, k, v);
    }
  }

  /** Adding n to one key adds n to the total and to that key's count, and
      leaves the other keys' counts alone. */
  lemma AddTotal<K>(c: Counter<K>, k: K, n: nat)
    requires c.Valid()
    ensures Total(Add(c, k, n)) == Total(c) + n
    ensures Count(Add(c, k, n), k) == Count(c, k) + n
    ensures forall k' :: k' != k ==> Count(Add(c, k, n), k') == Count(c, k')
  {
    if k in c.values {
      AddExistingTotal(c, k, n);
    } else {
      AddFreshTotal(c, k, n);
    }
  }

  lemma AddExistingTotal<K>(c: Counter<K>, k: K, n: nat)
    requires c.Valid() && k in c.values
    ensures Total(Add(c, k, n)) == Total(c) + n
  {
    var r := Add(c, k, n);
    var v := Count(c, k) + n;
    assert r.values == c.values[k := v] && r.keys == c.keys;
    assert k in c.keys;
    SumOfUpdate(c.keys, c.values, k, v);
  }

  lemma AddFreshTotal<K>(c: Counter<K>, k: K, n: nat)
    requires c.Valid() && k !in c.values
    ensures Total(Add(c, k, n)) == Total(c) + n
  {
    var r := Add(c, k, n);
    assert r.values == c.values[k := n] && r.keys == c.keys + [k];
    assert k !in c.keys;
    assert r.keys[..|r.keys| - 1] == c.keys;
    SumOfFresh(c.keys, c.values, k, n);
  }
}
