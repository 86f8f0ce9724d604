/** Python dictionaries, whose iteration order is insertion order, as sequences of
    (key, value) pairs with distinct keys; and first-appearance de-duplication of a
    sequence (`dict.fromkeys`, pandas `unique`). */
module OrderedDict {
  import opened Common

  type Dict<K, V> = seq<(K, V)>

  function Keys<K, V>(d: Dict<K, V>): (ks: seq<K>)
    ensures |ks| == |d|
  {
    seq(|d|, i requires 0 <= i < |d| => d[i].0)
  }

  function Values<K, V>(d: Dict<K, V>): (vs: seq<V>)
    ensures |vs| == |d|
  {
    seq(|d|, i requires 0 <= i < |d| => d[i].1)
  }

  predicate NoDup<T(==)>(s: seq<T>) {
    forall i, j :: 0 <= i < j < |s| ==> s[i] != s[j]
  }

  predicate NoDupKeys<K(==), V>(d: Dict<K, V>) {
    NoDup(Keys(d))
  }

  /** The position of the first occurrence of `x` in `s`. */
  function IndexOf<T(==)>(s: seq<T>, x: T): (i: nat)
    requires x in s
    ensures i < |s| && s[i] == x
    ensures forall j :: 0 <= j < i ==> s[j] != x
  {
    if s[0] == x then 0 else 1 + IndexOf(s[1..], x)
  }

  /** `d.get(k)`: the value stored under `k`, if any. */
  function Get<K(==), V>(d: Dict<K, V>, k: K): (r: Option<V>)
    ensures r.Some? <==> k in Keys(d)
    ensures r.Some? ==> d[IndexOf(Keys(d), k)] == (k, r.value)
  {
    if k in Keys(d) then Some(d[IndexOf(Keys(d), k)].1) else None
  }

  /** `d[k] = v`: an existing key keeps its position and takes the new value; a new key
      is appended. */
  function Set<K(==), V>(d: Dict<K, V>, k: K, v: V): (r: Dict<K, V>)
    ensures Keys(r) == if k in Keys(d) then Keys(d) else Keys(d) + [k]
  {
    if k in Keys(d) then d[IndexOf(Keys(d), k) := (k, v)] else d + [(k, v)]
  }

  /** `d.pop(k)` without its result: every entry under `k` is dropped. */
  function Remove<K(==,!new), V>(d: Dict<K, V>, k: K): (r: Dict<K, V>)
    ensures k !in Keys(r)
    ensures forall k' :: k' != k ==> (k' in Keys(r) <==> k' in Keys(d))
    ensures |r| <= |d|
  {
    if d == [] then []
    else
      var rest := Remove(d[1..], k);
      assert Keys(d) == [d[0].0] + Keys(d[1..]);
      if d[0].0 == k then rest
      else
        assert Keys([d[0]] + rest) == [d[0].0] + Keys(rest);
        [d[0]] + rest
  }

  /** Removing one key leaves what is stored under every other key as it was. */
  lemma {:induction false} GetRemove<K(!new), V>(d: Dict<K, V>, k: K, k': K)
    requires k' != k
    ensures Get(Remove(d, k), k') == Get(d, k')
    decreases |d|
  {
    if d != [] {
      GetRemove(d[1..], k, k');
      assert d == [d[0]] + d[1..];
      GetCons(d[0], d[1..], k');
      if d[0].0 != k {
        GetCons(d[0], Remove(d[1..], k), k');
      }
    }
  }

  /** Looking up a key in a dictionary with one more entry in front. */
  lemma GetCons<K, V>(e: (K, V), d: Dict<K, V>, k: K)
    ensures Get([e] + d, k) == if e.0 == k then Some(e.1) else Get(d, k)
  {
    var r := [e] + d;
    assert Keys(r) == [e.0] + Keys(d);
    if e.0 != k && k in Keys(d) {
      assert IndexOf(Keys(r), k) == 1 + IndexOf(Keys(d), k) by {
        assert Keys(r)[1..] == Keys(d);
      }
    }
  }

  lemma {:induction false} KeysOfSlice<K, V>(d: Dict<K, V>, i: nat)
    requires i <= |d|
    ensures Keys(d[i..]) == Keys(d)[i..]
  {
  }

  lemma KeysAppend<K, V>(d: Dict<K, V>, e: Dict<K, V>)
    ensures Keys(d + e) == Keys(d) + Keys(e)
  {
  }

  /** Reading back what was just stored, and everything else untouched. */
  lemma GetSet<K, V>(d: Dict<K, V>, k: K, v: V, k': K)
    requires NoDupKeys(d)
    ensures NoDupKeys(Set(d, k, v))
    ensures Get(Set(d, k, v), k') == if k' == k then Some(v) else Get(d, k')
  {
    var r := Set(d, k, v);
    if k' in Keys(d) {
      var i := IndexOf(Keys(d), k');
      var j := IndexOf(Keys(r), k');
      assert Keys(r)[i] == k';
      assert j == i;
    } else if k' == k {
      assert Keys(r)[|d|] == k;
    }
  }

  /** Storing back the value a key already holds changes nothing. */
  lemma SetStored<K, V>(d: Dict<K, V>, k: K, v: V)
    requires Get(d, k) == Some(v)
    ensures Set(d, k, v) == d
  {
  }

  /** Without repetitions, an element is found where it stands. */
  lemma IndexOfNoDup<T>(s: seq<T>, j: nat)
    requires NoDup(s) && j < |s|
    ensures IndexOf(s, s[j]) == j
  {
  }

  /** Looking up in a dict with one more entry at the end. */
  lemma GetSnoc<K, V>(d: Dict<K, V>, k: K, v: V, a: K)
    ensures Get(d + [(k, v)], a) == if a in Keys(d) then Get(d, a) else if a == k then Some(v) else None
  {
    var e := d + [(k, v)];
    assert Keys(e) == Keys(d) + [k];
    if a in Keys(d) {
      PrefixIndexOf(Keys(d), k, a);
    }
  }

  /** In a dict without repeated keys, `Get` finds exactly the stored pairs. */
  lemma GetIffStored<K, V>(d: Dict<K, V>, k: K, v: V)
    requires NoDupKeys(d)
    ensures Get(d, k) == Some(v) <==> (k, v) in d
  {
    if (k, v) in d {
      var i :| 0 <= i < |d| && d[i] == (k, v);
      assert Keys(d)[i] == k;
      assert IndexOf(Keys(d), k) == i;
    }
  }

  /** `list(dict.fromkeys(s))`: each element once, at its first appearance. */
  function Unique<T(==,!new)>(s: seq<T>): (u: seq<T>)
    ensures NoDup(u)
    ensures forall x :: x in u <==> x in s
    decreases |s|
  {
    if s == [] then []
    else
      var u := Unique(s[..|s| - 1]);
      var x := s[|s| - 1];
      assert forall y :: y in s <==> y in s[..|s| - 1] || y == x;
      if x in u then u else u + [x]
  }

  /** The elements of `Unique(s)` come in the order of their first appearance in `s`. */
  lemma {:induction false} UniqueInFirstAppearanceOrder<T(!new)>(s: seq<T>, i: nat, j: nat)
    requires i < j < |Unique(s)|
    ensures IndexOf(s, Unique(s)[i]) < IndexOf(s, Unique(s)[j])
    decreases |s|
  {
    var p := s[..|s| - 1];
    var u := Unique(p);
    assert s == p + [s[|s| - 1]];
    assert forall y :: y in p ==> IndexOf(s, y) == IndexOf(p, y) by {
      forall y | y in p ensures IndexOf(s, y) == IndexOf(p, y) {
        PrefixIndexOf(p, s[|s| - 1], y);
      }
    }
    if j < |u| {
      UniqueInFirstAppearanceOrder(p, i, j);
    } else {
      assert Unique(s)[j] == s[|s| - 1] && s[|s| - 1] !in p;
      assert Unique(s)[i] in p;
    }
  }

  lemma {:induction false} PrefixIndexOf<T>(p: seq<T>, x: T, y: T)
    requires y in p
    ensures IndexOf(p + [x], y) == IndexOf(p, y)
  {
    var i := IndexOf(p, y);
    var s := p + [x];
    assert s[i] == y;
    var j := IndexOf(s, y);
  }

  /** The elements of `s` that satisfy `keep`, in order. */
  function Filter<T(!new)>(s: seq<T>, keep: T -> bool): (r: seq<T>)
    ensures |r| <= |s|
    ensures forall x :: x in r <==> x in s && keep(x)
  {
    if s == [] then []
    else (if keep(s[0]) then [s[0]] else []) + Filter(s[1..], keep)
  }

  /** The position of the last occurrence of `x` in `s`. */
  function LastIndexOf<T(==)>(s: seq<T>, x: T): (i: nat)
    requires x in s
    ensures i < |s| && s[i] == x
    ensures forall j :: i < j < |s| ==> s[j] != x
  {
    if s[|s| - 1] == x then |s| - 1 else LastIndexOf(s[..|s| - 1], x)
  }

  /** `d = {}; for k, v in pairs: d[k] = v`: a repeated key keeps the position of its
      first assignment and takes the value of its last. */
  function Assign<K(==,!new), V>(pairs: seq<(K, V)>): (d: Dict<K, V>)
    ensures Keys(d) == Unique(Keys(pairs))
    decreases |pairs|
  {
    if pairs == [] then []
    else
      var n := |pairs| - 1;
      assert Keys(pairs[..n]) == Keys(pairs)[..n];
      Set(Assign(pairs[..n]), pairs[n].0, pairs[n].1)
  }

  /** One more assignment at the end. */
  lemma AssignAppend<K(!new), V>(pairs: seq<(K, V)>, k: K, v: V)
    ensures Assign(pairs + [(k, v)]) == Set(Assign(pairs), k, v)
  {
    assert (pairs + [(k, v)])[..|pairs|] == pairs;
  }

  /** After the assignments, a key holds the value of its last assignment. */
  lemma {:induction false} AssignGet<K(!new), V>(pairs: seq<(K, V)>, k: K)
    ensures Get(Assign(pairs), k) ==
      if k in Keys(pairs) then Some(pairs[LastIndexOf(Keys(pairs), k)].1) else None
    decreases |pairs|
  {
    if pairs != [] {
      var n := |pairs| - 1;
      var p := pairs[..n];
      assert Keys(p) == Keys(pairs)[..n];
      assert Keys(pairs) == Keys(p) + [pairs[n].0];
      AssignGet(p, k);
      GetSet(Assign(p), pairs[n].0, pairs[n].1, k);
      if k != pairs[n].0 && k in Keys(pairs) {
        assert k in Keys(p);
        assert LastIndexOf(Keys(pairs), k) == LastIndexOf(Keys(p), k);
      }
    }
  }

  /** Every entry of the result is one of the assigned pairs. */
  lemma AssignStored<K(!new), V>(pairs: seq<(K, V)>, m: nat)
    requires m < |Assign(pairs)|
    ensures Assign(pairs)[m] in pairs
  {
    var d := Assign(pairs);
    var k := d[m].0;
    assert Keys(d)[m] == k;
    AssignGet(pairs, k);
    IndexOfNoDup(Keys(d), m);
    assert pairs[LastIndexOf(Keys(pairs), k)] == d[m];
  }

  /** The values paired with `k`, in order, repeats included. */
  function ValuesOf<K(==), V(!new)>(pairs: seq<(K, V)>, k: K): (vs: seq<V>)
    ensures |vs| == multiset(Keys(pairs))[k]
    ensures forall v :: v in vs <==> (k, v) in pairs
    decreases |pairs|
  {
    if pairs == [] then []
    else
      var n := |pairs| - 1;
      var p := pairs[..n];
      assert Keys(p) == Keys(pairs)[..n];
      assert Keys(pairs) == Keys(p) + [pairs[n].0];
      assert pairs == p + [pairs[n]];
      ValuesOf(p, k) + (if pairs[n].0 == k then [pairs[n].1] else [])
  }

  lemma ValuesOfSnoc<K, V(!new)>(pairs: seq<(K, V)>, k: K, v: V, a: K)
    ensures ValuesOf(pairs + [(k, v)], a) == ValuesOf(pairs, a) + (if a == k then [v] else [])
  {
    assert (pairs + [(k, v)])[..|pairs|] == pairs;
  }

  lemma UniqueAppend<T(!new)>(s: seq<T>, x: T)
    ensures Unique(s + [x]) == if x in Unique(s) then Unique(s) else Unique(s) + [x]
  {
    assert (s + [x])[..|s|] == s;
  }

  /** An assignment that no later one repeats the key of decides that key's value. */
  lemma LastAssignedAt<K(!new), V>(pairs: seq<(K, V)>, c: nat)
    requires c < |pairs|
    requires forall j :: c < j < |pairs| ==> Keys(pairs)[j] != Keys(pairs)[c]
    ensures Get(Assign(pairs), pairs[c].0) == Some(pairs[c].1)
  {
    var k := pairs[c].0;
    var ks := Keys(pairs);
    AssignGet(pairs, k);
    assert ks[c] == k;
    var l := LastIndexOf(ks, k);
    assert l == c;
  }

  /** A duplicate-free sequence is its own `Unique`. */
  lemma {:induction false} UniqueOfNoDup<T(!new)>(s: seq<T>)
    requires NoDup(s)
    ensures Unique(s) == s
    decreases |s|
  {
    if s != [] {
      var p := s[..|s| - 1];
      assert forall i :: 0 <= i < |p| ==> p[i] == s[i];
      UniqueOfNoDup(p);
      assert s == p + [s[|s| - 1]];
    }
  }

  /** Distinct elements at the front keep the first positions of `Unique`. */
  lemma {:induction false} UniqueKeepsPrefix<T(!new)>(p: seq<T>, s: seq<T>)
    requires NoDup(p)
    ensures |p| <= |Unique(p + s)| && Unique(p + s)[..|p|] == p
    decreases |s|
  {
    if s == [] {
      assert p + s == p;
      UniqueOfNoDup(p);
    } else {
      var t := s[..|s| - 1];
      var x := s[|s| - 1];
      assert p + s == (p + t) + [x];
      UniqueKeepsPrefix(p, t);
      UniqueAppend(p + t, x);
    }
  }

  /** `d` groups the pairs by key: its keys are the distinct keys in first-appearance
      order, each holding the values paired with it, in order. */
  predicate Grouped<K(==,!new), V(==,!new)>(d: Dict<K, seq<V>>, pairs: seq<(K, V)>) {
    && Keys(d) == Unique(Keys(pairs))
    && forall m :: 0 <= m < |d| ==> d[m].1 == ValuesOf(pairs, d[m].0)
  }

  /** `if k not in d: d[k] = []` followed by `d[k].append(v)` groups one more pair. */
  lemma GroupAppend<K(!new), V(!new)>(d: Dict<K, seq<V>>, pairs: seq<(K, V)>, k: K, v: V)
    requires Grouped(d, pairs)
    ensures k in Keys(if k in Keys(d) then d else Set(d, k, []))
    ensures
      var d1 := if k in Keys(d) then d else Set(d, k, []);
      Grouped(Set(d1, k, Get(d1, k).value + [v]), pairs + [(k, v)])
  {
    var d1 := if k in Keys(d) then d else Set(d, k, []);
    var p := pairs + [(k, v)];
    KeysAppend(pairs, [(k, v)]);
    UniqueAppend(Keys(pairs), k);
    assert NoDupKeys(d);
    GetSet(d, k, [], k);
    assert Keys(d1) == Unique(Keys(p));
    var old_ := Get(d1, k).value;
    assert old_ == ValuesOf(pairs, k) by {
      if k in Keys(d) {
        assert d[IndexOf(Keys(d), k)].1 == ValuesOf(pairs, k);
      } else {
        assert k !in Keys(pairs);
        assert multiset(Keys(pairs))[k] == 0;
      }
    }
    var d2 := Set(d1, k, old_ + [v]);
    var i := IndexOf(Keys(d1), k);
    assert d2 == d1[i := (k, old_ + [v])];
    forall m | 0 <= m < |d2| ensures d2[m].1 == ValuesOf(p, d2[m].0) {
      ValuesOfSnoc(pairs, k, v, d2[m].0);
      if m == i {
        assert d2[m] == (k, old_ + [v]);
      } else {
        assert d2[m] == d1[m];
        assert Keys(d1)[m] != k;
        if m < |d| {
          assert d1[m] == d[m];
        }
      }
    }
  }

  /** `{**d, **e}`: the entries of `e` assigned, in order, on top of `d`. */
  function Update<K(==), V>(d: Dict<K, V>, e: Dict<K, V>): (r: Dict<K, V>)
    decreases |e|
  {
    if e == [] then d
    else
      var n := |e| - 1;
      Set(Update(d, e[..n]), e[n].0, e[n].1)
  }

  /** After the update a key of `e` holds its value there, any other key its value in
      `d`, and no key is repeated. */
  lemma {:induction false} UpdateGet<K, V>(d: Dict<K, V>, e: Dict<K, V>, k: K)
    requires NoDupKeys(d) && NoDupKeys(e)
    ensures NoDupKeys(Update(d, e))
    ensures Get(Update(d, e), k) == if k in Keys(e) then Get(e, k) else Get(d, k)
    decreases |e|
  {
    if e != [] {
      var n := |e| - 1;
      var p := e[..n];
      assert Keys(p) == Keys(e)[..n];
      assert Keys(e) == Keys(p) + [e[n].0];
      assert NoDupKeys(p);
      assert e[n].0 !in Keys(p) by {
        forall j | 0 <= j < n ensures Keys(p)[j] != e[n].0 {
          assert Keys(e)[j] == Keys(p)[j] && Keys(e)[n] == e[n].0;
        }
      }
      assert e == p + [e[n]];
      UpdateGet(d, p, k);
      GetSet(Update(d, p), e[n].0, e[n].1, k);
      GetSnoc(p, e[n].0, e[n].1, k);
    }
  }
}
