/** Score series as the reports hold them: a sequence of (skill name, score) pairs, in
    the order of the dictionary they come from, and the sorts applied to them.

    Both sorts are insertion sorts that keep equal scores in their original order
    (a stable sort, as the runtime's `sorted` is). */
module Ranking {

  type Entry = (string, real)

  function Names(s: seq<Entry>): (names: seq<string>)
    ensures |names| == |s|
    ensures forall i :: 0 <= i < |s| ==> names[i] == s[i].0
  {
    seq(|s|, i requires 0 <= i < |s| => s[i].0)
  }

  function Scores(s: seq<Entry>): (scores: seq<real>)
    ensures |scores| == |s|
    ensures forall i :: 0 <= i < |s| ==> scores[i] == s[i].1
  {
    seq(|s|, i requires 0 <= i < |s| => s[i].1)
  }

  predicate SortedAsc(s: seq<Entry>) {
    forall i, j :: 0 <= i < j < |s| ==> s[i].1 <= s[j].1
  }

  predicate SortedDesc(s: seq<Entry>) {
    forall i, j :: 0 <= i < j < |s| ==> s[i].1 >= s[j].1
  }

  /** The entries whose score is `v`, in order. */
  function WithScore(s: seq<Entry>, v: real): (r: seq<Entry>)
    ensures forall e :: e in r <==> e in s && e.1 == v
  {
    if s == [] then [] else (if s[0].1 == v then [s[0]] else []) + WithScore(s[1..], v)
  }

  /** `x` inserted into `t` in front of the first entry whose score is not below it. */
  function InsertAsc(x: Entry, t: seq<Entry>): seq<Entry>
  {
    if t == [] || x.1 <= t[0].1 then [x] + t else [t[0]] + InsertAsc(x, t[1..])
  }

  /** `x` inserted into `t` in front of the first entry whose score is not above it. */
  function InsertDesc(x: Entry, t: seq<Entry>): seq<Entry>
  {
    if t == [] || x.1 >= t[0].1 then [x] + t else [t[0]] + InsertDesc(x, t[1..])
  }

  /** `sorted(s, key=score)`. */
  function SortAsc(s: seq<Entry>): seq<Entry>
  {
    if s == [] then [] else InsertAsc(s[0], SortAsc(s[1..]))
  }

  /** `sorted(s, key=score, reverse=True)`. */
  function SortDesc(s: seq<Entry>): seq<Entry>
  {
    if s == [] then [] else InsertDesc(s[0], SortDesc(s[1..]))
  }

  lemma {:induction false} InsertAscPermutes(x: Entry, t: seq<Entry>)
    ensures multiset(InsertAsc(x, t)) == multiset(t) + multiset{x}
    decreases |t|
  {
    if t != [] && x.1 > t[0].1 {
      InsertAscPermutes(x, t[1..]);
      assert t == [t[0]] + t[1..];
    }
  }

  lemma {:induction false} InsertAscSorted(x: Entry, t: seq<Entry>)
    requires SortedAsc(t)
    ensures SortedAsc(InsertAsc(x, t))
    decreases |t|
  {
    if t != [] && x.1 > t[0].1 {
      var u := InsertAsc(x, t[1..]);
      InsertAscSorted(x, t[1..]);
      InsertAscPermutes(x, t[1..]);
      forall e | e in u ensures t[0].1 <= e.1 {
        assert e in multiset(u);
        assert e == x || e in multiset(t[1..]);
      }
    }
  }

  lemma {:induction false} InsertAscKeepsTies(x: Entry, t: seq<Entry>, v: real)
    ensures WithScore(InsertAsc(x, t), v) == if x.1 == v then [x] + WithScore(t, v) else WithScore(t, v)
    decreases |t|
  {
    if t == [] || x.1 <= t[0].1 {
      assert ([x] + t)[1..] == t;
    } else {
      InsertAscKeepsTies(x, t[1..], v);
      assert ([t[0]] + InsertAsc(x, t[1..]))[1..] == InsertAsc(x, t[1..]);
    }
  }

  lemma {:induction false} InsertDescPermutes(x: Entry, t: seq<Entry>)
    ensures multiset(InsertDesc(x, t)) == multiset(t) + multiset{x}
    decreases |t|
  {
    if t != [] && x.1 < t[0].1 {
      InsertDescPermutes(x, t[1..]);
      assert t == [t[0]] + t[1..];
    }
  }

  lemma {:induction false} InsertDescSorted(x: Entry, t: seq<Entry>)
    requires SortedDesc(t)
    ensures SortedDesc(InsertDesc(x, t))
    decreases |t|
  {
    if t != [] && x.1 < t[0].1 {
      var u := InsertDesc(x, t[1..]);
      InsertDescSorted(x, t[1..]);
      InsertDescPermutes(x, t[1..]);
      forall e | e in u ensures t[0].1 >= e.1 {
        assert e in multiset(u);
        assert e == x || e in multiset(t[1..]);
      }
    }
  }

  lemma {:induction false} InsertDescKeepsTies(x: Entry, t: seq<Entry>, v: real)
    ensures WithScore(InsertDesc(x, t), v) == if x.1 == v then [x] + WithScore(t, v) else WithScore(t, v)
    decreases |t|
  {
    if t == [] || x.1 >= t[0].1 {
      assert ([x] + t)[1..] == t;
    } else {
      InsertDescKeepsTies(x, t[1..], v);
      assert ([t[0]] + InsertDesc(x, t[1..]))[1..] == InsertDesc(x, t[1..]);
    }
  }

  /** A list holds its head and its tail. */
  lemma ConsMultiset(s: seq<Entry>)
    requires s != []
    ensures multiset(s) == multiset(s[1..]) + multiset{s[0]}
  {
    assert s == [s[0]] + s[1..];
  }

  /** The ascending sort orders by score and is a permutation. */
  lemma {:induction false} SortAscCorrect(s: seq<Entry>)
    ensures SortedAsc(SortAsc(s))
    ensures multiset(SortAsc(s)) == multiset(s)
    decreases |s|
  {
    if s != [] {
      SortAscCorrect(s[1..]);
      InsertAscSorted(s[0], SortAsc(s[1..]));
      InsertAscPermutes(s[0], SortAsc(s[1..]));
      ConsMultiset(s);
    }
  }

  /** The ascending sort is stable: the entries sharing a score keep their relative order. */
  lemma {:induction false} SortAscStable(s: seq<Entry>, v: real)
    ensures WithScore(SortAsc(s), v) == WithScore(s, v)
    decreases |s|
  {
    if s != [] {
      SortAscStable(s[1..], v);
      InsertAscKeepsTies(s[0], SortAsc(s[1..]), v);
      assert WithScore(s, v) == (if s[0].1 == v then [s[0]] else []) + WithScore(s[1..], v);
    }
  }

  /** The descending sort orders by score and is a permutation. */
  lemma {:induction false} SortDescCorrect(s: seq<Entry>)
    ensures SortedDesc(SortDesc(s))
    ensures multiset(SortDesc(s)) == multiset(s)
    decreases |s|
  {
    if s != [] {
      SortDescCorrect(s[1..]);
      InsertDescSorted(s[0], SortDesc(s[1..]));
      InsertDescPermutes(s[0], SortDesc(s[1..]));
      ConsMultiset(s);
    }
  }

  /** The descending sort is stable. */
  lemma {:induction false} SortDescStable(s: seq<Entry>, v: real)
    ensures WithScore(SortDesc(s), v) == WithScore(s, v)
    decreases |s|
  {
    if s != [] {
      SortDescStable(s[1..], v);
      InsertDescKeepsTies(s[0], SortDesc(s[1..]), v);
      assert WithScore(s, v) == (if s[0].1 == v then [s[0]] else []) + WithScore(s[1..], v);
    }
  }

  /** `s[:n]`. */
  function Take<T>(s: seq<T>, n: nat): (r: seq<T>)
    ensures |r| == if n < |s| then n else |s|
    ensures r == s[..|r|]
  {
    if n < |s| then s[..n] else s
  }

  /** `s[-n:]` for `n > 0`. */
  function TakeLast<T>(s: seq<T>, n: nat): (r: seq<T>)
    ensures |r| == if n < |s| then n else |s|
    ensures r == s[|s| - |r|..]
  {
    if n < |s| then s[|s| - n..] else s
  }

  /** The entries of `s` whose score is above `t`. */
  function Above(s: seq<Entry>, t: real): (r: seq<Entry>)
    ensures forall e :: multiset(r)[e] == if e.1 > t then multiset(s)[e] else 0
    ensures forall e :: e in r <==> e in s && e.1 > t
    ensures |r| <= |s|
  {
    if s == [] then []
    else
      assert s == [s[0]] + s[1..];
      (if s[0].1 > t then [s[0]] else []) + Above(s[1..], t)
  }

  /** The entries of `s` whose score is below `t`. */
  function Below(s: seq<Entry>, t: real): (r: seq<Entry>)
    ensures forall e :: multiset(r)[e] == if e.1 < t then multiset(s)[e] else 0
    ensures forall e :: e in r <==> e in s && e.1 < t
    ensures |r| <= |s|
  {
    if s == [] then []
    else
      assert s == [s[0]] + s[1..];
      (if s[0].1 < t then [s[0]] else []) + Below(s[1..], t)
  }

  /** Filtering by score keeps a part of the entries. */
  lemma FilterSub(s: seq<Entry>, t: real)
    ensures multiset(Above(s, t)) <= multiset(s)
    ensures multiset(Below(s, t)) <= multiset(s)
  {
  }

  /** In a sequence sorted by ascending score, a suffix holds the highest entries and
      is itself sorted. */
  lemma SuffixOfAscIsHighest(t: seq<Entry>, k: nat)
    requires SortedAsc(t) && k <= |t|
    ensures multiset(t[k..]) <= multiset(t)
    ensures multiset(t) - multiset(t[k..]) == multiset(t[..k])
    ensures forall x, y :: x in multiset(t) - multiset(t[k..]) && y in t[k..] ==> x.1 <= y.1
    ensures SortedAsc(t[k..])
  {
    PrefixOfAscIsLowest(t, k);
    WholeLessPart(multiset(t[..k]), multiset(t[k..]));
    forall i, j | 0 <= i < j < |t[k..]| ensures t[k..][i].1 <= t[k..][j].1 {
      assert t[k..][i] == t[k + i] && t[k..][j] == t[k + j];
    }
  }

  /** Taking one part out of a whole made of two parts leaves the other. */
  lemma WholeLessPart(a: multiset<Entry>, b: multiset<Entry>)
    ensures (a + b) - b == a && (a + b) - a == b
  {
    assert forall x :: ((a + b) - b)[x] == a[x];
    assert forall x :: ((a + b) - a)[x] == b[x];
  }

  /** A part of a part is a part. */
  lemma SubTrans(a: seq<Entry>, b: seq<Entry>, c: seq<Entry>)
    requires multiset(a) <= multiset(b) && multiset(b) <= multiset(c)
    ensures multiset(a) <= multiset(c)
    ensures forall e :: e in a ==> e in c
  {
    forall e | e in a ensures e in c {
      assert e in multiset(a);
    }
  }

  /** In a sequence sorted by descending score, a prefix holds the highest entries:
      whatever is left over scores no higher than any entry taken. */
  lemma PrefixOfDescIsHighest(t: seq<Entry>, k: nat)
    requires SortedDesc(t) && k <= |t|
    ensures multiset(t[..k]) + multiset(t[k..]) == multiset(t)
    ensures forall x, y :: x in t[k..] && y in t[..k] ==> x.1 <= y.1
  {
    assert t == t[..k] + t[k..];
    forall x, y | x in t[k..] && y in t[..k] ensures x.1 <= y.1 {
      var i :| 0 <= i < |t[k..]| && t[k..][i] == x;
      var j :| 0 <= j < k && t[..k][j] == y;
      assert t[k + i] == x && t[j] == y;
    }
  }

  /** In a sequence sorted by ascending score, a prefix holds the lowest entries. */
  lemma PrefixOfAscIsLowest(t: seq<Entry>, k: nat)
    requires SortedAsc(t) && k <= |t|
    ensures multiset(t[..k]) + multiset(t[k..]) == multiset(t)
    ensures forall x, y :: x in t[k..] && y in t[..k] ==> x.1 >= y.1
  {
    assert t == t[..k] + t[k..];
    forall x, y | x in t[k..] && y in t[..k] ensures x.1 >= y.1 {
      var i :| 0 <= i < |t[k..]| && t[k..][i] == x;
      var j :| 0 <= j < k && t[..k][j] == y;
      assert t[k + i] == x && t[j] == y;
    }
  }

  lemma SortAscLength(s: seq<Entry>)
    ensures |SortAsc(s)| == |s|
  {
    SortAscCorrect(s);
    assert |multiset(SortAsc(s))| == |multiset(s)|;
  }

  lemma SortDescLength(s: seq<Entry>)
    ensures |SortDesc(s)| == |s|
  {
    SortDescCorrect(s);
    assert |multiset(SortDesc(s))| == |multiset(s)|;
  }

  /** A prefix of a sorted sequence is sorted and drawn from it. */
  lemma TakeOfSorted(t: seq<Entry>, k: nat)
    ensures SortedAsc(t) ==> SortedAsc(Take(t, k))
    ensures SortedDesc(t) ==> SortedDesc(Take(t, k))
    ensures multiset(Take(t, k)) <= multiset(t)
  {
    var r := Take(t, k);
    assert t == r + t[|r|..];
  }

  lemma SortedTail(s: seq<Entry>)
    requires SortedAsc(s) && s != []
    ensures SortedAsc(s[1..])
    ensures forall e :: e in s[1..] ==> s[0].1 <= e.1
  {
    forall e | e in s[1..] ensures s[0].1 <= e.1 {
      var i :| 0 <= i < |s[1..]| && s[1..][i] == e;
      assert s[i + 1] == e;
    }
  }

  lemma {:induction false} AboveKeepsSorted(s: seq<Entry>, t: real)
    requires SortedAsc(s)
    ensures SortedAsc(Above(s, t))
    decreases |s|
  {
    if s != [] {
      var rest := Above(s[1..], t);
      SortedTail(s);
      AboveKeepsSorted(s[1..], t);
      if s[0].1 > t {
        var r := [s[0]] + rest;
        assert Above(s, t) == r;
        assert forall e :: e in rest ==> s[0].1 <= e.1;
        SortedCons(s[0], rest);
      } else {
        assert Above(s, t) == rest;
      }
    }
  }

  lemma SortedCons(x: Entry, rest: seq<Entry>)
    requires SortedAsc(rest) && forall e :: e in rest ==> x.1 <= e.1
    ensures SortedAsc([x] + rest)
  {
    var r := [x] + rest;
    forall i, j | 0 <= i < j < |r| ensures r[i].1 <= r[j].1 {
      if i > 0 {
        assert r[i] == rest[i - 1] && r[j] == rest[j - 1];
      } else {
        assert r[j] in rest;
      }
    }
  }

  /** Keeping the entries below a threshold keeps a sorted sequence sorted. */
  lemma {:induction false} BelowKeepsSorted(s: seq<Entry>, t: real)
    requires SortedAsc(s)
    ensures SortedAsc(Below(s, t))
    decreases |s|
  {
    if s != [] {
      var rest := Below(s[1..], t);
      SortedTail(s);
      BelowKeepsSorted(s[1..], t);
      if s[0].1 < t {
        var r := [s[0]] + rest;
        assert forall e :: e in rest ==> s[0].1 <= e.1;
        SortedCons(s[0], rest);
        assert Below(s, t) == r;
      } else {
        assert Below(s, t) == rest;
      }
    }
  }
}
