/** Sequence operations that several copies use: the stream filters and
    `findFirst` lookups of the Java code, and Python's list comprehensions. */
module Seqs {
  import opened Base

  /** The elements of `s` that satisfy `p`, in their order in `s`. */
  function Filter<T>(s: seq<T>, p: T -> bool): (r: seq<T>)
    ensures |r| <= |s|
    ensures forall i :: 0 <= i < |r| ==> r[i] in s && p(r[i])
    ensures forall i :: 0 <= i < |s| && p(s[i]) ==> s[i] in r
    decreases |s|
  {
    if s == [] then []
    else (if p(s[0]) then [s[0]] else []) + Filter(s[1..], p)
  }

  /** Filtering distributes over concatenation, so the filter keeps the
      order of the input. */
  lemma {:induction false} FilterConcat<T>(a: seq<T>, b: seq<T>, p: T -> bool)
    ensures Filter(a + b, p) == Filter(a, p) + Filter(b, p)
    decreases |a|
  {
    if a == [] {
      assert a + b == b;
    } else {
      assert (a + b)[0] == a[0];
      assert (a + b)[1..] == a[1..] + b;
      FilterConcat(a[1..], b, p);
      var h: seq<T> := if p(a[0]) then [a[0]] else [];
      assert Filter(a + b, p) == h + Filter(a[1..] + b, p);
      assert Filter(a, p) == h + Filter(a[1..], p);
      assert h + (Filter(a[1..], p) + Filter(b, p)) == (h + Filter(a[1..], p)) + Filter(b, p);
    }
  }

  /** The filter keeps every copy of an element that satisfies `p` and no
      copy of one that does not. */
  lemma {:induction false} FilterCount<T>(s: seq<T>, p: T -> bool, x: T)
    ensures multiset(Filter(s, p))[x] == if p(x) then multiset(s)[x] else 0
    decreases |s|
  {
    if s != [] {
      FilterCount(s[1..], p, x);
      assert s == [s[0]] + s[1..];
      assert multiset(s) == multiset{s[0]} + multiset(s[1..]);
    }
  }

  /** A non-empty sequence is its prefix followed by its last element. */
  lemma LastSplit<T>(s: seq<T>)
    requires s != []
    ensures s == s[..|s| - 1] + [s[|s| - 1]]
  {
  }

  /** Filtering a prefix one element longer adds at most that element. */
  lemma FilterSnoc<T>(s: seq<T>, i: nat, p: T -> bool)
    requires i < |s|
    ensures Filter(s[..i + 1], p) == Filter(s[..i], p) + (if p(s[i]) then [s[i]] else [])
  {
    assert s[..i + 1] == s[..i] + [s[i]];
    FilterConcat(s[..i], [s[i]], p);
  }

  /** Mapping the filter of a prefix one element longer adds at most that
      element's image. */
  lemma MapFilterSnoc<T, U>(s: seq<T>, i: nat, p: T -> bool, f: T -> U)
    requires i < |s|
    ensures Map(Filter(s[..i + 1], p), f) == Map(Filter(s[..i], p), f) + (if p(s[i]) then [f(s[i])] else [])
  {
    FilterSnoc(s, i, p);
    MapConcat(Filter(s[..i], p), if p(s[i]) then [s[i]] else [], f);
  }

  /** The position of the first element satisfying `p` (`findFirst`). */
  function FirstIndex<T>(s: seq<T>, p: T -> bool): (k: Option<nat>)
    ensures k.Some? ==> k.value < |s| && p(s[k.value])
    ensures k.Some? ==> forall j :: 0 <= j < k.value ==> !p(s[j])
    ensures k.None? ==> forall j :: 0 <= j < |s| ==> !p(s[j])
    decreases |s|
  {
    if s == [] then None
    else if p(s[0]) then Some(0)
    else match FirstIndex(s[1..], p)
      case None => None
      case Some(k) => Some(k + 1)
  }

  /** `FirstIndex` names the first position satisfying `p` below `n`, or
      none when there is none below `n` and `n` is the end: what a search
      loop that stops at the first hit finds. */
  lemma FirstIndexIs<T>(s: seq<T>, p: T -> bool, n: nat)
    requires n <= |s| && forall j :: 0 <= j < n ==> !p(s[j])
    requires n < |s| ==> p(s[n])
    ensures FirstIndex(s, p) == if n < |s| then Some(n) else None
  {
  }

  /** Replacing the first element satisfying `p` by another that satisfies
      it, and changing nothing the test looks at elsewhere, keeps it first. */
  lemma FirstIndexUpdate<T>(s: seq<T>, p: T -> bool, k: nat, x: T)
    requires FirstIndex(s, p) == Some(k) && p(x)
    ensures FirstIndex(s[k := x], p) == Some(k)
  {
    FirstIndexIs(s[k := x], p, k);
  }

  /** `stream().filter(p).findFirst().orElse(null)`. */
  function FindFirst<T>(s: seq<T>, p: T -> bool): (r: Option<T>)
    ensures r.None? <==> forall j :: 0 <= j < |s| ==> !p(s[j])
    ensures r.Some? ==> r.value in s && p(r.value)
  {
    match FirstIndex(s, p)
    case None => None
    case Some(k) => Some(s[k])
  }

  /** The sequence with every element mapped by `f`. */
  function Map<T, U>(s: seq<T>, f: T -> U): (r: seq<U>)
    ensures |r| == |s|
    ensures forall i :: 0 <= i < |s| ==> r[i] == f(s[i])
  {
    seq(|s|, i requires 0 <= i < |s| => f(s[i]))
  }

  lemma MapConcat<T, U>(a: seq<T>, b: seq<T>, f: T -> U)
    ensures Map(a + b, f) == Map(a, f) + Map(b, f)
  {
  }

  /** The images of the elements that pass `p` are exactly the mapped
      filter. */
  lemma MapFilterCovers<T, U>(s: seq<T>, p: T -> bool, f: T -> U)
    ensures forall x :: x in s && p(x) ==> f(x) in Map(Filter(s, p), f)
    ensures forall y :: y in Map(Filter(s, p), f) ==> exists x :: x in s && p(x) && y == f(x)
  {
    var kept := Filter(s, p);
    forall x | x in s && p(x)
      ensures f(x) in Map(kept, f)
    {
      var i :| 0 <= i < |s| && s[i] == x;
      var j :| 0 <= j < |kept| && kept[j] == x;
      assert Map(kept, f)[j] == f(x);
    }
    forall y | y in Map(kept, f)
      ensures exists x :: x in s && p(x) && y == f(x)
    {
      var j :| 0 <= j < |kept| && Map(kept, f)[j] == y;
      assert kept[j] in s && p(kept[j]);
    }
  }

  lemma MapSnoc<T, U>(s: seq<T>, i: nat, f: T -> U)
    requires i < |s|
    ensures Map(s[..i + 1], f) == Map(s[..i], f) + [f(s[i])]
  {
  }

  /** The values `f` gives for the elements of `s`, in order, leaving out
      the elements it gives `None` for (a loop that skips what it cannot
      convert). */
  function Collect<T, U>(s: seq<T>, f: T -> Option<U>): (r: seq<U>)
    ensures |r| <= |s|
    decreases |s|
  {
    if s == [] then []
    else Collect(s[..|s| - 1], f) + (match f(s[|s| - 1]) case Some(v) => [v] case None => [])
  }

  lemma CollectSnoc<T, U>(s: seq<T>, i: nat, f: T -> Option<U>)
    requires i < |s|
    ensures Collect(s[..i + 1], f) == Collect(s[..i], f) + (match f(s[i]) case Some(v) => [v] case None => [])
  {
    assert s[..i + 1][..i] == s[..i];
  }

  /** `CollectSnoc` for a loop that has already computed `f(s[i])`. */
  lemma CollectSnocOf<T, U>(s: seq<T>, i: nat, f: T -> Option<U>, y: Option<U>)
    requires i < |s| && y == f(s[i])
    ensures Collect(s[..i + 1], f) == Collect(s[..i], f) + (if y.Some? then [y.value] else [])
  {
    CollectSnoc(s, i, f);
  }

  /** Collecting distributes over concatenation, so what is kept stays in
      the order of the input. */
  lemma {:induction false} CollectConcat<T, U>(a: seq<T>, b: seq<T>, f: T -> Option<U>)
    ensures Collect(a + b, f) == Collect(a, f) + Collect(b, f)
    decreases |b|
  {
    if b == [] {
      assert a + b == a;
    } else {
      var n := |b| - 1;
      assert (a + b)[..|a + b| - 1] == a + b[..n];
      assert (a + b)[|a + b| - 1] == b[n];
      CollectConcat(a, b[..n], f);
    }
  }

  /** Everything collected is what `f` gives for some element. */
  lemma {:induction false} InCollect<T, U>(s: seq<T>, f: T -> Option<U>, y: U)
    requires y in Collect(s, f)
    ensures exists i :: 0 <= i < |s| && f(s[i]) == Some(y)
    decreases |s|
  {
    var n := |s| - 1;
    if y in Collect(s[..n], f) {
      InCollect(s[..n], f, y);
      var i :| 0 <= i < n && f(s[..n][i]) == Some(y);
      assert f(s[i]) == Some(y);
    } else {
      assert f(s[n]) == Some(y);
    }
  }

  /** Converting back what `g` produced, where `f` undoes `g` on every
      element, gives the original sequence. */
  lemma {:induction false} CollectMapInverse<T, U>(xs: seq<U>, g: U -> T, f: T -> Option<U>)
    requires forall i :: 0 <= i < |xs| ==> f(g(xs[i])) == Some(xs[i])
    ensures Collect(Map(xs, g), f) == xs
    decreases |xs|
  {
    if xs != [] {
      var n := |xs| - 1;
      var ys := Map(xs, g);
      assert ys[..n] == Map(xs[..n], g);
      CollectMapInverse(xs[..n], g, f);
      assert xs == xs[..n] + [xs[n]];
    }
  }

  /** `Collect` for a step that can also fail outright (`None`): the
      whole result fails when any element does, as a loop inside one `try`
      block does; otherwise the kept values in order. */
  function CollectAll<T, U>(s: seq<T>, f: T -> Option<Option<U>>): (r: Option<seq<U>>)
    ensures r.Some? <==> forall i :: 0 <= i < |s| ==> f(s[i]).Some?
    ensures r.Some? ==> |r.value| <= |s|
    decreases |s|
  {
    if s == [] then Some([])
    else
      var n := |s| - 1;
      var acc := CollectAll(s[..n], f);
      assert forall i :: 0 <= i < n ==> s[..n][i] == s[i];
      match acc
      case None => None
      case Some(kept) =>
        match f(s[n])
        case None => None
        case Some(None) => Some(kept)
        case Some(Some(v)) => Some(kept + [v])
  }

  lemma CollectAllSnoc<T, U>(s: seq<T>, i: nat, f: T -> Option<Option<U>>)
    requires i < |s|
    ensures CollectAll(s[..i + 1], f) ==
      match CollectAll(s[..i], f)
      case None => None
      case Some(kept) =>
        match f(s[i])
        case None => None
        case Some(None) => Some(kept)
        case Some(Some(v)) => Some(kept + [v])
  {
    assert s[..i + 1][..i] == s[..i];
  }

  /** A failure in a prefix fails the whole sequence. */
  lemma CollectAllStaysNone<T, U>(s: seq<T>, i: nat, f: T -> Option<Option<U>>)
    requires i <= |s| && CollectAll(s[..i], f).None?
    ensures CollectAll(s, f).None?
  {
    var j :| 0 <= j < i && f(s[..i][j]).None?;
    assert f(s[j]).None?;
  }

  /** Reading back what `g` wrote, where every element reads back as `h`
      of itself, gives the elements mapped by `h`. */
  lemma {:induction false} CollectAllMap<T, U>(xs: seq<U>, g: U -> T, f: T -> Option<Option<U>>, h: U -> U)
    requires forall i :: 0 <= i < |xs| ==> f(g(xs[i])) == Some(Some(h(xs[i])))
    ensures CollectAll(Map(xs, g), f) == Some(Map(xs, h))
    decreases |xs|
  {
    if xs != [] {
      var n := |xs| - 1;
      var ys := Map(xs, g);
      assert ys[..n] == Map(xs[..n], g);
      CollectAllMap(xs[..n], g, f, h);
      assert Map(xs, h) == Map(xs[..n], h) + [h(xs[n])];
    }
  }

  /** A map from each element's key to the element, a later element
      replacing an earlier one with the same key (`put` in a loop). */
  function IndexBy<T, K(==)>(s: seq<T>, key: T -> K): (m: map<K, T>)
    ensures forall k :: k in m ==> key(m[k]) == k && m[k] in s
    ensures forall i :: 0 <= i < |s| ==> key(s[i]) in m
    decreases |s|
  {
    if s == [] then map[] else IndexBy(s[..|s| - 1], key)[key(s[|s| - 1]) := s[|s| - 1]]
  }

  lemma IndexBySnoc<T, K>(s: seq<T>, i: nat, key: T -> K)
    requires i < |s|
    ensures IndexBy(s[..i + 1], key) == IndexBy(s[..i], key)[key(s[i]) := s[i]]
  {
    assert s[..i + 1][..i] == s[..i];
  }

  /** The entry for a key is the last element with that key. */
  lemma {:induction false} IndexByLast<T, K>(s: seq<T>, key: T -> K, i: nat)
    requires i < |s|
    requires forall j :: i < j < |s| ==> key(s[j]) != key(s[i])
    ensures IndexBy(s, key)[key(s[i])] == s[i]
    decreases |s|
  {
    if i < |s| - 1 {
      IndexByLast(s[..|s| - 1], key, i);
    }
  }

  /** The `forEach(x -> map.put(key(x), x))` loop. */
  method IndexAll<T, K(==)>(s: seq<T>, key: T -> K) returns (m: map<K, T>)
    ensures m == IndexBy(s, key)
  {
    m := map[];
    var i := 0;
    while i < |s|
      invariant 0 <= i <= |s|
      invariant m == IndexBy(s[..i], key)
    {
      IndexBySnoc(s, i, key);
      m := m[key(s[i]) := s[i]];
      i := i + 1;
    }
    assert s[..|s|] == s;
  }

  /** The concatenation of a sequence of sequences. */
  function Flatten<T>(ss: seq<seq<T>>): (r: seq<T>)
    decreases |ss|
  {
    if ss == [] then [] else ss[0] + Flatten(ss[1..])
  }

  lemma {:induction false} InFlatten<T>(ss: seq<seq<T>>, x: T)
    ensures x in Flatten(ss) <==> exists i :: 0 <= i < |ss| && x in ss[i]
    decreases |ss|
  {
    if ss != [] {
      InFlatten(ss[1..], x);
      if x in Flatten(ss[1..]) {
        var i :| 0 <= i < |ss[1..]| && x in ss[1..][i];
        assert x in ss[i + 1];
      }
      if exists i :: 0 <= i < |ss| && x in ss[i] {
        var i :| 0 <= i < |ss| && x in ss[i];
        if i > 0 {
          assert x in ss[1..][i - 1];
        }
      }
    }
  }
}
