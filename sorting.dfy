/**
 * Python's `list.sort` / `sorted` with a key, as a stable insertion sort over a
 * "less than or equal" relation `le` on the keys. Each new element is placed
 * after every element it does not precede strictly, so equal keys keep their
 * input order, as `sort` promises (also with `reverse=True`).
 */
module Sorting {

  /** `le` compares like `<=` on keys: any two elements compare, and it chains. */
  ghost predicate TotalPreorder<T(!new)>(le: (T, T) -> bool) {
    && (forall a, b :: le(a, b) || le(b, a))
    && (forall a, b, c :: le(a, b) && le(b, c) ==> le(a, c))
  }

  ghost predicate SortedBy<T>(s: seq<T>, le: (T, T) -> bool) {
    forall i, j :: 0 <= i < j < |s| ==> le(s[i], s[j])
  }

  /** Inserts `x` into the sorted `r`, after every element that is `le` it. */
  function InsertSorted<T>(r: seq<T>, x: T, le: (T, T) -> bool): (out: seq<T>)
    ensures |out| == |r| + 1
    ensures multiset(out) == multiset(r) + multiset{x}
  {
    if r == [] then [x]
    else if le(r[|r| - 1], x) then r + [x]
    else
      var init := r[..|r| - 1];
      assert r == init + [r[|r| - 1]];
      InsertSorted(init, x, le) + [r[|r| - 1]]
  }

  /** The stable sort of `s`. */
  function SortBy<T>(s: seq<T>, le: (T, T) -> bool): (r: seq<T>)
    ensures |r| == |s|
    ensures multiset(r) == multiset(s)
  {
    if s == [] then []
    else
      var init := s[..|s| - 1];
      assert s == init + [s[|s| - 1]];
      InsertSorted(SortBy(init, le), s[|s| - 1], le)
  }

  lemma AppendSorted<T>(r: seq<T>, x: T, le: (T, T) -> bool)
    requires SortedBy(r, le)
    requires forall i :: 0 <= i < |r| ==> le(r[i], x)
    ensures SortedBy(r + [x], le)
  {
    var out := r + [x];
    forall i, j | 0 <= i < j < |out| ensures le(out[i], out[j]) {
      assert out[i] == r[i];
      if j < |r| {
        assert out[j] == r[j];
      }
    }
  }

  lemma {:induction false} InsertSortedIsSorted<T(!new)>(r: seq<T>, x: T, le: (T, T) -> bool)
    requires TotalPreorder(le)
    requires SortedBy(r, le)
    ensures SortedBy(InsertSorted(r, x, le), le)
  {
    if r == [] {
    } else if le(r[|r| - 1], x) {
      var last := r[|r| - 1];
      forall i | 0 <= i < |r| ensures le(r[i], x) {
        if i < |r| - 1 {
          assert le(r[i], last);
        }
      }
      AppendSorted(r, x, le);
    } else {
      var init := r[..|r| - 1];
      var last := r[|r| - 1];
      assert le(x, last);
      assert SortedBy(init, le);
      InsertSortedIsSorted(init, x, le);
      var mid := InsertSorted(init, x, le);
      forall i | 0 <= i < |mid| ensures le(mid[i], last) {
        assert mid[i] in multiset(mid);
        if mid[i] != x {
          assert mid[i] in multiset(init);
          var j :| 0 <= j < |init| && init[j] == mid[i];
          assert r[j] == init[j];
        }
      }
      AppendSorted(mid, last, le);
    }
  }

  /** The output of `SortBy` is ordered by `le`. */
  lemma {:induction false} SortByIsSorted<T(!new)>(s: seq<T>, le: (T, T) -> bool)
    requires TotalPreorder(le)
    ensures SortedBy(SortBy(s, le), le)
  {
    if s != [] {
      var init := s[..|s| - 1];
      SortByIsSorted(init, le);
      InsertSortedIsSorted(SortBy(init, le), s[|s| - 1], le);
    }
  }

  /** Sorting neither adds nor loses elements. */
  lemma SortByMembers<T>(s: seq<T>, le: (T, T) -> bool)
    ensures forall x :: x in SortBy(s, le) <==> x in s
  {
    var r := SortBy(s, le);
    forall x ensures x in r <==> x in s {
      assert x in r <==> x in multiset(r);
      assert x in s <==> x in multiset(s);
    }
  }

  // ---------------------------------------------------------------- stability

  /** Neither of `a` and `b` precedes the other strictly: their keys are equal. */
  predicate Level<T>(le: (T, T) -> bool, a: T, b: T) {
    le(a, b) && le(b, a)
  }

  /** The elements of `s` whose key equals the key of `x`, in their order in `s`. */
  function LevelWith<T>(s: seq<T>, x: T, le: (T, T) -> bool): seq<T> {
    if s == [] then []
    else LevelWith(s[..|s| - 1], x, le) + (if Level(le, s[|s| - 1], x) then [s[|s| - 1]] else [])
  }

  lemma {:induction false} LevelWithAppend<T>(a: seq<T>, b: seq<T>, x: T, le: (T, T) -> bool)
    ensures LevelWith(a + b, x, le) == LevelWith(a, x, le) + LevelWith(b, x, le)
  {
    if b == [] {
      assert a + b == a;
    } else {
      assert (a + b)[..|a + b| - 1] == a + b[..|b| - 1];
      LevelWithAppend(a, b[..|b| - 1], x, le);
    }
  }

  /** Cutting a sequence short keeps, of each key, the first elements with that key. */
  lemma LevelWithPrefix<T>(s: seq<T>, n: nat, x: T, le: (T, T) -> bool)
    requires n <= |s|
    ensures LevelWith(s[..n], x, le) <= LevelWith(s, x, le)
  {
    assert s == s[..n] + s[n..];
    LevelWithAppend(s[..n], s[n..], x, le);
  }

  lemma LevelWithSnoc<T>(s: seq<T>, z: T, x: T, le: (T, T) -> bool)
    ensures LevelWith(s + [z], x, le) == LevelWith(s, x, le) + (if Level(le, z, x) then [z] else [])
  {
    assert (s + [z])[..|s|] == s;
  }

  /** Two elements that share a key with `x` precede each other. */
  lemma LevelChains<T(!new)>(le: (T, T) -> bool, y: T, last: T, x: T)
    requires TotalPreorder(le)
    ensures Level(le, y, x) && Level(le, last, x) ==> le(last, y)
  {
    if Level(le, y, x) && Level(le, last, x) {
      assert le(last, x) && le(x, y);
    }
  }

  /** Inserting `y` puts it after every element with its key. */
  lemma {:induction false} InsertSortedLevel<T(!new)>(r: seq<T>, y: T, x: T, le: (T, T) -> bool)
    requires TotalPreorder(le)
    requires SortedBy(r, le)
    ensures LevelWith(InsertSorted(r, y, le), x, le) == LevelWith(r, x, le) + (if Level(le, y, x) then [y] else [])
  {
    if r == [] {
      LevelWithSnoc([], y, x, le);
      assert [] + [y] == [y];
    } else if le(r[|r| - 1], y) {
      LevelWithSnoc(r, y, x, le);
    } else {
      var init := r[..|r| - 1];
      var last := r[|r| - 1];
      assert r == init + [last];
      assert SortedBy(init, le) by {
        forall i, j | 0 <= i < j < |init| ensures le(init[i], init[j]) {
          assert init[i] == r[i] && init[j] == r[j];
        }
      }
      InsertSortedLevel(init, y, x, le);
      var mid := InsertSorted(init, y, le);
      assert InsertSorted(r, y, le) == mid + [last];
      LevelWithSnoc(mid, last, x, le);
      LevelWithSnoc(init, last, x, le);
      LevelChains(le, y, last, x);
    }
  }

  /**
   * `SortBy` is stable: for every key, the elements with that key come out in
   * the order they went in.
   */
  lemma {:induction false} SortByStable<T(!new)>(s: seq<T>, le: (T, T) -> bool)
    requires TotalPreorder(le)
    ensures forall x :: LevelWith(SortBy(s, le), x, le) == LevelWith(s, x, le)
  {
    if s != [] {
      var init := s[..|s| - 1];
      var last := s[|s| - 1];
      SortByStable(init, le);
      SortByIsSorted(init, le);
      forall x ensures LevelWith(SortBy(s, le), x, le) == LevelWith(s, x, le) {
        InsertSortedLevel(SortBy(init, le), last, x, le);
      }
    }
  }

  /** `[f(x) for x in s]`. */
  function MapSeq<A, B>(s: seq<A>, f: A -> B): (r: seq<B>)
    ensures |r| == |s|
    ensures forall i :: 0 <= i < |s| ==> r[i] == f(s[i])
  {
    seq(|s|, i requires 0 <= i < |s| => f(s[i]))
  }

  lemma MapSeqAppend<A, B>(u: seq<A>, v: seq<A>, f: A -> B)
    ensures MapSeq(u + v, f) == MapSeq(u, f) + MapSeq(v, f)
  {
    assert forall i :: 0 <= i < |u + v| ==> MapSeq(u + v, f)[i] == (MapSeq(u, f) + MapSeq(v, f))[i];
  }

  lemma MapSeqSnoc<A, B>(s: seq<A>, x: A, f: A -> B)
    ensures MapSeq(s + [x], f) == MapSeq(s, f) + [f(x)]
  {
    MapSeqAppend(s, [x], f);
  }

  lemma RemoveOne<T>(a: seq<T>, b: seq<T>, j: nat)
    requires multiset(a) == multiset(b) && a != [] && j < |b| && b[j] == a[0]
    ensures multiset(a[1..]) == multiset(b[..j] + b[j + 1..])
  {
    var rest := b[..j] + b[j + 1..];
    assert a == [a[0]] + a[1..];
    assert b == (b[..j] + [b[j]]) + b[j + 1..];
    forall z ensures multiset(a[1..])[z] == multiset(rest)[z] {
      assert multiset(a)[z] == multiset([a[0]])[z] + multiset(a[1..])[z];
      assert multiset(b)[z] == multiset(b[..j])[z] + multiset([b[j]])[z] + multiset(b[j + 1..])[z];
      assert multiset(rest)[z] == multiset(b[..j])[z] + multiset(b[j + 1..])[z];
    }
  }

  /** Mapping two orderings of the same elements gives two orderings of the same images. */
  lemma {:induction false} MapSeqPermutes<A, B>(a: seq<A>, b: seq<A>, f: A -> B)
    requires multiset(a) == multiset(b)
    ensures multiset(MapSeq(a, f)) == multiset(MapSeq(b, f))
  {
    if a == [] {
      assert |b| == |multiset(b)| == 0;
    } else {
      var x := a[0];
      assert x in multiset(b);
      var j :| 0 <= j < |b| && b[j] == x;
      var rest := b[..j] + b[j + 1..];
      assert b == b[..j] + [x] + b[j + 1..];
      assert a == [x] + a[1..];
      RemoveOne(a, b, j);
      MapSeqPermutes(a[1..], rest, f);
      MapSeqAppend([x], a[1..], f);
      MapSeqAppend(b[..j], [x], f);
      MapSeqAppend(b[..j] + [x], b[j + 1..], f);
      MapSeqAppend(b[..j], b[j + 1..], f);
    }
  }
}
