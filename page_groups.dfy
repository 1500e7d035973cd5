/**
 * The planner's `defaultdict(list)` tables keyed by page: a sequence of
 * (key, list) entries with distinct keys, in the order in which each key was
 * first inserted, as Python's dicts keep it.
 */
module PageGroups {
  import opened Wrappers

  type Groups<V> = seq<(string, seq<V>)>

  function Keys<V>(g: Groups<V>): (r: seq<string>)
    ensures |r| == |g|
    ensures forall i :: 0 <= i < |g| ==> r[i] == g[i].0
  {
    seq(|g|, i requires 0 <= i < |g| => g[i].0)
  }

  predicate DistinctKeys<V>(g: Groups<V>) {
    forall i, j :: 0 <= i < j < |g| ==> g[i].0 != g[j].0
  }

  /** Where key `k` sits. */
  function IndexOf<V>(g: Groups<V>, k: string): (i: nat)
    requires k in Keys(g)
    ensures i < |g| && g[i].0 == k
    ensures forall j :: 0 <= j < i ==> g[j].0 != k
  {
    if g[0].0 == k then 0
    else
      assert Keys(g) == [g[0].0] + Keys(g[1..]);
      IndexOf(g[1..], k) + 1
  }

  /** `table.get(k)`. */
  function Find<V>(g: Groups<V>, k: string): (r: Option<seq<V>>)
    ensures r.Some? <==> k in Keys(g)
  {
    if k in Keys(g) then Some(g[IndexOf(g, k)].1) else None
  }

  /** `table.get(k, [])`. */
  function Get<V>(g: Groups<V>, k: string): seq<V> {
    Find(g, k).GetOr([])
  }

  /** `table[k].extend(vs)` on a `defaultdict(list)`: a new key goes last. */
  function Add<V>(g: Groups<V>, k: string, vs: seq<V>): (r: Groups<V>)
    ensures k in Keys(g) ==> Keys(r) == Keys(g)
    ensures k !in Keys(g) ==> Keys(r) == Keys(g) + [k]
  {
    if k in Keys(g) then
      var i := IndexOf(g, k);
      g[i := (k, g[i].1 + vs)]
    else g + [(k, vs)]
  }

  /** The first entry with key `k` is where `IndexOf` looks. */
  lemma IndexOfFirst<V>(g: Groups<V>, k: string, i: nat)
    requires i < |g| && g[i].0 == k
    requires forall j :: 0 <= j < i ==> g[j].0 != k
    ensures k in Keys(g) && IndexOf(g, k) == i
  {
    assert Keys(g)[i] == k;
  }

  /** Adding to one key changes that key's list only, by appending. */
  lemma AddFind<V>(g: Groups<V>, k: string, vs: seq<V>, k': string)
    requires DistinctKeys(g)
    ensures DistinctKeys(Add(g, k, vs))
    ensures Find(Add(g, k, vs), k') == if k' == k then Some(Get(g, k) + vs) else Find(g, k')
  {
    var r := Add(g, k, vs);
    assert forall j :: 0 <= j < |g| ==> r[j].0 == g[j].0;
    if k in Keys(g) {
      var i := IndexOf(g, k);
      assert forall j :: 0 <= j < |g| && j != i ==> r[j] == g[j];
      if k' == k {
        IndexOfFirst(r, k, i);
        assert r[i] == (k, g[i].1 + vs);
      } else if k' in Keys(g) {
        var i' := IndexOf(g, k');
        IndexOfFirst(r, k', i');
        assert r[i'] == g[i'];
      }
    } else {
      assert forall j :: 0 <= j < |g| ==> g[j].0 != k by {
        assert forall j :: 0 <= j < |g| ==> Keys(g)[j] == g[j].0;
      }
      if k' == k {
        IndexOfFirst(r, k, |g|);
        assert r[|g|] == (k, vs);
        assert Get(g, k) + vs == vs;
      } else if k' in Keys(g) {
        var i' := IndexOf(g, k');
        IndexOfFirst(r, k', i');
        assert r[i'] == g[i'];
      }
    }
  }

  /** The values of `vs` seen through `f`, counted with their multiplicity. */
  function Image<V, U>(vs: seq<V>, f: V -> U): (m: multiset<U>)
    ensures |m| == |vs|
  {
    if vs == [] then multiset{} else Image(vs[..|vs| - 1], f) + multiset{f(vs[|vs| - 1])}
  }

  lemma {:induction false} ImageAppend<V, U>(a: seq<V>, b: seq<V>, f: V -> U)
    ensures Image(a + b, f) == Image(a, f) + Image(b, f)
  {
    if b == [] {
      assert a + b == a;
    } else {
      assert (a + b)[..|a + b| - 1] == a + b[..|b| - 1];
      ImageAppend(a, b[..|b| - 1], f);
    }
  }

  /** Two sequences that agree element by element through `f` and `g` have the same image. */
  lemma {:induction false} ImageAgree<A, B, U>(xs: seq<A>, f: A -> U, ys: seq<B>, g: B -> U)
    requires |xs| == |ys| && forall i :: 0 <= i < |xs| ==> f(xs[i]) == g(ys[i])
    ensures Image(xs, f) == Image(ys, g)
  {
    if xs != [] {
      ImageAgree(xs[..|xs| - 1], f, ys[..|ys| - 1], g);
    }
  }

  lemma UnionSwap<U>(p: multiset<U>, q: multiset<U>, r: multiset<U>)
    ensures p + q + r == p + r + q
  {
  }

  lemma UnionCancel<U>(a: multiset<U>, b: multiset<U>, x: multiset<U>, y: multiset<U>)
    requires a + x == b + x + y
    ensures a == b + y
  {
    forall o
      ensures a[o] == (b + y)[o]
    {
      assert (a + x)[o] == (b + x + y)[o];
    }
  }

  /** The values of all the lists, seen through `f`. */
  function Bag<V, U>(g: Groups<V>, f: V -> U): multiset<U> {
    if g == [] then multiset{} else Bag(g[..|g| - 1], f) + Image(g[|g| - 1].1, f)
  }

  lemma {:induction false} BagAppend<V, U>(g: Groups<V>, h: Groups<V>, f: V -> U)
    ensures Bag(g + h, f) == Bag(g, f) + Bag(h, f)
  {
    if h != [] {
      assert (g + h)[..|g + h| - 1] == g + h[..|h| - 1];
      BagAppend(g, h[..|h| - 1], f);
    } else {
      assert g + h == g;
    }
  }

  /** `b + last + x == bg + last + y` once the parts before `last` balance. */
  lemma UnionShift<U>(a: multiset<U>, b: multiset<U>, last: multiset<U>, x: multiset<U>, y: multiset<U>)
    requires a + x == b + y
    ensures a + last + x == b + last + y
  {
    forall o
      ensures (a + last + x)[o] == (b + last + y)[o]
    {
      assert (a + x)[o] == (b + y)[o];
    }
  }

  lemma {:induction false} BagUpdateLast<V, U>(g: Groups<V>, e: (string, seq<V>), f: V -> U)
    requires g != []
    ensures Bag(g[|g| - 1 := e], f) + Image(g[|g| - 1].1, f) == Bag(g, f) + Image(e.1, f)
  {
    var u := g[|g| - 1 := e];
    assert u[..|u| - 1] == g[..|g| - 1];
    UnionSwap(Bag(g[..|g| - 1], f), Image(e.1, f), Image(g[|g| - 1].1, f));
  }

  lemma BagLast<V, U>(g: Groups<V>, f: V -> U)
    requires g != []
    ensures Bag(g, f) == Bag(g[..|g| - 1], f) + Image(g[|g| - 1].1, f)
  {
  }

  lemma UpdateBeforeLast<T>(g: seq<T>, i: nat, e: T)
    requires i < |g| - 1
    ensures g[i := e][..|g| - 1] == g[..|g| - 1][i := e]
    ensures g[i := e][|g| - 1] == g[|g| - 1]
  {
  }

  lemma {:induction false} BagUpdate<V, U>(g: Groups<V>, i: nat, e: (string, seq<V>), f: V -> U)
    requires i < |g|
    ensures Bag(g[i := e], f) + Image(g[i].1, f) == Bag(g, f) + Image(e.1, f)
  {
    if i == |g| - 1 {
      BagUpdateLast(g, e, f);
    } else {
      var gi := g[..|g| - 1];
      UpdateBeforeLast(g, i, e);
      BagLast(g[i := e], f);
      BagLast(g, f);
      BagUpdate(gi, i, e, f);
      UnionShift(Bag(gi[i := e], f), Bag(gi, f), Image(g[|g| - 1].1, f), Image(g[i].1, f), Image(e.1, f));
    }
  }

  /** Adding `vs` adds exactly the values of `vs`. */
  lemma AddBag<V, U>(g: Groups<V>, k: string, vs: seq<V>, f: V -> U)
    ensures Bag(Add(g, k, vs), f) == Bag(g, f) + Image(vs, f)
  {
    if k in Keys(g) {
      var i := IndexOf(g, k);
      BagUpdate(g, i, (k, g[i].1 + vs), f);
      ImageAppend(g[i].1, vs, f);
      UnionCancel(Bag(Add(g, k, vs), f), Bag(g, f), Image(g[i].1, f), Image(vs, f));
    } else {
      BagAppend(g, [(k, vs)], f);
      assert [(k, vs)][..0] == [];
      assert Bag([(k, vs)], f) == Image(vs, f);
    }
  }

  // ---------------------------------------------------------------- grouping

  /** `[x for x in xs if key(x) == k]`. */
  function Filter<T>(xs: seq<T>, key: T -> string, k: string): (r: seq<T>)
    ensures |r| <= |xs|
  {
    if xs == [] then []
    else
      var init := Filter(xs[..|xs| - 1], key, k);
      assert xs == xs[..|xs| - 1] + [xs[|xs| - 1]];
      if key(xs[|xs| - 1]) == k then init + [xs[|xs| - 1]] else init
  }

  /** The values kept are exactly those with key `k`. */
  lemma {:induction false} FilterMembers<T>(xs: seq<T>, key: T -> string, k: string, x: T)
    ensures x in Filter(xs, key, k) <==> x in xs && key(x) == k
  {
    if xs != [] {
      FilterMembers(xs[..|xs| - 1], key, k, x);
      assert xs == xs[..|xs| - 1] + [xs[|xs| - 1]];
    }
  }

  /** `for x in xs: table[key(x)].append(x)`, from an empty table. */
  function GroupBy<T>(xs: seq<T>, key: T -> string): Groups<T> {
    if xs == [] then []
    else Add(GroupBy(xs[..|xs| - 1], key), key(xs[|xs| - 1]), [xs[|xs| - 1]])
  }

  /** Each key's list holds exactly the elements with that key, in their input order. */
  lemma {:induction false} GroupByFind<T>(xs: seq<T>, key: T -> string, k: string)
    ensures DistinctKeys(GroupBy(xs, key))
    ensures Find(GroupBy(xs, key), k) == if Filter(xs, key, k) == [] then None else Some(Filter(xs, key, k))
  {
    if xs != [] {
      var init := xs[..|xs| - 1];
      var x := xs[|xs| - 1];
      GroupByFind(init, key, k);
      GroupByFind(init, key, key(x));
      AddFind(GroupBy(init, key), key(x), [x], k);
    }
  }

  /** Grouping neither loses nor duplicates an element. */
  lemma {:induction false} GroupByBag<T, U>(xs: seq<T>, key: T -> string, f: T -> U)
    ensures Bag(GroupBy(xs, key), f) == Image(xs, f)
  {
    if xs != [] {
      GroupByBag(xs[..|xs| - 1], key, f);
      AddBag(GroupBy(xs[..|xs| - 1], key), key(xs[|xs| - 1]), [xs[|xs| - 1]], f);
      assert [xs[|xs| - 1]][..0] == [];
    }
  }

  /** No list of a grouping is empty. */
  lemma {:induction false} GroupByNonEmpty<T>(xs: seq<T>, key: T -> string)
    ensures forall i :: 0 <= i < |GroupBy(xs, key)| ==> GroupBy(xs, key)[i].1 != []
  {
    if xs != [] {
      GroupByNonEmpty(xs[..|xs| - 1], key);
    }
  }

  /** The grouping loop. */
  method GroupByKey<T>(xs: seq<T>, key: T -> string) returns (g: Groups<T>)
    ensures g == GroupBy(xs, key)
  {
    g := [];
    for i := 0 to |xs|
      invariant g == GroupBy(xs[..i], key)
    {
      assert xs[..i + 1][..i] == xs[..i];
      g := Add(g, key(xs[i]), [xs[i]]);
    }
    assert xs[..|xs|] == xs;
  }

  /** The same table with every list replaced by `f` of it. */
  function MapValues<V>(g: Groups<V>, f: seq<V> -> seq<V>): (r: Groups<V>)
    ensures |r| == |g|
    ensures forall i :: 0 <= i < |g| ==> r[i] == (g[i].0, f(g[i].1))
  {
    seq(|g|, i requires 0 <= i < |g| => (g[i].0, f(g[i].1)))
  }

  lemma MapValuesFind<V>(g: Groups<V>, f: seq<V> -> seq<V>, k: string)
    ensures Keys(MapValues(g, f)) == Keys(g)
    ensures DistinctKeys(g) ==> DistinctKeys(MapValues(g, f))
    ensures Find(MapValues(g, f), k) == if k in Keys(g) then Some(f(Get(g, k))) else None
  {
    var r := MapValues(g, f);
    assert Keys(r) == Keys(g);
    if k in Keys(g) {
      IndexOfFirst(r, k, IndexOf(g, k));
    }
  }

  // ---------------------------------------------------------------- values by key

  /** The values listed under keys in `ks`. */
  function BagIn<V, U>(g: Groups<V>, ks: set<string>, f: V -> U): multiset<U> {
    if g == [] then multiset{}
    else BagIn(g[..|g| - 1], ks, f) + (if g[|g| - 1].0 in ks then Image(g[|g| - 1].1, f) else multiset{})
  }

  /** The values listed under keys outside `ks`. */
  function BagOut<V, U>(g: Groups<V>, ks: set<string>, f: V -> U): multiset<U> {
    if g == [] then multiset{}
    else BagOut(g[..|g| - 1], ks, f) + (if g[|g| - 1].0 !in ks then Image(g[|g| - 1].1, f) else multiset{})
  }

  lemma {:induction false} BagInOut<V, U>(g: Groups<V>, ks: set<string>, f: V -> U)
    ensures BagIn(g, ks, f) + BagOut(g, ks, f) == Bag(g, f)
  {
    if g != [] {
      BagInOut(g[..|g| - 1], ks, f);
    }
  }

  lemma {:induction false} BagInAll<V, U>(g: Groups<V>, ks: set<string>, f: V -> U)
    requires forall i :: 0 <= i < |g| ==> g[i].0 in ks
    ensures BagIn(g, ks, f) == Bag(g, f)
  {
    if g != [] {
      BagInAll(g[..|g| - 1], ks, f);
    }
  }

  /** The list under `k` once the last entry is added: that entry's when it has key `k`, else the same as before. */
  lemma GetLast<V>(g: Groups<V>, k: string)
    requires DistinctKeys(g) && g != []
    ensures k == g[|g| - 1].0 ==> Get(g, k) == g[|g| - 1].1 && Get(g[..|g| - 1], k) == []
    ensures k != g[|g| - 1].0 ==> Get(g, k) == Get(g[..|g| - 1], k)
  {
    var init := g[..|g| - 1];
    var last := g[|g| - 1];
    assert Keys(g) == Keys(init) + [last.0];
    if k in Keys(init) {
      IndexOfFirst(g, k, IndexOf(init, k));
    } else if k == last.0 {
      assert forall j :: 0 <= j < |init| ==> Keys(init)[j] == init[j].0;
      IndexOfFirst(g, k, |g| - 1);
    }
  }

  lemma BagInLast<V, U>(g: Groups<V>, ks: set<string>, f: V -> U)
    requires g != []
    ensures BagIn(g, ks, f)
         == BagIn(g[..|g| - 1], ks, f) + (if g[|g| - 1].0 in ks then Image(g[|g| - 1].1, f) else multiset{})
  {
  }

  /** One more key brings in its own list and nothing else. */
  lemma {:induction false} BagInInsert<V, U>(g: Groups<V>, ks: set<string>, k: string, f: V -> U)
    requires DistinctKeys(g) && k !in ks
    ensures BagIn(g, ks + {k}, f) == BagIn(g, ks, f) + Image(Get(g, k), f)
  {
    if g != [] {
      var init := g[..|g| - 1];
      var last := g[|g| - 1];
      BagInInsert(init, ks, k, f);
      GetLast(g, k);
      BagInLast(g, ks + {k}, f);
      BagInLast(g, ks, f);
      if k != last.0 {
        var kept := if last.0 in ks then Image(last.1, f) else multiset{};
        UnionSwap(BagIn(init, ks, f), Image(Get(init, k), f), kept);
      }
    }
  }

  /** The lists of the keys `ks` looked up with `Get`, one key at a time. */
  function GetAll<V, U>(g: Groups<V>, ks: seq<string>, f: V -> U): multiset<U> {
    if ks == [] then multiset{} else GetAll(g, ks[..|ks| - 1], f) + Image(Get(g, ks[|ks| - 1]), f)
  }

  predicate Distinct(ks: seq<string>) {
    forall i, j :: 0 <= i < j < |ks| ==> ks[i] != ks[j]
  }

  /** Looking up distinct keys one by one gives exactly the values under those keys. */
  lemma {:induction false} GetAllIsBagIn<V, U>(g: Groups<V>, ks: seq<string>, f: V -> U)
    requires DistinctKeys(g) && Distinct(ks)
    ensures GetAll(g, ks, f) == BagIn(g, (set k | k in ks), f)
  {
    if ks == [] {
      assert (set x | x in ks) == {};
      BagInNone(g, f);
    } else {
      var init := ks[..|ks| - 1];
      var k := ks[|ks| - 1];
      GetAllIsBagIn(g, init, f);
      assert (set x | x in ks) == (set x | x in init) + {k} by {
        assert ks == init + [k];
      }
      BagInInsert(g, (set x | x in init), k, f);
    }
  }

  lemma {:induction false} BagInNone<V, U>(g: Groups<V>, f: V -> U)
    ensures BagIn(g, {}, f) == multiset{}
  {
    if g != [] {
      BagInNone(g[..|g| - 1], f);
    }
  }
}
