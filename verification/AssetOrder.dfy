/** The order in which assets of several workers are merged (utils/distributed_routes.py):
    a total order of keys, and the stable sort by it. */
module AssetOrder {
  import opened Values

  /** An asset as the merge reads it; `data` stands for the rest of it. */
  datatype Asset = Asset(id: string, value: Option<string>, data: string)

  /** What assets are compared by: is the field there, its text, the id. */
  datatype Key = Key(present: bool, text: string, id: string)

  function KeyOf(a: Asset): Key {
    Key(a.value.Some?, if a.value.Some? then a.value.value else "", a.id)
  }

  // ---- The order ---------------------------------------------------------------------

  predicate TextLe(s: string, t: string) {
    s == [] || (t != [] && (s[0] < t[0] || (s[0] == t[0] && TextLe(s[1..], t[1..]))))
  }

  predicate KeyLe(a: Key, b: Key) {
    if a.present != b.present then b.present
    else if a.text != b.text then TextLe(a.text, b.text)
    else TextLe(a.id, b.id)
  }

  lemma {:induction false} TextOrder(s: string, t: string)
    ensures TextLe(s, t) || TextLe(t, s)
    ensures TextLe(s, t) && TextLe(t, s) ==> s == t
  {
    if s != [] && t != [] && s[0] == t[0] {
      TextOrder(s[1..], t[1..]);
      assert s == [s[0]] + s[1..] && t == [t[0]] + t[1..];
    }
  }

  lemma {:induction false} TextTransitive(s: string, t: string, u: string)
    requires TextLe(s, t) && TextLe(t, u)
    ensures TextLe(s, u)
  {
    if s != [] && s[0] == t[0] && t[0] == u[0] {
      TextTransitive(s[1..], t[1..], u[1..]);
    }
  }

  /** Keys are totally ordered. */
  lemma KeyOrder(a: Key, b: Key)
    ensures KeyLe(a, b) || KeyLe(b, a)
    ensures KeyLe(a, b) && KeyLe(b, a) ==> a == b
  {
    TextOrder(a.text, b.text);
    TextOrder(a.id, b.id);
  }

  lemma KeyTransitive(a: Key, b: Key, c: Key)
    requires KeyLe(a, b) && KeyLe(b, c)
    ensures KeyLe(a, c)
  {
    TextOrder(a.text, b.text);
    TextOrder(b.text, c.text);
    if TextLe(a.text, b.text) && TextLe(b.text, c.text) {
      TextTransitive(a.text, b.text, c.text);
    }
    if TextLe(a.id, b.id) && TextLe(b.id, c.id) {
      TextTransitive(a.id, b.id, c.id);
    }
  }

  /** `a` may stand before `b`; a descending sort only turns the comparison round. */
  predicate Ahead(a: Asset, b: Asset, descending: bool) {
    if descending then KeyLe(KeyOf(b), KeyOf(a)) else KeyLe(KeyOf(a), KeyOf(b))
  }

  lemma AheadOrder(a: Asset, b: Asset, descending: bool)
    ensures Ahead(a, b, descending) || Ahead(b, a, descending)
    ensures Ahead(a, b, descending) && Ahead(b, a, descending) ==> KeyOf(a) == KeyOf(b)
  {
    KeyOrder(KeyOf(a), KeyOf(b));
  }

  lemma AheadTransitive(a: Asset, b: Asset, c: Asset, descending: bool)
    requires Ahead(a, b, descending) && Ahead(b, c, descending)
    ensures Ahead(a, c, descending)
  {
    if descending {
      KeyTransitive(KeyOf(c), KeyOf(b), KeyOf(a));
    } else {
      KeyTransitive(KeyOf(a), KeyOf(b), KeyOf(c));
    }
  }

  // ---- The stable sort ---------------------------------------------------------------

  ghost predicate Sorted(s: seq<Asset>, descending: bool) {
    forall i, j :: 0 <= i < j < |s| ==> Ahead(s[i], s[j], descending)
  }

  /** Put `a` before everything it may stand before. */
  function Insert(a: Asset, s: seq<Asset>, descending: bool): (r: seq<Asset>)
    ensures |r| == |s| + 1
  {
    if s == [] || Ahead(a, s[0], descending) then [a] + s else [s[0]] + Insert(a, s[1..], descending)
  }

  function Sort(s: seq<Asset>, descending: bool): (r: seq<Asset>)
    ensures |r| == |s|
  {
    if s == [] then [] else Insert(s[0], Sort(s[1..], descending), descending)
  }

  /** The assets with one key, in the order they stand in. */
  function WithKey(s: seq<Asset>, key: Key): seq<Asset> {
    if s == [] then [] else (if KeyOf(s[0]) == key then [s[0]] else []) + WithKey(s[1..], key)
  }

  lemma {:induction false} InsertAdds(a: Asset, s: seq<Asset>, descending: bool)
    ensures multiset(Insert(a, s, descending)) == multiset{a} + multiset(s)
  {
    if s != [] && !Ahead(a, s[0], descending) {
      InsertAdds(a, s[1..], descending);
      assert s == [s[0]] + s[1..];
    }
  }

  lemma PrependSorted(a: Asset, s: seq<Asset>, descending: bool)
    requires Sorted(s, descending) && (s == [] || Ahead(a, s[0], descending))
    ensures Sorted([a] + s, descending)
  {
    forall j | 0 <= j < |s|
      ensures Ahead(a, s[j], descending)
    {
      if j > 0 {
        AheadTransitive(a, s[0], s[j], descending);
      }
    }
  }

  lemma {:induction false} InsertSorts(a: Asset, s: seq<Asset>, descending: bool)
    requires Sorted(s, descending)
    ensures Sorted(Insert(a, s, descending), descending)
  {
    if s == [] || Ahead(a, s[0], descending) {
      PrependSorted(a, s, descending);
    } else {
      InsertSorts(a, s[1..], descending);
      AheadOrder(a, s[0], descending);
      assert |s| > 1 ==> Ahead(s[0], s[1], descending);
      PrependSorted(s[0], Insert(a, s[1..], descending), descending);
    }
  }

  lemma {:induction false} SortSorts(s: seq<Asset>, descending: bool)
    ensures Sorted(Sort(s, descending), descending)
    ensures multiset(Sort(s, descending)) == multiset(s)
  {
    if s != [] {
      SortSorts(s[1..], descending);
      InsertSorts(s[0], Sort(s[1..], descending), descending);
      InsertAdds(s[0], Sort(s[1..], descending), descending);
      assert s == [s[0]] + s[1..];
    }
  }

  lemma {:induction false} InsertIsStable(a: Asset, s: seq<Asset>, descending: bool, key: Key)
    ensures WithKey(Insert(a, s, descending), key) == (if KeyOf(a) == key then [a] else []) + WithKey(s, key)
  {
    if s == [] || Ahead(a, s[0], descending) {
      assert ([a] + s)[1..] == s;
    } else {
      KeyOrder(KeyOf(a), KeyOf(a));
      InsertIsStable(a, s[1..], descending, key);
      assert ([s[0]] + Insert(a, s[1..], descending))[1..] == Insert(a, s[1..], descending);
      AheadOrder(a, s[0], descending);
    }
  }

  /** The sort keeps the order of assets with equal keys. */
  lemma {:induction false} SortIsStable(s: seq<Asset>, descending: bool, key: Key)
    ensures WithKey(Sort(s, descending), key) == WithKey(s, key)
  {
    if s != [] {
      SortIsStable(s[1..], descending, key);
      InsertIsStable(s[0], Sort(s[1..], descending), descending, key);
    }
  }

  lemma {:induction false} WithKeyFinds(s: seq<Asset>, i: nat)
    requires i < |s|
    ensures WithKey(s, KeyOf(s[i])) != []
  {
    if i > 0 {
      WithKeyFinds(s[1..], i - 1);
    }
  }

  lemma {:induction false} WithKeyIsIn(s: seq<Asset>, key: Key)
    requires WithKey(s, key) != []
    ensures exists i :: 0 <= i < |s| && KeyOf(s[i]) == key
  {
    if KeyOf(s[0]) == key {
      assert 0 < |s| && KeyOf(s[0]) == key;
    } else {
      WithKeyIsIn(s[1..], key);
      var i :| 0 <= i < |s[1..]| && KeyOf(s[1..][i]) == key;
      assert KeyOf(s[i + 1]) == key;
    }
  }

  lemma TailWithKey(s: seq<Asset>, key: Key)
    requires s != []
    ensures KeyOf(s[0]) == key ==> WithKey(s, key) != [] && WithKey(s[1..], key) == WithKey(s, key)[1..]
    ensures KeyOf(s[0]) != key ==> WithKey(s[1..], key) == WithKey(s, key)
  {
  }

  lemma FirstKeyIsLeast(s: seq<Asset>, t: seq<Asset>, descending: bool)
    requires s != [] && t != [] && Sorted(t, descending)
    requires WithKey(s, KeyOf(s[0])) == WithKey(t, KeyOf(s[0]))
    ensures Ahead(t[0], s[0], descending)
  {
    WithKeyFinds(s, 0);
    WithKeyIsIn(t, KeyOf(s[0]));
    var i :| 0 <= i < |t| && KeyOf(t[i]) == KeyOf(s[0]);
    AheadOrder(t[0], t[0], descending);
    assert Ahead(t[0], t[i], descending);
  }

  /** A sorted list that keeps the order of assets with equal keys is this one: any stable
      sort computes it. */
  lemma {:induction false} StableSortIsUnique(s: seq<Asset>, t: seq<Asset>, descending: bool)
    requires Sorted(s, descending) && Sorted(t, descending)
    requires forall key :: WithKey(s, key) == WithKey(t, key)
    ensures s == t
  {
    if t != [] {
      WithKeyFinds(t, 0);
      assert WithKey(s, KeyOf(t[0])) != [];
    }
    if s != [] {
      WithKeyFinds(s, 0);
      assert WithKey(t, KeyOf(s[0])) != [];
      assert WithKey(s, KeyOf(t[0])) == WithKey(t, KeyOf(t[0]));
      FirstKeyIsLeast(s, t, descending);
      FirstKeyIsLeast(t, s, descending);
      AheadOrder(s[0], t[0], descending);
      var key := KeyOf(s[0]);
      assert WithKey(s, key)[0] == s[0] && WithKey(t, key)[0] == t[0];
      forall k
        ensures WithKey(s[1..], k) == WithKey(t[1..], k)
      {
        assert WithKey(s, k) == WithKey(t, k);
        TailWithKey(s, k);
        TailWithKey(t, k);
      }
      StableSortIsUnique(s[1..], t[1..], descending);
      assert s == [s[0]] + s[1..] && t == [t[0]] + t[1..];
    }
  }

  lemma SortedStays(s: seq<Asset>, descending: bool)
    requires Sorted(s, descending)
    ensures Sort(s, descending) == s
  {
    SortSorts(s, descending);
    forall key
      ensures WithKey(Sort(s, descending), key) == WithKey(s, key)
    {
      SortIsStable(s, descending, key);
    }
    StableSortIsUnique(Sort(s, descending), s, descending);
  }

  // ---- Merging sorted lists ----------------------------------------------------------

  function Merge(a: seq<Asset>, b: seq<Asset>, descending: bool): (r: seq<Asset>)
    ensures |r| == |a| + |b|
  {
    if a == [] then b
    else if b == [] then a
    else if Ahead(a[0], b[0], descending) then [a[0]] + Merge(a[1..], b, descending)
    else [b[0]] + Merge(a, b[1..], descending)
  }

  lemma {:induction false} InsertIntoMerge(x: Asset, a: seq<Asset>, b: seq<Asset>, descending: bool)
    ensures Insert(x, Merge(a, b, descending), descending) == Merge(Insert(x, a, descending), b, descending)
    decreases |a| + |b|
  {
    if b == [] {
      assert Merge(a, b, descending) == a;
    } else if a == [] {
      if !Ahead(x, b[0], descending) {
        InsertIntoMerge(x, a, b[1..], descending);
      }
    } else if Ahead(a[0], b[0], descending) {
      if Ahead(x, a[0], descending) {
        AheadTransitive(x, a[0], b[0], descending);
      } else {
        InsertIntoMerge(x, a[1..], b, descending);
      }
    } else {
      AheadOrder(x, a[0], descending);
      if Ahead(x, b[0], descending) {
        if Ahead(a[0], x, descending) {
          AheadTransitive(a[0], x, b[0], descending);
        }
      } else {
        InsertIntoMerge(x, a, b[1..], descending);
      }
    }
  }

  /** Sorting two lists together is merging what each sorts to. */
  lemma {:induction false} SortOfConcatenation(a: seq<Asset>, b: seq<Asset>, descending: bool)
    ensures Sort(a + b, descending) == Merge(Sort(a, descending), Sort(b, descending), descending)
  {
    if a == [] {
      assert a + b == b;
    } else {
      assert (a + b)[1..] == a[1..] + b;
      SortOfConcatenation(a[1..], b, descending);
      InsertIntoMerge(a[0], Sort(a[1..], descending), Sort(b, descending), descending);
    }
  }

  function Take<T>(s: seq<T>, n: int): (r: seq<T>) {
    if n <= 0 then [] else s[..Min(n, |s|)]
  }

  lemma TakeTail(s: seq<Asset>, t: seq<Asset>, n: nat)
    requires n > 0 && Take(s, n) == Take(t, n)
    ensures s == [] <==> t == []
    ensures s != [] ==> s[0] == t[0] && Take(s[1..], n - 1) == Take(t[1..], n - 1)
    ensures Take(s, n - 1) == Take(t, n - 1)
  {
    if s != [] {
      assert Take(s, n)[0] == s[0] && Take(t, n)[0] == t[0];
      assert Take(s, n)[1..] == Take(s[1..], n - 1) && Take(t, n)[1..] == Take(t[1..], n - 1);
    }
    assert Take(Take(s, n), n - 1) == Take(s, n - 1) && Take(Take(t, n), n - 1) == Take(t, n - 1);
  }

  /** The first `n` of a merge depend only on the first `n` of each side. */
  lemma {:induction false} MergeSeesPrefixes(a: seq<Asset>, b: seq<Asset>, c: seq<Asset>, d: seq<Asset>, n: nat, descending: bool)
    requires Take(a, n) == Take(c, n) && Take(b, n) == Take(d, n)
    ensures Take(Merge(a, b, descending), n) == Take(Merge(c, d, descending), n)
    decreases n
  {
    if n > 0 {
      TakeTail(a, c, n);
      TakeTail(b, d, n);
      if a != [] && b != [] {
        if Ahead(a[0], b[0], descending) {
          MergeSeesPrefixes(a[1..], b, c[1..], d, n - 1, descending);
          TakeCons(a[0], Merge(a[1..], b, descending), n);
          TakeCons(c[0], Merge(c[1..], d, descending), n);
        } else {
          MergeSeesPrefixes(a, b[1..], c, d[1..], n - 1, descending);
          TakeCons(b[0], Merge(a, b[1..], descending), n);
          TakeCons(d[0], Merge(c, d[1..], descending), n);
        }
      }
    }
  }

  lemma TakeCons(x: Asset, s: seq<Asset>, n: nat)
    requires n > 0
    ensures Take([x] + s, n) == [x] + Take(s, n - 1)
  {
  }
}
