/** The bounds, the order and the cut of one page over several workers, said of the request
    and the replies themselves (utils/distributed_routes.py). */
module PagingEffects {
  import opened Values
  import opened AssetOrder
  import opened Paging

  // ---- Bounds ------------------------------------------------------------------------

  /** A page has twenty assets unless another number is asked for, between one and two
      hundred; it starts where the cursor says, or at the offset, or at the start. Workers are
      asked for one more than the page reaches, but for a thousand at most. */
  lemma BoundsExactly(q: Query)
    ensures !q.limit.Number? ==> LimitOf(q) == 20
    ensures q.limit.Number? ==> 1 <= LimitOf(q) <= 200 && (1 <= q.limit.n <= 200 ==> LimitOf(q) == q.limit.n)
                                && (q.limit.n < 1 ==> LimitOf(q) == 1) && (q.limit.n > 200 ==> LimitOf(q) == 200)
    ensures q.after.Number? ==> OffsetOf(q) == q.after.n
    ensures !q.after.Number? && q.offset.Number? ==> OffsetOf(q) == if q.offset.n > 0 then q.offset.n else 0
    ensures !q.after.Number? && !q.offset.Number? ==> OffsetOf(q) == 0
    ensures FetchCount(q) == if OffsetOf(q) + LimitOf(q) < 1000 then OffsetOf(q) + LimitOf(q) + 1 else 1000
  {
  }

  // ---- Order -------------------------------------------------------------------------

  /** Texts are compared at the first place where they differ; a beginning comes first. */
  lemma {:induction false} TextLeExactly(s: string, t: string)
    ensures TextLe(s, t) <==> s <= t || exists k :: 0 <= k < |s| && k < |t| && s[..k] == t[..k] && s[k] < t[k]
  {
    if s != [] && t != [] && s[0] == t[0] {
      TextLeExactly(s[1..], t[1..]);
      assert s == [s[0]] + s[1..] && t == [t[0]] + t[1..];
      if k :| 0 <= k < |s| - 1 && k < |t| - 1 && s[1..][..k] == t[1..][..k] && s[1..][k] < t[1..][k] {
        assert s[..k + 1] == [s[0]] + s[1..][..k] && t[..k + 1] == [t[0]] + t[1..][..k];
        assert s[k + 1] < t[k + 1];
      }
      if k :| 0 <= k < |s| && k < |t| && s[..k] == t[..k] && s[k] < t[k] {
        assert k > 0;
        assert s[1..][..k - 1] == s[..k][1..] && t[1..][..k - 1] == t[..k][1..];
        assert s[1..][k - 1] < t[1..][k - 1];
      }
    } else if s != [] && t != [] {
      assert s[..0] == t[..0];
      if k :| 0 <= k < |s| && k < |t| && s[..k] == t[..k] && s[k] < t[k] {
        assert k > 0 ==> s[..k][0] == t[..k][0];
      }
    }
  }

  /** An asset without the field comes before those with it, then the field decides, then the
      id; a descending page turns all of it round. */
  lemma AheadExactly(a: Asset, b: Asset, descending: bool)
    ensures
      var x, y := if descending then b else a, if descending then a else b;
      Ahead(a, b, descending)
      <==> if x.value.None? != y.value.None? then x.value.None?
           else if x.value.Some? && x.value != y.value then TextLe(x.value.value, y.value.value)
           else TextLe(x.id, y.id)
  {
  }

  // ---- Gathering and cutting ---------------------------------------------------------

  /** The entries that are objects are kept, each once and in their order. */
  ghost function Objects(entries: seq<Option<Asset>>): set<nat> {
    set i: nat | i < |entries| && entries[i].Some?
  }

  lemma {:induction false} UsableInOrder(entries: seq<Option<Asset>>)
    ensures Chosen(entries, Objects(entries), Entries(Usable(entries)))
  {
    if entries != [] {
      var n := |entries| - 1;
      UsableInOrder(entries[..n]);
      assert Below(Objects(entries), n) == Objects(entries[..n]);
      ChosenLast(entries, Objects(entries), Entries(Usable(entries[..n])));
      EntriesNext(Usable(entries[..n]), entries[n]);
    }
  }

  lemma EntriesNext(s: seq<Asset>, entry: Option<Asset>)
    ensures entry.Some? ==> Entries(s + [entry.value]) == Entries(s) + [entry]
  {
  }

  /** One more reply adds its objects and its total at the end, or nothing when it failed. */
  lemma GatheredExactly(replies: seq<Option<Listing>>, more: Option<Listing>)
    ensures Gathered([]) == [] && Total([]) == 0
    ensures Gathered(replies + [more]) == if more.Some? then Gathered(replies) + Usable(more.value.entries) else Gathered(replies)
    ensures Total(replies + [more]) == if more.Some? then Total(replies) + more.value.total else Total(replies)
  {
    assert (replies + [more])[..|replies|] == replies;
  }

  /** Position `i` lies between two bounds that may count from the end. */
  predicate InSlice(i: nat, n: nat, from: int, to: int) {
    && i < n
    && (if from < 0 then i >= n + from else i >= from)
    && (if to < 0 then i < n + to else i < to)
  }

  /** A slice holds exactly the positions between its bounds, in order. */
  lemma SliceExactly(s: seq<Asset>, from: int, to: int, lo: nat, hi: nat)
    requires lo <= hi <= |s| && forall i: nat :: i < |s| ==> (InSlice(i, |s|, from, to) <==> lo <= i < hi)
    ensures Slice(s, from, to) == s[lo..hi]
  {
    var n := |s|;
    if lo < hi {
      assert InSlice(lo, n, from, to) && InSlice(hi - 1, n, from, to);
      assert lo > 0 ==> !InSlice(lo - 1, n, from, to);
      assert hi < n ==> !InSlice(hi, n, from, to);
    } else {
      var r := Slice(s, from, to);
      if r != [] {
        var i := if from < 0 then Max(0, n + from) else Min(from, n);
        assert InSlice(i, n, from, to);
      }
    }
  }

  /** The page is that slice of the sorted assets; there is more exactly when the page ends
      before the total, and then the cursor is where it ends. */
  lemma AnswerExactly(q: Query, replies: seq<Option<Listing>>)
    ensures
      var page, sorted := Answer(q, replies), Sort(Gathered(replies), q.descending);
      var ends := OffsetOf(q) + |page.assets|;
      && page.total == Total(replies) && page.assets == Slice(sorted, OffsetOf(q), OffsetOf(q) + LimitOf(q))
      && (page.hasMore <==> ends < page.total) && page.next == (if ends < page.total then Some(ends) else None)
  {
  }
}
