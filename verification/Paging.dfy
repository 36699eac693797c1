/** Pages over the assets of several workers (utils/distributed_routes.py): a page is built
    from a prefix of every worker's list, and cursors lead from one page to the next. */
module Paging {
  import opened Values
  import opened AssetOrder

  // ---- One request -------------------------------------------------------------------

  /** An integer parameter of the query string. */
  datatype Parameter = Absent | Number(n: int) | Malformed

  /** The request; `after` is what an `am:` cursor holds, if there is one. */
  datatype Query = Query(limit: Parameter, offset: Parameter, after: Parameter, descending: bool)

  /** A worker's answer with status 200; entries that are not objects are skipped. */
  datatype Listing = Listing(entries: seq<Option<Asset>>, total: int)

  datatype Page = Page(assets: seq<Asset>, total: int, hasMore: bool, next: Option<int>)

  datatype PagingError = InvalidPagination | InvalidCursor | NoWorker

  const MAX_FETCH := 1000

  function LimitOf(q: Query): int {
    if q.limit.Number? then Max(1, Min(200, q.limit.n)) else 20
  }

  function OffsetOf(q: Query): int {
    if q.after.Number? then q.after.n else if q.offset.Number? then Max(0, q.offset.n) else 0
  }

  function FetchCount(q: Query): int {
    Min(MAX_FETCH, OffsetOf(q) + LimitOf(q) + 1)
  }

  /** A slice with Python's conventions: negative bounds count from the end, and bounds
      outside the list are clamped. */
  function Slice(s: seq<Asset>, from: int, to: int): (r: seq<Asset>)
    ensures 0 <= from <= to ==> r == s[Min(from, |s|)..Min(to, |s|)]
  {
    var lo := if from < 0 then Max(0, |s| + from) else Min(from, |s|);
    var hi := if to < 0 then Max(0, |s| + to) else Min(to, |s|);
    if lo < hi then s[lo..hi] else []
  }

  function Usable(entries: seq<Option<Asset>>): seq<Asset> {
    if entries == [] then []
    else
      var last := entries[|entries| - 1];
      Usable(entries[..|entries| - 1]) + if last.Some? then [last.value] else []
  }

  function Gathered(replies: seq<Option<Listing>>): seq<Asset> {
    if replies == [] then []
    else
      var last := replies[|replies| - 1];
      Gathered(replies[..|replies| - 1]) + if last.Some? then Usable(last.value.entries) else []
  }

  function Total(replies: seq<Option<Listing>>): int {
    if replies == [] then 0
    else
      var last := replies[|replies| - 1];
      Total(replies[..|replies| - 1]) + if last.Some? then last.value.total else 0
  }

  function Cut(sorted: seq<Asset>, total: int, offset: int, limit: int): Page {
    var page := Slice(sorted, offset, offset + limit);
    var seen := offset + |page|;
    Page(page, total, seen < total, if seen < total then Some(seen) else None)
  }

  function Answer(q: Query, replies: seq<Option<Listing>>): Page {
    Cut(Sort(Gathered(replies), q.descending), Total(replies), OffsetOf(q), LimitOf(q))
  }

  /** The usable entries of one reply. */
  method Collect(entries: seq<Option<Asset>>) returns (assets: seq<Asset>)
    ensures assets == Usable(entries)
  {
    assets := [];
    for j := 0 to |entries|
      invariant assets == Usable(entries[..j])
    {
      assert entries[..j + 1][..j] == entries[..j];
      if entries[j].Some? {
        assets := assets + [entries[j].value];
      }
    }
    assert entries[..|entries|] == entries;
  }

  /** The assets and the total of the replies that came, and how many did. */
  method Gather(replies: seq<Option<Listing>>) returns (assets: seq<Asset>, total: int, successful: nat)
    ensures assets == Gathered(replies) && total == Total(replies)
    ensures successful == 0 <==> NoneReplied(replies)
  {
    assets, total, successful := [], 0, 0;
    for i := 0 to |replies|
      invariant assets == Gathered(replies[..i]) && total == Total(replies[..i])
      invariant successful == 0 <==> forall k :: 0 <= k < i ==> replies[k].None?
    {
      assert replies[..i + 1][..i] == replies[..i];
      if replies[i].Some? {
        successful := successful + 1;
        total := total + replies[i].value.total;
        var more := Collect(replies[i].value.entries);
        assets := assets + more;
      }
    }
    assert replies[..|replies|] == replies;
  }

  /** The page of the gathered assets, once the bounds are known. */
  method CutPage(assets: seq<Asset>, total: int, offset: int, limit: int, descending: bool) returns (page: Page)
    ensures page == Cut(Sort(assets, descending), total, offset, limit)
  {
    var sorted := Sort(assets, descending);
    var cut := Slice(sorted, offset, offset + limit);
    var hasMore := offset + |cut| < total;
    page := Page(cut, total, hasMore, if hasMore then Some(offset + |cut|) else None);
  }

  ghost predicate NoneReplied(replies: seq<Option<Listing>>) {
    forall k :: 0 <= k < |replies| ==> replies[k].None?
  }

  /** The answer to a request, given what each worker port replied. */
  method AggregateAssets(q: Query, replies: seq<Option<Listing>>) returns (r: Result<Page, PagingError>)
    ensures q.limit.Malformed? || q.offset.Malformed? ==> r == Err(InvalidPagination)
    ensures !q.limit.Malformed? && !q.offset.Malformed? && q.after.Malformed? ==> r == Err(InvalidCursor)
    ensures !q.limit.Malformed? && !q.offset.Malformed? && !q.after.Malformed? ==>
              r == if replies != [] && NoneReplied(replies) then Err(NoWorker) else Ok(Answer(q, replies))
  {
    if q.limit.Malformed? || q.offset.Malformed? {
      return Err(InvalidPagination);
    }
    var limit := if q.limit.Number? then Max(1, Min(200, q.limit.n)) else 20;
    var offset := if q.offset.Number? then Max(0, q.offset.n) else 0;
    if q.after.Malformed? {
      return Err(InvalidCursor);
    }
    if q.after.Number? {
      offset := q.after.n;
    }
    var assets, total, successful := Gather(replies);
    if replies != [] && successful == 0 {
      return Err(NoWorker);
    }
    var page := CutPage(assets, total, offset, limit, q.descending);
    r := Ok(page);
  }

  // ---- Prefixes are enough -----------------------------------------------------------

  /** What a worker holds: its whole list of matching assets, or nothing when it is down. */
  type Worker = Option<seq<Asset>>

  function Entries(s: seq<Asset>): (r: seq<Option<Asset>>)
    ensures |r| == |s|
  {
    seq(|s|, i requires 0 <= i < |s| => Some(s[i]))
  }

  /** A worker asked for its first `count` assets also says how many there are. */
  function Ask(worker: Worker, count: int): Option<Listing> {
    if worker.None? then None else Some(Listing(Entries(Take(worker.value, count)), |worker.value|))
  }

  function AskAll(workers: seq<Worker>, count: int): (r: seq<Option<Listing>>)
    ensures |r| == |workers|
  {
    seq(|workers|, i requires 0 <= i < |workers| => Ask(workers[i], count))
  }

  /** Everything the live workers hold, worker by worker. */
  function Everything(workers: seq<Worker>): seq<Asset> {
    if workers == [] then []
    else
      var last := workers[|workers| - 1];
      Everything(workers[..|workers| - 1]) + if last.Some? then last.value else []
  }

  ghost predicate InOrder(workers: seq<Worker>, descending: bool) {
    forall i :: 0 <= i < |workers| && workers[i].Some? ==> Sorted(workers[i].value, descending)
  }

  predicate NoneBeyond(workers: seq<Worker>, n: int) {
    forall i :: 0 <= i < |workers| && workers[i].Some? ==> |workers[i].value| <= n
  }

  lemma {:induction false} UsableEntries(s: seq<Asset>)
    ensures Usable(Entries(s)) == s
  {
    if s != [] {
      assert Entries(s)[..|s| - 1] == Entries(s[..|s| - 1]);
      UsableEntries(s[..|s| - 1]);
    }
  }

  lemma SortedTake(s: seq<Asset>, n: int, descending: bool)
    requires Sorted(s, descending)
    ensures Sorted(Take(s, n), descending)
  {
  }

  lemma AskInit(workers: seq<Worker>, count: int)
    requires workers != []
    ensures AskAll(workers, count)[..|workers| - 1] == AskAll(workers[..|workers| - 1], count)
  {
  }

  lemma {:induction false} TotalIsEverything(workers: seq<Worker>, count: int)
    ensures Total(AskAll(workers, count)) == |Everything(workers)|
  {
    if workers != [] {
      AskInit(workers, count);
      TotalIsEverything(workers[..|workers| - 1], count);
    }
  }

  /** Adding a worker's prefix to what is gathered is as good, up to `n`, as adding its list. */
  lemma OneMorePrefix(part: seq<Asset>, all: seq<Asset>, list: seq<Asset>, count: int, n: nat, descending: bool)
    requires Sorted(list, descending) && (n <= count || |list| <= count)
    requires Take(Sort(part, descending), n) == Take(Sort(all, descending), n)
    ensures Take(Sort(part + Take(list, count), descending), n) == Take(Sort(all + list, descending), n)
  {
    SortedTake(list, count, descending);
    SortedStays(list, descending);
    SortedStays(Take(list, count), descending);
    SortOfConcatenation(part, Take(list, count), descending);
    SortOfConcatenation(all, list, descending);
    assert Take(Take(list, count), n) == Take(list, n);
    MergeSeesPrefixes(Sort(part, descending), Take(list, count), Sort(all, descending), list, n, descending);
  }

  lemma GatheredNext(workers: seq<Worker>, count: int)
    requires workers != []
    ensures
      var init, last := workers[..|workers| - 1], workers[|workers| - 1];
      Gathered(AskAll(workers, count)) == Gathered(AskAll(init, count)) + if last.Some? then Take(last.value, count) else []
  {
    AskInit(workers, count);
    if workers[|workers| - 1].Some? {
      UsableEntries(Take(workers[|workers| - 1].value, count));
    }
  }

  /** When the lists are in merge order, the first `n` of the sort of the prefixes are the
      first `n` of the sort of everything. */
  lemma {:induction false} PrefixesSuffice(workers: seq<Worker>, count: int, n: nat, descending: bool)
    requires InOrder(workers, descending)
    requires n <= count || NoneBeyond(workers, count)
    ensures Take(Sort(Gathered(AskAll(workers, count)), descending), n) == Take(Sort(Everything(workers), descending), n)
  {
    if workers != [] {
      var init, last := workers[..|workers| - 1], workers[|workers| - 1];
      GatheredNext(workers, count);
      PrefixesSuffice(init, count, n, descending);
      if last.Some? {
        OneMorePrefix(Gathered(AskAll(init, count)), Everything(init), last.value, count, n, descending);
      } else {
        assert Gathered(AskAll(init, count)) + [] == Gathered(AskAll(init, count));
        assert Everything(init) + [] == Everything(init);
      }
    }
  }

  /** The page is the slice of one global sort, as long as a thousand assets of each worker
      reach that far. */
  lemma PageIsGlobalSlice(q: Query, workers: seq<Worker>)
    requires InOrder(workers, q.descending) && 0 <= OffsetOf(q)
    requires OffsetOf(q) + LimitOf(q) < MAX_FETCH || NoneBeyond(workers, MAX_FETCH)
    ensures
      var page := Answer(q, AskAll(workers, FetchCount(q)));
      var all := Sort(Everything(workers), q.descending);
      && page.assets == all[Min(OffsetOf(q), |all|)..Min(OffsetOf(q) + LimitOf(q), |all|)]
      && page.total == |all|
      && (page.hasMore <==> OffsetOf(q) + LimitOf(q) < |all|)
  {
    var n := OffsetOf(q) + LimitOf(q);
    var part := Sort(Gathered(AskAll(workers, FetchCount(q))), q.descending);
    var all := Sort(Everything(workers), q.descending);
    PrefixesSuffice(workers, FetchCount(q), n, q.descending);
    TotalIsEverything(workers, FetchCount(q));
    TakeSlices(part, all, OffsetOf(q), n);
  }

  lemma TakeSlices(s: seq<Asset>, t: seq<Asset>, from: nat, to: nat)
    requires from <= to && Take(s, to) == Take(t, to)
    ensures s[Min(from, |s|)..Min(to, |s|)] == t[Min(from, |t|)..Min(to, |t|)]
  {
    assert s[Min(from, |s|)..Min(to, |s|)] == Take(s, to)[Min(from, |Take(s, to)|)..];
    assert t[Min(from, |t|)..Min(to, |t|)] == Take(t, to)[Min(from, |Take(t, to)|)..];
  }

  // ---- Following cursors -------------------------------------------------------------

  function PageAt(workers: seq<Worker>, limit: int, at: int, descending: bool): Page {
    var q := Query(Number(limit), Absent, Number(at), descending);
    Answer(q, AskAll(workers, FetchCount(q)))
  }

  /** The pages of the workers by their cursors. */
  function Pages(workers: seq<Worker>, limit: int, descending: bool): int -> Page {
    at => PageAt(workers, limit, at, descending)
  }

  /** The assets that a client collects in `rounds` pages, starting at `at`. */
  function Walk(pages: int -> Page, at: int, rounds: nat): seq<Asset>
    decreases rounds
  {
    if rounds == 0 then []
    else pages(at).assets + if pages(at).next.Some? then Walk(pages, pages(at).next.value, rounds - 1) else []
  }

  /** Within `rounds` pages there is one without a cursor to go on with. */
  predicate Stops(pages: int -> Page, at: int, rounds: nat)
    decreases rounds
  {
    rounds > 0 && (pages(at).next.None? || Stops(pages, pages(at).next.value, rounds - 1))
  }

  predicate SliceAt(page: Page, all: seq<Asset>, limit: nat, at: int) {
    && 0 <= at <= |all|
    && page.assets == all[at..Min(at + limit, |all|)]
    && page.next == if at + limit < |all| then Some(at + limit) else None
  }

  /** The pages are the consecutive slices of one list. */
  ghost predicate Slices(pages: int -> Page, all: seq<Asset>, limit: nat) {
    forall at :: 0 <= at <= |all| ==> SliceAt(pages(at), all, limit, at)
  }

  lemma WalkOn(pages: int -> Page, at: int, next: int, rounds: nat)
    requires rounds > 0 && pages(at).next == Some(next)
    ensures Walk(pages, at, rounds) == pages(at).assets + Walk(pages, next, rounds - 1)
  {
  }

  lemma WalkEnds(pages: int -> Page, at: int, rounds: nat)
    requires rounds > 0 && pages(at).next.None?
    ensures Walk(pages, at, rounds) == pages(at).assets
  {
    assert pages(at).assets + [] == pages(at).assets;
  }

  /** The slice at `at` and the rest after it are the rest from `at` on. */
  lemma SliceAndRest(page: Page, all: seq<Asset>, limit: nat, at: int)
    requires SliceAt(page, all, limit, at)
    ensures page.next.Some? ==> at + limit < |all| && page.next == Some(at + limit) && page.assets + all[at + limit..] == all[at..]
    ensures page.next.None? ==> page.assets == all[at..]
  {
  }

  lemma {:induction false} WalkReadsRest(pages: int -> Page, all: seq<Asset>, limit: nat, at: nat, rounds: nat)
    requires Slices(pages, all, limit) && limit >= 1
    requires at <= |all| < at + rounds
    ensures Walk(pages, at, rounds) == all[at..]
    decreases rounds
  {
    SliceAndRest(pages(at), all, limit, at);
    if pages(at).next.Some? {
      WalkOn(pages, at, at + limit, rounds);
      WalkReadsRest(pages, all, limit, at + limit, rounds - 1);
    } else {
      WalkEnds(pages, at, rounds);
    }
  }

  lemma {:induction false} WalkStops(pages: int -> Page, all: seq<Asset>, limit: nat, at: nat, rounds: nat)
    requires Slices(pages, all, limit) && limit >= 1
    requires at <= |all| < at + rounds
    ensures Stops(pages, at, rounds)
    decreases rounds
  {
    assert SliceAt(pages(at), all, limit, at);
    if at + limit < |all| {
      WalkStops(pages, all, limit, at + limit, rounds - 1);
    }
  }

  lemma PageIsSlice(workers: seq<Worker>, limit: int, at: nat, descending: bool)
    requires InOrder(workers, descending) && NoneBeyond(workers, MAX_FETCH) && 1 <= limit <= 200
    requires at <= |Everything(workers)|
    ensures SliceAt(PageAt(workers, limit, at, descending), Sort(Everything(workers), descending), limit, at)
  {
    PageIsGlobalSlice(Query(Number(limit), Absent, Number(at), descending), workers);
  }

  lemma PagesAreSlices(workers: seq<Worker>, limit: int, descending: bool)
    requires InOrder(workers, descending) && NoneBeyond(workers, MAX_FETCH) && 1 <= limit <= 200
    ensures Slices(Pages(workers, limit, descending), Sort(Everything(workers), descending), limit)
  {
    forall at: nat | at <= |Everything(workers)|
      ensures SliceAt(PageAt(workers, limit, at, descending), Sort(Everything(workers), descending), limit, at)
    {
      PageIsSlice(workers, limit, at, descending);
    }
  }

  /** Following cursors from the start reads the sort of everything, every asset once. */
  lemma WalkVisitsEachAssetOnce(workers: seq<Worker>, limit: int, descending: bool, rounds: nat)
    requires InOrder(workers, descending) && NoneBeyond(workers, MAX_FETCH) && 1 <= limit <= 200
    requires rounds > |Everything(workers)|
    ensures Walk(Pages(workers, limit, descending), 0, rounds) == Sort(Everything(workers), descending)
    ensures multiset(Walk(Pages(workers, limit, descending), 0, rounds)) == multiset(Everything(workers))
  {
    var pages, all := Pages(workers, limit, descending), Sort(Everything(workers), descending);
    PagesAreSlices(workers, limit, descending);
    WalkReadsRest(pages, all, limit, 0, rounds);
    SortSorts(Everything(workers), descending);
  }

  // ---- When cursors stop -------------------------------------------------------------

  lemma {:induction false} GatheredIsLess(workers: seq<Worker>, count: int)
    requires count <= MAX_FETCH
    ensures |Gathered(AskAll(workers, count))| <= |Everything(workers)|
    ensures !NoneBeyond(workers, MAX_FETCH) ==> |Gathered(AskAll(workers, count))| < |Everything(workers)|
  {
    if workers != [] {
      var init, last := workers[..|workers| - 1], workers[|workers| - 1];
      AskInit(workers, count);
      GatheredIsLess(init, count);
      if last.Some? {
        UsableEntries(Take(last.value, count));
      }
      if !NoneBeyond(workers, MAX_FETCH) && NoneBeyond(init, MAX_FETCH) {
        var i :| 0 <= i < |workers| && workers[i].Some? && |workers[i].value| > MAX_FETCH;
        assert i < |init| ==> workers[i] == init[i];
      }
    }
  }

  lemma LongListHasMore(workers: seq<Worker>, limit: int, at: nat, descending: bool)
    requires !NoneBeyond(workers, MAX_FETCH) && 1 <= limit <= 200 && at < |Everything(workers)|
    ensures
      var page := PageAt(workers, limit, at, descending);
      page.next.Some? && at <= page.next.value < |Everything(workers)|
  {
    var q := Query(Number(limit), Absent, Number(at), descending);
    GatheredIsLess(workers, FetchCount(q));
    TotalIsEverything(workers, FetchCount(q));
  }

  lemma {:induction false} LongListNeverStops(workers: seq<Worker>, limit: int, at: nat, descending: bool, rounds: nat)
    requires !NoneBeyond(workers, MAX_FETCH) && 1 <= limit <= 200 && at < |Everything(workers)|
    ensures !Stops(Pages(workers, limit, descending), at, rounds)
    decreases rounds
  {
    if rounds > 0 {
      LongListHasMore(workers, limit, at, descending);
      LongListNeverStops(workers, limit, PageAt(workers, limit, at, descending).next.value, descending, rounds - 1);
    }
  }

  ghost predicate EventuallyStops(pages: int -> Page, at: int) {
    exists rounds: nat :: Stops(pages, at, rounds)
  }

  /** Following cursors from the start ends exactly when no live worker holds more than a
      thousand assets: beyond them the pages are empty and still say that there is more. */
  lemma CursorsStopExactly(workers: seq<Worker>, limit: int, descending: bool)
    requires InOrder(workers, descending) && 1 <= limit <= 200
    ensures EventuallyStops(Pages(workers, limit, descending), 0) <==> NoneBeyond(workers, MAX_FETCH)
  {
    var pages, all := Pages(workers, limit, descending), Sort(Everything(workers), descending);
    if NoneBeyond(workers, MAX_FETCH) {
      PagesAreSlices(workers, limit, descending);
      WalkStops(pages, all, limit, 0, |all| + 1);
    } else if EventuallyStops(pages, 0) {
      var rounds: nat :| Stops(pages, 0, rounds);
      GatheredIsLess(workers, 0);
      LongListNeverStops(workers, limit, 0, descending, rounds);
    }
  }

  /** One asset over the thousand is enough: the client is told that there is more for ever. */
  lemma OneTooManyNeverStops(asset: Asset, limit: int, descending: bool)
    requires 1 <= limit <= 200
    ensures !EventuallyStops(Pages([Some(seq(MAX_FETCH + 1, i => asset))], limit, descending), 0)
  {
    var workers := [Some(seq(MAX_FETCH + 1, i => asset))];
    AheadOrder(asset, asset, descending);
    assert |workers[0].value| > MAX_FETCH;
    CursorsStopExactly(workers, limit, descending);
  }
}
