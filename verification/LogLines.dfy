/** Line numbers in append-only instance logs: the plain scan of the log command
    (admin/job_logs.py) and the incremental cache of the scheduler store. */
module LogLines {
  import opened Values

  newtype Byte = x: int | 0 <= x < 256

  type Bytes = seq<Byte>

  /** The readable log files, by absolute path; a missing path cannot be opened. */
  type Files = map<string, Bytes>

  const LF: Byte := 10
  const CHUNK: nat := 0x10_0000

  /** Number of line feeds in `s`. */
  function Newlines(s: Bytes): nat {
    if s == [] then 0 else Newlines(s[..|s| - 1]) + if s[|s| - 1] == LF then 1 else 0
  }

  /** The one-based line on which byte `offset` of `content` lies. */
  function LineOf(content: Bytes, offset: int): nat {
    Newlines(content[..Min(Max(0, offset), |content|)]) + 1
  }

  lemma {:induction false} NewlinesSplit(s: Bytes, t: Bytes)
    ensures Newlines(s + t) == Newlines(s) + Newlines(t)
  {
    if t == [] {
      assert s + t == s;
    } else {
      assert (s + t)[..|s + t| - 1] == s + t[..|t| - 1];
      NewlinesSplit(s, t[..|t| - 1]);
    }
  }

  lemma NewlinesBetween(s: Bytes, i: nat, j: nat)
    requires i <= j <= |s|
    ensures Newlines(s[..j]) == Newlines(s[..i]) + Newlines(s[i..j])
  {
    assert s[..j] == s[..i] + s[i..j];
    NewlinesSplit(s[..i], s[i..j]);
  }

  /** admin/job_logs.py: read the first `offset` bytes in chunks and count line feeds. */
  method ScanLineAtOffset(content: Bytes, offset: int) returns (line: nat)
    ensures line == LineOf(content, offset)
  {
    var count, at, remaining := 0, 0, Max(0, offset);
    while remaining > 0
      invariant 0 <= remaining && at <= |content|
      invariant at + remaining == Max(0, offset)
      invariant count == Newlines(content[..at])
      decreases remaining
    {
      var size := Min(Min(CHUNK, remaining), |content| - at);
      if size == 0 {
        break;
      }
      NewlinesBetween(content, at, at + size);
      count := count + Newlines(content[at..at + size]);
      at := at + size;
      remaining := remaining - size;
    }
    line := count + 1;
  }

  /** A cache entry: `count` line feeds were seen in the first `offset` bytes. */
  datatype Entry = Entry(offset: nat, count: nat)

  type Cache = map<string, Entry>

  /** Where a query starts reading: the cached position, or the start of the file
      when nothing is cached or the cached position lies beyond the query. */
  function StartOf(cache: Cache, path: string, offset: nat): Entry {
    if path in cache && cache[path].offset <= offset then cache[path] else Entry(0, 0)
  }

  /** The entry a query leaves behind, for a file that can be read. */
  function EntryAfter(content: Bytes, start: Entry, offset: nat): Entry
    requires start.offset <= offset
  {
    var stop := Max(start.offset, Min(offset, |content|));
    Entry(stop, start.count + if stop <= |content| then Newlines(content[start.offset..stop]) else 0)
  }

  lemma EntryGrows(content: Bytes, start: Entry, i: nat, j: nat)
    requires start.offset <= i <= j <= |content|
    ensures EntryAfter(content, start, j) == Entry(j, EntryAfter(content, start, i).count + Newlines(content[i..j]))
  {
    assert content[start.offset..j] == content[start.offset..i] + content[i..j];
    NewlinesSplit(content[start.offset..i], content[i..j]);
  }

  /** Continue counting from `start` in chunks until `offset` or the end of the file. */
  method ReadOn(content: Bytes, start: Entry, offset: nat) returns (after: Entry)
    requires start.offset <= offset
    ensures after == EntryAfter(content, start, offset)
  {
    var at: nat, count: nat := start.offset, start.count;
    var remaining := offset - start.offset;
    while remaining > 0
      invariant 0 <= remaining && start.offset <= at && at + remaining == offset
      invariant at == start.offset || at <= |content|
      invariant Entry(at, count) == EntryAfter(content, start, at)
      decreases remaining
    {
      var size := Max(0, Min(Min(CHUNK, remaining), |content| - at));
      if size == 0 {
        break;
      }
      EntryGrows(content, start, at, at + size);
      count := count + Newlines(content[at..at + size]);
      at := at + size;
      remaining := remaining - size;
    }
    after := Entry(at, count);
  }

  /** One query of the cached form: the answer and the cache it leaves. */
  function CachedQuery(cache: Cache, files: Files, path: string, offset: nat): (r: (nat, Cache)) {
    if path in files then
      var after := EntryAfter(files[path], StartOf(cache, path, offset), offset);
      (after.count + 1, cache[path := after])
    else
      (1, cache)
  }

  /** The cached counts are true of the files as they are now. */
  ghost predicate Agrees(cache: Cache, files: Files) {
    forall p :: p in cache && p in files ==> EntryAgrees(cache[p], files[p])
  }

  ghost predicate EntryAgrees(e: Entry, content: Bytes) {
    e.offset <= |content| && e.count == Newlines(content[..e.offset])
  }

  /** The cached answer equals the full scan exactly when the entry is not used or
      its count is the count of the bytes it stands for, whatever happened to the file. */
  lemma CachedAnswerExactly(cache: Cache, files: Files, path: string, offset: nat)
    requires path in files
    ensures CachedQuery(cache, files, path, offset).0 == LineOf(files[path], offset)
            <==> (path !in cache || cache[path].offset > offset
                  || cache[path].count == Newlines(files[path][..Min(cache[path].offset, |files[path]|)]))
  {
    var content := files[path];
    var start := StartOf(cache, path, offset);
    var stop := Min(offset, |content|);
    if start.offset <= stop {
      NewlinesBetween(content, start.offset, stop);
    } else {
      assert Min(start.offset, |content|) == |content| == stop;
    }
    assert content[..0] == [];
  }

  /** What a sequence of log events does: a file grows, or a line is asked for. */
  datatype LogEvent = Append(path: string, bytes: Bytes) | Query(path: string, offset: nat)

  function Grow(files: Files, path: string, bytes: Bytes): Files {
    files[path := (if path in files then files[path] else []) + bytes]
  }

  function Answers(cache: Cache, files: Files, events: seq<LogEvent>): seq<nat>
    decreases |events|
  {
    if events == [] then []
    else match events[0]
      case Append(p, b) => Answers(cache, Grow(files, p, b), events[1..])
      case Query(p, o) =>
        var (line, cache') := CachedQuery(cache, files, p, o);
        [line] + Answers(cache', files, events[1..])
  }

  /** What the uncached scan answers to the same queries (1 for an unreadable file). */
  function ScanAnswers(files: Files, events: seq<LogEvent>): seq<nat>
    decreases |events|
  {
    if events == [] then []
    else match events[0]
      case Append(p, b) => ScanAnswers(Grow(files, p, b), events[1..])
      case Query(p, o) =>
        [if p in files then LineOf(files[p], o) else 1] + ScanAnswers(files, events[1..])
  }

  lemma AgreesAfterQuery(cache: Cache, files: Files, path: string, offset: nat)
    requires Agrees(cache, files)
    ensures Agrees(CachedQuery(cache, files, path, offset).1, files)
    ensures path in files ==> CachedQuery(cache, files, path, offset).0 == LineOf(files[path], offset)
  {
    if path in files {
      var content := files[path];
      var start := StartOf(cache, path, offset);
      assert content[..0] == [];
      NewlinesBetween(content, start.offset, Min(offset, |content|));
    }
  }

  lemma AgreesAfterGrowth(cache: Cache, files: Files, path: string, bytes: Bytes)
    requires Agrees(cache, files)
    requires path in files || path !in cache
    ensures Agrees(cache, Grow(files, path, bytes))
  {
    var grown := Grow(files, path, bytes);
    forall p | p in cache && p in grown
      ensures EntryAgrees(cache[p], grown[p])
    {
      assert p in files && EntryAgrees(cache[p], files[p]);
      assert grown[p][..cache[p].offset] == files[p][..cache[p].offset];
    }
  }

  /** Over any queries, forwards or backwards, interleaved with any appends, the cached
      counts answer exactly what scanning the file from its start would. */
  lemma {:induction false} CacheRefinesScan(cache: Cache, files: Files, events: seq<LogEvent>)
    requires Agrees(cache, files) && cache.Keys <= files.Keys
    ensures Answers(cache, files, events) == ScanAnswers(files, events)
    decreases |events|
  {
    if events != [] {
      match events[0]
      case Append(p, b) =>
        AgreesAfterGrowth(cache, files, p, b);
        CacheRefinesScan(cache, Grow(files, p, b), events[1..]);
      case Query(p, o) =>
        AgreesAfterQuery(cache, files, p, o);
        CacheRefinesScan(CachedQuery(cache, files, p, o).1, files, events[1..]);
    }
  }

  /** The per-process cache of utils/scheduler_store.py. */
  class LineCache {
    var entries: Cache

    constructor ()
      ensures entries == map[]
    {
      entries := map[];
    }

    method LineAtOffset(files: Files, path: string, offset: nat) returns (line: nat)
      modifies this
      ensures line == CachedQuery(old(entries), files, path, offset).0
      ensures entries == CachedQuery(old(entries), files, path, offset).1
    {
      var at, count := 0, 0;
      if path in entries {
        at, count := entries[path].offset, entries[path].count;
      }
      if at > offset {
        at, count := 0, 0;
      }
      if path !in files {
        return 1;
      }
      var after := ReadOn(files[path], Entry(at, count), offset);
      entries := entries[path := after];
      line := after.count + 1;
    }
  }
}
