/** Values shared by every table model: optional columns, operation results, and
    the few facts about finite sets that counting arguments need. */
module Values {

  /** A nullable column, or a row that may be missing. */
  datatype Option<+T> = None | Some(value: T)

  /** The answer of an operation that can raise instead of returning. */
  datatype Result<+T, +E> = Ok(value: T) | Err(error: E)

  function Max(a: int, b: int): int {
    if a < b then b else a
  }

  function Min(a: int, b: int): int {
    if a < b then a else b
  }

  /** The clock never goes back along the events of a run. */
  predicate Timely<E>(start: int, events: seq<E>, clock: E -> int)
    decreases |events|
  {
    events == [] || (start <= clock(events[0]) && Timely(clock(events[0]), events[1..], clock))
  }

  lemma EmptyOrMember(s: set<int>)
    ensures s == {} || exists x :: x in s
  {
    if forall x: int :: x !in s {
      assert s == {};
    }
  }

  lemma EmptyOrName(s: set<string>)
    ensures s == {} || exists x :: x in s
  {
    if forall x: string :: x !in s {
      assert s == {};
    }
  }

  lemma {:induction false} SubsetSize<T>(a: set<T>, b: set<T>)
    requires a <= b
    ensures |a| <= |b|
  {
    if a != {} {
      var x :| x in a;
      SubsetSize(a - {x}, b - {x});
    }
  }

  /** The members of a set of row numbers below `n`: what a scan has counted so far. */
  ghost function Below(s: set<nat>, n: nat): set<nat> {
    set k | k in s && k < n
  }

  lemma BelowNext(s: set<nat>, n: nat)
    ensures |Below(s, n + 1)| == |Below(s, n)| + if n in s then 1 else 0
    ensures Below(s, 0) == {}
  {
    if n in s {
      assert Below(s, n + 1) == Below(s, n) + {n};
    } else {
      assert Below(s, n + 1) == Below(s, n);
    }
  }

  lemma BelowAll(s: set<nat>, n: nat)
    requires forall k :: k in s ==> k < n
    ensures Below(s, n) == s && Below(s, 0) == {}
  {
  }

  /** The list `r` holds the elements of `s` at the positions in `keep`, in order. */
  ghost predicate Chosen<T>(s: seq<T>, keep: set<nat>, r: seq<T>) {
    && |r| == |keep|
    && forall i :: i in keep ==> i < |s| && |Below(keep, i)| < |r| && r[|Below(keep, i)|] == s[i]
  }

  /** Choosing from a list is choosing from all but its last element, and then from that. */
  lemma ChosenLast<T>(s: seq<T>, keep: set<nat>, init: seq<T>)
    requires s != [] && forall i :: i in keep ==> i < |s|
    requires Chosen(s[..|s| - 1], Below(keep, |s| - 1), init)
    ensures Chosen(s, keep, if |s| - 1 in keep then init + [s[|s| - 1]] else init)
  {
    var n, low := |s| - 1, Below(keep, |s| - 1);
    BelowNext(keep, n);
    BelowAll(keep, |s|);
    forall i | i in keep && i < n
      ensures |Below(keep, i)| < |init| && init[|Below(keep, i)|] == s[i]
    {
      assert i in low && Below(low, i) == Below(keep, i);
    }
  }

  /** A map that is injective on `a` and lands in `b` shows that `a` is no larger. */
  lemma {:induction false} InjectionSize<A, B>(a: set<A>, b: set<B>, f: map<A, B>)
    requires a <= f.Keys
    requires forall x :: x in a ==> f[x] in b
    requires forall x, y :: x in a && y in a && f[x] == f[y] ==> x == y
    ensures |a| <= |b|
  {
    if a != {} {
      var x :| x in a;
      InjectionSize(a - {x}, b - {f[x]}, f);
    }
  }
}
