/**
 The fixed-window limiter: INCR the client's key, EXPIRE it on the first increment,
 refuse when the count is over the limit.
 */
module RateLimit {

  /** A Redis counter that disappears once `expiresAt` is reached. */
  datatype Entry = Entry(count: nat, expiresAt: int)

  type Store = map<string, Entry>

  /** The counter a command at time `at` finds. */
  function CountAt(store: Store, key: string, at: int): nat {
    if key in store && at < store[key].expiresAt then store[key].count else 0
  }

  class Limiter {
    var store: Store
    const maxAttempts: int
    const windowSeconds: int

    /** All the calls so far, and what each was answered. */
    ghost var calls: seq<Call>
    ghost var answers: seq<bool>

    ghost predicate Valid()
      reads this
    {
      Recorded(store, calls, answers, maxAttempts, windowSeconds)
    }

    constructor (maxAttempts: int, windowSeconds: int)
      ensures this.maxAttempts == maxAttempts && this.windowSeconds == windowSeconds && store == map[]
      ensures Valid() && calls == []
    {
      this.maxAttempts, this.windowSeconds := maxAttempts, windowSeconds;
      store, calls, answers := map[], [], [];
    }

    /** check_rate_limit; EXPIRE with no time left deletes the key at once. */
    method Check(key: string, at: int) returns (admitted: bool)
      requires Valid()
      modifies this
      ensures Valid() && calls == old(calls) + [Call(key, at)] && answers == old(answers) + [admitted]
      ensures (store, admitted) == Checked(old(store), Call(key, at), maxAttempts, windowSeconds)
      ensures ByQuota(calls, key, maxAttempts, windowSeconds, admitted)
    {
      ghost var store0 := store;
      var count := CountAt(store, key, at) + 1;
      if count == 1 {
        if windowSeconds > 0 {
          store := store[key := Entry(1, at + windowSeconds)];
        } else {
          store := store - {key};
        }
      } else {
        store := store[key := Entry(count, store[key].expiresAt)];
      }
      admitted := count <= maxAttempts;
      CallRecorded(store0, calls, answers, Call(key, at), maxAttempts, windowSeconds);
      calls, answers := calls + [Call(key, at)], answers + [admitted];
    }

    /** What the limiter has let through so far keeps the sliding bound, for every client and stretch of time. */
    lemma KeepsBound(key: string, from: int)
      requires Valid() && TimeOrdered(calls) && windowSeconds > 0 && maxAttempts >= 0
      ensures TrueWithin(calls, answers, key, windowSeconds, from, |calls|) <= 2 * maxAttempts
    {
      RunBound(calls, key, maxAttempts, windowSeconds, from);
      AnswersCount(calls, answers, key, maxAttempts, windowSeconds, from, |calls|);
    }
  }

  /** The store is what the calls left, and the answers are those it gave. */
  ghost predicate Recorded(store: Store, calls: seq<Call>, answers: seq<bool>, maxAttempts: int, window: int) {
    && store == StoreAfter(calls, maxAttempts, window) && |answers| == |calls|
    && forall j :: 0 <= j < |calls| ==> answers[j] == Admitted(calls, maxAttempts, window, j)
  }

  lemma CallRecorded(store: Store, calls: seq<Call>, answers: seq<bool>, c: Call, maxAttempts: int, window: int)
    requires Recorded(store, calls, answers, maxAttempts, window)
    ensures var (after, admitted) := Checked(store, c, maxAttempts, window);
            && Recorded(after, calls + [c], answers + [admitted], maxAttempts, window)
            && ByQuota(calls + [c], c.key, maxAttempts, window, admitted)
  {
    CallAdded(calls, c, maxAttempts, window);
    LastInQuota(calls, c, maxAttempts, window);
  }

  /** How many of the first n answers let a call of `key` made in the stretch through. */
  function TrueWithin(calls: seq<Call>, answers: seq<bool>, key: string, window: int, from: int, n: nat): nat
    requires n <= |calls| == |answers|
  {
    if n == 0 then 0
    else
      TrueWithin(calls, answers, key, window, from, n - 1)
      + (if calls[n - 1].key == key && from <= calls[n - 1].at <= from + window && answers[n - 1] then 1 else 0)
  }

  lemma {:induction false} AnswersCount(calls: seq<Call>, answers: seq<bool>, key: string, maxAttempts: int, window: int,
                                        from: int, n: nat)
    requires n <= |calls| == |answers|
    requires forall j :: 0 <= j < |calls| ==> answers[j] == Admitted(calls, maxAttempts, window, j)
    ensures TrueWithin(calls, answers, key, window, from, n) == AdmittedWithin(calls, key, maxAttempts, window, from, n)
  {
    if n > 0 { AnswersCount(calls, answers, key, maxAttempts, window, from, n - 1); }
  }

  /** The answer to the last call is whether it is in the quota of its window. */
  ghost predicate ByQuota(calls: seq<Call>, key: string, maxAttempts: int, window: int, admitted: bool) {
    window > 0 || TimeOrdered(calls) ==>
      var times := TimesOf(calls, key);
      times != [] && (admitted <==> InQuota(times, maxAttempts, window, |times| - 1))
  }

  lemma LastInQuota(calls: seq<Call>, c: Call, maxAttempts: int, window: int)
    ensures ByQuota(calls + [c], c.key, maxAttempts, window, Admitted(calls + [c], maxAttempts, window, |calls|))
  {
    var more := calls + [c];
    assert more[..|calls| + 1] == more;
    if window > 0 || TimeOrdered(more) { AdmitsFirstOfWindow(more, maxAttempts, window, |calls|); }
  }

  lemma CallAdded(calls: seq<Call>, c: Call, maxAttempts: int, window: int)
    ensures var more := calls + [c];
            && (StoreAfter(more, maxAttempts, window), Admitted(more, maxAttempts, window, |calls|))
               == Checked(StoreAfter(calls, maxAttempts, window), c, maxAttempts, window)
            && forall j :: 0 <= j < |calls| ==> Admitted(more, maxAttempts, window, j) == Admitted(calls, maxAttempts, window, j)
  {
    var more := calls + [c];
    assert more[..|calls|] == calls;
    forall j | 0 <= j < |calls|
      ensures Admitted(more, maxAttempts, window, j) == Admitted(calls, maxAttempts, window, j)
    {
      assert more[..j] == calls[..j];
    }
  }

  datatype Call = Call(key: string, at: int)

  function Checked(store: Store, c: Call, maxAttempts: int, window: int): (Store, bool) {
    var count := CountAt(store, c.key, c.at) + 1;
    var after :=
      if count > 1 then store[c.key := Entry(count, store[c.key].expiresAt)]
      else if window > 0 then store[c.key := Entry(1, c.at + window)]
      else store - {c.key};
    (after, count <= maxAttempts)
  }

  /** The store after all the calls. */
  function StoreAfter(calls: seq<Call>, maxAttempts: int, window: int): Store {
    if calls == [] then map[]
    else Checked(StoreAfter(calls[..|calls| - 1], maxAttempts, window), calls[|calls| - 1], maxAttempts, window).0
  }

  /** Whether the j-th call is let through. */
  predicate Admitted(calls: seq<Call>, maxAttempts: int, window: int, j: nat)
    requires j < |calls|
  {
    Checked(StoreAfter(calls[..j], maxAttempts, window), calls[j], maxAttempts, window).1
  }

  // ---- The reference: windows as a partition of the times alone ----

  predicate NonDecreasing(times: seq<int>) {
    forall i, j :: 0 <= i <= j < |times| ==> times[i] <= times[j]
  }

  /** The call that opened the window of call j: the first one not covered by an earlier window. */
  function WindowStart(times: seq<int>, window: int, j: nat): (start: nat)
    requires j < |times|
    ensures start <= j
  {
    if j == 0 then 0
    else
      var previous := WindowStart(times, window, j - 1);
      if times[j] < times[previous] + window then previous else j
  }

  /** Among the calls of one window, the first maxAttempts. */
  predicate InQuota(times: seq<int>, maxAttempts: int, window: int, j: nat)
    requires j < |times|
  {
    j - WindowStart(times, window, j) < maxAttempts
  }

  /** The times of one key's calls. */
  function TimesOf(calls: seq<Call>, key: string): (times: seq<int>)
    ensures |times| <= |calls|
  {
    if calls == [] then []
    else
      var before := TimesOf(calls[..|calls| - 1], key);
      if calls[|calls| - 1].key == key then before + [calls[|calls| - 1].at] else before
  }

  lemma {:induction false} StartOfPrefix(times: seq<int>, more: seq<int>, window: int, j: nat)
    requires j < |times|
    ensures WindowStart(times + more, window, j) == WindowStart(times, window, j)
  {
    if j > 0 { StartOfPrefix(times, more, window, j - 1); }
  }

  ghost predicate TimeOrdered(calls: seq<Call>) {
    forall i, j :: 0 <= i <= j < |calls| ==> calls[i].at <= calls[j].at
  }

  lemma {:induction false} TimesOrdered(calls: seq<Call>, key: string)
    requires TimeOrdered(calls)
    ensures NonDecreasing(TimesOf(calls, key))
    ensures calls != [] ==> forall t :: t in TimesOf(calls, key) ==> t <= calls[|calls| - 1].at
    decreases |calls|
  {
    if calls != [] {
      var before := calls[..|calls| - 1];
      TimesOrdered(before, key);
      assert before != [] ==> before[|before| - 1].at <= calls[|calls| - 1].at;
      var times := TimesOf(before, key);
      assert forall i :: 0 <= i < |times| ==> times[i] in times;
    }
  }

  /** A key's counter depends on that key's calls only: its value and its expiry. */
  lemma {:induction false} StoreMatches(calls: seq<Call>, maxAttempts: int, window: int, key: string)
    ensures CounterIs(StoreAfter(calls, maxAttempts, window), key, TimesOf(calls, key), window)
    decreases |calls|
  {
    if calls != [] {
      var before, last := calls[..|calls| - 1], calls[|calls| - 1];
      StoreMatches(before, maxAttempts, window, key);
      CheckedMatches(StoreAfter(before, maxAttempts, window), last, maxAttempts, window, key, TimesOf(before, key));
    }
  }

  /** The counter of the current window: how many calls it has had, and when it ends. */
  predicate CounterIs(store: Store, key: string, times: seq<int>, window: int) {
    if times == [] || window <= 0 then key !in store
    else
      var start := WindowStart(times, window, |times| - 1);
      key in store && store[key] == Entry(|times| - start, times[start] + window)
  }

  lemma CheckedMatches(store: Store, c: Call, maxAttempts: int, window: int, key: string, times: seq<int>)
    requires CounterIs(store, key, times, window)
    ensures CounterIs(Checked(store, c, maxAttempts, window).0, key, if c.key == key then times + [c.at] else times, window)
  {
    if c.key == key && times != [] {
      StartOfPrefix(times, [c.at], window, |times| - 1);
    }
  }

  /**
   Each window admits exactly its first maxAttempts calls.  Windows are fixed by the
   times alone, so a refused call never prolongs one, and no key affects another.
   */
  lemma AdmitsFirstOfWindow(calls: seq<Call>, maxAttempts: int, window: int, j: nat)
    requires j < |calls| && (window > 0 || TimeOrdered(calls))
    ensures var times := TimesOf(calls[..j + 1], calls[j].key);
            |times| > 0 && (Admitted(calls, maxAttempts, window, j) <==> InQuota(times, maxAttempts, window, |times| - 1))
  {
    var before, key := calls[..j], calls[j].key;
    assert calls[..j + 1][..|calls[..j + 1]| - 1] == before;
    StoreMatches(before, maxAttempts, window, key);
    var times := TimesOf(before, key);
    assert TimesOf(calls[..j + 1], key) == times + [calls[j].at];
    if times != [] {
      StartOfPrefix(times, [calls[j].at], window, |times| - 1);
      if window <= 0 {
        assert TimeOrdered(calls[..j + 1]);
        TimesOrdered(calls[..j + 1], key);
      }
    }
  }

  // ---- The sliding bound ----

  lemma {:induction false} WindowStartStable(times: seq<int>, window: int, i: nat, j: nat)
    requires j < |times| && WindowStart(times, window, j) <= i <= j
    ensures WindowStart(times, window, i) == WindowStart(times, window, j)
    decreases j
  {
    if i < j { WindowStartStable(times, window, i, j - 1); }
  }

  predicate Hit(times: seq<int>, maxAttempts: int, window: int, from: int, j: nat) {
    j < |times| && from <= times[j] <= from + window && InQuota(times, maxAttempts, window, j)
  }

  /** How many of the calls lo..hi are admitted within `window` seconds from `from`, both ends included. */
  function Hits(times: seq<int>, maxAttempts: int, window: int, from: int, lo: nat, hi: nat): nat
    requires lo <= hi
    decreases hi - lo
  {
    if lo == hi then 0
    else Hits(times, maxAttempts, window, from, lo, hi - 1) + (if Hit(times, maxAttempts, window, from, hi - 1) then 1 else 0)
  }

  lemma {:induction false} HitsSplit(times: seq<int>, maxAttempts: int, window: int, from: int, lo: nat, mid: nat, hi: nat)
    requires lo <= mid <= hi
    ensures Hits(times, maxAttempts, window, from, lo, hi) ==
            Hits(times, maxAttempts, window, from, lo, mid) + Hits(times, maxAttempts, window, from, mid, hi)
    decreases hi
  {
    if mid < hi { HitsSplit(times, maxAttempts, window, from, lo, mid, hi - 1); }
  }

  lemma {:induction false} NoHits(times: seq<int>, maxAttempts: int, window: int, from: int, lo: nat, hi: nat)
    requires lo <= hi && forall j: nat :: lo <= j < hi ==> !Hit(times, maxAttempts, window, from, j)
    ensures Hits(times, maxAttempts, window, from, lo, hi) == 0
    decreases hi
  {
    if lo < hi { NoHits(times, maxAttempts, window, from, lo, hi - 1); }
  }

  lemma {:induction false} HitsBelow(times: seq<int>, maxAttempts: int, window: int, from: int, lo: nat, hi: nat)
    requires lo <= hi
    ensures Hits(times, maxAttempts, window, from, lo, hi) <= hi - lo
    decreases hi
  {
    if lo < hi { HitsBelow(times, maxAttempts, window, from, lo, hi - 1); }
  }

  /** One window contributes at most maxAttempts. */
  lemma WindowHits(times: seq<int>, maxAttempts: nat, window: int, from: int, last: nat)
    requires last < |times|
    ensures var start := WindowStart(times, window, last);
            Hits(times, maxAttempts, window, from, start, last + 1) <= maxAttempts
  {
    var start := WindowStart(times, window, last);
    var mid := if start + maxAttempts <= last + 1 then start + maxAttempts else last + 1;
    HitsSplit(times, maxAttempts, window, from, start, mid, last + 1);
    HitsBelow(times, maxAttempts, window, from, start, mid);
    forall j: nat | mid <= j < last + 1 ensures !Hit(times, maxAttempts, window, from, j) {
      WindowStartStable(times, window, j, last);
    }
    NoHits(times, maxAttempts, window, from, mid, last + 1);
  }

  /** A new window opens only after the whole of the one before. */
  lemma NextWindowLater(times: seq<int>, window: int, start: nat, i: nat)
    requires NonDecreasing(times) && window > 0 && 0 < start < |times| && i < start
    requires WindowStart(times, window, start) == start
    ensures times[WindowStart(times, window, start - 1)] + window <= times[start]
    ensures times[i] < times[start]
  {
    var p := WindowStart(times, window, start - 1);
    assert times[i] <= times[start - 1];
    CoveredByStart(times, window, start - 1);
  }

  lemma {:induction false} CoveredByStart(times: seq<int>, window: int, j: nat)
    requires j < |times| && window > 0
    ensures times[j] < times[WindowStart(times, window, j)] + window
  {
  }

  /** Before a window that starts within the stretch, only the window before it can have hits. */
  lemma EarlierHits(times: seq<int>, maxAttempts: nat, window: int, from: int, second: nat)
    requires NonDecreasing(times) && window > 0 && 0 < second < |times| && WindowStart(times, window, second) == second
    requires times[second] <= from + window
    ensures Hits(times, maxAttempts, window, from, 0, second) <= maxAttempts
  {
    var first := WindowStart(times, window, second - 1);
    HitsSplit(times, maxAttempts, window, from, 0, first, second);
    WindowHits(times, maxAttempts, window, from, second - 1);
    WindowStartStable(times, window, first, second - 1);
    forall j: nat | j < first ensures !Hit(times, maxAttempts, window, from, j) {
      NextWindowLater(times, window, first, j);
      NextWindowLater(times, window, second, j);
    }
    NoHits(times, maxAttempts, window, from, 0, first);
  }

  /**
   In any stretch of `window` seconds, both ends included, at most twice maxAttempts
   calls of a client are admitted.
   */
  lemma {:induction false} SlidingBound(times: seq<int>, maxAttempts: nat, window: int, from: int, n: nat)
    requires NonDecreasing(times) && window > 0 && n <= |times|
    ensures Hits(times, maxAttempts, window, from, 0, n) <= 2 * maxAttempts
    decreases n
  {
    if n > 0 {
      if !Hit(times, maxAttempts, window, from, n - 1) {
        SlidingBound(times, maxAttempts, window, from, n - 1);
      } else {
        var second := WindowStart(times, window, n - 1);
        HitsSplit(times, maxAttempts, window, from, 0, second, n);
        WindowHits(times, maxAttempts, window, from, n - 1);
        if second > 0 {
          WindowStartStable(times, window, second, n - 1);
          EarlierHits(times, maxAttempts, window, from, second);
        }
      }
    }
  }

  /** The bound is reached, for every limit and every window. */
  lemma SlidingBoundReached(maxAttempts: nat, window: int)
    requires window > 0
    ensures var times := seq(2 * maxAttempts, i => if i < maxAttempts then 0 else window);
            NonDecreasing(times) && Hits(times, maxAttempts, window, 0, 0, |times|) == 2 * maxAttempts
  {
    var times := seq(2 * maxAttempts, i => if i < maxAttempts then 0 else window);
    BurstHits(times, maxAttempts, window, 2 * maxAttempts);
  }

  lemma {:induction false} BurstHits(times: seq<int>, maxAttempts: nat, window: int, n: nat)
    requires window > 0 && |times| == 2 * maxAttempts && n <= |times|
    requires forall i :: 0 <= i < |times| ==> times[i] == if i < maxAttempts then 0 else window
    ensures Hits(times, maxAttempts, window, 0, 0, n) == n
    ensures n > 0 ==> WindowStart(times, window, n - 1) == if n - 1 < maxAttempts then 0 else maxAttempts
    decreases n
  {
    if n > 0 { BurstHits(times, maxAttempts, window, n - 1); }
  }

  /** How many of the first n calls are calls of `key`, made in the stretch, and admitted. */
  function AdmittedWithin(calls: seq<Call>, key: string, maxAttempts: int, window: int, from: int, n: nat): nat
    requires n <= |calls|
  {
    if n == 0 then 0
    else
      var c := calls[n - 1];
      AdmittedWithin(calls, key, maxAttempts, window, from, n - 1)
      + (if c.key == key && from <= c.at <= from + window && Admitted(calls, maxAttempts, window, n - 1) then 1 else 0)
  }

  lemma {:induction false} HitsOfPrefix(times: seq<int>, more: seq<int>, maxAttempts: int, window: int, from: int, n: nat)
    requires n <= |times|
    ensures Hits(times + more, maxAttempts, window, from, 0, n) == Hits(times, maxAttempts, window, from, 0, n)
    decreases n
  {
    if n > 0 {
      StartOfPrefix(times, more, window, n - 1);
      HitsOfPrefix(times, more, maxAttempts, window, from, n - 1);
    }
  }

  lemma {:induction false} AdmittedAreHits(calls: seq<Call>, key: string, maxAttempts: int, window: int, from: int, n: nat)
    requires n <= |calls| && (window > 0 || TimeOrdered(calls))
    ensures var times := TimesOf(calls[..n], key);
            AdmittedWithin(calls, key, maxAttempts, window, from, n) == Hits(times, maxAttempts, window, from, 0, |times|)
    decreases n
  {
    if n > 0 {
      AdmittedAreHits(calls, key, maxAttempts, window, from, n - 1);
      assert calls[..n][..n - 1] == calls[..n - 1];
      var before := TimesOf(calls[..n - 1], key);
      if calls[n - 1].key == key {
        AdmitsFirstOfWindow(calls, maxAttempts, window, n - 1);
        HitsOfPrefix(before, [calls[n - 1].at], maxAttempts, window, from, |before|);
      }
    }
  }

  /**
   Over any run of calls by any clients, in any stretch of `window` seconds, both ends
   included, the limiter lets at most twice maxAttempts calls of one client through.
   */
  lemma RunBound(calls: seq<Call>, key: string, maxAttempts: nat, window: int, from: int)
    requires TimeOrdered(calls) && window > 0
    ensures AdmittedWithin(calls, key, maxAttempts, window, from, |calls|) <= 2 * maxAttempts
  {
    AdmittedAreHits(calls, key, maxAttempts, window, from, |calls|);
    assert calls[..|calls|] == calls;
    TimesOrdered(calls, key);
    SlidingBound(TimesOf(calls, key), maxAttempts, window, from, |TimesOf(calls, key)|);
  }

  /** Without a window nothing is ever refused, as long as one attempt is allowed. */
  lemma NoWindowNoLimit(calls: seq<Call>, maxAttempts: int, window: int, j: nat)
    requires j < |calls| && window <= 0
    ensures Admitted(calls, maxAttempts, window, j) <==> maxAttempts >= 1
  {
    StoreMatches(calls[..j], maxAttempts, window, calls[j].key);
  }
}
