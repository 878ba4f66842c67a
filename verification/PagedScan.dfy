/** Log scans in pages: the ranges partition the window, and the pages together are one complete scan. */
module PagedScan {
  import opened Common

  datatype Range = Range(lo: int, hi: int)
  datatype Release = Release(hash: string, block: int, recipient: string, amount: nat, id: string)

  const MAX_LOG_SCAN_SPAN: int := 2000

  // ---------------------------------------------------------------- ranges

  /** Newest first, each range ends right below the one before it, none longer than `span`. */
  predicate Descends(rs: seq<Range>, to: int, span: int) {
    && (rs != [] ==> rs[0].hi == to)
    && (forall i | 0 <= i < |rs| :: rs[i].lo <= rs[i].hi && rs[i].hi - rs[i].lo < span)
    && (forall i | 0 < i < |rs| :: rs[i].hi == rs[i - 1].lo - 1)
  }

  /** Contiguous ranges from `to` down to `from`. */
  predicate Pages(rs: seq<Range>, from: int, to: int, span: int) {
    Descends(rs, to, span) && if to < from then rs == [] else rs != [] && rs[|rs| - 1].lo == from
  }

  predicate Within(b: int, r: Range) {
    r.lo <= b <= r.hi
  }

  lemma {:induction false} LaterIsLower(rs: seq<Range>, to: int, span: int, i: nat, j: nat)
    requires Descends(rs, to, span) && i < j < |rs|
    ensures rs[j].hi < rs[i].lo
    decreases j
  {
    if i < j - 1 { LaterIsLower(rs, to, span, i, j - 1); }
  }

  lemma {:induction false} SomeRangeHolds(rs: seq<Range>, from: int, to: int, span: int, b: int)
    requires Pages(rs, from, to, span) && from <= b <= to
    ensures exists i :: 0 <= i < |rs| && Within(b, rs[i])
    decreases |rs|
  {
    if Within(b, rs[0]) {
    } else {
      var rest := rs[1..];
      assert forall i | 0 <= i < |rest| :: rest[i] == rs[i + 1];
      SomeRangeHolds(rest, from, rs[0].lo - 1, span, b);
      var i :| 0 <= i < |rest| && Within(b, rest[i]);
      assert Within(b, rs[i + 1]);
    }
  }

  /** Every block of the window lies in exactly one page, and no page reaches outside the window. */
  lemma PagesPartition(rs: seq<Range>, from: int, to: int, span: int, b: int)
    requires Pages(rs, from, to, span)
    ensures from <= b <= to <==> exists i :: 0 <= i < |rs| && Within(b, rs[i])
    ensures forall i, j | 0 <= i < |rs| && 0 <= j < |rs| && Within(b, rs[i]) && Within(b, rs[j]) :: i == j
  {
    if from <= b <= to { SomeRangeHolds(rs, from, to, span, b); }
    forall i | 0 <= i < |rs| && Within(b, rs[i]) ensures from <= b <= to {
      if 0 < i { LaterIsLower(rs, to, span, 0, i); }
      if i < |rs| - 1 { LaterIsLower(rs, to, span, i, |rs| - 1); }
    }
    forall i, j | 0 <= i < |rs| && 0 <= j < |rs| && Within(b, rs[i]) && Within(b, rs[j]) ensures i == j {
      if i < j { LaterIsLower(rs, to, span, i, j); }
      if j < i { LaterIsLower(rs, to, span, j, i); }
    }
  }

  /** `blockRangesDescending`; `None` is the throw on a bad span. */
  method BlockRangesDescending(from: int, to: int, maxSpan: int) returns (r: Option<seq<Range>>)
    ensures r.None? <==> maxSpan <= 0 || maxSpan > MAX_LOG_SCAN_SPAN
    ensures r.Some? && 0 <= from ==> Pages(r.value, from, to, maxSpan)
  {
    if maxSpan <= 0 || maxSpan > MAX_LOG_SCAN_SPAN { return None; }
    var out: seq<Range> := [];
    if to < from { return Some(out); }
    var hi, done := to, false;
    while hi >= from && !done
      invariant Descends(out, to, maxSpan)
      invariant out == [] ==> hi == to && !done
      invariant out != [] && !done ==> hi == out[|out| - 1].lo - 1
      invariant 0 <= from && done ==> out != [] && out[|out| - 1].lo == from
      invariant from <= to && (!done ==> hi >= from)
      decreases hi - from, !done
    {
      var lo := if hi - maxSpan + 1 > from then hi - maxSpan + 1 else from;
      out := out + [Range(lo, hi)];
      if lo == 0 || lo == from {
        done := true;
      } else {
        hi := lo - 1;
      }
    }
    return Some(out);
  }

  // ---------------------------------------------------------------- logs

  function LogsIn(chain: seq<Release>, r: Range): seq<Release> {
    if chain == [] then []
    else (if Within(chain[0].block, r) then [chain[0]] else []) + LogsIn(chain[1..], r)
  }

  lemma {:induction false} LogsSplit(chain: seq<Release>, lo: int, mid: int, hi: int)
    requires lo <= mid <= hi + 1
    ensures multiset(LogsIn(chain, Range(lo, hi))) == multiset(LogsIn(chain, Range(mid, hi))) +
            multiset(LogsIn(chain, Range(lo, mid - 1)))
  {
    if chain != [] {
      LogsSplit(chain[1..], lo, mid, hi);
    }
  }

  lemma {:induction false} NoLogs(chain: seq<Release>, r: Range)
    requires r.hi < r.lo
    ensures LogsIn(chain, r) == []
  {
    if chain != [] { NoLogs(chain[1..], r); }
  }

  /** The answer to one page request on one attempt; `None` is a throw. */
  type Fetch = (nat, Range) -> Option<seq<Release>>

  /** Whatever a page request returns is what the chain holds in that range. */
  ghost predicate Faithful(fetch: Fetch, chain: seq<Release>) {
    forall t: nat, r: Range :: fetch(t, r).Some? ==> fetch(t, r).value == LogsIn(chain, r)
  }

  /** From call `t` on, every attempt at this page failed. */
  ghost predicate GaveUp(fetch: Fetch, t: nat, r: Range, retries: nat) {
    forall i | t <= i <= t + retries :: fetch(i, r).None?
  }

  /** No part of the page lies outside the window, and it is no longer than allowed. */
  predicate InWindow(r: Range, from: int, to: int, maxSpan: int) {
    from <= r.lo <= r.hi <= to && r.hi - r.lo < maxSpan
  }

  ghost predicate BadSpan(maxSpan: int) {
    maxSpan <= 0 || maxSpan > MAX_LOG_SCAN_SPAN
  }

  /** One page, retried in place at most `retries` times. */
  method FetchWithRetry(fetch: Fetch, clock: nat, r: Range, retries: nat) returns (page: Option<seq<Release>>, now: nat)
    ensures page.None? ==> GaveUp(fetch, clock, r, retries)
    ensures page.Some? ==> exists i :: clock <= i <= clock + retries && fetch(i, r) == page
    ensures clock < now <= clock + retries + 1
  {
    var attempt := 0;
    now := clock;
    page := None;
    while page.None? && attempt <= retries
      invariant attempt <= retries + 1 && now == clock + attempt
      invariant page.Some? ==> attempt > 0 && fetch(now - 1, r) == page
      invariant page.None? ==> forall i | clock <= i < now :: fetch(i, r).None?
      decreases retries + 1 - attempt, page.None?
    {
      page := fetch(now, r);
      now, attempt := now + 1, attempt + 1;
    }
  }

  lemma OnePageMore(chain: seq<Release>, logs: seq<Release>, page: seq<Release>, r: Range, low: int, to: int)
    requires multiset(logs) == multiset(LogsIn(chain, Range(low, to))) && page == LogsIn(chain, r)
    requires r.lo <= r.hi == low - 1 && low <= to + 1
    ensures multiset(logs + page) == multiset(LogsIn(chain, Range(r.lo, to)))
  {
    hide LogsIn;
    LogsSplit(chain, r.lo, low, to);
    assert r == Range(r.lo, low - 1);
  }

  /** `scanLogPagesDescending`: throws, or returns every log of the window exactly once. */
  method ScanLogPages(fetch: Fetch, from: int, to: int, maxSpan: int, retries: nat, ghost chain: seq<Release>)
    returns (out: Option<seq<Release>>)
    requires Faithful(fetch, chain) && 0 <= from
    ensures out.Some? ==> multiset(out.value) == multiset(LogsIn(chain, Range(from, to)))
    ensures BadSpan(maxSpan) ==> out.None?
    ensures out.None? ==> BadSpan(maxSpan) || exists t: nat, r ::
              InWindow(r, from, to, maxSpan) && GaveUp(fetch, t, r, retries)
  {
    hide LogsIn;
    var ranges := BlockRangesDescending(from, to, maxSpan);
    if ranges.None? { return None; }
    var rs := ranges.value;
    var logs: seq<Release>, clock: nat := [], 0;
    ghost var low := to + 1;
    NoLogs(chain, Range(to + 1, to));
    if to < from { NoLogs(chain, Range(from, to)); }
    for i := 0 to |rs|
      invariant low == if i == 0 then to + 1 else rs[i - 1].lo
      invariant multiset(logs) == multiset(LogsIn(chain, Range(low, to)))
    {
      var page, now := FetchWithRetry(fetch, clock, rs[i], retries);
      if page.None? {
        PageIsInWindow(rs, from, to, maxSpan, i);
        return None;
      }
      clock := now;
      AboveIsBelow(rs, to, maxSpan, i);
      OnePageMore(chain, logs, page.value, rs[i], low, to);
      logs := logs + page.value;
      low := rs[i].lo;
    }
    return Some(logs);
  }

  lemma PageIsInWindow(rs: seq<Range>, from: int, to: int, span: int, i: nat)
    requires Pages(rs, from, to, span) && i < |rs|
    ensures InWindow(rs[i], from, to, span)
  {
    PagesPartition(rs, from, to, span, rs[i].lo);
    PagesPartition(rs, from, to, span, rs[i].hi);
    assert Within(rs[i].lo, rs[i]) && Within(rs[i].hi, rs[i]);
  }

  lemma AboveIsBelow(rs: seq<Range>, to: int, span: int, i: nat)
    requires Descends(rs, to, span) && i < |rs|
    ensures var above := if i == 0 then to + 1 else rs[i - 1].lo; rs[i].lo <= rs[i].hi == above - 1 && above <= to + 1
  {
    if i > 1 { LaterIsLower(rs, to, span, 0, i - 1); }
  }

  function WithId(logs: seq<Release>, id: string): seq<Release> {
    if logs == [] then [] else (if logs[0].id == id then [logs[0]] else []) + WithId(logs[1..], id)
  }

  lemma {:induction false} WithIdCounts(logs: seq<Release>, id: string, x: Release)
    ensures multiset(WithId(logs, id))[x] == if x.id == id then multiset(logs)[x] else 0
  {
    if logs != [] {
      WithIdCounts(logs[1..], id, x);
      assert logs == [logs[0]] + logs[1..];
    }
  }

  /** `findVaultReleases`: every release that carries the id in the window, so that a second one cannot hide. */
  method FindVaultReleases(fetch: Fetch, id: string, head: nat, lookback: nat, maxSpan: int, retries: nat,
                           ghost chain: seq<Release>)
    returns (out: Option<seq<Release>>)
    requires Faithful(fetch, chain)
    ensures out.Some? ==>
            multiset(out.value) == multiset(WithId(LogsIn(chain, Range(if head > lookback then head - lookback
                else 0, head)), id))
    ensures out.None? ==>
            BadSpan(maxSpan) || exists t: nat, r ::
                  InWindow(r, if head > lookback then head - lookback else 0, head, maxSpan)
                      && GaveUp(fetch, t, r, retries)
  {
    var from := if head > lookback then head - lookback else 0;
    var logs := ScanLogPages(fetch, from, head, maxSpan, retries, chain);
    if logs.None? { return None; }
    ghost var all := LogsIn(chain, Range(from, head));
    forall x ensures multiset(WithId(logs.value, id))[x] == multiset(WithId(all, id))[x] {
      WithIdCounts(logs.value, id, x);
      WithIdCounts(all, id, x);
    }
    return Some(WithId(logs.value, id));
  }
}
