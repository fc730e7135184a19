/**
 The sliding-window admission gate of `RateLimiter` in
 core/infrastructure/api_manager.py. The clock reading `time.time()` is the
 explicit parameter `now` (whole seconds).
 */
module RateLimiting {
  import opened Common

  /** The window length `RateLimiter.__init__` defaults to, in seconds. */
  const DefaultPeriod := 60

  /** At most `calls` admissions per trailing `period` seconds; `timestamps`
      holds the admission times that may still count. */
  datatype RateLimiter = RateLimiter(calls: int, period: int, timestamps: seq<int>)

  function NewLimiter(calls: int, period: int): (l: RateLimiter)
    ensures l.calls == calls && l.period == period
    ensures l.timestamps == []
  {
    RateLimiter(calls, period, [])
  }

  /** Whether an admission time still counts when the window starts after `cutoff`. */
  function Newer(cutoff: int): int -> bool {
    (t: int) => t > cutoff
  }

  /** The admission times strictly newer than `cutoff`, oldest first. */
  function Prune(stamps: seq<int>, cutoff: int): seq<int>
  {
    Filter(stamps, Newer(cutoff))
  }

  datatype Admission = Admission(limiter: RateLimiter, admitted: bool)

  /** `RateLimiter.acquire`: drop every stamp at or before `now - period`,
      then admit (recording `now`) iff fewer than `calls` stamps remain. */
  function Acquire(l: RateLimiter, now: int): (r: Admission)
    ensures r.limiter.calls == l.calls && r.limiter.period == l.period
    ensures r.admitted <==> |Prune(l.timestamps, now - l.period)| < l.calls
    ensures r.admitted ==> r.limiter.timestamps == Prune(l.timestamps, now - l.period) + [now]
    ensures !r.admitted ==> r.limiter.timestamps == Prune(l.timestamps, now - l.period)
    // the stored window never holds more than `calls` stamps
    ensures 0 <= l.calls && |l.timestamps| <= l.calls ==> |r.limiter.timestamps| <= l.calls
  {
    var kept := Prune(l.timestamps, now - l.period);
    if |kept| < l.calls then Admission(l.(timestamps := kept + [now]), true)
    else Admission(l.(timestamps := kept), false)
  }

  /** After any call only stamps younger than one period remain, so a stamp
      exactly `period` seconds old no longer counts. */
  lemma AcquireLeavesFreshStamps(l: RateLimiter, now: int)
    requires l.period > 0
    ensures var ts := Acquire(l, now).limiter.timestamps;
      forall i :: 0 <= i < |ts| ==> ts[i] > now - l.period
  {
    FilterMembers(l.timestamps, Newer(now - l.period));
  }

  ghost predicate NonDecreasing(s: seq<int>) {
    forall i, j :: 0 <= i < j < |s| ==> s[i] <= s[j]
  }

  /** Calls `acquire` once at each time of `nows`, in order; returns the
      final limiter and the verdict of every call. */
  function Replay(l: RateLimiter, nows: seq<int>): (r: (RateLimiter, seq<bool>))
    ensures |r.1| == |nows|
    ensures r.0.calls == l.calls && r.0.period == l.period
    ensures 0 <= l.calls && |l.timestamps| <= l.calls ==> |r.0.timestamps| <= l.calls
    decreases |nows|
  {
    if |nows| == 0 then (l, [])
    else
      var prev := Replay(l, nows[..|nows| - 1]);
      var a := Acquire(prev.0, nows[|nows| - 1]);
      (a.limiter, prev.1 + [a.admitted])
  }

  /** The times of the calls whose verdict was an admission, in order. */
  function AdmittedTimes(nows: seq<int>, verdicts: seq<bool>): seq<int>
    requires |nows| == |verdicts|
    decreases |nows|
  {
    if |nows| == 0 then []
    else
      AdmittedTimes(nows[..|nows| - 1], verdicts[..|verdicts| - 1])
        + (if verdicts[|verdicts| - 1] then [nows[|nows| - 1]] else [])
  }

  /** Pruning by an older cutoff and then a newer one equals pruning by the newer one. */
  lemma PruneTwice(s: seq<int>, older: int, newer: int)
    requires older <= newer
    ensures Prune(Prune(s, older), newer) == Prune(s, newer)
  {
    FilterNarrow(s, Newer(older), Newer(newer));
  }

  /** The limiter's stored stamps are the admission times `admitted` that
      are younger than one period at time `now`. */
  ghost predicate Tracks(l: RateLimiter, admitted: seq<int>, now: int) {
    l.timestamps == Prune(admitted, now - l.period)
  }

  /** A stamp newer than the cutoff survives pruning at the end of the window. */
  lemma PruneSnoc(before: seq<int>, now: int, cutoff: int)
    requires now > cutoff
    ensures Prune(before + [now], cutoff) == Prune(before, cutoff) + [now]
  {
    assert Prune([now], cutoff) == [now] by {
      assert [now][..0] == [];
    }
    FilterAppend(before, [now], Newer(cutoff));
  }

  /** One `acquire` keeps the stored stamps equal to the admission times
      younger than one period, provided the clock did not go back. */
  lemma AcquireTracksAdmissions(l: RateLimiter, before: seq<int>, last: int, now: int)
    requires l.period > 0 && last <= now
    requires Tracks(l, before, last)
    ensures var a := Acquire(l, now);
      Tracks(a.limiter, before + (if a.admitted then [now] else []), now)
  {
    var a := Acquire(l, now);
    var cutoff := now - l.period;
    PruneTwice(before, last - l.period, cutoff);
    if a.admitted {
      PruneSnoc(before, now, cutoff);
    } else {
      assert before + [] == before;
    }
  }

  /** The last call of a replay, seen from the replay of the calls before it. */
  lemma ReplayLast(l: RateLimiter, nows: seq<int>)
    requires |nows| > 0
    ensures var prev := Replay(l, nows[..|nows| - 1]);
      var a := Acquire(prev.0, nows[|nows| - 1]);
      var r := Replay(l, nows);
      && r.0 == a.limiter
      && AdmittedTimes(nows, r.1)
         == AdmittedTimes(nows[..|nows| - 1], prev.1) + (if a.admitted then [nows[|nows| - 1]] else [])
  {
    var prev := Replay(l, nows[..|nows| - 1]);
    var r := Replay(l, nows);
    assert r.1[..|nows| - 1] == prev.1;
  }

  /** From an empty window and with a clock that never goes back, the stored
      stamps are exactly the admission times younger than one period. */
  lemma {:induction false} ReplayTracksAdmissions(l: RateLimiter, nows: seq<int>)
    requires l.timestamps == [] && l.period > 0
    requires NonDecreasing(nows) && |nows| > 0
    ensures var r := Replay(l, nows); Tracks(r.0, AdmittedTimes(nows, r.1), nows[|nows| - 1])
    decreases |nows|
  {
    var n := |nows|;
    var init := nows[..n - 1];
    var now := nows[n - 1];
    var prev := Replay(l, init);
    var before := AdmittedTimes(init, prev.1);
    ReplayLast(l, nows);
    if n == 1 {
      assert Tracks(prev.0, before, now) by {
        assert Prune([], now - l.period) == [];
      }
      AcquireTracksAdmissions(prev.0, before, now, now);
    } else {
      var last := init[n - 2];
      assert NonDecreasing(init);
      ReplayTracksAdmissions(l, init);
      AcquireTracksAdmissions(prev.0, before, last, now);
    }
  }

  /** The sliding-window guarantee: with a clock that never goes back, the
      calls admitted within the trailing `period` seconds of the latest call
      never number more than `calls`. */
  lemma WindowBound(l: RateLimiter, nows: seq<int>)
    requires l.timestamps == [] && l.period > 0 && 0 <= l.calls
    requires NonDecreasing(nows) && |nows| > 0
    ensures var r := Replay(l, nows);
      |Prune(AdmittedTimes(nows, r.1), nows[|nows| - 1] - l.period)| <= l.calls
  {
    ReplayTracksAdmissions(l, nows);
    var r := Replay(l, nows);
    assert |r.0.timestamps| <= l.calls;
  }

  /** With two calls per minute, three calls in the same second are
      admitted, admitted, refused. */
  lemma ThreeQuickCalls()
    ensures Replay(NewLimiter(2, DefaultPeriod), [0, 0, 0]).1 == [true, true, false]
  {
    var l := NewLimiter(2, DefaultPeriod);
    assert Prune([], -60) == [];
    assert Prune([0], -60) == [0];
    assert Prune([0, 0], -60) == [0, 0];
    var s := [0, 0, 0];
    assert s[..2] == [0, 0] && [0, 0][..1] == [0] && [0][..0] == [];
    assert Replay(l, [0]).1 == [true];
    assert Replay(l, [0, 0]).1 == [true, true];
  }

  /** A stamp exactly one period old no longer counts: one second earlier it still does. */
  lemma ExactPeriodBoundary()
    ensures !Acquire(RateLimiter(1, DefaultPeriod, [100]), 159).admitted
    ensures Acquire(RateLimiter(1, DefaultPeriod, [100]), 160).admitted
  {
    assert Prune([100], 99) == [100];
    assert Prune([100], 100) == [];
  }
}
