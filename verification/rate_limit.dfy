/** Two rate limiters with one interface and two different bounds.

  In memory: a sliding window over admission times, pruned as it is read. In Redis: a
  fixed window, started by the first hit after the previous one expired.
 */
module RateLimit {

  ghost predicate Monotone(times: seq<real>) {
    forall i, j :: 0 <= i < j < |times| ==> times[i] <= times[j]
  }

  /** How many of `times` lie in the closed interval from `lo` to `hi`. */
  function Within(times: seq<real>, lo: real, hi: real): (n: nat)
    ensures n <= |times|
  {
    if times == [] then 0
    else Within(times[..|times| - 1], lo, hi) + if lo <= times[|times| - 1] <= hi then 1 else 0
  }

  // ---------------------------------------------------------------- in memory

  /** The hits still inside the window. */
  function Recent(hits: seq<real>, from: real): (r: seq<real>)
    ensures |r| <= |hits|
  {
    if hits == [] then []
    else Recent(hits[..|hits| - 1], from) + if hits[|hits| - 1] >= from then [hits[|hits| - 1]] else []
  }

  /** One hit on one bucket: the pruned bucket, and whether the hit is admitted. */
  function HitBucket(bucket: seq<real>, limit: int, window: real, now: real): (seq<real>, bool) {
    var hits := Recent(bucket, now - window);
    if |hits| >= limit then (hits, false) else (hits + [now], true)
  }

  class InMemoryRateLimiter {
    var buckets: map<string, seq<real>>

    constructor ()
      ensures buckets == map[]
    {
      buckets := map[];
    }

    /** An absent key reads as an empty bucket. */
    function Bucket(key: string): seq<real>
      reads this
    {
      if key in buckets then buckets[key] else []
    }

    /** `now` is the monotonic clock's reading. */
    method Hit(key: string, limit: int, window: real, now: real) returns (allowed: bool)
      modifies this
      ensures var (bucket, admitted) := HitBucket(old(Bucket(key)), limit, window, now);
              allowed == admitted && buckets == old(buckets)[key := bucket]
    {
      var windowStart := now - window;
      var all := Bucket(key);
      var hits: seq<real> := [];
      for i := 0 to |all|
        invariant hits == Recent(all[..i], windowStart)
      {
        assert all[..i + 1][..i] == all[..i];
        if all[i] >= windowStart { hits := hits + [all[i]]; }
      }
      assert all[..|all|] == all;
      if |hits| >= limit {
        buckets := buckets[key := hits];
        return false;
      }
      hits := hits + [now];
      buckets := buckets[key := hits];
      return true;
    }
  }

  /** One call of the limiter. */
  datatype Call = Call(key: string, limit: int, window: real, now: real)

  /** The buckets after a run of calls, for any mix of keys. */
  function Buckets(calls: seq<Call>): map<string, seq<real>> {
    if calls == [] then map[]
    else
      var before := Buckets(calls[..|calls| - 1]);
      var c := calls[|calls| - 1];
      before[c.key := HitBucket(if c.key in before then before[c.key] else [], c.limit, c.window, c.now).0]
  }

  /** The times at which one key was hit. */
  function TimesOf(calls: seq<Call>, key: string): seq<real> {
    if calls == [] then []
    else TimesOf(calls[..|calls| - 1], key) + if calls[|calls| - 1].key == key then [calls[|calls| - 1].now] else []
  }

  /** The bucket a run of hits on one key leaves. */
  function Bucket(times: seq<real>, limit: int, window: real): seq<real> {
    if times == [] then []
    else HitBucket(Bucket(times[..|times| - 1], limit, window), limit, window, times[|times| - 1]).0
  }

  /** The reference: every admission is remembered, nothing is pruned. */
  function History(times: seq<real>, limit: int, window: real): seq<real> {
    if times == [] then []
    else
      var h, now := History(times[..|times| - 1], limit, window), times[|times| - 1];
      if Within(h, now - window, now) < limit then h + [now] else h
  }

  /** Keys do not interfere: each bucket is what its own hits alone would have left. */
  lemma {:induction false} KeysAreIndependent(calls: seq<Call>, key: string, limit: int, window: real)
    requires forall c <- calls :: c.key == key ==> c.limit == limit && c.window == window
    ensures (if key in Buckets(calls) then Buckets(calls)[key] else []) == Bucket(TimesOf(calls, key), limit, window)
  {
    if calls != [] {
      var before, c := calls[..|calls| - 1], calls[|calls| - 1];
      KeysAreIndependent(before, key, limit, window);
      if c.key == key {
        assert (TimesOf(before, key) + [c.now])[..|TimesOf(before, key)|] == TimesOf(before, key);
      } else {
        assert TimesOf(before, key) + [] == TimesOf(before, key);
      }
    }
  }

  lemma {:induction false} RecentOfRecent(hits: seq<real>, early: real, late: real)
    requires early <= late
    ensures Recent(Recent(hits, early), late) == Recent(hits, late)
  {
    if hits != [] {
      var before, last := hits[..|hits| - 1], hits[|hits| - 1];
      RecentOfRecent(before, early, late);
      var r := Recent(before, early);
      assert (r + [last])[..|r|] == r && r + [] == r;
    }
  }

  lemma {:induction false} RecentCounts(hits: seq<real>, from: real, to: real)
    requires forall i :: 0 <= i < |hits| ==> hits[i] <= to
    ensures |Recent(hits, from)| == Within(hits, from, to)
  {
    if hits != [] {
      RecentCounts(hits[..|hits| - 1], from, to);
    }
  }

  lemma {:induction false} HistoryBefore(times: seq<real>, limit: int, window: real, t: real)
    requires t in History(times, limit, window)
    ensures t in times
  {
    if t in History(times[..|times| - 1], limit, window) {
      HistoryBefore(times[..|times| - 1], limit, window, t);
    }
  }

  lemma RecentAppend(hits: seq<real>, now: real, from: real)
    requires from <= now
    ensures Recent(hits + [now], from) == Recent(hits, from) + [now]
  {
    assert (hits + [now])[..|hits|] == hits;
  }

  /** The pruned bucket is the history, cut where the last window began. */
  lemma {:induction false} PrunedBucketIsRecentHistory(times: seq<real>, limit: int, window: real)
    requires Monotone(times) && times != [] && window >= 0.0
    ensures Bucket(times, limit, window) == Recent(History(times, limit, window), times[|times| - 1] - window)
    decreases |times|, 0
  {
    var before, now := times[..|times| - 1], times[|times| - 1];
    var h := History(before, limit, window);
    assert before + [now] == times;
    SameVerdict(before, limit, window, now);
    RecentAppend(h, now, now - window);
    OneMoreHit(times, limit, window);
    hide Recent, Within, Monotone, Bucket, History, HitBucket;
  }

  lemma OneMoreHit(times: seq<real>, limit: int, window: real)
    requires times != []
    ensures var before, now := times[..|times| - 1], times[|times| - 1];
            var b, h := Bucket(before, limit, window), History(before, limit, window);
            var kept := Recent(b, now - window);
            && HitBucket(b, limit, window, now).1 == (|kept| < limit)
            && Bucket(times, limit, window) == (if |kept| < limit then kept + [now] else kept)
            && History(times, limit, window) == if Within(h, now - window, now) < limit then h + [now] else h
  {
    hide Recent, Within;
  }

  /** Pruning never changes a verdict: the bucket admits exactly when the full history would. */
  lemma {:induction false} SameVerdict(times: seq<real>, limit: int, window: real, now: real)
    requires Monotone(times + [now]) && window >= 0.0
    ensures var h := History(times, limit, window);
            && Recent(Bucket(times, limit, window), now - window) == Recent(h, now - window)
            && (HitBucket(Bucket(times, limit, window), limit, window, now).1 <==> Within(h, now - window, now) < limit)
    decreases |times|, 1
  {
    hide History, Bucket, Recent, Within;
    var h := History(times, limit, window);
    if times == [] {
      assert h == Bucket(times, limit, window) by { EmptyRun(limit, window); }
    } else {
      var last := times[|times| - 1];
      assert (times + [now])[|times| - 1] == last && (times + [now])[|times|] == now;
      EarlierMonotone(times, now);
      PrunedBucketIsRecentHistory(times, limit, window);
      RecentOfRecent(h, last - window, now - window);
    }
    HistoryNotAfter(times, limit, window, now);
    RecentCounts(h, now - window, now);
  }

  lemma EmptyRun(limit: int, window: real)
    ensures History([], limit, window) == Bucket([], limit, window) == []
  {
  }

  lemma EarlierMonotone(times: seq<real>, now: real)
    requires Monotone(times + [now])
    ensures Monotone(times) && forall i :: 0 <= i < |times| ==> times[i] <= now
  {
    var more := times + [now];
    forall i, j | 0 <= i < j < |times|
      ensures times[i] <= times[j]
    {
      assert more[i] <= more[j];
    }
    forall i | 0 <= i < |times|
      ensures times[i] <= now
    {
      assert more[i] <= more[|times|];
    }
  }

  lemma HistoryNotAfter(times: seq<real>, limit: int, window: real, now: real)
    requires Monotone(times + [now])
    ensures var h := History(times, limit, window); forall i :: 0 <= i < |h| ==> h[i] <= now
  {
    var h := History(times, limit, window);
    EarlierMonotone(times, now);
    forall i | 0 <= i < |h|
      ensures h[i] <= now
    {
      HistoryBefore(times, limit, window, h[i]);
    }
  }

  /** Counting in a narrower interval finds no more. */
  lemma {:induction false} WithinNarrower(times: seq<real>, lo: real, hi: real, lo': real, hi': real)
    requires forall i :: 0 <= i < |times| && lo <= times[i] <= hi ==> lo' <= times[i] <= hi'
    ensures Within(times, lo, hi) <= Within(times, lo', hi')
  {
    if times != [] {
      WithinNarrower(times[..|times| - 1], lo, hi, lo', hi');
    }
  }

  /** Every closed interval as long as the window holds at most `limit` admissions. */
  lemma {:induction false} SlidingWindowBound(times: seq<real>, limit: int, window: real, lo: real)
    requires Monotone(times) && window >= 0.0
    ensures Within(History(times, limit, window), lo, lo + window) <= if limit < 0 then 0 else limit
  {
    if times != [] {
      var before, now := times[..|times| - 1], times[|times| - 1];
      var h := History(before, limit, window);
      assert before + [now] == times;
      EarlierMonotone(before, now);
      SlidingWindowBound(before, limit, window, lo);
      HistoryNotAfter(before, limit, window, now);
      OneMoreAdmission(h, limit, window, now, lo);
    }
  }

  lemma OneMoreAdmission(h: seq<real>, limit: int, window: real, now: real, lo: real)
    requires forall i :: 0 <= i < |h| ==> h[i] <= now
    requires Within(h, lo, lo + window) <= if limit < 0 then 0 else limit
    ensures Within(h, now - window, now) < limit ==> Within(h + [now], lo, lo + window) <= limit
  {
    assert (h + [now])[..|h|] == h;
    if lo <= now <= lo + window {
      WithinNarrower(h, lo, lo + window, now - window, now);
    }
  }

  /** A refusal is never early: the window it falls in is full. */
  lemma RefusedOnlyWhenFull(times: seq<real>, limit: int, window: real, now: real)
    requires Monotone(times + [now]) && window >= 0.0 && limit >= 0
    requires !HitBucket(Bucket(times, limit, window), limit, window, now).1
    ensures Within(History(times, limit, window), now - window, now) == limit
  {
    hide History, Within, Bucket, HitBucket, Recent, Monotone;
    SameVerdict(times, limit, window, now);
    EarlierMonotone(times, now);
    SlidingWindowBound(times, limit, window, now - window);
    assert now - window + window == now;
  }

  // ---------------------------------------------------------------- in Redis

  /** A counter with its expiry, as the store holds it. */
  datatype Counter = Counter(count: nat, expires: real)

  /** `SET key 0 EX window NX`, then `INCR key`. */
  function HitCounter(stored: map<string, Counter>, key: string, window: real, now: real): Counter {
    if key in stored && now < stored[key].expires then Counter(stored[key].count + 1, stored[key].expires)
    else Counter(1, now + window)
  }

  class RedisRateLimiter {
    var stored: map<string, Counter>

    constructor ()
      ensures stored == map[]
    {
      stored := map[];
    }

    /** The script runs atomically; an expired key is an absent key. */
    method Hit(key: string, limit: int, window: real, now: real) returns (allowed: bool)
      requires window > 0.0
      modifies this
      ensures stored == old(stored)[key := HitCounter(old(stored), key, window, now)]
      ensures allowed == (stored[key].count <= limit)
    {
      if !(key in stored && now < stored[key].expires) {
        stored := stored[key := Counter(0, now + window)];
      }
      var c := stored[key];
      stored := stored[key := Counter(c.count + 1, c.expires)];
      allowed := c.count + 1 <= limit;
    }
  }

  /** One fixed window: when it began, how often it was hit, and which hits it admitted. */
  datatype Window = Window(start: real, count: nat, admitted: seq<real>)

  function Opened(now: real, limit: int): Window {
    Window(now, 1, if 1 <= limit then [now] else [])
  }

  function Extended(w: Window, now: real, limit: int): Window {
    Window(w.start, w.count + 1, if w.count + 1 <= limit then w.admitted + [now] else w.admitted)
  }

  /** The windows a run of hits on one key opens. */
  function Windows(times: seq<real>, limit: int, window: real): (ws: seq<Window>)
    ensures times != [] ==> ws != []
  {
    if times == [] then []
    else
      AfterHit(Windows(times[..|times| - 1], limit, window), times[|times| - 1], limit, window)
  }

  /** A hit belongs to the last window, or opens a new one once that has ended. */
  function AfterHit(ws: seq<Window>, now: real, limit: int, window: real): (r: seq<Window>)
    ensures r != []
  {
    if ws == [] || ws[|ws| - 1].start + window <= now then ws + [Opened(now, limit)]
    else ws[..|ws| - 1] + [Extended(ws[|ws| - 1], now, limit)]
  }

  /** The store after the same hits. */
  function Store(times: seq<real>, key: string, window: real): map<string, Counter> {
    if times == [] then map[]
    else
      var s := Store(times[..|times| - 1], key, window);
      s[key := HitCounter(s, key, window, times[|times| - 1])]
  }

  /** The stored counter is the last window: its hits, and the moment it ends. */
  lemma {:induction false} StoreIsLastWindow(times: seq<real>, limit: int, key: string, window: real)
    requires times != []
    ensures var ws := Windows(times, limit, window);
            && key in Store(times, key, window)
            && Store(times, key, window)[key] == Counter(ws[|ws| - 1].count, ws[|ws| - 1].start + window)
  {
    var before := times[..|times| - 1];
    if before != [] {
      StoreIsLastWindow(before, limit, key, window);
    }
  }

  function Admissions(ws: seq<Window>, lo: real, hi: real): nat {
    if ws == [] then 0 else Admissions(ws[..|ws| - 1], lo, hi) + InWindow(ws[|ws| - 1].admitted, lo, hi)
  }

  /** How many of `times` lie from `lo` up to but not including `hi`. */
  function InWindow(times: seq<real>, lo: real, hi: real): (n: nat)
    ensures n <= |times|
  {
    if times == [] then 0
    else InWindow(times[..|times| - 1], lo, hi) + if lo <= times[|times| - 1] < hi then 1 else 0
  }

  /** One window: at most `limit` admissions, the first at its start, all before it ends. */
  predicate Sound(w: Window, limit: int, window: real) {
    && w.count >= 1 && |w.admitted| == (if limit <= 0 then 0 else if w.count <= limit then w.count else limit)
    && (w.admitted != [] ==> w.admitted[0] == w.start)
    && forall i :: 0 <= i < |w.admitted| ==> w.start <= w.admitted[i] < w.start + window
  }

  /** The windows of one key follow each other without overlap. */
  ghost predicate WellSpaced(ws: seq<Window>, limit: int, window: real) {
    && (forall w <- ws :: Sound(w, limit, window))
    && forall i, j :: 0 <= i < j < |ws| ==> ws[i].start + window <= ws[j].start
  }

  lemma {:induction false} WindowsWellSpaced(times: seq<real>, limit: int, window: real)
    requires Monotone(times) && window > 0.0
    ensures WellSpaced(Windows(times, limit, window), limit, window)
    ensures times != [] ==> var ws := Windows(times, limit, window); ws[|ws| - 1].start <= times[|times| - 1]
  {
    hide WellSpaced, Sound, Windows, AfterHit;
    if times == [] {
      NoHits(limit, window);
      NoneSpaced(limit, window);
    } else {
      var before, now := times[..|times| - 1], times[|times| - 1];
      assert Monotone(before) && (before == [] || before[|before| - 1] <= now);
      WindowsStep(times, limit, window);
      WindowsWellSpaced(before, limit, window);
      HitKeepsSpacing(Windows(before, limit, window), now, limit, window);
    }
  }

  lemma WindowsStep(times: seq<real>, limit: int, window: real)
    requires times != []
    ensures Windows(times, limit, window)
         == AfterHit(Windows(times[..|times| - 1], limit, window), times[|times| - 1], limit, window)
    ensures times[..|times| - 1] == [] ==> Windows(times[..|times| - 1], limit, window) == []
  {
    hide AfterHit;
  }

  lemma HitKeepsSpacing(ws: seq<Window>, now: real, limit: int, window: real)
    requires WellSpaced(ws, limit, window) && window > 0.0 && (ws != [] ==> ws[|ws| - 1].start <= now)
    ensures var after := AfterHit(ws, now, limit, window);
            WellSpaced(after, limit, window) && after[|after| - 1].start <= now
  {
    hide Sound;
    if ws != [] && now < ws[|ws| - 1].start + window {
      var last := ws[|ws| - 1];
      assert last in ws;
      ExtendedSound(last, now, limit, window);
      LastReplaced(ws, Extended(last, now, limit), limit, window);
    } else {
      OpenedSound(now, limit, window);
      OneMoreWindow(ws, Opened(now, limit), limit, window);
    }
  }

  lemma NoneSpaced(limit: int, window: real)
    ensures WellSpaced([], limit, window)
  {
  }

  lemma OpenedSound(now: real, limit: int, window: real)
    requires window > 0.0
    ensures Sound(Opened(now, limit), limit, window)
  {
  }

  lemma ExtendedSound(w: Window, now: real, limit: int, window: real)
    requires Sound(w, limit, window) && w.start <= now < w.start + window
    ensures Sound(Extended(w, now, limit), limit, window)
  {
  }

  lemma LastReplaced(ws: seq<Window>, w: Window, limit: int, window: real)
    requires WellSpaced(ws, limit, window) && ws != [] && Sound(w, limit, window) && w.start == ws[|ws| - 1].start
    ensures WellSpaced(ws[..|ws| - 1] + [w], limit, window)
  {
    hide Sound;
  }

  lemma OneMoreWindow(ws: seq<Window>, w: Window, limit: int, window: real)
    requires WellSpaced(ws, limit, window) && Sound(w, limit, window) && window > 0.0
    requires ws != [] ==> ws[|ws| - 1].start + window <= w.start
    ensures WellSpaced(ws + [w], limit, window)
  {
    hide Sound;
    var more := ws + [w];
    forall i, j | 0 <= i < j < |more|
      ensures more[i].start + window <= more[j].start
    {
      if j == |ws| && i < |ws| - 1 {
        assert ws[i].start + window <= ws[|ws| - 1].start;
      }
    }
  }

  /** Admissions before an interval do not count in it. */
  lemma {:induction false} NoneBefore(times: seq<real>, lo: real, hi: real)
    requires forall i :: 0 <= i < |times| ==> times[i] < lo
    ensures InWindow(times, lo, hi) == 0
  {
    if times != [] {
      NoneBefore(times[..|times| - 1], lo, hi);
    }
  }

  lemma {:induction false} NoneAfter(times: seq<real>, lo: real, hi: real)
    requires forall i :: 0 <= i < |times| ==> hi <= times[i]
    ensures InWindow(times, lo, hi) == 0
  {
    if times != [] {
      NoneAfter(times[..|times| - 1], lo, hi);
    }
  }

  /** A window that began before the interval has its first admission outside it. */
  lemma {:induction false} FirstOutside(times: seq<real>, lo: real, hi: real)
    requires times != [] && times[0] < lo
    ensures InWindow(times, lo, hi) <= |times| - 1
  {
    if |times| > 1 { FirstOutside(times[..|times| - 1], lo, hi); }
  }

  lemma {:induction false} AllWindowsBefore(ws: seq<Window>, lo: real, hi: real)
    requires forall w <- ws :: forall i :: 0 <= i < |w.admitted| ==> w.admitted[i] < lo
    ensures Admissions(ws, lo, hi) == 0
  {
    if ws != [] {
      assert forall w <- ws[..|ws| - 1] :: w in ws;
      assert ws[|ws| - 1] in ws;
      AllWindowsBefore(ws[..|ws| - 1], lo, hi);
      NoneBefore(ws[|ws| - 1].admitted, lo, hi);
    }
  }

  /** Only the last two of well-spaced windows can reach into an interval the last one reaches into. */
  lemma LastTwoOnly(ws: seq<Window>, limit: int, window: real, lo: real)
    requires WellSpaced(ws, limit, window) && |ws| >= 2 && window > 0.0
    requires ws[|ws| - 1].start < lo + window
    ensures Admissions(ws, lo, lo + window)
         == InWindow(ws[|ws| - 2].admitted, lo, lo + window) + InWindow(ws[|ws| - 1].admitted, lo, lo + window)
  {
    var n := |ws|;
    var early := ws[..n - 2];
    forall w <- early, k | 0 <= k < |w.admitted|
      ensures w.admitted[k] < lo
    {
      var i :| 0 <= i < n - 2 && ws[i] == w;
      assert w in ws && Sound(w, limit, window);
      assert ws[i].start + window <= ws[n - 2].start;
      assert ws[n - 2].start + window <= ws[n - 1].start;
    }
    AllWindowsBefore(early, lo, lo + window);
    assert ws[..n - 1][..n - 2] == early;
  }

  /** The fixed window's own bound: `limit` admissions per window, and between one window and the
      next at most one less than twice that. */
  lemma {:induction false} FixedWindowBound(ws: seq<Window>, limit: int, window: real, lo: real)
    requires WellSpaced(ws, limit, window) && window > 0.0 && limit >= 1
    ensures Admissions(ws, lo, lo + window) <= 2 * limit - 1
  {
    if ws != [] {
      var n := |ws|;
      var last := ws[n - 1];
      assert last in ws && Sound(last, limit, window);
      if lo + window <= last.start {
        assert WellSpaced(ws[..n - 1], limit, window) by { FewerWindows(ws, limit, window); }
        FixedWindowBound(ws[..n - 1], limit, window, lo);
        NoneAfter(last.admitted, lo, lo + window);
      } else if n >= 2 {
        var prior := ws[n - 2];
        assert prior in ws && Sound(prior, limit, window);
        LastTwoOnly(ws, limit, window, lo);
        assert prior.start + window <= last.start;
        FirstOutside(prior.admitted, lo, lo + window);
      } else {
        assert ws[..0] == [];
      }
    }
  }

  lemma FewerWindows(ws: seq<Window>, limit: int, window: real)
    requires WellSpaced(ws, limit, window) && ws != []
    ensures WellSpaced(ws[..|ws| - 1], limit, window)
  {
    hide Sound;
    assert forall w <- ws[..|ws| - 1] :: w in ws;
  }

  lemma {:induction false} NothingAdmitted(ws: seq<Window>, limit: int, window: real, lo: real)
    requires limit < 1 && forall w <- ws :: Sound(w, limit, window)
    ensures Admissions(ws, lo, lo + window) == 0
  {
    if ws != [] {
      assert ws[|ws| - 1] in ws && forall w <- ws[..|ws| - 1] :: w in ws;
      NothingAdmitted(ws[..|ws| - 1], limit, window, lo);
    }
  }

  /** For every run of hits: at most `limit` per window, and fewer than twice `limit` in any interval
      as long as one. */
  lemma RedisBound(times: seq<real>, limit: int, window: real, lo: real)
    requires Monotone(times) && window > 0.0
    ensures forall w <- Windows(times, limit, window) :: |w.admitted| <= if limit < 1 then 0 else limit
    ensures Admissions(Windows(times, limit, window), lo, lo + window) <= if limit < 1 then 0 else 2 * limit - 1
  {
    WindowsWellSpaced(times, limit, window);
    if limit < 1 {
      NothingAdmitted(Windows(times, limit, window), limit, window, lo);
    } else {
      FixedWindowBound(Windows(times, limit, window), limit, window, lo);
    }
  }

  /** `n` hits at the same moment. */
  function Burst(t: real, n: nat): (r: seq<real>)
    ensures |r| == n && forall i :: 0 <= i < n ==> r[i] == t
  {
    if n == 0 then [] else Burst(t, n - 1) + [t]
  }

  /** The worst case: one hit opens a window, the rest of the limit comes in the middle of it, and as soon as it
    ends the whole limit comes again. */
  function Bursts(limit: nat, window: real): seq<real>
    requires limit >= 1
  {
    [0.0] + Burst(window / 2.0, limit - 1) + [window] + Burst(window, limit - 1)
  }

  /** The bound is reached for every limit and every window: within one length of the window, all but one of two
    full limits are admitted. */
  lemma RedisBoundIsReached(limit: nat, window: real)
    requires limit >= 1 && window > 0.0
    ensures Monotone(Bursts(limit, window))
    ensures Admissions(Windows(Bursts(limit, window), limit, window), window / 2.0, window / 2.0 + window) == 2 * limit - 1
  {
    BurstsAscend(limit, window);
    BurstsFill(limit, window);
    hide Windows, Burst, Bursts, Admissions, Monotone;
    CountReached(Window(0.0, limit, [0.0] + Burst(window / 2.0, limit - 1)),
                 Window(window, limit, [window] + Burst(window, limit - 1)), limit, window);
  }

  /** Two windows, both full. */
  lemma BurstsFill(limit: nat, window: real)
    requires limit >= 1 && window > 0.0
    ensures Windows(Bursts(limit, window), limit, window)
         == [Window(0.0, limit, [0.0] + Burst(window / 2.0, limit - 1))]
            + [Window(window, limit, [window] + Burst(window, limit - 1))]
  {
    hide Windows, Burst, AfterHit, Opened;
    var half, n := window / 2.0, limit - 1;
    FirstHit(limit, window);
    BurstFits([0.0], [], Opened(0.0, limit), half, n, limit, window);
    var first := Window(0.0, limit, [0.0] + Burst(half, n));
    var times := [0.0] + Burst(half, n);
    NextWindow(times, first, limit, window);
    BurstFits(times + [window], [first], Opened(window, limit), window, n, limit, window);
  }

  lemma FirstHit(limit: nat, window: real)
    requires limit >= 1
    ensures Windows([0.0], limit, window) == [] + [Opened(0.0, limit)]
    ensures Opened(0.0, limit) == Window(0.0, 1, [0.0]) && Opened(window, limit) == Window(window, 1, [window])
  {
    hide Windows;
    NoHits(limit, window);
    OneHit([], 0.0, limit, window);
    assert [] + [0.0] == [0.0];
  }

  /** A hit at the moment the first window ends opens the second. */
  lemma NextWindow(times: seq<real>, first: Window, limit: nat, window: real)
    requires Windows(times, limit, window) == [] + [first] && first.start == 0.0
    ensures Windows(times + [window], limit, window) == [first] + [Opened(window, limit)]
  {
    hide Windows, Opened;
    assert [] + [first] == [first];
    OneHit(times, window, limit, window);
  }

  lemma BurstsAscend(limit: nat, window: real)
    requires limit >= 1 && window > 0.0
    ensures Monotone(Bursts(limit, window))
  {
    hide Burst;
  }

  lemma NoHits(limit: int, window: real)
    ensures Windows([], limit, window) == []
  {
  }

  lemma OneHit(times: seq<real>, now: real, limit: int, window: real)
    ensures Windows(times + [now], limit, window) == AfterHit(Windows(times, limit, window), now, limit, window)
  {
    hide AfterHit;
    assert (times + [now])[..|times|] == times;
  }

  lemma HitLast(ws: seq<Window>, last: Window, now: real, limit: int, window: real)
    requires now < last.start + window
    ensures AfterHit(ws + [last], now, limit, window) == ws + [Extended(last, now, limit)]
  {
    assert (ws + [last])[..|ws|] == ws;
  }

  /** A burst that fits into the last window is admitted as a whole. */
  lemma {:induction false} BurstFits(times: seq<real>, ws: seq<Window>, w: Window, t: real, n: nat, limit: int, window: real)
    requires Windows(times, limit, window) == ws + [w] && t < w.start + window && w.count + n <= limit
    ensures Windows(times + Burst(t, n), limit, window)
         == ws + [Window(w.start, w.count + n, w.admitted + Burst(t, n))]
  {
    hide Windows, AfterHit;
    if n == 0 {
      assert times + [] == times && w.admitted + [] == w.admitted;
    } else {
      BurstFits(times, ws, w, t, n - 1, limit, window);
      var before := times + Burst(t, n - 1);
      OneHit(before, t, limit, window);
      assert before + [t] == times + Burst(t, n);
      assert w.admitted + Burst(t, n - 1) + [t] == w.admitted + Burst(t, n);
      HitLast(ws, Window(w.start, w.count + n - 1, w.admitted + Burst(t, n - 1)), t, limit, window);
    }
  }

  lemma {:induction false} CountBurst(first: real, t: real, n: nat, lo: real, hi: real)
    ensures InWindow([first] + Burst(t, n), lo, hi)
         == (if lo <= first < hi then 1 else 0) + if lo <= t < hi then n else 0
  {
    if n == 0 {
      assert [first] + [] == [first] && [first][..0] == [];
    } else {
      CountBurst(first, t, n - 1, lo, hi);
      assert ([first] + Burst(t, n))[..n] == [first] + Burst(t, n - 1);
    }
  }

  lemma CountReached(w1: Window, w2: Window, limit: nat, window: real)
    requires limit >= 1 && window > 0.0
    requires w1.admitted == [0.0] + Burst(window / 2.0, limit - 1) && w2.admitted == [window] + Burst(window, limit - 1)
    ensures Admissions([w1] + [w2], window / 2.0, window / 2.0 + window) == 2 * limit - 1
  {
    hide Burst, InWindow;
    var lo, hi := window / 2.0, window / 2.0 + window;
    CountBurst(0.0, lo, limit - 1, lo, hi);
    CountBurst(window, window, limit - 1, lo, hi);
    var ws := [w1] + [w2];
    assert ws[..|ws| - 1] == [w1] && [w1][..0] == [];
    assert Admissions(ws, lo, hi) == Admissions([w1], lo, hi) + InWindow(w2.admitted, lo, hi);
  }
}
