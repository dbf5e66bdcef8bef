/**
 The API's rate limiter: per address, a count and the start of its window, both changed under one
 lock. A run is a list of requests; the clock of a run never goes back.
 */
module RateLimiter {

  /** Instants in nanoseconds. */
  type Instant = int

  const SECOND: int := 1_000_000_000
  const WINDOW: int := 60 * SECOND

  type u32 = x: int | 0 <= x < 0x1_0000_0000

  datatype Entry = Entry(count: u32, start: Instant)

  /** `now.duration_since(then).as_secs()`: zero when `then` is later, otherwise rounded down. */
  function SecondsSince(now: Instant, then_: Instant): nat { if now < then_ then 0 else (now - then_) / SECOND }

  function Kept(counts: map<string, Entry>, now: Instant): map<string, Entry> {
    map k | k in counts && SecondsSince(now, counts[k].start) < 60 :: counts[k]
  }

  /** The entry a request sees: after the sweep, created on demand and reset when a minute old. */
  function Current(counts: map<string, Entry>, ip: string, now: Instant): Entry {
    var kept := Kept(counts, now);
    if ip !in kept then Entry(0, now)
    else if SecondsSince(now, kept[ip].start) >= 60 then Entry(0, now)
    else kept[ip]
  }

  function Checked(counts: map<string, Entry>, maxRequests: u32, ip: string, now: Instant): map<string, Entry> {
    var e := Current(counts, ip, now);
    Kept(counts, now)[ip := if e.count >= maxRequests then e else Entry(e.count + 1, e.start)]
  }

  class Limiter {
    var counts: map<string, Entry>
    const maxRequests: u32

    constructor (maxRequests: u32)
      ensures counts == map[] && this.maxRequests == maxRequests
    {
      counts := map[];
      this.maxRequests := maxRequests;
    }

    method Check(ip: string, now: Instant) returns (allowed: bool)
      modifies this
      ensures counts == Checked(old(counts), maxRequests, ip, now)
      ensures allowed <==> Current(old(counts), ip, now).count < maxRequests
    {
      counts := map k | k in counts && SecondsSince(now, counts[k].start) < 60 :: counts[k];
      if ip !in counts {
        counts := counts[ip := Entry(0, now)];
      }
      // The source resets the entry here; no entry can get past the sweep above.
      if SecondsSince(now, counts[ip].start) >= 60 {
        assert false;
      }
      if counts[ip].count >= maxRequests {
        allowed := false;
      } else {
        counts := counts[ip := Entry(counts[ip].count + 1, counts[ip].start)];
        allowed := true;
      }
    }
  }

  /** The reset after the sweep never happens: what the sweep keeps is less than a minute old. */
  lemma ResetIsUnreachable(counts: map<string, Entry>, ip: string, now: Instant)
    ensures ip in Kept(counts, now) ==> SecondsSince(now, Kept(counts, now)[ip].start) < 60
    ensures Current(counts, ip, now) == if ip in Kept(counts, now) then Kept(counts, now)[ip] else Entry(0, now)
  {
  }

  // ---------------------------------------------------------------------------------------
  // Whole histories
  // ---------------------------------------------------------------------------------------

  datatype Request = Request(ip: string, at: Instant)

  /** One handled request: the window it was counted in and the verdict. */
  datatype Record = Record(ip: string, at: Instant, window: Instant, allowed: bool)

  datatype History = History(counts: map<string, Entry>, log: seq<Record>)

  predicate Monotone(rs: seq<Request>) { forall i, j :: 0 <= i < j < |rs| ==> rs[i].at <= rs[j].at }

  function Handle(h: History, maxRequests: u32, r: Request): History {
    var e := Current(h.counts, r.ip, r.at);
    History(Checked(h.counts, maxRequests, r.ip, r.at),
            h.log + [Record(r.ip, r.at, e.start, e.count < maxRequests)])
  }

  function Replay(rs: seq<Request>, maxRequests: u32): (h: History)
    ensures |h.log| == |rs|
  {
    if rs == [] then History(map[], [])
    else Handle(Replay(rs[..|rs| - 1], maxRequests), maxRequests, rs[|rs| - 1])
  }

  /** Which admitted requests of an address to count. */
  datatype Filter =
    | InWindow(ip: string, w: Instant)
    | InMinute(ip: string, a: Instant)
    | InBoth(ip: string, a: Instant, w: Instant)

  predicate Selects(f: Filter, r: Record) {
    && r.allowed && r.ip == f.ip
    && (f.InMinute? || r.window == f.w)
    && (f.InWindow? || f.a <= r.at < f.a + WINDOW)
  }

  function Count(log: seq<Record>, f: Filter): nat {
    if log == [] then 0
    else Count(log[..|log| - 1], f) + if Selects(f, log[|log| - 1]) then 1 else 0
  }

  predicate InItsWindow(r: Record) { r.window <= r.at < r.window + WINDOW }

  /** Windows of one address are equal or at least a minute apart, the later request in the later one. */
  predicate WindowsDisjoint(log: seq<Record>) {
    forall i, j :: 0 <= i < j < |log| && log[i].ip == log[j].ip ==>
      log[i].window == log[j].window || log[i].window + WINDOW <= log[j].window
  }

  /** The entry of `ip` counts its own window; every other window of `ip` ended before. */
  predicate Tracks(h: History, maxRequests: u32, now: Instant, ip: string) {
    if ip in h.counts then
      var e := h.counts[ip];
      && e.start <= now && (maxRequests > 0 ==> e.count > 0)
      && e.count == Count(h.log, InWindow(ip, e.start))
      && forall i :: 0 <= i < |h.log| && h.log[i].ip == ip ==>
           h.log[i].window == e.start || h.log[i].window + WINDOW <= e.start
    else
      forall i :: 0 <= i < |h.log| && h.log[i].ip == ip ==> h.log[i].window + WINDOW <= now
  }

  /** The window of `ip` that starts at `w` began with an admitted request. */
  predicate OpenedAt(log: seq<Record>, ip: string, w: Instant) {
    exists j :: 0 <= j < |log| && log[j] == Record(ip, w, w, true)
  }

  /** A request is admitted iff its window was not yet full. */
  predicate VerdictsRight(log: seq<Record>, maxRequests: u32) {
    forall i :: 0 <= i < |log| ==>
      (log[i].allowed <==> Count(log[..i], InWindow(log[i].ip, log[i].window)) < maxRequests)
  }

  ghost predicate NoneOverfull(log: seq<Record>, maxRequests: u32) {
    forall ip, w :: Count(log, InWindow(ip, w)) <= maxRequests
  }

  ghost predicate UsedMeansOpened(log: seq<Record>) {
    forall ip, w :: Count(log, InWindow(ip, w)) > 0 ==> OpenedAt(log, ip, w)
  }

  predicate AllInTheirWindows(log: seq<Record>) {
    forall i :: 0 <= i < |log| ==> InItsWindow(log[i])
  }

  ghost predicate Consistent(h: History, maxRequests: u32, now: Instant) {
    && AllInTheirWindows(h.log)
    && (forall ip :: Tracks(h, maxRequests, now, ip))
    && WindowsDisjoint(h.log)
    && NoneOverfull(h.log, maxRequests)
    && UsedMeansOpened(h.log)
  }

  lemma CountNone(log: seq<Record>, p: Filter)
    requires forall i :: 0 <= i < |log| ==> !Selects(p, log[i])
    ensures Count(log, p) == 0
  {
  }

  lemma {:induction false} CountAppend(log: seq<Record>, r: Record, p: Filter)
    ensures Count(log + [r], p) == Count(log, p) + if Selects(p, r) then 1 else 0
  {
    assert (log + [r])[..|log|] == log;
  }

  lemma Minutes(now: Instant, start: Instant)
    requires start <= now
    ensures SecondsSince(now, start) < 60 <==> now < start + WINDOW
  {
  }

  /** The entry a request meets counts exactly what its window admitted so far. */
  lemma CurrentCounts(h: History, maxRequests: u32, r: Request, now: Instant)
    requires Tracks(h, maxRequests, now, r.ip) && now <= r.at
    ensures var e := Current(h.counts, r.ip, r.at);
            && e.start <= r.at < e.start + WINDOW
            && e.count == Count(h.log, InWindow(r.ip, e.start))
            && (forall i :: 0 <= i < |h.log| && h.log[i].ip == r.ip ==>
                  h.log[i].window == e.start || h.log[i].window + WINDOW <= e.start)
            && ((maxRequests > 0 && e.count > 0) || e == Entry(0, r.at) || maxRequests == 0)
  {
    if r.ip in h.counts {
      Minutes(r.at, h.counts[r.ip].start);
    }
    if r.ip !in Kept(h.counts, r.at) {
      CountNone(h.log, InWindow(r.ip, r.at));
    }
  }

  lemma TracksOthers(h: History, maxRequests: u32, r: Request, now: Instant, ip: string)
    requires Tracks(h, maxRequests, now, ip) && now <= r.at && ip != r.ip
    ensures Tracks(Handle(h, maxRequests, r), maxRequests, r.at, ip)
  {
    var h' := Handle(h, maxRequests, r);
    if ip in h.counts {
      Minutes(r.at, h.counts[ip].start);
      CountAppend(h.log, h'.log[|h.log|], InWindow(ip, h.counts[ip].start));
    }
  }

  lemma TracksOwn(h: History, maxRequests: u32, r: Request, now: Instant)
    requires Tracks(h, maxRequests, now, r.ip) && now <= r.at
    ensures Tracks(Handle(h, maxRequests, r), maxRequests, r.at, r.ip)
  {
    var h' := Handle(h, maxRequests, r);
    CurrentCounts(h, maxRequests, r, now);
    CountAppend(h.log, h'.log[|h.log|], InWindow(r.ip, Current(h.counts, r.ip, r.at).start));
  }

  lemma OverfullKept(h: History, maxRequests: u32, r: Request, now: Instant)
    requires Tracks(h, maxRequests, now, r.ip) && now <= r.at && NoneOverfull(h.log, maxRequests)
    ensures NoneOverfull(Handle(h, maxRequests, r).log, maxRequests)
  {
    var h' := Handle(h, maxRequests, r);
    CurrentCounts(h, maxRequests, r, now);
    forall ip, w
      ensures Count(h'.log, InWindow(ip, w)) <= maxRequests
    {
      CountAppend(h.log, h'.log[|h.log|], InWindow(ip, w));
    }
  }

  lemma VerdictsKept(h: History, maxRequests: u32, r: Request, now: Instant)
    requires Tracks(h, maxRequests, now, r.ip) && now <= r.at && VerdictsRight(h.log, maxRequests)
    ensures VerdictsRight(Handle(h, maxRequests, r).log, maxRequests)
  {
    var log := Handle(h, maxRequests, r).log;
    CurrentCounts(h, maxRequests, r, now);
    forall i | 0 <= i < |log|
      ensures log[i].allowed <==> Count(log[..i], InWindow(log[i].ip, log[i].window)) < maxRequests
    {
      assert log[..i] == h.log[..i];
      assert h.log[..|h.log|] == h.log;
    }
  }

  lemma OpeningsKept(h: History, maxRequests: u32, r: Request, now: Instant)
    requires Tracks(h, maxRequests, now, r.ip) && now <= r.at && UsedMeansOpened(h.log)
    ensures UsedMeansOpened(Handle(h, maxRequests, r).log)
  {
    var e := Current(h.counts, r.ip, r.at);
    var log := Handle(h, maxRequests, r).log;
    CurrentCounts(h, maxRequests, r, now);
    forall ip, w | Count(log, InWindow(ip, w)) > 0
      ensures OpenedAt(log, ip, w)
    {
      CountAppend(h.log, log[|h.log|], InWindow(ip, w));
      if Count(h.log, InWindow(ip, w)) > 0 {
        assert OpenedAt(h.log, ip, w);
        var j :| 0 <= j < |h.log| && h.log[j] == Record(ip, w, w, true);
        assert log[j] == h.log[j];
      } else {
        assert log[|h.log|] == Record(ip, w, w, true);
      }
    }
  }

  lemma HandleConsistent(h: History, maxRequests: u32, r: Request, now: Instant)
    requires Consistent(h, maxRequests, now) && now <= r.at
    ensures Consistent(Handle(h, maxRequests, r), maxRequests, r.at)
  {
    CurrentCounts(h, maxRequests, r, now);
    OverfullKept(h, maxRequests, r, now);
    OpeningsKept(h, maxRequests, r, now);
    forall ip
      ensures Tracks(Handle(h, maxRequests, r), maxRequests, r.at, ip)
    {
      if ip == r.ip {
        TracksOwn(h, maxRequests, r, now);
      } else {
        TracksOthers(h, maxRequests, r, now, ip);
      }
    }
  }

  function LastTime(rs: seq<Request>): Instant { if rs == [] then 0 else rs[|rs| - 1].at }

  lemma {:induction false} ReplayConsistent(rs: seq<Request>, maxRequests: u32)
    requires Monotone(rs)
    ensures Consistent(Replay(rs, maxRequests), maxRequests, LastTime(rs))
  {
    if rs != [] {
      var r := rs[|rs| - 1];
      ReplayConsistent(rs[..|rs| - 1], maxRequests);
      if |rs| == 1 {
        EmptyConsistent(maxRequests, r.at);
        HandleConsistent(History(map[], []), maxRequests, r, r.at);
      } else {
        HandleConsistent(Replay(rs[..|rs| - 1], maxRequests), maxRequests, r, rs[|rs| - 2].at);
      }
    }
  }

  lemma EmptyConsistent(maxRequests: u32, now: Instant)
    ensures Consistent(History(map[], []), maxRequests, now)
  {
  }

  lemma {:induction false} VerdictsAlways(rs: seq<Request>, maxRequests: u32)
    requires Monotone(rs)
    ensures VerdictsRight(Replay(rs, maxRequests).log, maxRequests)
  {
    if rs != [] {
      var before, r := rs[..|rs| - 1], rs[|rs| - 1];
      VerdictsAlways(before, maxRequests);
      ReplayConsistent(before, maxRequests);
      if before == [] {
        VerdictsKept(History(map[], []), maxRequests, r, r.at);
      } else {
        VerdictsKept(Replay(before, maxRequests), maxRequests, r, LastTime(before));
      }
    }
  }

  /** On every history with a monotone clock: what the limiter promises of its own windows. */
  lemma WindowsRespected(rs: seq<Request>, maxRequests: u32)
    requires Monotone(rs)
    ensures var log := Replay(rs, maxRequests).log;
            && AllInTheirWindows(log) && WindowsDisjoint(log)
            && VerdictsRight(log, maxRequests) && NoneOverfull(log, maxRequests)
  {
    ReplayConsistent(rs, maxRequests);
    VerdictsAlways(rs, maxRequests);
  }

  // ---------------------------------------------------------------------------------------
  // Any minute, aligned to the windows or not
  // ---------------------------------------------------------------------------------------

  lemma {:induction false} CountSplit(log: seq<Record>, p: Filter, q1: Filter, q2: Filter)
    requires forall i :: 0 <= i < |log| && Selects(p, log[i]) ==> Selects(q1, log[i]) || Selects(q2, log[i])
    ensures Count(log, p) <= Count(log, q1) + Count(log, q2)
  {
    if log != [] {
      CountSplit(log[..|log| - 1], p, q1, q2);
    }
  }

  lemma {:induction false} CountLess(log: seq<Record>, p: Filter, q: Filter)
    requires forall i :: 0 <= i < |log| && Selects(p, log[i]) ==> Selects(q, log[i])
    ensures Count(log, p) <= Count(log, q)
    ensures (exists i :: 0 <= i < |log| && Selects(q, log[i]) && !Selects(p, log[i])) ==> Count(log, p) < Count(log, q)
  {
    if log != [] {
      CountLess(log[..|log| - 1], p, q);
    }
  }

  /** A minute that touches two windows starts after the earlier one was opened. */
  lemma EarlierWindowNotWhole(log: seq<Record>, maxRequests: u32, ip: string, a: Instant, i: nat, j: nat)
    requires i < j < |log| && Selects(InMinute(ip, a), log[i]) && Selects(InMinute(ip, a), log[j])
    requires log[i].window + WINDOW <= log[j].window <= log[j].at
    requires OpenedAt(log, ip, log[i].window) && Count(log, InWindow(ip, log[i].window)) <= maxRequests
    ensures Count(log, InBoth(ip, a, log[i].window)) < maxRequests
  {
    var w := log[i].window;
    var o :| 0 <= o < |log| && log[o] == Record(ip, w, w, true);
    assert Selects(InWindow(ip, w), log[o]) && !Selects(InBoth(ip, a, w), log[o]);
    CountLess(log, InBoth(ip, a, w), InWindow(ip, w));
  }

  lemma NoThirdWindow(log: seq<Record>, ip: string, a: Instant, i: nat, k: nat, j: nat)
    requires WindowsDisjoint(log) && AllInTheirWindows(log) && i <= k <= j < |log|
    requires Selects(InMinute(ip, a), log[i]) && Selects(InMinute(ip, a), log[k]) && Selects(InMinute(ip, a), log[j])
    ensures log[k].window == log[i].window || log[k].window == log[j].window
  {
    assert InItsWindow(log[i]) && InItsWindow(log[j]);
  }

  /** All admissions of a minute lie between the `i`-th and the `j`-th record. */
  predicate Spanned(log: seq<Record>, ip: string, a: Instant, i: nat, j: nat) {
    && i <= j < |log| && Selects(InMinute(ip, a), log[i]) && Selects(InMinute(ip, a), log[j])
    && forall k :: 0 <= k < |log| && Selects(InMinute(ip, a), log[k]) ==> i <= k <= j
  }

  lemma InOneOfTwo(log: seq<Record>, ip: string, a: Instant, i: nat, j: nat, k: nat)
    requires WindowsDisjoint(log) && AllInTheirWindows(log) && Spanned(log, ip, a, i, j)
    requires k < |log| && Selects(InMinute(ip, a), log[k])
    ensures Selects(InBoth(ip, a, log[i].window), log[k]) || Selects(InBoth(ip, a, log[j].window), log[k])
  {
    NoThirdWindow(log, ip, a, i, k, j);
  }

  /** Between the first and the last admission of a minute no third window fits. */
  lemma TwoWindows(log: seq<Record>, ip: string, a: Instant, i: nat, j: nat)
    requires WindowsDisjoint(log) && AllInTheirWindows(log) && Spanned(log, ip, a, i, j)
    ensures Count(log, InMinute(ip, a))
            <= Count(log, InBoth(ip, a, log[i].window)) + Count(log, InBoth(ip, a, log[j].window))
  {
    var p, q1, q2 := InMinute(ip, a), InBoth(ip, a, log[i].window), InBoth(ip, a, log[j].window);
    forall k | 0 <= k < |log| && Selects(p, log[k])
      ensures Selects(q1, log[k]) || Selects(q2, log[k])
    {
      InOneOfTwo(log, ip, a, i, j, k);
    }
    CountSplit(log, p, q1, q2);
  }

  lemma FirstAndLast(log: seq<Record>, ip: string, a: Instant) returns (i: nat, j: nat)
    requires Count(log, InMinute(ip, a)) > 0
    ensures Spanned(log, ip, a, i, j)
  {
    i := FirstOf(log, InMinute(ip, a));
    j := LastOf(log, InMinute(ip, a));
  }

  lemma MinuteBoundInLog(log: seq<Record>, maxRequests: u32, ip: string, a: Instant)
    requires WindowsDisjoint(log) && NoneOverfull(log, maxRequests) && maxRequests > 0
    requires AllInTheirWindows(log) && UsedMeansOpened(log)
    ensures Count(log, InMinute(ip, a)) <= 2 * maxRequests - 1
  {
    var p := InMinute(ip, a);
    if Count(log, p) > 0 {
      var i, j := FirstAndLast(log, ip, a);
      var first, last := InWindow(ip, log[i].window), InWindow(ip, log[j].window);
      if log[i].window == log[j].window {
        forall k | 0 <= k < |log| && Selects(p, log[k])
          ensures Selects(first, log[k])
        {
          InOneOfTwo(log, ip, a, i, j, k);
        }
        CountLess(log, p, first);
      } else {
        assert InItsWindow(log[j]);
        TwoWindows(log, ip, a, i, j);
        CountPositive(log, first, i);
        EarlierWindowNotWhole(log, maxRequests, ip, a, i, j);
        CountLess(log, InBoth(ip, a, log[j].window), last);
      }
    }
  }

  /** A limit of zero admits nothing. */
  lemma {:induction false} ZeroAdmitsNothing(rs: seq<Request>)
    ensures forall i :: 0 <= i < |rs| ==> !Replay(rs, 0).log[i].allowed
  {
    if rs != [] {
      ZeroAdmitsNothing(rs[..|rs| - 1]);
    }
  }

  /** The most requests of one address that any minute of any history admits. */
  function MostPerMinute(maxRequests: u32): nat { if maxRequests == 0 then 0 else 2 * maxRequests - 1 }

  /** On every history, any minute admits at most that many requests of one address. */
  lemma MinuteBound(rs: seq<Request>, maxRequests: u32, ip: string, a: Instant)
    requires Monotone(rs)
    ensures Count(Replay(rs, maxRequests).log, InMinute(ip, a)) <= MostPerMinute(maxRequests)
  {
    if maxRequests == 0 {
      ZeroAdmitsNothing(rs);
      CountNone(Replay(rs, 0).log, InMinute(ip, a));
    } else {
      ReplayConsistent(rs, maxRequests);
      MinuteBoundInLog(Replay(rs, maxRequests).log, maxRequests, ip, a);
    }
  }

  lemma {:induction false} FirstOf(log: seq<Record>, p: Filter) returns (k: nat)
    requires Count(log, p) > 0
    ensures k < |log| && Selects(p, log[k]) && forall i :: 0 <= i < k ==> !Selects(p, log[i])
  {
    if Count(log[..|log| - 1], p) > 0 {
      k := FirstOf(log[..|log| - 1], p);
    } else {
      k := |log| - 1;
      forall i | 0 <= i < k && Selects(p, log[i])
        ensures false
      {
        CountPositive(log[..k], p, i);
      }
    }
  }

  lemma {:induction false} LastOf(log: seq<Record>, p: Filter) returns (k: nat)
    requires Count(log, p) > 0
    ensures k < |log| && Selects(p, log[k]) && forall i :: k < i < |log| ==> !Selects(p, log[i])
  {
    if Selects(p, log[|log| - 1]) {
      k := |log| - 1;
    } else {
      k := LastOf(log[..|log| - 1], p);
    }
  }

  lemma {:induction false} CountPositive(log: seq<Record>, p: Filter, i: nat)
    requires i < |log| && Selects(p, log[i])
    ensures Count(log, p) > 0
  {
    if i < |log| - 1 {
      CountPositive(log[..|log| - 1], p, i);
    }
  }

  // ---------------------------------------------------------------------------------------
  // The bound is reached
  // ---------------------------------------------------------------------------------------

  function Times(ip: string, at: Instant, n: nat): seq<Request> { seq(n, _ => Request(ip, at)) }

  /** One request at 0 s and the rest of the window's quota at 59 s. */
  function Quota(ip: string, maxRequests: u32): (rs: seq<Request>)
    ensures Monotone(rs) && forall i :: 0 <= i < |rs| ==> rs[i].at <= WINDOW
  {
    if maxRequests == 0 then [] else Times(ip, 0, 1) + Times(ip, 59 * SECOND, maxRequests - 1)
  }

  /** Then a whole quota at 60 s. */
  function Burst(ip: string, maxRequests: u32): (rs: seq<Request>)
    ensures Monotone(rs)
  {
    Quota(ip, maxRequests) + Times(ip, WINDOW, maxRequests)
  }

  lemma Admission(h: History, maxRequests: u32, ip: string, at: Instant)
    requires Current(h.counts, ip, at).count < maxRequests
    ensures var e := Current(h.counts, ip, at);
            var h' := Handle(h, maxRequests, Request(ip, at));
            && h'.log == h.log + [Record(ip, at, e.start, true)]
            && ip in h'.counts && h'.counts[ip] == Entry(e.count + 1, e.start)
  {
  }

  /** An entry less than a minute old is the one a request sees. */
  lemma StillCurrent(counts: map<string, Entry>, ip: string, at: Instant)
    requires ip in counts && counts[ip].start <= at < counts[ip].start + WINDOW
    ensures Current(counts, ip, at) == counts[ip]
  {
    Minutes(at, counts[ip].start);
  }

  /** `h'` has admitted `n` more requests of `ip` than `h` in the minute from `a`, all in the window it was in. */
  predicate Admitted(h: History, h': History, ip: string, at: Instant, a: Instant, n: nat) {
    var e, e' := Current(h.counts, ip, at), Current(h'.counts, ip, at);
    && e'.start == e.start && e'.count == e.count + n
    && (n > 0 ==> ip in h'.counts && h'.counts[ip] == e')
    && Count(h'.log, InMinute(ip, a)) == Count(h.log, InMinute(ip, a)) + n
  }

  /** The entry that a request of `ip` at `at` meets is less than a minute old. */
  predicate Open(h: History, ip: string, at: Instant) {
    var e := Current(h.counts, ip, at);
    e.start <= at < e.start + WINDOW
  }

  /** One more request of `ip` inside its window and its quota. */
  lemma OneMore(h: History, maxRequests: u32, ip: string, at: Instant, a: Instant)
    requires Current(h.counts, ip, at).count < maxRequests && Open(h, ip, at) && a <= at < a + WINDOW
    ensures Admitted(h, Handle(h, maxRequests, Request(ip, at)), ip, at, a, 1)
  {
    var h' := Handle(h, maxRequests, Request(ip, at));
    Admission(h, maxRequests, ip, at);
    StillCurrent(h'.counts, ip, at);
    CountAppend(h.log, Record(ip, at, Current(h.counts, ip, at).start, true), InMinute(ip, a));
  }

  function Again(h: History, maxRequests: u32, r: Request, n: nat): History {
    if n == 0 then h else Handle(Again(h, maxRequests, r, n - 1), maxRequests, r)
  }

  lemma ReplayNext(rs: seq<Request>, maxRequests: u32, r: Request)
    ensures Replay(rs + [r], maxRequests) == Handle(Replay(rs, maxRequests), maxRequests, r)
  {
    assert (rs + [r])[..|rs|] == rs;
  }

  lemma {:induction false} ReplayTimes(rs: seq<Request>, maxRequests: u32, ip: string, at: Instant, n: nat)
    ensures Replay(rs + Times(ip, at, n), maxRequests) ==
            Again(Replay(rs, maxRequests), maxRequests, Request(ip, at), n)
  {
    if n == 0 {
      assert rs + Times(ip, at, n) == rs;
    } else {
      ReplayTimes(rs, maxRequests, ip, at, n - 1);
      ReplayNext(rs + Times(ip, at, n - 1), maxRequests, Request(ip, at));
      assert rs + Times(ip, at, n) == (rs + Times(ip, at, n - 1)) + [Request(ip, at)];
    }
  }

  lemma AdmittedNext(h: History, h': History, h'': History, ip: string, at: Instant, a: Instant, n: nat)
    requires Admitted(h, h', ip, at, a, n) && Admitted(h', h'', ip, at, a, 1)
    ensures Admitted(h, h'', ip, at, a, n + 1)
  {
  }

  /** `n` more requests of `ip` at one instant, all inside its window and its quota. */
  lemma {:induction false} Repeats(h: History, maxRequests: u32, ip: string, at: Instant, n: nat, a: Instant)
    requires Current(h.counts, ip, at).count + n <= maxRequests && Open(h, ip, at) && a <= at < a + WINDOW
    ensures Admitted(h, Again(h, maxRequests, Request(ip, at), n), ip, at, a, n)
  {
    if n > 0 {
      var before := Again(h, maxRequests, Request(ip, at), n - 1);
      Repeats(h, maxRequests, ip, at, n - 1, a);
      OneMore(before, maxRequests, ip, at, a);
      AdmittedNext(h, before, Handle(before, maxRequests, Request(ip, at)), ip, at, a, n - 1);
    }
  }

  /** A window that ended leaves nothing behind: the next request starts a new one. */
  lemma FreshWindow(h: History, ip: string, at: Instant)
    requires ip in h.counts ==> h.counts[ip].start + WINDOW <= at
    ensures Current(h.counts, ip, at) == Entry(0, at)
  {
    if ip in h.counts {
      Minutes(at, h.counts[ip].start);
    }
  }

  lemma FirstRequest(ip: string, maxRequests: u32)
    requires maxRequests > 0
    ensures Replay(Times(ip, 0, 1), maxRequests) == History(map[ip := Entry(1, 0)], [Record(ip, 0, 0, true)])
  {
    ReplayNext([], maxRequests, Request(ip, 0));
    assert Times(ip, 0, 1) == [] + [Request(ip, 0)];
  }

  /** The first request, and the rest of its window's quota 59 s later. */
  lemma FirstQuota(ip: string, maxRequests: u32)
    requires maxRequests > 0
    ensures var h := Replay(Quota(ip, maxRequests), maxRequests);
            && Count(h.log, InMinute(ip, 59 * SECOND)) == maxRequests - 1
            && ip in h.counts && h.counts[ip].start == 0
  {
    var a := 59 * SECOND;
    var h := Replay(Times(ip, 0, 1), maxRequests);
    FirstRequest(ip, maxRequests);
    StillCurrent(h.counts, ip, a);
    CountNone(h.log, InMinute(ip, a));
    ReplayTimes(Times(ip, 0, 1), maxRequests, ip, a, maxRequests - 1);
    Repeats(h, maxRequests, ip, a, maxRequests - 1, a);
  }

  /** For every quota there is a history that admits the most in one minute. */
  lemma MinuteBoundIsReached(ip: string, maxRequests: u32)
    ensures Monotone(Burst(ip, maxRequests))
    ensures Count(Replay(Burst(ip, maxRequests), maxRequests).log, InMinute(ip, 59 * SECOND)) ==
            MostPerMinute(maxRequests)
  {
    if maxRequests == 0 {
      MinuteBound(Burst(ip, 0), 0, ip, 59 * SECOND);
    } else {
      var two := Quota(ip, maxRequests);
      FirstQuota(ip, maxRequests);
      FreshWindow(Replay(two, maxRequests), ip, WINDOW);
      ReplayTimes(two, maxRequests, ip, WINDOW, maxRequests);
      Repeats(Replay(two, maxRequests), maxRequests, ip, WINDOW, maxRequests, 59 * SECOND);
    }
  }

  // ---------------------------------------------------------------------------------------
  // The documented limit
  // ---------------------------------------------------------------------------------------

  /** No minute of any history admits more than the limit: what "maximum requests per minute" says. */
  ghost predicate PerMinute(maxRequests: u32) {
    forall rs, ip, a | Monotone(rs) :: Count(Replay(rs, maxRequests).log, InMinute(ip, a)) <= maxRequests
  }

  /** The documented limit holds exactly for the limits 0 and 1. */
  lemma PerMinuteIff(maxRequests: u32)
    ensures PerMinute(maxRequests) <==> maxRequests <= 1
  {
    if maxRequests <= 1 {
      forall rs, ip, a | Monotone(rs)
        ensures Count(Replay(rs, maxRequests).log, InMinute(ip, a)) <= maxRequests
      {
        MinuteBound(rs, maxRequests, ip, a);
      }
    } else {
      MinuteBoundIsReached("", maxRequests);
      assert Count(Replay(Burst("", maxRequests), maxRequests).log, InMinute("", 59 * SECOND)) > maxRequests;
    }
  }

  /** A limit of 2 admits three requests between 59 s and 119 s when they come at 0, 59, 60 and 60 s. */
  lemma LimitOfTwoFails()
    ensures Burst("a", 2) == [Request("a", 0), Request("a", 59 * SECOND), Request("a", WINDOW), Request("a", WINDOW)]
    ensures Count(Replay(Burst("a", 2), 2).log, InMinute("a", 59 * SECOND)) == 3
  {
    MinuteBoundIsReached("a", 2);
  }
}
