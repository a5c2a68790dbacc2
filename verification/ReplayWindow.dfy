/** Request authentication on the LAN side: the clock window and the replay cache.
    The source reads the clock first and enters the section that owns the cache later. A run is the list of
    those sections in their order; `now` is the clock value each one brought along, so clock values need not
    be in order. Times are nanoseconds. HMAC validity is an input: signatures are taken as unforgeable. */
module ReplayWindow {
  import opened Wrappers

  const NONCE_CACHE_MAX := 200000
  const NONCE_LENGTH := 32
  const MILLISECOND := 1_000_000
  const AUTH_SKEW_LIMIT := 10 * 60 * 1000 * MILLISECOND

  /** What the checks look at: header presence, signature validity, the parsed date (milliseconds), the
      nonce, and for GET and HEAD whether a body was announced. */
  datatype Request = Request(hasHeaders: bool, signatureValid: bool, date: Option<int>, nonce: string,
                             isRead: bool, announcesBody: bool)

  datatype Verdict =
    | Accepted
    | Unsigned
    | BadSignature
    | BadDate
    | ClockSkew
    | BadNonce
    | Replayed
    | TooMany
    | UnexpectedBody

  type Cache = map<string, int>

  predicate WithinSkew(date: int, now: int) {
    -AUTH_SKEW_LIMIT <= now - date * MILLISECOND <= AUTH_SKEW_LIMIT
  }

  /** Entries at least as young as the cutoff. */
  function Evict(cache: Cache, cutoff: int): (kept: Cache)
    ensures kept.Keys <= cache.Keys
  {
    map n | n in cache && cache[n] >= cutoff :: cache[n]
  }

  /** The cache as it is when a new nonce is about to be recorded: pruned only when full. */
  function MakeRoom(cache: Cache, now: int): Cache {
    if |cache| >= NONCE_CACHE_MAX then Evict(cache, now - 2 * AUTH_SKEW_LIMIT) else cache
  }

  /** The nonce check: the new cache, and the verdict unless the nonce was fresh. */
  function UseNonce(cache: Cache, nonce: string, now: int): (Cache, Option<Verdict>) {
    if |nonce| != NONCE_LENGTH then (cache, Some(BadNonce))
    else if nonce in cache then (cache, Some(Replayed))
    else
      var room := MakeRoom(cache, now);
      if |room| >= NONCE_CACHE_MAX then (room, Some(TooMany)) else (room[nonce := now], None)
  }

  /** All checks of one request, in the source's order. */
  function Check(cache: Cache, r: Request, now: int): (Cache, Verdict) {
    if !r.hasHeaders then (cache, Unsigned)
    else if !r.signatureValid then (cache, BadSignature)
    else if r.date.None? then (cache, BadDate)
    else if !WithinSkew(r.date.value, now) then (cache, ClockSkew)
    else
      var (cache', refusal) := UseNonce(cache, r.nonce, now);
      if refusal.Some? then (cache', refusal.value)
      else (cache', if r.isRead && r.announcesBody then UnexpectedBody else Accepted)
  }

  // ---- whole runs ----

  datatype Event = Event(request: Request, now: int)

  function CacheAfter(events: seq<Event>): Cache {
    if events == [] then map[]
    else
      var last := events[|events| - 1];
      Check(CacheAfter(events[..|events| - 1]), last.request, last.now).0
  }

  /** The verdict on the request of step `k`. */
  function VerdictAt(events: seq<Event>, k: nat): Verdict
    requires k < |events|
  {
    Check(CacheAfter(events[..k]), events[k].request, events[k].now).1
  }

  /** The request of step `k` got past the nonce check. */
  predicate Spent(events: seq<Event>, k: nat)
    requires k < |events|
  {
    LetsPass(VerdictAt(events, k))
  }

  /** Clock reads are in the order of the sections. */
  ghost predicate ClockRunsForward(events: seq<Event>) {
    ClockOffBy(events, 0)
  }

  /** A clock read is at most `gap` ahead of that of any later section. */
  ghost predicate ClockOffBy(events: seq<Event>, gap: nat) {
    forall i, j | 0 <= i < j < |events| :: events[i].now <= events[j].now + gap
  }

  /** A section between the two steps brought a clock value more than twice the skew limit past step `i`. */
  ghost predicate LateClockBetween(events: seq<Event>, i: nat, k: nat)
    requires k <= |events|
  {
    exists m | i < m < k :: events[m].now > events[i].now + 2 * AUTH_SKEW_LIMIT
  }

  /** After `k` steps, the nonce spent in step `i` is still remembered, unless a late clock came between. */
  ghost predicate Remembered(events: seq<Event>, i: nat, k: nat)
    requires i < k <= |events|
  {
    var cache, n := CacheAfter(events[..k]), events[i].request.nonce;
    (n in cache && cache[n] == events[i].now) || LateClockBetween(events, i, k)
  }

  lemma StepUnfolds(events: seq<Event>, k: nat)
    requires k < |events|
    ensures CacheAfter(events[..k + 1]) == Check(CacheAfter(events[..k]), events[k].request, events[k].now).0
  {
    assert events[..k + 1][..k] == events[..k];
  }

  /** One step forgets only entries older than twice the skew limit, and records the nonce it lets pass. */
  lemma StepForgetsOnlyOld(cache: Cache, r: Request, now: int, n: string)
    requires n in cache
    ensures var cache' := Check(cache, r, now).0;
            (n in cache' && cache'[n] == cache[n]) || cache[n] < now - 2 * AUTH_SKEW_LIMIT
  {
  }

  predicate LetsPass(v: Verdict) {
    v == Accepted || v == UnexpectedBody
  }

  lemma StepRecordsWhatPasses(cache: Cache, r: Request, now: int)
    requires LetsPass(Check(cache, r, now).1)
    ensures var cache' := Check(cache, r, now).0;
            r.nonce in cache' && cache'[r.nonce] == now
  {
  }

  /** And it records nothing else. */
  lemma StepRecordsOnlyWhatPasses(cache: Cache, r: Request, now: int, n: string)
    requires n in Check(cache, r, now).0
    ensures var (cache', v) := Check(cache, r, now);
            (n in cache && cache'[n] == cache[n]) || (n == r.nonce && cache'[n] == now && LetsPass(v))
  {
  }

  lemma {:induction false} SpentIsRemembered(events: seq<Event>, i: nat, k: nat)
    requires i < k <= |events| && Spent(events, i)
    ensures Remembered(events, i, k)
    decreases k
  {
    var before, e := CacheAfter(events[..k - 1]), events[k - 1];
    StepUnfolds(events, k - 1);
    if i < k - 1 {
      SpentIsRemembered(events, i, k - 1);
      if events[i].request.nonce in before {
        StepForgetsOnlyOld(before, e.request, e.now, events[i].request.nonce);
      }
    } else {
      StepRecordsWhatPasses(before, e.request, e.now);
    }
  }

  /** In every run, whatever the order of the clock reads: if a request, identified by its date and nonce,
      passes twice, a section between the two brought a clock value later than the second one's. */
  lemma PassingTwiceNeedsLateClock(events: seq<Event>, i: nat, j: nat) returns (m: nat)
    requires i < j < |events| && Spent(events, i) && Spent(events, j)
    requires events[i].request.nonce == events[j].request.nonce && events[i].request.date == events[j].request.date
    ensures i < m < j && events[m].now > events[i].now + 2 * AUTH_SKEW_LIMIT >= events[j].now
  {
    SpentIsRemembered(events, i, j);
    m :| i < m < j && events[m].now > events[i].now + 2 * AUTH_SKEW_LIMIT;
  }

  /** With clock reads in order, a request passes at most once in every run, even though the cache forgets
      entries: whatever it forgets is outside the clock window. */
  lemma AcceptedAtMostOnce(events: seq<Event>, i: nat, j: nat)
    requires ClockRunsForward(events) && i < j < |events|
    requires events[i].request.nonce == events[j].request.nonce && events[i].request.date == events[j].request.date
    requires Spent(events, i)
    ensures !Spent(events, j)
    ensures VerdictAt(events, j) in {Unsigned, BadSignature, ClockSkew, Replayed}
  {
    SpentIsRemembered(events, i, j);
    assert forall m | i < m < j :: events[m].now <= events[j].now;
  }

  /** With clock reads out of order by at most `gap`, a request still passes at most once as long as it is
      not older than the skew limit less the gap when it comes again. */
  lemma AtMostOnceWithinGap(events: seq<Event>, i: nat, j: nat, gap: nat)
    requires ClockOffBy(events, gap) && i < j < |events|
    requires events[i].request.nonce == events[j].request.nonce && events[i].request.date == events[j].request.date
    requires Spent(events, i)
    requires events[j].request.date.Some? ==>
               events[j].now - events[j].request.date.value * MILLISECOND <= AUTH_SKEW_LIMIT - gap
    ensures !Spent(events, j)
  {
    SpentIsRemembered(events, i, j);
    assert forall m | i < m < j :: events[m].now <= events[j].now + gap;
  }

  /** Sections entered within `gap` after their clock read have reads out of order by at most `gap`. */
  lemma ShortGapsBoundDisorder(events: seq<Event>, entered: seq<int>, gap: nat)
    requires |entered| == |events|
    requires forall k | 0 <= k < |events| :: events[k].now <= entered[k] <= events[k].now + gap
    requires forall i, j | 0 <= i < j < |events| :: entered[i] <= entered[j]
    ensures ClockOffBy(events, gap)
  {
    forall i, j | 0 <= i < j < |events| ensures events[i].now <= events[j].now + gap {
      assert entered[i] <= entered[j];
    }
  }

  /** The cache never exceeds its cap. */
  lemma {:induction false} CacheStaysWithinCap(events: seq<Event>)
    ensures |CacheAfter(events)| <= NONCE_CACHE_MAX
  {
    if events != [] {
      var k := |events| - 1;
      CacheStaysWithinCap(events[..k]);
      EvictShrinks(CacheAfter(events[..k]), events[k].now - 2 * AUTH_SKEW_LIMIT);
    }
  }

  /** Every remembered nonce was spent, at the recorded time. */
  lemma {:induction false} EntryWasSpent(events: seq<Event>, k: nat, n: string) returns (i: nat)
    requires k <= |events| && n in CacheAfter(events[..k])
    ensures i < k && Spent(events, i)
    ensures events[i].request.nonce == n && events[i].now == CacheAfter(events[..k])[n]
  {
    var before, e := CacheAfter(events[..k - 1]), events[k - 1];
    StepUnfolds(events, k - 1);
    StepRecordsOnlyWhatPasses(before, e.request, e.now, n);
    if n in before && before[n] == CacheAfter(events[..k])[n] {
      i := EntryWasSpent(events, k - 1, n);
    } else {
      i := k - 1;
    }
  }

  lemma EvictShrinks(cache: Cache, cutoff: int)
    ensures |Evict(cache, cutoff)| <= |cache|
  {
    var kept := Evict(cache, cutoff);
    SubsetIsSmaller(kept.Keys, cache.Keys);
    assert |kept| == |kept.Keys| && |cache| == |cache.Keys|;
  }

  lemma {:induction false} SubsetIsSmaller<T>(a: set<T>, b: set<T>)
    requires a <= b
    ensures |a| <= |b|
  {
    if a != {} {
      var x :| x in a;
      SubsetIsSmaller(a - {x}, b - {x});
    }
  }

  lemma StepRefusesOnlyWhenFull(cache: Cache, r: Request, now: int)
    requires Check(cache, r, now).1 == TooMany && |cache| <= NONCE_CACHE_MAX
    ensures |Evict(cache, now - 2 * AUTH_SKEW_LIMIT).Keys| == NONCE_CACHE_MAX
  {
    var kept := Evict(cache, now - 2 * AUTH_SKEW_LIMIT);
    EvictShrinks(cache, now - 2 * AUTH_SKEW_LIMIT);
    assert |kept| == |kept.Keys|;
  }

  /** Before step `k`, nonce `n` was spent at `since` or later. */
  ghost predicate SpentSince(events: seq<Event>, k: nat, n: string, since: int)
    requires k <= |events|
  {
    exists i | 0 <= i < k :: Spent(events, i) && events[i].request.nonce == n && events[i].now >= since
  }

  /** The cache calls nothing replayed that an unbounded history would not. */
  lemma ReplayRefusalIsJustified(events: seq<Event>, k: nat) returns (i: nat)
    requires k < |events| && VerdictAt(events, k) == Replayed
    ensures i < k && Spent(events, i) && events[i].request.nonce == events[k].request.nonce
  {
    i := EntryWasSpent(events, k, events[k].request.nonce);
  }

  /** A request is refused for lack of room only when a full cache of distinct nonces was spent within
      the last two skew limits. */
  lemma RoomRefusalIsJustified(events: seq<Event>, k: nat) returns (recent: set<string>)
    requires k < |events| && VerdictAt(events, k) == TooMany
    ensures |recent| == NONCE_CACHE_MAX
    ensures forall n | n in recent :: SpentSince(events, k, n, events[k].now - 2 * AUTH_SKEW_LIMIT)
  {
    var cache, cutoff := CacheAfter(events[..k]), events[k].now - 2 * AUTH_SKEW_LIMIT;
    CacheStaysWithinCap(events[..k]);
    StepRefusesOnlyWhenFull(cache, events[k].request, events[k].now);
    recent := Evict(cache, cutoff).Keys;
    forall n | n in recent ensures SpentSince(events, k, n, cutoff) {
      var i := EntryWasSpent(events, k, n);
    }
  }

  // ---- what passes ----

  /** Signed, dated within ten minutes of the clock either way, with a nonce of 32 characters. */
  predicate InOrder(e: Event) {
    && e.request.hasHeaders && e.request.signatureValid && e.request.date.Some? && |e.request.nonce| == 32
    && -600_000_000_000 <= e.now - e.request.date.value * 1_000_000 <= 600_000_000_000
  }

  /** The nonce of step `k` was spent by an earlier step. */
  ghost predicate SpentBefore(events: seq<Event>, k: nat, nonce: string)
    requires k <= |events|
  {
    exists i | 0 <= i < k :: Spent(events, i) && events[i].request.nonce == nonce
  }

  /** What passes, in any run, is in order; what is in order and carries a nonce never spent passes, unless
      the cache is full. Among what passes, only reads that announce a body are turned down later. */
  lemma WhatPasses(events: seq<Event>, k: nat)
    requires k < |events|
    ensures Spent(events, k) ==> InOrder(events[k])
    ensures InOrder(events[k]) && !SpentBefore(events, k, events[k].request.nonce) ==>
              Spent(events, k) || VerdictAt(events, k) == TooMany
    ensures Spent(events, k) ==>
              (VerdictAt(events, k) == UnexpectedBody <==> events[k].request.isRead && events[k].request.announcesBody)
  {
    var nonce := events[k].request.nonce;
    if nonce in CacheAfter(events[..k]) {
      var i := EntryWasSpent(events, k, nonce);
      assert SpentBefore(events, k, nonce);
    }
  }

  /** Why a request is refused: the first of the checks that it fails. */
  lemma WhyRefused(events: seq<Event>, k: nat)
    requires k < |events|
    ensures var (r, v) := (events[k].request, VerdictAt(events, k));
            && (v == Unsigned <==> !r.hasHeaders)
            && (v == BadSignature <==> r.hasHeaders && !r.signatureValid)
            && (v == BadDate <==> r.hasHeaders && r.signatureValid && r.date.None?)
            && (v == ClockSkew ==> r.date.Some? && (events[k].now - r.date.value * 1_000_000 > 600_000_000_000
                                                    || r.date.value * 1_000_000 - events[k].now > 600_000_000_000))
            && (v == BadNonce ==> |r.nonce| != 32)
  {
  }

  lemma {:induction false} OneEntryPerStep(events: seq<Event>)
    ensures |CacheAfter(events)| <= |events|
  {
    if events != [] {
      var k := |events| - 1;
      OneEntryPerStep(events[..k]);
      EvictShrinks(CacheAfter(events[..k]), events[k].now - 2 * AUTH_SKEW_LIMIT);
    }
  }

  /** Until as many requests as the cache holds have come, it forgets nothing. */
  lemma {:induction false} RemembersAllAtFirst(events: seq<Event>, k: nat, i: nat)
    requires i < k <= |events| && k <= 200_000 && Spent(events, i)
    ensures events[i].request.nonce in CacheAfter(events[..k])
    decreases k
  {
    StepUnfolds(events, k - 1);
    OneEntryPerStep(events[..k - 1]);
    if i < k - 1 {
      RemembersAllAtFirst(events, k - 1, i);
    } else {
      StepRecordsWhatPasses(CacheAfter(events[..k - 1]), events[k - 1].request, events[k - 1].now);
    }
  }

  /** Over the first 200000 requests the check is exact, whatever the clock does: a request passes if and only
      if it is in order and its nonce was never spent. */
  lemma ExactAtFirst(events: seq<Event>, k: nat)
    requires k < |events| && k < 200_000
    ensures Spent(events, k) <==> InOrder(events[k]) && !SpentBefore(events, k, events[k].request.nonce)
  {
    var nonce := events[k].request.nonce;
    WhatPasses(events, k);
    OneEntryPerStep(events[..k]);
    if SpentBefore(events, k, nonce) {
      var i :| 0 <= i < k && Spent(events, i) && events[i].request.nonce == nonce;
      RemembersAllAtFirst(events, k, i);
    }
  }

  /** The replay cache as the source keeps it. */
  class ClusterSecurity {
    var nonces: Cache

    constructor ()
      ensures nonces == map[]
    {
      nonces := map[];
    }

    method Prune(cutoff: int)
      modifies this
      ensures nonces == Evict(old(nonces), cutoff)
    {
      var keys := nonces.Keys;
      while keys != {}
        invariant keys <= nonces.Keys
        invariant nonces == map n | n in old(nonces) && (n in keys || old(nonces)[n] >= cutoff) :: old(nonces)[n]
        decreases keys
      {
        var n :| n in keys;
        keys := keys - {n};
        if nonces[n] < cutoff {
          nonces := nonces - {n};
        }
      }
    }

    /** Records a nonce, refusing one already seen inside the window. */
    method RecordNonce(nonce: string, now: int) returns (refusal: Option<Verdict>)
      modifies this
      ensures (nonces, refusal) == UseNonce(old(nonces), nonce, now)
    {
      if |nonce| != NONCE_LENGTH {
        return Some(BadNonce);
      }
      if nonce in nonces {
        return Some(Replayed);
      }
      if |nonces| >= NONCE_CACHE_MAX {
        Prune(now - 2 * AUTH_SKEW_LIMIT);
        if |nonces| >= NONCE_CACHE_MAX {
          return Some(TooMany);
        }
      }
      nonces := nonces[nonce := now];
      refusal := None;
    }

    method Authenticate(r: Request, now: int) returns (verdict: Verdict)
      modifies this
      ensures (nonces, verdict) == Check(old(nonces), r, now)
    {
      if !r.hasHeaders {
        return Unsigned;
      }
      if !r.signatureValid {
        return BadSignature;
      }
      if r.date.None? {
        return BadDate;
      }
      var skew := now - r.date.value * MILLISECOND;
      if skew > AUTH_SKEW_LIMIT || skew < -AUTH_SKEW_LIMIT {
        return ClockSkew;
      }
      var refusal := RecordNonce(r.nonce, now);
      if refusal.Some? {
        return refusal.value;
      }
      if r.isRead && r.announcesBody {
        return UnexpectedBody;
      }
      verdict := Accepted;
    }
  }
}
