/** The fixed-window rate limiter, in memory (Allow and incrementWindow in
    internal/usage/service.go). Refused attempts count too: every check increments
    its counter before it compares. The lock is held for one increment at a time, so
    the increments of different Allow calls interleave; the theorems are about every
    sequence of increments. */
module RateLimit {
  import opened Decimal

  datatype Limits = Limits(enabled: bool, perMinute: int, perHour: int, perDay: int)

  datatype Window = Minute | Hour | Day

  const Windows: seq<Window> := [Minute, Hour, Day]

  function Seconds(w: Window): (n: nat)
    ensures n > 0
  {
    match w
    case Minute => 60
    case Hour => 3600
    case Day => 86400
  }

  function WindowName(w: Window): string {
    match w
    case Minute => "minute"
    case Hour => "hour"
    case Day => "day"
  }

  function LimitIn(l: Limits, w: Window): int {
    match w
    case Minute => l.perMinute
    case Hour => l.perHour
    case Day => l.perDay
  }

  /** Go's integer division, which truncates towards zero. */
  function TruncDiv(t: int, w: nat): int
    requires w > 0
  {
    if t >= 0 then t / w else -((-t) / w)
  }

  /** One call of Allow. readings holds what the clock says at each of the at most
      six increments: token and storage, for minute, hour and day. */
  datatype Call = Call(tokenId: string, limits: Limits, storageId: string, readings: nat -> int)

  datatype Config = Config(prefix: string, defaults: Limits)

  function Effective(cfg: Config, limits: Limits): Limits {
    if limits.enabled then limits else cfg.defaults
  }

  /** The limit that applies in a window; 0 or less means none. */
  function LimitFor(cfg: Config, limits: Limits, w: Window): int {
    var own := LimitIn(Effective(cfg, limits), w);
    if !Effective(cfg, limits).enabled then 0
    else if own > 0 then own
    else if LimitIn(cfg.defaults, w) > 0 then LimitIn(cfg.defaults, w)
    else 0
  }

  // ---- Meters: one counter per token (or token and storage), window and bucket -----------

  datatype Meter = Meter(tokenId: string, storageId: string, window: Window)  // storageId "" for the token itself

  function MeterName(m: Meter): string {
    "rl:" + m.tokenId + (if m.storageId == "" then "" else ":" + m.storageId) + ":" + WindowName(m.window)
  }

  function CounterKey(cfg: Config, m: Meter, bucket: int): string {
    cfg.prefix + ":" + MeterName(m) + ":" + Show(bucket)
  }

  function WindowIndex(w: Window): nat {
    match w
    case Minute => 0
    case Hour => 1
    case Day => 2
  }

  /** The clock reading at which a call passes a meter. */
  function ReadingAt(call: Call, m: Meter): int {
    call.readings(2 * WindowIndex(m.window) + if m.storageId == "" then 0 else 1)
  }

  function BucketAt(call: Call, m: Meter): int {
    TruncDiv(ReadingAt(call, m), Seconds(m.window))
  }

  // ---- Allow as a function ---------------------------------------------------------------

  type Counters = map<string, nat>

  function Count(c: Counters, key: string): nat { if key in c then c[key] else 0 }

  datatype Outcome = Outcome(counters: Counters, ok: bool)

  /** incrementWindow */
  function Pass(cfg: Config, c: Counters, call: Call, m: Meter, limit: int): Outcome {
    var key := CounterKey(cfg, m, BucketAt(call, m));
    var n := Count(c, key) + 1;
    Outcome(c[key := n], n <= limit)
  }

  function TokenMeter(call: Call, w: Window): Meter { Meter(call.tokenId, "", w) }
  function StorageMeter(call: Call, w: Window): Meter { Meter(call.tokenId, call.storageId, w) }

  datatype Check = Check(meter: Meter, limit: int)

  /** What Allow checks in one window: the token and, if there is one, the storage. */
  function WindowChecks(cfg: Config, call: Call, w: Window): seq<Check> {
    var limit := LimitFor(cfg, call.limits, w);
    if limit <= 0 then []
    else if call.storageId == "" then [Check(TokenMeter(call, w), limit)]
    else [Check(TokenMeter(call, w), limit), Check(StorageMeter(call, w), limit)]
  }

  function AllChecks(cfg: Config, call: Call, ws: seq<Window>): seq<Check>
    decreases |ws|
  {
    if ws == [] then [] else WindowChecks(cfg, call, ws[0]) + AllChecks(cfg, call, ws[1..])
  }

  function Checks(cfg: Config, call: Call): seq<Check> { AllChecks(cfg, call, Windows) }

  /** One check after the other, up to the first that fails. */
  function RunChecks(cfg: Config, c: Counters, call: Call, checks: seq<Check>): Outcome
    decreases |checks|
  {
    if checks == [] then Outcome(c, true) else
      var r := Pass(cfg, c, call, checks[0].meter, checks[0].limit);
      if r.ok then RunChecks(cfg, r.counters, call, checks[1..]) else r
  }

  lemma FirstOfTwo(first: seq<Check>, second: seq<Check>)
    requires first != []
    ensures first + second != [] && (first + second)[0] == first[0] && (first + second)[1..] == first[1..] + second
  {
  }

  lemma {:induction false} RunInTwo(cfg: Config, c: Counters, call: Call, first: seq<Check>, second: seq<Check>)
    ensures var r := RunChecks(cfg, c, call, first);
            RunChecks(cfg, c, call, first + second) == if r.ok then RunChecks(cfg, r.counters, call, second) else r
    decreases |first|
  {
    if first == [] {
      assert first + second == second;
    } else {
      var r := Pass(cfg, c, call, first[0].meter, first[0].limit);
      RunInTwo(cfg, r.counters, call, first[1..], second);
      FirstOfTwo(first, second);
    }
  }

  lemma RunOneOrTwo(cfg: Config, c: Counters, call: Call, x: Check, y: Check)
    ensures RunChecks(cfg, c, call, [x]) == Pass(cfg, c, call, x.meter, x.limit)
    ensures var r := Pass(cfg, c, call, x.meter, x.limit);
            RunChecks(cfg, c, call, [x, y]) == if r.ok then Pass(cfg, r.counters, call, y.meter, y.limit) else r
  {
    var r := Pass(cfg, c, call, x.meter, x.limit);
    assert [x][1..] == [] && [x, y][1..] == [y] && [y][1..] == [];
    assert RunChecks(cfg, r.counters, call, [y]) == Pass(cfg, r.counters, call, y.meter, y.limit);
  }

  class Service {
    const cfg: Config
    var counters: Counters

    constructor (cfg: Config)
      ensures this.cfg == cfg && counters == map[]
    {
      this.cfg, counters := cfg, map[];
    }

    method IncrementWindow(call: Call, m: Meter, limit: int) returns (ok: bool)
      modifies this
      ensures Outcome(counters, ok) == Pass(cfg, old(counters), call, m, limit)
    {
      var key := CounterKey(cfg, m, BucketAt(call, m));
      counters := counters[key := Count(counters, key) + 1];
      return counters[key] <= limit;
    }

    /** One round of the loop in Allow. */
    method CheckWindow(call: Call, w: Window) returns (ok: bool)
      modifies this
      ensures Outcome(counters, ok) == RunChecks(cfg, old(counters), call, WindowChecks(cfg, call, w))
    {
      var limit := LimitFor(cfg, call.limits, w);
      if limit <= 0 {
        return true;
      }
      RunOneOrTwo(cfg, counters, call, Check(TokenMeter(call, w), limit), Check(StorageMeter(call, w), limit));
      ok := IncrementWindow(call, TokenMeter(call, w), limit);
      if !ok {
        return false;
      }
      if call.storageId != "" {
        ok := IncrementWindow(call, StorageMeter(call, w), limit);
      }
    }

    /** Runs its checks in order, with early exit. */
    method Allow(call: Call) returns (ok: bool)
      modifies this
      ensures Outcome(counters, ok) == RunChecks(cfg, old(counters), call, Checks(cfg, call))
    {
      var limits := if call.limits.enabled then call.limits else cfg.defaults;
      if !limits.enabled {
        NoChecks(cfg, call);
        return true;
      }
      for i := 0 to |Windows|
        invariant RunChecks(cfg, counters, call, AllChecks(cfg, call, Windows[i..])) ==
                  RunChecks(cfg, old(counters), call, Checks(cfg, call))
      {
        assert Windows[i..][1..] == Windows[i + 1..];
        RunInTwo(cfg, counters, call, WindowChecks(cfg, call, Windows[i]), AllChecks(cfg, call, Windows[i + 1..]));
        ok := CheckWindow(call, Windows[i]);
        if !ok {
          return false;
        }
      }
      return true;
    }
  }

  lemma NoChecks(cfg: Config, call: Call)
    requires !Effective(cfg, call.limits).enabled
    ensures Checks(cfg, call) == []
  {
    assert Windows[1..] == [Hour, Day] && Windows[1..][1..] == [Day] && Windows[1..][1..][1..] == [];
  }

  // ---- Any interleaving of increments -------------------------------------------------------

  /** One call of incrementWindow, by the Allow call with that number. */
  datatype Increment = Increment(id: nat, call: Call, check: Check)

  function BucketOf(x: Increment): int { BucketAt(x.call, x.check.meter) }

  function KeyOf(cfg: Config, x: Increment): string { CounterKey(cfg, x.check.meter, BucketOf(x)) }

  /** The counters a run increments, in order. */
  function KeysOf(cfg: Config, run: seq<Increment>): (ks: seq<string>)
    ensures |ks| == |run| && forall i | 0 <= i < |run| :: ks[i] == KeyOf(cfg, run[i])
  {
    seq(|run|, i requires 0 <= i < |run| => KeyOf(cfg, run[i]))
  }

  function Occurs(ks: seq<string>, key: string): nat {
    if ks == [] then 0 else Occurs(ks[..|ks| - 1], key) + (if ks[|ks| - 1] == key then 1 else 0)
  }

  /** The counters are those the run leaves. */
  ghost predicate Tallies(cfg: Config, run: seq<Increment>, c: Counters) {
    forall key :: Count(c, key) == Occurs(KeysOf(cfg, run), key)
  }

  /** The k-th increment of these counters is within the limit. */
  predicate Within(ks: seq<string>, k: nat, limit: int)
    requires k < |ks|
  {
    Occurs(ks[..k + 1], ks[k]) <= limit
  }

  /** The increment was within its limit. */
  predicate PassedAt(cfg: Config, run: seq<Increment>, k: nat)
    requires k < |run|
  {
    Within(KeysOf(cfg, run), k, run[k].check.limit)
  }

  ghost predicate MadeAndPassed(cfg: Config, run: seq<Increment>, x: Increment) {
    exists k | 0 <= k < |run| :: run[k] == x && PassedAt(cfg, run, k)
  }

  ghost predicate AllPassed(cfg: Config, all: seq<Increment>, id: nat, call: Call, checks: seq<Check>) {
    forall i | 0 <= i < |checks| :: MadeAndPassed(cfg, all, Increment(id, call, checks[i]))
  }

  /** Allow let the call through: it made all its checks and all passed. */
  ghost predicate Succeeded(cfg: Config, run: seq<Increment>, id: nat, call: Call) {
    AllPassed(cfg, run, id, call, Checks(cfg, call))
  }

  predicate Metered(call: Call, m: Meter) {
    call.tokenId == m.tokenId && (m.storageId == "" || call.storageId == m.storageId)
  }

  /** The successful calls on the meter whose reading there satisfies the test. */
  ghost function Successes(cfg: Config, calls: map<nat, Call>, run: seq<Increment>, m: Meter,
      test: int -> bool): set<nat> {
    set id | id in calls && Metered(calls[id], m) && test(ReadingAt(calls[id], m)) && Succeeded(cfg, run, id, calls[id])
  }

  function InBucket(w: Window, bucket: int): int -> bool { (t: int) => TruncDiv(t, Seconds(w)) == bucket }

  function InSpan(w: Window, from: int): int -> bool { (t: int) => from <= t <= from + Seconds(w) }

  /** The token's limit in that window is the same in all calls. */
  predicate Unchanged(cfg: Config, calls: map<nat, Call>, tokenId: string, w: Window, limit: nat) {
    forall id | id in calls && calls[id].tokenId == tokenId :: LimitFor(cfg, calls[id].limits, w) == limit
  }

  // ---- At most L per bucket -----------------------------------------------------------------

  lemma {:induction false} WindowIsChecked(cfg: Config, call: Call, ws: seq<Window>, w: Window, check: Check)
    requires w in ws && check in WindowChecks(cfg, call, w)
    ensures check in AllChecks(cfg, call, ws)
    decreases |ws|
  {
    if ws[0] != w { WindowIsChecked(cfg, call, ws[1..], w, check); }
  }

  lemma MeterIsChecked(cfg: Config, call: Call, m: Meter)
    requires Metered(call, m) && LimitFor(cfg, call.limits, m.window) > 0
    ensures Check(m, LimitFor(cfg, call.limits, m.window)) in Checks(cfg, call)
  {
    var check := Check(m, LimitFor(cfg, call.limits, m.window));
    assert Windows[WindowIndex(m.window)] == m.window;
    var checks := WindowChecks(cfg, call, m.window);
    assert check == checks[if m.storageId == "" then 0 else 1];
    WindowIsChecked(cfg, call, Windows, m.window, check);
  }

  lemma {:induction false} OccursGrows(ks: seq<string>, j: nat, k: nat, key: string)
    requires j <= k <= |ks|
    ensures Occurs(ks[..j], key) <= Occurs(ks[..k], key)
    decreases k
  {
    if j < k {
      OccursGrows(ks, j, k - 1, key);
      assert ks[..k][..k - 1] == ks[..k - 1];
    }
  }

  /** Two increments of one counter leave different counts behind. */
  lemma CountsDiffer(ks: seq<string>, j: nat, k: nat)
    requires j < k < |ks| && ks[j] == ks[k]
    ensures 1 <= Occurs(ks[..j + 1], ks[j]) < Occurs(ks[..k + 1], ks[k])
  {
    OccursGrows(ks, j + 1, k, ks[k]);
    assert ks[..k + 1][..k] == ks[..k];
  }

  /** Where the call passed the check. */
  ghost function PlaceOf(cfg: Config, run: seq<Increment>, x: Increment): (k: nat)
    requires MadeAndPassed(cfg, run, x)
    ensures k < |run| && run[k] == x && PassedAt(cfg, run, k)
  {
    var k :| 0 <= k < |run| && run[k] == x && PassedAt(cfg, run, k);
    k
  }

  lemma {:induction false} AtMost(ids: set<nat>, number: map<nat, nat>, n: nat)
    requires forall id | id in ids :: id in number && 1 <= number[id] <= n
    requires forall a, b | a in ids && b in ids && number[a] == number[b] :: a == b
    ensures |ids| <= n
    decreases n
  {
    if ids != {} {
      if id :| id in ids && number[id] == n {
        AtMost(ids - {id}, number, n - 1);
      } else {
        AtMost(ids, number, n - 1);
      }
    }
  }

  lemma WithinMeans(ks: seq<string>, k: nat)
    requires k < |ks|
    ensures Occurs(ks[..k + 1], ks[k]) == Occurs(ks[..k], ks[k]) + 1
  {
    assert ks[..k + 1][..k] == ks[..k];
  }

  lemma SameNumberSamePlace(ks: seq<string>, j: nat, k: nat)
    requires j < |ks| && k < |ks| && ks[j] == ks[k] && Occurs(ks[..j + 1], ks[j]) == Occurs(ks[..k + 1], ks[k])
    ensures j == k
  {
    if j < k {
      CountsDiffer(ks, j, k);
    } else if k < j {
      CountsDiffer(ks, k, j);
    }
  }

  /** The count each increment leaves in its counter. */
  lemma Numbers(ks: seq<string>, limit: nat) returns (numbers: seq<nat>)
    ensures |numbers| == |ks|
    ensures forall k | 0 <= k < |ks| && Within(ks, k, limit) :: 1 <= numbers[k] <= limit
    ensures forall j, k | 0 <= j < |ks| && 0 <= k < |ks| && ks[j] == ks[k] && numbers[j] == numbers[k] :: j == k
  {
    numbers := seq(|ks|, k requires 0 <= k < |ks| => Occurs(ks[..k + 1], ks[k]));
    forall k | 0 <= k < |ks| && Within(ks, k, limit) ensures 1 <= numbers[k] <= limit {
      WithinMeans(ks, k);
    }
    forall j, k | 0 <= j < |ks| && 0 <= k < |ks| && ks[j] == ks[k] && numbers[j] == numbers[k] ensures j == k {
      SameNumberSamePlace(ks, j, k);
    }
  }

  /** At most limit increments of one counter are within the limit. */
  lemma AtMostLimitPass(ks: seq<string>, place: map<nat, nat>, key: string, limit: nat)
    requires forall id | id in place :: place[id] < |ks| && ks[place[id]] == key && Within(ks, place[id], limit)
    requires forall a, b | a in place && b in place && place[a] == place[b] :: a == b
    ensures |place.Keys| <= limit
  {
    var numbers := Numbers(ks, limit);
    AtMost(place.Keys, map id | id in place :: numbers[place[id]], limit);
  }

  lemma SuccessPasses(cfg: Config, run: seq<Increment>, id: nat, call: Call, m: Meter, limit: nat)
    requires Succeeded(cfg, run, id, call) && Metered(call, m) && LimitFor(cfg, call.limits, m.window) == limit > 0
    ensures MadeAndPassed(cfg, run, Increment(id, call, Check(m, limit)))
  {
    MeterIsChecked(cfg, call, m);
  }

  /** Where each of the calls passed the meter. */
  lemma Places(cfg: Config, calls: map<nat, Call>, run: seq<Increment>, ids: set<nat>, check: Check)
      returns (place: map<nat, nat>)
    requires forall id | id in ids :: id in calls && MadeAndPassed(cfg, run, Increment(id, calls[id], check))
    ensures place.Keys == ids
    ensures forall id | id in ids :: place[id] < |run| && run[place[id]] == Increment(id, calls[id], check)
    ensures forall id | id in ids :: PassedAt(cfg, run, place[id])
  {
    place := map id | id in ids :: PlaceOf(cfg, run, Increment(id, calls[id], check));
  }

  lemma AtMostLimitCalls(cfg: Config, calls: map<nat, Call>, run: seq<Increment>, ids: set<nat>, m: Meter, limit: nat,
      bucket: int)
    requires forall id | id in ids :: id in calls && BucketAt(calls[id], m) == bucket
    requires forall id | id in ids :: MadeAndPassed(cfg, run, Increment(id, calls[id], Check(m, limit)))
    ensures |ids| <= limit
  {
    var place := Places(cfg, calls, run, ids, Check(m, limit));
    var ks := KeysOf(cfg, run);
    forall id | id in place ensures place[id] < |ks| && ks[place[id]] == CounterKey(cfg, m, bucket) {
      assert run[place[id]] == Increment(id, calls[id], Check(m, limit));
    }
    assert forall a | a in place :: run[place[a]].id == a;
    AtMostLimitPass(ks, place, CounterKey(cfg, m, bucket), limit);
  }

  /** For every interleaving of the increments of any Allow calls, by any tokens: at
      most limit calls of a token succeed in each minute, hour or day bucket, and
      likewise per storage. */
  lemma AtMostLimitPerBucket(cfg: Config, calls: map<nat, Call>, run: seq<Increment>, m: Meter, limit: nat, bucket: int)
    requires limit > 0 && Unchanged(cfg, calls, m.tokenId, m.window, limit)
    ensures |Successes(cfg, calls, run, m, InBucket(m.window, bucket))| <= limit
  {
    var ids := Successes(cfg, calls, run, m, InBucket(m.window, bucket));
    forall id | id in ids ensures MadeAndPassed(cfg, run, Increment(id, calls[id], Check(m, limit))) {
      SuccessPasses(cfg, run, id, calls[id], m, limit);
    }
    AtMostLimitCalls(cfg, calls, run, ids, m, limit, bucket);
  }

  lemma SpanMeetsTwoBuckets(t: int, from: int, w: Window)
    requires from <= t <= from + Seconds(w)
    ensures var q := TruncDiv(from, Seconds(w)); TruncDiv(t, Seconds(w)) == q || TruncDiv(t, Seconds(w)) == q + 1
  {
    match w
    case Minute =>
      assert TruncDiv(t, 60) == (if t >= 0 then t / 60 else -((-t) / 60));
    case Hour =>
      assert TruncDiv(t, 3600) == (if t >= 0 then t / 3600 else -((-t) / 3600));
    case Day =>
      assert TruncDiv(t, 86400) == (if t >= 0 then t / 86400 else -((-t) / 86400));
  }

  lemma UnionSize(a: set<nat>, b: set<nat>, c: set<nat>)
    requires a <= b + c
    ensures |a| <= |b| + |c|
  {
    var d := b + c - a;
    assert a + d == b + c && |a + d| == |a| + |d|;
    assert |b + c| + |b * c| == |b| + |c|;
  }

  /** At most twice the limit succeed in any span of one window length. */
  lemma AtMostTwiceLimitInSpan(cfg: Config, calls: map<nat, Call>, run: seq<Increment>, m: Meter, limit: nat, from: int)
    requires limit > 0 && Unchanged(cfg, calls, m.tokenId, m.window, limit)
    ensures |Successes(cfg, calls, run, m, InSpan(m.window, from))| <= 2 * limit
  {
    var q := TruncDiv(from, Seconds(m.window));
    var span := Successes(cfg, calls, run, m, InSpan(m.window, from));
    var one, two := Successes(cfg, calls, run, m, InBucket(m.window, q)), Successes(cfg, calls, run, m,
      InBucket(m.window, q + 1));
    forall id | id in span ensures id in one + two {
      SpanMeetsTwoBuckets(ReadingAt(calls[id], m), from, m.window);
    }
    UnionSize(span, one, two);
    AtMostLimitPerBucket(cfg, calls, run, m, limit, q);
    AtMostLimitPerBucket(cfg, calls, run, m, limit, q + 1);
  }

  // ---- Allow is a run of increments -----------------------------------------------------------

  /** The run so far and the increments one Allow adds, with nothing in between. */
  function WithAllow(cfg: Config, run: seq<Increment>, c: Counters, id: nat, call: Call,
      checks: seq<Check>): seq<Increment>
    decreases |checks|
  {
    if checks == [] then run else
      var r := Pass(cfg, c, call, checks[0].meter, checks[0].limit);
      var more := run + [Increment(id, call, checks[0])];
      if r.ok then WithAllow(cfg, more, r.counters, id, call, checks[1..]) else more
  }

  lemma {:induction false} AllowExtends(cfg: Config, run: seq<Increment>, c: Counters, id: nat, call: Call,
      checks: seq<Check>)
    ensures run <= WithAllow(cfg, run, c, id, call, checks)
    decreases |checks|
  {
    if checks != [] {
      var r := Pass(cfg, c, call, checks[0].meter, checks[0].limit);
      AllowExtends(cfg, run + [Increment(id, call, checks[0])], r.counters, id, call, checks[1..]);
    }
  }

  lemma OneIncrement(cfg: Config, run: seq<Increment>, c: Counters, x: Increment)
    requires Tallies(cfg, run, c)
    ensures var r := Pass(cfg, c, x.call, x.check.meter, x.check.limit);
            Tallies(cfg, run + [x], r.counters) && (r.ok <==> PassedAt(cfg, run + [x], |run|))
  {
    var ks, key := KeysOf(cfg, run), KeyOf(cfg, x);
    assert KeysOf(cfg, run + [x]) == ks + [key];
    OneMoreKey(ks, key);
  }

  lemma OneMoreKey(ks: seq<string>, key: string)
    ensures (ks + [key])[..|ks|] == ks && (ks + [key])[..|ks| + 1] == ks + [key]
    ensures forall k :: Occurs(ks + [key], k) == Occurs(ks, k) + (if k == key then 1 else 0)
  {
  }

  /** What passed in a run has passed in every longer one. */
  lemma PassedStays(cfg: Config, run: seq<Increment>, all: seq<Increment>, k: nat)
    requires run <= all && k < |run| && PassedAt(cfg, run, k)
    ensures MadeAndPassed(cfg, all, run[k])
  {
    assert KeysOf(cfg, all)[..k + 1] == KeysOf(cfg, run)[..k + 1];
    assert all[k] == run[k] && PassedAt(cfg, all, k);
  }

  /** What running the checks must leave behind. */
  ghost predicate Ran(cfg: Config, run: seq<Increment>, all: seq<Increment>, id: nat, call: Call, checks: seq<Check>,
      r: Outcome) {
    && Tallies(cfg, all, r.counters)
    && (r.ok ==> AllPassed(cfg, all, id, call, checks))
    && (!r.ok ==> |all| > |run| && !PassedAt(cfg, all, |all| - 1))
  }

  lemma AllPassedFirst(cfg: Config, all: seq<Increment>, id: nat, call: Call, checks: seq<Check>)
    requires checks != [] && MadeAndPassed(cfg, all, Increment(id, call, checks[0]))
      && AllPassed(cfg, all, id, call, checks[1..])
    ensures AllPassed(cfg, all, id, call, checks)
  {
    forall i | 0 < i < |checks| ensures MadeAndPassed(cfg, all, Increment(id, call, checks[i])) {
      assert checks[1..][i - 1] == checks[i];
    }
  }

  lemma OneMoreRan(cfg: Config, run: seq<Increment>, x: Increment, all: seq<Increment>, checks: seq<Check>, r: Outcome)
    requires checks != [] && x.check == checks[0] && MadeAndPassed(cfg, all, x)
    requires Ran(cfg, run + [x], all, x.id, x.call, checks[1..], r)
    ensures Ran(cfg, run, all, x.id, x.call, checks, r)
  {
    if r.ok { AllPassedFirst(cfg, all, x.id, x.call, checks); }
  }

  /** Allow leaves the counters its increments leave, and answers yes only if all its
      checks were made and passed, no only if the last one was refused. */
  lemma {:induction false} AllowIsRun(cfg: Config, run: seq<Increment>, c: Counters, id: nat, call: Call,
      checks: seq<Check>)
    requires Tallies(cfg, run, c)
    ensures Ran(cfg, run, WithAllow(cfg, run, c, id, call, checks), id, call, checks, RunChecks(cfg, c, call, checks))
    decreases |checks|
  {
    if checks != [] {
      var x := Increment(id, call, checks[0]);
      var r := Pass(cfg, c, call, checks[0].meter, checks[0].limit);
      OneIncrement(cfg, run, c, x);
      if r.ok {
        var all := WithAllow(cfg, run + [x], r.counters, id, call, checks[1..]);
        AllowIsRun(cfg, run + [x], r.counters, id, call, checks[1..]);
        AllowExtends(cfg, run + [x], r.counters, id, call, checks[1..]);
        PassedStays(cfg, run + [x], all, |run|);
        OneMoreRan(cfg, run, x, all, checks, RunChecks(cfg, r.counters, call, checks[1..]));
      }
    }
  }

  // ---- Why an increment is refused ------------------------------------------------------------

  predicate NoColon(s: string) { ':' !in s }

  /** Neither token id goes on as the other with a colon behind it. */
  predicate Apart(x: string, y: string) { !(x + ":" <= y) && !(y + ":" <= x) }

  lemma ColonInside(x: string, y: string)
    requires x + ":" <= y
    ensures !NoColon(y)
  {
    assert y[|x|] == ':';
  }

  /** Generated token ids hold no colon. */
  lemma NoColonApart(x: string, y: string)
    requires NoColon(x) && NoColon(y)
    ensures Apart(x, y)
  {
    if x + ":" <= y { ColonInside(x, y); }
    if y + ":" <= x { ColonInside(y, x); }
  }

  /** Names without a colon behind a colon can be told apart. */
  lemma LastColonSplits(a: string, b: string, s: string, t: string)
    requires NoColon(s) && NoColon(t) && a + ":" + s == b + ":" + t
    ensures a == b && s == t
  {
    var x, y := a + ":" + s, b + ":" + t;
    assert x[|a|] == ':' && y[|b|] == ':';
    assert forall i | |a| < i < |x| :: x[i] == s[i - |a| - 1];
    assert forall i | |b| < i < |y| :: y[i] == t[i - |b| - 1];
    assert |a| == |b|;
    assert a == x[..|a|] && b == y[..|b|];
    assert s == x[|a| + 1..] && t == y[|b| + 1..];
  }

  lemma ShowNoColon(n: int)
    ensures NoColon(Show(n))
  {
  }

  lemma WindowNames(v: Window, w: Window)
    ensures NoColon(WindowName(v)) && (WindowName(v) == WindowName(w) ==> v == w)
  {
    assert |WindowName(Minute)| == 6 && |WindowName(Hour)| == 4 && |WindowName(Day)| == 3;
  }

  function Subject(m: Meter): string { m.tokenId + (if m.storageId == "" then "" else ":" + m.storageId) }

  lemma SubjectLonger(m: Meter, n: Meter)
    requires Subject(m) == Subject(n) && |m.tokenId| < |n.tokenId|
    ensures m.tokenId + ":" <= n.tokenId
  {
    var x, k := Subject(m), |m.tokenId|;
    assert n.tokenId == Subject(n)[..|n.tokenId|];
    assert |x| > k && x == m.tokenId + ":" + m.storageId;
    assert n.tokenId[..k + 1] == x[..k + 1] == m.tokenId + ":";
  }

  lemma SubjectInjective(m: Meter, n: Meter)
    requires Apart(m.tokenId, n.tokenId) && Subject(m) == Subject(n)
    ensures m.tokenId == n.tokenId && m.storageId == n.storageId
  {
    if |m.tokenId| < |n.tokenId| { SubjectLonger(m, n); }
    if |n.tokenId| < |m.tokenId| { SubjectLonger(n, m); }
    var x, k := Subject(m), |m.tokenId|;
    assert x[..k] == m.tokenId && Subject(n)[..|n.tokenId|] == n.tokenId;
    assert x[k..] == (if m.storageId == "" then "" else ":" + m.storageId);
    assert x[k..] == (if n.storageId == "" then "" else ":" + n.storageId);
    assert x[k..] != "" ==> x[k..][1..] == m.storageId && x[k..][1..] == n.storageId;
  }

  lemma CounterKeySplit(cfg: Config, m: Meter, bucket: int)
    ensures CounterKey(cfg, m, bucket) == ((cfg.prefix + ":rl:" + Subject(m)) + ":" + WindowName(m.window)) + ":"
      + Show(bucket)
  {
    var p, u, w, b := cfg.prefix, Subject(m), WindowName(m.window), Show(bucket);
    assert MeterName(m) == "rl:" + u + ":" + w;
    assert p + ":" + ("rl:" + u + ":" + w) + ":" + b == ((p + ":rl:" + u) + ":" + w) + ":" + b;
  }

  /** Meters of tokens that are apart have counters of their own. */
  lemma CounterKeyInjective(cfg: Config, m: Meter, b: int, n: Meter, c: int)
    requires Apart(m.tokenId, n.tokenId) && CounterKey(cfg, m, b) == CounterKey(cfg, n, c)
    ensures m == n && b == c
  {
    CounterKeySplit(cfg, m, b);
    CounterKeySplit(cfg, n, c);
    var x, y := cfg.prefix + ":rl:" + Subject(m), cfg.prefix + ":rl:" + Subject(n);
    ShowNoColon(b);
    ShowNoColon(c);
    LastColonSplits(x + ":" + WindowName(m.window), y + ":" + WindowName(n.window), Show(b), Show(c));
    ShowInjective(b, c);
    WindowNames(m.window, n.window);
    WindowNames(n.window, m.window);
    LastColonSplits(x, y, WindowName(m.window), WindowName(n.window));
    assert Subject(m) == x[|cfg.prefix| + 4..] && Subject(n) == y[|cfg.prefix| + 4..];
    SubjectInjective(m, n);
  }

  /** A token id with a colon shares a counter with another token's storage, whatever
      stands on either side of the colon. */
  lemma ColonsCollide(cfg: Config, x: string, y: string, storage: string, w: Window, bucket: int)
    requires storage != ""
    ensures CounterKey(cfg, Meter(x + ":" + y, storage, w), bucket)
      == CounterKey(cfg, Meter(x, y + ":" + storage, w), bucket)
  {
    var m, n := Meter(x + ":" + y, storage, w), Meter(x, y + ":" + storage, w);
    assert Subject(m) == x + ":" + y + ":" + storage == Subject(n);
    CounterKeySplit(cfg, m, bucket);
    CounterKeySplit(cfg, n, bucket);
  }

  /** No meter of the one token ever counts in a counter of the other. */
  ghost predicate NeverShare(cfg: Config, x: string, y: string) {
    forall s, t, v, w, b, c :: CounterKey(cfg, Meter(x, s, v), b) != CounterKey(cfg, Meter(y, t, w), c)
  }

  lemma PrefixShares(cfg: Config, x: string, y: string)
    requires x + ":" <= y
    ensures !NeverShare(cfg, x, y) && !NeverShare(cfg, y, x)
  {
    var rest := y[|x| + 1..];
    assert y == x + ":" + rest;
    ColonsCollide(cfg, x, rest, "s", Minute, 0);
  }

  /** Two tokens never share a counter if and only if they are apart. */
  lemma OwnCountersExactly(cfg: Config, x: string, y: string)
    requires x != y
    ensures NeverShare(cfg, x, y) <==> Apart(x, y)
  {
    if x + ":" <= y { PrefixShares(cfg, x, y); }
    if y + ":" <= x { PrefixShares(cfg, y, x); }
    if Apart(x, y) {
      forall s, t, v, w, b, c ensures CounterKey(cfg, Meter(x, s, v), b) != CounterKey(cfg, Meter(y, t, w), c) {
        if CounterKey(cfg, Meter(x, s, v), b) == CounterKey(cfg, Meter(y, t, w), c) {
          CounterKeyInjective(cfg, Meter(x, s, v), b, Meter(y, t, w), c);
        }
      }
    }
  }

  /** Attempts on one meter in one bucket. */
  function Attempts(run: seq<Increment>, m: Meter, bucket: int): nat {
    if run == [] then 0 else
      var x := run[|run| - 1];
      Attempts(run[..|run| - 1], m, bucket) + (if x.check.meter == m && BucketOf(x) == bucket then 1 else 0)
  }

  lemma SameCounter(cfg: Config, x: Increment, m: Meter, bucket: int)
    requires Apart(x.check.meter.tokenId, m.tokenId)
    ensures KeyOf(cfg, x) == CounterKey(cfg, m, bucket) <==> x.check.meter == m && BucketOf(x) == bucket
  {
    if KeyOf(cfg, x) == CounterKey(cfg, m, bucket) {
      CounterKeyInjective(cfg, x.check.meter, BucketOf(x), m, bucket);
    }
  }

  lemma {:induction false} OccursIsAttempts(cfg: Config, run: seq<Increment>, m: Meter, bucket: int, key: string)
    requires forall k | 0 <= k < |run| :: Apart(run[k].check.meter.tokenId, m.tokenId)
    requires key == CounterKey(cfg, m, bucket)
    ensures Occurs(KeysOf(cfg, run), key) == Attempts(run, m, bucket)
  {
    if run != [] {
      var n := |run| - 1;
      OccursIsAttempts(cfg, run[..n], m, bucket, key);
      assert KeysOf(cfg, run)[..n] == KeysOf(cfg, run[..n]);
      SameCounter(cfg, run[n], m, bucket);
    }
  }

  lemma RefusedWhenOccurs(cfg: Config, run: seq<Increment>, k: nat)
    requires k < |run|
    ensures var ks := KeysOf(cfg, run); !PassedAt(cfg, run, k) <==> Occurs(ks[..k], ks[k]) >= run[k].check.limit
  {
    WithinMeans(KeysOf(cfg, run), k);
  }

  lemma EarlierAttempts(cfg: Config, run: seq<Increment>, k: nat)
    requires k < |run| && forall j | 0 <= j < k :: Apart(run[j].check.meter.tokenId, run[k].check.meter.tokenId)
    ensures var ks := KeysOf(cfg, run); Occurs(ks[..k], ks[k]) == Attempts(run[..k], run[k].check.meter,
      BucketOf(run[k]))
  {
    OccursIsAttempts(cfg, run[..k], run[k].check.meter, BucketOf(run[k]), KeyOf(cfg, run[k]));
    assert KeysOf(cfg, run)[..k] == KeysOf(cfg, run[..k]);
  }

  /** With token ids apart, as generated ones are, an increment is refused if and only
      if at least limit attempts on the same meter came before it in the same bucket. */
  lemma RefusedExactlyWhenFull(cfg: Config, run: seq<Increment>, k: nat)
    requires k < |run| && forall j | 0 <= j < k :: Apart(run[j].check.meter.tokenId, run[k].check.meter.tokenId)
    ensures !PassedAt(cfg, run, k) <==> Attempts(run[..k], run[k].check.meter, BucketOf(run[k])) >= run[k].check.limit
  {
    RefusedWhenOccurs(cfg, run, k);
    EarlierAttempts(cfg, run, k);
  }
}
