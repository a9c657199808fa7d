/** Admission control of the coach handler, as a pure specification: the
    kill switch, the required fields, the global daily budget with its day
    rollover, and the per-user rolling one-hour window. */
module Limits {
  import opened Shaping

  /** Length of the per-user window, in milliseconds. */
  const WindowMs: int := 3600000

  /** The process-wide counters: the daily request count with the date it
      belongs to, and each user key's request timestamps (milliseconds). */
  datatype Counters = Counters(count: int, resetDate: string, userLimits: map<string, seq<int>>)

  /** Settings taken from the environment. */
  datatype Config = Config(dailyBudget: int, hourlyLimit: int, killSwitch: bool)

  /** The clock as the handler reads it: today's UTC date string and the
      current time in milliseconds. */
  datatype Clock = Clock(today: string, nowMs: int)

  /** The parts of a request the handler looks at; an absent field is "". */
  datatype Request = Request(httpMethod: string, prompt: string, mode: string,
                             userId: string, forwardedFor: string)

  datatype Verdict =
    | Paused
    | FieldMissing
    | GlobalQuota
    | UserQuota
    | Admitted(userKey: string)

  datatype Step = Step(verdict: Verdict, after: Counters)

  const InitialCounters: Counters := Counters(0, "", map[])

  /** A user's stored history; a key never seen has an empty one. */
  function HistoryOf(userLimits: map<string, seq<int>>, key: string): seq<int>
  {
    if key in userLimits then userLimits[key] else []
  }

  /** `history.filter(t => t > now - 3600000)`: the timestamps inside the
      trailing hour, in their original order. */
  function Recent(history: seq<int>, now: int): (r: seq<int>)
    ensures |r| <= |history|
    ensures forall i :: 0 <= i < |r| ==> r[i] > now - WindowMs
    ensures forall t :: t in r ==> t in history
  {
    if history == [] then []
    else if history[0] > now - WindowMs then [history[0]] + Recent(history[1..], now)
    else Recent(history[1..], now)
  }

  /** Filtering distributes over concatenation, so the kept entries keep
      their relative order. */
  lemma {:induction false} RecentAppend(a: seq<int>, b: seq<int>, now: int)
    ensures Recent(a + b, now) == Recent(a, now) + Recent(b, now)
  {
    if a == [] {
      assert a + b == b;
    } else {
      assert (a + b)[0] == a[0];
      assert (a + b)[1..] == a[1..] + b;
      RecentAppend(a[1..], b, now);
    }
  }

  /** Nothing is dropped from a history that lies wholly inside the window. */
  lemma {:induction false} RecentAllFresh(history: seq<int>, now: int)
    requires forall i :: 0 <= i < |history| ==> history[i] > now - WindowMs
    ensures Recent(history, now) == history
  {
    if history != [] {
      RecentAllFresh(history[1..], now);
    }
  }

  /** Every timestamp inside the window is kept. */
  lemma {:induction false} RecentKeepsFresh(history: seq<int>, now: int, t: int)
    requires t in history && t > now - WindowMs
    ensures t in Recent(history, now)
  {
    if history[0] != t {
      RecentKeepsFresh(history[1..], now, t);
    }
  }

  /** Pruning twice, the second time no earlier, is pruning at the later time. */
  lemma {:induction false} RecentLater(history: seq<int>, now1: int, now2: int)
    requires now1 <= now2
    ensures Recent(Recent(history, now1), now2) == Recent(history, now2)
  {
    if history != [] {
      RecentLater(history[1..], now1, now2);
    }
  }

  /** When the oldest entry has left the window, at least one slot is freed. */
  lemma ExpiredOldestShrinks(history: seq<int>, now: int)
    requires history != [] && history[0] <= now - WindowMs
    ensures |Recent(history, now)| < |history|
  {
    assert Recent(history, now) == Recent(history[1..], now);
  }

  /** Day rollover: a date different from the stored one zeroes the count. */
  function Rollover(s: Counters, today: string): (r: Counters)
    ensures r.userLimits == s.userLimits && r.resetDate == today
    ensures s.resetDate != today ==> r.count == 0
    ensures s.resetDate == today ==> r == s
  {
    if s.resetDate != today then s.(count := 0, resetDate := today) else s
  }

  /** The history stored for `key` once the user check has run: the old one
      pruned to the trailing hour, written back in any case. */
  function Pruned(s: Counters, key: string, now: int): (m: map<string, seq<int>>)
    ensures key in m && m[key] == Recent(HistoryOf(s.userLimits, key), now)
    ensures m.Keys == s.userLimits.Keys + {key}
    ensures forall k :: k in s.userLimits && k != key ==> m[k] == s.userLimits[k]
  {
    s.userLimits[key := Recent(HistoryOf(s.userLimits, key), now)]
  }

  /** One admission decision and the counters it leaves behind. */
  function Admission(s: Counters, cfg: Config, req: Request, clock: Clock): (r: Step)
    // kill switch: 503, nothing touched
    ensures cfg.killSwitch ==> r == Step(Paused, s)
    // missing field: 400, nothing touched
    ensures !cfg.killSwitch && (req.prompt == [] || req.mode == []) ==> r == Step(FieldMissing, s)
    // from here on the day rollover has happened
    ensures !cfg.killSwitch && req.prompt != [] && req.mode != [] ==>
      r.after.resetDate == clock.today &&
      (s.resetDate == clock.today ==> r.after.count >= s.count)
    // the global budget refuses without counting and without touching histories
    ensures r.verdict == GlobalQuota <==>
      !cfg.killSwitch && req.prompt != [] && req.mode != [] &&
      Rollover(s, clock.today).count >= cfg.dailyBudget
    ensures r.verdict == GlobalQuota ==> r.after == Rollover(s, clock.today)
    // the decision itself, in both directions
    ensures r.verdict == Paused <==> cfg.killSwitch
    ensures r.verdict == FieldMissing <==> !cfg.killSwitch && (req.prompt == [] || req.mode == [])
    ensures r.verdict == UserQuota <==>
      !cfg.killSwitch && req.prompt != [] && req.mode != [] &&
      Rollover(s, clock.today).count < cfg.dailyBudget &&
      |Recent(HistoryOf(s.userLimits, UserKey(req.userId, req.forwardedFor)), clock.nowMs)| >= cfg.hourlyLimit
    ensures r.verdict.Admitted? <==>
      !cfg.killSwitch && req.prompt != [] && req.mode != [] &&
      Rollover(s, clock.today).count < cfg.dailyBudget &&
      |Recent(HistoryOf(s.userLimits, UserKey(req.userId, req.forwardedFor)), clock.nowMs)| < cfg.hourlyLimit
    // the user check writes back the pruned history even when it refuses
    ensures r.verdict == UserQuota ==>
      var key := UserKey(req.userId, req.forwardedFor);
      r.after == Rollover(s, clock.today).(userLimits := Pruned(s, key, clock.nowMs)) &&
      |Recent(HistoryOf(s.userLimits, key), clock.nowMs)| >= cfg.hourlyLimit
    // acceptance appends `now` to the pruned history and counts once
    ensures r.verdict.Admitted? ==>
      var key := UserKey(req.userId, req.forwardedFor);
      var kept := Recent(HistoryOf(s.userLimits, key), clock.nowMs);
      r.verdict.userKey == key &&
      |kept| < cfg.hourlyLimit &&
      r.after.count == Rollover(s, clock.today).count + 1 &&
      r.after.count <= cfg.dailyBudget &&
      r.after.resetDate == clock.today &&
      r.after.userLimits == s.userLimits[key := kept + [clock.nowMs]]
  {
    if cfg.killSwitch then Step(Paused, s)
    else if req.prompt == [] || req.mode == [] then Step(FieldMissing, s)
    else
      var s1 := Rollover(s, clock.today);
      if s1.count >= cfg.dailyBudget then Step(GlobalQuota, s1)
      else
        var key := UserKey(req.userId, req.forwardedFor);
        var pruned := Pruned(s1, key, clock.nowMs);
        var kept := pruned[key];
        if |kept| >= cfg.hourlyLimit then Step(UserQuota, s1.(userLimits := pruned))
        else Step(Admitted(key), Counters(s1.count + 1, s1.resetDate, pruned[key := kept + [clock.nowMs]]))
  }

  /** A user whose whole stored history is inside the window and already at
      the hourly limit is refused, and the history is kept as it was. */
  lemma FullWindowRefused(s: Counters, cfg: Config, req: Request, clock: Clock)
    requires !cfg.killSwitch && req.prompt != [] && req.mode != []
    requires Rollover(s, clock.today).count < cfg.dailyBudget
    requires var h := HistoryOf(s.userLimits, UserKey(req.userId, req.forwardedFor));
      |h| >= cfg.hourlyLimit &&
      forall i :: 0 <= i < |h| ==> h[i] > clock.nowMs - WindowMs
    ensures Admission(s, cfg, req, clock).verdict == UserQuota
    ensures var key := UserKey(req.userId, req.forwardedFor);
      Admission(s, cfg, req, clock).after.userLimits[key] == HistoryOf(s.userLimits, key)
  {
    var key := UserKey(req.userId, req.forwardedFor);
    RecentAllFresh(HistoryOf(s.userLimits, key), clock.nowMs);
  }

  /** Once the oldest of at most `hourlyLimit` stored requests is more than an
      hour old, the user is admitted again (when the day's budget allows). */
  lemma ExpiredOldestAdmitted(s: Counters, cfg: Config, req: Request, clock: Clock)
    requires !cfg.killSwitch && req.prompt != [] && req.mode != []
    requires Rollover(s, clock.today).count < cfg.dailyBudget
    requires var h := HistoryOf(s.userLimits, UserKey(req.userId, req.forwardedFor));
      h != [] && |h| <= cfg.hourlyLimit && h[0] <= clock.nowMs - WindowMs
    ensures Admission(s, cfg, req, clock).verdict.Admitted?
  {
    ExpiredOldestShrinks(HistoryOf(s.userLimits, UserKey(req.userId, req.forwardedFor)), clock.nowMs);
  }

  /** A new date lifts the global refusal: the count restarts from zero. */
  lemma NewDayLiftsGlobalQuota(s: Counters, cfg: Config, req: Request, clock: Clock)
    requires !cfg.killSwitch && req.prompt != [] && req.mode != []
    requires s.resetDate != clock.today && cfg.dailyBudget > 0
    ensures Admission(s, cfg, req, clock).verdict != GlobalQuota
    ensures Admission(s, cfg, req, clock).after.count <= 1
  {
  }

  /** The invariant the counters keep for a fixed configuration: the day's
      count within the budget, every history within the hourly limit. */
  predicate WithinLimits(s: Counters, cfg: Config)
  {
    0 <= s.count <= cfg.dailyBudget &&
    forall k :: k in s.userLimits ==> |s.userLimits[k]| <= cfg.hourlyLimit
  }

  lemma AdmissionKeepsLimits(s: Counters, cfg: Config, req: Request, clock: Clock)
    requires cfg.hourlyLimit >= 0
    requires WithinLimits(s, cfg)
    ensures WithinLimits(Admission(s, cfg, req, clock).after, cfg)
  {
    var r := Admission(s, cfg, req, clock);
    if r.verdict == UserQuota || r.verdict.Admitted? {
      var key := UserKey(req.userId, req.forwardedFor);
      assert |HistoryOf(s.userLimits, key)| <= cfg.hourlyLimit;
    }
  }

  /** A request together with the clock reading it arrived at. */
  datatype Arrival = Arrival(req: Request, clock: Clock)

  /** The counters after a sequence of requests under one configuration. */
  function Run(s: Counters, cfg: Config, arrivals: seq<Arrival>): Counters
    decreases |arrivals|
  {
    if arrivals == [] then s
    else Run(Admission(s, cfg, arrivals[0].req, arrivals[0].clock).after, cfg, arrivals[1..])
  }

  /** No sequence of requests pushes the day's count over the budget or a
      user's history over the hourly limit. */
  lemma {:induction false} RunKeepsLimits(s: Counters, cfg: Config, arrivals: seq<Arrival>)
    requires cfg.hourlyLimit >= 0
    requires WithinLimits(s, cfg)
    ensures WithinLimits(Run(s, cfg, arrivals), cfg)
    decreases |arrivals|
  {
    if arrivals != [] {
      AdmissionKeepsLimits(s, cfg, arrivals[0].req, arrivals[0].clock);
      RunKeepsLimits(Admission(s, cfg, arrivals[0].req, arrivals[0].clock).after, cfg, arrivals[1..]);
    }
  }

  /** Starting from the fresh process state every run stays within limits. */
  lemma FreshProcessWithinLimits(cfg: Config, arrivals: seq<Arrival>)
    requires cfg.dailyBudget >= 0 && cfg.hourlyLimit >= 0
    ensures WithinLimits(Run(InitialCounters, cfg, arrivals), cfg)
  {
    RunKeepsLimits(InitialCounters, cfg, arrivals);
  }

  /** The count only goes down at a rollover: while every request carries the
      stored date, the count never decreases. */
  lemma {:induction false} SameDayCountNeverDecreases(s: Counters, cfg: Config, arrivals: seq<Arrival>)
    requires forall i :: 0 <= i < |arrivals| ==> arrivals[i].clock.today == s.resetDate
    ensures Run(s, cfg, arrivals).count >= s.count
    ensures Run(s, cfg, arrivals).resetDate == s.resetDate
    decreases |arrivals|
  {
    if arrivals != [] {
      var s1 := Admission(s, cfg, arrivals[0].req, arrivals[0].clock).after;
      assert s1.count >= s.count && s1.resetDate == s.resetDate;
      assert forall i :: 0 <= i < |arrivals[1..]| ==> arrivals[1..][i] == arrivals[i + 1];
      SameDayCountNeverDecreases(s1, cfg, arrivals[1..]);
    }
  }
}
