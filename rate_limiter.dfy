/**
 * Per-user sliding-window rate limiting with a cooldown. Each user has a log of recent
 * message times and an optional end of cooldown; a user is Open while that end is absent
 * or has passed, and Blocked before it. Time is passed in as `now` (seconds, a real).
 */
module RateLimiting {
  import opened Wrappers

  /** One user's state: the recorded message times and the end of the current cooldown. */
  datatype Entry = Entry(timestamps: seq<real>, blockedUntil: Option<real>)

  const FreshEntry: Entry := Entry([], None)

  /** The limiter's three settings: N messages per window of W seconds, cooldown C seconds. */
  datatype Config = Config(messagesPerWindow: int, windowSeconds: real, cooldownSeconds: real)

  const DefaultConfig: Config := Config(3, 1.0, 2.0)

  /**
   * Why a check was denied: still in cooldown ("Rate limited. Try again in k second(s).")
   * or the window just filled up ("Too many messages. Try again in C second(s).").
   */
  datatype Denial = RateLimited(secondsLeft: int) | TooManyMessages(cooldown: real)

  /** The outcome of one check: the denial, if any, and the user's entry afterwards. */
  datatype Decision = Decision(denial: Option<Denial>, entry: Entry)

  /** A monitoring snapshot of one user. */
  datatype Stats = Stats(userId: string, messagesInWindow: nat, limit: int, isBlocked: bool, blockedUntil: Option<real>)

  /** The most the window can hold under this configuration. */
  function Capacity(cfg: Config): nat {
    if cfg.messagesPerWindow > 0 then cfg.messagesPerWindow else 0
  }

  function Lookup(m: map<string, Entry>, userId: string): Option<Entry> {
    if userId in m then Some(m[userId]) else None
  }

  /** The timestamps strictly after `cutoff`, in their original order. */
  function Recent(ts: seq<real>, cutoff: real): (r: seq<real>)
    ensures |r| <= |ts|
    ensures forall i :: 0 <= i < |r| ==> r[i] > cutoff
    ensures forall t :: t in r <==> t in ts && t > cutoff
    ensures (forall i :: 0 <= i < |ts| ==> ts[i] > cutoff) ==> r == ts
  {
    if ts == [] then []
    else if ts[0] > cutoff then [ts[0]] + Recent(ts[1..], cutoff)
    else Recent(ts[1..], cutoff)
  }

  /** Trimming a single timestamp keeps it exactly when it is after the cutoff. */
  lemma RecentSingle(t: real, cutoff: real)
    ensures Recent([t], cutoff) == if t > cutoff then [t] else []
  {
  }

  /**
   * Trimming distributes over concatenation: together with `RecentSingle` this fixes the
   * trimmed window completely, order and repeated times included.
   */
  lemma {:induction false} RecentAppend(a: seq<real>, b: seq<real>, cutoff: real)
    ensures Recent(a + b, cutoff) == Recent(a, cutoff) + Recent(b, cutoff)
    decreases |a|
  {
    if a == [] {
      assert a + b == b;
    } else {
      assert (a + b)[0] == a[0];
      assert (a + b)[1..] == a[1..] + b;
      RecentAppend(a[1..], b, cutoff);
    }
  }

  /** Blocked state: a cooldown is set and has not yet ended. */
  predicate Blocked(e: Entry, now: real) {
    e.blockedUntil.Some? && now < e.blockedUntil.value
  }

  /** The window the check judges: emptied when an expired cooldown is cleared, then trimmed. */
  function Window(cfg: Config, e: Entry, now: real): seq<real> {
    Recent(if e.blockedUntil.Some? then [] else e.timestamps, now - cfg.windowSeconds)
  }

  /** One rate check for a user whose entry is `e` (None when the user is not tracked yet). */
  function Check(cfg: Config, e: Option<Entry>, now: real): Decision {
    var d := if e.Some? then e.value else FreshEntry;
    if Blocked(d, now) then
      Decision(Some(RateLimited((d.blockedUntil.value - now).Floor + 1)), d)
    else
      var kept := Window(cfg, d, now);
      if |kept| < cfg.messagesPerWindow then Decision(None, Entry(kept + [now], None))
      else Decision(Some(TooManyMessages(cfg.cooldownSeconds)), Entry(kept, Some(now + cfg.cooldownSeconds)))
  }

  /** The time of the most recent message, or 0 (the epoch) when there is none. */
  function LastActivity(ts: seq<real>): (t: real)
    ensures ts != [] ==> t in ts
    ensures forall i :: 0 <= i < |ts| ==> ts[i] <= t
    ensures ts == [] ==> t == 0.0
  {
    if ts == [] then 0.0
    else if |ts| == 1 then ts[0]
    else
      var m := LastActivity(ts[1..]);
      if ts[0] >= m then ts[0] else m
  }

  /** An entry idle for longer than `maxIdleSeconds`. */
  predicate Idle(e: Entry, now: real, maxIdleSeconds: int) {
    now - LastActivity(e.timestamps) > maxIdleSeconds as real
  }

  function IdleUsers(m: map<string, Entry>, now: real, maxIdleSeconds: int): set<string> {
    set u | u in m && Idle(m[u], now, maxIdleSeconds)
  }

  /** The first check of an untracked user judges an empty window: allowed exactly when N >= 1. */
  lemma FirstCheck(cfg: Config, now: real)
    ensures var d := Check(cfg, None, now);
      && (d.denial == None <==> cfg.messagesPerWindow >= 1)
      && (cfg.messagesPerWindow >= 1 ==> d.entry == Entry([now], None))
  {
  }

  /** While blocked, a check is denied with the remaining whole seconds plus one, and nothing changes. */
  lemma DeniedWhileBlocked(cfg: Config, e: Entry, now: real)
    requires Blocked(e, now)
    ensures var d := Check(cfg, Some(e), now);
      && d.entry == e
      && d.denial == Some(RateLimited((e.blockedUntil.value - now).Floor + 1))
      && d.denial.value.secondsLeft >= 1
  {
  }

  /** Once the cooldown has ended, the window restarts: the message is allowed and is the only one recorded. */
  lemma AllowedAfterCooldown(cfg: Config, e: Entry, now: real)
    requires e.blockedUntil.Some? && now >= e.blockedUntil.value
    requires cfg.messagesPerWindow >= 1
    ensures Check(cfg, Some(e), now) == Decision(None, Entry([now], None))
  {
  }

  /**
   * Outside a cooldown, the message is allowed (and `now` recorded) exactly when fewer than N
   * recorded times lie within the window; otherwise a cooldown of C starts and nothing is recorded.
   * Either way every kept timestamp lies inside the window.
   */
  lemma WindowRule(cfg: Config, e: Entry, now: real)
    requires !Blocked(e, now)
    ensures var d := Check(cfg, Some(e), now);
      var kept := Window(cfg, e, now);
      && (d.denial == None <==> |kept| < cfg.messagesPerWindow)
      && (d.denial == None ==> d.entry == Entry(kept + [now], None))
      && (d.denial != None ==>
            d.denial == Some(TooManyMessages(cfg.cooldownSeconds))
            && d.entry == Entry(kept, Some(now + cfg.cooldownSeconds)))
      && (forall i :: 0 <= i < |kept| ==> kept[i] > now - cfg.windowSeconds)
      && (cfg.windowSeconds > 0.0 ==> forall i :: 0 <= i < |d.entry.timestamps| ==> d.entry.timestamps[i] > now - cfg.windowSeconds)
  {
  }

  /** A check never lets a window grow past N timestamps. */
  lemma CapacityKept(cfg: Config, e: Option<Entry>, now: real)
    requires e.Some? ==> |e.value.timestamps| <= Capacity(cfg)
    ensures |Check(cfg, e, now).entry.timestamps| <= Capacity(cfg)
  {
  }

  /** The outcome of a run of checks for one user at the given times. */
  datatype Run = Run(denials: seq<Option<Denial>>, entry: Entry)

  function RunChecks(cfg: Config, e: Entry, times: seq<real>): (r: Run)
    ensures |r.denials| == |times|
    decreases |times|
  {
    if times == [] then Run([], e)
    else
      var d := Check(cfg, Some(e), times[0]);
      var rest := RunChecks(cfg, d.entry, times[1..]);
      Run([d.denial] + rest.denials, rest.entry)
  }

  /** Any two of the times lie less than W apart. */
  predicate WithinWindow(times: seq<real>, w: real) {
    forall i, j :: 0 <= i < |times| && 0 <= j < |times| ==> times[j] - times[i] < w
  }

  /** Without a cooldown, as long as at most N messages are counted, every check is allowed. */
  lemma {:induction false} FewChecksAllowed(cfg: Config, e: Entry, times: seq<real>)
    requires e.blockedUntil == None
    requires |e.timestamps| + |times| <= cfg.messagesPerWindow
    ensures forall i :: 0 <= i < |times| ==> RunChecks(cfg, e, times).denials[i] == None
    decreases |times|
  {
    if times != [] {
      var d := Check(cfg, Some(e), times[0]);
      assert d.denial == None && d.entry.blockedUntil == None;
      FewChecksAllowed(cfg, d.entry, times[1..]);
    }
  }

  /** Checks at times that all fit in one window, starting from a window that also fits, record every time. */
  lemma {:induction false} RunRecordsAll(cfg: Config, ts: seq<real>, times: seq<real>)
    requires WithinWindow(ts + times, cfg.windowSeconds)
    requires |ts| + |times| <= cfg.messagesPerWindow
    ensures RunChecks(cfg, Entry(ts, None), times).entry == Entry(ts + times, None)
    decreases |times|
  {
    if times != [] {
      var all := ts + times;
      forall i | 0 <= i < |ts| ensures ts[i] > times[0] - cfg.windowSeconds {
        assert all[|ts|] - all[i] < cfg.windowSeconds;
      }
      assert Recent(ts, times[0] - cfg.windowSeconds) == ts;
      assert ts + times == (ts + [times[0]]) + times[1..];
      RunRecordsAll(cfg, ts + [times[0]], times[1..]);
    }
  }

  /**
   * Threshold: for N + 1 checks of a new user that all fall within one window, the first N
   * are allowed and the last is refused with a cooldown of C.
   */
  lemma {:induction false} ThresholdReached(cfg: Config, times: seq<real>)
    requires cfg.messagesPerWindow >= 1
    requires |times| == cfg.messagesPerWindow + 1
    requires WithinWindow(times, cfg.windowSeconds)
    ensures var r := RunChecks(cfg, FreshEntry, times);
      && (forall i :: 0 <= i < cfg.messagesPerWindow ==> r.denials[i] == None)
      && r.denials[cfg.messagesPerWindow] == Some(TooManyMessages(cfg.cooldownSeconds))
  {
    var n := cfg.messagesPerWindow;
    var first := times[..n];
    var now := times[n];
    assert times == first + [now];
    RunSplit(cfg, FreshEntry, first, [now]);
    FewChecksAllowed(cfg, FreshEntry, first);
    FirstFill(cfg, times);
    LastRefused(cfg, first, now);
  }

  /** The first N of N + 1 checks within one window fill it with their times. */
  lemma FirstFill(cfg: Config, times: seq<real>)
    requires cfg.messagesPerWindow >= 1
    requires |times| == cfg.messagesPerWindow + 1
    requires WithinWindow(times, cfg.windowSeconds)
    ensures var first := times[..cfg.messagesPerWindow];
      && RunChecks(cfg, FreshEntry, first).entry == Entry(first, None)
      && forall i :: 0 <= i < |first| ==> first[i] > times[cfg.messagesPerWindow] - cfg.windowSeconds
  {
    var n := cfg.messagesPerWindow;
    var first := times[..n];
    assert [] + first == first;
    assert WithinWindow([] + first, cfg.windowSeconds) by {
      forall i, j | 0 <= i < |first| && 0 <= j < |first| ensures first[j] - first[i] < cfg.windowSeconds {
        assert first[j] == times[j] && first[i] == times[i];
      }
    }
    RunRecordsAll(cfg, [], first);
    forall i | 0 <= i < n ensures first[i] > times[n] - cfg.windowSeconds {
      assert times[n] - times[i] < cfg.windowSeconds;
    }
  }

  /** A full window of N recent times refuses the next check with a cooldown of C. */
  lemma LastRefused(cfg: Config, first: seq<real>, now: real)
    requires |first| == cfg.messagesPerWindow
    requires forall i :: 0 <= i < |first| ==> first[i] > now - cfg.windowSeconds
    ensures RunChecks(cfg, Entry(first, None), [now]).denials == [Some(TooManyMessages(cfg.cooldownSeconds))]
  {
    assert Recent(first, now - cfg.windowSeconds) == first;
    assert [now][1..] == [];
  }

  /** A run over `a + b` is the run over `a` followed by the run over `b` from where `a` left off. */
  lemma {:induction false} RunSplit(cfg: Config, e: Entry, a: seq<real>, b: seq<real>)
    ensures var ra := RunChecks(cfg, e, a);
      var rb := RunChecks(cfg, ra.entry, b);
      RunChecks(cfg, e, a + b) == Run(ra.denials + rb.denials, rb.entry)
    decreases |a|
  {
    if a == [] {
      assert a + b == b;
    } else {
      assert (a + b)[1..] == a[1..] + b;
      RunSplit(cfg, Check(cfg, Some(e), a[0]).entry, a[1..], b);
    }
  }

  /**
   * The default settings (3 per 1 s, 2 s cooldown), one check at a time: three messages in
   * quick succession pass.
   */
  lemma ScenarioOpenSteps()
    ensures Check(DefaultConfig, Some(FreshEntry), 0.0) == Decision(None, Entry([0.0], None))
    ensures Check(DefaultConfig, Some(Entry([0.0], None)), 0.1) == Decision(None, Entry([0.0, 0.1], None))
    ensures Check(DefaultConfig, Some(Entry([0.0, 0.1], None)), 0.2) == Decision(None, Entry([0.0, 0.1, 0.2], None))
  {
    assert Recent([0.0], 0.1 - 1.0) == [0.0];
    assert Recent([0.0, 0.1], 0.2 - 1.0) == [0.0, 0.1];
  }

  /** Continuing the scenario: a fourth message is refused with "Too many messages" and a 2 s cooldown. */
  lemma ScenarioFourthRefused()
    ensures Check(DefaultConfig, Some(Entry([0.0, 0.1, 0.2], None)), 0.3)
      == Decision(Some(TooManyMessages(2.0)), Entry([0.0, 0.1, 0.2], Some(2.3)))
  {
    assert Recent([0.0, 0.1, 0.2], 0.3 - 1.0) == [0.0, 0.1, 0.2];
  }

  /**
   * Continuing the scenario: a message inside the cooldown is refused with a 2 s retry hint
   * and changes nothing; one sent after the cooldown starts a fresh window.
   */
  lemma ScenarioBlockedSteps()
    ensures Check(DefaultConfig, Some(Entry([0.0, 0.1, 0.2], Some(2.3))), 1.0)
      == Decision(Some(RateLimited(2)), Entry([0.0, 0.1, 0.2], Some(2.3)))
    ensures Check(DefaultConfig, Some(Entry([0.0, 0.1, 0.2], Some(2.3))), 2.5) == Decision(None, Entry([2.5], None))
  {
    assert (2.3 - 1.0).Floor == 1;
  }

  class RateLimiter {
    const config: Config
    var userLimits: map<string, Entry>

    /** Every user's window holds at most N timestamps. */
    ghost predicate Valid()
      reads this
    {
      forall u :: u in userLimits ==> |userLimits[u].timestamps| <= Capacity(config)
    }

    constructor (messagesPerWindow: int := 3, windowSeconds: real := 1.0, cooldownSeconds: real := 2.0)
      ensures config == Config(messagesPerWindow, windowSeconds, cooldownSeconds)
      ensures userLimits == map[]
      ensures Valid()
    {
      config := Config(messagesPerWindow, windowSeconds, cooldownSeconds);
      userLimits := map[];
    }

    /**
     * `is_rate_limited`: `limited` is the verdict and `denial` the reason given with it.
     * Only the checked user's entry changes.
     */
    method IsRateLimited(userId: string, now: real) returns (limited: bool, denial: Option<Denial>)
      requires Valid()
      modifies this
      ensures Valid()
      ensures var d := Check(config, Lookup(old(userLimits), userId), now);
        denial == d.denial && userLimits == old(userLimits)[userId := d.entry]
      ensures limited <==> denial.Some?
    {
      if userId !in userLimits {
        userLimits := userLimits[userId := Entry([], None)];
      }
      var userData := userLimits[userId];
      if userData.blockedUntil.Some? {
        if now < userData.blockedUntil.value {
          var retryAfter := (userData.blockedUntil.value - now).Floor + 1;
          return true, Some(RateLimited(retryAfter));
        } else {
          userData := userData.(blockedUntil := None);
          userData := userData.(timestamps := []);
        }
      }
      var cutoff := now - config.windowSeconds;
      userData := userData.(timestamps := Recent(userData.timestamps, cutoff));
      if |userData.timestamps| < config.messagesPerWindow {
        userData := userData.(timestamps := userData.timestamps + [now]);
        userLimits := userLimits[userId := userData];
        return false, None;
      } else {
        userData := userData.(blockedUntil := Some(now + config.cooldownSeconds));
        userLimits := userLimits[userId := userData];
        return true, Some(TooManyMessages(config.cooldownSeconds));
      }
    }

    /** `get_user_stats`: a read-only snapshot, trimming only a copy of the window. */
    function GetUserStats(userId: string, now: real): (s: Stats)
      reads this
      ensures s.userId == userId && s.limit == config.messagesPerWindow
      ensures userId !in userLimits ==> s.messagesInWindow == 0 && !s.isBlocked && s.blockedUntil == None
      ensures userId in userLimits ==>
        var e := userLimits[userId];
        && s.blockedUntil == e.blockedUntil
        && (s.isBlocked <==> Blocked(e, now))
        && s.messagesInWindow == |Recent(e.timestamps, now - config.windowSeconds)|
        && (e.blockedUntil == None ==> s.messagesInWindow == |Window(config, e, now)|)
        && s.messagesInWindow <= |e.timestamps|
        && ((forall i :: 0 <= i < |e.timestamps| ==> e.timestamps[i] > now - config.windowSeconds)
            ==> s.messagesInWindow == |e.timestamps|)
    {
      if userId !in userLimits then Stats(userId, 0, config.messagesPerWindow, false, None)
      else
        var e := userLimits[userId];
        var valid := Recent(e.timestamps, now - config.windowSeconds);
        Stats(userId, |valid|, config.messagesPerWindow, e.blockedUntil.Some? && now < e.blockedUntil.value, e.blockedUntil)
    }

    /** `reset_user`: clears a tracked user's entry; an untracked user stays untracked. */
    method ResetUser(userId: string)
      requires Valid()
      modifies this
      ensures Valid()
      ensures userLimits == if userId in old(userLimits) then old(userLimits)[userId := FreshEntry] else old(userLimits)
    {
      if userId in userLimits {
        userLimits := userLimits[userId := Entry([], None)];
      }
    }

    /** `cleanup_old_entries`: drops exactly the idle users and answers how many it dropped. */
    method CleanupOldEntries(now: real, maxIdleSeconds: int := 3600) returns (removed: nat)
      requires Valid()
      modifies this
      ensures Valid()
      ensures userLimits == map u | u in old(userLimits) && !Idle(old(userLimits)[u], now, maxIdleSeconds) :: old(userLimits)[u]
      ensures removed == |IdleUsers(old(userLimits), now, maxIdleSeconds)|
    {
      var usersToRemove: set<string> := {};
      var pending := userLimits.Keys;
      while pending != {}
        invariant pending <= userLimits.Keys
        invariant usersToRemove == set u | u in userLimits && u !in pending && Idle(userLimits[u], now, maxIdleSeconds)
        decreases pending
      {
        var u :| u in pending;
        if Idle(userLimits[u], now, maxIdleSeconds) {
          usersToRemove := usersToRemove + {u};
        }
        pending := pending - {u};
      }
      assert usersToRemove == IdleUsers(old(userLimits), now, maxIdleSeconds);
      var rest := usersToRemove;
      while rest != {}
        invariant rest <= usersToRemove
        invariant userLimits == map u | u in old(userLimits) && u !in usersToRemove - rest :: old(userLimits)[u]
        decreases rest
      {
        var u :| u in rest;
        userLimits := userLimits - {u};
        rest := rest - {u};
      }
      ghost var kept := map u | u in old(userLimits) && !Idle(old(userLimits)[u], now, maxIdleSeconds) :: old(userLimits)[u];
      assert userLimits.Keys == kept.Keys;
      assert forall u :: u in kept ==> userLimits[u] == kept[u];
      removed := |usersToRemove|;
    }
  }

  /**
   * What `get_user_stats` reports predicts the next check: a blocked user is refused with a
   * retry hint, and a user with room left in the window, or whose cooldown is over, is let through.
   */
  lemma StatsPredictCheck(rl: RateLimiter, userId: string, now: real)
    ensures var s := rl.GetUserStats(userId, now);
      var d := Check(rl.config, Lookup(rl.userLimits, userId), now);
      && (s.isBlocked ==> d.denial.Some? && d.denial.value.RateLimited?)
      && (s.blockedUntil == None && s.messagesInWindow < rl.config.messagesPerWindow ==> d.denial == None)
      && (!s.isBlocked && s.blockedUntil.Some? && rl.config.messagesPerWindow >= 1 ==> d.denial == None)
  {
  }
}
