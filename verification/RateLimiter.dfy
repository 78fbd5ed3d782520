/**
 The sliding-window limiter (platform/security/ratelimit.py): a pruned window per
 key, and a bounded number of keys in insertion order.

 The specification never prunes.  It reads decisions off the whole log of checks.
 */
module RateLimiter {
  import opened Prelude

  datatype Entry = Entry(key: string, now: real, allowed: bool)
  datatype Decision = Decision(allowed: bool, limit: nat, remaining: nat, retryAfter: Option<real>)
  datatype Config = Config(limit: nat, window: real, maxKeys: nat)

  /** The limiter's own checks on its settings. */
  ghost predicate ValidConfig(c: Config) {
    c.limit >= 1 && c.window > 0.0 && c.maxKeys >= 1
  }

  // ----- which keys are tracked -----

  function Admit(order: seq<string>, key: string, maxKeys: nat): seq<string>
    requires maxKeys >= 1
  {
    if key in order then order
    else (if |order| >= maxKeys then order[1..] else order) + [key]
  }

  function Tracked(log: seq<Entry>, maxKeys: nat): seq<string>
    requires maxKeys >= 1
  {
    if log == [] then [] else Admit(Tracked(log[..|log| - 1], maxKeys), log[|log| - 1].key, maxKeys)
  }

  /** Every insertion of a key, in order. */
  function Insertions(log: seq<Entry>, maxKeys: nat): seq<string>
    requires maxKeys >= 1
  {
    if log == [] then []
    else
      var before, key := log[..|log| - 1], log[|log| - 1].key;
      Insertions(before, maxKeys) + if key in Tracked(before, maxKeys) then [] else [key]
  }

  // ----- the full history of a key -----

  /** Times of the allowed attempts on `key` since it was last inserted. */
  function Since(log: seq<Entry>, key: string, maxKeys: nat): seq<real>
    requires maxKeys >= 1
    decreases |log|, 0
  {
    if log == [] then []
    else
      var before, e := log[..|log| - 1], log[|log| - 1];
      if e.key != key then Since(before, key, maxKeys)
      else Counted(before, key, maxKeys) + if e.allowed then [e.now] else []
  }

  /** What a check of `key` made next has to count. */
  function Counted(log: seq<Entry>, key: string, maxKeys: nat): seq<real>
    requires maxKeys >= 1
    decreases |log|, 1
  {
    if key in Tracked(log, maxKeys) then Since(log, key, maxKeys) else []
  }

  function Recent(times: seq<real>, now: real, window: real): seq<real> {
    if times == [] then []
    else
      var n := |times| - 1;
      Recent(times[..n], now, window) + if now - times[n] < window then [times[n]] else []
  }

  /** The allowed attempts of the full history that a check has to count. */
  function InWindow(c: Config, log: seq<Entry>, key: string, now: real): seq<real>
    requires c.maxKeys >= 1
  {
    Recent(Counted(log, key, c.maxKeys), now, c.window)
  }

  /** The decision a limiter that keeps everything would take. */
  predicate Allows(c: Config, log: seq<Entry>, key: string, now: real)
    requires c.maxKeys >= 1
  {
    |InWindow(c, log, key, now)| < c.limit
  }

  predicate ClockAt(log: seq<Entry>, now: real) {
    forall i :: 0 <= i < |log| ==> log[i].now <= now
  }

  /** No key is empty, the clock never goes back, and every entry is the decision of the full history before it. */
  ghost predicate Honest(c: Config, log: seq<Entry>)
    requires c.maxKeys >= 1
  {
    log == [] ||
      var before, e := log[..|log| - 1], log[|log| - 1];
      && Honest(c, before) && ClockAt(before, e.now)
      && e.key != "" && e.allowed == Allows(c, before, e.key, e.now)
  }

  // ----- pruning from the left finds the recent attempts -----

  ghost predicate Sorted(times: seq<real>) {
    forall i, j :: 0 <= i <= j < |times| ==> times[i] <= times[j]
  }

  ghost predicate UpTo(times: seq<real>, now: real) {
    Sorted(times) && forall i :: 0 <= i < |times| ==> times[i] <= now
  }

  /** Of a sorted history the recent attempts are a suffix. */
  lemma {:induction false} RecentIsSuffix(times: seq<real>, now: real, window: real) returns (cut: nat)
    requires Sorted(times)
    ensures cut <= |times| && Recent(times, now, window) == times[cut..]
    ensures forall i :: 0 <= i < |times| ==> (now - times[i] < window <==> cut <= i)
  {
    cut := 0;
    if times != [] {
      var n := |times| - 1;
      cut := RecentIsSuffix(times[..n], now, window);
      assert forall i :: 0 <= i < n ==> times[..n][i] == times[i];
      cut := SuffixGrows(times, now, window, cut);
    }
  }

  lemma SuffixGrows(times: seq<real>, now: real, window: real, cut: nat) returns (cut': nat)
    requires Sorted(times) && times != [] && cut <= |times| - 1
    requires Recent(times[..|times| - 1], now, window) == times[..|times| - 1][cut..]
    requires forall i :: 0 <= i < |times| - 1 ==> (now - times[i] < window <==> cut <= i)
    ensures cut' <= |times| && Recent(times, now, window) == times[cut'..]
    ensures forall i :: 0 <= i < |times| ==> (now - times[i] < window <==> cut' <= i)
  {
    var n := |times| - 1;
    if now - times[n] < window {
      cut' := cut;
      assert times[cut..] == times[..n][cut..] + [times[n]];
    } else {
      cut' := n + 1;
      assert forall i :: 0 <= i < n ==> times[i] <= times[n];
    }
  }

  lemma RecentAt(times: seq<real>, now: real, window: real, cut: nat)
    requires Sorted(times) && cut <= |times|
    requires forall i :: 0 <= i < |times| ==> (now - times[i] < window <==> cut <= i)
    ensures Recent(times, now, window) == times[cut..]
  {
    var c := RecentIsSuffix(times, now, window);
    assert c < |times| ==> cut <= c;
    assert cut < |times| ==> c <= cut;
  }

  /** What an earlier prune removed stays expired. */
  lemma RecentOfRecent(times: seq<real>, was: real, now: real, window: real)
    requires Sorted(times) && was <= now
    ensures Recent(Recent(times, was, window), now, window) == Recent(times, now, window)
  {
    hide Recent;
    var cut := RecentIsSuffix(times, was, window);
    var cut' := RecentIsSuffix(times, now, window);
    assert cut' < |times| ==> now - times[cut'] < window && was - times[cut'] < window;
    var rest := times[cut..];
    assert forall i :: 0 <= i < |rest| ==> rest[i] == times[cut + i];
    RecentAt(rest, now, window, cut' - cut);
    assert rest[cut' - cut..] == times[cut'..];
  }

  lemma RecentAppend(had: seq<real>, now: real, window: real, allowed: bool)
    requires window > 0.0
    ensures Recent(had + (if allowed then [now] else []), now, window)
         == Recent(had, now, window) + (if allowed then [now] else [])
  {
    assert had + [] == had;
    assert (had + [now])[..|had|] == had;
  }

  // ----- the histories of an honest log -----

  lemma {:induction false} SinceSorted(c: Config, log: seq<Entry>, key: string, now: real)
    requires c.maxKeys >= 1 && Honest(c, log) && ClockAt(log, now)
    ensures UpTo(Since(log, key, c.maxKeys), now) && UpTo(Counted(log, key, c.maxKeys), now)
  {
    if log != [] {
      var e := log[|log| - 1];
      assert e.now <= now;
      SinceSorted(c, log[..|log| - 1], key, e.now);
    }
  }

  /** Never more than `limit` allowed attempts within one window, whenever it is looked at. */
  lemma {:induction false} WindowNeverOverfull(c: Config, log: seq<Entry>, key: string, now: real)
    requires ValidConfig(c) && Honest(c, log) && ClockAt(log, now)
    ensures |Recent(Since(log, key, c.maxKeys), now, c.window)| <= c.limit
  {
    if log != [] {
      var before, e := log[..|log| - 1], log[|log| - 1];
      assert e.now <= now;
      SinceSorted(c, before, key, e.now);
      SinceSorted(c, log, key, now);
      if e.key != key {
        WindowNeverOverfull(c, before, key, now);
      } else {
        var had, has := Counted(before, key, c.maxKeys), Since(log, key, c.maxKeys);
        if key in Tracked(before, c.maxKeys) {
          WindowNeverOverfull(c, before, key, e.now);
        }
        RecentAppend(had, e.now, c.window, e.allowed);
        assert |Recent(has, e.now, c.window)| <= c.limit;
        var was := RecentIsSuffix(has, e.now, c.window);
        var cut := RecentIsSuffix(has, now, c.window);
        if cut < was { assert now - has[cut] < c.window; }
      }
    }
  }

  // ----- main results -----

  /** Any two allowed attempts `limit` apart are at least one window apart in time. */
  lemma {:induction false} AttemptsAreSpaced(c: Config, log: seq<Entry>, key: string, i: nat)
    requires ValidConfig(c) && Honest(c, log) && i + c.limit < |Since(log, key, c.maxKeys)|
    ensures Since(log, key, c.maxKeys)[i + c.limit] - Since(log, key, c.maxKeys)[i] >= c.window
  {
    var before, e := log[..|log| - 1], log[|log| - 1];
    if e.key != key {
      AttemptsAreSpaced(c, before, key, i);
    } else {
      var had := Counted(before, key, c.maxKeys);
      if i + c.limit < |had| {
        AttemptsAreSpaced(c, before, key, i);
      } else {
        SinceSorted(c, before, key, e.now);
        var cut := RecentIsSuffix(had, e.now, c.window);
      }
    }
  }

  /** The delay a denial announces. */
  function RetryAfter(c: Config, log: seq<Entry>, key: string, now: real): real
    requires c.maxKeys >= 1
  {
    var recent := InWindow(c, log, key, now);
    if recent == [] then 0.0 else c.window - (now - recent[0])
  }

  /** What a limiter that keeps everything would answer. */
  function FullDecision(c: Config, log: seq<Entry>, key: string, now: real): Decision
    requires c.maxKeys >= 1
  {
    if Allows(c, log, key, now) then Decision(true, c.limit, c.limit - |InWindow(c, log, key, now)| - 1, None)
    else Decision(false, c.limit, 0, Some(RetryAfter(c, log, key, now)))
  }

  /** After `more`, `key` has been tracked all along and has had no further success. */
  ghost predicate Denied(log: seq<Entry>, more: seq<Entry>, key: string, maxKeys: nat)
    requires maxKeys >= 1
    decreases |more|
  {
    && key in Tracked(log + more, maxKeys)
    && (more != [] ==>
         && Denied(log, more[..|more| - 1], key, maxKeys)
         && (more[|more| - 1].key == key ==> !more[|more| - 1].allowed))
  }

  lemma {:induction false} DenialsCountNothing(log: seq<Entry>, more: seq<Entry>, key: string, maxKeys: nat)
    requires maxKeys >= 1 && Denied(log, more, key, maxKeys)
    ensures Counted(log + more, key, maxKeys) == Since(log, key, maxKeys)
    decreases |more|
  {
    if more == [] {
      assert log + more == log;
    } else {
      DenialsCountNothing(log, more[..|more| - 1], key, maxKeys);
      assert (log + more)[..|log + more| - 1] == log + more[..|more| - 1];
    }
  }

  /**
   `retry_after_s` is exact: it is positive, and as long as the key stays tracked and
   gets no success, whatever else is checked meanwhile, the next check is allowed
   exactly when that delay is over.
   */
  lemma RetryAfterIsExact(c: Config, log: seq<Entry>, key: string, now: real, more: seq<Entry>, later: real)
    requires ValidConfig(c) && Honest(c, log) && ClockAt(log, now) && !Allows(c, log, key, now) && now <= later
    requires Denied(log + [Entry(key, now, false)], more, key, c.maxKeys)
    ensures RetryAfter(c, log, key, now) > 0.0
    ensures Allows(c, log + [Entry(key, now, false)] + more, key, later)
            <==> later >= now + RetryAfter(c, log, key, now)
  {
    var denied := log + [Entry(key, now, false)];
    assert denied[..|log|] == log;
    DenialsCountNothing(denied, more, key, c.maxKeys);
    var times := Counted(log, key, c.maxKeys);
    SinceSorted(c, log, key, now);
    WindowNeverOverfull(c, log, key, now);
    var cut := RecentIsSuffix(times, now, c.window);
    var cut' := RecentIsSuffix(times, later, c.window);
    assert times == Counted(denied + more, key, c.maxKeys);
    assert |times| - cut == c.limit;
    assert Recent(times, now, c.window)[0] == times[cut];
  }

  function Last(all: seq<string>, n: nat): seq<string> {
    if |all| <= n then all else all[|all| - n..]
  }

  lemma LastAppend(all: seq<string>, n: nat, key: string)
    requires n >= 1
    ensures Last(all + [key], n) == (if |Last(all, n)| >= n then Last(all, n)[1..] else Last(all, n)) + [key]
  {
    assert |all| > n ==> all[|all| - n..][1..] == all[|all| - n + 1..];
  }

  /** The tracked keys are the last insertions, as many as fit. */
  lemma {:induction false} TrackedAreTheLastInsertions(log: seq<Entry>, maxKeys: nat)
    requires maxKeys >= 1
    ensures Tracked(log, maxKeys) == Last(Insertions(log, maxKeys), maxKeys)
  {
    if log != [] {
      var before := log[..|log| - 1];
      TrackedAreTheLastInsertions(before, maxKeys);
      LastAppend(Insertions(before, maxKeys), maxKeys, log[|log| - 1].key);
    }
  }

  /** A key survives exactly maxKeys - 1 later insertions of other keys. */
  lemma SurvivesExactly(log: seq<Entry>, maxKeys: nat, key: string, i: nat)
    requires maxKeys >= 1 && i < |Insertions(log, maxKeys)| && Insertions(log, maxKeys)[i] == key
    requires forall j :: i < j < |Insertions(log, maxKeys)| ==> Insertions(log, maxKeys)[j] != key
    ensures key in Tracked(log, maxKeys) <==> |Insertions(log, maxKeys)| - 1 - i <= maxKeys - 1
  {
    hide Insertions, Tracked;
    TrackedAreTheLastInsertions(log, maxKeys);
    LastOf(Insertions(log, maxKeys), Tracked(log, maxKeys), key, i);
  }

  lemma LastOf(all: seq<string>, kept: seq<string>, key: string, i: nat)
    requires |kept| <= |all| && kept == all[|all| - |kept|..] && i < |all| && all[i] == key
    requires forall j :: i < j < |all| ==> all[j] != key
    ensures key in kept <==> |all| - |kept| <= i
  {
    assert forall j :: 0 <= j < |kept| ==> kept[j] == all[|all| - |kept| + j];
    var gone := |all| - |kept|;
    if gone <= i {
      assert kept[i - gone] == key;
    }
  }

  lemma {:induction false} TrackedDistinct(log: seq<Entry>, maxKeys: nat)
    requires maxKeys >= 1
    ensures |Tracked(log, maxKeys)| <= maxKeys
    ensures forall i, j :: 0 <= i < j < |Tracked(log, maxKeys)| ==> Tracked(log, maxKeys)[i] != Tracked(log, maxKeys)[j]
  {
    if log != [] {
      TrackedDistinct(log[..|log| - 1], maxKeys);
    }
  }

  // ----- the limiter -----

  function LastSeen(log: seq<Entry>, key: string): real {
    if log == [] then 0.0
    else if log[|log| - 1].key == key then log[|log| - 1].now
    else LastSeen(log[..|log| - 1], key)
  }

  /** What the deque of a tracked key holds. */
  ghost predicate WindowOk(c: Config, windows: map<string, seq<real>>, log: seq<Entry>, key: string)
    requires c.maxKeys >= 1
  {
    key in windows && windows[key] == Recent(Since(log, key, c.maxKeys), LastSeen(log, key), c.window)
  }

  /** The stored windows and their order say what the log says. */
  ghost predicate Stored(c: Config, windows: map<string, seq<real>>, order: seq<string>, log: seq<Entry>) {
    && ValidConfig(c) && Honest(c, log)
    && order == Tracked(log, c.maxKeys)
    && windows.Keys == (set k | k in order)
    && forall k :: k in order ==> WindowOk(c, windows, log, k)
  }

  function Judged(c: Config, window: seq<real>, now: real): Decision
    requires |window| <= c.limit && c.limit >= 1
  {
    if |window| < c.limit then Decision(true, c.limit, c.limit - |window| - 1, None)
    else Decision(false, c.limit, 0, Some(Max(0.0, c.window - (now - window[0]))))
  }

  class SlidingWindowRateLimiter {
    const config: Config
    var windows: map<string, seq<real>>
    /** The insertion order of `windows`. */
    var order: seq<string>
    ghost var log: seq<Entry>

    ghost predicate Valid()
      reads this
    {
      Stored(config, windows, order, log)
    }

    constructor (config: Config)
      requires ValidConfig(config)
      ensures Valid() && log == [] && this.config == config
    {
      this.config, windows, order, log := config, map[], [], [];
    }

    /** `_window_for`. */
    method WindowFor(key: string) returns (window: seq<real>)
      requires config.maxKeys >= 1 && windows.Keys == (set k | k in order)
      requires forall i, j :: 0 <= i < j < |order| ==> order[i] != order[j]
      modifies this`windows, this`order
      ensures order == old(Admit(order, key, config.maxKeys)) && windows.Keys == (set k | k in order)
      ensures key in windows && window == windows[key] == (if key in old(order) then old(windows)[key] else [])
      ensures forall k :: k in order && k != key ==> k in old(order) && windows[k] == old(windows)[k]
    {
      if key !in windows {
        if |order| >= config.maxKeys {
          windows := windows - {order[0]};
          order := order[1..];
        }
        order := order + [key];
        windows := windows[key := []];
      }
      window := windows[key];
    }

    /** `_prune`. */
    method Prune(window: seq<real>, now: real) returns (rest: seq<real>)
      requires Sorted(window)
      ensures rest == Recent(window, now, config.window)
    {
      rest := window;
      ghost var cut := RecentIsSuffix(window, now, config.window);
      while rest != [] && now - rest[0] >= config.window
        invariant |rest| <= |window| && rest == window[|window| - |rest|..] && |window| - |rest| <= cut
      {
        rest := rest[1..];
      }
    }

    /** The end of `check`, on a pruned window. */
    method Judge(window: seq<real>, now: real) returns (d: Decision, after: seq<real>)
      requires |window| <= config.limit && config.limit >= 1
      ensures d == Judged(config, window, now) && after == window + (if d.allowed then [now] else [])
    {
      after := window;
      if |window| < config.limit {
        after := after + [now];
        d := Decision(true, config.limit, config.limit - |after|, None);
      } else {
        d := Decision(false, config.limit, 0, Some(Max(0.0, config.window - (now - window[0]))));
      }
    }

    /**
     `check`: the decision, the remaining budget and the delay are those of the
     full history; None is the error for an empty key, which changes nothing.
     */
    method Check(key: string, now: real) returns (d: Option<Decision>)
      requires Valid() && ClockAt(log, now)
      modifies this
      ensures Valid()
      ensures key == "" ==> d.None? && log == old(log) && order == old(order) && windows == old(windows)
      ensures key != "" ==> d == Some(FullDecision(config, old(log), key, now))
      ensures key != "" ==> log == old(log) + [Entry(key, now, Allows(config, old(log), key, now))]
    {
      if key == "" {
        return None;
      }
      hide Recent, Since, Counted, Tracked, Stored, Honest, LastSeen, Admit, ClockAt, Sorted;
      hide InWindow, Judged, FullDecision, Allows;
      ghost var was, windows0, order0 := log, windows, order;
      BeforeCheck(config, windows, order, log, key, now);
      var window := WindowFor(key);
      ghost var windows1 := windows;
      window := Prune(window, now);
      ghost var allowed := Allows(config, was, key, now);
      JudgesFully(config, was, key, now);
      var decision;
      decision, window := Judge(window, now);
      windows := windows[key := window];
      log := log + [Entry(key, now, allowed)];
      CheckedWindow(config, was, key, now, allowed);
      AfterCheck(config, windows0, order0, was, windows1, order, key, now, allowed, window);
      d := Some(decision);
    }
  }

  lemma BeforeCheck(c: Config, windows: map<string, seq<real>>, order: seq<string>, log: seq<Entry>, key: string,
                    now: real)
    requires Stored(c, windows, order, log) && ClockAt(log, now)
    ensures ValidConfig(c) && Honest(c, log) && windows.Keys == (set k | k in order) && order == Tracked(log, c.maxKeys)
    ensures forall i, j :: 0 <= i < j < |order| ==> order[i] != order[j]
    ensures var window := if key in order then windows[key] else [];
            Sorted(window) && Recent(window, now, c.window) == InWindow(c, log, key, now)
  {
    TrackedDistinct(log, c.maxKeys);
    SinceSorted(c, log, key, now);
    assert key in order ==> WindowOk(c, windows, log, key);
    WindowCounts(c, log, key, now, if key in order then windows[key] else []);
  }

  /** The lower bound of zero on the delay is never needed. */
  lemma JudgesFully(c: Config, log: seq<Entry>, key: string, now: real)
    requires ValidConfig(c) && Honest(c, log) && ClockAt(log, now)
    ensures |InWindow(c, log, key, now)| <= c.limit
    ensures Judged(c, InWindow(c, log, key, now), now) == FullDecision(c, log, key, now)
    ensures FullDecision(c, log, key, now).allowed == Allows(c, log, key, now)
  {
    SinceSorted(c, log, key, now);
    WindowNeverOverfull(c, log, key, now);
    var cut := RecentIsSuffix(Counted(log, key, c.maxKeys), now, c.window);
  }

  lemma AfterCheck(c: Config, windows: map<string, seq<real>>, order: seq<string>, log: seq<Entry>,
                   windows': map<string, seq<real>>, order': seq<string>, key: string, now: real, allowed: bool,
                   window: seq<real>)
    requires Stored(c, windows, order, log) && order' == Admit(order, key, c.maxKeys) && key in order'
    requires windows'.Keys == (set k | k in order')
    requires forall k :: k in order' && k != key ==> k in order && windows'[k] == windows[k]
    requires Honest(c, log + [Entry(key, now, allowed)])
    requires LastSeen(log + [Entry(key, now, allowed)], key) == now
    requires Tracked(log + [Entry(key, now, allowed)], c.maxKeys) == order'
    requires window == Recent(Since(log + [Entry(key, now, allowed)], key, c.maxKeys), now, c.window)
    ensures Stored(c, windows'[key := window], order', log + [Entry(key, now, allowed)])
  {
    hide Recent, Since, Counted, Tracked, Honest, LastSeen, Admit;
    var log', stored := log + [Entry(key, now, allowed)], windows'[key := window];
    forall k | k in order' ensures WindowOk(c, stored, log', k) {
      if k != key {
        assert WindowOk(c, windows, log, k);
        OtherWindow(log, Entry(key, now, allowed), k, c.maxKeys);
      }
    }
    assert stored.Keys == windows'.Keys + {key} == windows'.Keys;
  }

  /** Pruning a stored window again gives the full history's recent attempts. */
  lemma WindowCounts(c: Config, log: seq<Entry>, key: string, now: real, window: seq<real>)
    requires ValidConfig(c) && Honest(c, log) && ClockAt(log, now)
    requires key in Tracked(log, c.maxKeys) ==>
               window == Recent(Since(log, key, c.maxKeys), LastSeen(log, key), c.window)
    requires key !in Tracked(log, c.maxKeys) ==> window == []
    ensures Sorted(window)
    ensures Recent(window, now, c.window) == InWindow(c, log, key, now)
  {
    if key in Tracked(log, c.maxKeys) {
      var times, was := Since(log, key, c.maxKeys), LastSeen(log, key);
      SinceSorted(c, log, key, now);
      SeenBefore(log, key, now, c.maxKeys);
      var cut := RecentIsSuffix(times, was, c.window);
      RecentOfRecent(times, was, now, c.window);
    }
  }

  lemma {:induction false} SeenBefore(log: seq<Entry>, key: string, now: real, maxKeys: nat)
    requires maxKeys >= 1 && ClockAt(log, now) && key in Tracked(log, maxKeys)
    ensures LastSeen(log, key) <= now
  {
    if log[|log| - 1].key != key {
      SeenBefore(log[..|log| - 1], key, now, maxKeys);
    }
  }

  lemma OtherWindow(log: seq<Entry>, e: Entry, key: string, maxKeys: nat)
    requires maxKeys >= 1 && e.key != key
    ensures Since(log + [e], key, maxKeys) == Since(log, key, maxKeys) && LastSeen(log + [e], key) == LastSeen(log, key)
  {
    assert (log + [e])[..|log|] == log;
  }

  /** What the history of a key counts right after a check of it. */
  lemma CheckedWindow(c: Config, log: seq<Entry>, key: string, now: real, allowed: bool)
    requires ValidConfig(c) && Honest(c, log) && ClockAt(log, now) && key != ""
    requires allowed == Allows(c, log, key, now)
    ensures var log' := log + [Entry(key, now, allowed)];
            && Honest(c, log') && LastSeen(log', key) == now
            && Tracked(log', c.maxKeys) == Admit(Tracked(log, c.maxKeys), key, c.maxKeys)
            && Recent(Since(log', key, c.maxKeys), now, c.window)
               == InWindow(c, log, key, now) + (if allowed then [now] else [])
            && |Recent(Since(log', key, c.maxKeys), now, c.window)| <= c.limit
  {
    var log' := log + [Entry(key, now, allowed)];
    assert log'[..|log|] == log;
    RecentAppend(Counted(log, key, c.maxKeys), now, c.window, allowed);
    WindowNeverOverfull(c, log', key, now);
  }

  /** The log after n more allowed checks of the key at one moment. */
  function Again(log: seq<Entry>, key: string, now: real, n: nat): seq<Entry> {
    if n == 0 then log else Again(log, key, now, n - 1) + [Entry(key, now, true)]
  }

  /** An allowed check counts one more. */
  lemma CheckedCounts(c: Config, log: seq<Entry>, key: string, now: real)
    requires ValidConfig(c) && Honest(c, log) && ClockAt(log, now) && key != "" && Allows(c, log, key, now)
    ensures var log' := log + [Entry(key, now, true)];
            && Honest(c, log') && ClockAt(log', now)
            && |InWindow(c, log', key, now)| == |InWindow(c, log, key, now)| + 1
  {
    hide Honest, Since, Tracked, Recent, Allows;
    CheckedWindow(c, log, key, now, true);
    TrackedAfter(log, Entry(key, now, true), c.maxKeys);
  }

  lemma TrackedAfter(log: seq<Entry>, e: Entry, maxKeys: nat)
    requires maxKeys >= 1
    ensures e.key in Tracked(log + [e], maxKeys)
  {
    assert (log + [e])[..|log|] == log;
  }

  /** They are all allowed exactly when they fit under the limit. */
  lemma {:induction false} AgainFits(c: Config, log: seq<Entry>, key: string, now: real, n: nat)
    requires ValidConfig(c) && Honest(c, log) && ClockAt(log, now) && key != ""
    requires |InWindow(c, log, key, now)| <= c.limit
    ensures Honest(c, Again(log, key, now, n)) <==> n + |InWindow(c, log, key, now)| <= c.limit
    ensures Honest(c, Again(log, key, now, n)) ==>
              && ClockAt(Again(log, key, now, n), now)
              && |InWindow(c, Again(log, key, now, n), key, now)| == |InWindow(c, log, key, now)| + n
  {
    hide InWindow, Honest;
    if n > 0 {
      var before := Again(log, key, now, n - 1);
      AgainFits(c, log, key, now, n - 1);
      HonestAppend(c, before, Entry(key, now, true));
      if Honest(c, before) && Allows(c, before, key, now) {
        CheckedCounts(c, before, key, now);
      }
    }
  }

  lemma HonestAppend(c: Config, log: seq<Entry>, e: Entry)
    requires ValidConfig(c)
    ensures Honest(c, log + [e]) <==>
              Honest(c, log) && ClockAt(log, e.now) && e.key != "" && e.allowed == Allows(c, log, e.key, e.now)
  {
    hide Allows;
    assert (log + [e])[..|log|] == log;
  }

  /**
   `remaining` is what it says: of any number of further checks of the key at the same moment
   exactly so many are allowed after an allowed check, and none after a denied one.
   */
  lemma RemainingExact(c: Config, log: seq<Entry>, key: string, now: real, n: nat)
    requires ValidConfig(c) && Honest(c, log) && ClockAt(log, now) && key != ""
    ensures var d := FullDecision(c, log, key, now);
            && d.limit == c.limit && (d.allowed <==> d.retryAfter.None?) && (!d.allowed ==> d.remaining == 0)
            && (Honest(c, Again(log, key, now, n + 1)) <==> d.allowed && n <= d.remaining)
  {
    hide Honest, InWindow;
    JudgesFully(c, log, key, now);
    AgainFits(c, log, key, now, n + 1);
  }
}
