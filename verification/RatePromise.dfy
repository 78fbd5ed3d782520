/**
 What the limiter promises of a key over its whole life, evictions included: `limit`
 attempts per window hold exactly as long as the keys in use all fit.
 */
module RatePromise {
  import opened RateLimiter

  // ----- the whole log, evictions included -----

  /** Times of all allowed attempts on `key`, whether or not the key was evicted in between. */
  function AllowedOf(log: seq<Entry>, key: string): seq<real> {
    if log == [] then []
    else
      var e := log[|log| - 1];
      AllowedOf(log[..|log| - 1], key) + if e.key == key && e.allowed then [e.now] else []
  }

  /** The insertions of `key` that lie within one window. */
  function InsertedWithin(c: Config, log: seq<Entry>, key: string, now: real): nat
    requires c.maxKeys >= 1
  {
    if log == [] then 0
    else
      var (before, e) := (log[..|log| - 1], log[|log| - 1]);
      InsertedWithin(c, before, key, now)
      + if e.key == key && key !in Tracked(before, c.maxKeys) && now - e.now < c.window then 1 else 0
  }

  lemma {:induction false} RecentConcat(a: seq<real>, b: seq<real>, now: real, window: real)
    ensures Recent(a + b, now, window) == Recent(a, now, window) + Recent(b, now, window)
  {
    if b == [] {
      assert a + b == a;
    } else {
      RecentConcat(a, b[..|b| - 1], now, window);
      assert (a + b)[..|a + b| - 1] == a + b[..|b| - 1];
    }
  }

  /** Allowed attempts before the key's last insertion. */
  function Earlier(log: seq<Entry>, key: string, maxKeys: nat): seq<real>
    requires maxKeys >= 1
  {
    if log == [] then []
    else
      var (before, e) := (log[..|log| - 1], log[|log| - 1]);
      if e.key == key && key !in Tracked(before, maxKeys) then AllowedOf(before, key) else Earlier(before, key, maxKeys)
  }

  lemma {:induction false} AllowedSplits(log: seq<Entry>, key: string, maxKeys: nat)
    requires maxKeys >= 1
    ensures AllowedOf(log, key) == Earlier(log, key, maxKeys) + Since(log, key, maxKeys)
  {
    if log != [] {
      AllowedSplits(log[..|log| - 1], key, maxKeys);
    }
  }

  lemma {:induction false} AllowedUpTo(c: Config, log: seq<Entry>, key: string, now: real)
    requires c.maxKeys >= 1 && Honest(c, log) && ClockAt(log, now)
    ensures UpTo(AllowedOf(log, key), now)
  {
    if log != [] {
      assert log[|log| - 1].now <= now;
      AllowedUpTo(c, log[..|log| - 1], key, log[|log| - 1].now);
    }
  }

  /** Before its last insertion a key has at most `limit` recent attempts for each insertion in the window. */
  lemma {:induction false} EarlierBound(c: Config, log: seq<Entry>, key: string, now: real)
    requires ValidConfig(c) && Honest(c, log) && ClockAt(log, now)
    ensures |Recent(Earlier(log, key, c.maxKeys), now, c.window)| <= c.limit * InsertedWithin(c, log, key, now)
  {
    hide Recent, Since, Tracked;
    if log == [] {
      AllExpired([], now, c.window);
    } else {
      var (before, e) := (log[..|log| - 1], log[|log| - 1]);
      EarlierBound(c, before, key, now);
      if e.key == key && key !in Tracked(before, c.maxKeys) {
        if now - e.now < c.window {
          AllowedBound(c, before, key, now);
        } else {
          AllowedUpTo(c, before, key, e.now);
          AllExpired(AllowedOf(before, key), now, c.window);
        }
      }
    }
  }

  /** One more insertion makes room for one more full window. */
  lemma AllowedBound(c: Config, log: seq<Entry>, key: string, now: real)
    requires ValidConfig(c) && Honest(c, log) && ClockAt(log, now)
    requires |Recent(Earlier(log, key, c.maxKeys), now, c.window)| <= c.limit * InsertedWithin(c, log, key, now)
    ensures |Recent(AllowedOf(log, key), now, c.window)| <= c.limit * (InsertedWithin(c, log, key, now) + 1)
  {
    hide Recent, Since, Tracked, Earlier, InsertedWithin, AllowedOf, Honest;
    AllowedSplits(log, key, c.maxKeys);
    RecentConcat(Earlier(log, key, c.maxKeys), Since(log, key, c.maxKeys), now, c.window);
    WindowNeverOverfull(c, log, key, now);
  }

  lemma {:induction false} AllExpired(times: seq<real>, now: real, window: real)
    requires forall i :: 0 <= i < |times| ==> now - times[i] >= window
    ensures Recent(times, now, window) == []
  {
    if times != [] {
      AllExpired(times[..|times| - 1], now, window);
    }
  }

  /**
   Over the whole log a key has at most `limit` allowed attempts within one window for
   every time it was inserted in that window, and `limit` more.
   */
  lemma WindowBound(c: Config, log: seq<Entry>, key: string, now: real)
    requires ValidConfig(c) && Honest(c, log) && ClockAt(log, now)
    ensures |Recent(AllowedOf(log, key), now, c.window)| <= c.limit * (InsertedWithin(c, log, key, now) + 1)
  {
    EarlierBound(c, log, key, now);
    AllowedBound(c, log, key, now);
  }

  /** At most `limit` allowed attempts of the key within the window that ends at `now`. */
  ghost predicate PromiseKept(c: Config, log: seq<Entry>, key: string, now: real) {
    |Recent(AllowedOf(log, key), now, c.window)| <= c.limit
  }

  /** The insertions made by `more` after `base`. */
  function InsertedBy(base: seq<Entry>, more: seq<Entry>, maxKeys: nat): seq<string>
    requires maxKeys >= 1
  {
    if more == [] then []
    else
      var (front, key) := (more[..|more| - 1], more[|more| - 1].key);
      InsertedBy(base, front, maxKeys) + if key in Tracked(base + front, maxKeys) then [] else [key]
  }

  lemma {:induction false} InsertionsConcat(base: seq<Entry>, more: seq<Entry>, maxKeys: nat)
    requires maxKeys >= 1
    ensures Insertions(base + more, maxKeys) == Insertions(base, maxKeys) + InsertedBy(base, more, maxKeys)
    decreases |more|
  {
    hide Tracked, Insertions;
    if more == [] {
      assert base + more == base;
    } else {
      var (front, last) := (more[..|more| - 1], more[|more| - 1]);
      var added := if last.key in Tracked(base + front, maxKeys) then [] else [last.key];
      InsertionsConcat(base, front, maxKeys);
      InsertionsStep(base + front, last, maxKeys);
      assert base + front + [last] == base + more;
      Regroup(Insertions(base, maxKeys), InsertedBy(base, front, maxKeys), added);
    }
  }

  lemma Regroup<T>(a: seq<T>, b: seq<T>, c: seq<T>)
    ensures a + b + c == a + (b + c)
  {
  }

  lemma InsertionsStep(log: seq<Entry>, e: Entry, maxKeys: nat)
    requires maxKeys >= 1
    ensures Insertions(log + [e], maxKeys)
         == Insertions(log, maxKeys) + if e.key in Tracked(log, maxKeys) then [] else [e.key]
  {
    assert (log + [e])[..|log|] == log;
  }

  /** A key inserted by `more`, with at most maxKeys insertions in all, is still tracked. */
  lemma InsertedIsTracked(base: seq<Entry>, more: seq<Entry>, key: string, maxKeys: nat)
    requires maxKeys >= 1 && |InsertedBy(base, more, maxKeys)| <= maxKeys && key in InsertedBy(base, more, maxKeys)
    ensures key in Tracked(base + more, maxKeys)
  {
    hide Insertions, Tracked, InsertedBy;
    TrackedAreTheLastInsertions(base + more, maxKeys);
    InsertionsConcat(base, more, maxKeys);
    InTail(Insertions(base, maxKeys), InsertedBy(base, more, maxKeys), maxKeys, key);
  }

  lemma InTail(a: seq<string>, b: seq<string>, n: nat, key: string)
    requires |b| <= n && key in b
    ensures key in Last(a + b, n)
  {
    var i :| 0 <= i < |b| && b[i] == key;
    assert (a + b)[|a| + i] == key;
    if |a + b| > n {
      assert Last(a + b, n)[|a| + i - (|a + b| - n)] == key;
    }
  }

  /** With at most maxKeys insertions a key is tracked exactly when it was inserted. */
  lemma {:induction false} TrackedWhileFew(base: seq<Entry>, more: seq<Entry>, key: string, maxKeys: nat)
    requires maxKeys >= 1 && key !in Tracked(base, maxKeys) && |InsertedBy(base, more, maxKeys)| <= maxKeys
    ensures key in Tracked(base + more, maxKeys) <==> key in InsertedBy(base, more, maxKeys)
    decreases |more|
  {
    hide Tracked;
    if key in InsertedBy(base, more, maxKeys) {
      InsertedIsTracked(base, more, key, maxKeys);
    } else if more == [] {
      assert base + more == base;
    } else {
      var (front, last) := (more[..|more| - 1], more[|more| - 1]);
      TrackedWhileFew(base, front, key, maxKeys);
      CheckedIsTracked(base + front, last, maxKeys);
      assert base + front + [last] == base + more;
    }
  }

  /** Then all its allowed attempts since are counted. */
  lemma {:induction false} CountedSince(base: seq<Entry>, more: seq<Entry>, key: string, maxKeys: nat)
    requires maxKeys >= 1 && key !in Tracked(base, maxKeys) && |InsertedBy(base, more, maxKeys)| <= maxKeys
    ensures AllowedOf(base + more, key) == AllowedOf(base, key) + Counted(base + more, key, maxKeys)
    decreases |more|
  {
    hide Tracked, Since, AllowedOf, Counted;
    if more == [] {
      assert base + more == base;
      NothingCounted(base, key, maxKeys);
    } else {
      var (front, last) := (more[..|more| - 1], more[|more| - 1]);
      assert base + front + [last] == base + more;
      TrackedWhileFew(base, more, key, maxKeys);
      TrackedWhileFew(base, front, key, maxKeys);
      CountedSince(base, front, key, maxKeys);
      CountedStep(base + front, last, key, maxKeys);
    }
  }

  lemma NothingCounted(log: seq<Entry>, key: string, maxKeys: nat)
    requires maxKeys >= 1 && key !in Tracked(log, maxKeys)
    ensures Counted(log, key, maxKeys) == []
  {
  }

  lemma CountedStep(log: seq<Entry>, e: Entry, key: string, maxKeys: nat)
    requires maxKeys >= 1
    ensures var more := if e.key == key && e.allowed then [e.now] else [];
            && AllowedOf(log + [e], key) == AllowedOf(log, key) + more
            && (e.key == key || (key in Tracked(log, maxKeys) <==> key in Tracked(log + [e], maxKeys)) ==>
                 Counted(log + [e], key, maxKeys) == Counted(log, key, maxKeys) + more)
  {
    assert (log + [e])[..|log|] == log;
    CheckedIsTracked(log, e, maxKeys);
  }

  lemma CheckedIsTracked(log: seq<Entry>, e: Entry, maxKeys: nat)
    requires maxKeys >= 1
    ensures Tracked(log + [e], maxKeys) == Admit(Tracked(log, maxKeys), e.key, maxKeys)
    ensures e.key in Tracked(log + [e], maxKeys)
    ensures forall k :: k in Tracked(log + [e], maxKeys) ==> k in Tracked(log, maxKeys) || k == e.key
  {
    assert (log + [e])[..|log|] == log;
  }

  /**
   The promise of `limit` attempts per window holds for a key as long as at most maxKeys
   insertions, its own included, were made since its attempts in the window began.
   */
  lemma PromiseWhileTracked(c: Config, base: seq<Entry>, more: seq<Entry>, key: string, now: real)
    requires ValidConfig(c) && Honest(c, base + more) && ClockAt(base + more, now)
    requires key !in Tracked(base, c.maxKeys) && Recent(AllowedOf(base, key), now, c.window) == []
    requires |InsertedBy(base, more, c.maxKeys)| <= c.maxKeys
    ensures PromiseKept(c, base + more, key, now)
  {
    var log := base + more;
    CountedSince(base, more, key, c.maxKeys);
    RecentConcat(AllowedOf(base, key), Counted(log, key, c.maxKeys), now, c.window);
    WindowNeverOverfull(c, log, key, now);
  }

  // ----- exactly when the promise holds -----

  /** The log after one more check, with the limiter's own decision. */
  function Checked(c: Config, log: seq<Entry>, key: string, now: real): seq<Entry>
    requires c.maxKeys >= 1
  {
    log + [Entry(key, now, Allows(c, log, key, now))]
  }

  function CheckAll(c: Config, log: seq<Entry>, keys: seq<string>, now: real): seq<Entry>
    requires c.maxKeys >= 1
  {
    if keys == [] then log else Checked(c, CheckAll(c, log, keys[..|keys| - 1], now), keys[|keys| - 1], now)
  }

  lemma {:induction false} CheckAllHonest(c: Config, log: seq<Entry>, keys: seq<string>, now: real)
    requires c.maxKeys >= 1 && Honest(c, log) && ClockAt(log, now) && forall i :: 0 <= i < |keys| ==> keys[i] != ""
    ensures Honest(c, CheckAll(c, log, keys, now)) && ClockAt(CheckAll(c, log, keys, now), now)
  {
    hide Honest, Checked, ClockAt;
    if keys != [] {
      CheckAllHonest(c, log, keys[..|keys| - 1], now);
      CheckedHonest(c, CheckAll(c, log, keys[..|keys| - 1], now), keys[|keys| - 1], now);
    }
  }

  lemma CheckedHonest(c: Config, log: seq<Entry>, key: string, now: real)
    requires c.maxKeys >= 1 && Honest(c, log) && ClockAt(log, now) && key != ""
    ensures Honest(c, Checked(c, log, key, now)) && ClockAt(Checked(c, log, key, now), now)
  {
    assert Checked(c, log, key, now)[..|log|] == log;
  }

  /** The keys of a log are among these. */
  ghost predicate Over(log: seq<Entry>, keys: set<string>) {
    forall i :: 0 <= i < |log| ==> log[i].key in keys
  }

  lemma {:induction false} CheckAllOver(c: Config, log: seq<Entry>, more: seq<string>, now: real, keys: set<string>)
    requires c.maxKeys >= 1 && Over(log, keys) && forall i :: 0 <= i < |more| ==> more[i] in keys
    ensures Over(CheckAll(c, log, more, now), keys)
  {
    if more != [] {
      CheckAllOver(c, log, more[..|more| - 1], now, keys);
    }
  }

  lemma {:induction false} TrackedOver(log: seq<Entry>, keys: set<string>, maxKeys: nat)
    requires maxKeys >= 1 && Over(log, keys)
    ensures forall k :: k in Tracked(log, maxKeys) ==> k in keys
  {
    if log != [] {
      TrackedOver(log[..|log| - 1], keys, maxKeys);
    }
  }

  lemma {:induction false} DistinctCount(ks: seq<string>, keys: set<string>)
    requires forall i, j :: 0 <= i < j < |ks| ==> ks[i] != ks[j]
    requires forall i :: 0 <= i < |ks| ==> ks[i] in keys
    ensures |ks| <= |keys|
  {
    if ks != [] {
      var n := |ks| - 1;
      DistinctCount(ks[..n], keys - {ks[n]});
    }
  }

  /** With no more keys than fit, nothing is ever evicted: a key is counted from its first attempt on. */
  lemma {:induction false} NothingEvicted(c: Config, log: seq<Entry>, key: string, keys: set<string>)
    requires ValidConfig(c) && Over(log, keys) && |keys| <= c.maxKeys
    ensures AllowedOf(log, key) == Counted(log, key, c.maxKeys)
    ensures key in Tracked(log, c.maxKeys) <==> exists i :: 0 <= i < |log| && log[i].key == key
  {
    if log != [] {
      var (before, e) := (log[..|log| - 1], log[|log| - 1]);
      NothingEvicted(c, before, key, keys);
      assert before + [e] == log;
      NoEviction(before, e, keys, c.maxKeys);
      if e.key != key && key in Tracked(log, c.maxKeys) {
        var i :| 0 <= i < |before| && before[i].key == key;
        assert log[i].key == key;
      }
    }
  }

  lemma NoEviction(log: seq<Entry>, e: Entry, keys: set<string>, maxKeys: nat)
    requires maxKeys >= 1 && Over(log, keys) && e.key in keys && |keys| <= maxKeys
    ensures forall k :: k in Tracked(log + [e], maxKeys) <==> k in Tracked(log, maxKeys) || k == e.key
  {
    CheckedIsTracked(log, e, maxKeys);
    if e.key !in Tracked(log, maxKeys) {
      TrackedDistinct(log, maxKeys);
      TrackedOver(log, keys, maxKeys);
      DistinctCount(Tracked(log, maxKeys) + [e.key], keys);
    }
  }

  function Repeat<T>(x: T, n: nat): (r: seq<T>)
    ensures |r| == n && forall i :: 0 <= i < n ==> r[i] == x
  {
    seq(n, i => x)
  }

  /** A check that finds room is allowed and counted. */
  lemma FillOne(c: Config, log: seq<Entry>, key: string, now: real)
    requires ValidConfig(c) && Honest(c, log) && ClockAt(log, now) && key != ""
    requires |InWindow(c, log, key, now)| < c.limit
    ensures var after := Checked(c, log, key, now);
            && AllowedOf(after, key) == AllowedOf(log, key) + [now]
            && InWindow(c, after, key, now) == InWindow(c, log, key, now) + [now]
            && key in Tracked(after, c.maxKeys)
            && InsertedWithin(c, after, key, now)
               == InsertedWithin(c, log, key, now) + if key in Tracked(log, c.maxKeys) then 0 else 1
  {
    assert Checked(c, log, key, now)[..|log|] == log;
    CheckedWindow(c, log, key, now, true);
  }

  /** In an empty window `limit` checks of a key are allowed, one after the other. */
  lemma {:induction false} FillWindow(c: Config, log: seq<Entry>, key: string, n: nat, now: real)
    requires ValidConfig(c) && Honest(c, log) && ClockAt(log, now) && key != "" && n <= c.limit
    requires InWindow(c, log, key, now) == []
    ensures var after := CheckAll(c, log, Repeat(key, n), now);
            && Honest(c, after) && ClockAt(after, now)
            && AllowedOf(after, key) == AllowedOf(log, key) + Repeat(now, n)
            && InWindow(c, after, key, now) == Repeat(now, n)
            && (key in Tracked(after, c.maxKeys) <==> n > 0 || key in Tracked(log, c.maxKeys))
            && InsertedWithin(c, after, key, now)
               == InsertedWithin(c, log, key, now) + if n == 0 || key in Tracked(log, c.maxKeys) then 0 else 1
  {
    hide Honest, ClockAt, AllowedOf, InWindow, Tracked, InsertedWithin, Checked;
    assert AllowedOf(log, key) + [] == AllowedOf(log, key);
    if n > 0 {
      var before := CheckAll(c, log, Repeat(key, n - 1), now);
      assert Repeat(key, n)[..n - 1] == Repeat(key, n - 1);
      FillWindow(c, log, key, n - 1, now);
      FillOne(c, before, key, now);
      CheckedHonest(c, before, key, now);
      assert Repeat(now, n) == Repeat(now, n - 1) + [now];
      Regroup(AllowedOf(log, key), Repeat(now, n - 1), [now]);
    }
  }

  /** Keys that are new to a log are inserted one after the other. */
  lemma {:induction false} NewKeysInserted(c: Config, log: seq<Entry>, keys: set<string>, more: seq<string>,
                                           key: string, now: real)
    requires c.maxKeys >= 1 && Over(log, keys) && key in keys
    requires forall i :: 0 <= i < |more| ==> more[i] !in keys
    requires forall i, j :: 0 <= i < j < |more| ==> more[i] != more[j]
    ensures var after := CheckAll(c, log, more, now);
            && Insertions(after, c.maxKeys) == Insertions(log, c.maxKeys) + more
            && AllowedOf(after, key) == AllowedOf(log, key)
            && InsertedWithin(c, after, key, now) == InsertedWithin(c, log, key, now)
  {
    hide Tracked, AllowedOf, Insertions, Over, Checked, InsertedWithin;
    if more != [] {
      var (front, last) := (more[..|more| - 1], more[|more| - 1]);
      NewKeysInserted(c, log, keys, front, key, now);
      OverMore(log, keys, keys + (set k | k in front));
      CheckAllOver(c, log, front, now, keys + (set k | k in front));
      NewKeyInserted(c, CheckAll(c, log, front, now), keys + (set k | k in front), last, key, now);
      assert more == front + [last];
    }
  }

  lemma OverMore(log: seq<Entry>, keys: set<string>, more: set<string>)
    requires Over(log, keys) && keys <= more
    ensures Over(log, more)
  {
  }

  lemma NewKeyInserted(c: Config, log: seq<Entry>, keys: set<string>, last: string, key: string, now: real)
    requires c.maxKeys >= 1 && Over(log, keys) && last !in keys && key in keys
    ensures Insertions(Checked(c, log, last, now), c.maxKeys) == Insertions(log, c.maxKeys) + [last]
    ensures AllowedOf(Checked(c, log, last, now), key) == AllowedOf(log, key)
    ensures InsertedWithin(c, Checked(c, log, last, now), key, now) == InsertedWithin(c, log, key, now)
  {
    TrackedOver(log, keys, c.maxKeys);
    assert Checked(c, log, last, now)[..|log|] == log;
  }

  /** As many new keys as fit evict a key: it starts over with an empty window. */
  lemma Evict(c: Config, log: seq<Entry>, keys: set<string>, others: seq<string>, key: string, now: real)
    requires ValidConfig(c) && Honest(c, log) && ClockAt(log, now) && Over(log, keys) && key in keys
    requires |others| == c.maxKeys && forall i :: 0 <= i < |others| ==> others[i] !in keys && others[i] != ""
    requires forall i, j :: 0 <= i < j < |others| ==> others[i] != others[j]
    ensures var after := CheckAll(c, log, others, now);
            && Honest(c, after) && ClockAt(after, now)
            && key !in Tracked(after, c.maxKeys) && InWindow(c, after, key, now) == []
            && AllowedOf(after, key) == AllowedOf(log, key)
            && InsertedWithin(c, after, key, now) == InsertedWithin(c, log, key, now)
  {
    hide Honest, ClockAt, AllowedOf, Tracked, InsertedWithin, Insertions, Over, CheckAll, Recent;
    var after := CheckAll(c, log, others, now);
    CheckAllHonest(c, log, others, now);
    NewKeysInserted(c, log, keys, others, key, now);
    TrackedAreTheLastInsertions(after, c.maxKeys);
    LastOnes(Insertions(log, c.maxKeys), others);
    NothingCounted(after, key, c.maxKeys);
    AllExpired([], now, c.window);
  }

  lemma LastOnes(all: seq<string>, more: seq<string>)
    ensures Last(all + more, |more|) == more
  {
  }

  /**
   As many other keys as fit evict a key, and its next attempt is allowed again: `limit`
   and one more allowed attempts at the same moment.
   */
  lemma EvictionBreaksPromise(c: Config, key: string, others: seq<string>) returns (log: seq<Entry>)
    requires ValidConfig(c) && |others| == c.maxKeys && key !in others && key != "" && "" !in others
    requires forall i, j :: 0 <= i < j < |others| ==> others[i] != others[j]
    ensures Honest(c, log) && ClockAt(log, 0.0) && Over(log, {key} + (set k | k in others))
    ensures |Recent(AllowedOf(log, key), 0.0, c.window)| == c.limit + 1
  {
    hide Honest, Tracked, Insertions, Recent, AllowedOf, CheckAll, Checked, ClockAt, Over, InWindow, InsertedWithin;
    var all := {key} + (set k | k in others);
    var full := CheckAll(c, [], Repeat(key, c.limit), 0.0);
    var evicted := CheckAll(c, full, others, 0.0);
    log := Checked(c, evicted, key, 0.0);
    EmptyLog(c, key, {key});
    EmptyLog(c, key, all);
    FillWindow(c, [], key, c.limit, 0.0);
    CheckAllOver(c, [], Repeat(key, c.limit), 0.0, {key});
    Evict(c, full, {key}, others, key, 0.0);
    FillOne(c, evicted, key, 0.0);
    CheckedHonest(c, evicted, key, 0.0);
    OverMore(full, {key}, all);
    CheckAllOver(c, full, others, 0.0, all);
    CheckedOver(c, evicted, key, all);
    AllRecent(AllowedOf(log, key), 0.0, c.window);
  }

  lemma EmptyLog(c: Config, key: string, keys: set<string>)
    requires c.maxKeys >= 1
    ensures Honest(c, []) && ClockAt([], 0.0) && Over([], keys) && AllowedOf([], key) == []
    ensures InWindow(c, [], key, 0.0) == [] && InsertedWithin(c, [], key, 0.0) == 0
  {
  }

  lemma CheckedOver(c: Config, log: seq<Entry>, key: string, keys: set<string>)
    requires c.maxKeys >= 1 && Over(log, keys) && key in keys
    ensures Over(Checked(c, log, key, 0.0), keys)
  {
  }

  lemma {:induction false} AllRecent(times: seq<real>, now: real, window: real)
    requires forall i :: 0 <= i < |times| ==> now - times[i] < window
    ensures Recent(times, now, window) == times
  {
    if times != [] {
      AllRecent(times[..|times| - 1], now, window);
    }
  }

  lemma {:induction false} Pick(keys: set<string>, n: nat) returns (ks: seq<string>)
    requires n <= |keys|
    ensures |ks| == n && forall i :: 0 <= i < n ==> ks[i] in keys
    ensures forall i, j :: 0 <= i < j < n ==> ks[i] != ks[j]
  {
    ks := [];
    if n > 0 {
      var k :| k in keys;
      ks := Pick(keys - {k}, n - 1);
      ks := ks + [k];
    }
  }

  /**
   The promise of `limit` attempts per window holds of all logs over some keys exactly when
   the keys all fit; a check of an empty key is refused and leaves no entry.
   */
  lemma PromiseExact(c: Config, keys: set<string>)
    requires ValidConfig(c)
    ensures (forall log, key, now :: Honest(c, log) && Over(log, keys) && ClockAt(log, now) ==>
               PromiseKept(c, log, key, now))
            <==> |keys - {""}| <= c.maxKeys
  {
    var nonEmpty := keys - {""};
    if |nonEmpty| <= c.maxKeys {
      forall log, key, now | Honest(c, log) && Over(log, keys) && ClockAt(log, now)
        ensures PromiseKept(c, log, key, now)
      {
        NoEmptyKeys(c, log, keys);
        NothingEvicted(c, log, key, nonEmpty);
        WindowNeverOverfull(c, log, key, now);
      }
    } else {
      var key :| key in nonEmpty;
      var others := Pick(nonEmpty - {key}, c.maxKeys);
      var log := EvictionBreaksPromise(c, key, others);
      assert Over(log, keys) && !PromiseKept(c, log, key, 0.0);
    }
  }

  lemma {:induction false} NoEmptyKeys(c: Config, log: seq<Entry>, keys: set<string>)
    requires c.maxKeys >= 1 && Honest(c, log) && Over(log, keys)
    ensures Over(log, keys - {""})
  {
    if log != [] {
      NoEmptyKeys(c, log[..|log| - 1], keys);
    }
  }

  // ----- the window bound is attained -----

  /** Names longer than any of the given ones. */
  lemma {:induction false} LongerThan(keys: set<string>) returns (n: nat)
    ensures forall k :: k in keys ==> |k| < n
  {
    n := 1;
    if keys != {} {
      var k :| k in keys;
      n := LongerThan(keys - {k});
      n := if n <= |k| then |k| + 1 else n;
    }
  }

  lemma FreshNames(keys: set<string>, n: nat) returns (names: seq<string>)
    ensures |names| == n && forall i :: 0 <= i < n ==> names[i] !in keys && names[i] != ""
    ensures forall i, j :: 0 <= i < j < n ==> names[i] != names[j]
  {
    var longer := LongerThan(keys);
    names := seq(n, i requires 0 <= i < n => Repeat('x', longer + 1 + i));
    forall i | 0 <= i < n ensures |names[i]| == longer + 1 + i {
      assert names[i] == Repeat('x', longer + 1 + i);
    }
  }

  function KeysOf(log: seq<Entry>): set<string> {
    set e | e in log :: e.key
  }

  lemma OverKeys(log: seq<Entry>, key: string)
    ensures Over(log, KeysOf(log) + {key})
  {
    forall i | 0 <= i < |log| ensures log[i].key in KeysOf(log) {
      assert log[i] in log;
    }
  }

  /** The window that ends at `window` holds n insertions of the key and limit * (n + 1) allowed attempts. */
  ghost predicate Full(c: Config, log: seq<Entry>, key: string, n: nat)
    requires c.maxKeys >= 1
  {
    && Honest(c, log) && ClockAt(log, c.window) && InsertedWithin(c, log, key, c.window) == n
    && |Recent(AllowedOf(log, key), c.window, c.window)| == c.limit * (n + 1)
  }

  /** A key inserted one window ago may fill it now. */
  lemma FullOnce(c: Config, key: string) returns (log: seq<Entry>)
    requires ValidConfig(c) && key != ""
    ensures Full(c, log, key, 0)
  {
    hide Honest, Tracked, Recent, AllowedOf, CheckAll, Checked, ClockAt, InWindow, InsertedWithin;
    var aged := [Entry(key, 0.0, true)];
    InsertedLongAgo(c, key);
    log := CheckAll(c, aged, Repeat(key, c.limit), c.window);
    FillWindow(c, aged, key, c.limit, c.window);
    RecentConcat([0.0], Repeat(c.window, c.limit), c.window, c.window);
    AllExpired([0.0], c.window, c.window);
    AllRecent(Repeat(c.window, c.limit), c.window, c.window);
    assert [] + Repeat(c.window, c.limit) == Repeat(c.window, c.limit);
    assert c.limit * (0 + 1) == c.limit;
  }

  lemma OneCheck(c: Config, key: string)
    requires ValidConfig(c)
    ensures var log := [Entry(key, 0.0, true)];
            && Tracked(log, c.maxKeys) == [key] && Since(log, key, c.maxKeys) == [0.0] && AllowedOf(log, key) == [0.0]
            && InsertedWithin(c, log, key, c.window) == 0
  {
    assert [Entry(key, 0.0, true)][..0] == [];
  }

  lemma InsertedLongAgo(c: Config, key: string)
    requires ValidConfig(c) && key != ""
    ensures var log := [Entry(key, 0.0, true)];
            && Honest(c, log) && ClockAt(log, c.window) && key in Tracked(log, c.maxKeys)
            && AllowedOf(log, key) == [0.0] && InWindow(c, log, key, c.window) == []
            && InsertedWithin(c, log, key, c.window) == 0
  {
    hide Tracked, Since, AllowedOf, InsertedWithin, Recent, Honest;
    OneCheck(c, key);
    AllExpired([0.0], c.window, c.window);
    FirstIsHonest(c, key);
  }

  lemma FirstIsHonest(c: Config, key: string)
    requires ValidConfig(c) && key != ""
    ensures Honest(c, [Entry(key, 0.0, true)])
  {
    EmptyLog(c, key, {});
    assert [Entry(key, 0.0, true)][..0] == [];
  }

  /** After an eviction it may fill it once more. */
  lemma FullAgain(c: Config, log: seq<Entry>, key: string, n: nat) returns (log': seq<Entry>)
    requires ValidConfig(c) && key != "" && Full(c, log, key, n)
    ensures Full(c, log', key, n + 1)
  {
    hide Honest, Tracked, Recent, AllowedOf, CheckAll, ClockAt, InWindow, InsertedWithin, Over, KeysOf;
    var names := FreshNames(KeysOf(log) + {key}, c.maxKeys);
    OverKeys(log, key);
    Evict(c, log, KeysOf(log) + {key}, names, key, c.window);
    var evicted := CheckAll(c, log, names, c.window);
    log' := CheckAll(c, evicted, Repeat(key, c.limit), c.window);
    FillWindow(c, evicted, key, c.limit, c.window);
    RecentConcat(AllowedOf(log, key), Repeat(c.window, c.limit), c.window, c.window);
    AllRecent(Repeat(c.window, c.limit), c.window, c.window);
    assert c.limit * (n + 1 + 1) == c.limit * (n + 1) + c.limit;
  }

  /** The bound is attained for all settings and every number of insertions in the window. */
  lemma {:induction false} BoundIsAttained(c: Config, key: string, n: nat) returns (log: seq<Entry>)
    requires ValidConfig(c) && key != ""
    ensures Honest(c, log) && ClockAt(log, c.window) && InsertedWithin(c, log, key, c.window) == n
    ensures |Recent(AllowedOf(log, key), c.window, c.window)| == c.limit * (n + 1)
    ensures Full(c, log, key, n)
  {
    if n == 0 {
      log := FullOnce(c, key);
    } else {
      log := BoundIsAttained(c, key, n - 1);
      log := FullAgain(c, log, key, n - 1);
    }
  }
}
