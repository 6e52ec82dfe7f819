// The server's bounded fixed-window rate limiter. Times are exact reals.
module Limiter {
  import opened Common

  datatype Rule = Rule(limit: nat, window: real) {
    ghost predicate Valid() { limit >= 1 && window > 0.0 }
  }

  // The windows in insertion order, one per key.
  datatype Entry = Entry(key: string, start: real, count: nat)

  datatype Decision = Decision(allowed: bool, remaining: nat, retryAfter: nat, resetAt: real)

  // ---- Specification -------------------------------------------------------------------

  function Get(entries: seq<Entry>, key: string): Option<Entry> {
    if entries == [] then None
    else if entries[0].key == key then Some(entries[0])
    else Get(entries[1..], key)
  }

  // Replaces in place, or appends.
  function Put(entries: seq<Entry>, e: Entry): seq<Entry> {
    if entries == [] then [e]
    else if entries[0].key == e.key then [e] + entries[1..]
    else [entries[0]] + Put(entries[1..], e)
  }

  function Drop(entries: seq<Entry>, key: string): seq<Entry> {
    if entries == [] then []
    else if entries[0].key == key then entries[1..]
    else [entries[0]] + Drop(entries[1..], key)
  }

  predicate Expired(e: Entry, rule: Rule, now: real) {
    now - e.start >= rule.window
  }

  function Unexpired(entries: seq<Entry>, rule: Rule, now: real): seq<Entry> {
    if entries == [] then []
    else (if Expired(entries[0], rule, now) then [] else [entries[0]]) + Unexpired(entries[1..], rule, now)
  }

  // The first entry whose window resets soonest.
  function Oldest(entries: seq<Entry>): Entry
    requires entries != []
  {
    if |entries| == 1 then entries[0]
    else
      var rest := Oldest(entries[1..]);
      if entries[0].start <= rest.start then entries[0] else rest
  }

  function Evict(entries: seq<Entry>, rule: Rule, maxKeys: nat, now: real): seq<Entry> {
    var kept := Unexpired(entries, rule, now);
    if |kept| < maxKeys || kept == [] then kept else Drop(kept, Oldest(kept).key)
  }

  predicate NeedsWindow(entries: seq<Entry>, rule: Rule, key: string, now: real) {
    var e := Get(entries, key);
    e.None? || Expired(e.value, rule, now)
  }

  function Opened(entries: seq<Entry>, rule: Rule, maxKeys: nat, key: string, now: real): seq<Entry> {
    if !NeedsWindow(entries, rule, key, now) then entries
    else Put(if Get(entries, key).None? && |entries| >= maxKeys then Evict(entries, rule, maxKeys, now) else entries,
             Entry(key, now, 0))
  }

  function Ceil(v: real): nat {
    if v <= 0.0 then 0
    else if v.Floor as real == v then v.Floor else v.Floor + 1
  }

  function Decide(e: Entry, rule: Rule, cost: nat, now: real): Decision {
    var resetAt := e.start + rule.window;
    if e.count + cost > rule.limit then
      var wait := Ceil(resetAt - now);
      Decision(false, if rule.limit > e.count then rule.limit - e.count else 0, if wait >= 1 then wait else 1, resetAt)
    else
      Decision(true, rule.limit - (e.count + cost), 0, resetAt)
  }

  // A key's window at the moment its check is decided.
  function Window(entries: seq<Entry>, rule: Rule, key: string, now: real): Entry {
    if NeedsWindow(entries, rule, key, now) then Entry(key, now, 0) else Get(entries, key).value
  }

  function Checked(entries: seq<Entry>, rule: Rule, maxKeys: nat, key: string, cost: nat, now: real): (seq<Entry>, Decision) {
    var ready := Opened(entries, rule, maxKeys, key, now);
    var e := Window(entries, rule, key, now);
    var d := Decide(e, rule, cost, now);
    (if d.allowed then Put(ready, e.(count := e.count + cost)) else ready, d)
  }

  // ---- What a check decides, in terms of the windows there ------------------------------------

  // A key's present window: the one there if it still runs, and otherwise a new one.
  ghost predicate Present(entries: seq<Entry>, rule: Rule, key: string, now: real, start: real, count: nat) {
    || (Entry(key, start, count) in entries && now - start < rule.window)
    || (start == now && count == 0 && forall e :: e in entries && e.key == key ==> now - e.start >= rule.window)
  }

  // Granted if and only if the window still has room for the cost. A refusal names the
  // least whole number of seconds, at least one, after which the window is over.
  ghost predicate Decides(entries: seq<Entry>, rule: Rule, key: string, cost: nat, now: real, d: Decision) {
    exists start: real, count: nat ::
      && Present(entries, rule, key, now, start, count)
      && (d.allowed <==> count + cost <= rule.limit)
      && d.resetAt == start + rule.window
      && (d.allowed ==> d.remaining + count + cost == rule.limit && d.retryAfter == 0)
      && (!d.allowed ==> d.remaining == (if count < rule.limit then rule.limit - count else 0)
                         && d.retryAfter >= 1 && d.resetAt - now <= d.retryAfter as real
                         && (d.retryAfter > 1 ==> (d.retryAfter - 1) as real < d.resetAt - now))
  }

  // The key's window holds what was granted; other windows are kept, unless room was needed.
  ghost predicate Books(before: seq<Entry>, after: seq<Entry>, rule: Rule, maxKeys: nat, key: string, cost: nat,
                        now: real, allowed: bool)
  {
    && (exists start: real, count: nat :: Present(before, rule, key, now, start, count)
                               && Entry(key, start, if allowed then count + cost else count) in after)
    && (forall e :: e in after && e.key != key ==> e in before)
    && (|before| < maxKeys || (exists e :: e in before && e.key == key) ==>
          forall e :: e in before && e.key != key ==> e in after)
  }

  lemma CeilIsLeast(v: real)
    ensures v <= Ceil(v) as real
    ensures Ceil(v) >= 1 ==> (Ceil(v) - 1) as real < v
  {
  }

  lemma WindowPresent(entries: seq<Entry>, rule: Rule, key: string, now: real)
    requires DistinctKeys(entries)
    ensures var e := Window(entries, rule, key, now); Present(entries, rule, key, now, e.start, e.count) && e.key == key
  {
    GetMeans(entries, key);
    forall e | e in entries && e.key == key
      ensures Get(entries, key) == Some(e)
    {
      OldestGet(entries, e);
    }
  }

  lemma CheckedDecides(entries: seq<Entry>, rule: Rule, maxKeys: nat, key: string, cost: nat, now: real)
    requires DistinctKeys(entries)
    ensures Decides(entries, rule, key, cost, now, Checked(entries, rule, maxKeys, key, cost, now).1)
  {
    WindowPresent(entries, rule, key, now);
    var e := Window(entries, rule, key, now);
    CeilIsLeast(e.start + rule.window - now);
  }

  lemma {:induction false} PutMembers(entries: seq<Entry>, e: Entry)
    requires DistinctKeys(entries)
    ensures forall x :: x in Put(entries, e) <==> x == e || (x in entries && x.key != e.key)
  {
    if entries != [] {
      PutMembers(entries[1..], e);
      assert entries == [entries[0]] + entries[1..];
    }
  }

  lemma CheckedBooks(entries: seq<Entry>, rule: Rule, maxKeys: nat, key: string, cost: nat, now: real)
    requires DistinctKeys(entries) && maxKeys >= 1 && |entries| <= maxKeys
    ensures var (after, d) := Checked(entries, rule, maxKeys, key, cost, now);
            Books(entries, after, rule, maxKeys, key, cost, now, d.allowed)
  {
    WindowPresent(entries, rule, key, now);
    OpenedMembers(entries, rule, maxKeys, key, now);
    OpenedGets(entries, rule, maxKeys, key, now);
    var ready := Opened(entries, rule, maxKeys, key, now);
    var e := Window(entries, rule, key, now);
    PutMembers(ready, e.(count := e.count + cost));
    GetMeans(ready, key);
  }

  lemma OpenedMembers(entries: seq<Entry>, rule: Rule, maxKeys: nat, key: string, now: real)
    requires DistinctKeys(entries) && maxKeys >= 1 && |entries| <= maxKeys
    ensures var ready := Opened(entries, rule, maxKeys, key, now);
            && (forall e :: e in ready && e.key != key ==> e in entries)
            && (|entries| < maxKeys || (exists e :: e in entries && e.key == key) ==>
                  forall e :: e in entries && e.key != key ==> e in ready)
  {
    GetMeans(entries, key);
    UnexpiredInv(entries, rule, now);
    EvictEffect(entries, rule, maxKeys, now, key);
    EvictMembers(entries, rule, maxKeys, now);
    PutMembers(Evict(entries, rule, maxKeys, now), Entry(key, now, 0));
    PutMembers(entries, Entry(key, now, 0));
  }

  // Eviction keeps exactly the windows that still run, or all of those but an oldest one
  // where that alone leaves no room.
  ghost predicate Evicts(before: seq<Entry>, after: seq<Entry>, rule: Rule, maxKeys: nat, now: real) {
    || ((|after| < maxKeys || after == []) && forall e :: e in after <==> e in before && now - e.start < rule.window)
    || (exists o :: o in before && now - o.start < rule.window && |after| + 1 >= maxKeys
          && (forall e :: e in before && now - e.start < rule.window ==> o.start <= e.start)
          && forall e :: e in after <==> e in before && now - e.start < rule.window && e != o)
  }

  lemma EvictMembers(entries: seq<Entry>, rule: Rule, maxKeys: nat, now: real)
    requires DistinctKeys(entries)
    ensures Evicts(entries, Evict(entries, rule, maxKeys, now), rule, maxKeys, now)
  {
    var kept := Unexpired(entries, rule, now);
    LiveKept(entries, rule, now);
    if |kept| >= maxKeys && kept != [] {
      UnexpiredInv(entries, rule, now);
      OldestGoes(kept);
      assert Evict(entries, rule, maxKeys, now) == Drop(kept, Oldest(kept).key);
      OldestEvicted(entries, kept, Drop(kept, Oldest(kept).key), Oldest(kept), rule, maxKeys, now);
    }
  }

  lemma LiveKept(entries: seq<Entry>, rule: Rule, now: real)
    requires DistinctKeys(entries)
    ensures forall e :: e in Unexpired(entries, rule, now) <==> e in entries && now - e.start < rule.window
  {
    UnexpiredInv(entries, rule, now);
    UnexpiredMembers(entries, rule, now);
    UnexpiredLive(entries, rule, now);
  }

  lemma OldestGoes(kept: seq<Entry>)
    requires DistinctKeys(kept) && kept != []
    ensures var o := Oldest(kept); var after := Drop(kept, o.key);
            && o in kept && (forall e :: e in kept ==> o.start <= e.start)
            && (forall e :: e in after <==> e in kept && e != o) && |after| + 1 == |kept|
  {
    OldestMeans(kept);
    DropMembers(kept, Oldest(kept));
    OldestGet(kept, Oldest(kept));
    DropGets(kept, Oldest(kept).key, "");
  }

  lemma OldestEvicted(entries: seq<Entry>, kept: seq<Entry>, after: seq<Entry>, o: Entry, rule: Rule, maxKeys: nat, now: real)
    requires forall e :: e in kept <==> e in entries && now - e.start < rule.window
    requires o in kept && (forall e :: e in kept ==> o.start <= e.start) && |after| + 1 == |kept| >= maxKeys
    requires forall e :: e in after <==> e in kept && e != o
    ensures Evicts(entries, after, rule, maxKeys, now)
  {
  }

  lemma {:induction false} UnexpiredLive(entries: seq<Entry>, rule: Rule, now: real)
    ensures forall e :: e in Unexpired(entries, rule, now) ==> now - e.start < rule.window
  {
    if entries != [] {
      UnexpiredLive(entries[1..], rule, now);
    }
  }

  lemma {:induction false} DropMembers(entries: seq<Entry>, e: Entry)
    requires DistinctKeys(entries) && e in entries
    ensures forall x :: x in Drop(entries, e.key) <==> x in entries && x != e
    ensures forall x :: x in Drop(entries, e.key) <==> x in entries && x.key != e.key
  {
    assert entries == [entries[0]] + entries[1..];
    if entries[0] != e {
      DropMembers(entries[1..], e);
    }
  }

  lemma {:induction false} DropKey(entries: seq<Entry>, key: string)
    requires DistinctKeys(entries)
    ensures forall x :: x in Drop(entries, key) <==> x in entries && x.key != key
  {
    if entries != [] {
      assert entries == [entries[0]] + entries[1..];
      DropKey(entries[1..], key);
    }
  }

  // ---- The limiter itself ------------------------------------------------------------------

  class RateLimiter {
    const rule: Rule
    const maxKeys: nat
    var windows: seq<Entry>

    ghost predicate Valid()
      reads this
    {
      rule.Valid() && maxKeys >= 1 && DistinctKeys(windows) && |windows| <= maxKeys
    }

    constructor (rule: Rule, maxKeys: nat)
      requires rule.Valid() && maxKeys >= 1
      ensures Valid() && windows == [] && this.rule == rule && this.maxKeys == maxKeys
    {
      this.rule := rule;
      this.maxKeys := maxKeys;
      windows := [];
    }

    method EvictLocked(now: real)
      requires DistinctKeys(windows)
      modifies this`windows
      ensures windows == Evict(old(windows), rule, maxKeys, now)
    {
      var kept := [];
      assert windows[0..] == windows;
      for i := 0 to |windows|
        invariant windows == old(windows)
        invariant Unexpired(windows, rule, now) == kept + Unexpired(windows[i..], rule, now)
      {
        assert windows[i..][1..] == windows[i + 1..];
        if !Expired(windows[i], rule, now) {
          kept := kept + [windows[i]];
        }
      }
      assert kept == Unexpired(windows, rule, now);
      windows := kept;
      if |windows| < maxKeys || |windows| == 0 {
        return;
      }
      var oldest := windows[|windows| - 1];
      for i := |windows| - 1 downto 0
        invariant oldest == Oldest(windows[i..])
      {
        assert windows[i..][1..] == windows[i + 1..];
        if windows[i].start <= oldest.start {
          oldest := windows[i];
        }
      }
      assert windows[0..] == windows;
      windows := Drop(windows, oldest.key);
    }

    method Check(key: string, cost: nat, now: real) returns (r: Result<Decision>)
      requires Valid()
      modifies this`windows
      ensures Valid()
      ensures cost == 0 ==> r.Err? && windows == old(windows)
      ensures cost >= 1 ==> r == Ok(Checked(old(windows), rule, maxKeys, key, cost, now).1)
                            && windows == Checked(old(windows), rule, maxKeys, key, cost, now).0
    {
      CheckedInv(windows, rule, maxKeys, key, cost, now);
      OpenedGets(windows, rule, maxKeys, key, now);
      if cost < 1 {
        return Err("cost must be >= 1");
      }
      var window := Get(windows, key);
      if window.None? || now - window.value.start >= rule.window {
        if window.None? && |windows| >= maxKeys {
          EvictLocked(now);
        }
        window := Some(Entry(key, now, 0));
        windows := Put(windows, window.value);
      }
      var resetAt := window.value.start + rule.window;
      if window.value.count + cost > rule.limit {
        var wait := Ceil(resetAt - now);
        return Ok(Decision(false, if rule.limit > window.value.count then rule.limit - window.value.count else 0,
                           if wait >= 1 then wait else 1, resetAt));
      }
      var used := window.value.count + cost;
      windows := Put(windows, window.value.(count := used));
      r := Ok(Decision(true, rule.limit - used, 0, resetAt));
    }

    method Reset(key: Option<string>)
      requires Valid()
      modifies this`windows
      ensures Valid()
      ensures windows == if key.None? then [] else Drop(old(windows), key.value)
      ensures forall e :: e in windows <==> key.Some? && e in old(windows) && e.key != key.value
    {
      if key.Some? {
        DropInv(windows, key.value);
        DropKey(windows, key.value);
      }
      windows := if key.None? then [] else Drop(windows, key.value);
    }
  }

  // ---- What the operations do to one key ------------------------------------------------------

  predicate DistinctKeys(entries: seq<Entry>) {
    entries == [] || ((forall e :: e in entries[1..] ==> e.key != entries[0].key) && DistinctKeys(entries[1..]))
  }

  lemma {:induction false} GetMeans(entries: seq<Entry>, key: string)
    ensures Get(entries, key).Some? <==> exists e :: e in entries && e.key == key
    ensures Get(entries, key).Some? ==> Get(entries, key).value in entries && Get(entries, key).value.key == key
  {
    if entries != [] {
      GetMeans(entries[1..], key);
    }
  }

  lemma {:induction false} PutGets(entries: seq<Entry>, e: Entry, key: string)
    ensures Get(Put(entries, e), key) == if key == e.key then Some(e) else Get(entries, key)
    ensures |Put(entries, e)| == |entries| + if Get(entries, e.key).None? then 1 else 0
  {
    if entries != [] && entries[0].key != e.key {
      PutGets(entries[1..], e, key);
      assert Put(entries, e)[1..] == Put(entries[1..], e);
    }
  }

  lemma {:induction false} PutDistinct(entries: seq<Entry>, e: Entry)
    requires DistinctKeys(entries)
    ensures DistinctKeys(Put(entries, e))
    ensures forall x :: x in Put(entries, e) ==> x == e || x in entries
  {
    if entries != [] && entries[0].key != e.key {
      PutDistinct(entries[1..], e);
    }
  }

  lemma {:induction false} DropGets(entries: seq<Entry>, gone: string, key: string)
    requires DistinctKeys(entries)
    ensures Get(Drop(entries, gone), key) == if key == gone then None else Get(entries, key)
    ensures |Drop(entries, gone)| == |entries| - if Get(entries, gone).Some? then 1 else 0
  {
    if entries != [] {
      if entries[0].key == gone {
        GetMeans(entries[1..], gone);
      } else {
        DropGets(entries[1..], gone, key);
        assert Drop(entries, gone)[1..] == Drop(entries[1..], gone);
      }
    }
  }

  lemma {:induction false} DropInv(entries: seq<Entry>, gone: string)
    requires DistinctKeys(entries)
    ensures DistinctKeys(Drop(entries, gone)) && |Drop(entries, gone)| <= |entries|
    ensures forall x :: x in Drop(entries, gone) ==> x in entries
  {
    if entries != [] && entries[0].key != gone {
      DropInv(entries[1..], gone);
    }
  }

  lemma {:induction false} UnexpiredGets(entries: seq<Entry>, rule: Rule, now: real, key: string)
    requires DistinctKeys(entries)
    ensures Get(Unexpired(entries, rule, now), key)
         == if Get(entries, key).Some? && !Expired(Get(entries, key).value, rule, now) then Get(entries, key) else None
    ensures |Unexpired(entries, rule, now)| <= |entries|
  {
    if entries != [] {
      UnexpiredGets(entries[1..], rule, now, key);
      UnexpiredInv(entries[1..], rule, now);
      GetMeans(Unexpired(entries[1..], rule, now), key);
      GetMeans(entries[1..], key);
      if Expired(entries[0], rule, now) {
        assert Unexpired(entries, rule, now) == Unexpired(entries[1..], rule, now);
      } else {
        assert Unexpired(entries, rule, now)[1..] == Unexpired(entries[1..], rule, now);
      }
    }
  }

  lemma {:induction false} UnexpiredInv(entries: seq<Entry>, rule: Rule, now: real)
    requires DistinctKeys(entries)
    ensures DistinctKeys(Unexpired(entries, rule, now))
    ensures forall x :: x in Unexpired(entries, rule, now) ==> x in entries
    ensures |Unexpired(entries, rule, now)| <= |entries|
  {
    if entries != [] {
      UnexpiredInv(entries[1..], rule, now);
      var rest := Unexpired(entries[1..], rule, now);
      assert Expired(entries[0], rule, now) ==> Unexpired(entries, rule, now) == rest;
      assert !Expired(entries[0], rule, now) ==> Unexpired(entries, rule, now)[1..] == rest;
    }
  }

  lemma {:induction false} OldestMeans(entries: seq<Entry>)
    requires entries != []
    ensures Oldest(entries) in entries
    ensures forall e :: e in entries ==> Oldest(entries).start <= e.start
  {
    if |entries| > 1 {
      OldestMeans(entries[1..]);
      assert entries == [entries[0]] + entries[1..];
    }
  }

  // Eviction makes room, and costs a live key its window only when every window is
  // live and none is older.
  lemma EvictEffect(entries: seq<Entry>, rule: Rule, maxKeys: nat, now: real, key: string)
    requires DistinctKeys(entries) && maxKeys >= 1 && |entries| <= maxKeys
    ensures var after := Evict(entries, rule, maxKeys, now);
            && DistinctKeys(after) && |after| < maxKeys
            && (Get(after, key).None? || Get(after, key) == Get(entries, key))
            && (Get(entries, key).Some? && !Expired(Get(entries, key).value, rule, now) && Get(after, key).None? ==>
                  |Unexpired(entries, rule, now)| == maxKeys
                  && forall e :: e in entries && !Expired(e, rule, now) ==> Get(entries, key).value.start <= e.start)
  {
    UnexpiredGets(entries, rule, now, key);
    UnexpiredInv(entries, rule, now);
    var kept := Unexpired(entries, rule, now);
    if |kept| >= maxKeys {
      OldestMeans(kept);
      GetMeans(kept, Oldest(kept).key);
      DropGets(kept, Oldest(kept).key, key);
      DropInv(kept, Oldest(kept).key);
      UnexpiredMembers(entries, rule, now);
      OldestGet(kept, Oldest(kept));
    }
  }

  lemma {:induction false} UnexpiredMembers(entries: seq<Entry>, rule: Rule, now: real)
    ensures forall e :: e in entries && !Expired(e, rule, now) ==> e in Unexpired(entries, rule, now)
  {
    if entries != [] {
      UnexpiredMembers(entries[1..], rule, now);
      assert entries == [entries[0]] + entries[1..];
    }
  }

  lemma {:induction false} OldestGet(entries: seq<Entry>, e: Entry)
    requires DistinctKeys(entries) && e in entries
    ensures Get(entries, e.key) == Some(e)
  {
    if entries[0] != e {
      OldestGet(entries[1..], e);
    }
  }

  lemma OpenedGets(entries: seq<Entry>, rule: Rule, maxKeys: nat, key: string, now: real)
    requires DistinctKeys(entries) && maxKeys >= 1 && |entries| <= maxKeys
    ensures var ready := Opened(entries, rule, maxKeys, key, now);
            && DistinctKeys(ready) && |ready| <= maxKeys
            && Get(ready, key) == Some(Window(entries, rule, key, now))
  {
    GetMeans(entries, key);
    if NeedsWindow(entries, rule, key, now) {
      EvictEffect(entries, rule, maxKeys, now, key);
      var base := if Get(entries, key).None? && |entries| >= maxKeys then Evict(entries, rule, maxKeys, now) else entries;
      PutGets(base, Entry(key, now, 0), key);
      PutDistinct(base, Entry(key, now, 0));
    }
  }

  // The table never exceeds its bound.
  lemma CheckedInv(entries: seq<Entry>, rule: Rule, maxKeys: nat, key: string, cost: nat, now: real)
    requires DistinctKeys(entries) && maxKeys >= 1 && |entries| <= maxKeys
    ensures var after := Checked(entries, rule, maxKeys, key, cost, now).0;
            DistinctKeys(after) && |after| <= maxKeys
  {
    OpenedGets(entries, rule, maxKeys, key, now);
    var e := Window(entries, rule, key, now);
    PutGets(Opened(entries, rule, maxKeys, key, now), e.(count := e.count + cost), key);
    PutDistinct(Opened(entries, rule, maxKeys, key, now), e.(count := e.count + cost));
    GetMeans(entries, key);
  }

  // A key that checks gets its window, with the cost added when allowed; another key
  // keeps its window or loses it.
  lemma CheckedGets(entries: seq<Entry>, rule: Rule, maxKeys: nat, key: string, cost: nat, now: real, k: string)
    requires DistinctKeys(entries) && maxKeys >= 1 && |entries| <= maxKeys
    ensures var (after, d) := Checked(entries, rule, maxKeys, key, cost, now);
            var e := Window(entries, rule, key, now);
            && (d.allowed <==> e.count + cost <= rule.limit)
            && Get(after, key) == Some(if d.allowed then e.(count := e.count + cost) else e)
            && (k != key ==> Get(after, k).None? || Get(after, k) == Get(entries, k))
  {
    OpenedGets(entries, rule, maxKeys, key, now);
    GetMeans(entries, key);
    var ready := Opened(entries, rule, maxKeys, key, now);
    var e := Window(entries, rule, key, now);
    PutGets(ready, e.(count := e.count + cost), key);
    PutGets(ready, e.(count := e.count + cost), k);
    if NeedsWindow(entries, rule, key, now) {
      var base := if Get(entries, key).None? && |entries| >= maxKeys then Evict(entries, rule, maxKeys, now) else entries;
      EvictEffect(entries, rule, maxKeys, now, k);
      PutGets(base, Entry(key, now, 0), k);
    }
  }

  // ---- Runs, as one key sees them ---------------------------------------------------------------

  datatype Action =
    | Check(key: string, cost: nat, now: real)
    | ResetKey(key: string)
    | ResetAll

  datatype Grant = Grant(now: real, cost: nat)

  // `grants` is what the observed key was granted, in order. `wins` is the same,
  // grouped by the window it came from.
  datatype Win = Win(start: real, grants: seq<Grant>)

  datatype State = State(entries: seq<Entry>, clock: real, grants: seq<Grant>, wins: seq<Win>)

  function Start(clock: real): State {
    State([], clock, [], [])
  }

  function AddToLast(wins: seq<Win>, g: Grant): seq<Win> {
    if wins == [] then wins
    else wins[|wins| - 1 := wins[|wins| - 1].(grants := wins[|wins| - 1].grants + [g])]
  }

  // One action, watched for key k. Costs below one are refused without effect.
  function Step(s: State, rule: Rule, maxKeys: nat, k: string, a: Action): State {
    match a
    case Check(key, cost, now) =>
      if cost == 0 then s.(clock := now)
      else
        var (entries, d) := Checked(s.entries, rule, maxKeys, key, cost, now);
        var wins := if NeedsWindow(s.entries, rule, k, now) then s.wins + [Win(now, [])] else s.wins;
        if key != k then s.(entries := entries, clock := now)
        else if d.allowed
        then State(entries, now, s.grants + [Grant(now, cost)], AddToLast(wins, Grant(now, cost)))
        else State(entries, now, s.grants, wins)
    case ResetKey(key) => s.(entries := Drop(s.entries, key))
    case ResetAll => s.(entries := [])
  }

  function Run(s: State, rule: Rule, maxKeys: nat, k: string, actions: seq<Action>): State
    decreases |actions|
  {
    if actions == [] then s else Run(Step(s, rule, maxKeys, k, actions[0]), rule, maxKeys, k, actions[1..])
  }

  predicate Live(entries: seq<Entry>, rule: Rule, k: string, now: real) {
    Get(entries, k).Some? && !Expired(Get(entries, k).value, rule, now)
  }

  // The clock does not go back, and a live window of k is neither evicted nor reset.
  predicate Keeps(s: State, rule: Rule, maxKeys: nat, k: string, a: Action) {
    var now := if a.Check? then a.now else s.clock;
    && now >= s.clock
    && (Live(s.entries, rule, k, now) ==> Get(Step(s, rule, maxKeys, k, a).entries, k).Some?)
  }

  predicate KeepsThroughout(s: State, rule: Rule, maxKeys: nat, k: string, actions: seq<Action>)
    decreases |actions|
  {
    actions == [] || (Keeps(s, rule, maxKeys, k, actions[0])
                      && KeepsThroughout(Step(s, rule, maxKeys, k, actions[0]), rule, maxKeys, k, actions[1..]))
  }

  // ---- Invariant ---------------------------------------------------------------------------------

  function Total(grants: seq<Grant>): nat {
    if grants == [] then 0 else Total(grants[..|grants| - 1]) + grants[|grants| - 1].cost
  }

  function Flat(wins: seq<Win>): seq<Grant> {
    if wins == [] then [] else Flat(wins[..|wins| - 1]) + wins[|wins| - 1].grants
  }

  ghost predicate WinOk(w: Win, rule: Rule) {
    && Total(w.grants) <= rule.limit
    && forall g :: g in w.grants ==> w.start <= g.now < w.start + rule.window
  }

  ghost predicate WinsOk(wins: seq<Win>, rule: Rule) {
    && (forall w :: w in wins ==> WinOk(w, rule))
    && (forall i :: 0 < i < |wins| ==> wins[i - 1].start + rule.window <= wins[i].start)
  }

  ghost predicate Inv(s: State, rule: Rule, maxKeys: nat, k: string) {
    && DistinctKeys(s.entries) && |s.entries| <= maxKeys
    && WinsOk(s.wins, rule)
    && Flat(s.wins) == s.grants
    && (s.wins != [] ==> s.wins[|s.wins| - 1].start <= s.clock)
    && match Get(s.entries, k)
       case Some(e) =>
         s.wins != [] && s.wins[|s.wins| - 1].start == e.start && Total(s.wins[|s.wins| - 1].grants) == e.count
       case None => s.wins != [] ==> s.wins[|s.wins| - 1].start + rule.window <= s.clock
  }

  lemma {:induction false} AddedOk(wins: seq<Win>, rule: Rule, g: Grant)
    requires WinsOk(wins, rule) && wins != []
    requires var last := wins[|wins| - 1];
             last.start <= g.now < last.start + rule.window && Total(last.grants) + g.cost <= rule.limit
    ensures WinsOk(AddToLast(wins, g), rule)
    ensures Flat(AddToLast(wins, g)) == Flat(wins) + [g]
  {
    var n := |wins| - 1;
    var last := wins[n];
    var more := last.(grants := last.grants + [g]);
    var after := AddToLast(wins, g);
    assert more.grants[..|last.grants|] == last.grants;
    assert WinOk(last, rule);
    assert WinOk(more, rule);
    assert after[..n] == wins[..n];
    forall w | w in after
      ensures WinOk(w, rule)
    {
      assert w == more || w in wins;
    }
  }

  lemma {:induction false} FreshOk(wins: seq<Win>, rule: Rule, now: real)
    requires WinsOk(wins, rule)
    requires wins != [] ==> wins[|wins| - 1].start + rule.window <= now
    ensures WinsOk(wins + [Win(now, [])], rule)
    ensures Flat(wins + [Win(now, [])]) == Flat(wins)
  {
    var w := Win(now, []);
    assert WinOk(w, rule);
    WinsAppend(wins, rule, w);
    assert (wins + [w])[..|wins|] == wins;
  }

  lemma {:induction false} WinsAppend(wins: seq<Win>, rule: Rule, w: Win)
    requires WinsOk(wins, rule) && WinOk(w, rule)
    requires wins != [] ==> wins[|wins| - 1].start + rule.window <= w.start
    ensures WinsOk(wins + [w], rule)
  {
    forall x | x in wins + [w]
      ensures WinOk(x, rule)
    {
      assert x in wins || x == w;
    }
  }

  // The windows after a check of k, and the grants.
  lemma {:induction false} WinsAfterCheck(wins: seq<Win>, rule: Rule, limitLeft: bool, cost: nat, now: real)
    requires WinsOk(wins, rule) && wins != []
    requires var last := wins[|wins| - 1];
             last.start <= now < last.start + rule.window && (limitLeft <==> Total(last.grants) + cost <= rule.limit)
    ensures limitLeft ==>
              var after := AddToLast(wins, Grant(now, cost));
              && WinsOk(after, rule) && Flat(after) == Flat(wins) + [Grant(now, cost)]
              && |after| == |wins|
              && after[|wins| - 1].start == wins[|wins| - 1].start
              && Total(after[|wins| - 1].grants) == Total(wins[|wins| - 1].grants) + cost
  {
    if limitLeft {
      AddedOk(wins, rule, Grant(now, cost));
      var grants := wins[|wins| - 1].grants;
      assert (grants + [Grant(now, cost)])[..|grants|] == grants;
    }
  }

  // The state after a check of k whose window e is the last of `wins`.
  ghost predicate Continued(t: State, rule: Rule, k: string, wins: seq<Win>, e: Entry, cost: nat) {
    var allowed := e.count + cost <= rule.limit;
    && Get(t.entries, k) == Some(if allowed then e.(count := e.count + cost) else e)
    && t.wins == (if allowed then AddToLast(wins, Grant(t.clock, cost)) else wins)
    && t.grants == (if allowed then Flat(wins) + [Grant(t.clock, cost)] else Flat(wins))
  }

  lemma {:induction false} AfterCheck(t: State, rule: Rule, maxKeys: nat, k: string, wins: seq<Win>, e: Entry, cost: nat)
    requires DistinctKeys(t.entries) && |t.entries| <= maxKeys
    requires WinsOk(wins, rule) && wins != []
    requires wins[|wins| - 1].start == e.start && Total(wins[|wins| - 1].grants) == e.count
    requires e.start <= t.clock < e.start + rule.window
    requires Continued(t, rule, k, wins, e, cost)
    ensures Inv(t, rule, maxKeys, k)
  {
    if e.count + cost <= rule.limit {
      WinsAfterCheck(wins, rule, true, cost, t.clock);
    }
  }

  lemma CheckInv(s: State, rule: Rule, maxKeys: nat, k: string, cost: nat, now: real)
    requires Inv(s, rule, maxKeys, k) && rule.Valid() && maxKeys >= 1 && cost >= 1 && now >= s.clock
    ensures Inv(Step(s, rule, maxKeys, k, Check(k, cost, now)), rule, maxKeys, k)
  {
    CheckedInv(s.entries, rule, maxKeys, k, cost, now);
    CheckedGets(s.entries, rule, maxKeys, k, cost, now, k);
    var e := Window(s.entries, rule, k, now);
    var t := Step(s, rule, maxKeys, k, Check(k, cost, now));
    if NeedsWindow(s.entries, rule, k, now) {
      FreshOk(s.wins, rule, now);
      AfterCheck(t, rule, maxKeys, k, s.wins + [Win(now, [])], e, cost);
    } else {
      AfterCheck(t, rule, maxKeys, k, s.wins, e, cost);
    }
  }

  lemma StepInv(s: State, rule: Rule, maxKeys: nat, k: string, a: Action)
    requires Inv(s, rule, maxKeys, k) && rule.Valid() && maxKeys >= 1 && Keeps(s, rule, maxKeys, k, a)
    ensures Inv(Step(s, rule, maxKeys, k, a), rule, maxKeys, k)
  {
    match a
    case Check(key, cost, now) =>
      if cost >= 1 {
        if key == k {
          CheckInv(s, rule, maxKeys, k, cost, now);
        } else {
          CheckedInv(s.entries, rule, maxKeys, key, cost, now);
          CheckedGets(s.entries, rule, maxKeys, key, cost, now, k);
        }
      }
    case ResetKey(key) =>
      DropInv(s.entries, key);
      DropGets(s.entries, key, k);
    case ResetAll =>
  }

  lemma {:induction false} RunInv(s: State, rule: Rule, maxKeys: nat, k: string, actions: seq<Action>)
    requires Inv(s, rule, maxKeys, k) && rule.Valid() && maxKeys >= 1
    requires KeepsThroughout(s, rule, maxKeys, k, actions)
    ensures Inv(Run(s, rule, maxKeys, k, actions), rule, maxKeys, k)
    decreases |actions|
  {
    if actions != [] {
      StepInv(s, rule, maxKeys, k, actions[0]);
      RunInv(Step(s, rule, maxKeys, k, actions[0]), rule, maxKeys, k, actions[1..]);
    }
  }

  // ---- Twice the limit in any window length ----------------------------------------------------------

  // What was granted from `from` to `to`, both included.
  function Within(grants: seq<Grant>, from: real, to: real): nat {
    if grants == [] then 0
    else
      var g := grants[|grants| - 1];
      Within(grants[..|grants| - 1], from, to) + if from <= g.now <= to then g.cost else 0
  }

  lemma {:induction false} WithinConcat(a: seq<Grant>, b: seq<Grant>, from: real, to: real)
    ensures Within(a + b, from, to) == Within(a, from, to) + Within(b, from, to)
  {
    if b == [] {
      assert a + b == a;
    } else {
      assert (a + b)[..|a + b| - 1] == a + b[..|b| - 1];
      WithinConcat(a, b[..|b| - 1], from, to);
    }
  }

  lemma {:induction false} WithinTotal(grants: seq<Grant>, from: real, to: real)
    ensures Within(grants, from, to) <= Total(grants)
    ensures (forall g :: g in grants ==> g.now < from || g.now > to) ==> Within(grants, from, to) == 0
  {
    if grants != [] {
      WithinTotal(grants[..|grants| - 1], from, to);
      assert grants[|grants| - 1] in grants;
    }
  }

  // Windows that end before the interval contribute nothing.
  lemma {:induction false} EarlierWindows(wins: seq<Win>, rule: Rule, from: real, to: real)
    requires WinsOk(wins, rule) && rule.Valid()
    requires wins != [] ==> wins[|wins| - 1].start + rule.window <= from
    ensures Within(Flat(wins), from, to) == 0
  {
    if wins != [] {
      var n := |wins| - 1;
      assert WinOk(wins[n], rule);
      WithinTotal(wins[n].grants, from, to);
      EarlierWindows(wins[..n], rule, from, to);
      WithinConcat(Flat(wins[..n]), wins[n].grants, from, to);
    }
  }

  // Two windows at most reach into an interval of one window length.
  lemma {:induction false} TwoWindows(wins: seq<Win>, rule: Rule, from: real)
    requires WinsOk(wins, rule) && rule.Valid()
    ensures Within(Flat(wins), from, from + rule.window) <= 2 * rule.limit
  {
    var to := from + rule.window;
    if wins != [] {
      var n := |wins| - 1;
      assert WinOk(wins[n], rule);
      WithinTotal(wins[n].grants, from, to);
      WithinConcat(Flat(wins[..n]), wins[n].grants, from, to);
      if Within(wins[n].grants, from, to) == 0 {
        TwoWindows(wins[..n], rule, from);
      } else if n > 0 {
        assert wins[n].start <= to;
        var before := wins[..n];
        assert WinOk(wins[n - 1], rule);
        WithinTotal(wins[n - 1].grants, from, to);
        WithinConcat(Flat(before[..n - 1]), wins[n - 1].grants, from, to);
        EarlierWindows(before[..n - 1], rule, from, to);
      }
    }
  }

  // A key whose live window is neither evicted nor reset is granted at most twice the
  // limit in any closed interval of one window length.
  lemma AtMostTwiceTheLimit(rule: Rule, maxKeys: nat, k: string, clock: real, actions: seq<Action>, from: real)
    requires rule.Valid() && maxKeys >= 1
    requires KeepsThroughout(Start(clock), rule, maxKeys, k, actions)
    ensures Within(Run(Start(clock), rule, maxKeys, k, actions).grants, from, from + rule.window) <= 2 * rule.limit
  {
    RunInv(Start(clock), rule, maxKeys, k, actions);
    TwoWindows(Run(Start(clock), rule, maxKeys, k, actions).wins, rule, from);
  }

  // Twice the limit is reached: a full window just before its end, the next right after.
  lemma TwiceTheLimitIsReached(rule: Rule, k: string)
    requires rule.Valid()
    ensures var actions := [Check(k, rule.limit, 0.0), Check(k, rule.limit, rule.window)];
            && KeepsThroughout(Start(0.0), rule, 1, k, actions)
            && Within(Run(Start(0.0), rule, 1, k, actions).grants, 0.0, rule.window) == 2 * rule.limit
  {
    var a, b := Check(k, rule.limit, 0.0), Check(k, rule.limit, rule.window);
    var s := Step(Start(0.0), rule, 1, k, a);
    CheckedGets([], rule, 1, k, rule.limit, 0.0, k);
    CheckedInv([], rule, 1, k, rule.limit, 0.0);
    CheckedGets(s.entries, rule, 1, k, rule.limit, rule.window, k);
    assert [a, b][1..] == [b];
    assert [b][1..] == [];
    var t := Step(s, rule, 1, k, b);
    assert t.grants == [Grant(0.0, rule.limit), Grant(rule.window, rule.limit)];
    var g, h := Grant(0.0, rule.limit), Grant(rule.window, rule.limit);
    assert t.grants == [g] + [h];
    WithinConcat([g], [h], 0.0, rule.window);
    assert [g][..0] == [] && [h][..0] == [];
    assert Run(Start(0.0), rule, 1, k, [a, b]) == Run(s, rule, 1, k, [b]) == Run(t, rule, 1, k, []) == t;
  }

  // ---- After a refusal -----------------------------------------------------------------------------

  // No check of k among the actions, and times stay as given.
  predicate Without(actions: seq<Action>, k: string) {
    forall a :: a in actions ==> !(a.Check? && a.key == k)
  }

  lemma {:induction false} OthersKeepOrDrop(s: State, rule: Rule, maxKeys: nat, k: string, actions: seq<Action>)
    requires DistinctKeys(s.entries) && |s.entries| <= maxKeys && maxKeys >= 1 && Without(actions, k)
    ensures var t := Run(s, rule, maxKeys, k, actions);
            && DistinctKeys(t.entries) && |t.entries| <= maxKeys
            && (Get(t.entries, k).None? || Get(t.entries, k) == Get(s.entries, k))
    decreases |actions|
  {
    if actions != [] {
      var a := actions[0];
      if a.Check? {
        if a.cost >= 1 {
          CheckedInv(s.entries, rule, maxKeys, a.key, a.cost, a.now);
          CheckedGets(s.entries, rule, maxKeys, a.key, a.cost, a.now, k);
        }
      } else if a.ResetKey? {
        DropInv(s.entries, a.key);
        DropGets(s.entries, a.key, k);
      }
      OthersKeepOrDrop(Step(s, rule, maxKeys, k, a), rule, maxKeys, k, actions[1..]);
    }
  }

  lemma CeilMeans(v: real)
    ensures Ceil(v) as real >= v
    ensures v > 0.0 ==> (Ceil(v) as real) < v + 1.0
  {
  }

  // After a refusal the key's next check succeeds for any cost within the limit, if it
  // comes no earlier than the promised wait, whatever other keys do meanwhile.
  lemma RetryAfterSuffices(s: State, rule: Rule, maxKeys: nat, k: string, cost: nat, now: real,
                           between: seq<Action>, again: nat, later: real)
    requires DistinctKeys(s.entries) && |s.entries| <= maxKeys && maxKeys >= 1 && rule.Valid()
    requires cost >= 1 && !Checked(s.entries, rule, maxKeys, k, cost, now).1.allowed
    requires Without(between, k) && again <= rule.limit
    requires later >= now + Checked(s.entries, rule, maxKeys, k, cost, now).1.retryAfter as real
    ensures var t := Run(Step(s, rule, maxKeys, k, Check(k, cost, now)), rule, maxKeys, k, between);
            Checked(t.entries, rule, maxKeys, k, again, later).1.allowed
  {
    var refused := Step(s, rule, maxKeys, k, Check(k, cost, now));
    CheckedInv(s.entries, rule, maxKeys, k, cost, now);
    CheckedGets(s.entries, rule, maxKeys, k, cost, now, k);
    OthersKeepOrDrop(refused, rule, maxKeys, k, between);
    var e := Window(s.entries, rule, k, now);
    CeilMeans(e.start + rule.window - now);
    var t := Run(refused, rule, maxKeys, k, between);
    assert NeedsWindow(t.entries, rule, k, later);
  }

  // A cost above the limit is refused at every time: no wait helps it.
  lemma CostAboveLimitNeverPasses(entries: seq<Entry>, rule: Rule, maxKeys: nat, k: string, cost: nat, now: real)
    ensures cost > rule.limit ==> !Checked(entries, rule, maxKeys, k, cost, now).1.allowed
  {
  }

  // In every run the table stays within its bound.
  lemma {:induction false} TableBounded(s: State, rule: Rule, maxKeys: nat, k: string, actions: seq<Action>)
    requires DistinctKeys(s.entries) && |s.entries| <= maxKeys && maxKeys >= 1
    ensures |Run(s, rule, maxKeys, k, actions).entries| <= maxKeys
    decreases |actions|
  {
    if actions != [] {
      var a := actions[0];
      if a.Check? {
        CheckedInv(s.entries, rule, maxKeys, a.key, a.cost, a.now);
      } else if a.ResetKey? {
        DropInv(s.entries, a.key);
      }
      TableBounded(Step(s, rule, maxKeys, k, a), rule, maxKeys, k, actions[1..]);
    }
  }
}
