// First-in-window deduplication: the collector's evicting map (state.go) and
// the file-backed store of the staging services (dedupe_store.py), both
// against one specification over the whole call history. Time is a parameter.
module Dedupe {
  import opened ByteStrings
  import opened Strings

  datatype Call = Call(value: string, now: int)

  // ---------- the specification ----------

  // The time of the latest call for v that was not a duplicate.
  function LastAccepted(window: int, calls: seq<Call>, v: string): Option<int> {
    if calls == [] then None
    else
      var earlier, c := calls[..|calls| - 1], calls[|calls| - 1];
      if c.value == v && !IsRepeat(c, window, LastAccepted(window, earlier, v)) then Some(c.now)
      else LastAccepted(window, earlier, v)
  }

  predicate IsRepeat(c: Call, window: int, last: Option<int>) {
    !Blank(c.value) && last.Some? && c.now - last.value <= window
  }

  // Call c, after these calls, repeats a value accepted at most one window ago.
  predicate Duplicate(window: int, calls: seq<Call>, c: Call) {
    IsRepeat(c, window, LastAccepted(window, calls, c.value))
  }

  predicate Monotone(calls: seq<Call>) {
    forall i, j :: 0 <= i < j < |calls| ==> calls[i].now <= calls[j].now
  }

  // ---------- the collector's map ----------

  function Evict(m: map<string, int>, window: int, now: int): map<string, int> {
    map k | k in m && now - m[k] <= window :: m[k]
  }

  // One call of isDuplicate: the new map and the answer.
  function Observe(window: int, m: map<string, int>, c: Call): (map<string, int>, bool) {
    if Blank(c.value) then (m, false)
    else
      var kept := Evict(m, window, c.now);
      if c.value in kept then (kept, true) else (kept[c.value := c.now], false)
  }

  class DedupeWindow {
    const window: int
    var seenAt: map<string, int>

    constructor (window: int)
      ensures this.window == window && seenAt == map[]
    {
      this.window := window;
      seenAt := map[];
    }

    method IsDuplicate(value: string, now: int) returns (duplicate: bool)
      modifies this
      ensures (seenAt, duplicate) == Observe(window, old(seenAt), Call(value, now))
    {
      if Blank(value) {
        return false;
      }
      var keys := seenAt.Keys;
      while keys != {}
        invariant keys <= seenAt.Keys <= old(seenAt).Keys
        invariant forall k :: k in seenAt ==> seenAt[k] == old(seenAt)[k]
        invariant forall k :: k in old(seenAt) && k !in keys ==> (k in seenAt <==> now - old(seenAt)[k] <= window)
        decreases keys
      {
        var k :| k in keys;
        if now - seenAt[k] > window {
          seenAt := seenAt - {k};
        }
        keys := keys - {k};
      }
      assert seenAt == Evict(old(seenAt), window, now);
      if value in seenAt && now - seenAt[value] <= window {
        return true;
      }
      seenAt := seenAt[value := now];
      duplicate := false;
    }
  }

  function MapAfter(window: int, calls: seq<Call>): map<string, int> {
    if calls == [] then map[]
    else Observe(window, MapAfter(window, calls[..|calls| - 1]), calls[|calls| - 1]).0
  }

  // The time of the latest call that touched the map.
  function Clock(calls: seq<Call>): Option<int> {
    if calls == [] then None
    else if !Blank(calls[|calls| - 1].value) then Some(calls[|calls| - 1].now)
    else Clock(calls[..|calls| - 1])
  }

  lemma {:induction false} ClockIsPast(calls: seq<Call>, c: Call)
    requires Monotone(calls + [c])
    ensures Monotone(calls)
    ensures Clock(calls).Some? ==> Clock(calls).value <= c.now
  {
    var all := calls + [c];
    assert forall i :: 0 <= i < |calls| ==> calls[i] == all[i];
    if calls != [] {
      var n := |calls| - 1;
      assert all[n].now <= all[n + 1].now;
      assert Monotone(calls[..n] + [calls[n]]) by { assert calls[..n] + [calls[n]] == calls; }
      ClockIsPast(calls[..n], calls[n]);
    }
  }

  // The map holds v exactly if its latest acceptance is at most a window old,
  // with the time of that acceptance.
  ghost predicate HoldsFresh(window: int, m: map<string, int>, clock: Option<int>, last: Option<int>, v: string) {
    && (v in m <==> last.Some? && clock.Some? && clock.value - last.value <= window)
    && (v in m ==> Some(m[v]) == last)
  }

  lemma OneMoreCall(window: int, m: map<string, int>, clock: Option<int>, last: Option<int>, v: string, c: Call)
    requires HoldsFresh(window, m, clock, last, v) && 0 <= window && !Blank(v)
    requires (clock.Some? ==> clock.value <= c.now) && (last.Some? ==> clock.Some?)
    ensures HoldsFresh(window, Observe(window, m, c).0, if Blank(c.value) then clock else Some(c.now),
                       if c.value == v && !IsRepeat(c, window, last) then Some(c.now) else last, v)
  {
    hide Blank;
  }

  // After each call the map holds exactly the values accepted at most one
  // window ago, each with the time it was accepted.
  lemma {:induction false} MapIsTheFreshValues(window: int, calls: seq<Call>, v: string)
    requires Monotone(calls) && 0 <= window && !Blank(v)
    ensures HoldsFresh(window, MapAfter(window, calls), Clock(calls), LastAccepted(window, calls, v), v)
  {
    if calls != [] {
      hide Blank, HoldsFresh, Observe, IsRepeat;
      var earlier, c := calls[..|calls| - 1], calls[|calls| - 1];
      assert earlier + [c] == calls;
      ClockIsPast(earlier, c);
      hide Monotone;
      MapIsTheFreshValues(window, earlier, v);
      LastHasClock(window, earlier, v);
      OneMoreCall(window, MapAfter(window, earlier), Clock(earlier), LastAccepted(window, earlier, v), v, c);
    }
  }

  lemma {:induction false} LastHasClock(window: int, calls: seq<Call>, v: string)
    requires !Blank(v)
    ensures LastAccepted(window, calls, v).Some? ==> Clock(calls).Some?
  {
    if calls != [] { LastHasClock(window, calls[..|calls| - 1], v); }
  }

  // The answer of every call is the specification's.
  lemma DedupeRefinesHistory(window: int, calls: seq<Call>, c: Call)
    requires Monotone(calls + [c]) && 0 <= window
    ensures Observe(window, MapAfter(window, calls), c).1 == Duplicate(window, calls, c)
  {
    ClockIsPast(calls, c);
    if !Blank(c.value) {
      MapIsTheFreshValues(window, calls, c.value);
      LastHasClock(window, calls, c.value);
    }
  }

  // ---------- eviction is unobservable ----------

  function ObserveKeeping(window: int, m: map<string, int>, c: Call): (map<string, int>, bool) {
    if Blank(c.value) then (m, false)
    else if c.value in m && c.now - m[c.value] <= window then (m, true)
    else (m[c.value := c.now], false)
  }

  function KeepingAfter(window: int, calls: seq<Call>): map<string, int> {
    if calls == [] then map[]
    else ObserveKeeping(window, KeepingAfter(window, calls[..|calls| - 1]), calls[|calls| - 1]).0
  }

  lemma {:induction false} KeepingIsLastAccepted(window: int, calls: seq<Call>, v: string)
    requires !Blank(v)
    ensures LastAccepted(window, calls, v)
         == if v in KeepingAfter(window, calls) then Some(KeepingAfter(window, calls)[v]) else None
  {
    if calls != [] { KeepingIsLastAccepted(window, calls[..|calls| - 1], v); }
  }

  lemma EvictionUnobservable(window: int, calls: seq<Call>, c: Call)
    requires Monotone(calls + [c]) && 0 <= window
    ensures Observe(window, MapAfter(window, calls), c).1 == ObserveKeeping(window, KeepingAfter(window, calls), c).1
  {
    DedupeRefinesHistory(window, calls, c);
    if !Blank(c.value) { KeepingIsLastAccepted(window, calls, c.value); }
  }

  // ---------- the local store of the staging services ----------

  class LocalDedupeStore {
    var db: map<string, int>

    constructor ()
      ensures db == map[]
    {
      db := map[];
    }

    method MarkSeen(key: string, ttl: int, now: int) returns (marked: bool)
      modifies this
      ensures (db, marked) == Marked(ttl, old(db), key, now)
    {
      var expiry := now + ttl;
      if key in db {
        var val := db[key];
        if val >= now {
          return false;
        }
      }
      db := db[key := expiry];
      marked := true;
    }

    method IsSeen(key: string, now: int) returns (seen: bool)
      modifies this
      ensures (db, seen) == Seen(old(db), key, now)
    {
      if key in db {
        var expiry := db[key];
        if expiry >= now {
          return true;
        }
        db := db - {key};
      }
      assert db == old(db) - {key};
      seen := false;
    }
  }

  function Marked(ttl: int, db: map<string, int>, key: string, now: int): (map<string, int>, bool) {
    if key in db && db[key] >= now then (db, false) else (db[key := now + ttl], true)
  }

  function Seen(db: map<string, int>, key: string, now: int): (map<string, int>, bool) {
    if key in db && db[key] >= now then (db, true) else (db - {key}, false)
  }

  // A trace of mark_seen calls with any is_seen calls in between.
  datatype Access = Mark(call: Call) | Query(call: Call)

  function DbAfter(ttl: int, trace: seq<Access>): map<string, int> {
    if trace == [] then map[]
    else
      var db := DbAfter(ttl, trace[..|trace| - 1]);
      match trace[|trace| - 1]
      case Mark(c) => Marked(ttl, db, c.value, c.now).0
      case Query(c) => Seen(db, c.value, c.now).0
  }

  function Marks(trace: seq<Access>): seq<Call> {
    if trace == [] then []
    else
      var earlier := Marks(trace[..|trace| - 1]);
      match trace[|trace| - 1] case Mark(c) => earlier + [c] case Query(_) => earlier
  }

  predicate MonotoneTrace(trace: seq<Access>) {
    forall i, j :: 0 <= i < j < |trace| ==> trace[i].call.now <= trace[j].call.now
  }

  // An entry is the last accepted time plus the ttl; a live one is never missing.
  predicate EntryMatches(ttl: int, db: map<string, int>, last: Option<int>, v: string, now: int) {
    && (v in db ==> last == Some(db[v] - ttl))
    && (last.Some? && now <= last.value + ttl ==> v in db)
  }

  lemma AccessKeepsEntry(ttl: int, db: map<string, int>, last: Option<int>, v: string, c: Call, now: int)
    requires EntryMatches(ttl, db, last, v, c.now) && c.now <= now && !Blank(v)
    ensures EntryMatches(ttl, Seen(db, c.value, c.now).0, last, v, now)
    ensures EntryMatches(ttl, Marked(ttl, db, c.value, c.now).0,
                         if c.value == v && !IsRepeat(c, ttl, last) then Some(c.now) else last, v, now)
  {
    hide Blank;
  }

  lemma {:induction false} DbIsTheLiveValues(ttl: int, trace: seq<Access>, v: string, now: int)
    requires MonotoneTrace(trace) && !Blank(v)
    requires trace != [] ==> trace[|trace| - 1].call.now <= now
    ensures EntryMatches(ttl, DbAfter(ttl, trace), LastAccepted(ttl, Marks(trace), v), v, now)
  {
    if trace != [] {
      hide Blank, EntryMatches, Marked, Seen, IsRepeat;
      var n := |trace| - 1;
      var earlier, c := trace[..n], trace[n].call;
      if n > 0 { assert earlier[n - 1].call.now <= c.now; }
      DbIsTheLiveValues(ttl, earlier, v, c.now);
      AccessKeepsEntry(ttl, DbAfter(ttl, earlier), LastAccepted(ttl, Marks(earlier), v), v, c, now);
      if trace[n].Mark? {
        var marks := Marks(trace);
        assert marks[..|marks| - 1] == Marks(earlier) && marks[|marks| - 1] == c;
      }
    }
  }

  lemma {:induction false} MarksMonotone(trace: seq<Access>)
    requires MonotoneTrace(trace)
    ensures Monotone(Marks(trace))
    ensures forall c :: c in Marks(trace) ==> trace != [] && c.now <= trace[|trace| - 1].call.now
  {
    if trace != [] {
      MarksMonotone(trace[..|trace| - 1]);
    }
  }

  // At every mark the two stores give opposite words for the same answer, and
  // is_seen asks what isDuplicate would answer.
  lemma StoresAgree(window: int, trace: seq<Access>, c: Call)
    requires 0 <= window && MonotoneTrace(trace + [Mark(c)]) && !Blank(c.value)
    ensures Marked(window, DbAfter(window, trace), c.value, c.now).1
         == !Observe(window, MapAfter(window, Marks(trace)), c).1
    ensures Seen(DbAfter(window, trace), c.value, c.now).1
         == Observe(window, MapAfter(window, Marks(trace)), c).1
  {
    var all := trace + [Mark(c)];
    assert forall i :: 0 <= i < |trace| ==> all[i] == trace[i];
    if trace != [] { assert all[|trace| - 1].call.now <= all[|trace|].call.now; }
    DbIsTheLiveValues(window, trace, c.value, c.now);
    MarksMonotone(all);
    assert all[..|all| - 1] == trace;
    assert Marks(all) == Marks(trace) + [c];
    DedupeRefinesHistory(window, Marks(trace), c);
  }

  // Blank keys are where they part: the collector never calls one a duplicate.
  lemma BlankKeysDisagree(window: int, v: string, now: int)
    requires 0 <= window && Blank(v)
    ensures var c := Call(v, now);
      !Marked(window, DbAfter(window, [Mark(c)]), v, now).1 && !Observe(window, MapAfter(window, [c]), c).1
  {
    var c := Call(v, now);
    assert [Mark(c)][..0] == [];
  }
}
