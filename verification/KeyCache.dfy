// The TTL cache of API key look-ups (auth/cache.go): the background sweep
// never changes what Get answers. Time is a parameter and does not go back.
module KeyCache {
  import opened ByteStrings

  // No record: a negative entry.
  datatype Entry = Entry(record: Option<string>, expires: int)

  datatype Ttls = Ttls(positive: int, negative: int)

  datatype Op =
    | Set(key: string, record: string, ttl: int)
    | SetNegative(key: string)
    | Invalidate(key: string)
    | EvictExpired

  datatype Timed = Timed(op: Op, now: int)

  function Answer(entries: map<string, Entry>, key: string, now: int): Option<string> {
    if key in entries && now <= entries[key].expires then entries[key].record else None
  }

  // A ttl that is not positive means the default.
  function Apply(t: Ttls, entries: map<string, Entry>, e: Timed): map<string, Entry> {
    match e.op
    case Set(key, record, ttl) => entries[key := Entry(Some(record), e.now + if ttl <= 0 then t.positive else ttl)]
    case SetNegative(key) => entries[key := Entry(None, e.now + t.negative)]
    case Invalidate(key) => entries - {key}
    case EvictExpired => map k | k in entries && e.now <= entries[k].expires :: entries[k]
  }

  class MemoryKeyCache {
    const ttls: Ttls
    var entries: map<string, Entry>

    constructor (ttls: Ttls)
      ensures this.ttls == ttls && entries == map[]
    {
      this.ttls := ttls;
      entries := map[];
    }

    method Get(key: string, now: int) returns (record: Option<string>)
      ensures record == Answer(entries, key, now)
    {
      if key !in entries { return None; }
      var entry := entries[key];
      if now > entry.expires { return None; }
      record := entry.record;
    }

    method SetRecord(key: string, record: string, ttl: int, now: int)
      modifies this
      ensures entries == Apply(ttls, old(entries), Timed(Set(key, record, ttl), now))
    {
      var life := ttl;
      if life <= 0 { life := ttls.positive; }
      entries := entries[key := Entry(Some(record), now + life)];
    }

    method SetMissing(key: string, now: int)
      modifies this
      ensures entries == Apply(ttls, old(entries), Timed(SetNegative(key), now))
    {
      entries := entries[key := Entry(None, now + ttls.negative)];
    }

    method Drop(key: string, now: int)
      modifies this
      ensures entries == Apply(ttls, old(entries), Timed(Invalidate(key), now))
    {
      entries := entries - {key};
    }

    method Sweep(now: int)
      modifies this
      ensures entries == Apply(ttls, old(entries), Timed(EvictExpired, now))
    {
      var keys := entries.Keys;
      while keys != {}
        invariant keys <= entries.Keys <= old(entries).Keys
        invariant forall k :: k in entries ==> entries[k] == old(entries)[k]
        invariant forall k :: k in old(entries) && k !in keys ==> (k in entries <==> now <= old(entries)[k].expires)
        decreases keys
      {
        var k :| k in keys;
        if now > entries[k].expires {
          entries := entries - {k};
        }
        keys := keys - {k};
      }
    }
  }

  function After(t: Ttls, trace: seq<Timed>): map<string, Entry> {
    if trace == [] then map[] else Apply(t, After(t, trace[..|trace| - 1]), trace[|trace| - 1])
  }

  predicate Monotone(trace: seq<Timed>) {
    forall i, j :: 0 <= i < j < |trace| ==> trace[i].now <= trace[j].now
  }

  // The specification looks only at the latest write of the key.
  function Latest(t: Ttls, trace: seq<Timed>, key: string): Option<Entry> {
    if trace == [] then None
    else
      var e := trace[|trace| - 1];
      match e.op
      case Set(k, record, ttl) => if k == key then Some(Entry(Some(record), e.now + if ttl <= 0 then t.positive else ttl)) else Latest(t, trace[..|trace| - 1], key)
      case SetNegative(k) => if k == key then Some(Entry(None, e.now + t.negative)) else Latest(t, trace[..|trace| - 1], key)
      case Invalidate(k) => if k == key then None else Latest(t, trace[..|trace| - 1], key)
      case EvictExpired => Latest(t, trace[..|trace| - 1], key)
  }

  // Whatever sweeps happened in between, Get gives the record of the latest
  // write of the key while that write is alive, and nothing otherwise.
  lemma {:induction false} SweepsUnobservable(t: Ttls, trace: seq<Timed>, key: string, now: int)
    requires Monotone(trace) && (trace != [] ==> trace[|trace| - 1].now <= now)
    ensures var last := Latest(t, trace, key);
      Answer(After(t, trace), key, now) == if last.Some? && now <= last.value.expires then last.value.record else None
    ensures key in After(t, trace) ==> Latest(t, trace, key) == Some(After(t, trace)[key])
    ensures var last := Latest(t, trace, key); last.Some? && now <= last.value.expires ==> key in After(t, trace)
  {
    if trace != [] {
      var n := |trace| - 1;
      if n > 0 { assert trace[n - 1].now <= trace[n].now; }
      assert Monotone(trace[..n]) by { assert forall i :: 0 <= i < n ==> trace[..n][i] == trace[i]; }
      hide Monotone;
      SweepsUnobservable(t, trace[..n], key, trace[n].now);
      SweepsUnobservable(t, trace[..n], key, now);
    }
  }
}
