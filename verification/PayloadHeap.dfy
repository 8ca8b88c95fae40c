// Redaction where the collector does it: in place, on maps and slices reached
// through references (event_governance.go). A layout says which map stands at
// each place of the tree; no map stands at two places, as after json.Unmarshal.
module PayloadHeap {
  import opened JsonTree
  import opened Redaction

  type Atom = j: Json | j.Scalar? || j.Text? witness Scalar("")

  // What a map or a slice holds: a leaf, or another map or slice.
  datatype Value = Leaf(j: Atom) | Slice(items: seq<Value>) | Ref(o: ObjectMap)

  class ObjectMap {
    var entries: map<string, Value>
  }

  datatype Layout =
    | LeafAt(j: Atom)
    | SliceAt(items: seq<Layout>)
    | MapAt(o: ObjectMap, slots: seq<Slot>)

  datatype Slot = Slot(key: string, kid: Layout)

  function ValueOf(l: Layout): Value {
    match l
    case LeafAt(j) => Leaf(j)
    case SliceAt(items) => Slice(seq(|items|, i requires 0 <= i < |items| => ValueOf(items[i])))
    case MapAt(o, _) => Ref(o)
  }

  function TreeOf(l: Layout): Json {
    match l
    case LeafAt(j) => j
    case SliceAt(items) => Array(seq(|items|, i requires 0 <= i < |items| => TreeOf(items[i])))
    case MapAt(_, slots) => Object(seq(|slots|, i requires 0 <= i < |slots| => Member(slots[i].key, TreeOf(slots[i].kid))))
  }

  ghost function Maps(l: Layout): set<ObjectMap> {
    match l
    case LeafAt(_) => {}
    case SliceAt(items) => set i, o | 0 <= i < |items| && o in Maps(items[i]) :: o
    case MapAt(o, slots) => {o} + set i, c | 0 <= i < |slots| && c in Maps(slots[i].kid) :: c
  }

  // The heap holds this layout.
  ghost predicate Stored(l: Layout)
    reads Maps(l)
  {
    match l
    case LeafAt(_) => true
    case SliceAt(items) =>
      && (forall i :: 0 <= i < |items| ==> Stored(items[i]))
      && (forall i, j :: 0 <= i < j < |items| ==> Maps(items[i]) !! Maps(items[j]))
    case MapAt(o, slots) =>
      && (forall i, j :: 0 <= i < j < |slots| ==> slots[i].key != slots[j].key)
      && (forall k :: k in o.entries <==> exists i :: 0 <= i < |slots| && slots[i].key == k)
      && (forall i :: 0 <= i < |slots| ==> o.entries[slots[i].key] == ValueOf(slots[i].kid))
      && (forall i :: 0 <= i < |slots| ==> Stored(slots[i].kid) && o !in Maps(slots[i].kid))
      && (forall i, j :: 0 <= i < j < |slots| ==> Maps(slots[i].kid) !! Maps(slots[j].kid))
  }

  // The layout after redaction: the same maps, some members now a leaf.
  function Redacted(p: Policy, l: Layout): Layout {
    match l
    case LeafAt(_) => l
    case SliceAt(items) => SliceAt(seq(|items|, i requires 0 <= i < |items| => Redacted(p, items[i])))
    case MapAt(o, slots) => MapAt(o, seq(|slots|, i requires 0 <= i < |slots| => RedactedSlot(p, slots[i])))
  }

  function RedactedSlot(p: Policy, s: Slot): Slot {
    Slot(s.key, if Hit(p, Member(s.key, TreeOf(s.kid))) then LeafAt(Text(REDACTED)) else Redacted(p, s.kid))
  }

  lemma {:induction false} RedactedMaps(p: Policy, l: Layout)
    ensures Maps(Redacted(p, l)) <= Maps(l)
  {
    match l
    case LeafAt(_) =>
    case SliceAt(items) =>
      forall i | 0 <= i < |items| ensures Maps(Redacted(p, items[i])) <= Maps(items[i]) { RedactedMaps(p, items[i]); }
    case MapAt(_, slots) =>
      forall i | 0 <= i < |slots| ensures Maps(RedactedSlot(p, slots[i]).kid) <= Maps(slots[i].kid) { RedactedMaps(p, slots[i].kid); }
  }

  // Neither redaction nor the slices above it move a map.
  lemma {:induction false} RedactedValue(p: Policy, l: Layout)
    ensures ValueOf(Redacted(p, l)) == ValueOf(l)
  {
    match l
    case SliceAt(items) =>
      forall i | 0 <= i < |items| ensures ValueOf(Redacted(p, items[i])) == ValueOf(items[i]) { RedactedValue(p, items[i]); }
    case _ =>
  }

  // The redacted layout spells the redacted tree.
  lemma {:induction false} RedactedSpells(p: Policy, l: Layout)
    ensures TreeOf(Redacted(p, l)) == Redact(p, TreeOf(l))
  {
    hide NormalizeSensitiveKey;
    match l
    case LeafAt(_) =>
    case SliceAt(items) =>
      var js := TreeOf(l).items;
      forall i | 0 <= i < |items| ensures TreeOf(Redacted(p, items[i])) == RedactItems(p, js)[i] {
        RedactedSpells(p, items[i]);
        ItemAt(p, js, i);
      }
      assert TreeOf(Redacted(p, l)).items == RedactItems(p, js);
    case MapAt(_, slots) =>
      var ms := TreeOf(l).members;
      forall i | 0 <= i < |slots|
        ensures Member(slots[i].key, TreeOf(RedactedSlot(p, slots[i]).kid)) == RedactMembers(p, ms)[i]
      {
        RedactedSpells(p, slots[i].kid);
        MemberAt(p, ms, i);
      }
      assert TreeOf(Redacted(p, l)).members == RedactMembers(p, ms);
  }

  // A value looks like a secret text exactly if its tree does.
  lemma SeesText(p: Policy, l: Layout)
    ensures (ValueOf(l).Leaf? && SecretText(p, ValueOf(l).j)) <==> SecretText(p, TreeOf(l))
  {
  }

  ghost predicate SlotModifies(p: Policy, s: Slot) {
    Hit(p, Member(s.key, TreeOf(s.kid))) || Modifies(p, TreeOf(s.kid))
  }

  lemma ModifiesSome(p: Policy, l: Layout)
    ensures l.MapAt? ==> (Modifies(p, TreeOf(l)) <==> exists i :: 0 <= i < |l.slots| && SlotModifies(p, l.slots[i]))
    ensures l.SliceAt? ==> (Modifies(p, TreeOf(l)) <==> exists i :: 0 <= i < |l.items| && Modifies(p, TreeOf(l.items[i])))
    ensures l.LeafAt? ==> !Modifies(p, TreeOf(l))
  {
    hide Hit;
    match l
    case LeafAt(_) =>
    case SliceAt(items) =>
      var js := TreeOf(l).items;
      assert forall i :: 0 <= i < |items| ==> js[i] == TreeOf(items[i]);
    case MapAt(_, slots) =>
      var ms := TreeOf(l).members;
      assert forall i :: 0 <= i < |slots| ==> ms[i] == Member(slots[i].key, TreeOf(slots[i].kid));
  }

  // The parts of a stored slice or map, and back.
  lemma SliceParts(items: seq<Layout>)
    requires Stored(SliceAt(items))
    ensures forall i :: 0 <= i < |items| ==> Stored(items[i]) && Maps(items[i]) <= Maps(SliceAt(items))
    ensures Apart(items)
  {
  }

  lemma {:induction false} MapsExist(l: Layout)
    ensures forall o :: o in Maps(l) ==> allocated(o)
  {
    match l
    case LeafAt(_) =>
    case SliceAt(items) =>
      forall i | 0 <= i < |items| ensures forall o :: o in Maps(items[i]) ==> allocated(o) { MapsExist(items[i]); }
    case MapAt(_, slots) =>
      forall i | 0 <= i < |slots| ensures forall o :: o in Maps(slots[i].kid) ==> allocated(o) { MapsExist(slots[i].kid); }
  }

  // What stands elsewhere is not disturbed.
  twostate lemma StillStored(l: Layout)
    requires forall o :: o in Maps(l) ==> old(allocated(o))
    requires old(Stored(l)) && unchanged(Maps(l))
    ensures Stored(l)
  {
    hide *;
  }

  // No map stands in two of these.
  ghost predicate Apart(kids: seq<Layout>) {
    forall i, j :: 0 <= i < |kids| && 0 <= j < |kids| && i != j ==> Maps(kids[i]) !! Maps(kids[j])
  }

  lemma SliceWhole(p: Policy, items: seq<Layout>)
    requires forall i :: 0 <= i < |items| ==> Stored(Redacted(p, items[i]))
    requires Apart(items)
    ensures Stored(Redacted(p, SliceAt(items)))
  {
    hide Stored;
    var after := seq(|items|, i requires 0 <= i < |items| => Redacted(p, items[i]));
    forall i | 0 <= i < |items| ensures Maps(after[i]) <= Maps(items[i]) { RedactedMaps(p, items[i]); }
    assert Apart(after);
    hide Maps;
    SliceStored(after);
  }

  lemma SliceStored(items: seq<Layout>)
    requires forall i :: 0 <= i < |items| ==> Stored(items[i])
    requires Apart(items)
    ensures Stored(SliceAt(items))
  {
  }

  // The entry of a slot is in place.
  ghost predicate Holds(entries: map<string, Value>, s: Slot)
    reads Maps(s.kid)
  {
    s.key in entries && entries[s.key] == ValueOf(s.kid) && Stored(s.kid)
  }

  ghost predicate DistinctKeys(slots: seq<Slot>) {
    forall i, j :: 0 <= i < j < |slots| ==> slots[i].key != slots[j].key
  }

  function Kids(slots: seq<Slot>): (kids: seq<Layout>)
    ensures |kids| == |slots| && forall i :: 0 <= i < |slots| ==> kids[i] == slots[i].kid
  {
    seq(|slots|, i requires 0 <= i < |slots| => slots[i].kid)
  }

  // The map has an entry for each slot and no other.
  ghost predicate KeysOf(keys: set<string>, slots: seq<Slot>) {
    forall k :: k in keys <==> exists i :: 0 <= i < |slots| && slots[i].key == k
  }

  lemma SlotOf(keys: set<string>, slots: seq<Slot>, key: string) returns (n: nat)
    requires KeysOf(keys, slots) && key in keys
    ensures n < |slots| && slots[n].key == key
  {
    n :| 0 <= n < |slots| && slots[n].key == key;
  }

  // How a slot looks while the keys in todo are still to come.
  function Shown(p: Policy, todo: set<string>, s: Slot): Slot {
    if s.key in todo then s else RedactedSlot(p, s)
  }

  lemma SlotMaps(p: Policy, s: Slot)
    ensures Maps(RedactedSlot(p, s).kid) <= Maps(s.kid) && RedactedSlot(p, s).key == s.key
    ensures forall o :: o in Maps(s.kid) ==> allocated(o)
  {
    RedactedMaps(p, s.kid);
    MapsExist(s.kid);
  }

  ghost predicate AllShown(p: Policy, entries: map<string, Value>, slots: seq<Slot>, todo: set<string>)
    reads set i, o | 0 <= i < |slots| && o in Maps(slots[i].kid) :: o
  {
    forall i :: 0 <= i < |slots| ==>
      Maps(Shown(p, todo, slots[i]).kid) <= Maps(slots[i].kid) && Holds(entries, Shown(p, todo, slots[i]))
  }

  ghost predicate SomeModified(p: Policy, slots: seq<Slot>, todo: set<string>) {
    exists i :: 0 <= i < |slots| && slots[i].key !in todo && SlotModifies(p, slots[i])
  }

  lemma NoneVisited(p: Policy, o: ObjectMap, slots: seq<Slot>)
    requires Stored(MapAt(o, slots))
    ensures AllShown(p, o.entries, slots, o.entries.Keys)
  {
    MapParts(o, slots);
    hide Stored, Maps, Holds, RedactedSlot;
  }

  lemma NoneModified(p: Policy, slots: seq<Slot>, all: set<string>)
    requires KeysOf(all, slots)
    ensures !SomeModified(p, slots, all)
  {
    hide SlotModifies;
  }

  lemma ShownAt(p: Policy, entries: map<string, Value>, slots: seq<Slot>, todo: set<string>, n: nat)
    requires n < |slots| && slots[n].key in todo && AllShown(p, entries, slots, todo)
    ensures slots[n].key in entries && entries[slots[n].key] == ValueOf(slots[n].kid) && Stored(slots[n].kid)
  {
    hide Stored, Maps;
    assert Shown(p, todo, slots[n]) == slots[n];
  }

  // The visit of one slot of a map, while the keys in todo are still to come.
  datatype Visit = Visit(p: Policy, o: ObjectMap, slots: seq<Slot>, todo: set<string>, n: nat)

  // One entry is redacted; the others are as they were.
  twostate lemma OneVisited(v: Visit)
    requires v.n < |v.slots| && v.slots[v.n].key in v.todo && DistinctKeys(v.slots) && Apart(Kids(v.slots))
    requires forall i :: 0 <= i < |v.slots| ==>
      v.o !in Maps(v.slots[i].kid) && forall c :: c in Maps(v.slots[i].kid) ==> old(allocated(c))
    requires old(AllShown(v.p, v.o.entries, v.slots, v.todo))
    requires v.slots[v.n].key in old(v.o.entries)
    requires v.o.entries == old(v.o.entries)[v.slots[v.n].key := ValueOf(RedactedSlot(v.p, v.slots[v.n]).kid)]
    requires Stored(RedactedSlot(v.p, v.slots[v.n]).kid)
    requires forall c: ObjectMap :: old(allocated(c)) && c != v.o && c !in Maps(v.slots[v.n].kid) ==> unchanged(c)
    ensures AllShown(v.p, v.o.entries, v.slots, v.todo - {v.slots[v.n].key})
  {
    hide Stored, Maps, RedactedSlot, Apart;
    var Visit(p, o, slots, todo, n) := v;
    var rest := todo - {slots[n].key};
    forall i | 0 <= i < |slots|
      ensures Maps(Shown(p, rest, slots[i]).kid) <= Maps(slots[i].kid) && Holds(o.entries, Shown(p, rest, slots[i]))
    {
      SlotMaps(p, slots[i]);
      if i == n {
        assert Shown(p, rest, slots[n]) == RedactedSlot(p, slots[n]);
      } else {
        assert Shown(p, rest, slots[i]) == Shown(p, todo, slots[i]);
        assert Maps(slots[i].kid) !! Maps(slots[n].kid) by { KidsApart(slots, i, n); }
        StillStored(Shown(p, todo, slots[i]).kid);
      }
    }
  }

  lemma KidsApart(slots: seq<Slot>, i: nat, n: nat)
    requires i < |slots| && n < |slots| && i != n && Apart(Kids(slots))
    ensures Maps(slots[i].kid) !! Maps(slots[n].kid)
  {
    hide Maps;
    assert Maps(Kids(slots)[i]) !! Maps(Kids(slots)[n]);
  }

  lemma OneModified(p: Policy, slots: seq<Slot>, todo: set<string>, n: nat)
    requires n < |slots| && DistinctKeys(slots)
    ensures SomeModified(p, slots, todo - {slots[n].key}) <==> SomeModified(p, slots, todo) || SlotModifies(p, slots[n])
  {
    hide SlotModifies;
  }

  lemma AllVisited(p: Policy, o: ObjectMap, slots: seq<Slot>)
    requires AllShown(p, o.entries, slots, {})
    ensures forall i :: 0 <= i < |slots| ==> Holds(o.entries, RedactedSlot(p, slots[i]))
    ensures SomeModified(p, slots, {}) <==> exists i :: 0 <= i < |slots| && SlotModifies(p, slots[i])
  {
    hide Holds, Maps, SlotModifies;
    forall i | 0 <= i < |slots| ensures Holds(o.entries, RedactedSlot(p, slots[i])) {
      assert Shown(p, {}, slots[i]) == RedactedSlot(p, slots[i]);
    }
  }

  lemma MapParts(o: ObjectMap, slots: seq<Slot>)
    requires Stored(MapAt(o, slots))
    ensures forall i :: 0 <= i < |slots| ==> Holds(o.entries, slots[i]) && o !in Maps(slots[i].kid) && Maps(slots[i].kid) <= Maps(MapAt(o, slots))
    ensures DistinctKeys(slots) && KeysOf(o.entries.Keys, slots) && Apart(Kids(slots)) && o in Maps(MapAt(o, slots))
  {
  }

  lemma MapStored(o: ObjectMap, slots: seq<Slot>)
    requires forall i :: 0 <= i < |slots| ==> Holds(o.entries, slots[i]) && o !in Maps(slots[i].kid)
    requires DistinctKeys(slots) && KeysOf(o.entries.Keys, slots) && Apart(Kids(slots))
    ensures Stored(MapAt(o, slots))
  {
    var kids := Kids(slots);
    assert forall i :: 0 <= i < |slots| ==> Maps(kids[i]) == Maps(slots[i].kid);
  }

  lemma MapWhole(p: Policy, o: ObjectMap, slots: seq<Slot>)
    requires forall i :: 0 <= i < |slots| ==> Holds(o.entries, RedactedSlot(p, slots[i])) && o !in Maps(slots[i].kid)
    requires DistinctKeys(slots) && KeysOf(o.entries.Keys, slots) && Apart(Kids(slots))
    ensures Stored(Redacted(p, MapAt(o, slots)))
  {
    var after := seq(|slots|, i requires 0 <= i < |slots| => RedactedSlot(p, slots[i]));
    assert Redacted(p, MapAt(o, slots)) == MapAt(o, after);
    forall i | 0 <= i < |slots| ensures Maps(after[i].kid) <= Maps(slots[i].kid) && after[i].key == slots[i].key {
      RedactedMaps(p, slots[i].kid);
    }
    hide Redacted, RedactedSlot, Maps, Stored, Holds;
    assert Apart(Kids(after)) by {
      forall i, j | 0 <= i < |after| && 0 <= j < |after| && i != j ensures Maps(Kids(after)[i]) !! Maps(Kids(after)[j]) {
        assert Maps(Kids(slots)[i]) !! Maps(Kids(slots)[j]);
      }
    }
    assert KeysOf(o.entries.Keys, after);
    MapStored(o, after);
  }

  // What the loop over a map starts from.
  lemma MapReady(p: Policy, o: ObjectMap, slots: seq<Slot>)
    requires Stored(MapAt(o, slots))
    ensures DistinctKeys(slots) && KeysOf(o.entries.Keys, slots) && Apart(Kids(slots)) && o in Maps(MapAt(o, slots))
    ensures forall i :: 0 <= i < |slots| ==>
      o !in Maps(slots[i].kid) && Maps(slots[i].kid) <= Maps(MapAt(o, slots)) && forall c :: c in Maps(slots[i].kid) ==> allocated(c)
    ensures AllShown(p, o.entries, slots, o.entries.Keys) && !SomeModified(p, slots, o.entries.Keys)
  {
    MapParts(o, slots);
    NoneVisited(p, o, slots);
    NoneModified(p, slots, o.entries.Keys);
    hide *;
    forall i | 0 <= i < |slots| ensures forall c :: c in Maps(slots[i].kid) ==> allocated(c) { MapsExist(slots[i].kid); }
  }

  // redactObject: the maps are changed where they stand, and the tree they
  // then spell is the redacted tree.
  method RedactObject(p: Policy, value: Value, ghost l: Layout) returns (modified: bool)
    requires Stored(l) && value == ValueOf(l)
    modifies Maps(l)
    ensures Stored(Redacted(p, l))
    ensures value == ValueOf(Redacted(p, l)) && TreeOf(Redacted(p, l)) == Redact(p, TreeOf(l))
    ensures modified == Modifies(p, TreeOf(l))
    decreases l, 2
  {
    RedactedValue(p, l);
    RedactedSpells(p, l);
    ModifiesSome(p, l);
    match value
    case Ref(typed) => modified := RedactMap(p, typed, l.slots);
    case Slice(typed) => modified := RedactSlice(p, typed, l.items);
    case Leaf(_) => modified := false;
  }

  // Its loop over a map, in whatever order the keys come.
  method RedactMap(p: Policy, typed: ObjectMap, ghost slots: seq<Slot>) returns (modified: bool)
    requires Stored(MapAt(typed, slots))
    modifies Maps(MapAt(typed, slots))
    ensures Stored(Redacted(p, MapAt(typed, slots)))
    ensures modified <==> exists i :: 0 <= i < |slots| && SlotModifies(p, slots[i])
    decreases slots, 1
  {
    hide *;
    modified := false;
    var keys := typed.entries.Keys;
    ghost var all := keys;
    MapReady(p, typed, slots);
    while keys != {}
      invariant keys <= typed.entries.Keys == all
      invariant AllShown(p, typed.entries, slots, keys)
      invariant modified == SomeModified(p, slots, keys)
      decreases keys
    {
      var key :| key in keys;
      ghost var n := SlotOf(all, slots, key);
      ShownAt(p, typed.entries, slots, keys, n);
      label before:
      var changed := RedactEntry(p, typed, key, slots[n]);
      OneVisited@before(Visit(p, typed, slots, keys, n));
      OneModified(p, slots, keys, n);
      if changed {
        modified := true;
      }
      keys := keys - {key};
    }
    AllVisited(p, typed, slots);
    MapWhole(p, typed, slots);
  }

  // One entry of the map.
  method RedactEntry(p: Policy, typed: ObjectMap, key: string, ghost slot: Slot) returns (modified: bool)
    requires key == slot.key && key in typed.entries && typed.entries[key] == ValueOf(slot.kid)
    requires Stored(slot.kid) && typed !in Maps(slot.kid)
    modifies typed, Maps(slot.kid)
    ensures typed.entries == old(typed.entries)[key := ValueOf(RedactedSlot(p, slot).kid)]
    ensures Stored(RedactedSlot(p, slot).kid)
    ensures modified == SlotModifies(p, slot)
    decreases slot
  {
    hide NormalizeSensitiveKey;
    SeesText(p, slot.kid);
    var child := typed.entries[key];
    if NormalizeSensitiveKey(key) in p.blocked {
      typed.entries := typed.entries[key := Leaf(Text(REDACTED))];
      return true;
    }
    if p.scanSecrets && child.Leaf? && SecretText(p, child.j) {
      typed.entries := typed.entries[key := Leaf(Text(REDACTED))];
      return true;
    }
    modified := RedactObject(p, child, slot.kid);
  }

  // Its loop over a slice.
  method RedactSlice(p: Policy, typed: seq<Value>, ghost items: seq<Layout>) returns (modified: bool)
    requires Stored(SliceAt(items)) && Slice(typed) == ValueOf(SliceAt(items))
    modifies Maps(SliceAt(items))
    ensures Stored(Redacted(p, SliceAt(items)))
    ensures modified <==> exists i :: 0 <= i < |items| && Modifies(p, TreeOf(items[i]))
    decreases items, 1
  {
    modified := false;
    SliceParts(items);
    hide Stored, Maps;
    for i := 0 to |typed|
      invariant forall k :: i <= k < |items| ==> Stored(items[k])
      invariant forall k :: 0 <= k < i ==> Stored(Redacted(p, items[k]))
      invariant modified <==> exists k :: 0 <= k < i && Modifies(p, TreeOf(items[k]))
    {
      forall k | 0 <= k < |items| ensures forall o :: o in Maps(items[k]) ==> allocated(o) { MapsExist(items[k]); }
      label before:
      var changed := RedactObject(p, typed[i], items[i]);
      if changed {
        modified := true;
      }
      forall k | i < k < |items| ensures Stored(items[k]) {
        assert Maps(items[k]) !! Maps(items[i]);
        StillStored@before(items[k]);
      }
      forall k | 0 <= k < i ensures Stored(Redacted(p, items[k])) {
        RedactedMaps(p, items[k]);
        assert Maps(items[k]) !! Maps(items[i]);
        StillStored@before(Redacted(p, items[k]));
      }
    }
    SliceWhole(p, items);
  }
}
