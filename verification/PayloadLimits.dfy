// The payload limits of event_governance.go and how redaction affects them.
module PayloadLimits {
  import opened ByteStrings
  import opened JsonTree
  import opened Redaction

  // ---------- countFields and maxDepth ----------

  function CountFields(j: Json): nat {
    match j
    case Object(ms) => |ms| + CountMembers(ms)
    case Array(items) => CountItems(items)
    case _ => 0
  }

  function CountMembers(ms: seq<Member>): nat {
    if ms == [] then 0 else CountFields(ms[0].value) + CountMembers(ms[1..])
  }

  function CountItems(items: seq<Json>): nat {
    if items == [] then 0 else CountFields(items[0]) + CountItems(items[1..])
  }

  function Max(a: nat, b: nat): nat {
    if a < b then b else a
  }

  function MaxDepth(j: Json): (d: nat)
    ensures 1 <= d
  {
    match j
    case Object(ms) => 1 + DeepestMember(ms)
    case Array(items) => 1 + DeepestItem(items)
    case _ => 1
  }

  function DeepestMember(ms: seq<Member>): nat {
    if ms == [] then 0 else Max(MaxDepth(ms[0].value), DeepestMember(ms[1..]))
  }

  function DeepestItem(items: seq<Json>): nat {
    if items == [] then 0 else Max(MaxDepth(items[0]), DeepestItem(items[1..]))
  }

  // ---------- what countFields counts ----------

  function Under(i: nat, ps: seq<Place>): (r: seq<Place>)
    ensures |r| == |ps|
  {
    seq(|ps|, k requires 0 <= k < |ps| => [i] + ps[k])
  }

  // The members of a tree, by place.
  function MemberPlaces(j: Json): seq<Place> {
    match j
    case Object(ms) => PlacesInMembers(ms, 0)
    case Array(items) => PlacesInItems(items, 0)
    case _ => []
  }

  function PlacesInMembers(ms: seq<Member>, first: nat): seq<Place> {
    if ms == [] then []
    else [[first]] + Under(first, MemberPlaces(ms[0].value)) + PlacesInMembers(ms[1..], first + 1)
  }

  function PlacesInItems(items: seq<Json>, first: nat): seq<Place> {
    if items == [] then [] else Under(first, MemberPlaces(items[0])) + PlacesInItems(items[1..], first + 1)
  }

  predicate NoRepeats(ps: seq<Place>) {
    forall a, b :: 0 <= a < b < |ps| ==> ps[a] != ps[b]
  }

  lemma InUnder(i: nat, ps: seq<Place>, at: Place)
    ensures at in Under(i, ps) <==> at != [] && at[0] == i && at[1..] in ps
  {
    var r := Under(i, ps);
    if at in r {
      var a :| 0 <= a < |r| && r[a] == at;
      assert r[a][1..] == ps[a];
    }
    if at != [] && at[0] == i && at[1..] in ps {
      var a :| 0 <= a < |ps| && ps[a] == at[1..];
      assert r[a] == at;
    }
  }

  lemma {:induction false} InMembers(ms: seq<Member>, first: nat, at: Place)
    ensures at in PlacesInMembers(ms, first)
       <==> (at != [] && first <= at[0] < first + |ms| && (|at| == 1 || at[1..] in MemberPlaces(ms[at[0] - first].value)))
  {
    if ms != [] {
      var below, rest := MemberPlaces(ms[0].value), PlacesInMembers(ms[1..], first + 1);
      NoEmptyPlace(ms[0].value);
      InMembers(ms[1..], first + 1, at);
      InUnder(first, below, at);
      assert PlacesInMembers(ms, first) == [[first]] + Under(first, below) + rest;
      hide MemberPlaces, PlacesInMembers, Under;
      if |at| == 1 && at[0] == first { assert at == [first]; }
    }
  }

  lemma {:induction false} InItems(items: seq<Json>, first: nat, at: Place)
    ensures at in PlacesInItems(items, first)
       <==> (at != [] && first <= at[0] < first + |items| && at[1..] in MemberPlaces(items[at[0] - first]))
  {
    if items != [] {
      var below, rest := MemberPlaces(items[0]), PlacesInItems(items[1..], first + 1);
      InItems(items[1..], first + 1, at);
      InUnder(first, below, at);
      assert PlacesInItems(items, first) == Under(first, below) + rest;
      hide MemberPlaces, PlacesInItems, Under;
    }
  }

  lemma {:induction false} NoEmptyPlace(j: Json)
    ensures [] !in MemberPlaces(j)
  {
    match j
    case Object(ms) => NoEmptyInMembers(ms, 0);
    case Array(items) => InItems(items, 0, []);
    case _ =>
  }

  lemma {:induction false} NoEmptyInMembers(ms: seq<Member>, first: nat)
    ensures [] !in PlacesInMembers(ms, first)
  {
    if ms != [] {
      InUnder(first, MemberPlaces(ms[0].value), []);
      NoEmptyInMembers(ms[1..], first + 1);
    }
  }

  // A member is one of the object's own or one further down.
  lemma PlaceOfMember(j: Json, at: Place)
    ensures j.Object? ==> (MemberThere(j, at) <==>
      at != [] && at[0] < |j.members| && (|at| == 1 || MemberThere(j.members[at[0]].value, at[1..])))
    ensures j.Array? ==> (MemberThere(j, at) <==> |at| > 1 && at[0] < |j.items| && MemberThere(j.items[at[0]], at[1..]))
  {
    if |at| > 1 {
      StepInto(j, at);
    } else if |at| == 1 {
      assert at[..0] == [];
    }
  }

  lemma {:induction false} PlaceIff(j: Json, at: Place)
    ensures at in MemberPlaces(j) <==> MemberThere(j, at)
    decreases at
  {
    PlaceOfMember(j, at);
    match j
    case Object(ms) =>
      InMembers(ms, 0, at);
      if at != [] && at[0] < |ms| { PlaceIff(ms[at[0]].value, at[1..]); }
    case Array(items) =>
      InItems(items, 0, at);
      if at != [] && at[0] < |items| {
        PlaceIff(items[at[0]], at[1..]);
        NoEmptyPlace(items[at[0]]);
      }
    case _ =>
  }

  lemma UnderKeeps(i: nat, ps: seq<Place>)
    requires NoRepeats(ps)
    ensures NoRepeats(Under(i, ps))
  {
    var r := Under(i, ps);
    assert forall a :: 0 <= a < |r| ==> r[a][1..] == ps[a];
  }

  lemma JoinNoRepeats(a: seq<Place>, b: seq<Place>)
    requires NoRepeats(a) && NoRepeats(b) && forall at :: at in a ==> at !in b
    ensures NoRepeats(a + b)
  {
    var ab := a + b;
    forall i, j | 0 <= i < j < |ab| ensures ab[i] != ab[j] {
      if i < |a| <= j { assert ab[i] in a && ab[j] in b; }
    }
  }

  lemma {:induction false} PlacesDiffer(j: Json)
    ensures |MemberPlaces(j)| == CountFields(j) && NoRepeats(MemberPlaces(j))
  {
    match j
    case Object(ms) => MembersDiffer(ms, 0);
    case Array(items) => ItemsDiffer(items, 0);
    case _ =>
  }

  lemma {:induction false} MembersDiffer(ms: seq<Member>, first: nat)
    ensures |PlacesInMembers(ms, first)| == |ms| + CountMembers(ms) && NoRepeats(PlacesInMembers(ms, first))
  {
    if ms != [] {
      var below, rest := MemberPlaces(ms[0].value), PlacesInMembers(ms[1..], first + 1);
      PlacesDiffer(ms[0].value);
      MembersDiffer(ms[1..], first + 1);
      NoEmptyPlace(ms[0].value);
      hide MemberPlaces, CountFields, NoRepeats, Under;
      assert NoRepeats([[first]]) by { OneNoRepeats([first]); }
      UnderKeeps(first, below);
      forall at | at in [[first]] ensures at !in Under(first, below) { InUnder(first, below, at); }
      JoinNoRepeats([[first]], Under(first, below));
      forall at | at in rest ensures at !in [[first]] + Under(first, below) {
        InMembers(ms[1..], first + 1, at);
        InUnder(first, below, at);
      }
      JoinNoRepeats([[first]] + Under(first, below), rest);
    } else {
      assert NoRepeats([]);
    }
  }

  lemma OneNoRepeats(at: Place)
    ensures NoRepeats([at])
  {
  }

  lemma {:induction false} ItemsDiffer(items: seq<Json>, first: nat)
    ensures |PlacesInItems(items, first)| == CountItems(items) && NoRepeats(PlacesInItems(items, first))
  {
    if items != [] {
      var below, rest := MemberPlaces(items[0]), PlacesInItems(items[1..], first + 1);
      PlacesDiffer(items[0]);
      ItemsDiffer(items[1..], first + 1);
      hide MemberPlaces, CountFields, NoRepeats, Under;
      UnderKeeps(first, below);
      forall at | at in rest ensures at !in Under(first, below) {
        InItems(items[1..], first + 1, at);
        InUnder(first, below, at);
      }
      JoinNoRepeats(Under(first, below), rest);
    } else {
      assert NoRepeats([]);
    }
  }

  // countFields is the number of members anywhere in the tree.
  lemma CountFieldsIsMembers(j: Json) returns (places: seq<Place>)
    ensures |places| == CountFields(j) && NoRepeats(places)
    ensures forall at :: at in places <==> MemberThere(j, at)
  {
    PlacesDiffer(j);
    places := MemberPlaces(j);
    forall at ensures at in places <==> MemberThere(j, at) { PlaceIff(j, at); }
  }

  // ---------- what maxDepth measures ----------

  lemma {:induction false} DeepestBounds(ms: seq<Member>, items: seq<Json>)
    ensures forall i :: 0 <= i < |ms| ==> MaxDepth(ms[i].value) <= DeepestMember(ms)
    ensures forall i :: 0 <= i < |items| ==> MaxDepth(items[i]) <= DeepestItem(items)
    decreases |ms| + |items|
  {
    if ms != [] {
      DeepestBounds(ms[1..], items);
      assert forall i :: 0 < i < |ms| ==> ms[i] == ms[1..][i - 1];
    } else if items != [] {
      DeepestBounds(ms, items[1..]);
      assert forall i :: 0 < i < |items| ==> items[i] == items[1..][i - 1];
    }
  }

  // The depth is an upper bound on every place of the tree, and is reached.
  lemma {:induction false} DepthBoundsPlaces(j: Json, at: Place)
    requires Lookup(j, at).Some?
    ensures |at| < MaxDepth(j)
    decreases at
  {
    if at != [] {
      match j
      case Object(ms) => DeepestBounds(ms, []); DepthBoundsPlaces(ms[at[0]].value, at[1..]);
      case Array(items) => DeepestBounds([], items); DepthBoundsPlaces(items[at[0]], at[1..]);
      case _ =>
    }
  }

  lemma {:induction false} DeepestPlace(j: Json) returns (at: Place)
    ensures Lookup(j, at).Some? && |at| + 1 == MaxDepth(j)
  {
    at := [];
    match j
    case Object(ms) =>
      if ms != [] {
        var i := DeepestMemberAt(ms);
        var below := DeepestPlace(ms[i].value);
        at := [i] + below;
        assert at[1..] == below;
      }
    case Array(items) =>
      if items != [] {
        var i := DeepestItemAt(items);
        var below := DeepestPlace(items[i]);
        at := [i] + below;
        assert at[1..] == below;
      }
    case _ =>
  }

  lemma {:induction false} DeepestMemberAt(ms: seq<Member>) returns (i: nat)
    requires ms != []
    ensures i < |ms| && MaxDepth(ms[i].value) == DeepestMember(ms)
  {
    i := 0;
    assert DeepestMember(ms) == Max(MaxDepth(ms[0].value), DeepestMember(ms[1..]));
    if MaxDepth(ms[0].value) < DeepestMember(ms) {
      i := DeepestMemberAt(ms[1..]);
      i := i + 1;
    }
  }

  lemma {:induction false} DeepestItemAt(items: seq<Json>) returns (i: nat)
    requires items != []
    ensures i < |items| && MaxDepth(items[i]) == DeepestItem(items)
  {
    i := 0;
    assert DeepestItem(items) == Max(MaxDepth(items[0]), DeepestItem(items[1..]));
    if MaxDepth(items[0]) < DeepestItem(items) {
      i := DeepestItemAt(items[1..]);
      i := i + 1;
    }
  }

  // Redaction never adds fields or depth.
  lemma {:induction false} RedactionShrinks(p: Policy, j: Json)
    ensures CountFields(Redact(p, j)) <= CountFields(j)
    ensures MaxDepth(Redact(p, j)) <= MaxDepth(j)
  {
    match j
    case Object(ms) => MembersShrink(p, ms);
    case Array(items) => ItemsShrink(p, items);
    case _ =>
  }

  lemma {:induction false} MembersShrink(p: Policy, ms: seq<Member>)
    ensures CountMembers(RedactMembers(p, ms)) <= CountMembers(ms)
    ensures DeepestMember(RedactMembers(p, ms)) <= DeepestMember(ms)
  {
    if ms != [] {
      var r := RedactMembers(p, ms);
      assert r[0] == RedactMember(p, ms[0]) && r[1..] == RedactMembers(p, ms[1..]);
      RedactionShrinks(p, ms[0].value);
      MembersShrink(p, ms[1..]);
    }
  }

  lemma {:induction false} ItemsShrink(p: Policy, items: seq<Json>)
    ensures CountItems(RedactItems(p, items)) <= CountItems(items)
    ensures DeepestItem(RedactItems(p, items)) <= DeepestItem(items)
  {
    if items != [] {
      assert RedactItems(p, items)[1..] == RedactItems(p, items[1..]);
      RedactionShrinks(p, items[0]);
      ItemsShrink(p, items[1..]);
    }
  }

  // ---------- firstStringLongerThan ----------

  datatype LongString = LongString(path: string, length: nat)

  function RootName(path: string): string {
    if path == "" then "<root>" else path
  }

  function FirstStringLongerThan(j: Json, limit: int, path: string): Option<LongString> {
    match j
    case Object(ms) => FirstInMembers(ms, limit, path)
    case Array(items) => FirstInItems(items, 0, limit, path)
    case Text(s) => if ByteLength(s) > limit then Some(LongString(RootName(path), ByteLength(s))) else None
    case _ => None
  }

  function FirstInMembers(ms: seq<Member>, limit: int, path: string): Option<LongString> {
    if ms == [] then None
    else
      match FirstStringLongerThan(ms[0].value, limit, MemberPath(path, ms[0].key))
      case Some(found) => Some(found)
      case None => FirstInMembers(ms[1..], limit, path)
  }

  function FirstInItems(items: seq<Json>, first: nat, limit: int, path: string): Option<LongString> {
    if items == [] then None
    else
      match FirstStringLongerThan(items[0], limit, ItemPath(path, first))
      case Some(found) => Some(found)
      case None => FirstInItems(items[1..], first + 1, limit, path)
  }

  // This place holds a text longer than the limit.
  predicate TooLongAt(j: Json, at: Place, limit: int) {
    match Lookup(j, at) case Some(Text(s)) => ByteLength(s) > limit case _ => false
  }

  ghost predicate SomeTooLong(j: Json, limit: int) {
    exists at :: TooLongAt(j, at, limit)
  }

  // A reported path is that of a place with such a text, and its length is right.
  ghost predicate LeadsTo(j: Json, path: string, found: LongString, limit: int, at: Place) {
    && TooLongAt(j, at, limit)
    && found.path == RootName(PathOf(j, at, path))
    && found.length == ByteLength(Lookup(j, at).value.s)
  }

  lemma {:induction false} ReportedIsThere(j: Json, limit: int, path: string) returns (at: Place)
    requires FirstStringLongerThan(j, limit, path).Some?
    ensures LeadsTo(j, path, FirstStringLongerThan(j, limit, path).value, limit, at)
  {
    hide MemberPath, ItemPath, ByteLength;
    at := [];
    match j
    case Object(ms) =>
      var i := FirstMember(ms, limit, path);
      var below := ReportedIsThere(ms[i].value, limit, MemberPath(path, ms[i].key));
      at := [i] + below;
      assert at[1..] == below;
    case Array(items) =>
      var i := FirstItem(items, 0, limit, path);
      var below := ReportedIsThere(items[i], limit, ItemPath(path, i));
      at := [i] + below;
      assert at[1..] == below;
    case _ =>
  }

  lemma {:induction false} FirstMember(ms: seq<Member>, limit: int, path: string) returns (i: nat)
    requires FirstInMembers(ms, limit, path).Some?
    ensures i < |ms|
    ensures FirstStringLongerThan(ms[i].value, limit, MemberPath(path, ms[i].key)) == FirstInMembers(ms, limit, path)
  {
    hide MemberPath, ItemPath, ByteLength;
    i := 0;
    if FirstStringLongerThan(ms[0].value, limit, MemberPath(path, ms[0].key)).None? {
      i := FirstMember(ms[1..], limit, path);
      i := i + 1;
    }
  }

  lemma {:induction false} FirstItem(items: seq<Json>, first: nat, limit: int, path: string) returns (i: nat)
    requires FirstInItems(items, first, limit, path).Some?
    ensures i < |items|
    ensures FirstStringLongerThan(items[i], limit, ItemPath(path, first + i)) == FirstInItems(items, first, limit, path)
  {
    hide MemberPath, ItemPath, ByteLength;
    i := 0;
    assert ItemPath(path, first + 0) == ItemPath(path, first);
    if FirstStringLongerThan(items[0], limit, ItemPath(path, first)).None? {
      i := FirstItem(items[1..], first + 1, limit, path);
      i := i + 1;
    }
  }

  lemma {:induction false} LongTextIsReported(j: Json, limit: int, path: string, at: Place)
    requires TooLongAt(j, at, limit)
    ensures FirstStringLongerThan(j, limit, path).Some?
    decreases at
  {
    hide MemberPath, ItemPath, ByteLength;
    if at != [] {
      match j
      case Object(ms) =>
        LongTextIsReported(ms[at[0]].value, limit, MemberPath(path, ms[at[0]].key), at[1..]);
        SomeMember(ms, at[0], limit, path);
      case Array(items) =>
        LongTextIsReported(items[at[0]], limit, ItemPath(path, at[0]), at[1..]);
        SomeItem(items, 0, at[0], limit, path);
      case _ =>
    }
  }

  lemma {:induction false} SomeMember(ms: seq<Member>, i: nat, limit: int, path: string)
    requires i < |ms| && FirstStringLongerThan(ms[i].value, limit, MemberPath(path, ms[i].key)).Some?
    ensures FirstInMembers(ms, limit, path).Some?
  {
    hide MemberPath, ItemPath, ByteLength;
    if i > 0 { SomeMember(ms[1..], i - 1, limit, path); }
  }

  lemma {:induction false} SomeItem(items: seq<Json>, first: nat, i: nat, limit: int, path: string)
    requires i < |items| && FirstStringLongerThan(items[i], limit, ItemPath(path, first + i)).Some?
    ensures FirstInItems(items, first, limit, path).Some?
  {
    hide MemberPath, ItemPath, ByteLength;
    if i > 0 { SomeItem(items[1..], first + 1, i - 1, limit, path); }
  }

  // The check reports a hit exactly when some text exceeds the limit, and what
  // it reports is the path and length of such a text.
  lemma LongestStringCheck(j: Json, limit: int)
    ensures FirstStringLongerThan(j, limit, "").Some? <==> SomeTooLong(j, limit)
    ensures FirstStringLongerThan(j, limit, "").Some? ==>
      exists at :: LeadsTo(j, "", FirstStringLongerThan(j, limit, "").value, limit, at)
  {
    if FirstStringLongerThan(j, limit, "").Some? {
      var at := ReportedIsThere(j, limit, "");
    }
    if SomeTooLong(j, limit) {
      var at :| TooLongAt(j, at, limit);
      LongTextIsReported(j, limit, "", at);
    }
  }

  // ---------- enforcePayloadLimits ----------

  datatype Limits = Limits(maxAttrCount: int, maxAttrDepth: int, maxStringLength: int)

  datatype Verdict = WithinLimits | AttrCountExceeded(count: nat) | AttrDepthExceeded(depth: nat) | StringTooLong(found: LongString)

  function EnforcePayloadLimits(lim: Limits, j: Json): Verdict {
    if 0 < lim.maxAttrCount < CountFields(j) then AttrCountExceeded(CountFields(j))
    else if 0 < lim.maxAttrDepth < MaxDepth(j) then AttrDepthExceeded(MaxDepth(j))
    else if lim.maxStringLength > 0 then
      match FirstStringLongerThan(j, lim.maxStringLength, "")
      case Some(found) => StringTooLong(found)
      case None => WithinLimits
    else WithinLimits
  }

  // The checks in terms of the tree: members are counted first, then depth,
  // then texts; a limit that is not positive is off.
  lemma VerdictIff(lim: Limits, j: Json)
    ensures var v := EnforcePayloadLimits(lim, j);
      var tooMany := 0 < lim.maxAttrCount < CountFields(j);
      var tooDeep := 0 < lim.maxAttrDepth && exists at :: Lookup(j, at).Some? && |at| >= lim.maxAttrDepth;
      && (v.AttrCountExceeded? <==> tooMany)
      && (v.AttrDepthExceeded? <==> !tooMany && tooDeep)
      && (v.StringTooLong? <==> !tooMany && !tooDeep && 0 < lim.maxStringLength && SomeTooLong(j, lim.maxStringLength))
      && (v.AttrCountExceeded? ==> v.count == CountFields(j))
      && (v.AttrDepthExceeded? ==> exists at :: Lookup(j, at).Some? && |at| + 1 == v.depth)
      && (v.StringTooLong? ==> exists at :: LeadsTo(j, "", v.found, lim.maxStringLength, at))
  {
    hide CountFields, MaxDepth, SomeTooLong, LeadsTo, FirstStringLongerThan;
    var deepest := DeepestPlace(j);
    forall at | Lookup(j, at).Some? ensures |at| < MaxDepth(j) { DepthBoundsPlaces(j, at); }
    LongestStringCheck(j, lim.maxStringLength);
  }

  // A place of the redacted tree holds the replacement text or what was there.
  lemma TextAfterRedaction(p: Policy, j: Json, at: Place, limit: int)
    requires TooLongAt(Redact(p, j), at, limit)
    ensures TooLongAt(j, at, limit) || (Lookup(Redact(p, j), at) == Some(Text(REDACTED)) && Shielded(p, j, at))
  {
    hide ByteLength;
    if Shielded(p, j, at) {
      ShieldedIsReplaced(p, j, at);
      assert at[..|at|] == at;
    } else {
      UnshieldedUnchanged(p, j, at);
    }
  }

  // A reported change left the replacement text somewhere.
  lemma {:induction false} ChangeIsVisible(p: Policy, j: Json) returns (at: Place)
    requires Modifies(p, j)
    ensures Lookup(Redact(p, j), at) == Some(Text(REDACTED))
  {
    hide NormalizeSensitiveKey;
    match j
    case Object(ms) =>
      var i: nat :| i < |ms| && (Hit(p, ms[i]) || Modifies(p, ms[i].value));
      MemberAt(p, ms, i);
      if Hit(p, ms[i]) {
        at := [i];
      } else {
        var below := ChangeIsVisible(p, ms[i].value);
        at := [i] + below;
        assert at[1..] == below;
      }
    case Array(items) =>
      var i: nat :| i < |items| && Modifies(p, items[i]);
      ItemAt(p, items, i);
      var below := ChangeIsVisible(p, items[i]);
      at := [i] + below;
      assert at[1..] == below;
    case _ =>
  }

  lemma ReplacementIsTen()
    ensures ByteLength(REDACTED) == 10
  {
    assert forall c :: c in REDACTED ==> Octets(c) == 1;
    AsciiLength(REDACTED);
  }

  lemma {:induction false} AsciiLength(s: string)
    requires forall c :: c in s ==> Octets(c) == 1
    ensures ByteLength(s) == |s|
  {
    if s != "" {
      assert s[0] in s;
      AsciiLength(s[1..]);
    }
  }

  // An event that passed the limits still passes after redaction unless
  // something was replaced and the string limit is below the ten octets of the replacement text.
  lemma RedactionKeepsLimits(lim: Limits, p: Policy, j: Json)
    requires EnforcePayloadLimits(lim, j) == WithinLimits
    ensures EnforcePayloadLimits(lim, Redact(p, j)) == WithinLimits
       <==> !(0 < lim.maxStringLength < 10 && Modifies(p, j))
  {
    ReplacementIsTen();
    hide ByteLength;
    RedactionShrinks(p, j);
    var limit := lim.maxStringLength;
    if limit > 0 {
      LongestStringCheck(j, limit);
      LongestStringCheck(Redact(p, j), limit);
      if Modifies(p, j) && limit < 10 {
        var at := ChangeIsVisible(p, j);
        assert TooLongAt(Redact(p, j), at, limit);
      } else if SomeTooLong(Redact(p, j), limit) {
        var at :| TooLongAt(Redact(p, j), at, limit);
        TextAfterRedaction(p, j, at, limit);
        ShieldedIsModified(p, j, at);
      }
    }
  }

  lemma {:induction false} ShieldedIsModified(p: Policy, j: Json, at: Place)
    ensures Shielded(p, j, at) ==> Modifies(p, j)
    decreases at
  {
    if Shielded(p, j, at) {
      match j
      case Object(ms) => ShieldedIsModified(p, ms[at[0]].value, at[1..]);
      case Array(items) => ShieldedIsModified(p, items[at[0]], at[1..]);
      case _ =>
    }
  }
}
