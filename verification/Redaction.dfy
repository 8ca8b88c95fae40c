// Collector redaction (event_governance.go) and the auditor that looks for what
// redaction should have removed (schema_audit_handlers.go).
module Redaction {
  import opened ByteStrings
  import opened JsonTree
  import Strings

  const REDACTED := "[REDACTED]"

  // secret stands for the pattern of bearer tokens, API keys and private keys.
  datatype Policy = Policy(blocked: set<string>, scanSecrets: bool, secret: string -> bool)
  {
    // The replacement text is not itself taken for a secret.
    predicate Sound() {
      !secret(REDACTED)
    }
  }

  // ---------- keys ----------

  function NormalizeChar(c: char): char {
    if 'A' <= c <= 'Z' then c - 'A' + 'a' else if c == '-' || c == '.' then '_' else c
  }

  function NormalizeSensitiveKey(key: string): string {
    var t := Strings.Trim(key);
    seq(|t|, i requires 0 <= i < |t| => NormalizeChar(t[i]))
  }

  // Normal forms are their own normal forms, so a blocklist may hold either.
  lemma NormalizeIdempotent(key: string)
    ensures NormalizeSensitiveKey(NormalizeSensitiveKey(key)) == NormalizeSensitiveKey(key)
  {
    var n := NormalizeSensitiveKey(key);
    if n != [] {
      assert !Strings.IsSpace(Strings.Trim(key)[0]) && !Strings.IsSpace(Strings.Trim(key)[|n| - 1]);
      assert Strings.Trim(n) == n;
    }
  }

  // Two spellings of a character that normalisation does not tell apart.
  predicate SameLetter(c: char, d: char) {
    || c == d
    || ('A' <= c <= 'Z' && d == c - 'A' + 'a') || ('A' <= d <= 'Z' && c == d - 'A' + 'a')
    || (c in {'-', '.', '_'} && d in {'-', '.', '_'})
  }

  // Two keys are blocked alike exactly if, outer white space aside, they
  // differ only in the case of letters and in their separators.
  lemma NormalizedAlikeIff(a: string, b: string)
    ensures NormalizeSensitiveKey(a) == NormalizeSensitiveKey(b)
       <==> (&& |Strings.Trim(a)| == |Strings.Trim(b)|
             && forall i :: 0 <= i < |Strings.Trim(a)| ==> SameLetter(Strings.Trim(a)[i], Strings.Trim(b)[i]))
  {
    var s, t := Strings.Trim(a), Strings.Trim(b);
    var m, n := NormalizeSensitiveKey(a), NormalizeSensitiveKey(b);
    hide Strings.Trim;
    if |s| == |t| {
      forall i | 0 <= i < |s| ensures m[i] == n[i] <==> SameLetter(s[i], t[i]) { SameLetterIff(s[i], t[i]); }
    } else {
      assert |m| == |s| && |n| == |t|;
    }
    assert m == n <==> |m| == |n| && forall i :: 0 <= i < |m| ==> m[i] == n[i];
  }

  lemma SameLetterIff(c: char, d: char)
    ensures NormalizeChar(c) == NormalizeChar(d) <==> SameLetter(c, d)
  {
  }

  // Keys in lower case with underscores are matched as they are written.
  lemma NormalizedIff(key: string)
    ensures NormalizeSensitiveKey(key) == key
       <==> (Strings.Trim(key) == key && forall i :: 0 <= i < |key| ==> key[i] != '-' && key[i] != '.' && !('A' <= key[i] <= 'Z'))
  {
    var n, t := NormalizeSensitiveKey(key), Strings.Trim(key);
    Strings.TrimShortens(key);
    assert |n| == |t| && forall i :: 0 <= i < |t| ==> n[i] == NormalizeChar(t[i]);
    hide Strings.Trim, NormalizeSensitiveKey;
    if t == key && forall i :: 0 <= i < |key| ==> key[i] != '-' && key[i] != '.' && !('A' <= key[i] <= 'Z') {
      assert forall i :: 0 <= i < |key| ==> n[i] == key[i];
      assert n == key;
    }
  }

  // ---------- redactObject ----------

  predicate SecretText(p: Policy, v: Json) {
    v.Text? && p.secret(v.s)
  }

  // The member's value is replaced as a whole.
  predicate Hit(p: Policy, m: Member) {
    NormalizeSensitiveKey(m.key) in p.blocked || (p.scanSecrets && SecretText(p, m.value))
  }

  function Redact(p: Policy, j: Json): Json {
    match j
    case Object(ms) => Object(RedactMembers(p, ms))
    case Array(items) => Array(RedactItems(p, items))
    case _ => j
  }

  function RedactMember(p: Policy, m: Member): Member {
    if Hit(p, m) then Member(m.key, Text(REDACTED)) else Member(m.key, Redact(p, m.value))
  }

  function RedactMembers(p: Policy, ms: seq<Member>): (r: seq<Member>)
    ensures |r| == |ms|
  {
    if ms == [] then [] else [RedactMember(p, ms[0])] + RedactMembers(p, ms[1..])
  }

  function RedactItems(p: Policy, items: seq<Json>): (r: seq<Json>)
    ensures |r| == |items|
  {
    if items == [] then [] else [Redact(p, items[0])] + RedactItems(p, items[1..])
  }

  predicate Modifies(p: Policy, j: Json) {
    match j
    case Object(ms) => exists i :: 0 <= i < |ms| && (Hit(p, ms[i]) || Modifies(p, ms[i].value))
    case Array(items) => exists i :: 0 <= i < |items| && Modifies(p, items[i])
    case _ => false
  }

  lemma {:induction false} MemberAt(p: Policy, ms: seq<Member>, i: nat)
    requires i < |ms|
    ensures RedactMembers(p, ms)[i] == RedactMember(p, ms[i])
  {
    if i > 0 { MemberAt(p, ms[1..], i - 1); }
  }

  lemma {:induction false} ItemAt(p: Policy, items: seq<Json>, i: nat)
    requires i < |items|
    ensures RedactItems(p, items)[i] == Redact(p, items[i])
  {
    if i > 0 { ItemAt(p, items[1..], i - 1); }
  }

  // ---------- the auditor ----------

  datatype Classification = Restricted | Confidential

  datatype Finding = Finding(path: string, classification: Classification)

  function MemberFindings(p: Policy, m: Member, path: string): seq<Finding> {
    (if NormalizeSensitiveKey(m.key) in p.blocked then [Finding(path, Restricted)] else [])
      + (if SecretText(p, m.value) then [Finding(path, Confidential)] else [])
  }

  // What walkPII records, in traversal order.
  function Findings(p: Policy, j: Json, path: string): seq<Finding> {
    match j
    case Object(ms) => MembersFindings(p, ms, path)
    case Array(items) => ItemsFindings(p, items, 0, path)
    case _ => []
  }

  function MembersFindings(p: Policy, ms: seq<Member>, path: string): seq<Finding> {
    if ms == [] then []
    else
      var here := MemberPath(path, ms[0].key);
      MemberFindings(p, ms[0], here) + Findings(p, ms[0].value, here) + MembersFindings(p, ms[1..], path)
  }

  function ItemsFindings(p: Policy, items: seq<Json>, first: nat, path: string): seq<Finding> {
    if items == [] then []
    else Findings(p, items[0], ItemPath(path, first)) + ItemsFindings(p, items[1..], first + 1, path)
  }

  // ---------- redaction and audit agree ----------

  // A finding that redaction acts on: with secret scanning off only blocked keys.
  ghost predicate SomeActedOn(p: Policy, fs: seq<Finding>) {
    exists f :: f in fs && (p.scanSecrets || f.classification == Restricted)
  }

  lemma SomeActedOnConcat(p: Policy, a: seq<Finding>, b: seq<Finding>)
    ensures SomeActedOn(p, a + b) <==> SomeActedOn(p, a) || SomeActedOn(p, b)
  {
    if SomeActedOn(p, a + b) {
      var f :| f in a + b && (p.scanSecrets || f.classification == Restricted);
      assert f in a || f in b;
    }
    if f :| f in a && (p.scanSecrets || f.classification == Restricted) { assert f in a + b; }
    if f :| f in b && (p.scanSecrets || f.classification == Restricted) { assert f in a + b; }
  }

  // Redaction reports a change exactly when the auditor finds something: with
  // secret scanning on anything, with it off a blocked key.
  lemma RedactionAgreesWithAudit(p: Policy, j: Json, path: string)
    ensures p.scanSecrets ==> (Modifies(p, j) <==> Findings(p, j, path) != [])
    ensures !p.scanSecrets ==> (Modifies(p, j) <==> exists f :: f in Findings(p, j, path) && f.classification == Restricted)
  {
    ModifiesIff(p, j, path);
    var fs := Findings(p, j, path);
    hide Modifies, Findings;
    if fs != [] { assert fs[0] in fs; }
  }

  lemma {:induction false} ModifiesIff(p: Policy, j: Json, path: string)
    ensures Modifies(p, j) <==> SomeActedOn(p, Findings(p, j, path))
  {
    match j
    case Object(ms) => MembersAgree(p, ms, path);
    case Array(items) => ItemsAgree(p, items, 0, path);
    case _ =>
  }

  ghost predicate SomeHit(p: Policy, ms: seq<Member>) {
    exists i :: 0 <= i < |ms| && (Hit(p, ms[i]) || Modifies(p, ms[i].value))
  }

  lemma SomeHitCons(p: Policy, ms: seq<Member>)
    requires ms != []
    ensures SomeHit(p, ms) <==> Hit(p, ms[0]) || Modifies(p, ms[0].value) || SomeHit(p, ms[1..])
  {
    hide Hit, Modifies;
    if i :| 0 < i < |ms| && (Hit(p, ms[i]) || Modifies(p, ms[i].value)) { assert ms[1..][i - 1] == ms[i]; }
    if i :| 0 <= i < |ms[1..]| && (Hit(p, ms[1..][i]) || Modifies(p, ms[1..][i].value)) { assert ms[1..][i] == ms[i + 1]; }
  }

  lemma {:induction false} MembersAgree(p: Policy, ms: seq<Member>, path: string)
    ensures SomeHit(p, ms) <==> SomeActedOn(p, MembersFindings(p, ms, path))
  {
    hide SomeHit, SomeActedOn, NormalizeSensitiveKey, Hit, Modifies, Findings, MemberFindings;
    if ms != [] {
      var here := MemberPath(path, ms[0].key);
      var own, below, rest := MemberFindings(p, ms[0], here), Findings(p, ms[0].value, here), MembersFindings(p, ms[1..], path);
      ModifiesIff(p, ms[0].value, here);
      MembersAgree(p, ms[1..], path);
      OwnFindings(p, ms[0], here);
      SomeHitCons(p, ms);
      assert MembersFindings(p, ms, path) == own + below + rest;
      hide MembersFindings;
      SomeActedOnConcat(p, own, below);
      SomeActedOnConcat(p, own + below, rest);
    } else {
      NoMembersAgree(p, path);
    }
  }

  lemma NoMembersAgree(p: Policy, path: string)
    ensures !SomeHit(p, []) && !SomeActedOn(p, MembersFindings(p, [], path))
  {
  }

  lemma OwnFindings(p: Policy, m: Member, here: string)
    ensures Hit(p, m) <==> SomeActedOn(p, MemberFindings(p, m, here))
  {
    hide NormalizeSensitiveKey;
    var fs := MemberFindings(p, m, here);
    if NormalizeSensitiveKey(m.key) in p.blocked { assert fs[0] == Finding(here, Restricted); }
    else if SecretText(p, m.value) { assert fs == [Finding(here, Confidential)]; }
  }

  lemma {:induction false} ItemsAgree(p: Policy, items: seq<Json>, first: nat, path: string)
    ensures (exists i :: 0 <= i < |items| && Modifies(p, items[i])) <==> SomeActedOn(p, ItemsFindings(p, items, first, path))
  {
    if items != [] {
      ModifiesIff(p, items[0], ItemPath(path, first));
      ItemsAgree(p, items[1..], first + 1, path);
      SomeActedOnConcat(p, Findings(p, items[0], ItemPath(path, first)), ItemsFindings(p, items[1..], first + 1, path));
      hide SomeActedOn, Modifies, Findings;
      assert forall i :: 0 < i < |items| ==> items[i] == items[1..][i - 1];
      assert (exists i :: 0 <= i < |items| && Modifies(p, items[i]))
        <==> (Modifies(p, items[0]) || exists i :: 0 <= i < |items[1..]| && Modifies(p, items[1..][i]));
    }
  }

  // ---------- what the auditor finds, by place ----------

  // The place leads to a member: its last step enters an object.
  predicate MemberThere(j: Json, at: Place) {
    at != [] && match Lookup(j, at[..|at| - 1]) case Some(Object(ms)) => at[|at| - 1] < |ms| case _ => false
  }

  function MemberOf(j: Json, at: Place): Member
    requires MemberThere(j, at)
  {
    Lookup(j, at[..|at| - 1]).value.members[at[|at| - 1]]
  }

  // What the member at this place should be reported as.
  predicate Reported(p: Policy, j: Json, path: string, at: Place, f: Finding) {
    && MemberThere(j, at) && f.path == PathOf(j, at, path)
    && match f.classification
       case Restricted => NormalizeSensitiveKey(MemberOf(j, at).key) in p.blocked
       case Confidential => MemberOf(j, at).value.Text? && p.secret(MemberOf(j, at).value.s)
  }

  // The first step of a place, and the rest.
  lemma StepInto(j: Json, at: Place)
    requires |at| > 1
    ensures j.Object? && at[0] < |j.members| ==>
      && MemberThere(j, at) == MemberThere(j.members[at[0]].value, at[1..])
      && (MemberThere(j, at) ==> MemberOf(j, at) == MemberOf(j.members[at[0]].value, at[1..]))
    ensures j.Array? && at[0] < |j.items| ==>
      && MemberThere(j, at) == MemberThere(j.items[at[0]], at[1..])
      && (MemberThere(j, at) ==> MemberOf(j, at) == MemberOf(j.items[at[0]], at[1..]))
    ensures MemberThere(j, at) ==> (j.Object? && at[0] < |j.members|) || (j.Array? && at[0] < |j.items|)
  {
    var up := at[..|at| - 1];
    assert up[0] == at[0] && up[1..] == at[1..][..|at[1..]| - 1];
  }

  // The auditor reports f exactly if some member of the tree calls for it.
  lemma {:induction false} FindingsIff(p: Policy, j: Json, path: string, f: Finding)
    ensures f in Findings(p, j, path) <==> exists at :: Reported(p, j, path, at, f)
  {
    if f in Findings(p, j, path) {
      var at := FindingPlace(p, j, path, f);
    }
    if at :| Reported(p, j, path, at, f) {
      PlaceIsFound(p, j, path, at, f);
    }
  }

  lemma OwnFindingIff(p: Policy, m: Member, here: string, f: Finding)
    ensures f in MemberFindings(p, m, here) <==>
      && f.path == here
      && match f.classification
         case Restricted => NormalizeSensitiveKey(m.key) in p.blocked
         case Confidential => m.value.Text? && p.secret(m.value.s)
  {
    hide NormalizeSensitiveKey;
    var a := if NormalizeSensitiveKey(m.key) in p.blocked then [Finding(here, Restricted)] else [];
    var b := if SecretText(p, m.value) then [Finding(here, Confidential)] else [];
    assert MemberFindings(p, m, here) == a + b;
    assert f in a + b <==> f in a || f in b;
  }

  lemma OwnPlace(j: Json, i: nat, path: string)
    requires j.Object? && i < |j.members|
    ensures MemberThere(j, [i]) && MemberOf(j, [i]) == j.members[i] && PathOf(j, [i], path) == MemberPath(path, j.members[i].key)
  {
    assert [i][..0] == [] && [i][1..] == [];
  }

  lemma {:induction false} FindingPlace(p: Policy, j: Json, path: string, f: Finding) returns (at: Place)
    requires f in Findings(p, j, path)
    ensures Reported(p, j, path, at, f)
  {
    hide NormalizeSensitiveKey, MemberPath, ItemPath;
    match j
    case Object(ms) =>
      var i := MemberWith(p, ms, path, f);
      var here := MemberPath(path, ms[i].key);
      if f in MemberFindings(p, ms[i], here) {
        at := [i];
        OwnFindingIff(p, ms[i], here, f);
        OwnPlace(j, i, path);
      } else {
        var below := FindingPlace(p, ms[i].value, here, f);
        at := [i] + below;
        assert at[1..] == below;
        StepInto(j, at);
      }
    case Array(items) =>
      var i := ItemWith(p, items, 0, path, f);
      var below := FindingPlace(p, items[i], ItemPath(path, i), f);
      at := [i] + below;
      assert at[1..] == below;
      StepInto(j, at);
    case _ =>
  }

  lemma {:induction false} MemberWith(p: Policy, ms: seq<Member>, path: string, f: Finding) returns (i: nat)
    requires f in MembersFindings(p, ms, path)
    ensures i < |ms|
    ensures var here := MemberPath(path, ms[i].key); f in MemberFindings(p, ms[i], here) || f in Findings(p, ms[i].value, here)
  {
    hide NormalizeSensitiveKey, MemberPath, MemberFindings, Findings;
    i := 0;
    var here := MemberPath(path, ms[0].key);
    if f !in MemberFindings(p, ms[0], here) && f !in Findings(p, ms[0].value, here) {
      i := MemberWith(p, ms[1..], path, f);
      i := i + 1;
    }
  }

  lemma {:induction false} ItemWith(p: Policy, items: seq<Json>, first: nat, path: string, f: Finding) returns (i: nat)
    requires f in ItemsFindings(p, items, first, path)
    ensures i < |items| && f in Findings(p, items[i], ItemPath(path, first + i))
  {
    hide ItemPath, Findings;
    i := 0;
    if f !in Findings(p, items[0], ItemPath(path, first)) {
      i := ItemWith(p, items[1..], first + 1, path, f);
      i := i + 1;
    } else {
      assert first + 0 == first;
    }
  }

  lemma {:induction false} PlaceIsFound(p: Policy, j: Json, path: string, at: Place, f: Finding)
    requires Reported(p, j, path, at, f)
    ensures f in Findings(p, j, path)
    decreases at
  {
    hide NormalizeSensitiveKey, MemberPath, ItemPath;
    if |at| == 1 {
      assert at[..0] == [] && at == [at[0]];
      var m := j.members[at[0]];
      OwnPlace(j, at[0], path);
      OwnFindingIff(p, m, MemberPath(path, m.key), f);
      MemberFound(p, j.members, at[0], path, f);
    } else {
      StepInto(j, at);
      match j
      case Object(ms) =>
        PlaceIsFound(p, ms[at[0]].value, MemberPath(path, ms[at[0]].key), at[1..], f);
        MemberFound(p, ms, at[0], path, f);
      case Array(items) =>
        PlaceIsFound(p, items[at[0]], ItemPath(path, at[0]), at[1..], f);
        ItemFound(p, items, 0, at[0], path, f);
      case _ =>
    }
  }

  lemma {:induction false} MemberFound(p: Policy, ms: seq<Member>, i: nat, path: string, f: Finding)
    requires i < |ms|
    requires var here := MemberPath(path, ms[i].key); f in MemberFindings(p, ms[i], here) || f in Findings(p, ms[i].value, here)
    ensures f in MembersFindings(p, ms, path)
  {
    hide NormalizeSensitiveKey, MemberPath, MemberFindings, Findings;
    if i > 0 { MemberFound(p, ms[1..], i - 1, path, f); }
  }

  lemma {:induction false} ItemFound(p: Policy, items: seq<Json>, first: nat, i: nat, path: string, f: Finding)
    requires i < |items| && f in Findings(p, items[i], ItemPath(path, first + i))
    ensures f in ItemsFindings(p, items, first, path)
  {
    hide ItemPath, Findings;
    if i > 0 { ItemFound(p, items[1..], first + 1, i - 1, path, f); }
  }

  // After redaction the auditor finds no secret text.
  lemma {:induction false} NothingConfidentialLeft(p: Policy, j: Json, path: string)
    requires p.scanSecrets && p.Sound()
    ensures forall f :: f in Findings(p, Redact(p, j), path) ==> f.classification == Restricted
  {
    match j
    case Object(ms) => NoSecretMembers(p, ms, path);
    case Array(items) => NoSecretItems(p, items, 0, path);
    case _ =>
  }

  lemma {:induction false} NoSecretMembers(p: Policy, ms: seq<Member>, path: string)
    requires p.scanSecrets && p.Sound()
    ensures forall f :: f in MembersFindings(p, RedactMembers(p, ms), path) ==> f.classification == Restricted
  {
    hide NormalizeSensitiveKey;
    if ms != [] {
      var r := RedactMembers(p, ms);
      assert r[0] == RedactMember(p, ms[0]) && r[1..] == RedactMembers(p, ms[1..]);
      NothingConfidentialLeft(p, ms[0].value, MemberPath(path, ms[0].key));
      NoSecretMembers(p, ms[1..], path);
    }
  }

  lemma {:induction false} NoSecretItems(p: Policy, items: seq<Json>, first: nat, path: string)
    requires p.scanSecrets && p.Sound()
    ensures forall f :: f in ItemsFindings(p, RedactItems(p, items), first, path) ==> f.classification == Restricted
  {
    if items != [] {
      assert RedactItems(p, items)[1..] == RedactItems(p, items[1..]);
      NothingConfidentialLeft(p, items[0], ItemPath(path, first));
      NoSecretItems(p, items[1..], first + 1, path);
    }
  }

  lemma {:induction false} RedactIdempotent(p: Policy, j: Json)
    requires p.Sound()
    ensures Redact(p, Redact(p, j)) == Redact(p, j)
  {
    match j
    case Object(ms) => RedactMembersIdempotent(p, ms);
    case Array(items) => RedactItemsIdempotent(p, items);
    case _ =>
  }

  lemma {:induction false} RedactMembersIdempotent(p: Policy, ms: seq<Member>)
    requires p.Sound()
    ensures RedactMembers(p, RedactMembers(p, ms)) == RedactMembers(p, ms)
  {
    if ms != [] {
      RedactIdempotent(p, ms[0].value);
      RedactMembersIdempotent(p, ms[1..]);
      var r := RedactMembers(p, ms);
      assert r[0] == RedactMember(p, ms[0]) && r[1..] == RedactMembers(p, ms[1..]);
      assert RedactMember(p, r[0]) == r[0];
    }
  }

  lemma {:induction false} RedactItemsIdempotent(p: Policy, items: seq<Json>)
    requires p.Sound()
    ensures RedactItems(p, RedactItems(p, items)) == RedactItems(p, items)
  {
    if items != [] {
      RedactIdempotent(p, items[0]);
      RedactItemsIdempotent(p, items[1..]);
      assert RedactItems(p, items)[1..] == RedactItems(p, items[1..]);
    }
  }

  // ---------- what redaction leaves alone ----------

  // On the way to this place some member is replaced.
  predicate Shielded(p: Policy, j: Json, at: Place)
    decreases at
  {
    at != [] &&
    match j
    case Object(ms) => at[0] < |ms| && (Hit(p, ms[at[0]]) || Shielded(p, ms[at[0]].value, at[1..]))
    case Array(items) => at[0] < |items| && Shielded(p, items[at[0]], at[1..])
    case _ => false
  }

  // A place outside every replaced member still holds what it held, redacted
  // below it: the same scalar, text, item count and keys.
  lemma {:induction false} UnshieldedUnchanged(p: Policy, j: Json, at: Place)
    requires !Shielded(p, j, at)
    ensures Lookup(Redact(p, j), at) == match Lookup(j, at) case Some(v) => Some(Redact(p, v)) case None => None
    decreases at
  {
    hide NormalizeSensitiveKey;
    if at != [] {
      match j
      case Object(ms) =>
        if at[0] < |ms| {
          MemberAt(p, ms, at[0]);
          UnshieldedUnchanged(p, ms[at[0]].value, at[1..]);
        }
      case Array(items) =>
        if at[0] < |items| {
          ItemAt(p, items, at[0]);
          UnshieldedUnchanged(p, items[at[0]], at[1..]);
        }
      case _ =>
    }
  }

  lemma NoObjectBelowHit(p: Policy, j: Json, at: Place)
    requires Shielded(p, j, at)
    ensures Lookup(Redact(p, j), at) in {None, Some(Text(REDACTED))}
  {
    ShieldedIsReplaced(p, j, at);
    assert at[..|at|] == at;
  }

  // Every object of the redacted tree, wherever it is: its members are those of
  // the object that stood there, in order, and each value is the replacement
  // text if the key is blocked, or if scanning is on and the text was secret,
  // and otherwise what stood there, redacted below.
  lemma RedactedObjectIs(p: Policy, j: Json, at: Place)
    requires Lookup(Redact(p, j), at).Some? && Lookup(Redact(p, j), at).value.Object?
    ensures Lookup(j, at).Some? && Lookup(j, at).value.Object?
    ensures var before, after := Lookup(j, at).value.members, Lookup(Redact(p, j), at).value.members;
      && |after| == |before|
      && forall i :: 0 <= i < |after| ==>
           && after[i].key == before[i].key
           && after[i].value ==
                if NormalizeSensitiveKey(before[i].key) in p.blocked
                   || (p.scanSecrets && before[i].value.Text? && p.secret(before[i].value.s))
                then Text(REDACTED) else Redact(p, before[i].value)
  {
    hide NormalizeSensitiveKey;
    if Shielded(p, j, at) {
      NoObjectBelowHit(p, j, at);
    } else {
      UnshieldedUnchanged(p, j, at);
      var before := Lookup(j, at).value.members;
      forall i | 0 <= i < |before| ensures RedactMembers(p, before)[i] == RedactMember(p, before[i]) { MemberAt(p, before, i); }
    }
  }

  // With or without secret scanning, no blocked key keeps its value.
  lemma BlockedIsRedacted(p: Policy, j: Json, at: Place)
    requires Lookup(Redact(p, j), at).Some? && Lookup(Redact(p, j), at).value.Object?
    ensures forall m :: m in Lookup(Redact(p, j), at).value.members && NormalizeSensitiveKey(m.key) in p.blocked ==>
      m.value == Text(REDACTED)
  {
    RedactedObjectIs(p, j, at);
    hide Redact, NormalizeSensitiveKey;
  }

  // A traversal that reports no change made none.
  lemma {:induction false} UnmodifiedIsUntouched(p: Policy, j: Json)
    requires !Modifies(p, j)
    ensures Redact(p, j) == j
  {
    match j
    case Object(ms) =>
      forall i | 0 <= i < |ms| ensures RedactMembers(p, ms)[i] == ms[i] {
        MemberAt(p, ms, i);
        UnmodifiedIsUntouched(p, ms[i].value);
      }
      assert RedactMembers(p, ms) == ms;
    case Array(items) =>
      forall i | 0 <= i < |items| ensures RedactItems(p, items)[i] == items[i] {
        ItemAt(p, items, i);
        UnmodifiedIsUntouched(p, items[i]);
      }
      assert RedactItems(p, items) == items;
    case _ =>
  }

  // How far down the first replaced member is.
  function HitDepth(p: Policy, j: Json, at: Place): (d: nat)
    requires Shielded(p, j, at)
    ensures 1 <= d <= |at|
    decreases at
  {
    match j
    case Object(ms) => if Hit(p, ms[at[0]]) then 1 else 1 + HitDepth(p, ms[at[0]].value, at[1..])
    case Array(items) => 1 + HitDepth(p, items[at[0]], at[1..])
  }

  // The first replaced member on the way holds the replacement text, and
  // nothing is left below it.
  lemma {:induction false} ShieldedIsReplaced(p: Policy, j: Json, at: Place)
    requires Shielded(p, j, at)
    ensures var d := HitDepth(p, j, at);
      && Lookup(Redact(p, j), at[..d]) == Some(Text(REDACTED))
      && (d < |at| ==> Lookup(Redact(p, j), at) == None)
    decreases at
  {
    hide NormalizeSensitiveKey;
    var d := HitDepth(p, j, at);
    assert at[..d][0] == at[0] && at[..d][1..] == at[1..][..d - 1];
    match j
    case Object(ms) =>
      MemberAt(p, ms, at[0]);
      if !Hit(p, ms[at[0]]) { ShieldedIsReplaced(p, ms[at[0]].value, at[1..]); }
    case Array(items) =>
      ItemAt(p, items, at[0]);
      ShieldedIsReplaced(p, items[at[0]], at[1..]);
    case _ =>
  }

  lemma {:induction false} KeysUnchanged(p: Policy, ms: seq<Member>, i: nat)
    requires i < |ms|
    ensures RedactMembers(p, ms)[i].key == ms[i].key
  {
    MemberAt(p, ms, i);
  }

  // ---------- walkPII ----------

  function CountIn(agg: map<Finding, nat>, f: Finding): nat {
    if f in agg then agg[f] else 0
  }

  // The counters after these findings, one after another.
  function Counted(agg: map<Finding, nat>, fs: seq<Finding>): map<Finding, nat>
    decreases fs
  {
    if fs == [] then agg else Counted(agg[fs[0] := CountIn(agg, fs[0]) + 1], fs[1..])
  }

  lemma {:induction false} CountedConcat(agg: map<Finding, nat>, a: seq<Finding>, b: seq<Finding>)
    ensures Counted(agg, a + b) == Counted(Counted(agg, a), b)
    decreases a
  {
    if a == [] {
      assert a + b == b;
    } else {
      assert (a + b)[1..] == a[1..] + b;
      CountedConcat(agg[a[0] := CountIn(agg, a[0]) + 1], a[1..], b);
    }
  }

  // Each counter goes up by the number of times its finding occurs.
  lemma {:induction false} CountsOccurrences(agg: map<Finding, nat>, fs: seq<Finding>, f: Finding)
    ensures CountIn(Counted(agg, fs), f) == CountIn(agg, f) + multiset(fs)[f]
    ensures f in Counted(agg, fs) <==> f in agg || f in fs
    decreases fs
  {
    if fs != [] {
      assert fs == [fs[0]] + fs[1..];
      CountsOccurrences(agg[fs[0] := CountIn(agg, fs[0]) + 1], fs[1..], f);
    }
  }

  // The auditor's tally, one counter per path and classification.
  class Audit {
    var agg: map<Finding, nat>

    constructor ()
      ensures agg == map[]
    {
      agg := map[];
    }

    method Record(f: Finding)
      modifies this
      ensures agg == Counted(old(agg), [f])
    {
      agg := agg[f := CountIn(agg, f) + 1];
    }

    // Every finding of the tree is counted once, on top of what was there.
    method WalkPII(p: Policy, value: Json, path: string)
      modifies this
      ensures agg == Counted(old(agg), Findings(p, value, path))
      decreases value
    {
      hide Counted, NormalizeSensitiveKey, MemberPath, ItemPath;
      match value
      case Object(members) =>
        assert members[0..] == members;
        for i := 0 to |members|
          invariant Counted(agg, MembersFindings(p, members[i..], path)) == Counted(old(agg), Findings(p, value, path))
        {
          var Member(key, child) := members[i];
          var nextPath := MemberPath(path, key);
          assert members[i..][0] == members[i] && members[i..][1..] == members[i + 1..];
          MembersStep(p, members[i..], path, agg);
          hide MembersFindings;
          if NormalizeSensitiveKey(key) in p.blocked {
            Record(Finding(nextPath, Restricted));
          }
          if child.Text? && p.secret(child.s) {
            Record(Finding(nextPath, Confidential));
          }
          WalkPII(p, child, nextPath);
        }
        CountedNone(agg);
      case Array(items) =>
        assert items[0..] == items;
        for i := 0 to |items|
          invariant Counted(agg, ItemsFindings(p, items[i..], i, path)) == Counted(old(agg), Findings(p, value, path))
        {
          assert items[i..][0] == items[i] && items[i..][1..] == items[i + 1..];
          CountedConcat(agg, Findings(p, items[i], ItemPath(path, i)), ItemsFindings(p, items[i + 1..], i + 1, path));
          WalkPII(p, items[i], ItemPath(path, i));
        }
        CountedNone(agg);
      case _ => CountedNone(agg);
    }
  }

  lemma CountedNone(agg: map<Finding, nat>)
    ensures Counted(agg, []) == agg
  {
  }

  // The counters after one member's own findings and its child's.
  lemma MembersStep(p: Policy, ms: seq<Member>, path: string, agg: map<Finding, nat>)
    requires ms != []
    ensures var Member(key, child) := ms[0];
      var here := MemberPath(path, key);
      var a := if NormalizeSensitiveKey(key) in p.blocked then Counted(agg, [Finding(here, Restricted)]) else agg;
      var b := if child.Text? && p.secret(child.s) then Counted(a, [Finding(here, Confidential)]) else a;
      var c := Counted(b, Findings(p, child, here));
      Counted(agg, MembersFindings(p, ms, path)) == Counted(c, MembersFindings(p, ms[1..], path))
  {
    hide Counted, Findings, NormalizeSensitiveKey, MemberPath;
    var Member(key, child) := ms[0];
    var here := MemberPath(path, key);
    var own := MemberFindings(p, ms[0], here);
    var restricted := if NormalizeSensitiveKey(key) in p.blocked then [Finding(here, Restricted)] else [];
    var confidential := if SecretText(p, child) then [Finding(here, Confidential)] else [];
    assert own == restricted + confidential;
    CountedNone(agg);
    CountedNone(Counted(agg, restricted));
    CountedConcat(agg, restricted, confidential);
    CountedConcat(agg, own, Findings(p, child, here));
    CountedConcat(agg, own + Findings(p, child, here), MembersFindings(p, ms[1..], path));
  }
}
