// What an accepted configuration promises about the store built from it, entry
// by entry of the file: nothing here goes through the resolved entries.
module CredentialPromises {
  import opened ByteStrings
  import opened Strings
  import opened Credentials

  // ---------- what a stored record must say ----------

  // No grant without a collector; otherwise one, for that collector, with the
  // trimmed environments in order and exactly the trimmed permissions.
  ghost predicate GrantedAs(grants: seq<CollectorGrant>, collector: string, permissions: seq<string>, environments: seq<string>) {
    if collector == "" then grants == []
    else
      && |grants| == 1 && grants[0].collector == collector
      && TrimmedAs(grants[0].environments, environments)
      && forall p :: p in grants[0].permissions <==> exists i :: 0 <= i < |permissions| && Trim(permissions[i]) == p
  }

  predicate TrimmedAs(values: seq<string>, raw: seq<string>) {
    |values| == |raw| && forall i :: 0 <= i < |raw| ==> values[i] == Trim(raw[i])
  }

  predicate NamedAs(r: KeyRecord, name: string, id: string) {
    r.keyId == id && r.id == if Trim(name) == "" then id else Trim(name)
  }

  // The mode as given, or the one that suits the kind.
  predicate AccessedAs(access: Option<Access>, mode: string, roles: seq<string>, kind: Kind) {
    && access.Some?
    && (Lower(Trim(mode)) != "" ==> access.value.mode == Lower(Trim(mode)))
    && (Lower(Trim(mode)) == "" ==> access.value.mode == if kind == Public then "public" else "private")
    && TrimmedAs(access.value.roles, roles)
  }

  // Allow-lists as in the file for a key, without blanks and white space for
  // the others; environments as in the grant if there is one.
  predicate LimitedAs(l: Limits, raw: Limits, trimmed: bool, scoped: bool) {
    && (if scoped then TrimmedAs(l.environments, raw.environments) else l.environments == raw.environments)
    && (if trimmed
        then l.services == TrimStrings(raw.services) && l.origins == TrimStrings(raw.origins) && l.ips == TrimStrings(raw.ips)
        else l.services == raw.services && l.origins == raw.origins && l.ips == raw.ips)
    && l.maxPayloadBytes == raw.maxPayloadBytes
    && l.maxRequestsPerMinute == raw.maxRequestsPerMinute && l.maxEventsPerMinute == raw.maxEventsPerMinute
  }

  ghost predicate KeyStored(lib: Library, secret: string, k: FileKey, found: Option<KeyRecord>) {
    && found.Some?
    && var r := found.value;
    && NamedAs(r, k.name, Trim(k.keyId))
    && r.secretHash == lib.hash(Trim(lib.env(Trim(k.secretEnv))), secret)
    && (r.kind == Public <==> Lower(Trim(k.kind)) == "pub") && (r.kind == Secret <==> Lower(Trim(k.kind)) == "sec")
    && AccessedAs(r.access, k.mode, k.roles, r.kind)
    && GrantedAs(r.grants, Trim(k.collector), k.permissions, k.limits.environments)
    && LimitedAs(r.limits, k.limits, false, Trim(k.collector) != "")
  }

  ghost predicate TokenStored(lib: Library, secret: string, t: FileToken, found: Option<KeyRecord>) {
    && found.Some?
    && var r, token := found.value, Trim(lib.env(Trim(t.tokenEnv)));
    && NamedAs(r, t.name, "tok_" + lib.hash(token, secret))
    && r.secretHash == lib.hash(token, secret) && r.kind == Token
    && AccessedAs(r.access, t.mode, t.roles, Token)
    && GrantedAs(r.grants, Trim(t.collector), t.permissions, t.limits.environments)
    && LimitedAs(r.limits, t.limits, true, Trim(t.collector) != "")
  }

  // A grant is found under its public access id, or else under its user name.
  function GrantId(lib: Library, g: FileGrant): string {
    if Trim(g.publicIdEnv) != "" then Trim(lib.env(Trim(g.publicIdEnv))) else g.username
  }

  ghost predicate GrantStored(lib: Library, secret: string, g: FileGrant, found: Option<KeyRecord>) {
    && found.Some?
    && var r := found.value;
    && NamedAs(r, g.name, GrantId(lib, g))
    && (Trim(g.publicIdEnv) != "" ==> r.kind == Public && r.secretHash == lib.hash("", secret))
    && (Trim(g.publicIdEnv) == "" ==> r.kind == Secret && r.secretHash == lib.hash(Trim(lib.env(Trim(g.passwordEnv))), secret))
    && r.access == None
    && g.collector != "" && GrantedAs(r.grants, g.collector, g.permissions, g.limits.environments)
    && LimitedAs(r.limits, g.limits, true, true)
  }

  // ---------- entry by entry ----------

  lemma ScopeGranted(collector: string, permissions: seq<string>, environments: seq<string>)
    requires collector != "" && ResolveScope(permissions, environments).Some?
    ensures var s := ResolveScope(permissions, environments).value;
      GrantedAs([CollectorGrant(collector, s.environments, s.permissions)], collector, permissions, environments)
      && TrimmedAs(s.environments, environments)
  {
    hide Trim, ListOk;
    var all := AllTrimmed(permissions);
    forall p ensures p in SetOf(all) <==> exists i :: 0 <= i < |permissions| && Trim(permissions[i]) == p {
      if p in SetOf(all) {
        var i :| 0 <= i < |all| && all[i] == p;
        assert Trim(permissions[i]) == p;
      }
      if i :| 0 <= i < |permissions| && Trim(permissions[i]) == p { assert all[i] == p; }
    }
  }

  lemma KeyGranted(k: FileKey)
    requires ScopeOk(k.collector, k.permissions, k.limits.environments)
    ensures var scope := ScopeFor(k.collector, k.permissions, k.limits.environments);
      && GrantedAs(GrantsFor(Trim(k.collector), scope), Trim(k.collector), k.permissions, k.limits.environments)
      && LimitedAs(InScope(k.limits, scope), k.limits, false, Trim(k.collector) != "")
  {
    hide Trim, ListOk, GrantedAs, CollectorSlug, ResolveScope;
    if Trim(k.collector) != "" { ScopeGranted(Trim(k.collector), k.permissions, k.limits.environments); }
    else { NotGranted(k.permissions, k.limits.environments); }
  }

  lemma TokenGranted(t: FileToken)
    requires ScopeOk(t.collector, t.permissions, t.limits.environments)
    ensures var scope := ScopeFor(t.collector, t.permissions, t.limits.environments);
      && GrantedAs(GrantsFor(Trim(t.collector), scope), Trim(t.collector), t.permissions, t.limits.environments)
      && LimitedAs(InScope(Trimmed(t.limits), scope), t.limits, true, Trim(t.collector) != "")
  {
    hide Trim, ListOk, GrantedAs, CollectorSlug, ResolveScope, TrimStrings;
    if Trim(t.collector) != "" { ScopeGranted(Trim(t.collector), t.permissions, t.limits.environments); }
    else { NotGranted(t.permissions, t.limits.environments); }
  }

  lemma NotGranted(permissions: seq<string>, environments: seq<string>)
    ensures GrantedAs([], "", permissions, environments)
  {
  }

  lemma KeyAccessIs(k: FileKey)
    requires KeyAccess(k, KeyKind(k)).Some?
    ensures AccessedAs(KeyAccess(k, KeyKind(k)), k.mode, k.roles, KeyKind(k))
  {
    hide Trim, Lower, ListOk;
  }

  lemma TokenAccessIs(t: FileToken)
    requires TokenAccess(t).Some?
    ensures AccessedAs(TokenAccess(t), t.mode, t.roles, Token)
  {
    hide Trim, Lower, ListOk;
  }

  lemma KeyFields(lib: Library, k: FileKey)
    requires KeyOk(lib, k)
    ensures var a, scope := ResolvedKey(lib, k), ScopeFor(k.collector, k.permissions, k.limits.environments);
      && KeyAccess(k, a.kind).Some? && ScopeOk(k.collector, k.permissions, k.limits.environments)
      && a == AuthKey(Trim(k.name), Trim(k.keyId), Trim(lib.env(Trim(k.secretEnv))), a.kind, KeyAccess(k, a.kind).value,
                      Trim(k.collector), scope, InScope(k.limits, scope))
      && a.kind == KeyKind(k)
      && (a.kind == Public <==> Lower(Trim(k.kind)) == "pub") && (a.kind == Secret <==> Lower(Trim(k.kind)) == "sec")
  {
    hide Trim, Lower, InScope, ScopeFor, KeyAccess, ScopeOk, ConfigIdent, AnyNonBlank;
  }

  lemma KeyRecordStored(lib: Library, secret: string, k: FileKey)
    requires KeyOk(lib, k)
    ensures KeyStored(lib, secret, k, Some(KeyRecordOf(lib, secret, ResolvedKey(lib, k))))
    ensures ResolvedKey(lib, k).keyId == Trim(k.keyId) && ResolvedKey(lib, k).collector == Trim(k.collector)
  {
    KeyFields(lib, k);
    KeyGranted(k);
    KeyAccessIs(k);
    hide Trim, Lower, GrantedAs, LimitedAs, AccessedAs, GrantsFor, InScope, ScopeFor, KeyAccess, KeyKind, ScopeOk, KeyOk, ResolvedKey;
  }

  lemma TokenFields(lib: Library, t: FileToken)
    requires TokenOk(lib, t)
    ensures var a, scope := ResolvedToken(lib, t), ScopeFor(t.collector, t.permissions, t.limits.environments);
      && TokenAccess(t).Some? && ScopeOk(t.collector, t.permissions, t.limits.environments)
      && a == AuthToken(Trim(t.name), Trim(lib.env(Trim(t.tokenEnv))), TokenAccess(t).value,
                        Trim(t.collector), scope, InScope(Trimmed(t.limits), scope))
  {
    hide Trim, InScope, Trimmed, ScopeFor, TokenAccess, ScopeOk, ConfigIdent, AnyNonBlank;
  }

  lemma TokenRecordStored(lib: Library, secret: string, t: FileToken)
    requires TokenOk(lib, t)
    ensures TokenStored(lib, secret, t, Some(TokenRecordOf(lib, secret, ResolvedToken(lib, t))))
    ensures ResolvedToken(lib, t).token == Trim(lib.env(Trim(t.tokenEnv))) && ResolvedToken(lib, t).collector == Trim(t.collector)
  {
    TokenFields(lib, t);
    TokenGranted(t);
    TokenAccessIs(t);
    hide Trim, GrantedAs, LimitedAs, AccessedAs, GrantsFor, InScope, Trimmed, ScopeFor, TokenAccess, ScopeOk, TokenOk, ResolvedToken;
  }

  lemma GrantRecordStored(lib: Library, secret: string, collectors: set<string>, g: FileGrant)
    requires GrantOk(lib, collectors, g) && "" !in collectors
    ensures GrantStored(lib, secret, g, Some(GrantRecordOf(lib, secret, ResolvedGrant(lib, collectors, g))))
    ensures ResolvedGrant(lib, collectors, g).keyId == GrantId(lib, g)
  {
    ScopeGranted(g.collector, g.permissions, g.limits.environments);
    hide Trim, GrantedAs, TrimStrings, ResolveScope, ConfigIdent, PublicAccessId, BasicUsername, AnyNonBlank;
  }

  // ---------- the promise ----------

  ghost function Store(lib: Library, file: AuthFile, apiKey: string, limits: Limits): map<string, KeyRecord>
    requires Acceptable(lib, file)
  {
    var r := ResolvedFile(lib, file);
    WithLegacy(lib, file.serverSecret, apiKey, limits, StoredAs(AllRecords(lib, file.serverSecret, r.keys, r.grants, r.tokens)))
  }

  // The promise of validation: looking up the id of any entry of an accepted
  // file finds that entry's own record, with its own secret, kind, access,
  // limits and grants, and the store holds one record per entry and at most
  // the legacy key besides.
  lemma AcceptedIsLossless(lib: Library, file: AuthFile, apiKey: string, limits: Limits)
    requires Acceptable(lib, file)
    ensures var store, secret := Store(lib, file, apiKey, limits), file.serverSecret;
      && (forall i :: 0 <= i < |file.keys| ==> KeyStored(lib, secret, file.keys[i], Found(store, Trim(file.keys[i].keyId))))
      && (forall i :: 0 <= i < |file.grants| ==> GrantStored(lib, secret, file.grants[i], Found(store, GrantId(lib, file.grants[i]))))
      && (forall i :: 0 <= i < |file.tokens| ==>
            TokenStored(lib, secret, file.tokens[i], Found(store, "tok_" + lib.hash(Trim(lib.env(Trim(file.tokens[i].tokenEnv))), secret))))
      && |file.keys| + |file.grants| + |file.tokens| <= |store| <= |file.keys| + |file.grants| + |file.tokens| + 1
  {
    var r, secret := ResolvedFile(lib, file), file.serverSecret;
    var store := Store(lib, file, apiKey, limits);
    StoreIsLossless(lib, secret, r.keys, r.grants, r.tokens, apiKey, limits);
    NoEmptySlug(file.collectors, file.defaultCollector);
    hide Distinct, AllIds, WithLegacy, StoredAs, AllRecords, KeyOk, TokenOk, GrantOk, KeyRecordOf, GrantRecordOf, TokenRecordOf;
    hide KeyStored, TokenStored, GrantStored, Trim, CollectorSlug, GrantId, ResolvedKey, ResolvedToken, ResolvedGrant;
    forall i | 0 <= i < |file.keys| ensures KeyStored(lib, secret, file.keys[i], Found(store, Trim(file.keys[i].keyId))) {
      KeyRecordStored(lib, secret, file.keys[i]);
      assert r.keys[i] == ResolvedKey(lib, file.keys[i]) && r.keys[i] in r.keys;
    }
    forall i | 0 <= i < |file.grants| ensures GrantStored(lib, secret, file.grants[i], Found(store, GrantId(lib, file.grants[i]))) {
      GrantRecordStored(lib, secret, SetOf(file.collectors), file.grants[i]);
      assert r.grants[i] == ResolvedGrant(lib, SetOf(file.collectors), file.grants[i]) && r.grants[i] in r.grants;
    }
    forall i | 0 <= i < |file.tokens|
      ensures TokenStored(lib, secret, file.tokens[i], Found(store, "tok_" + lib.hash(Trim(lib.env(Trim(file.tokens[i].tokenEnv))), secret)))
    {
      TokenRecordStored(lib, secret, file.tokens[i]);
      assert r.tokens[i] == ResolvedToken(lib, file.tokens[i]) && r.tokens[i] in r.tokens;
    }
  }

  lemma NoEmptySlug(slugs: seq<string>, defaultCollector: string)
    requires CollectorsOk(slugs, defaultCollector)
    ensures "" !in SetOf(slugs)
  {
    hide Distinct;
  }

  // The legacy key is stored exactly if it parses and its id is not that of an
  // entry; then with no grant and the one role of ingest servers.
  lemma LegacyIff(lib: Library, file: AuthFile, apiKey: string, limits: Limits)
    requires Acceptable(lib, file)
    ensures var store, entries := Store(lib, file, apiKey, limits), |file.keys| + |file.grants| + |file.tokens|;
      var r := ResolvedFile(lib, file);
      var taken := AllIds(lib, file.serverSecret, r.keys, r.grants, r.tokens);
      if Trim(apiKey) != "" && lib.parseKey(apiKey).Some? && lib.parseKey(apiKey).value.keyId !in taken
      then
        && |store| == entries + 1
        && var p := lib.parseKey(apiKey).value;
           var found := Found(store, p.keyId);
           && found.Some? && found.value.keyId == p.keyId && found.value.id == p.keyId && found.value.kind == p.kind
           && found.value.secretHash == lib.hash(p.secret, file.serverSecret)
           && found.value.access == Some(Access("", ["collector_ingest_server"])) && found.value.grants == []
      else |store| == entries
  {
    var r, secret := ResolvedFile(lib, file), file.serverSecret;
    var rs := AllRecords(lib, secret, r.keys, r.grants, r.tokens);
    IdsOfRecords(lib, secret, r.keys, r.grants, r.tokens);
    StoredLosslessly(rs);
    StoredIds(rs);
    LegacyUnfolds(lib, secret, apiKey, limits, StoredAs(rs));
    assert Blank(apiKey) <==> Trim(apiKey) == "";
    assert forall id :: id in SetOf(RecordIds(rs)) <==> id in RecordIds(rs);
    hide Blank, Trim, Distinct, KeysOk, TokensOk, GrantsOk, CollectorsOk, AllIds, StoredAs, AllRecords, RecordIds, SetOf, WithLegacy, FindsOwn;
  }

  // ---------- what acceptance rules out, and what it lets in ----------

  // A public credential has an allowed origin, a public token only the client
  // role; key ids have no underscore; secrets are not empty; collectors exist.
  lemma AcceptedIsSafe(lib: Library, file: AuthFile)
    requires Acceptable(lib, file)
    ensures forall i :: 0 <= i < |file.keys| ==>
      var k := file.keys[i];
      && Trim(k.keyId) != "" && '_' !in Trim(k.keyId) && Trim(lib.env(Trim(k.secretEnv))) != ""
      && (Lower(Trim(k.kind)) == "pub" ==> exists o :: o in k.limits.origins && Trim(o) != "")
      && (Trim(k.collector) != "" ==> Trim(k.collector) in file.collectors)
    ensures forall i :: 0 <= i < |file.tokens| ==>
      var t := file.tokens[i];
      && Trim(lib.env(Trim(t.tokenEnv))) != "" && lib.parseKey(Trim(lib.env(Trim(t.tokenEnv)))).None? && t.roles != []
      && (Lower(Trim(t.mode)) == "public" ==>
            && (exists o :: o in t.limits.origins && Trim(o) != "")
            && forall n :: 0 <= n < |t.roles| ==> Trim(t.roles[n]) == "client")
      && (Trim(t.collector) != "" ==> Trim(t.collector) in file.collectors)
    ensures forall i :: 0 <= i < |file.grants| ==>
      var g := file.grants[i];
      && g.collector in file.collectors && GrantId(lib, g) != "" && g.permissions != [] && g.limits.environments != []
      && (Trim(g.publicIdEnv) != "" ==> exists o :: o in g.limits.origins && Trim(o) != "")
      && (Trim(g.publicIdEnv) == "" ==> Trim(lib.env(Trim(g.passwordEnv))) != "")
  {
    var r := ResolvedFile(lib, file);
    forall i | 0 <= i < |file.keys| ensures KeySafe(lib, file.collectors, file.keys[i]) {
      assert r.keys[i] == ResolvedKey(lib, file.keys[i]);
      KeyIsSafe(lib, file.collectors, file.keys[i]);
    }
    forall i | 0 <= i < |file.tokens| ensures TokenSafe(lib, file.collectors, file.tokens[i]) {
      assert r.tokens[i] == ResolvedToken(lib, file.tokens[i]);
      TokenIsSafe(lib, file.collectors, file.tokens[i]);
    }
    forall i | 0 <= i < |file.grants| ensures GrantSafe(lib, file.collectors, file.grants[i]) {
      GrantIsSafe(lib, file.collectors, file.grants[i]);
    }
    hide Acceptable, ResolvedFile, Trim, Lower, GrantId;
  }

  ghost predicate KeySafe(lib: Library, collectors: seq<string>, k: FileKey) {
    && Trim(k.keyId) != "" && '_' !in Trim(k.keyId) && Trim(lib.env(Trim(k.secretEnv))) != ""
    && (Lower(Trim(k.kind)) == "pub" ==> exists o :: o in k.limits.origins && Trim(o) != "")
    && (Trim(k.collector) != "" ==> Trim(k.collector) in collectors)
  }

  ghost predicate TokenSafe(lib: Library, collectors: seq<string>, t: FileToken) {
    && Trim(lib.env(Trim(t.tokenEnv))) != "" && lib.parseKey(Trim(lib.env(Trim(t.tokenEnv)))).None? && t.roles != []
    && (Lower(Trim(t.mode)) == "public" ==>
          && (exists o :: o in t.limits.origins && Trim(o) != "")
          && forall n :: 0 <= n < |t.roles| ==> Trim(t.roles[n]) == "client")
    && (Trim(t.collector) != "" ==> Trim(t.collector) in collectors)
  }

  ghost predicate GrantSafe(lib: Library, collectors: seq<string>, g: FileGrant) {
    && g.collector in collectors && GrantId(lib, g) != "" && g.permissions != [] && g.limits.environments != []
    && (Trim(g.publicIdEnv) != "" ==> exists o :: o in g.limits.origins && Trim(o) != "")
    && (Trim(g.publicIdEnv) == "" ==> Trim(lib.env(Trim(g.passwordEnv))) != "")
  }

  lemma KeyIsSafe(lib: Library, collectors: seq<string>, k: FileKey)
    requires KeyOk(lib, k) && (ResolvedKey(lib, k).collector == "" || ResolvedKey(lib, k).collector in collectors)
    ensures KeySafe(lib, collectors, k)
  {
    hide Trim, Lower, KeyAccess, ScopeOk, ConfigIdent;
  }

  lemma TokenIsSafe(lib: Library, collectors: seq<string>, t: FileToken)
    requires TokenOk(lib, t) && (ResolvedToken(lib, t).collector == "" || ResolvedToken(lib, t).collector in collectors)
    ensures TokenSafe(lib, collectors, t)
  {
    PublicTokenRoles(t);
    hide Trim, Lower, ScopeOk, ConfigIdent, TokenAccess;
  }

  lemma PublicTokenRoles(t: FileToken)
    requires TokenAccess(t).Some?
    ensures t.roles != []
    ensures Lower(Trim(t.mode)) == "public" ==>
      TokenAccess(t).value.mode == "public" && forall n :: 0 <= n < |t.roles| ==> Trim(t.roles[n]) == "client"
  {
    hide Trim, Lower, Distinct, AllTrimmed;
    forall n | 0 <= n < |t.roles| ensures AllTrimmed(t.roles)[n] == Trim(t.roles[n]) { TrimmedAt(t.roles, n); }
  }

  lemma GrantIsSafe(lib: Library, collectors: seq<string>, g: FileGrant)
    requires GrantOk(lib, SetOf(collectors), g)
    ensures GrantSafe(lib, collectors, g)
  {
    hide Trim, ConfigIdent;
  }

  // ---------- the rules for one entry ----------

  predicate Identifier(s: string) {
    s != "" && forall i :: 0 <= i < |s| ==>
      'A' <= s[i] <= 'Z' || 'a' <= s[i] <= 'z' || s[i] == '_' || (0 < i && '0' <= s[i] <= '9')
  }

  predicate Slug(s: string) {
    1 <= |s| <= 63 && forall i :: 0 <= i < |s| ==> 'a' <= s[i] <= 'z' || '0' <= s[i] <= '9' || (0 < i && s[i] == '-')
  }

  predicate AccessId(s: string) {
    39 <= |s| <= 135 && s[..7] == "lz_pub_"
    && forall i :: 7 <= i < |s| ==> 'A' <= s[i] <= 'Z' || 'a' <= s[i] <= 'z' || '0' <= s[i] <= '9' || s[i] == '-' || s[i] == '_'
  }

  predicate UserName(s: string) {
    s != "" && Trim(s) == s && forall i :: 0 <= i < |s| ==> s[i] !in {':', ' ', '\t', '\r', '\n'}
  }

  // At least one value, each of them known once trimmed, none twice.
  ghost predicate Listed(values: seq<string>, known: set<string>) {
    && values != []
    && (forall i :: 0 <= i < |values| ==> Trim(values[i]) in known)
    && forall i, j :: 0 <= i < j < |values| ==> Trim(values[i]) != Trim(values[j])
  }

  ghost predicate NonBlankList(values: seq<string>) {
    && values != []
    && (forall i :: 0 <= i < |values| ==> Trim(values[i]) != "")
    && forall i, j :: 0 <= i < j < |values| ==> Trim(values[i]) != Trim(values[j])
  }

  const GRANTABLE: set<string> := {
    "events:read", "events:write", "events:delete", "logs:read", "logs:write", "logs:edit", "logs:delete", "project:admin"}

  const KNOWN_ROLES: set<string> := {
    "collector_ingest_public", "collector_ingest_server", "collector_ingest_enterprise",
    "project_readonly", "project_operator", "project_admin", "user", "client", "admin", "superadmin"}

  ghost predicate SomeOrigin(l: Limits) {
    exists o :: o in l.origins && Trim(o) != ""
  }

  ghost predicate ScopeRules(collector: string, permissions: seq<string>, environments: seq<string>) {
    && (collector == "" <==> permissions == [])
    && (collector != "" ==> Slug(collector) && Listed(permissions, GRANTABLE) && NonBlankList(environments))
  }

  // A key: an id, a secret, a kind; a mode that suits the kind; roles if a mode
  // is given, only the client role if that is public; a complete scope or none.
  ghost predicate KeyRules(lib: Library, k: FileKey) {
    var id, env, kind, mode := Trim(k.keyId), Trim(k.secretEnv), Lower(Trim(k.kind)), Lower(Trim(k.mode));
    && id != "" && '_' !in id && Identifier(env) && Trim(lib.env(env)) != ""
    && (kind == "pub" || kind == "sec") && (kind == "pub" ==> SomeOrigin(k.limits))
    && (mode == "" || (mode == "public" && kind == "pub") || (mode == "private" && kind == "sec"))
    && (mode != "" || k.roles != [] ==> Listed(k.roles, if mode == "public" then {"client"} else KNOWN_ROLES))
    && ScopeRules(Trim(k.collector), k.permissions, k.limits.environments)
  }

  // A token: opaque, with roles, only the client role and an origin if public.
  ghost predicate TokenRules(lib: Library, t: FileToken) {
    var env, mode := Trim(t.tokenEnv), Lower(Trim(t.mode));
    && Identifier(env) && Trim(lib.env(env)) != "" && lib.parseKey(Trim(lib.env(env))).None?
    && (mode == "" || mode == "public" || mode == "private")
    && Listed(t.roles, if mode == "public" then {"client"} else KNOWN_ROLES) && (mode == "public" ==> SomeOrigin(t.limits))
    && ScopeRules(Trim(t.collector), t.permissions, t.limits.environments)
  }

  // A grant: of a configured collector, to a public access id or to a user.
  ghost predicate GrantRules(lib: Library, collectors: set<string>, g: FileGrant) {
    var publicEnv := Trim(g.publicIdEnv);
    && g.collector in collectors && Listed(g.permissions, GRANTABLE) && NonBlankList(g.limits.environments)
    && (publicEnv != "" ==>
          && g.username == "" && g.passwordEnv == "" && Identifier(publicEnv) && AccessId(Trim(lib.env(publicEnv))) && SomeOrigin(g.limits))
    && (publicEnv == "" ==>
          UserName(g.username) && Identifier(Trim(g.passwordEnv)) && Trim(lib.env(Trim(g.passwordEnv))) != "")
  }

  lemma LexicalIff(s: string)
    ensures ConfigIdent(s) <==> Identifier(s)
    ensures CollectorSlug(s) <==> Slug(s)
    ensures PublicAccessId(s) <==> AccessId(s)
    ensures BasicUsername(s) <==> UserName(s)
  {
    hide Trim;
    assert |s| >= 7 ==> forall i :: 7 <= i < |s| ==> s[7..][i - 7] == s[i];
    assert ConfigIdent(s) ==> forall i :: 0 <= i < |s| ==> s[i] in s;
    assert CollectorSlug(s) ==> forall i :: 0 <= i < |s| ==> s[i] in s;
    assert BasicUsername(s) ==> forall i :: 0 <= i < |s| ==> s[i] in s;
    assert PublicAccessId(s) ==> forall i :: 7 <= i < |s| ==> s[i] in s[7..];
  }

  lemma ListIff(values: seq<string>, allowed: string -> bool, known: set<string>)
    requires forall v :: allowed(v) <==> v in known
    ensures ListOk(values, allowed) <==> Listed(values, known)
  {
    var all := AllTrimmed(values);
    forall i | 0 <= i < |values| ensures all[i] == Trim(values[i]) { TrimmedAt(values, i); }
    hide Trim, AllTrimmed;
  }

  lemma NonBlankIff(values: seq<string>)
    ensures ListOk(values, e => e != "") <==> NonBlankList(values)
  {
    var all := AllTrimmed(values);
    forall i | 0 <= i < |values| ensures all[i] == Trim(values[i]) { TrimmedAt(values, i); }
    hide Trim, AllTrimmed;
  }

  lemma ScopeIff(permissions: seq<string>, environments: seq<string>)
    ensures ResolveScope(permissions, environments).Some? <==> Listed(permissions, GRANTABLE) && NonBlankList(environments)
  {
    ListIff(permissions, p => p in COLLECTOR_PERMISSIONS, GRANTABLE);
    NonBlankIff(environments);
    hide ListOk, Listed, NonBlankList;
  }

  lemma RolesIff(roles: seq<string>, mode: string, enforceMode: bool)
    requires mode == "public" || mode == "private"
    ensures RolesOk(roles, mode, enforceMode) <==> Listed(roles, if enforceMode && mode == "public" then {"client"} else KNOWN_ROLES)
  {
    ListIff(roles, role => role in ROLES && (enforceMode ==> RoleAllowedInMode(role, mode)),
            if enforceMode && mode == "public" then {"client"} else KNOWN_ROLES);
    hide ListOk, Listed;
  }

  lemma OriginIff(l: Limits)
    ensures AnyNonBlank(l.origins) <==> SomeOrigin(l)
  {
    hide Trim;
  }

  // An entry is let through by validation exactly if it keeps the rules.
  lemma KeyOkIff(lib: Library, k: FileKey)
    ensures KeyOk(lib, k) <==> KeyRules(lib, k)
  {
    LexicalIff(Trim(k.secretEnv));
    LexicalIff(Trim(k.collector));
    ScopeIff(k.permissions, k.limits.environments);
    OriginIff(k.limits);
    KeyAccessIff(k);
    hide Trim, Lower, ConfigIdent, Identifier, CollectorSlug, Slug, ResolveScope, Listed, NonBlankList, AnyNonBlank, SomeOrigin, KeyAccess;
  }

  lemma KeyAccessIff(k: FileKey)
    ensures var kind, mode := KeyKind(k), Lower(Trim(k.mode));
      KeyAccess(k, kind).Some? <==>
        && (mode == "" || (mode == "public" && kind == Public) || (mode == "private" && kind == Secret))
        && (mode != "" || k.roles != [] ==> Listed(k.roles, if mode == "public" then {"client"} else KNOWN_ROLES))
  {
    var kind := KeyKind(k);
    RolesIff(k.roles, "public", true);
    RolesIff(k.roles, "public", false);
    RolesIff(k.roles, "private", true);
    RolesIff(k.roles, "private", false);
    hide Trim, Lower, RolesOk, Listed, AllTrimmed;
  }

  lemma TokenOkIff(lib: Library, t: FileToken)
    ensures TokenOk(lib, t) <==> TokenRules(lib, t)
  {
    LexicalIff(Trim(t.tokenEnv));
    LexicalIff(Trim(t.collector));
    ScopeIff(t.permissions, t.limits.environments);
    OriginIff(t.limits);
    TokenAccessIff(t);
    hide Trim, Lower, ConfigIdent, Identifier, CollectorSlug, Slug, ResolveScope, Listed, NonBlankList, AnyNonBlank, SomeOrigin, TokenAccess;
  }

  lemma TokenAccessIff(t: FileToken)
    ensures var mode := Lower(Trim(t.mode));
      && (TokenAccess(t).Some? <==>
            (mode == "" || mode == "public" || mode == "private") && Listed(t.roles, if mode == "public" then {"client"} else KNOWN_ROLES))
      && (TokenAccess(t).Some? ==> (TokenAccess(t).value.mode == "public" <==> mode == "public"))
  {
    RolesIff(t.roles, "public", true);
    RolesIff(t.roles, "private", true);
    hide Trim, Lower, RolesOk, Listed, AllTrimmed;
  }

  lemma GrantOkIff(lib: Library, collectors: set<string>, g: FileGrant)
    ensures GrantOk(lib, collectors, g) <==> GrantRules(lib, collectors, g)
  {
    LexicalIff(Trim(g.publicIdEnv));
    LexicalIff(Trim(g.passwordEnv));
    LexicalIff(Trim(lib.env(Trim(g.publicIdEnv))));
    LexicalIff(g.username);
    ScopeIff(g.permissions, g.limits.environments);
    OriginIff(g.limits);
    hide Trim, ConfigIdent, Identifier, PublicAccessId, AccessId, BasicUsername, UserName, ResolveScope, Listed, NonBlankList, AnyNonBlank, SomeOrigin;
  }
}
