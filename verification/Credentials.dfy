// From the configuration file to the credential store: the checks of
// resolveAuthConfig, resolveAuthTokens, resolveCollectorAuthGrants and the
// uniqueness block of validateFileConfig (config.go), and the store that
// newMemoryKeyStoreFromConfig builds (server.go).
module Credentials {
  import opened ByteStrings
  import opened Strings

  // ---------- configuration entries ----------

  datatype Kind = Public | Secret | Local | Token

  // What mode and role resolution yields, and what permission and environment
  // resolution yields.
  datatype Access = Access(mode: string, roles: seq<string>)

  datatype Scope = Scope(permissions: set<string>, environments: seq<string>)

  datatype Limits = Limits(environments: seq<string>, services: seq<string>, origins: seq<string>, ips: seq<string>,
                           maxPayloadBytes: int, maxRequestsPerMinute: int, maxEventsPerMinute: int)

  datatype FileKey = FileKey(name: string, keyId: string, secretEnv: string, kind: string, mode: string, roles: seq<string>,
                             collector: string, permissions: seq<string>, limits: Limits)

  datatype FileToken = FileToken(name: string, tokenEnv: string, mode: string, roles: seq<string>,
                                 collector: string, permissions: seq<string>, limits: Limits)

  datatype FileGrant = FileGrant(name: string, collector: string, username: string, passwordEnv: string,
                                 publicIdEnv: string, permissions: seq<string>, limits: Limits)

  datatype ParsedKey = ParsedKey(kind: Kind, keyId: string, secret: string)

  // The environment, the API key parser and the keyed hash.
  datatype Library = Library(env: string -> string, parseKey: string -> Option<ParsedKey>, hash: (string, string) -> string)
  {
    function TokenLookupId(token: string, serverSecret: string): string {
      "tok_" + hash(token, serverSecret)
    }
  }

  // ---------- lexical checks ----------

  predicate Letter(c: char) {
    'A' <= c <= 'Z' || 'a' <= c <= 'z'
  }

  predicate Digit(c: char) {
    '0' <= c <= '9'
  }

  predicate ConfigIdent(s: string) {
    && s != "" && (Letter(s[0]) || s[0] == '_')
    && forall c :: c in s ==> Letter(c) || Digit(c) || c == '_'
  }

  predicate CollectorSlug(s: string) {
    && 1 <= |s| <= 63 && s[0] != '-'
    && forall c :: c in s ==> 'a' <= c <= 'z' || Digit(c) || c == '-'
  }

  predicate PublicAccessId(s: string) {
    && "lz_pub_" <= s && 32 <= |s| - 7 <= 128
    && forall c :: c in s[7..] ==> Letter(c) || Digit(c) || c in {'-', '_'}
  }

  predicate BasicUsername(s: string) {
    s != "" && Trim(s) == s && forall c :: c in s ==> c !in {':', ' ', '\t', '\r', '\n'}
  }

  predicate AnyNonBlank(values: seq<string>) {
    exists v :: v in values && !Blank(v)
  }

  // ---------- resolution ----------

  function TrimStrings(values: seq<string>): seq<string> {
    if values == [] then []
    else (if Trim(values[0]) == "" then [] else [Trim(values[0])]) + TrimStrings(values[1..])
  }

  ghost predicate SomeTrimsTo(values: seq<string>, v: string) {
    exists i :: 0 <= i < |values| && Trim(values[i]) == v
  }

  // What trimStrings keeps: the trimmed forms of the values that are not blank.
  lemma {:induction false} TrimStringsKeeps(values: seq<string>, v: string)
    ensures v in TrimStrings(values) <==> v != "" && SomeTrimsTo(values, v)
  {
    hide Trim;
    if values != [] {
      TrimStringsKeeps(values[1..], v);
      assert SomeTrimsTo(values, v) <==> Trim(values[0]) == v || SomeTrimsTo(values[1..], v) by {
        if SomeTrimsTo(values[1..], v) {
          var i :| 0 <= i < |values[1..]| && Trim(values[1..][i]) == v;
          assert Trim(values[i + 1]) == v;
        }
        if i :| 0 < i < |values| && Trim(values[i]) == v { assert Trim(values[1..][i - 1]) == v; }
      }
      hide SomeTrimsTo;
    }
  }

  // Tokens and grants keep their allow-lists trimmed, keys as they are.
  function Trimmed(l: Limits): Limits {
    l.(services := TrimStrings(l.services), origins := TrimStrings(l.origins), ips := TrimStrings(l.ips))
  }

  // ---------- modes, roles, permissions, environments ----------

  function AllTrimmed(values: seq<string>): (r: seq<string>)
    ensures |r| == |values|
  {
    seq(|values|, i requires 0 <= i < |values| => Trim(values[i]))
  }

  // Trimmed, each value allowed, none twice, at least one.
  predicate ListOk(values: seq<string>, allowed: string -> bool) {
    && values != [] && Distinct(AllTrimmed(values))
    && forall i :: 0 <= i < |values| ==> allowed(AllTrimmed(values)[i])
  }

  lemma TrimmedAt(values: seq<string>, n: nat)
    requires n < |values|
    ensures AllTrimmed(values)[n] == Trim(values[n])
  {
    hide Trim;
  }

  lemma NotListed(values: seq<string>, allowed: string -> bool, n: nat)
    requires n < |values| && (!allowed(AllTrimmed(values)[n]) || AllTrimmed(values)[n] in SetOf(AllTrimmed(values)[..n]))
    ensures !ListOk(values, allowed)
  {
    hide AllTrimmed, Distinct;
    if allowed(AllTrimmed(values)[n]) { SeenTwice(AllTrimmed(values), n); }
  }

  // The loop that permissions, environments and roles have in common.
  method ResolveList(values: seq<string>, allowed: string -> bool) returns (r: Option<seq<string>>)
    ensures r == if ListOk(values, allowed) then Some(AllTrimmed(values)) else None
  {
    if values == [] {
      return None;
    }
    ghost var all := AllTrimmed(values);
    assert ListOk(values, allowed) <==> Distinct(all) && forall i :: 0 <= i < |values| ==> allowed(all[i]);
    hide *;
    NoIds();
    var resolved: seq<string> := [];
    var seen: set<string> := {};
    for n := 0 to |values|
      invariant |resolved| == n && forall i :: 0 <= i < n ==> resolved[i] == all[i]
      invariant seen == SetOf(all[..n])
      invariant Distinct(all[..n])
      invariant forall i :: 0 <= i < n ==> allowed(all[i])
    {
      var value := Trim(values[n]);
      TrimmedAt(values, n);
      if !allowed(value) {
        NotListed(values, allowed, n);
        return None;
      }
      if value in seen {
        NotListed(values, allowed, n);
        return None;
      }
      NewId(all, n);
      seen := seen + {value};
      resolved := resolved + [value];
    }
    assert all[..|values|] == all && resolved == all;
    r := Some(resolved);
  }

  const COLLECTOR_PERMISSIONS := {
    "events:read", "events:write", "events:delete", "logs:read", "logs:write", "logs:edit", "logs:delete", "project:admin"}

  const ROLES := {
    "collector_ingest_public", "collector_ingest_server", "collector_ingest_enterprise", "project_readonly",
    "project_operator", "project_admin", "user", "client", "admin", "superadmin"}

  // Public credentials are restricted to one role.
  predicate RoleAllowedInMode(role: string, mode: string) {
    mode == "private" || (mode == "public" && role == "client")
  }

  // The mode and whether it was given; None for a mode that does not suit the kind.
  function ResolveMode(raw: string, kind: Kind): Option<(string, bool)> {
    var value := Lower(Trim(raw));
    if value == "" then Some((if kind == Public then "public" else "private", false))
    else if value == "public" && kind != Secret then Some((value, true))
    else if value == "private" && kind != Public then Some((value, true))
    else None
  }

  predicate RolesOk(roles: seq<string>, mode: string, enforceMode: bool) {
    ListOk(roles, role => role in ROLES && (enforceMode ==> RoleAllowedInMode(role, mode)))
  }

  // A key without roles and without a mode of its own has no role list.
  function KeyAccess(k: FileKey, kind: Kind): Option<Access> {
    match ResolveMode(k.mode, kind)
    case None => None
    case Some((mode, given)) =>
      if k.roles == [] && !given then Some(Access(mode, []))
      else if RolesOk(k.roles, mode, given) then Some(Access(mode, AllTrimmed(k.roles)))
      else None
  }

  function TokenAccess(t: FileToken): Option<Access> {
    match ResolveMode(t.mode, Token)
    case None => None
    case Some((mode, _)) => if RolesOk(t.roles, mode, true) then Some(Access(mode, AllTrimmed(t.roles))) else None
  }

  function ResolveScope(permissions: seq<string>, environments: seq<string>): Option<Scope> {
    if ListOk(permissions, p => p in COLLECTOR_PERMISSIONS) && ListOk(environments, e => e != "")
    then Some(Scope(SetOf(AllTrimmed(permissions)), AllTrimmed(environments)))
    else None
  }

  // Collector and permissions come together, and then both must be valid.
  predicate ScopeOk(collector: string, permissions: seq<string>, environments: seq<string>) {
    && (Trim(collector) == "" <==> permissions == [])
    && (Trim(collector) != "" ==> CollectorSlug(Trim(collector)) && ResolveScope(permissions, environments).Some?)
  }

  // With a collector the environments are those of its scope.
  function ScopeFor(collector: string, permissions: seq<string>, environments: seq<string>): Option<Scope> {
    if Trim(collector) == "" then None else ResolveScope(permissions, environments)
  }

  function InScope(l: Limits, scope: Option<Scope>): Limits {
    if scope.Some? then l.(environments := scope.value.environments) else l
  }

  // ---------- what each entry resolves to ----------

  datatype AuthKey = AuthKey(name: string, keyId: string, secret: string, kind: Kind, access: Access, collector: string, scope: Option<Scope>, limits: Limits)

  datatype AuthToken = AuthToken(name: string, token: string, access: Access, collector: string, scope: Option<Scope>, limits: Limits)

  datatype AuthGrant = AuthGrant(name: string, collector: string, keyId: string, secret: string, kind: Kind, scope: Scope, limits: Limits)

  function Lower(s: string): string {
    seq(|s|, i requires 0 <= i < |s| => if 'A' <= s[i] <= 'Z' then s[i] - 'A' + 'a' else s[i])
  }

  function KeyKind(k: FileKey): Kind {
    if Lower(Trim(k.kind)) == "pub" then Public else Secret
  }

  predicate KeyOk(lib: Library, k: FileKey) {
    && Trim(k.keyId) != "" && '_' !in Trim(k.keyId)
    && ConfigIdent(Trim(k.secretEnv)) && Trim(lib.env(Trim(k.secretEnv))) != ""
    && Lower(Trim(k.kind)) in {"pub", "sec"}
    && (Lower(Trim(k.kind)) == "pub" ==> AnyNonBlank(k.limits.origins))
    && KeyAccess(k, KeyKind(k)).Some?
    && ScopeOk(k.collector, k.permissions, k.limits.environments)
  }

  function ResolvedKey(lib: Library, k: FileKey): AuthKey
    requires KeyOk(lib, k)
  {
    var scope := ScopeFor(k.collector, k.permissions, k.limits.environments);
    AuthKey(Trim(k.name), Trim(k.keyId), Trim(lib.env(Trim(k.secretEnv))), KeyKind(k), KeyAccess(k, KeyKind(k)).value,
            Trim(k.collector), scope, InScope(k.limits, scope))
  }

  predicate TokenOk(lib: Library, t: FileToken) {
    var token := Trim(lib.env(Trim(t.tokenEnv)));
    && ConfigIdent(Trim(t.tokenEnv)) && token != "" && lib.parseKey(token).None?
    && TokenAccess(t).Some? && (TokenAccess(t).value.mode == "public" ==> AnyNonBlank(t.limits.origins))
    && ScopeOk(t.collector, t.permissions, t.limits.environments)
  }

  function ResolvedToken(lib: Library, t: FileToken): AuthToken
    requires TokenOk(lib, t)
  {
    var scope := ScopeFor(t.collector, t.permissions, t.limits.environments);
    AuthToken(Trim(t.name), Trim(lib.env(Trim(t.tokenEnv))), TokenAccess(t).value,
              Trim(t.collector), scope, InScope(Trimmed(t.limits), scope))
  }

  // A public grant has an access id and no password, a secret one a user and a password.
  predicate GrantOk(lib: Library, collectors: set<string>, g: FileGrant) {
    && g.collector in collectors
    && (if Trim(g.publicIdEnv) != "" then
          && g.username == "" && g.passwordEnv == "" && ConfigIdent(Trim(g.publicIdEnv))
          && PublicAccessId(Trim(lib.env(Trim(g.publicIdEnv))))
          && AnyNonBlank(g.limits.origins)
        else
          && BasicUsername(g.username) && ConfigIdent(Trim(g.passwordEnv))
          && Trim(lib.env(Trim(g.passwordEnv))) != "")
    && ResolveScope(g.permissions, g.limits.environments).Some?
  }

  function ResolvedGrant(lib: Library, collectors: set<string>, g: FileGrant): AuthGrant
    requires GrantOk(lib, collectors, g)
  {
    var scope := ResolveScope(g.permissions, g.limits.environments).value;
    var limits := InScope(Trimmed(g.limits), Some(scope));
    if Trim(g.publicIdEnv) != "" then
      AuthGrant(Trim(g.name), g.collector, Trim(lib.env(Trim(g.publicIdEnv))), "", Public, scope, limits)
    else
      AuthGrant(Trim(g.name), g.collector, g.username, Trim(lib.env(Trim(g.passwordEnv))), Secret, scope, limits)
  }

  function SetOf(ids: seq<string>): set<string> {
    set id | id in ids
  }

  predicate Distinct(ids: seq<string>) {
    forall i, j :: 0 <= i < j < |ids| ==> ids[i] != ids[j]
  }

  function KeyIds(keys: seq<AuthKey>): (ids: seq<string>)
    ensures |ids| == |keys|
  {
    seq(|keys|, i requires 0 <= i < |keys| => keys[i].keyId)
  }

  function GrantIds(grants: seq<AuthGrant>): (ids: seq<string>)
    ensures |ids| == |grants|
  {
    seq(|grants|, i requires 0 <= i < |grants| => grants[i].keyId)
  }

  function TokenIds(lib: Library, serverSecret: string, tokens: seq<AuthToken>): (ids: seq<string>)
    ensures |ids| == |tokens|
  {
    seq(|tokens|, i requires 0 <= i < |tokens| => lib.TokenLookupId(tokens[i].token, serverSecret))
  }

  lemma NewId(ids: seq<string>, n: nat)
    requires n < |ids|
    ensures SetOf(ids[..n + 1]) == SetOf(ids[..n]) + {ids[n]}
    ensures Distinct(ids[..n + 1]) <==> Distinct(ids[..n]) && ids[n] !in SetOf(ids[..n])
  {
    assert ids[..n + 1] == ids[..n] + [ids[n]];
    DistinctExtends(ids[..n], ids[n]);
  }

  lemma SeenTwice(ids: seq<string>, n: nat)
    requires n < |ids| && ids[n] in SetOf(ids[..n])
    ensures !Distinct(ids)
  {
    var i :| 0 <= i < n && ids[i] == ids[n];
  }

  lemma DistinctExtends(ids: seq<string>, id: string)
    ensures Distinct(ids + [id]) <==> Distinct(ids) && id !in ids
  {
    var all := ids + [id];
    assert forall i :: 0 <= i < |ids| ==> all[i] == ids[i];
    if id in ids {
      var i :| 0 <= i < |ids| && ids[i] == id;
      assert all[i] == all[|ids|];
    }
    if Distinct(all) {
      assert forall i, j :: 0 <= i < j < |ids| ==> all[i] != all[j];
    }
  }

  lemma NoIds()
    ensures SetOf([]) == {} && Distinct([])
  {
  }

  // ---------- what each list must satisfy ----------

  function FileKeyIds(file: seq<FileKey>): (ids: seq<string>)
    ensures |ids| == |file|
  {
    seq(|file|, i requires 0 <= i < |file| => Trim(file[i].keyId))
  }

  function TokenEnvs(file: seq<FileToken>): (ids: seq<string>)
    ensures |ids| == |file|
  {
    seq(|file|, i requires 0 <= i < |file| => Trim(file[i].tokenEnv))
  }

  // Every key is well formed and no two share an id.
  predicate KeysOk(lib: Library, file: seq<FileKey>) {
    (forall i :: 0 <= i < |file| ==> KeyOk(lib, file[i])) && Distinct(FileKeyIds(file))
  }

  function ResolvedKeys(lib: Library, file: seq<FileKey>): (keys: seq<AuthKey>)
    requires KeysOk(lib, file)
    ensures |keys| == |file|
  {
    seq(|file|, i requires 0 <= i < |file| => ResolvedKey(lib, file[i]))
  }

  // No environment variable may serve two tokens.
  predicate TokensOk(lib: Library, file: seq<FileToken>) {
    (forall i :: 0 <= i < |file| ==> TokenOk(lib, file[i])) && Distinct(TokenEnvs(file))
  }

  function ResolvedTokens(lib: Library, file: seq<FileToken>): (tokens: seq<AuthToken>)
    requires TokensOk(lib, file)
    ensures |tokens| == |file|
  {
    seq(|file|, i requires 0 <= i < |file| => ResolvedToken(lib, file[i]))
  }

  predicate CollectorsOk(slugs: seq<string>, defaultCollector: string) {
    && (forall i :: 0 <= i < |slugs| ==> CollectorSlug(slugs[i])) && Distinct(slugs)
    && (defaultCollector == "" || defaultCollector in SetOf(slugs))
  }

  predicate GrantsOk(lib: Library, collectors: set<string>, file: seq<FileGrant>) {
    && (forall i :: 0 <= i < |file| ==> GrantOk(lib, collectors, file[i]))
    && Distinct(GrantIds(ResolvedGrants(lib, collectors, file)))
  }

  function ResolvedGrants(lib: Library, collectors: set<string>, file: seq<FileGrant>): (grants: seq<AuthGrant>)
    requires forall i :: 0 <= i < |file| ==> GrantOk(lib, collectors, file[i])
    ensures |grants| == |file|
  {
    seq(|file|, i requires 0 <= i < |file| => ResolvedGrant(lib, collectors, file[i]))
  }

  // resolveAuthConfig.
  method ResolveKeys(lib: Library, file: seq<FileKey>) returns (r: Option<seq<AuthKey>>)
    ensures r == if KeysOk(lib, file) then Some(ResolvedKeys(lib, file)) else None
    ensures r.Some? ==> Distinct(KeyIds(r.value))
  {
    hide KeyOk, Trim, Distinct, SetOf;
    NoIds();
    var keys: seq<AuthKey> := [];
    var seen: set<string> := {};
    ghost var ids := FileKeyIds(file);
    for n := 0 to |file|
      invariant |keys| == n
      invariant forall i :: 0 <= i < n ==> KeyOk(lib, file[i]) && keys[i] == ResolvedKey(lib, file[i])
      invariant seen == SetOf(ids[..n]) && Distinct(ids[..n])
    {
      var keyId := Trim(file[n].keyId);
      assert keyId == ids[n];
      if keyId in seen {
        SeenTwice(ids, n);
        return None;
      }
      if !KeyOk(lib, file[n]) {
        return None;
      }
      NewId(ids, n);
      seen := seen + {keyId};
      keys := keys + [ResolvedKey(lib, file[n])];
    }
    assert ids[..|file|] == ids && KeyIds(keys) == ids;
    assert keys == ResolvedKeys(lib, file);
    r := Some(keys);
  }

  // resolveAuthTokens.
  method ResolveTokens(lib: Library, file: seq<FileToken>) returns (r: Option<seq<AuthToken>>)
    ensures r == if TokensOk(lib, file) then Some(ResolvedTokens(lib, file)) else None
  {
    hide TokenOk, Trim, Distinct, SetOf;
    NoIds();
    var tokens: seq<AuthToken> := [];
    var seen: set<string> := {};
    ghost var envs := TokenEnvs(file);
    for n := 0 to |file|
      invariant |tokens| == n
      invariant forall i :: 0 <= i < n ==> TokenOk(lib, file[i]) && tokens[i] == ResolvedToken(lib, file[i])
      invariant seen == SetOf(envs[..n]) && Distinct(envs[..n])
    {
      var tokenEnv := Trim(file[n].tokenEnv);
      assert tokenEnv == envs[n];
      if tokenEnv in seen {
        SeenTwice(envs, n);
        return None;
      }
      if !TokenOk(lib, file[n]) {
        return None;
      }
      NewId(envs, n);
      seen := seen + {tokenEnv};
      tokens := tokens + [ResolvedToken(lib, file[n])];
    }
    assert envs[..|file|] == envs && tokens == ResolvedTokens(lib, file);
    r := Some(tokens);
  }

  // The first loop of resolveCollectorAuthGrants: the set of collectors, if
  // the slugs are valid and distinct and the default one is among them.
  method ResolveCollectors(slugs: seq<string>, defaultCollector: string) returns (r: Option<set<string>>)
    ensures r == if CollectorsOk(slugs, defaultCollector) then Some(SetOf(slugs)) else None
  {
    hide CollectorSlug, Distinct, SetOf;
    NoIds();
    var known: set<string> := {};
    for n := 0 to |slugs|
      invariant known == SetOf(slugs[..n]) && Distinct(slugs[..n])
      invariant forall i :: 0 <= i < n ==> CollectorSlug(slugs[i])
    {
      if !CollectorSlug(slugs[n]) {
        return None;
      }
      if slugs[n] in known {
        SeenTwice(slugs, n);
        return None;
      }
      NewId(slugs, n);
      known := known + {slugs[n]};
    }
    assert slugs[..|slugs|] == slugs;
    r := if defaultCollector != "" && defaultCollector !in known then None else Some(known);
  }

  // Its second loop: well-formed grants with distinct credential ids.
  method ResolveGrants(lib: Library, known: set<string>, file: seq<FileGrant>) returns (r: Option<seq<AuthGrant>>)
    ensures r == if GrantsOk(lib, known, file) then Some(ResolvedGrants(lib, known, file)) else None
  {
    hide GrantOk, ResolvedGrant, Trim, Distinct, SetOf;
    NoIds();
    var grants: seq<AuthGrant> := [];
    var seen: set<string> := {};
    for n := 0 to |file|
      invariant |grants| == n
      invariant forall i :: 0 <= i < n ==> GrantOk(lib, known, file[i]) && grants[i] == ResolvedGrant(lib, known, file[i])
      invariant seen == SetOf(GrantIds(grants)) && Distinct(GrantIds(grants))
    {
      if !GrantOk(lib, known, file[n]) {
        return None;
      }
      var grant := ResolvedGrant(lib, known, file[n]);
      ghost var ids := GrantIds(grants + [grant]);
      assert ids == GrantIds(grants) + [grant.keyId] && ids[..n] == GrantIds(grants) && ids[..n + 1] == ids;
      NewId(ids, n);
      if grant.keyId in seen {
        RepeatedGrant(lib, known, file, grants, n);
        return None;
      }
      seen := seen + {grant.keyId};
      grants := grants + [grant];
    }
    assert grants == ResolvedGrants(lib, known, file);
    r := Some(grants);
  }

  lemma RepeatedGrant(lib: Library, known: set<string>, file: seq<FileGrant>, grants: seq<AuthGrant>, n: nat)
    requires n < |file| && |grants| == n && GrantOk(lib, known, file[n])
    requires forall i :: 0 <= i < n ==> GrantOk(lib, known, file[i]) && grants[i] == ResolvedGrant(lib, known, file[i])
    requires ResolvedGrant(lib, known, file[n]).keyId in SetOf(GrantIds(grants))
    ensures !GrantsOk(lib, known, file)
  {
    hide GrantOk, ResolvedGrant, Distinct;
    if forall i :: 0 <= i < |file| ==> GrantOk(lib, known, file[i]) {
      var ids := GrantIds(ResolvedGrants(lib, known, file));
      assert ids[..n] == GrantIds(grants);
      SeenTwice(ids, n);
    }
  }

  // Every credential id of the configuration, keys first, then grants, then tokens.
  function AllIds(lib: Library, serverSecret: string, keys: seq<AuthKey>, grants: seq<AuthGrant>, tokens: seq<AuthToken>): seq<string> {
    KeyIds(keys) + GrantIds(grants) + TokenIds(lib, serverSecret, tokens)
  }

  lemma IdAt(lib: Library, serverSecret: string, keys: seq<AuthKey>, grants: seq<AuthGrant>, tokens: seq<AuthToken>)
    ensures var all, k, g := AllIds(lib, serverSecret, keys, grants, tokens), |keys|, |keys| + |grants|;
      && |all| == g + |tokens| && all[..k] == KeyIds(keys)
      && (forall n :: 0 <= n < |grants| ==> all[k + n] == grants[n].keyId)
      && (forall n :: 0 <= n < |tokens| ==> all[g + n] == lib.TokenLookupId(tokens[n].token, serverSecret))
  {
    hide Library.TokenLookupId;
  }

  // The uniqueness block: the keys are known to be distinct and only seed the
  // set; grants and tokens must be new.
  method IdsUnique(lib: Library, serverSecret: string, keys: seq<AuthKey>, grants: seq<AuthGrant>, tokens: seq<AuthToken>) returns (ok: bool)
    requires Distinct(KeyIds(keys))
    ensures ok <==> Distinct(AllIds(lib, serverSecret, keys, grants, tokens))
  {
    var configured := SetOf(KeyIds(keys));
    var k := |keys|;
    ghost var all := AllIds(lib, serverSecret, keys, grants, tokens);
    IdAt(lib, serverSecret, keys, grants, tokens);
    hide Library.TokenLookupId, Distinct, SetOf, AllIds, KeyIds;
    for n := 0 to |grants|
      invariant configured == SetOf(all[..k + n]) && Distinct(all[..k + n])
    {
      NewId(all, k + n);
      if grants[n].keyId in configured {
        SeenTwice(all, k + n);
        return false;
      }
      configured := configured + {grants[n].keyId};
    }
    k := k + |grants|;
    for n := 0 to |tokens|
      invariant configured == SetOf(all[..k + n]) && Distinct(all[..k + n])
    {
      var tokenId := lib.TokenLookupId(tokens[n].token, serverSecret);
      NewId(all, k + n);
      if tokenId in configured {
        SeenTwice(all, k + n);
        return false;
      }
      configured := configured + {tokenId};
    }
    assert all[..|all|] == all;
    ok := true;
  }

  // ---------- the store ----------

  datatype CollectorGrant = CollectorGrant(collector: string, environments: seq<string>, permissions: set<string>)

  datatype KeyRecord = KeyRecord(id: string, keyId: string, secretHash: string, kind: Kind, access: Option<Access>,
                                 grants: seq<CollectorGrant>, limits: Limits)

  function NameOr(name: string, id: string): string {
    if name == "" then id else name
  }

  function GrantsFor(collector: string, scope: Option<Scope>): seq<CollectorGrant> {
    if collector == "" || scope.None? then [] else [CollectorGrant(collector, scope.value.environments, scope.value.permissions)]
  }

  function KeyRecordOf(lib: Library, secret: string, k: AuthKey): KeyRecord {
    KeyRecord(NameOr(k.name, k.keyId), k.keyId, lib.hash(k.secret, secret), k.kind, Some(k.access), GrantsFor(k.collector, k.scope), k.limits)
  }

  function GrantRecordOf(lib: Library, secret: string, g: AuthGrant): KeyRecord {
    KeyRecord(NameOr(g.name, g.keyId), g.keyId, lib.hash(g.secret, secret), g.kind, None,
              [CollectorGrant(g.collector, g.scope.environments, g.scope.permissions)], g.limits)
  }

  function TokenRecordOf(lib: Library, secret: string, t: AuthToken): KeyRecord {
    var id := lib.TokenLookupId(t.token, secret);
    KeyRecord(NameOr(t.name, id), id, lib.hash(t.token, secret), Token, Some(t.access), GrantsFor(t.collector, t.scope), t.limits)
  }

  // The records in the order in which they are stored.
  function AllRecords(lib: Library, secret: string, keys: seq<AuthKey>, grants: seq<AuthGrant>, tokens: seq<AuthToken>): (rs: seq<KeyRecord>)
    ensures |rs| == |keys| + |grants| + |tokens|
  {
    seq(|keys|, i requires 0 <= i < |keys| => KeyRecordOf(lib, secret, keys[i]))
      + seq(|grants|, i requires 0 <= i < |grants| => GrantRecordOf(lib, secret, grants[i]))
      + seq(|tokens|, i requires 0 <= i < |tokens| => TokenRecordOf(lib, secret, tokens[i]))
  }

  // Later records overwrite earlier ones with the same id.
  function StoredAs(rs: seq<KeyRecord>): map<string, KeyRecord> {
    if rs == [] then map[] else StoredAs(rs[..|rs| - 1])[rs[|rs| - 1].keyId := rs[|rs| - 1]]
  }

  function LegacyRecord(lib: Library, secret: string, p: ParsedKey, limits: Limits): KeyRecord {
    KeyRecord(p.keyId, p.keyId, lib.hash(p.secret, secret), p.kind, Some(Access("", ["collector_ingest_server"])), [], limits)
  }

  // The legacy key is added unless its id is already configured.
  function WithLegacy(lib: Library, secret: string, apiKey: string, limits: Limits, m: map<string, KeyRecord>): map<string, KeyRecord> {
    if Blank(apiKey) then m
    else
      match lib.parseKey(apiKey)
      case None => m
      case Some(p) => if p.keyId in m then m else m[p.keyId := LegacyRecord(lib, secret, p, limits)]
  }

  lemma NoneStored(rs: seq<KeyRecord>)
    ensures StoredAs(rs[..0]) == map[]
  {
  }

  lemma StoredOneMore(rs: seq<KeyRecord>, n: nat)
    requires n < |rs|
    ensures StoredAs(rs[..n + 1]) == StoredAs(rs[..n])[rs[n].keyId := rs[n]]
  {
    assert rs[..n + 1][..n] == rs[..n];
  }

  lemma RecordAt(lib: Library, secret: string, keys: seq<AuthKey>, grants: seq<AuthGrant>, tokens: seq<AuthToken>, i: nat)
    requires i < |keys| + |grants| + |tokens|
    ensures var rs, k, g := AllRecords(lib, secret, keys, grants, tokens), |keys|, |keys| + |grants|;
      if i < k then rs[i] == KeyRecordOf(lib, secret, keys[i]) && rs[i].keyId == keys[i].keyId
      else if i < g then rs[i] == GrantRecordOf(lib, secret, grants[i - k]) && rs[i].keyId == grants[i - k].keyId
      else rs[i] == TokenRecordOf(lib, secret, tokens[i - g]) && rs[i].keyId == lib.TokenLookupId(tokens[i - g].token, secret)
  {
    hide Library.TokenLookupId;
  }

  lemma LegacyUnfolds(lib: Library, secret: string, apiKey: string, limits: Limits, m: map<string, KeyRecord>)
    ensures var p := lib.parseKey(apiKey);
      WithLegacy(lib, secret, apiKey, limits, m)
        == if !Blank(apiKey) && p.Some? && p.value.keyId !in m then m[p.value.keyId := LegacyRecord(lib, secret, p.value, limits)] else m
  {
    hide Blank;
  }

  class MemoryKeyStore {
    var keys: map<string, KeyRecord>

    constructor FromConfig(lib: Library, secret: string, authKeys: seq<AuthKey>, authGrants: seq<AuthGrant>, authTokens: seq<AuthToken>,
                           apiKey: string, legacyLimits: Limits)
      ensures keys == WithLegacy(lib, secret, apiKey, legacyLimits, StoredAs(AllRecords(lib, secret, authKeys, authGrants, authTokens)))
    {
      keys := map[];
      new;
      hide *;
      ghost var all := AllRecords(lib, secret, authKeys, authGrants, authTokens);
      NoneStored(all);
      for n := 0 to |authKeys|
        invariant keys == StoredAs(all[..n])
      {
        RecordAt(lib, secret, authKeys, authGrants, authTokens, n);
        StoredOneMore(all, n);
        Store(KeyRecordOf(lib, secret, authKeys[n]), authKeys[n].keyId);
      }
      ghost var k := |authKeys|;
      for n := 0 to |authGrants|
        invariant keys == StoredAs(all[..k + n])
      {
        RecordAt(lib, secret, authKeys, authGrants, authTokens, k + n);
        StoredOneMore(all, k + n);
        Store(GrantRecordOf(lib, secret, authGrants[n]), authGrants[n].keyId);
      }
      k := k + |authGrants|;
      for n := 0 to |authTokens|
        invariant keys == StoredAs(all[..k + n])
      {
        RecordAt(lib, secret, authKeys, authGrants, authTokens, k + n);
        StoredOneMore(all, k + n);
        Store(TokenRecordOf(lib, secret, authTokens[n]), lib.TokenLookupId(authTokens[n].token, secret));
      }
      assert all[..|all|] == all;
      LegacyUnfolds(lib, secret, apiKey, legacyLimits, keys);
      if !Blank(apiKey) {
        var parsed := lib.parseKey(apiKey);
        if parsed.Some? && parsed.value.keyId !in keys {
          keys := keys[parsed.value.keyId := LegacyRecord(lib, secret, parsed.value, legacyLimits)];
        }
      }
    }

    method Store(r: KeyRecord, id: string)
      modifies this
      ensures keys == old(keys)[id := r]
    {
      keys := keys[id := r];
    }

    method FindByKeyId(id: string) returns (r: Option<KeyRecord>)
      ensures r == Found(keys, id)
    {
      if id !in keys {
        return None;
      }
      r := Some(keys[id]);
    }
  }

  function Found(keys: map<string, KeyRecord>, id: string): Option<KeyRecord> {
    if id in keys then Some(keys[id]) else None
  }

  // ---------- nothing configured is lost ----------

  function RecordIds(rs: seq<KeyRecord>): (ids: seq<string>)
    ensures |ids| == |rs|
  {
    seq(|rs|, i requires 0 <= i < |rs| => rs[i].keyId)
  }

  lemma {:induction false} StoredIds(rs: seq<KeyRecord>)
    ensures StoredAs(rs).Keys == SetOf(RecordIds(rs))
  {
    if rs != [] {
      var n := |rs| - 1;
      StoredIds(rs[..n]);
      RecordIdsEnd(rs);
    }
  }

  lemma LastId(rs: seq<KeyRecord>)
    requires rs != []
    ensures var n := |rs| - 1;
      && StoredAs(rs) == StoredAs(rs[..n])[rs[n].keyId := rs[n]]
      && (rs[n].keyId in StoredAs(rs[..n]) <==> rs[n].keyId in RecordIds(rs[..n]))
      && (Distinct(RecordIds(rs)) <==> Distinct(RecordIds(rs[..n])) && rs[n].keyId !in RecordIds(rs[..n]))
  {
    var n := |rs| - 1;
    var before, id := RecordIds(rs[..n]), rs[n].keyId;
    StoredIds(rs[..n]);
    RecordIdsEnd(rs);
    assert id in SetOf(before) <==> id in before;
    hide Distinct, RecordIds, SetOf;
    DistinctExtends(before, id);
  }

  lemma RecordIdsEnd(rs: seq<KeyRecord>)
    requires rs != []
    ensures RecordIds(rs) == RecordIds(rs[..|rs| - 1]) + [rs[|rs| - 1].keyId]
  {
  }

  ghost predicate FindsOwn(m: map<string, KeyRecord>, rs: seq<KeyRecord>) {
    forall r :: r in rs ==> r.keyId in m && m[r.keyId] == r
  }

  lemma FindsOneMore(m: map<string, KeyRecord>, rs: seq<KeyRecord>, r: KeyRecord)
    requires FindsOwn(m, rs) && r.keyId !in RecordIds(rs)
    ensures FindsOwn(m[r.keyId := r], rs + [r])
  {
    forall x | x in rs ensures x.keyId != r.keyId {
      var i :| 0 <= i < |rs| && rs[i] == x;
      assert RecordIds(rs)[i] == x.keyId;
    }
  }

  // The store keeps one record per credential exactly when no two ids clash.
  lemma {:induction false} StoredLosslessly(rs: seq<KeyRecord>)
    ensures |StoredAs(rs)| <= |rs|
    ensures |StoredAs(rs)| == |rs| <==> Distinct(RecordIds(rs))
    ensures Distinct(RecordIds(rs)) ==> FindsOwn(StoredAs(rs), rs)
  {
    if rs != [] {
      hide *;
      var n := |rs| - 1;
      StoredLosslessly(rs[..n]);
      LastId(rs);
      if Distinct(RecordIds(rs)) {
        FindsOneMore(StoredAs(rs[..n]), rs[..n], rs[n]);
        assert rs[..n] + [rs[n]] == rs;
      }
    }
  }

  lemma IdsOfRecords(lib: Library, secret: string, keys: seq<AuthKey>, grants: seq<AuthGrant>, tokens: seq<AuthToken>)
    ensures var rs := AllRecords(lib, secret, keys, grants, tokens);
      var ids := AllIds(lib, secret, keys, grants, tokens);
      RecordIds(rs) == ids
  {
    hide Library.TokenLookupId;
  }

  // An accepted configuration gives a store with exactly one record per
  // credential, found under its own id, plus at most the legacy key.
  lemma StoreIsLossless(lib: Library, secret: string, keys: seq<AuthKey>, grants: seq<AuthGrant>, tokens: seq<AuthToken>,
                        apiKey: string, limits: Limits)
    requires Distinct(AllIds(lib, secret, keys, grants, tokens))
    ensures var store := WithLegacy(lib, secret, apiKey, limits, StoredAs(AllRecords(lib, secret, keys, grants, tokens)));
      && (forall k :: k in keys ==> k.keyId in store && store[k.keyId] == KeyRecordOf(lib, secret, k))
      && (forall g :: g in grants ==> g.keyId in store && store[g.keyId] == GrantRecordOf(lib, secret, g))
      && (forall t :: t in tokens ==> var id := lib.TokenLookupId(t.token, secret);
            id in store && store[id] == TokenRecordOf(lib, secret, t))
      && |keys| + |grants| + |tokens| <= |store| <= |keys| + |grants| + |tokens| + 1
      && (Blank(apiKey) || lib.parseKey(apiKey).None? ==> |store| == |keys| + |grants| + |tokens|)
  {
    hide Blank, Library.TokenLookupId, Distinct;
    var rs := AllRecords(lib, secret, keys, grants, tokens);
    IdsOfRecords(lib, secret, keys, grants, tokens);
    StoredLosslessly(rs);
    hide StoredAs, AllIds;
    forall k | k in keys ensures k.keyId in StoredAs(rs) && StoredAs(rs)[k.keyId] == KeyRecordOf(lib, secret, k) {
      var i :| 0 <= i < |keys| && keys[i] == k;
      assert rs[i] == KeyRecordOf(lib, secret, k) && rs[i] in rs;
    }
    forall g | g in grants ensures g.keyId in StoredAs(rs) && StoredAs(rs)[g.keyId] == GrantRecordOf(lib, secret, g) {
      var i :| 0 <= i < |grants| && grants[i] == g;
      assert rs[|keys| + i] == GrantRecordOf(lib, secret, g) && rs[|keys| + i] in rs;
    }
    forall t | t in tokens ensures var id := lib.TokenLookupId(t.token, secret);
      id in StoredAs(rs) && StoredAs(rs)[id] == TokenRecordOf(lib, secret, t)
    {
      var i :| 0 <= i < |tokens| && tokens[i] == t;
      assert rs[|keys| + |grants| + i] == TokenRecordOf(lib, secret, t) && rs[|keys| + |grants| + i] in rs;
    }
    hide AllRecords;
  }

  // ---------- the whole check ----------

  datatype AuthFile = AuthFile(serverSecret: string, collectors: seq<string>, defaultCollector: string,
                               keys: seq<FileKey>, grants: seq<FileGrant>, tokens: seq<FileToken>)

  datatype Resolved = Resolved(keys: seq<AuthKey>, grants: seq<AuthGrant>, tokens: seq<AuthToken>)

  // What validateFileConfig demands of the credentials of a configuration.
  ghost predicate Acceptable(lib: Library, file: AuthFile) {
    && KeysOk(lib, file.keys) && TokensOk(lib, file.tokens)
    && CollectorsOk(file.collectors, file.defaultCollector) && GrantsOk(lib, SetOf(file.collectors), file.grants)
    && var r := ResolvedFile(lib, file);
    && (forall i :: 0 <= i < |r.keys| ==> r.keys[i].collector == "" || r.keys[i].collector in file.collectors)
    && (forall i :: 0 <= i < |r.tokens| ==> r.tokens[i].collector == "" || r.tokens[i].collector in file.collectors)
    && Distinct(AllIds(lib, file.serverSecret, r.keys, r.grants, r.tokens))
  }

  ghost function ResolvedFile(lib: Library, file: AuthFile): Resolved
    requires KeysOk(lib, file.keys) && TokensOk(lib, file.tokens) && GrantsOk(lib, SetOf(file.collectors), file.grants)
  {
    Resolved(ResolvedKeys(lib, file.keys), ResolvedGrants(lib, SetOf(file.collectors), file.grants), ResolvedTokens(lib, file.tokens))
  }

  // validateFileConfig's credential part.
  method ValidateAuth(lib: Library, file: AuthFile) returns (r: Option<Resolved>)
    ensures r == if Acceptable(lib, file) then Some(ResolvedFile(lib, file)) else None
  {
    hide KeysOk, TokensOk, GrantsOk, CollectorsOk, ResolvedKeys, ResolvedGrants, ResolvedTokens, AllIds, KeyIds, Distinct;
    var keys := ResolveKeys(lib, file.keys);
    if keys.None? { return None; }
    var tokens := ResolveTokens(lib, file.tokens);
    if tokens.None? { return None; }
    var configured := ResolveCollectors(file.collectors, file.defaultCollector);
    if configured.None? { return None; }
    var grants := ResolveGrants(lib, configured.value, file.grants);
    if grants.None? { return None; }
    for n := 0 to |keys.value|
      invariant forall i :: 0 <= i < n ==> keys.value[i].collector == "" || keys.value[i].collector in file.collectors
    {
      if keys.value[n].collector != "" && keys.value[n].collector !in configured.value { return None; }
    }
    for n := 0 to |tokens.value|
      invariant forall i :: 0 <= i < n ==> tokens.value[i].collector == "" || tokens.value[i].collector in file.collectors
    {
      if tokens.value[n].collector != "" && tokens.value[n].collector !in configured.value { return None; }
    }
    var unique := IdsUnique(lib, file.serverSecret, keys.value, grants.value, tokens.value);
    if !unique { return None; }
    r := Some(Resolved(keys.value, grants.value, tokens.value));
  }
}
