/** Storage access: the direct check and the pre-filtered index
    (internal/access/service.go and the in-memory branches of store.go). */
module Access {
  import opened Wrappers

  // Permissions, roles and modes are open string types in the source.
  const StorageRead := "storage.read"
  const DocumentRead := "document.read"
  const SearchRead := "search.read"
  const DocumentCreate := "document.create"
  const DocumentUpdate := "document.update"
  const DocumentDelete := "document.delete"
  const AclManage := "acl.manage"
  const TokenManage := "token.policy.manage"
  const StorageDelete := "storage.delete"

  const ModeRead := "read"
  const ModeReadWrite := "read_write"
  const ModeNone := "none"

  datatype Binding = Binding(storageId: string, subjectKey: string, role: string, expiresAt: Option<int>)

  datatype Storage = Storage(id: string, name: string)

  datatype Token = Token(id: string, mode: string, allowedPermissions: seq<string>)

  datatype Scope = Scope(storageId: string, maxMode: string)

  /** subjectKeys is what SubjectKeys derives from the principal's identity and groups. */
  datatype Principal = Principal(subjectKeys: seq<string>, scopes: seq<string>)

  function RolePermissions(role: string): seq<string> {
    if role == "storage_owner" || role == "storage_admin" then
      [StorageRead, DocumentRead, SearchRead, DocumentCreate, DocumentUpdate, DocumentDelete, AclManage, TokenManage,
        StorageDelete]
    else if role == "storage_writer" then
      [StorageRead, DocumentRead, SearchRead, DocumentCreate, DocumentUpdate, DocumentDelete]
    else if role == "storage_reader" then
      [StorageRead, DocumentRead, SearchRead]
    else []
  }

  function ModePermissions(mode: string): seq<string> {
    if mode == ModeReadWrite then RolePermissions("storage_writer")
    else if mode == ModeRead then RolePermissions("storage_reader")
    else []
  }

  function IntersectMode(a: string, b: string): string {
    if a == ModeNone || b == ModeNone then ModeNone
    else if a == ModeRead || b == ModeRead then ModeRead
    else ModeReadWrite
  }

  // ---- What access means ------------------------------------------------------------------

  /** Some binding of the caller on the storage gives the permission. */
  predicate Granted(acl: seq<Binding>, storageId: string, permission: string) {
    exists b | b in acl :: b.storageId == storageId && permission in RolePermissions(b.role)
  }

  predicate GrantedNothing(acl: seq<Binding>, storageId: string) {
    forall b | b in acl :: b.storageId == storageId ==> RolePermissions(b.role) == []
  }

  predicate PlatformAdmin(p: Principal) { "platform_admin" in p.scopes }

  /** The mode of the token on the storage: that of its first scope entry for it. */
  function TokenMode(token: Token, scopes: seq<Scope>, storageId: string): string {
    if scopes == [] then ModeNone
    else if scopes[0].storageId == storageId then IntersectMode(token.mode, scopes[0].maxMode)
    else TokenMode(token, scopes[1..], storageId)
  }

  /** Without a token: a binding grants it, or a platform admin holds no permission
      at all on the storage. With one: a binding grants it, the token's mode there
      includes it, and so does the token's own list, if it has one. */
  predicate MayAccess(p: Principal, token: Option<Token>, scopes: seq<Scope>, acl: seq<Binding>, storageId: string,
      permission: string) {
    match token
    case None => Granted(acl, storageId, permission) || (PlatformAdmin(p) && GrantedNothing(acl, storageId))
    case Some(t) =>
      && Granted(acl, storageId, permission)
      && permission in ModePermissions(TokenMode(t, scopes, storageId))
      && (t.allowedPermissions == [] || permission in t.allowedPermissions)
  }

  // ---- evaluateStorageAccess ----------------------------------------------------------------

  method CollectPermissions(acl: seq<Binding>, storageId: string) returns (perms: set<string>)
    ensures forall x :: x in perms <==> Granted(acl, storageId, x)
  {
    perms := {};
    for i := 0 to |acl|
      invariant forall x :: x in perms <==> Granted(acl[..i], storageId, x)
    {
      assert acl[..i + 1] == acl[..i] + [acl[i]];
      GrantedSnoc(acl[..i], acl[i], storageId);
      if acl[i].storageId != storageId {
        continue;
      }
      var role := RolePermissions(acl[i].role);
      perms := perms + (set x | x in role);
    }
    assert acl[..|acl|] == acl;
  }

  lemma GrantedSnoc(acl: seq<Binding>, b: Binding, storageId: string)
    ensures forall x :: Granted(acl + [b], storageId, x) <==>
              Granted(acl, storageId, x) || (b.storageId == storageId && x in RolePermissions(b.role))
  {
    forall x ensures Granted(acl + [b], storageId, x) <==>
                       Granted(acl, storageId, x) || (b.storageId == storageId && x in RolePermissions(b.role))
    {
      assert forall c :: c in acl + [b] <==> c in acl || c == b;
    }
  }

  lemma EmptyMeansNothing(acl: seq<Binding>, storageId: string, perms: set<string>)
    requires forall x :: x in perms <==> Granted(acl, storageId, x)
    ensures perms == {} <==> GrantedNothing(acl, storageId)
  {
    if !GrantedNothing(acl, storageId) {
      var b :| b in acl && b.storageId == storageId && RolePermissions(b.role) != [];
      assert Granted(acl, storageId, RolePermissions(b.role)[0]);
    }
  }

  method ModeOfToken(token: Token, scopes: seq<Scope>, storageId: string) returns (mode: string)
    ensures mode == TokenMode(token, scopes, storageId)
  {
    for i := 0 to |scopes|
      invariant TokenMode(token, scopes[i..], storageId) == TokenMode(token, scopes, storageId)
    {
      if scopes[i].storageId == storageId {
        return IntersectMode(token.mode, scopes[i].maxMode);
      }
      assert scopes[i..][1..] == scopes[i + 1..];
    }
    return ModeNone;
  }

  method EvaluateStorageAccess(p: Principal, token: Option<Token>, scopes: seq<Scope>, acl: seq<Binding>,
      storageId: string, permission: string)
    returns (permissions: set<string>, mode: string, ok: bool)
    ensures ok == MayAccess(p, token, scopes, acl, storageId, permission)
    ensures token.None? ==> mode == ModeReadWrite
    ensures token.Some? ==> mode == TokenMode(token.value, scopes, storageId)
    ensures token.Some? ==> forall x :: x in permissions <==> MayAccess(p, token, scopes, acl, storageId, x)
    ensures token.None? ==> forall x :: x in permissions <==>
      Granted(acl, storageId, x) || (x == permission && PlatformAdmin(p) && GrantedNothing(acl, storageId))
    ensures ok <==> permission in permissions
  {
    permissions := CollectPermissions(acl, storageId);
    EmptyMeansNothing(acl, storageId, permissions);
    mode := ModeReadWrite;
    if token.Some? {
      mode := ModeOfToken(token.value, scopes, storageId);
      var byMode := ModePermissions(mode);
      permissions := set x | x in permissions && x in byMode;
      if |token.value.allowedPermissions| > 0 {
        var allowed := set x | x in token.value.allowedPermissions;
        permissions := permissions - (set x | x in permissions && x !in allowed);
      }
    } else if permissions == {} && PlatformAdmin(p) {
      permissions := {permission};
    }
    ok := permission in permissions;
  }

  // ---- The store and the index ----------------------------------------------------------------

  predicate Expired(b: Binding, now: int) { b.expiresAt.Some? && b.expiresAt.value <= now }

  /** A binding of one of the subjects on the storage that is still in force. */
  predicate InForce(acl: map<string, Binding>, keys: seq<string>, storageId: string, now: int) {
    exists id | id in acl :: acl[id].subjectKey in keys && acl[id].storageId == storageId && !Expired(acl[id], now)
  }

  /** The bindings of the given subjects, expired or not, in any order. */
  predicate BindingsOf(acl: map<string, Binding>, keys: seq<string>, out: seq<Binding>) {
    && (forall i | 0 <= i < |out| :: out[i].subjectKey in keys && out[i] in acl.Values)
    && (forall id | id in acl :: acl[id].subjectKey in keys ==> acl[id] in out)
  }

  /** Some binding of the subjects in the store gives the permission on the storage. */
  predicate Grants(acl: map<string, Binding>, keys: seq<string>, storageId: string, permission: string) {
    exists id | id in acl :: acl[id].subjectKey in keys && acl[id].storageId == storageId
      && permission in RolePermissions(acl[id].role)
  }

  lemma GrantedIsGrants(acl: map<string, Binding>, keys: seq<string>, out: seq<Binding>, storageId: string,
      permission: string)
    requires BindingsOf(acl, keys, out)
    ensures Granted(out, storageId, permission) == Grants(acl, keys, storageId, permission)
  {
    if Granted(out, storageId, permission) {
      var b :| b in out && b.storageId == storageId && permission in RolePermissions(b.role);
      var i :| 0 <= i < |out| && out[i] == b;
      assert b in acl.Values;
      var id :| id in acl && acl[id] == b;
    }
    if Grants(acl, keys, storageId, permission) {
      var id :| id in acl && acl[id].subjectKey in keys && acl[id].storageId == storageId
        && permission in RolePermissions(acl[id].role);
      assert acl[id] in out;
    }
  }

  lemma NothingGrantedIsNoGrants(acl: map<string, Binding>, keys: seq<string>, a: seq<Binding>, b: seq<Binding>,
      storageId: string)
    requires BindingsOf(acl, keys, a) && BindingsOf(acl, keys, b) && GrantedNothing(a, storageId)
    ensures GrantedNothing(b, storageId)
  {
    forall x | x in b && x.storageId == storageId ensures RolePermissions(x.role) == [] {
      var i :| 0 <= i < |b| && b[i] == x;
      assert x in acl.Values;
      var id :| id in acl && acl[id] == x;
      assert acl[id] in a;
    }
  }

  /** The order in which a subject's bindings are listed makes no difference. */
  lemma OrderOfBindings(p: Principal, token: Option<Token>, scopes: seq<Scope>, acl: map<string, Binding>,
      a: seq<Binding>, b: seq<Binding>, storageId: string, permission: string)
    requires BindingsOf(acl, p.subjectKeys, a) && BindingsOf(acl, p.subjectKeys, b)
    ensures MayAccess(p, token, scopes, a, storageId, permission) == MayAccess(p, token, scopes, b, storageId,
      permission)
  {
    GrantedIsGrants(acl, p.subjectKeys, a, storageId, permission);
    GrantedIsGrants(acl, p.subjectKeys, b, storageId, permission);
    if GrantedNothing(a, storageId) { NothingGrantedIsNoGrants(acl, p.subjectKeys, a, b, storageId); }
    if GrantedNothing(b, storageId) { NothingGrantedIsNoGrants(acl, p.subjectKeys, b, a, storageId); }
  }

  /** What CanAccessStorage answers for a store. */
  ghost predicate CanAccess(acl: map<string, Binding>, p: Principal, token: Option<Token>, scopes: seq<Scope>,
      storageId: string, permission: string) {
    exists out :: BindingsOf(acl, p.subjectKeys, out) && MayAccess(p, token, scopes, out, storageId, permission)
  }

  /** The permissions and the mode the caller has on a storage, and whether the one
      asked for is among them. */
  datatype Effective = Effective(permissions: set<string>, mode: string, ok: bool)

  /** The answer names what the bindings grant, cut down to the token's mode and list;
      an admin without a grant gets just what was asked for. */
  ghost predicate IsEffective(acl: map<string, Binding>, p: Principal, token: Option<Token>, scopes: seq<Scope>,
      storageId: string, permission: string, e: Effective) {
    && e.ok == CanAccess(acl, p, token, scopes, storageId, permission)
    && (e.ok <==> permission in e.permissions)
    && match token
       case None =>
         && e.mode == ModeReadWrite
         && forall x | x != permission :: x in e.permissions <==> Grants(acl, p.subjectKeys, storageId, x)
       case Some(t) =>
         && e.mode == TokenMode(t, scopes, storageId)
         && forall x :: x in e.permissions <==>
              && Grants(acl, p.subjectKeys, storageId, x)
              && x in ModePermissions(e.mode)
              && (t.allowedPermissions == [] || x in t.allowedPermissions)
  }

  /** A storage the index considers at all. */
  predicate Candidate(acl: map<string, Binding>, p: Principal, token: Option<Token>, scopes: seq<Scope>,
      storageId: string, now: int) {
    match token
    case None => PlatformAdmin(p) || InForce(acl, p.subjectKeys, storageId, now)
    case Some(_) => InForce(acl, p.subjectKeys, storageId, now) && exists i | 0 <= i < |scopes| ::
      scopes[i].storageId == storageId
  }

  class Store {
    var storages: map<string, Storage>
    var acl: map<string, Binding>

    ghost predicate Valid()
      reads this
    {
      "" !in storages && forall id | id in storages :: storages[id].id == id
    }

    method AclForSubject(keys: seq<string>) returns (out: seq<Binding>)
      ensures BindingsOf(acl, keys, out)
    {
      out := [];
      if |keys| == 0 {
        return;
      }
      var todo := acl.Keys;
      while todo != {}
        invariant todo <= acl.Keys
        invariant forall i | 0 <= i < |out| :: out[i].subjectKey in keys && out[i] in acl.Values
        invariant forall id | id in acl && id !in todo :: acl[id].subjectKey in keys ==> acl[id] in out
        decreases todo
      {
        var id :| id in todo;
        if acl[id].subjectKey in keys {
          out := out + [acl[id]];
        }
        todo := todo - {id};
      }
    }

    /** listAccessibleStoragesMemory, behind the test for a token without scopes. */
    method ListAccessibleStorages(p: Principal, token: Option<Token>, scopes: seq<Scope>,
        now: int) returns (out: set<string>)
      requires Valid()
      ensures forall id :: id in out <==> id in storages && Candidate(acl, p, token, scopes, id, now)
    {
      if token.Some? && |scopes| == 0 {
        return {};
      }
      var candidates := {};
      if token.None? && PlatformAdmin(p) {
        candidates := storages.Keys;
      } else {
        var tokenSet := set i | 0 <= i < |scopes| :: scopes[i].storageId;
        candidates := CandidateIds(p.subjectKeys, token.Some?, tokenSet, now);
      }
      out := set id | id in candidates && id in storages;
    }

    method CandidateIds(keys: seq<string>, hasToken: bool, tokenSet: set<string>, now: int) returns (ids: set<string>)
      ensures forall s :: s in ids <==> InForce(acl, keys, s, now) && (hasToken ==> s in tokenSet)
    {
      ids := {};
      var todo := acl.Keys;
      while todo != {}
        invariant todo <= acl.Keys
        invariant forall s :: s in ids <==>
          (exists id | id in acl :: id !in todo && acl[id].subjectKey in keys && acl[id].storageId == s
            && !Expired(acl[id], now)) && (hasToken ==> s in tokenSet)
        decreases todo
      {
        var id :| id in todo;
        var b := acl[id];
        todo := todo - {id};
        if b.subjectKey in keys && !Expired(b, now) && (hasToken ==> b.storageId in tokenSet) {
          ids := ids + {b.storageId};
        }
      }
    }

    method CanAccessStorage(p: Principal, token: Option<Token>, scopes: seq<Scope>, storageId: string,
        permission: string)
      returns (r: Result<Effective, string>)
      ensures storageId == "" ==> r == Err("storage id is required")
      ensures storageId != "" ==> r.Ok? && IsEffective(acl, p, token, scopes, storageId, permission, r.value)
    {
      if storageId == "" {
        return Err("storage id is required");
      }
      var bindings := AclForSubject(p.subjectKeys);
      var permissions, mode, ok := EvaluateStorageAccess(p, token, scopes, bindings, storageId, permission);
      AnyListing(acl, p, token, scopes, bindings, storageId, permission);
      forall x ensures Granted(bindings, storageId, x) == Grants(acl, p.subjectKeys, storageId, x) {
        GrantedIsGrants(acl, p.subjectKeys, bindings, storageId, x);
      }
      return Ok(Effective(permissions, mode, ok));
    }

    /** Pre-filters candidates, then evaluates each. */
    method ReadableStorageIds(p: Principal, token: Option<Token>, scopes: seq<Scope>,
        now: int) returns (out: set<string>)
      requires Valid()
      ensures forall id :: id in out <==>
        id in storages && Candidate(acl, p, token, scopes, id, now) && CanAccess(acl, p, token, scopes, id,
          DocumentRead)
    {
      var candidates := ListAccessibleStorages(p, token, scopes, now);
      var bindings := AclForSubject(p.subjectKeys);
      out := {};
      var todo := candidates;
      while todo != {}
        invariant todo <= candidates
        invariant forall id :: id in out <==> id in candidates - todo && CanAccess(acl, p, token, scopes, id,
          DocumentRead)
        decreases todo
      {
        var id :| id in todo;
        var _, _, ok := EvaluateStorageAccess(p, token, scopes, bindings, id, DocumentRead);
        AnyListing(acl, p, token, scopes, bindings, id, DocumentRead);
        if ok {
          out := out + {id};
        }
        todo := todo - {id};
      }
    }
  }

  lemma AnyListing(acl: map<string, Binding>, p: Principal, token: Option<Token>, scopes: seq<Scope>,
      out: seq<Binding>, storageId: string, permission: string)
    requires BindingsOf(acl, p.subjectKeys, out)
    ensures CanAccess(acl, p, token, scopes, storageId, permission) == MayAccess(p, token, scopes, out, storageId,
      permission)
  {
    if CanAccess(acl, p, token, scopes, storageId, permission) {
      var other :| BindingsOf(acl, p.subjectKeys, other) && MayAccess(p, token, scopes, other, storageId, permission);
      OrderOfBindings(p, token, scopes, acl, other, out, storageId, permission);
    }
  }

  // ---- The index against the direct check ------------------------------------------------------

  lemma {:induction false} ModeNeedsScope(token: Token, scopes: seq<Scope>, storageId: string)
    ensures TokenMode(token, scopes, storageId) == ModeNone || exists i | 0 <= i < |scopes| ::
      scopes[i].storageId == storageId
  {
    if scopes != [] && scopes[0].storageId != storageId {
      ModeNeedsScope(token, scopes[1..], storageId);
      if i :| 0 <= i < |scopes[1..]| && scopes[1..][i].storageId == storageId {
        assert scopes[i + 1].storageId == storageId;
      }
    }
  }

  /** What the direct check allows, the index finds just when the caller is an admin
      without a token or has a binding there still in force. */
  lemma IndexExact(acl: map<string, Binding>, p: Principal, token: Option<Token>, scopes: seq<Scope>,
      storageId: string, permission: string, now: int)
    requires CanAccess(acl, p, token, scopes, storageId, permission)
    ensures Candidate(acl, p, token, scopes, storageId, now) <==>
              (token.None? && PlatformAdmin(p)) || InForce(acl, p.subjectKeys, storageId, now)
  {
    if token.Some? {
      ModeNeedsScope(token.value, scopes, storageId);
    }
  }

  /** With no binding expired, the index misses nothing the direct check allows. */
  lemma IndexComplete(acl: map<string, Binding>, p: Principal, token: Option<Token>, scopes: seq<Scope>,
      storageId: string, permission: string, now: int)
    requires forall id | id in acl :: !Expired(acl[id], now)
    requires CanAccess(acl, p, token, scopes, storageId, permission)
    ensures Candidate(acl, p, token, scopes, storageId, now)
  {
    IndexExact(acl, p, token, scopes, storageId, permission, now);
    var out :| BindingsOf(acl, p.subjectKeys, out) && MayAccess(p, token, scopes, out, storageId, permission);
    GrantedIsGrants(acl, p.subjectKeys, out, storageId, permission);
    if Grants(acl, p.subjectKeys, storageId, permission) {
      var id :| id in acl && acl[id].subjectKey in p.subjectKeys && acl[id].storageId == storageId
        && permission in RolePermissions(acl[id].role);
      assert !Expired(acl[id], now);
    }
  }

  /** An expired binding still opens the storage to the direct check; the index drops it. */
  lemma ExpiredBindingDiffers(storageId: string, key: string, now: int)
    ensures var acl := map["b" := Binding(storageId, key, "storage_reader", Some(now))];
            var p := Principal([key], []);
            && CanAccess(acl, p, None, [], storageId, DocumentRead)
            && !Candidate(acl, p, None, [], storageId, now)
  {
    var b := Binding(storageId, key, "storage_reader", Some(now));
    var acl := map["b" := b];
    var p := Principal([key], []);
    assert RolePermissions(b.role)[1] == DocumentRead;
    assert acl["b"] == b && b in acl.Values;
    assert BindingsOf(acl, p.subjectKeys, [b]);
    assert Granted([b], storageId, DocumentRead);
  }
}
