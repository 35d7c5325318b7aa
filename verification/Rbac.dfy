/** Roles, permissions and clients: recursive deletion of roles, and the indexes that must agree.

    The role table maps a role to the set of its parents. The base library's decision is taken to be some function
    of a role's ancestors and of the allowed and denied triples on them. */
module Rbac {
  import opened Commons

  type Id = nat
  type Roles = map<Id, set<Id>>

  /** (role, permission, resource) */
  datatype Triple = Triple(role: Id, perm: Id, resource: string)

  // ---------------------------------------------------------------- the role hierarchy

  /** d is reached from x by following n parent links, the last of which starts at a role of the table. */
  ghost predicate Climbs(roles: Roles, x: Id, d: Id, n: nat)
    decreases n
  {
    if n == 0 then x == d else x in roles && exists p :: p in roles[x] && Climbs(roles, p, d, n - 1)
  }

  /** d is x itself or one of its ancestors. */
  ghost predicate Under(roles: Roles, x: Id, d: Id) { exists n: nat :: Climbs(roles, x, d, n) }

  /** The role and all its transitive descendants. */
  ghost function Family(roles: Roles, d: Id): set<Id> { set x | x in roles && Under(roles, x, d) }

  predicate SingleParent(roles: Roles) {
    forall x, p, q :: x in roles && p in roles[x] && q in roles[x] ==> p == q
  }

  lemma {:induction false} ClimbsTransitive(roles: Roles, x: Id, y: Id, z: Id, m: nat, n: nat)
    requires Climbs(roles, x, y, m) && Climbs(roles, y, z, n)
    ensures Climbs(roles, x, z, m + n)
    decreases m
  {
    if m > 0 {
      var p :| p in roles[x] && Climbs(roles, p, y, m - 1);
      ClimbsTransitive(roles, p, y, z, m - 1, n);
    }
  }

  lemma UnderParent(roles: Roles, x: Id, p: Id, d: Id)
    requires x in roles && p in roles[x] && Under(roles, p, d)
    ensures Under(roles, x, d)
  {
    var n: nat :| Climbs(roles, p, d, n);
    assert Climbs(roles, x, d, n + 1);
  }

  /** Climbing in a table that lost some roles is climbing in the full one. */
  lemma {:induction false} ClimbsMonotone(small: Roles, big: Roles, x: Id, d: Id, n: nat)
    requires forall y :: y in small ==> y in big && big[y] == small[y]
    requires Climbs(small, x, d, n)
    ensures Climbs(big, x, d, n)
    decreases n
  {
    if n > 0 {
      var p :| p in small[x] && Climbs(small, p, d, n - 1);
      ClimbsMonotone(small, big, p, d, n - 1);
    }
  }

  /** A set of roles closed towards children contains every descendant of its members. */
  lemma {:induction false} ClosedContains(roles: Roles, gone: set<Id>, x: Id, d: Id, n: nat)
    requires d in gone && Climbs(roles, x, d, n)
    requires forall y, p :: y in roles && p in roles[y] && p in gone ==> y in gone
    ensures x in gone
    decreases n
  {
    if n > 0 {
      var p :| p in roles[x] && Climbs(roles, p, d, n - 1);
      ClosedContains(roles, gone, p, d, n - 1);
    }
  }

  /** With d already out of the table, a former child of d has no way up to one of its siblings. */
  lemma SiblingNotUnder(roles: Roles, d: Id, c: Id, e: Id)
    requires SingleParent(roles) && d !in roles && c in roles && e in roles && d in roles[e] && e != c
    ensures !Under(roles, e, c)
  {
    forall n: nat ensures !Climbs(roles, e, c, n) {
      if n > 0 && Climbs(roles, e, c, n) {
        var p :| p in roles[e] && Climbs(roles, p, c, n - 1);
        assert false;
      }
    }
  }

  // ---------------------------------------------------------------- the state as a value

  datatype Tables = Tables(roles: Roles, allowed: set<Triple>, denied: set<Triple>,
                           idToName: map<Id, string>, nameToId: map<string, Id>)

  /** The two name indexes are inverse to each other and cover exactly the roles. */
  ghost predicate IndexesAgree(t: Tables) {
    && t.idToName.Keys == t.roles.Keys
    && (forall i :: i in t.idToName ==> t.idToName[i] in t.nameToId && t.nameToId[t.idToName[i]] == i)
    && (forall n :: n in t.nameToId ==> t.nameToId[n] in t.idToName && t.idToName[t.nameToId[n]] == n)
  }

  function WithoutRoles(triples: set<Triple>, gone: set<Id>): set<Triple> {
    set g | g in triples && g.role !in gone
  }

  /** What must be left after deleting a set of roles everywhere. */
  function Without(t: Tables, gone: set<Id>): Tables {
    Tables(t.roles - gone, WithoutRoles(t.allowed, gone), WithoutRoles(t.denied, gone),
           t.idToName - gone, map n | n in t.nameToId && t.nameToId[n] !in gone :: t.nameToId[n])
  }

  lemma WithoutAgrees(t: Tables, gone: set<Id>)
    requires IndexesAgree(t)
    ensures IndexesAgree(Without(t, gone))
  {
  }

  lemma WithoutTwice(t: Tables, a: set<Id>, b: set<Id>)
    ensures Without(Without(t, a), b) == Without(t, a + b)
  {
  }

  /** Zero is as good as no parent. */
  function ParentsOf(id: Id, parent: Option<Id>): set<Id> {
    if parent.Some? && parent.value != 0 && parent.value != id then {parent.value} else {}
  }

  function Created(t: Tables, id: Id, name: string, parent: Option<Id>): Tables {
    t.(idToName := t.idToName[id := name],
       nameToId := t.nameToId[name := id],
       roles := t.roles[id := (if id in t.roles then t.roles[id] else {}) + ParentsOf(id, parent)])
  }

  function Edited(t: Tables, id: Id, oldName: string, name: string, parent: Option<Id>): (Result<()>, Tables) {
    if id !in t.idToName then (Raised("KeyError"), t)
    else
      var u := t.(idToName := t.idToName - {id});
      if oldName !in t.nameToId then (Raised("KeyError"), u)
      else (Ok(()), Created(u.(nameToId := t.nameToId - {oldName}, roles := t.roles[id := {}]), id, name, parent))
  }

  // ---------------------------------------------------------------- the registry and RBAC objects

  /** What delete_from_permissions compares. */
  datatype Field = OfRole(role: Id) | OfOperation(perm: Id) | OfResource(resource: string)

  predicate Involves(g: Triple, f: Field) {
    match f
    case OfRole(r) => g.role == r
    case OfOperation(p) => g.perm == p
    case OfResource(x) => g.resource == x
  }

  function Uninvolved(triples: set<Triple>, f: Field): set<Triple> { set g | g in triples && !Involves(g, f) }

  lemma UninvolvedRole(allowed: set<Triple>, denied: set<Triple>, d: Id, gone: set<Id>)
    ensures Uninvolved(WithoutRoles(allowed, gone), OfRole(d)) == WithoutRoles(WithoutRoles(allowed, gone), {d})
    ensures Uninvolved(WithoutRoles(denied, gone), OfRole(d)) == WithoutRoles(WithoutRoles(denied, gone), {d})
  {
  }

  class RBAC {
    var roles: Roles                  // registry._roles
    var allowed: set<Triple>          // registry._allowed
    var denied: set<Triple>           // registry._denied
    var resources: set<string>
    var idToName: map<Id, string>     // role_id_to_name
    var nameToId: map<string, Id>     // role_name_to_id
    var clientToRoles: map<string, set<Id>>    // client_def_to_role_id
    var roleToClients: map<Id, set<string>>    // role_id_to_client_def

    ghost function View(): Tables
      reads this
    {
      Tables(roles, allowed, denied, idToName, nameToId)
    }

    constructor ()
      ensures View() == Tables(map[], {}, {}, map[], map[]) && clientToRoles == map[] && roleToClients == map[]
    {
      roles, allowed, denied, resources, idToName, nameToId := map[], {}, {}, {}, map[], map[];
      clientToRoles, roleToClients := map[], map[];
    }

    /** _delete_callback with _rbac_delete_role: forget the role's names. */
    method DeleteCallback(id: Id)
      requires IndexesAgree(View()) && id in roles
      modifies `idToName, `nameToId
      ensures idToName == old(idToName) - {id}
      ensures nameToId == map n | n in old(nameToId) && old(nameToId)[n] != id :: old(nameToId)[n]
    {
      var name := idToName[id];
      idToName := idToName - {id};
      nameToId := nameToId - {name};
      assert nameToId == map n | n in old(nameToId) && old(nameToId)[n] != id :: old(nameToId)[n];
    }

    /** The triples that involve the role, operation or resource. */
    method Collect(triples: set<Triple>, f: Field) returns (found: set<Triple>)
      ensures forall g :: g in found <==> g in triples && Involves(g, f)
    {
      found := {};
      var todo := triples;
      while todo != {}
        invariant todo <= triples
        invariant forall g :: g in found <==> g in triples && g !in todo && Involves(g, f)
        decreases |todo|
      {
        var g :| g in todo;
        if Involves(g, f) { found := found + {g}; }
        todo := todo - {g};
      }
    }

    /** First collect, then delete one by one. */
    method Purge(triples: set<Triple>, f: Field) returns (kept: set<Triple>)
      ensures kept == Uninvolved(triples, f)
    {
      var found := Collect(triples, f);
      kept := triples;
      var todo := found;
      while todo != {}
        invariant forall g :: g in todo ==> g in found
        invariant forall g :: g in kept <==> g in triples && (g !in found || g in todo)
        decreases |todo|
      {
        var g :| g in todo;
        kept, todo := kept - {g}, todo - {g};
      }
    }

    method DeleteFromPermissions(f: Field)
      modifies `allowed, `denied
      ensures allowed == Uninvolved(old(allowed), f) && denied == Uninvolved(old(denied), f)
      ensures f.OfRole? ==>
        forall g :: (g in allowed <==> g in old(allowed) && g.role != f.role)
          && (g in denied <==> g in old(denied) && g.role != f.role)
      ensures f.OfOperation? ==>
        forall g :: (g in allowed <==> g in old(allowed) && g.perm != f.perm)
          && (g in denied <==> g in old(denied) && g.perm != f.perm)
      ensures f.OfResource? ==>
        forall g :: (g in allowed <==> g in old(allowed) && g.resource != f.resource)
          && (g in denied <==> g in old(denied) && g.resource != f.resource)
    {
      var keptAllowed := Purge(allowed, f);
      var keptDenied := Purge(denied, f);
      allowed, denied := keptAllowed, keptDenied;
    }

    /** Registry.delete_resource: permissions go only if the resource was there. */
    method DeleteResource(resource: string)
      modifies `resources, `allowed, `denied
      ensures resources == old(resources) - {resource}
      ensures allowed
        == if resource in old(resources) then Uninvolved(old(allowed), OfResource(resource)) else old(allowed)
      ensures denied
        == if resource in old(resources) then Uninvolved(old(denied), OfResource(resource)) else old(denied)
    {
      if resource in resources {
        resources := resources - {resource};
        DeleteFromPermissions(OfResource(resource));
      }
    }

    /** Registry.delete_role: the callback, the role itself, then its children with theirs, then the permissions.
        Each call shrinks the table, so it ends even if the table has a cycle. */
    method DeleteRoleAndChildren(d: Id)
      requires IndexesAgree(View()) && SingleParent(roles) && d in roles
      modifies `roles, `allowed, `denied, `idToName, `nameToId
      ensures View() == Without(old(View()), Family(old(roles), d))
      ensures IndexesAgree(View()) && SingleParent(roles) && |roles.Keys| <= |old(roles).Keys|
      decreases |roles.Keys|, 1
    {
      ghost var t0 := View();
      DeleteCallback(d);
      roles := roles - {d};
      HalfwayStart(t0, d);
      DeleteChildren(d, t0);
      HalfwayEnd(t0, d);
      DeleteFromPermissions(OfRole(d));
      UninvolvedRole(t0.allowed, t0.denied, d, Family(t0.roles, d) - {d});
      NoMore(roles.Keys, t0.roles.Keys);
    }

    /** One role of the snapshot: deleted with its own children if it is a child of d. `t0` is the state before d itself
        was deleted, `gone` the roles deleted since, `rest` those of the snapshot still to be looked at. */
    method DeleteIfChild(d: Id, c: Id, parents: set<Id>, ghost t0: Tables, ghost gone: set<Id>, ghost rest: set<Id>)
      returns (ghost more: set<Id>)
      requires Midway(t0, d, gone, rest, View()) && c in rest && c in t0.roles && c != d && parents == t0.roles[c]
      modifies `roles, `allowed, `denied, `idToName, `nameToId
      ensures Midway(t0, d, more, rest - {c}, View()) && |roles.Keys| <= |old(roles).Keys|
      decreases |roles.Keys|, 2
    {
      more := gone;
      if d in parents {
        ChildStep(t0, d, gone, rest, c);
        more := gone + Family(roles, c);
        DeleteRoleAndChildren(c);
      }
    }

    /** The loop over a snapshot of the table. */
    method DeleteChildren(d: Id, ghost t0: Tables)
      requires IndexesAgree(t0) && SingleParent(t0.roles) && d in t0.roles && View() == Halfway(t0, d, {})
      modifies `roles, `allowed, `denied, `idToName, `nameToId
      ensures View() == Halfway(t0, d, Family(t0.roles, d) - {d})
      decreases |roles.Keys|, 3
    {
      var snapshot := roles;
      var rest := snapshot.Keys;
      ghost var gone: set<Id> := {};
      SnapshotStart(t0, d);
      while rest != {}
        invariant Midway(t0, d, gone, rest, View()) && |roles.Keys| <= |old(roles).Keys|
        invariant snapshot == t0.roles - {d} && rest <= snapshot.Keys
        decreases |rest|
      {
        var c :| c in rest;
        gone := DeleteIfChild(d, c, snapshot[c], t0, gone, rest);
        rest := rest - {c};
      }
      FamilyFound(t0.roles, d, gone);
      assert gone == Family(t0.roles, d) - {d};
    }

    method DeleteRole(d: Id) returns (r: Result<()>)
      requires IndexesAgree(View()) && SingleParent(roles)
      modifies `roles, `allowed, `denied, `idToName, `nameToId
      ensures r.Ok? <==> d in old(roles)
      ensures View() == if d in old(roles) then Without(old(View()), Family(old(roles), d)) else old(View())
    {
      if d !in idToName {
        return Raised("KeyError");
      }
      DeleteRoleAndChildren(d);
      r := Ok(());
    }

    method CreateRole(id: Id, name: string, parent: Option<Id>)
      modifies `roles, `idToName, `nameToId
      ensures View() == Created(old(View()), id, name, parent)
      ensures id in roles && forall p :: p in roles[id] <==>
        (id in old(roles) && p in old(roles)[id]) || (parent == Some(p) && p != 0 && p != id)
    {
      idToName := idToName[id := name];
      nameToId := nameToId[name := id];
      roles := roles[id := (if id in roles then roles[id] else {}) + ParentsOf(id, parent)];
    }

    /** The old name goes first, by role id and then by name; a wrong old name is noticed only halfway. */
    method EditRole(id: Id, oldName: string, name: string, parent: Option<Id>) returns (r: Result<()>)
      requires IndexesAgree(View())
      modifies `roles, `idToName, `nameToId
      ensures (r, View()) == Edited(old(View()), id, oldName, name, parent)
      ensures r.Ok? ==> id in roles && forall p :: p in roles[id] <==> parent == Some(p) && p != 0 && p != id
    {
      if id !in idToName {
        return Raised("KeyError");
      }
      idToName := idToName - {id};
      if oldName !in nameToId {
        return Raised("KeyError");
      }
      nameToId := nameToId - {oldName};
      roles := roles[id := {}];
      CreateRole(id, name, parent);
      r := Ok(());
    }

    method CreateClientRole(client: string, role: Id) returns (r: Result<()>)
      requires ClientsAgree(clientToRoles, roleToClients)
      modifies `clientToRoles, `roleToClients
      ensures r.Ok? <==> role in idToName
      ensures r.Raised? ==> unchanged(this)
      ensures ClientsAgree(clientToRoles, roleToClients)
      ensures forall c, x :: HasRole(clientToRoles, c, x) <==>
        HasRole(old(clientToRoles), c, x) || (r.Ok? && c == client && x == role)
    {
      if role !in idToName {
        return Raised("ValueError");
      }
      var others := if client in clientToRoles then clientToRoles[client] else {};
      clientToRoles := clientToRoles[client := others + {role}];
      roleToClients := roleToClients[role := (if role in roleToClients then roleToClients[role] else {}) + {client}];
      forall c, x ensures HasRole(clientToRoles, c, x) <==> HasClient(roleToClients, c, x) {
        assert HasRole(old(clientToRoles), c, x) <==> HasClient(old(roleToClients), c, x);
      }
      r := Ok(());
    }

    method DeleteClientRole(client: string, role: Id) returns (r: Result<()>)
      requires ClientsAgree(clientToRoles, roleToClients)
      modifies `clientToRoles, `roleToClients
      ensures r.Ok? <==> HasRole(old(clientToRoles), client, role)
      ensures ClientsAgree(clientToRoles, roleToClients)
      ensures forall c, x :: HasRole(clientToRoles, c, x) <==>
        HasRole(old(clientToRoles), c, x) && !(c == client && x == role)
    {
      if client !in clientToRoles || role !in clientToRoles[client] {
        return Raised("KeyError");
      }
      assert HasRole(clientToRoles, client, role) && HasClient(roleToClients, client, role);
      clientToRoles := clientToRoles[client := clientToRoles[client] - {role}];
      roleToClients := roleToClients[role := roleToClients[role] - {client}];
      forall c, x ensures HasRole(clientToRoles, c, x) <==> HasClient(roleToClients, c, x) {
        assert HasRole(old(clientToRoles), c, x) <==> HasClient(old(roleToClients), c, x);
      }
      r := Ok(());
    }
  }

  // ---------------------------------------------------------------- clients and their roles

  ghost predicate HasRole(clientToRoles: map<string, set<Id>>, client: string, role: Id) {
    client in clientToRoles && role in clientToRoles[client]
  }

  ghost predicate HasClient(roleToClients: map<Id, set<string>>, client: string, role: Id) {
    role in roleToClients && client in roleToClients[role]
  }

  ghost predicate ClientsAgree(clientToRoles: map<string, set<Id>>, roleToClients: map<Id, set<string>>) {
    forall c, r :: HasRole(clientToRoles, c, r) <==> HasClient(roleToClients, c, r)
  }

  /** No client is assigned a role that is gone. */
  ghost predicate RolesKnown(clientToRoles: map<string, set<Id>>, roles: Roles) {
    forall c, r :: HasRole(clientToRoles, c, r) ==> r in roles
  }

  /** Deleting a role never touches the clients' assignments; so these stay free of dangling roles exactly when
      no client holds a role of the family that goes. */
  lemma DeleteLeavesNoDanglingExactlyWhen(t: Tables, d: Id, clientToRoles: map<string, set<Id>>)
    requires RolesKnown(clientToRoles, t.roles)
    ensures RolesKnown(clientToRoles, Without(t, Family(t.roles, d)).roles)
      <==> forall c, r :: HasRole(clientToRoles, c, r) ==> !Under(t.roles, r, d)
  {
    var u := Without(t, Family(t.roles, d));
    assert forall x :: x in u.roles <==> x in t.roles && !Under(t.roles, x, d);
    if RolesKnown(clientToRoles, u.roles) {
      forall c, r | HasRole(clientToRoles, c, r) ensures !Under(t.roles, r, d) { assert r in u.roles; }
    } else {
      var c, r :| HasRole(clientToRoles, c, r) && r !in u.roles;
      assert Under(t.roles, r, d);
    }
  }

  // ---------------------------------------------------------------- the names

  lemma CreateKeepsIndexes(t: Tables, id: Id, name: string, parent: Option<Id>)
    requires IndexesAgree(t) && if id in t.idToName then t.idToName[id] == name else name !in t.nameToId
    ensures IndexesAgree(Created(t, id, name, parent))
  {
    var u := Created(t, id, name, parent);
    assert u.idToName.Keys == t.idToName.Keys + {id} && u.roles.Keys == t.roles.Keys + {id};
    assert forall i :: i in u.idToName ==> i == id || (i in t.idToName && u.idToName[i] == t.idToName[i]);
    assert forall n :: n in u.nameToId ==> n == name || (n in t.nameToId && u.nameToId[n] == t.nameToId[n]);
  }

  /** Creating a role keeps the indexes inverse exactly when id and name are both new, or already belong to each
      other. */
  lemma CreateKeepsIndexesExactlyWhen(t: Tables, id: Id, name: string, parent: Option<Id>)
    requires IndexesAgree(t)
    ensures IndexesAgree(Created(t, id, name, parent))
      <==> (if id in t.idToName then t.idToName[id] == name else name !in t.nameToId)
  {
    var u := Created(t, id, name, parent);
    if if id in t.idToName then t.idToName[id] == name else name !in t.nameToId {
      CreateKeepsIndexes(t, id, name, parent);
    } else if id in t.idToName {
      assert u.nameToId[t.idToName[id]] == id && u.idToName[id] == name;
    } else {
      assert u.idToName[t.nameToId[name]] == name && u.nameToId[name] == id;
    }
  }

  /** An edit of an existing role leaves the indexes inverse exactly when it was given the role's own old name and the
      new name does not belong to another role. With any other name it raises halfway, or takes a name away from another
      role. */
  lemma EditKeepsIndexesExactlyWhen(t: Tables, id: Id, oldName: string, name: string, parent: Option<Id>)
    requires IndexesAgree(t) && id in t.idToName
    ensures IndexesAgree(Edited(t, id, oldName, name, parent).1)
      <==> t.idToName[id] == oldName && (name in t.nameToId ==> t.nameToId[name] == id)
  {
    var u := Edited(t, id, oldName, name, parent).1;
    if oldName !in t.nameToId {
      assert id in u.roles && id !in u.idToName;
    } else {
      var j := t.nameToId[oldName];
      if j != id {
        assert u.idToName[j] == oldName;
        if oldName == name { assert u.nameToId[oldName] == id; } else { assert oldName !in u.nameToId; }
      } else if name in t.nameToId && t.nameToId[name] != id {
        assert u.idToName[t.nameToId[name]] == name && u.nameToId[name] == id;
      }
    }
  }

  /** Under a wrong old name, an edit of an existing role either fails after the id has lost its name and nothing else,
      or, if the name is another role's, takes that role's name away and goes through. */
  lemma EditUnderWrongName(t: Tables, id: Id, oldName: string, name: string, parent: Option<Id>)
    requires IndexesAgree(t) && id in t.idToName && t.idToName[id] != oldName
    ensures var (r, u) := Edited(t, id, oldName, name, parent);
      if oldName !in t.nameToId then r.Raised? && u == t.(idToName := t.idToName - {id})
      else
        var other := t.nameToId[oldName];
        && r.Ok? && other != id && other in u.idToName && u.idToName[other] == oldName
        && (name != oldName ==> oldName !in u.nameToId) && (name == oldName ==> u.nameToId[oldName] == id)
  {
  }

  lemma CreateSingleParent(t: Tables, id: Id, name: string, parent: Option<Id>)
    requires SingleParent(t.roles) && id !in t.roles
    ensures SingleParent(Created(t, id, name, parent).roles)
  {
  }

  /** Only the role itself and its names are touched. */
  ghost predicate OthersKept(t: Tables, u: Tables, id: Id) {
    && u.roles.Keys == t.roles.Keys + {id} && (forall x :: x in t.roles && x != id ==> u.roles[x] == t.roles[x])
    && u.allowed == t.allowed && u.denied == t.denied
    && (forall x :: x != id ==> (x in u.idToName <==> x in t.idToName))
    && (forall x :: x != id && x in u.idToName ==> u.idToName[x] == t.idToName[x])
  }

  /** A new role has the given name and the given parent, if it is one, and no other. */
  lemma CreationIsRecorded(t: Tables, id: Id, name: string, parent: Option<Id>)
    requires id !in t.roles
    ensures var u := Created(t, id, name, parent);
      && OthersKept(t, u, id)
      && id in u.idToName && u.idToName[id] == name && name in u.nameToId && u.nameToId[name] == id
      && forall p :: p in u.roles[id] <==> parent == Some(p) && p != 0 && p != id
  {
  }

  /** An edit that goes through replaces name and parent; the old parent is forgotten. */
  lemma EditIsRecorded(t: Tables, id: Id, oldName: string, name: string, parent: Option<Id>)
    requires IndexesAgree(t) && Edited(t, id, oldName, name, parent).0.Ok?
    ensures var u := Edited(t, id, oldName, name, parent).1;
      && OthersKept(t, u, id)
      && id in u.idToName && u.idToName[id] == name && name in u.nameToId && u.nameToId[name] == id
      && (oldName != name ==> oldName !in u.nameToId)
      && forall p :: p in u.roles[id] <==> parent == Some(p) && p != 0 && p != id
  {
  }

  lemma {:induction false} ClimbsPastNewRole(roles: Roles, id: Id, p: Id, y: Id, a: Id, n: nat)
    requires id !in roles && (y == id || Under(roles, p, y)) && Climbs(roles[id := {p}], y, a, n)
    ensures a == id || Under(roles, p, a)
    decreases n
  {
    if n > 0 {
      var q :| q in roles[id := {p}][y] && Climbs(roles[id := {p}], q, a, n - 1);
      if y == id {
        assert Climbs(roles, p, p, 0);
      } else {
        var m: nat :| Climbs(roles, p, y, m);
        assert Climbs(roles, y, q, 1) by { assert Climbs(roles, q, q, 0); }
        ClimbsTransitive(roles, p, y, q, m, 1);
      }
      ClimbsPastNewRole(roles, id, p, q, a, n - 1);
    }
  }

  /** A role created under another inherits from itself, its parent, and everything its parent inherits from, and from
      nothing else; so it belongs to every family that its parent belongs to. */
  lemma CreatedInherits(t: Tables, id: Id, name: string, p: Id)
    requires id !in t.roles && p != 0 && p != id
    ensures var u := Created(t, id, name, Some(p));
      && (forall a :: Under(u.roles, id, a) <==> a == id || Under(t.roles, p, a))
      && forall d :: p in Family(t.roles, d) ==>
        p in Family(u.roles, d) && id in Family(u.roles, d) && id !in Without(u, Family(u.roles, d)).roles
  {
    var u := Created(t, id, name, Some(p));
    assert u.roles[id] == {p};
    assert u.roles == t.roles[id := {p}];
    forall a ensures Under(u.roles, id, a) <==> a == id || Under(t.roles, p, a) {
      if Under(u.roles, id, a) {
        var n: nat :| Climbs(u.roles, id, a, n);
        ClimbsPastNewRole(t.roles, id, p, id, a, n);
      }
      assert Climbs(u.roles, id, id, 0);
      if Under(t.roles, p, a) {
        UnderStays(t.roles, u.roles, p, a);
        UnderParent(u.roles, id, p, a);
      }
    }
    forall d | p in Family(t.roles, d) ensures p in Family(u.roles, d) { UnderStays(t.roles, u.roles, p, d); }
  }

  lemma UnderStays(small: Roles, big: Roles, x: Id, d: Id)
    requires (forall y :: y in small ==> y in big && big[y] == small[y]) && Under(small, x, d)
    ensures Under(big, x, d)
  {
    var n: nat :| Climbs(small, x, d, n);
    ClimbsMonotone(small, big, x, d, n);
  }

  datatype Event =
    | Create(id: Id, name: string, parent: Option<Id>)
    | Edit(id: Id, oldName: string, name: string, parent: Option<Id>)
    | Delete(id: Id)

  /** What the callers, who hold unique ids and names, ask for. */
  ghost predicate Allowed(t: Tables, e: Event) {
    match e
    case Create(id, name, _) => id !in t.roles && name !in t.nameToId
    case Edit(id, oldName, name, _) =>
      id in t.idToName && t.idToName[id] == oldName && (name in t.nameToId ==> t.nameToId[name] == id)
    case Delete(id) => id in t.roles
  }

  ghost function Next(t: Tables, e: Event): Tables {
    if !Allowed(t, e) then t
    else
      match e
      case Create(id, name, parent) => Created(t, id, name, parent)
      case Edit(id, oldName, name, parent) => Edited(t, id, oldName, name, parent).1
      case Delete(id) => Without(t, Family(t.roles, id))
  }

  ghost function Run(t: Tables, es: seq<Event>): Tables
    decreases |es|
  {
    if es == [] then t else Run(Next(t, es[0]), es[1..])
  }

  /** Over every such run the indexes agree with the role table and nobody has two parents, which is what deletion asks
      for. */
  lemma {:induction false} RunKeepsIndexes(t: Tables, es: seq<Event>)
    requires IndexesAgree(t) && SingleParent(t.roles)
    ensures IndexesAgree(Run(t, es)) && SingleParent(Run(t, es).roles)
    decreases |es|
  {
    if es != [] {
      if Allowed(t, es[0]) {
        match es[0]
        case Create(id, name, parent) =>
          CreateKeepsIndexesExactlyWhen(t, id, name, parent);
          CreateSingleParent(t, id, name, parent);
        case Edit(id, oldName, name, parent) => EditKeepsIndexesExactlyWhen(t, id, oldName, name, parent);
        case Delete(id) => WithoutAgrees(t, Family(t.roles, id));
      }
      RunKeepsIndexes(Next(t, es[0]), es[1..]);
    }
  }

  // ---------------------------------------------------------------- decisions

  ghost function Ancestors(roles: Roles, x: Id): iset<Id> { iset a | Under(roles, x, a) }

  ghost function On(triples: set<Triple>, who: iset<Id>): set<Triple> { set g | g in triples && g.role in who }

  /** What the base library says of one role: any function of the role's ancestors and of the triples on them. */
  datatype Answer = Allowed | Denied | Undecided

  type Decide = (iset<Id>, set<Triple>, set<Triple>, Id, string) -> Answer

  ghost function RoleAnswer(decide: Decide, t: Tables, role: Id, perm: Id, resource: string): Answer {
    var a := Ancestors(t.roles, role);
    decide(a, On(t.allowed, a), On(t.denied, a), perm, resource)
  }

  lemma {:induction false} SurvivorsClimbOn(roles: Roles, d: Id, x: Id, a: Id, n: nat)
    requires !Under(roles, x, d) && Climbs(roles, x, a, n)
    ensures Climbs(roles - Family(roles, d), x, a, n) && !Under(roles, a, d)
    decreases n
  {
    if n > 0 {
      var p :| p in roles[x] && Climbs(roles, p, a, n - 1);
      if Under(roles, p, d) { UnderParent(roles, x, p, d); }
      SurvivorsClimbOn(roles, d, p, a, n - 1);
      assert p in (roles - Family(roles, d))[x];
    }
  }

  lemma AncestorsSurvive(roles: Roles, d: Id, x: Id)
    requires !Under(roles, x, d)
    ensures Ancestors(roles - Family(roles, d), x) == Ancestors(roles, x)
    ensures forall a :: a in Ancestors(roles, x) ==> a !in Family(roles, d)
  {
    forall a ensures a in Ancestors(roles, x) <==> a in Ancestors(roles - Family(roles, d), x) {
      if a in Ancestors(roles, x) {
        var n: nat :| Climbs(roles, x, a, n);
        SurvivorsClimbOn(roles, d, x, a, n);
      }
      if a in Ancestors(roles - Family(roles, d), x) {
        var n: nat :| Climbs(roles - Family(roles, d), x, a, n);
        ClimbsMonotone(roles - Family(roles, d), roles, x, a, n);
      }
    }
    forall a | a in Ancestors(roles, x) ensures a !in Family(roles, d) {
      var n: nat :| Climbs(roles, x, a, n);
      SurvivorsClimbOn(roles, d, x, a, n);
    }
  }

  /** Deleting a role changes no decision for a role that does not descend from it. */
  lemma DeleteChangesNoOtherDecision(decide: Decide, t: Tables, d: Id, role: Id, perm: Id, resource: string)
    requires !Under(t.roles, role, d)
    ensures RoleAnswer(decide, Without(t, Family(t.roles, d)), role, perm, resource)
      == RoleAnswer(decide, t, role, perm, resource)
  {
    AncestorsSurvive(t.roles, d, role);
    var a := Ancestors(t.roles, role);
    var gone := Family(t.roles, d);
    assert On(WithoutRoles(t.allowed, gone), a) == On(t.allowed, a);
    assert On(WithoutRoles(t.denied, gone), a) == On(t.denied, a);
  }

  /** How the base library sums up the answers for all of a client's roles: any function of them. */
  type SumUp = map<Id, Answer> -> bool

  ghost function Answers(decide: Decide, t: Tables, roles: set<Id>, perm: Id, resource: string): map<Id, Answer> {
    map r | r in roles :: RoleAnswer(decide, t, r, perm, resource)
  }

  ghost predicate IsClientAllowed(decide: Decide, sumUp: SumUp, t: Tables, clientToRoles: map<string, set<Id>>,
                                  client: string, perm: Id, resource: string)
  {
    client in clientToRoles && sumUp(Answers(decide, t, clientToRoles[client], perm, resource))
  }

  /** Nor any decision for a client none of whose roles descends from it. */
  lemma DeleteChangesNoOtherClient(decide: Decide, sumUp: SumUp, t: Tables, d: Id, clientToRoles: map<string, set<Id>>,
                                   client: string, perm: Id, resource: string)
    requires forall r :: HasRole(clientToRoles, client, r) ==> !Under(t.roles, r, d)
    ensures IsClientAllowed(decide, sumUp, Without(t, Family(t.roles, d)), clientToRoles, client, perm, resource)
      <==> IsClientAllowed(decide, sumUp, t, clientToRoles, client, perm, resource)
  {
    if client in clientToRoles {
      var u, roles := Without(t, Family(t.roles, d)), clientToRoles[client];
      forall r | r in roles
        ensures RoleAnswer(decide, u, r, perm, resource) == RoleAnswer(decide, t, r, perm, resource)
      {
        assert HasRole(clientToRoles, client, r);
        DeleteChangesNoOtherDecision(decide, t, d, r, perm, resource);
      }
      assert Answers(decide, u, roles, perm, resource) == Answers(decide, t, roles, perm, resource);
    }
  }

  lemma WithoutRolesTwice(triples: set<Triple>, a: set<Id>, b: set<Id>)
    ensures WithoutRoles(WithoutRoles(triples, a), b) == WithoutRoles(triples, a + b)
  {
  }

  /** The state while the children of d are being deleted: d has left the table and the indexes, not yet the
      permissions. */
  function Halfway(t: Tables, d: Id, gone: set<Id>): Tables {
    Without(t, {d} + gone).(allowed := WithoutRoles(t.allowed, gone), denied := WithoutRoles(t.denied, gone))
  }

  lemma HalfwayStart(t: Tables, d: Id)
    requires IndexesAgree(t) && d in t.roles
    ensures Halfway(t, d, {}) == Tables(t.roles - {d}, t.allowed, t.denied, t.idToName - {d},
                                        map n | n in t.nameToId && t.nameToId[n] != d :: t.nameToId[n])
    ensures Progress(t.roles, d, {}, (t.roles - {d}).Keys)
  {
    assert {d} + {} == {d};
    assert WithoutRoles(t.allowed, {}) == t.allowed && WithoutRoles(t.denied, {}) == t.denied;
  }

  /** The loop's state: what is left, what is gone, and what is still to be looked at. */
  ghost predicate Midway(t: Tables, d: Id, gone: set<Id>, rest: set<Id>, now: Tables) {
    && IndexesAgree(t) && SingleParent(t.roles) && d in t.roles
    && now == Halfway(t, d, gone) && Progress(t.roles, d, gone, rest)
  }

  lemma SnapshotStart(t: Tables, d: Id)
    requires IndexesAgree(t) && d in t.roles
    ensures Halfway(t, d, {}).roles == t.roles - {d} && Progress(t.roles, d, {}, (t.roles - {d}).Keys)
  {
    HalfwayStart(t, d);
  }

  lemma HalfwayAgrees(t: Tables, d: Id, gone: set<Id>)
    requires IndexesAgree(t) && SingleParent(t.roles)
    ensures IndexesAgree(Halfway(t, d, gone)) && SingleParent(Halfway(t, d, gone).roles)
  {
    WithoutAgrees(t, {d} + gone);
  }

  lemma HalfwayStep(t: Tables, d: Id, gone: set<Id>, more: set<Id>)
    ensures Without(Halfway(t, d, gone), more) == Halfway(t, d, gone + more)
  {
    WithoutTwice(t, {d} + gone, more);
    assert {d} + gone + more == {d} + (gone + more);
    WithoutRolesTwice(t.allowed, gone, more);
    WithoutRolesTwice(t.denied, gone, more);
  }

  lemma NoMore(a: set<Id>, b: set<Id>)
    requires a <= b
    ensures |a| <= |b|
  {
    assert b == a + (b - a);
  }

  /** One round of the loop over the children. */
  lemma ChildStep(t: Tables, d: Id, gone: set<Id>, rest: set<Id>, c: Id)
    requires IndexesAgree(t) && SingleParent(t.roles) && d in t.roles && c in rest && Progress(t.roles, d, gone, rest)
    requires c in t.roles && c != d && d in t.roles[c]
    ensures var now := Halfway(t, d, gone); var more := Family(now.roles, c);
      && IndexesAgree(now) && SingleParent(now.roles) && c in now.roles && now.roles == t.roles - ({d} + gone)
      && Without(now, more) == Halfway(t, d, gone + more) && Progress(t.roles, d, gone + more, rest - {c})
  {
    HalfwayAgrees(t, d, gone);
    ChildRemoved(t.roles, d, gone, rest, c);
    HalfwayStep(t, d, gone, Family(t.roles - ({d} + gone), c));
  }

  lemma HalfwayEnd(t: Tables, d: Id)
    requires IndexesAgree(t) && SingleParent(t.roles) && d in t.roles
    ensures var family := Family(t.roles, d); var h := Halfway(t, d, family - {d});
      h.(allowed := WithoutRoles(h.allowed, {d}), denied := WithoutRoles(h.denied, {d})) == Without(t, family)
    ensures IndexesAgree(Without(t, Family(t.roles, d))) && SingleParent(Without(t, Family(t.roles, d)).roles)
  {
    var gone := Family(t.roles, d) - {d};
    assert Climbs(t.roles, d, d, 0);
    assert {d} + gone == Family(t.roles, d) && gone + {d} == Family(t.roles, d);
    WithoutRolesTwice(t.allowed, gone, {d});
    WithoutRolesTwice(t.denied, gone, {d});
    WithoutAgrees(t, Family(t.roles, d));
  }

  /** What is gone descends from d and is closed towards children; of the children of d, exactly those in `rest`
      remain. */
  ghost predicate Progress(roles: Roles, d: Id, gone: set<Id>, rest: set<Id>) {
    && gone <= (roles - {d}).Keys
    && (forall x :: x in gone ==> Under(roles, x, d))
    && (forall y, p :: y in roles && y != d && p in roles[y] && p in gone ==> y in gone)
    && (forall e :: e in roles && e != d && d in roles[e] ==> (e in rest <==> e !in gone))
  }

  /** Deleting one more child adds its family to what is gone, keeps that set closed, and spares the other children of
      d. */
  lemma ChildRemoved(roles: Roles, d: Id, gone: set<Id>, rest: set<Id>, c: Id)
    requires SingleParent(roles) && d in roles && Progress(roles, d, gone, rest)
    requires c in rest && c in roles && c != d && d in roles[c]
    ensures c in roles - ({d} + gone)
    ensures Progress(roles, d, gone + Family(roles - ({d} + gone), c), rest - {c})
  {
    var now := roles - ({d} + gone);
    var more := Family(now, c);
    assert Climbs(now, c, c, 0);
    forall x | x in more ensures Under(roles, x, d) {
      var n: nat :| Climbs(now, x, c, n);
      ClimbsMonotone(now, roles, x, c, n);
      assert Climbs(roles, d, d, 0);
      assert Climbs(roles, c, d, 1);
      ClimbsTransitive(roles, x, c, d, n, 1);
    }
    forall y, p | y in roles && y != d && p in roles[y] && p in gone + more ensures y in gone + more {
      if p !in gone && y !in gone { UnderParent(now, y, p, c); }
    }
    forall e | e in now && d in roles[e] && e != c ensures e !in more {
      SiblingNotUnder(now, d, c, e);
    }
  }

  /** When every child of d is gone and the set is closed, exactly the descendants of d are gone. */
  lemma FamilyFound(roles: Roles, d: Id, gone: set<Id>)
    requires d in roles && Progress(roles, d, gone, {})
    ensures {d} + gone == Family(roles, d)
  {
    assert Climbs(roles, d, d, 0);
    forall x | x in Family(roles, d) ensures x in {d} + gone {
      var n: nat :| Climbs(roles, x, d, n);
      ClosedContains(roles, {d} + gone, x, d, n);
    }
  }
}
