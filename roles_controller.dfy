/** RolesController: creating, listing and deleting roles, and assigning a
    user exactly one role, over ASP.NET Identity's RoleManager and
    UserManager. The store is reduced to what the controller reads and
    changes: the roles by id and, for every user, the names of the roles the
    user holds. Whether an Identity call succeeds is an input. */
module Roles {

  import opened Envelopes
  import Text
  import Collections

  /** RoleResponseDto: a role and the number of users in it. */
  datatype RoleResponseDto = RoleResponseDto(id: string, name: string, totalUsers: nat)

  /** What an action sends back: a plain string, an anonymous `{ message }`
      object, the ModelState errors, or the role list. */
  datatype Body = Text(text: string) | Message(message: string) | ModelStateErrors | RoleList(roles: set<RoleResponseDto>)

  datatype RoleResult = RoleResult(status: int, body: Body)

  /** IdentityResult: success, or failure with its first error's description
      (`result.Errors.FirstOrDefault()?.Description`, absent when there is none). */
  datatype IdentityResult = Succeeded | Failed(firstError: Option<string>)

  /** The description of a failed result, or `fallback`. */
  function ErrorText(result: IdentityResult, fallback: string): string {
    if result.Failed? && result.firstError.Some? then result.firstError.value else fallback
  }

  /** CreateRolDto.RolName carries [Required] and [MinLength(1)]. */
  predicate IsValidRoleName(name: string) {
    !Text.IsBlank(name) && Text.Utf16Length(name) >= 1
  }

  /** The role and user-role tables of the Identity store. */
  class IdentityStore {
    /** Role id -> role name (AspNetRoles). */
    var roles: map<string, string>
    /** User id -> names of the roles the user holds (AspNetUsers, AspNetUserRoles). */
    var userRoles: map<string, set<string>>

    /** Role names are unique and users only hold existing roles. */
    ghost predicate Valid()
      reads this
    {
      && (forall i, j :: i in roles && j in roles && roles[i] == roles[j] ==> i == j)
      && (forall u :: u in userRoles ==> userRoles[u] <= roles.Values)
    }

    /** GetUsersInRoleAsync(name). */
    function UsersInRole(name: string): set<string>
      reads this
    {
      set u | u in userRoles && name in userRoles[u]
    }

    constructor ()
      ensures Valid() && roles == map[] && userRoles == map[]
    {
      roles, userRoles := map[], map[];
    }
  }

  /** The users' roles once the role `name` is gone (Identity deletes the
      AspNetUserRoles rows of a deleted role). */
  function WithoutRole(userRoles: map<string, set<string>>, name: string): (r: map<string, set<string>>)
    ensures r.Keys == userRoles.Keys
    ensures forall u :: u in r ==> name !in r[u] && r[u] + {name} >= userRoles[u] && r[u] <= userRoles[u]
  {
    map u | u in userRoles :: userRoles[u] - {name}
  }

  /** The role list GetRoles reports: one entry per role. */
  function RoleResponses(roles: map<string, string>, userRoles: map<string, set<string>>): set<RoleResponseDto> {
    set id | id in roles :: RoleResponseDto(id, roles[id], |set u | u in userRoles && roles[id] in userRoles[u]|)
  }

  /** The role list has one entry per role, each with that role's name and the
      number of users holding it. */
  lemma RoleResponsesDescribeEveryRole(roles: map<string, string>, userRoles: map<string, set<string>>)
    ensures |RoleResponses(roles, userRoles)| == |roles|
    ensures forall d :: d in RoleResponses(roles, userRoles) ==>
      && d.id in roles && d.name == roles[d.id]
      && d.totalUsers == |set u | u in userRoles && d.name in userRoles[u]|
    ensures forall id :: id in roles ==> exists d :: d in RoleResponses(roles, userRoles) && d.id == id
  {
    var f := (id: string) => RoleResponseDto(id, if id in roles then roles[id] else "",
      if id in roles then |set u | u in userRoles && roles[id] in userRoles[u]| else 0);
    Collections.InjectiveImageCardinality(roles.Keys, f);
    assert RoleResponses(roles, userRoles) == Collections.Image(roles.Keys, f);
    forall id | id in roles ensures exists d :: d in RoleResponses(roles, userRoles) && d.id == id {
      assert f(id) in RoleResponses(roles, userRoles);
    }
  }

  class RolesController {
    const store: IdentityStore

    constructor (store: IdentityStore)
      ensures this.store == store
    {
      this.store := store;
    }

    /** POST api/Roles: 400 for an invalid body or an existing name; otherwise
        the role is created under the fresh id `newId` when Identity accepts it. */
    method CreateRole(name: string, newId: string, created: bool) returns (r: RoleResult)
      requires store.Valid()
      requires newId !in store.roles
      modifies store
      ensures store.Valid()
      ensures !IsValidRoleName(name) ==> r == RoleResult(400, ModelStateErrors) && unchanged(store)
      ensures IsValidRoleName(name) && name in old(store.roles.Values) ==>
        r == RoleResult(400, Text("Rol already exits")) && unchanged(store)
      ensures IsValidRoleName(name) && name !in old(store.roles.Values) && !created ==>
        r == RoleResult(400, Text("Role created failed")) && unchanged(store)
      ensures IsValidRoleName(name) && name !in old(store.roles.Values) && created ==>
        && r == RoleResult(200, Message("Role created successfully"))
        && store.roles == old(store.roles)[newId := name]
        && store.userRoles == old(store.userRoles)
      ensures r.status == 200 <==> IsValidRoleName(name) && name !in old(store.roles.Values) && created
    {
      if !IsValidRoleName(name) {
        return RoleResult(400, ModelStateErrors);
      }
      if name in store.roles.Values {
        return RoleResult(400, Text("Rol already exits"));
      }
      if !created {
        return RoleResult(400, Text("Role created failed"));
      }
      ghost var before := store.roles;
      store.roles := store.roles[newId := name];
      forall n | n in before.Values ensures n in store.roles.Values {
        var k := Collections.KeyOf(before, n);
        assert store.roles[k] == n;
      }
      r := RoleResult(200, Message("Role created successfully"));
    }

    /** GET api/Roles: every role with the number of its users. */
    function GetRoles(): (r: RoleResult)
      reads store
      ensures r.status == 200 && r.body.RoleList?
      ensures |r.body.roles| == |store.roles|
      ensures forall d :: d in r.body.roles ==>
        d.id in store.roles && d.name == store.roles[d.id] && d.totalUsers == |store.UsersInRole(d.name)|
      ensures forall id :: id in store.roles ==> exists d :: d in r.body.roles && d.id == id
    {
      RoleResponsesDescribeEveryRole(store.roles, store.userRoles);
      RoleResult(200, RoleList(RoleResponses(store.roles, store.userRoles)))
    }

    /** DELETE api/Roles/{id}: 404 for an unknown id; otherwise the role, and
        every user's membership in it, is removed when Identity accepts. */
    method DeleteRole(id: string, deleted: bool) returns (r: RoleResult)
      requires store.Valid()
      modifies store
      ensures store.Valid()
      ensures id !in old(store.roles) ==> r == RoleResult(404, Text("Role not found.")) && unchanged(store)
      ensures id in old(store.roles) && !deleted ==> r == RoleResult(400, Text("Role deletion failed")) && unchanged(store)
      ensures id in old(store.roles) && deleted ==>
        && r == RoleResult(200, Message("Role deleted successfully"))
        && store.roles == old(store.roles) - {id}
        && store.userRoles == WithoutRole(old(store.userRoles), old(store.roles)[id])
        && store.UsersInRole(old(store.roles)[id]) == {}
    {
      if id !in store.roles {
        return RoleResult(404, Text("Role not found."));
      }
      if !deleted {
        return RoleResult(400, Text("Role deletion failed"));
      }
      var name := store.roles[id];
      RemovingRoleRemovesItsName(store.roles, id);
      store.roles := store.roles - {id};
      store.userRoles := WithoutRole(store.userRoles, name);
      r := RoleResult(200, Message("Role deleted successfully"));
    }

    /** POST api/Roles/assign: 404 for an unknown user or role; 200 and no
        change when the user already holds the role; otherwise all the user's
        roles are removed and then the new one is added, so on success the
        user holds exactly that role. */
    method AssignRole(userId: string, roleId: string, removal: IdentityResult, addition: IdentityResult)
      returns (r: RoleResult)
      requires store.Valid()
      modifies store
      ensures store.Valid()
      ensures store.roles == old(store.roles)
      ensures userId !in old(store.userRoles) ==> r == RoleResult(404, Text("User not found")) && unchanged(store)
      ensures userId in old(store.userRoles) && roleId !in old(store.roles) ==>
        r == RoleResult(404, Text("Role not found")) && unchanged(store)
      ensures userId in old(store.userRoles) && roleId in old(store.roles) ==>
        var name := old(store.roles)[roleId];
        var current := old(store.userRoles)[userId];
        && (name in current ==>
              r == RoleResult(200, Message("Usuario ya tiene el rol asignado")) && unchanged(store))
        && (name !in current && current != {} && removal.Failed? ==>
              r == RoleResult(400, Text(ErrorText(removal, "Error removing existing roles"))) && unchanged(store))
        && (name !in current && (current == {} || removal.Succeeded?) ==>
              && store.userRoles.Keys == old(store.userRoles).Keys
              && (forall u :: u in store.userRoles && u != userId ==> store.userRoles[u] == old(store.userRoles)[u])
              && (addition.Succeeded? ==>
                    && r == RoleResult(200, Message("Role asignado satisfactoriamente"))
                    && store.userRoles[userId] == {name})
              && (addition.Failed? ==>
                    && r == RoleResult(400, Text(ErrorText(addition, "Error assigning role")))
                    && store.userRoles[userId] == {}))
    {
      if userId !in store.userRoles {
        return RoleResult(404, Text("User not found"));
      }
      if roleId !in store.roles {
        return RoleResult(404, Text("Role not found"));
      }
      var name := store.roles[roleId];
      var current := store.userRoles[userId];
      if name in current {
        return RoleResult(200, Message("Usuario ya tiene el rol asignado"));
      }
      if current != {} {
        if removal.Failed? {
          return RoleResult(400, Text(ErrorText(removal, "Error removing existing roles")));
        }
        store.userRoles := store.userRoles[userId := {}];
      }
      if addition.Failed? {
        return RoleResult(400, Text(ErrorText(addition, "Error assigning role")));
      }
      store.userRoles := store.userRoles[userId := {name}];
      r := RoleResult(200, Message("Role asignado satisfactoriamente"));
    }
  }

  /** With unique names, removing a role removes exactly its name from the names in use. */
  lemma RemovingRoleRemovesItsName(roles: map<string, string>, id: string)
    requires id in roles
    requires forall i, j :: i in roles && j in roles && roles[i] == roles[j] ==> i == j
    ensures (roles - {id}).Values == roles.Values - {roles[id]}
  {
    var rest := roles - {id};
    forall n | n in roles.Values - {roles[id]} ensures n in rest.Values {
      var k := Collections.KeyOf(roles, n);
      assert rest[k] == n;
    }
    forall n | n in rest.Values ensures n in roles.Values - {roles[id]} {
      var k := Collections.KeyOf(rest, n);
      assert roles[k] == n;
    }
  }
}
