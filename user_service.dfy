/** UserService: keeps the local user table in step with the identity provider. */
module Users {
  import opened Common
  import opened Entities
  import opened Tables
  import opened IdentityProvider

  /** The realm role every new account is given. */
  const DefaultRole := "ROLE_user"

  class UserService {
    const users: Table<User>
    const keycloak: KeycloakService

    ghost predicate Valid()
      reads this, users
    {
      users.Valid() && Keyed(users.rows, (u: User) => u.id)
    }

    constructor (users: Table<User>, keycloak: KeycloakService)
      requires users.Valid() && Keyed(users.rows, (u: User) => u.id)
      ensures Valid() && this.users == users && this.keycloak == keycloak
    {
      this.users := users;
      this.keycloak := keycloak;
    }

    /** getAllUsers: exactly the stored records. */
    method GetAllUsers() returns (all: set<User>)
      requires Valid()
      ensures forall u :: u in all <==> exists k :: k in users.rows && users.rows[k] == u
      ensures |all| == |users.rows|
    {
      all := users.FindAll();
      KeyedRecordsDistinct(users.rows, (u: User) => u.id);
    }

    /** getUserById: present exactly when the id is stored, and then the stored record. */
    method GetUserById(id: int) returns (r: Option<User>)
      ensures r.Some? <==> id in users.rows
      ensures r.Some? ==> r.value == users.rows[id]
    {
      r := users.FindById(id);
    }

    /** createUser: the account is requested first, with the default role; only when the
        identity provider returns an id is the record, stamped with that id, saved. */
    method CreateUser(user: User, fault: CreateFault, freshId: string) returns (r: Result<User>)
      requires Valid()
      modifies users, keycloak
      ensures Valid()
      ensures keycloak.realmRoles == old(keycloak.realmRoles)
      ensures keycloak.accounts == Provision(old(keycloak.accounts), old(keycloak.realmRoles), user.username,
                                             user.password, DefaultRole, fault, freshId)
      ensures r.Success? <==> fault == NoFault && DefaultRole in old(keycloak.realmRoles)
      ensures r.Failure? ==> r.error == Runtime("Keycloak user creation failed") && users.rows == old(users.rows)
      ensures r.Success? ==>
        && FirstMatch(keycloak.accounts, user.username).Some?
        && var account := keycloak.accounts[FirstMatch(keycloak.accounts, user.username).value];
        && DefaultRole in account.roles
        && r.value.id.Some?
        && r.value == user.(id := r.value.id, keycloakId := Some(account.id))
        && users.rows == old(users.rows)[r.value.id.value := r.value]
        && (user.id.Some? ==> r.value.id == user.id)
        && (user.id.None? ==> r.value.id.value !in old(users.rows))
    {
      var keycloakUserId := keycloak.CreateKeycloakUser(user.username, user.password, DefaultRole, fault, freshId);
      if keycloakUserId.None? {
        return Failure(Runtime("Keycloak user creation failed"));
      }
      ProvisionGrantsRole(old(keycloak.accounts), keycloak.realmRoles, user.username, user.password,
                          DefaultRole, freshId);
      var stamped := user.(keycloakId := keycloakUserId);
      var key := users.KeyForSave(stamped.id);
      var saved := stamped.(id := Some(key));
      users.Put(key, saved);
      r := Success(saved);
    }

    /** updateUser: overwrite an existing record, under the path id; unknown ids are refused. */
    method UpdateUser(id: int, user: User) returns (r: Result<User>)
      requires Valid()
      modifies users
      ensures Valid()
      ensures id !in old(users.rows) ==>
        r == Failure(IllegalArgument("User not found")) && users.rows == old(users.rows)
      ensures id in old(users.rows) ==>
        && r == Success(user.(id := Some(id)))
        && users.rows == old(users.rows)[id := user.(id := Some(id))]
    {
      if users.ExistsById(id) {
        var updated := user.(id := Some(id));
        users.Put(id, updated);
        r := Success(updated);
      } else {
        r := Failure(IllegalArgument("User not found"));
      }
    }

    /** deleteUser: a soft delete. The account is deleted at the identity provider, whose answer
        is not looked at, and the record is kept with `active` cleared. */
    method DeleteUser(id: int, keycloakFails: bool) returns (r: Result<User>)
      requires Valid()
      modifies users, keycloak
      ensures Valid()
      ensures keycloak.realmRoles == old(keycloak.realmRoles)
      ensures id !in old(users.rows) ==>
        && r == Failure(IllegalArgument("User not found"))
        && users.rows == old(users.rows)
        && keycloak.accounts == old(keycloak.accounts)
      ensures id in old(users.rows) ==>
        var deactivated := old(users.rows)[id].(active := Some(false));
        && r == Success(deactivated)
        && users.rows == old(users.rows)[id := deactivated]
        && keycloak.accounts == Unregister(old(keycloak.accounts), old(users.rows)[id].username, keycloakFails)
    {
      var found := users.FindById(id);
      if found.None? {
        return Failure(IllegalArgument("User not found"));
      }
      var _ := keycloak.DeleteKeycloakUser(found.value.username, keycloakFails);
      var deactivated := found.value.(active := Some(false));
      var key := users.KeyForSave(deactivated.id);
      users.Put(key, deactivated);
      r := Success(deactivated);
    }
  }
}
