/** The external identity provider (Keycloak), seen only through createKeycloakUser and
    deleteKeycloakUser, the two calls the user service makes, and the id lookup the first of them
    makes. Its accounts are a list, in the order an exact-match username search returns them; the
    network and the server's failures are a `fault` parameter, and the id the server gives a new
    account is the `freshId` parameter. */
module IdentityProvider {
  import opened Common

  datatype Account = Account(id: string, username: string, password: Option<string>, roles: set<string>)

  /** How a create request ends: it runs through; the server cannot be reached, so nothing is
      created; looking up the new account's id or resetting its password fails, which leaves the
      account behind without a password; or granting the role fails once the password is set. */
  datatype CreateFault = NoFault | Unreachable | FailsAfterCreate | GrantFails

  /** The first account with that username (the search at KeycloakService.java:62 and :78 and the
      `getFirst()` / `get(0)` that follow it). */
  function FirstMatch(accounts: seq<Account>, username: string): (r: Option<nat>)
    ensures r.Some? ==> r.value < |accounts| && accounts[r.value].username == username
    ensures r.Some? ==> forall j :: 0 <= j < r.value ==> accounts[j].username != username
    ensures r.None? <==> forall j :: 0 <= j < |accounts| ==> accounts[j].username != username
  {
    if |accounts| == 0 then None
    else if accounts[0].username == username then Some(0)
    else match FirstMatch(accounts[1..], username)
      case None => None
      case Some(i) => Some(i + 1)
  }

  /** The accounts after the create call itself: a new enabled account without password or roles,
      unless the username is taken, in which case the server answers "conflict" without throwing and
      nothing is added. */
  function Register(accounts: seq<Account>, username: string, freshId: string): (r: seq<Account>)
    ensures FirstMatch(r, username).Some?
    ensures FirstMatch(accounts, username).Some? ==> r == accounts
    ensures FirstMatch(accounts, username).None? ==>
      r == accounts + [Account(freshId, username, None, {})]
  {
    if FirstMatch(accounts, username).Some? then accounts
    else
      var r := accounts + [Account(freshId, username, None, {})];
      assert r[|accounts|].username == username;
      r
  }

  /** The list with the entry at `i` taken out. */
  function RemoveAt(accounts: seq<Account>, i: nat): (r: seq<Account>)
    requires i < |accounts|
    ensures |r| == |accounts| - 1
    ensures forall j :: 0 <= j < i ==> r[j] == accounts[j]
    ensures forall j :: i <= j < |r| ==> r[j] == accounts[j + 1]
  {
    accounts[..i] + accounts[i + 1..]
  }

  /** The accounts after a create request, step by step as createKeycloakUser runs them. */
  function Provision(accounts: seq<Account>, realmRoles: set<string>, username: string, password: string,
                     role: string, fault: CreateFault, freshId: string): (r: seq<Account>)
    ensures fault == Unreachable ==> r == accounts
    ensures fault == FailsAfterCreate ==> r == Register(accounts, username, freshId)
  {
    if fault == Unreachable then accounts
    else
      var base := Register(accounts, username, freshId);
      var i := FirstMatch(base, username).value;
      if fault == FailsAfterCreate then base
      else if role !in realmRoles || fault == GrantFails then base[i := base[i].(password := Some(password))]
      else base[i := base[i].(password := Some(password), roles := base[i].roles + {role})]
  }

  /** The accounts after a delete request: the first match is gone, unless there is none or the
      call fails. */
  function Unregister(accounts: seq<Account>, username: string, fails: bool): (r: seq<Account>)
    ensures fails || FirstMatch(accounts, username).None? ==> r == accounts
    ensures !fails && FirstMatch(accounts, username).Some? ==> |r| == |accounts| - 1
  {
    var found := FirstMatch(accounts, username);
    if fails || found.None? then accounts else RemoveAt(accounts, found.value)
  }

  class KeycloakService {
    var accounts: seq<Account>
    /** The realm roles that exist on the server. */
    var realmRoles: set<string>

    constructor (realmRoles: set<string>)
      ensures this.accounts == [] && this.realmRoles == realmRoles
    {
      this.accounts := [];
      this.realmRoles := realmRoles;
    }

    /** createKeycloakUser: create the account, look up its id (first match), reset its
        password, grant the realm role, and return the id; null (None) when any step throws. */
    method CreateKeycloakUser(username: string, password: string, role: string, fault: CreateFault,
                              freshId: string) returns (userId: Option<string>)
      modifies this
      ensures realmRoles == old(realmRoles)
      ensures accounts == Provision(old(accounts), realmRoles, username, password, role, fault, freshId)
      ensures userId.Some? <==> fault == NoFault && role in realmRoles
      ensures userId.Some? ==>
        FirstMatch(accounts, username).Some? && userId.value == accounts[FirstMatch(accounts, username).value].id
    {
      if fault == Unreachable {
        return None;
      }
      accounts := Register(accounts, username, freshId);
      var i := FirstMatch(accounts, username).value;
      var id := accounts[i].id;
      if fault == FailsAfterCreate {
        return None;
      }
      ghost var base := accounts;
      accounts := accounts[i := accounts[i].(password := Some(password))];
      if role !in realmRoles || fault == GrantFails {
        return None;
      }
      accounts := accounts[i := accounts[i].(roles := accounts[i].roles + {role})];
      FirstMatchAfterUpdate(base, username, i, accounts[i]);
      userId := Some(id);
    }

    /** deleteKeycloakUser: false when the search finds nobody or anything throws; otherwise the
        first match is deleted and the answer is true. */
    method DeleteKeycloakUser(username: string, fails: bool) returns (deleted: bool)
      modifies this
      ensures realmRoles == old(realmRoles)
      ensures deleted <==> !fails && FirstMatch(old(accounts), username).Some?
      ensures accounts == Unregister(old(accounts), username, fails)
    {
      if fails {
        return false;
      }
      var found := FirstMatch(accounts, username);
      if found.None? {
        return false;
      }
      accounts := RemoveAt(accounts, found.value);
      deleted := true;
    }
  }

  /** A completed create leaves exactly one account changed: the first one with the username,
      which now has the password and the requested role. */
  lemma ProvisionGrantsRole(accounts: seq<Account>, realmRoles: set<string>, username: string,
                            password: string, role: string, freshId: string)
    requires role in realmRoles
    ensures var r := Provision(accounts, realmRoles, username, password, role, NoFault, freshId);
      && FirstMatch(r, username).Some?
      && var i := FirstMatch(r, username).value;
      && r[i].password == Some(password) && role in r[i].roles
      && (forall j :: 0 <= j < |accounts| && j != i ==> r[j] == accounts[j])
  {
    var base := Register(accounts, username, freshId);
    var i := FirstMatch(base, username).value;
    var r := Provision(accounts, realmRoles, username, password, role, NoFault, freshId);
    assert r == base[i := base[i].(password := Some(password), roles := base[i].roles + {role})];
    FirstMatchAfterUpdate(base, username, i, r[i]);
  }

  /** Once the create call itself goes through for a new username, the new account is appended
      and stays, also when a later step fails and the caller is told nothing was created; when the
      lookup or the password reset failed it has no password. */
  lemma FailedProvisionLeavesAccount(accounts: seq<Account>, realmRoles: set<string>, username: string,
                                     password: string, role: string, fault: CreateFault, freshId: string)
    requires FirstMatch(accounts, username).None? && fault != Unreachable
    ensures var r := Provision(accounts, realmRoles, username, password, role, fault, freshId);
      && |r| == |accounts| + 1 && r[..|accounts|] == accounts
      && r[|accounts|].id == freshId && r[|accounts|].username == username
      && (fault == FailsAfterCreate ==> r[|accounts|] == Account(freshId, username, None, {}))
  {
  }

  /** When the role does not exist or granting it fails, the password reset has already happened:
      the first account with the username has the new password but gains no role, and the caller
      is told nothing was created. */
  lemma FailedGrantKeepsPassword(accounts: seq<Account>, realmRoles: set<string>, username: string,
                                 password: string, role: string, fault: CreateFault, freshId: string)
    requires fault == GrantFails || (fault == NoFault && role !in realmRoles)
    ensures var base := Register(accounts, username, freshId);
      var r := Provision(accounts, realmRoles, username, password, role, fault, freshId);
      && FirstMatch(r, username) == FirstMatch(base, username)
      && var i := FirstMatch(r, username).value;
      && r[i].password == Some(password) && r[i].roles == base[i].roles
      && (forall j :: 0 <= j < |base| && j != i ==> r[j] == base[j])
  {
  }

  /** A create for a username that is already taken adds no account: it takes over the existing
      one, resetting its password. */
  lemma ProvisionReusesTakenUsername(accounts: seq<Account>, realmRoles: set<string>, username: string,
                                     password: string, role: string, freshId: string)
    requires FirstMatch(accounts, username).Some?
    ensures var r := Provision(accounts, realmRoles, username, password, role, NoFault, freshId);
      var i := FirstMatch(accounts, username).value;
      && |r| == |accounts| && r[i].id == accounts[i].id && r[i].password == Some(password)
  {
  }

  /** A delete removes the first account with the username and keeps every other one, in order. */
  lemma UnregisterRemovesFirstMatch(accounts: seq<Account>, username: string)
    requires FirstMatch(accounts, username).Some?
    ensures var r := Unregister(accounts, username, false);
      var i := FirstMatch(accounts, username).value;
      && multiset(r) + multiset{accounts[i]} == multiset(accounts)
      && (forall j :: 0 <= j < i ==> r[j].username != username)
  {
    var i := FirstMatch(accounts, username).value;
    assert accounts == accounts[..i] + [accounts[i]] + accounts[i + 1..];
  }

  /** Replacing the first match by an account with the same username keeps it the first match. */
  lemma FirstMatchAfterUpdate(accounts: seq<Account>, username: string, i: nat, a: Account)
    requires FirstMatch(accounts, username) == Some(i)
    requires a.username == username
    ensures FirstMatch(accounts[i := a], username) == Some(i)
  {
    assert accounts[i := a][i].username == username;
  }
}
