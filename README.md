# FinanceApp core, modelled in Dafny

FinanceApp is a personal-finance backend: users, spending categories, budgets and transactions,
kept in a relational store, with accounts and logins held by an external identity provider
(Keycloak). This project models the three pieces of logic that carry its behaviour and proves
what they guarantee:

- **User provisioning** (`UserService`). A new user's account is requested from the identity
  provider first, always with the realm role `ROLE_user`; only when an id comes back is the local
  record, stamped with that id, saved. Deleting a user is a soft delete: the account is deleted at
  the identity provider, whose answer is ignored, and the local record is kept with
  `active = false`. The identity provider is a class over its list of accounts, with the
  outcomes of `KeycloakService`: create returns an id or nothing, delete returns false when
  nobody matches or the call fails, and lookups take the first match.
- **Role derivation** (`AuthenticationRoleConverter`), a pure function from token claims to a set
  of authority strings: every role of the `roles` claim with the prefix `ROLE_`, as the framework's
  default converter reads that claim (a string cut at its spaces, or a list item by item), and,
  unprefixed, the roles under `resource_access[appName].roles` and under no other entry.
- **Table operations** of `CategoryService`, `BudgetService` and `TransactionService`:
  update-if-present-else-throw with the path id forced onto the record, delete that answers with
  the prior value, the caller's username stamped as owner, and the request-to-entity mapping on
  create.

Layout: `common.dfy` (Option, Result, the exceptions), `table.dfy` (the store: a class holding a
`map<int, T>` and the identity counter), `entities.dfy` (the entities, the request payloads, the
transaction type mapping), `identity_provider.dfy`, `user_service.dfy`, `category_service.dfy`,
`budget_service.dfy`, `transaction_service.dfy`, `role_converter.dfy`, and `scenarios.dfy`
(client methods that chain the services: provision then deactivate, a failing identity provider,
create then delete, a budget for a stored category).

Services are classes whose tables are `Table` objects; each state-changing method states the
whole new table in terms of the old one, and keeps the invariant that every row carries the id it
is stored under. The caller's username (the `preferred_username` claim), the clock reading, the id
the identity provider assigns to a new account, and failures of the identity provider and of the
store are parameters.

Modelling decisions:
- The store's save follows one rule: a record without an id goes under a fresh key from the
  table's counter, and a record with an id goes under that key, replacing what was there. For an id
  that is stored this is what JPA's merge does; for one that is not, see Left out below.
- Deleting an absent key is silently ignored by the store, as Spring Data JPA 3 does; a store
  failure on delete (a parameter) leaves the table unchanged and is the operation's failure.
- `deleteUser` returns an Optional that is always present once it returns; the model returns the
  record itself.
- The Keycloak admin client answers a create for a taken username with a "conflict" response and
  does not throw, so the lookup that follows finds the existing account: `createKeycloakUser` then
  resets that account's password and returns its id. The model follows this.
- Facts of the code the model keeps: `createUser` does not set `active` (the `@DefaultValue` annotation on `User.active` has no effect
  on stored entities, so it stays as the request gave it); `deleteUser` deactivates the record even
  when the identity provider's delete failed; no username or password is checked for emptiness;
  and no service compares the caller with a record's owner.
- `model/dto/BudgetDTO.java` is not part of this model. `BudgetService` reads only its
  `category_id`; the payload here also has a `limit_amount`, as `Budget` does. That field is an
  assumption, and the intended behaviour in the finding below rests on it.
- The framework's `JwtGrantedAuthoritiesConverter` is not part of this model's sources; its reading
  of the `roles` claim is modelled after its documented behaviour: a string with text is cut with
  `split(" ")`, a list is read item by item with each item cast to `String` (a null becoming the
  text "null" once the prefix is prepended), and a claim of any other kind, or none, grants
  nothing.

## Model

| member | source | states |
|---|---|---|
| Tables.Table.KeyForSave | src/test/java/ch/modul295/yannisstebler/FinanceApp/tests/DBTest.java:26-27 | a record saved without an id is stored under a key no row uses; one with an id under that id |
| Tables.Table.Put | src/main/java/ch/modul295/yannisstebler/FinanceApp/services/CategoryService.java:38 | the write half of save: the table afterwards is the old one with the record under the key, inserted or overwritten |
| Tables.Table.FindById | src/main/java/ch/modul295/yannisstebler/FinanceApp/services/CategoryService.java:27 | present exactly when the key is stored, and then the stored record |
| Tables.Table.FindAll | src/main/java/ch/modul295/yannisstebler/FinanceApp/services/CategoryService.java:23 | a record is in the result exactly when some key stores it |
| Tables.Table.ExistsById | src/main/java/ch/modul295/yannisstebler/FinanceApp/services/CategoryService.java:36 | true exactly when a row is stored under the key, the row findById gives |
| Tables.Table.DeleteById | src/test/java/ch/modul295/yannisstebler/FinanceApp/tests/CategoryServiceTest.java:82-87 | the row is removed (an absent key is no error); a failing store removes nothing and reports it |
| Entities.TypeName | src/main/java/ch/modul295/yannisstebler/FinanceApp/services/TransactionService.java:57 | Enum.name() of an entity type: INCOME or EXPENSE, a different name for each constant |
| Entities.DtoName | src/main/java/ch/modul295/yannisstebler/FinanceApp/services/TransactionService.java:57 | Enum.name() of a DTO type: INCOME or EXPENSE, a different name for each constant |
| Entities.ValueOf | src/main/java/ch/modul295/yannisstebler/FinanceApp/model/Transaction.java:40-42 | valueOf succeeds exactly for INCOME and EXPENSE, giving the constant of that name |
| Entities.DtoValueOf | src/main/java/ch/modul295/yannisstebler/FinanceApp/model/dto/TransactionDTO.java:19-21 | the DTO enum's valueOf succeeds exactly for INCOME and EXPENSE, giving the constant of that name |
| Entities.ToEntityType | src/main/java/ch/modul295/yannisstebler/FinanceApp/services/TransactionService.java:57 | the entity type has the same constant name as the DTO type, and the mapping never throws |
| Entities.FromEntityType | src/main/java/ch/modul295/yannisstebler/FinanceApp/model/dto/TransactionDTO.java:19-21 | the reverse mapping, also by constant name |
| Entities.TypeMappingIsBijection | src/main/java/ch/modul295/yannisstebler/FinanceApp/services/TransactionService.java:57 | the two mappings undo each other, so the DTO-to-entity mapping is a bijection |
| Entities.TypeMappingKeepsConstant | src/main/java/ch/modul295/yannisstebler/FinanceApp/services/TransactionService.java:57 | INCOME maps to INCOME and EXPENSE to EXPENSE |
| IdentityProvider.FirstMatch | src/main/java/ch/modul295/yannisstebler/FinanceApp/services/KeycloakService.java:62-66 | the index of the first account with the username, or none exactly when no account has it |
| IdentityProvider.Register | src/main/java/ch/modul295/yannisstebler/FinanceApp/services/KeycloakService.java:31-37 | after the create call some account has the username; a new one is appended only when none had it |
| IdentityProvider.Provision | src/main/java/ch/modul295/yannisstebler/FinanceApp/services/KeycloakService.java:24-57 | an unreachable server changes nothing; a failure after the create leaves the created account |
| IdentityProvider.Unregister | src/main/java/ch/modul295/yannisstebler/FinanceApp/services/KeycloakService.java:73-90 | a failing call or a username nobody has changes nothing; otherwise one account is gone |
| IdentityProvider.KeycloakService.CreateKeycloakUser | src/main/java/ch/modul295/yannisstebler/FinanceApp/services/KeycloakService.java:24-57 | an id is returned exactly when no step fails and the role exists, and it is the id of the first account with the username |
| IdentityProvider.KeycloakService.DeleteKeycloakUser | src/main/java/ch/modul295/yannisstebler/FinanceApp/services/KeycloakService.java:73-90 | true exactly when the call works and someone has the username; then the first match is deleted |
| IdentityProvider.ProvisionGrantsRole | src/main/java/ch/modul295/yannisstebler/FinanceApp/services/KeycloakService.java:38-52 | a completed create gives the first account with the username the password and the role, and changes no other account |
| IdentityProvider.FailedProvisionLeavesAccount | src/main/java/ch/modul295/yannisstebler/FinanceApp/services/KeycloakService.java:37-56 | once the create goes through for a new username, the new account is appended and stays, also when a later step fails; when the lookup or the reset failed it has no password |
| IdentityProvider.FailedGrantKeepsPassword | src/main/java/ch/modul295/yannisstebler/FinanceApp/services/KeycloakService.java:45-49 | when the role is missing or granting it fails, the first account with the username keeps the new password but gains no role, and no other account changes |
| IdentityProvider.ProvisionReusesTakenUsername | src/main/java/ch/modul295/yannisstebler/FinanceApp/services/KeycloakService.java:37-45 | a create for a taken username adds no account and resets the existing account's password |
| IdentityProvider.UnregisterRemovesFirstMatch | src/main/java/ch/modul295/yannisstebler/FinanceApp/services/KeycloakService.java:78-85 | a delete takes out exactly the first account with the username and keeps the rest |
| Users.UserService.GetAllUsers | src/main/java/ch/modul295/yannisstebler/FinanceApp/services/UserService.java:26-28 | exactly the stored records, one per stored id: ids are distinct, so none is lost |
| Users.UserService.GetUserById | src/main/java/ch/modul295/yannisstebler/FinanceApp/services/UserService.java:30-33 | present exactly when the id is stored, and then the stored record |
| Users.UserService.CreateUser | src/main/java/ch/modul295/yannisstebler/FinanceApp/services/UserService.java:35-47 | the account is requested with the user's username, password and ROLE_user; with no id back it throws and the table is unchanged; otherwise the record is saved with the returned id, which is the id of the account holding ROLE_user |
| Users.UserService.UpdateUser | src/main/java/ch/modul295/yannisstebler/FinanceApp/services/UserService.java:49-57 | an unknown id throws "User not found" and changes nothing; a known id is overwritten with the record, its id forced to the path id, and no other key changes |
| Users.UserService.DeleteUser | src/main/java/ch/modul295/yannisstebler/FinanceApp/services/UserService.java:59-74 | an unknown id throws before the identity provider is called and changes nothing; otherwise, whatever the identity provider answers, the record stays under its id with active false and is returned |
| Categories.CategoryService.GetAllCategories | src/main/java/ch/modul295/yannisstebler/FinanceApp/services/CategoryService.java:22-24 | exactly the stored categories, one per stored id: ids are distinct, so none is lost |
| Categories.CategoryService.GetCategoryById | src/main/java/ch/modul295/yannisstebler/FinanceApp/services/CategoryService.java:26-29 | present exactly when the id is stored, and then the stored category |
| Categories.CategoryService.CreateCategory | src/main/java/ch/modul295/yannisstebler/FinanceApp/services/CategoryService.java:31-33 | one save: the returned category is the given one under its own id or a fresh one, and it is in the table |
| Categories.CategoryService.UpdateCategory | src/main/java/ch/modul295/yannisstebler/FinanceApp/services/CategoryService.java:35-43 | an unknown id throws "Category not found" and changes nothing; a known id is overwritten with the category under the path id |
| Categories.CategoryService.DeleteCategory | src/main/java/ch/modul295/yannisstebler/FinanceApp/services/CategoryService.java:45-49 | answers with the prior value (possibly none) and the id is gone, other keys unchanged; a store failure always propagates |
| Budgets.NewBudgetAsWritten | src/main/java/ch/modul295/yannisstebler/FinanceApp/services/BudgetService.java:38-42 | as written, the new budget is owned by the caller, holds the stored category, and has no limit whatever the request says |
| Budgets.AsWrittenDropsRequestedLimit | src/main/java/ch/modul295/yannisstebler/FinanceApp/services/BudgetService.java:42 | a request with a limit of 100 yields a budget without a limit |
| Budgets.NewBudget | src/main/java/ch/modul295/yannisstebler/FinanceApp/services/BudgetService.java:38-42 | corrected: the new budget also takes the request's limit |
| Budgets.NewBudgetFixesOnlyLimit | src/main/java/ch/modul295/yannisstebler/FinanceApp/services/BudgetService.java:42 | the corrected budget differs from the one built as written in the limit only |
| Budgets.BudgetService.GetAllBudgets | src/main/java/ch/modul295/yannisstebler/FinanceApp/services/BudgetService.java:29-31 | exactly the stored budgets, one per stored id: ids are distinct, so none is lost |
| Budgets.BudgetService.GetBudgetById | src/main/java/ch/modul295/yannisstebler/FinanceApp/services/BudgetService.java:33-36 | present exactly when the id is stored, and then the stored budget |
| Budgets.BudgetService.CreateBudget | src/main/java/ch/modul295/yannisstebler/FinanceApp/services/BudgetService.java:38-44 | a null or unknown category id throws and saves nothing; otherwise a budget owned by the caller, with the stored category and no limit whatever the request asks for, is saved under a fresh id |
| Budgets.BudgetService.UpdateBudget | src/main/java/ch/modul295/yannisstebler/FinanceApp/services/BudgetService.java:46-56 | an unknown id throws "Budget not found" and changes nothing; a known id is overwritten with the budget, its owner set to the caller and its id to the path id |
| Budgets.BudgetService.DeleteBudget | src/main/java/ch/modul295/yannisstebler/FinanceApp/services/BudgetService.java:58-62 | answers with the prior value and the id is gone, other keys unchanged; a store failure propagates |
| Transactions.TransactionService.GetAllTransactions | src/main/java/ch/modul295/yannisstebler/FinanceApp/services/TransactionService.java:32-34 | exactly the stored transactions, one per stored id: ids are distinct, so none is lost |
| Transactions.TransactionService.GetTransactionById | src/main/java/ch/modul295/yannisstebler/FinanceApp/services/TransactionService.java:42-44 | present exactly when the id is stored, and then the stored transaction |
| Transactions.TransactionService.CreateTransaction | src/main/java/ch/modul295/yannisstebler/FinanceApp/services/TransactionService.java:53-61 | a null type, a null category id or an unknown category throws and saves nothing; otherwise a transaction owned by the caller, with the request's amount, the type of the same name, the clock's date and the stored category is saved under a fresh id |
| Transactions.TransactionService.UpdateTransaction | src/main/java/ch/modul295/yannisstebler/FinanceApp/services/TransactionService.java:72-80 | an unknown id throws "Transaction not found" and changes nothing; a known id is overwritten with the transaction, owner set to the caller, id to the path id, other fields as given |
| Transactions.TransactionService.DeleteTransaction | src/main/java/ch/modul295/yannisstebler/FinanceApp/services/TransactionService.java:88-92 | answers with the prior value and the id is gone, other keys unchanged; a store failure propagates |
| RoleConverter.HasText | src/main/java/ch/modul295/yannisstebler/FinanceApp/security/AuthenticationRoleConverter.java:48 | a role string can become an authority exactly when it has a character that is not whitespace |
| RoleConverter.Authorities | src/main/java/ch/modul295/yannisstebler/FinanceApp/security/AuthenticationRoleConverter.java:46-49 | the application's role list converts exactly when every item is a non-blank string |
| RoleConverter.AuthoritiesContents | src/main/java/ch/modul295/yannisstebler/FinanceApp/security/AuthenticationRoleConverter.java:47-49 | the converted roles are exactly the listed strings, added as they are |
| RoleConverter.AuthoritiesFailure | src/main/java/ch/modul295/yannisstebler/FinanceApp/security/AuthenticationRoleConverter.java:47-49 | a failed conversion is the exception of the first item that is not a usable role |
| RoleConverter.AuthoritiesAppend | src/main/java/ch/modul295/yannisstebler/FinanceApp/security/AuthenticationRoleConverter.java:47-49 | listing one more usable role adds exactly that role |
| RoleConverter.PrefixedIsFromRolesClaim | src/main/java/ch/modul295/yannisstebler/FinanceApp/security/AuthenticationRoleConverter.java:25-26 | an authority comes from the roles claim exactly when it is ROLE_ followed by one of its roles |
| RoleConverter.ConvertGrants | src/main/java/ch/modul295/yannisstebler/FinanceApp/security/AuthenticationRoleConverter.java:35-65 | conversion fails exactly on a roles list holding something other than strings and nulls (a cast failure, reported first) or a malformed resource_access, and otherwise grants exactly ROLE_ followed by each role the roles claim names, together with the roles under resource_access[appName].roles |
| RoleConverter.NoAppEntryGrantsClaimRolesOnly | src/main/java/ch/modul295/yannisstebler/FinanceApp/security/AuthenticationRoleConverter.java:39-52 | with no resource_access, no object for the application, or no roles in it, only the prefixed roles claim is granted |
| RoleConverter.OtherEntriesIgnored | src/main/java/ch/modul295/yannisstebler/FinanceApp/security/AuthenticationRoleConverter.java:41-43 | entries of resource_access under any other key never change the outcome |
| RoleConverter.OtherClaimsIgnored | src/main/java/ch/modul295/yannisstebler/FinanceApp/security/AuthenticationRoleConverter.java:25-36 | claims other than roles and resource_access never change the outcome |
| RoleConverter.Pieces | src/main/java/ch/modul295/yannisstebler/FinanceApp/security/AuthenticationRoleConverter.java:63 | the pieces of the roles string between its spaces: at least one, none holding a space |
| RoleConverter.SplitOnSpace | src/main/java/ch/modul295/yannisstebler/FinanceApp/security/AuthenticationRoleConverter.java:63 | split(" "): the pieces without the trailing empty ones, so none holds a space, only empty pieces are dropped, and the last one kept is not empty |
| RoleConverter.PiecesJoin | src/main/java/ch/modul295/yannisstebler/FinanceApp/security/AuthenticationRoleConverter.java:63 | cutting the roles string at its spaces loses nothing: the pieces joined with spaces give it back |
| RoleConverter.DropTrailingEmpty | src/main/java/ch/modul295/yannisstebler/FinanceApp/security/AuthenticationRoleConverter.java:63 | split drops exactly the trailing empty pieces: what remains is a prefix ending in a non-empty piece |
| RoleConverter.ItemRoles | src/main/java/ch/modul295/yannisstebler/FinanceApp/security/AuthenticationRoleConverter.java:63 | a roles list is read exactly when every item is a string or null, else the cast fails |
| RoleConverter.ItemRolesContents | src/main/java/ch/modul295/yannisstebler/FinanceApp/security/AuthenticationRoleConverter.java:63 | the names read from a roles list are its strings, and "null" when it holds a null |
| RoleConverter.ClaimRoles | src/main/java/ch/modul295/yannisstebler/FinanceApp/security/AuthenticationRoleConverter.java:63 | reading the roles claim can fail only with a cast failure |
| RoleConverter.ClaimRolesContents | src/main/java/ch/modul295/yannisstebler/FinanceApp/security/AuthenticationRoleConverter.java:63 | reading fails exactly on a list holding something other than strings and nulls, and otherwise yields exactly the names the claim holds |
| RoleConverter.ClaimAuthorities | src/main/java/ch/modul295/yannisstebler/FinanceApp/security/AuthenticationRoleConverter.java:26 | every authority of the default converter has text, so none is refused |
| RoleConverter.SpaceSeparatedIsList | src/main/java/ch/modul295/yannisstebler/FinanceApp/security/AuthenticationRoleConverter.java:63 | a roles string with text grants what the list of its words grants |
| RoleConverter.AppEntry | src/main/java/ch/modul295/yannisstebler/FinanceApp/security/AuthenticationRoleConverter.java:41-43 | the fields of resource_access[appName] when that entry is a JSON object, and no fields otherwise |
| RoleConverter.ExtractResourceRoles | src/main/java/ch/modul295/yannisstebler/FinanceApp/security/AuthenticationRoleConverter.java:35-53 | every application role granted has text; the only failures are a failed cast and a blank role; no resource_access grants nothing |
| RoleConverter.Convert | src/main/java/ch/modul295/yannisstebler/FinanceApp/security/AuthenticationRoleConverter.java:61-65 | every authority granted has text, and the only exceptions are a failed cast and a blank application role |
| RoleConverter.SharedAuthoritiesCountOnce | src/main/java/ch/modul295/yannisstebler/FinanceApp/security/AuthenticationRoleConverter.java:62-65 | the number of authorities is the two sources' sizes less the authorities both produce |
| RoleConverter.MoreClaimRolesKeepAuthorities | src/main/java/ch/modul295/yannisstebler/FinanceApp/security/AuthenticationRoleConverter.java:62-65 | adding a role to a roles list claim adds exactly its ROLE_ authority and removes none |
| RoleConverter.MoreAppRolesKeepAuthorities | src/main/java/ch/modul295/yannisstebler/FinanceApp/security/AuthenticationRoleConverter.java:46-65 | adding a usable role to the application's entry adds exactly that authority and removes none |

## Findings

| source | as written | input that shows it | evidently intended | confidence | as-written member | corrected member |
|---|---|---|---|---|---|---|
| src/main/java/ch/modul295/yannisstebler/FinanceApp/services/BudgetService.java:42 | the limit is copied from the budget being built, which has none yet, so the requested limit never reaches the budget (whose limit column is declared not nullable) | a request naming a stored category with limit 100 gives a budget without a limit (Budgets.AsWrittenDropsRequestedLimit) | the limit is taken from the request | not executed; high | Budgets.NewBudgetAsWritten | Budgets.NewBudget |

Budgets.BudgetService.CreateBudget models the code as written and saves budgets without a limit;
Budgets.NewBudget is the corrected builder, and Budgets.NewBudgetFixesOnlyLimit shows that it
differs from the one the service uses in the limit only.

## Left out

- Budgets.BudgetService.GetBudgetById: the category is a copy of the category row taken when the record was saved; the code keeps a @ManyToOne association (only the category's key is stored), so reading the record back gives the category's current row, and a later update of that category shows through.
- Transactions.TransactionService.GetTransactionById: the category is a copy of the category row taken when the record was saved; the code keeps a @ManyToOne association (only the category's key is stored), so reading the record back gives the category's current row, and a later update of that category shows through.
- Budgets.BudgetService.UpdateBudget: the request's category is stored as given; the code's save merges the association by the category's id, so the stored record refers to the stored category row and not to the request's copy of it.
- Transactions.TransactionService.UpdateTransaction: the request's category is stored as given; the code's save merges the association by the category's id, so the stored record refers to the stored category row and not to the request's copy of it.
- Budgets.BudgetService.CreateBudget: the budget built as written has no limit, and the database's not-null constraint on the limit column would refuse the insert; saves never fail in the model, so it is stored.
- Tables.Table.KeyForSave: a save whose id is set but not stored goes under that id in the model; JPA's merge of an entity with a generated id instead inserts a copy under a fresh id (Hibernate before 6.6) or throws an optimistic-lock failure (from 6.6). This reaches `createUser` and `createCategory` with a request that carries an id, and no other caller: the update methods check that the id is stored first, and the other creates build a record without an id.
- Controllers, the Swagger controller and the security filter chain (`SecurityConfig`): HTTP routing, status codes and `@RolesAllowed` checks belong to the web framework.
- `KeycloakConfig` and the network side of `KeycloakService`: the identity provider is a list of accounts with failure parameters; its case-insensitive username matching is not modelled.
- RoleConverter.Convert: the default converter's reading of the `roles` claim follows the framework's documented behaviour, as said above; its source is not part of this model.
- The `JwtAuthenticationToken` that `convert` wraps the authorities in: the model returns the authority set only.
- Database constraints (`nullable = false`, `unique = true`, for instance on `Transaction.type` and `Transaction.date`) and foreign keys: enforcement belongs to the database, so saves never fail in the model.
- Store failures on save and find: only the delete failure, which the tests exercise, is a parameter.
- The exception translation the repository proxies perform (a null id passed to `findById` surfaces wrapped): the model reports the underlying IllegalArgumentException.
- Null strings: usernames, passwords, e-mails and names are plain strings; nullable references are modelled only where the code's behaviour depends on them.
- The order of `findAll` lists: lists are returned as sets; the `GetAll` members state that the set has one record per stored id.
- `BigDecimal` amounts are reals; no arithmetic is done on them.
