/** Client code that runs the services one after another and shows what their contracts let a
    caller conclude. */
module Scenarios {
  import opened Common
  import opened Entities
  import opened Tables
  import opened IdentityProvider
  import opened Users
  import opened Categories
  import opened Budgets

  /** A user is provisioned, then deactivated: the record keeps its id and the identity
      provider's id, is no longer active, and can still be read. */
  method ProvisionThenDeactivate()
  {
    var users := new Table<User>();
    var keycloak := new KeycloakService({DefaultRole});
    var service := new UserService(users, keycloak);
    var alice := User(None, "alice", "pw123", None, "alice@example.com", Some(true));
    var created := service.CreateUser(alice, NoFault, "kc-alice");
    assert created.Success?;
    var id := created.value.id.value;
    assert created.value.keycloakId == Some("kc-alice");
    var deleted := service.DeleteUser(id, false);
    assert keycloak.accounts == [];
    var found := service.GetUserById(id);
    assert found == Some(alice.(id := Some(id), keycloakId := Some("kc-alice"), active := Some(false)));
  }

  /** When the identity provider cannot be reached, no local record is written; when granting
      the role fails, none is written either, yet the account stays behind with its password; when
      the delete fails, the record is deactivated all the same. */
  method IdentityProviderFailures()
  {
    var users := new Table<User>();
    var keycloak := new KeycloakService({DefaultRole});
    var service := new UserService(users, keycloak);
    var bob := User(None, "bob", "secret", None, "bob@example.com", None);
    var refused := service.CreateUser(bob, Unreachable, "kc-bob");
    assert refused == Failure(Runtime("Keycloak user creation failed"));
    assert users.rows == map[];
    var halfDone := service.CreateUser(bob, GrantFails, "kc-bob");
    assert halfDone.Failure? && users.rows == map[];
    FailedGrantKeepsPassword([], {DefaultRole}, "bob", "secret", DefaultRole, GrantFails, "kc-bob");
    assert |keycloak.accounts| == 1 && keycloak.accounts[0].password == Some("secret");
    assert keycloak.accounts[0].roles == {};
    var created := service.CreateUser(bob, NoFault, "kc-other");
    assert created.value.keycloakId == Some("kc-bob");
    var id := created.value.id.value;
    var deleted := service.DeleteUser(id, true);
    assert deleted.Success? && deleted.value.active == Some(false);
    assert |keycloak.accounts| == 1;
  }

  /** Deleting a freshly created category gives it back and restores the table. */
  method CreateThenDeleteCategory(categories: Table<Category>, category: Category)
    requires categories.Valid() && Keyed(categories.rows, (c: Category) => c.id)
    requires category.id.None?
    modifies categories
    ensures categories.rows == old(categories.rows)
  {
    var service := new CategoryService(categories);
    var saved := service.CreateCategory(category);
    var deleted := service.DeleteCategory(saved.id.value, false);
    assert deleted == Success(Some(saved));
    assert categories.rows == old(categories.rows)[saved.id.value := saved] - {saved.id.value};
  }

  /** A budget can only be created for a stored category, and it is owned by its creator; the
      limit of the request does not reach it. */
  method BudgetForStoredCategory(username: string)
  {
    var categories := new Table<Category>();
    var budgets := new Table<Budget>();
    var categoryService := new CategoryService(categories);
    var budgetService := new BudgetService(budgets, categories);
    var missing := budgetService.CreateBudget(username, BudgetDto(Some(7), Some(250.0)));
    assert missing == Failure(NoSuchElement) && budgets.rows == map[];
    var food := categoryService.CreateCategory(Category(None, "Food", Some(username), None));
    var budget := budgetService.CreateBudget(username, BudgetDto(food.id, Some(250.0)));
    assert budget.Success? && budget.value.keycloakUsername == Some(username);
    assert budget.value.category == Some(food) && budget.value.limitAmount == None;
  }
}
