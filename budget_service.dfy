/** BudgetService: budgets are created from a request payload, stamped with the caller's
    username, and tied to a stored category. The caller's username is a parameter here (the
    `preferred_username` claim of the caller's token). */
module Budgets {
  import opened Common
  import opened Entities
  import opened Tables

  /** The budget createBudget builds, as the code is written: owner and category are set, and the
      limit is copied from the budget being built, which has none yet. */
  function NewBudgetAsWritten(username: string, category: Category, dto: BudgetDto): (b: Budget)
    ensures b.limitAmount == None
    ensures b.id == None && b.keycloakUsername == Some(username) && b.category == Some(category)
  {
    var blank := Budget(None, None, None, None);
    var owned := blank.(keycloakUsername := Some(username));
    var linked := owned.(category := Some(category));
    linked.(limitAmount := linked.limitAmount)
  }

  /** Whatever limit the request carries, the budget built as written has none: a request with a
      limit of 100 yields a budget without a limit. */
  lemma AsWrittenDropsRequestedLimit(username: string, category: Category)
    ensures var dto := BudgetDto(Some(1), Some(100.0));
      NewBudgetAsWritten(username, category, dto).limitAmount != dto.limitAmount
  {
  }

  /** The budget createBudget evidently means to build: the limit comes from the request. */
  function NewBudget(username: string, category: Category, dto: BudgetDto): (b: Budget)
    ensures b.limitAmount == dto.limitAmount
    ensures b.id == None && b.keycloakUsername == Some(username) && b.category == Some(category)
  {
    Budget(None, Some(username), Some(category), dto.limitAmount)
  }

  /** The corrected budget differs from the one built as written in the limit only. */
  lemma NewBudgetFixesOnlyLimit(username: string, category: Category, dto: BudgetDto)
    ensures NewBudget(username, category, dto) ==
            NewBudgetAsWritten(username, category, dto).(limitAmount := dto.limitAmount)
  {
  }

  class BudgetService {
    const budgets: Table<Budget>
    const categories: Table<Category>

    ghost predicate Valid()
      reads this, budgets
    {
      budgets.Valid() && Keyed(budgets.rows, (b: Budget) => b.id)
    }

    constructor (budgets: Table<Budget>, categories: Table<Category>)
      requires budgets.Valid() && Keyed(budgets.rows, (b: Budget) => b.id)
      ensures Valid() && this.budgets == budgets && this.categories == categories
    {
      this.budgets := budgets;
      this.categories := categories;
    }

    /** getAllBudgets: exactly the stored budgets. */
    method GetAllBudgets() returns (all: set<Budget>)
      requires Valid()
      ensures forall b :: b in all <==> exists k :: k in budgets.rows && budgets.rows[k] == b
      ensures |all| == |budgets.rows|
    {
      all := budgets.FindAll();
      KeyedRecordsDistinct(budgets.rows, (b: Budget) => b.id);
    }

    /** getBudgetById: present exactly when the id is stored, and then the stored budget. */
    method GetBudgetById(id: int) returns (r: Option<Budget>)
      ensures r.Some? <==> id in budgets.rows
      ensures r.Some? ==> r.value == budgets.rows[id]
    {
      r := budgets.FindById(id);
    }

    /** createBudget, as written: the category must be stored; the new budget belongs to the
        caller, gets a fresh id, and has no limit whatever the request asks for. */
    method CreateBudget(username: string, dto: BudgetDto) returns (r: Result<Budget>)
      requires Valid()
      modifies budgets
      ensures Valid()
      ensures dto.categoryId.None? ==>
        r == Failure(IllegalArgument("The given id must not be null")) && budgets.rows == old(budgets.rows)
      ensures dto.categoryId.Some? && dto.categoryId.value !in categories.rows ==>
        r == Failure(NoSuchElement) && budgets.rows == old(budgets.rows)
      ensures dto.categoryId.Some? && dto.categoryId.value in categories.rows ==>
        && r.Success? && r.value.id.Some?
        && r.value == NewBudgetAsWritten(username, categories.rows[dto.categoryId.value], dto).(id := r.value.id)
        && r.value.limitAmount == None
        && r.value.id.value !in old(budgets.rows)
        && budgets.rows == old(budgets.rows)[r.value.id.value := r.value]
    {
      if dto.categoryId.None? {
        return Failure(IllegalArgument("The given id must not be null"));
      }
      var category := categories.FindById(dto.categoryId.value);
      if category.None? {
        return Failure(NoSuchElement);
      }
      var budget := NewBudgetAsWritten(username, category.value, dto);
      var key := budgets.KeyForSave(budget.id);
      var saved := budget.(id := Some(key));
      budgets.Put(key, saved);
      r := Success(saved);
    }

    /** updateBudget: overwrite an existing budget under the path id, now owned by the caller;
        unknown ids are refused. */
    method UpdateBudget(username: string, id: int, budget: Budget) returns (r: Result<Budget>)
      requires Valid()
      modifies budgets
      ensures Valid()
      ensures id !in old(budgets.rows) ==>
        r == Failure(IllegalArgument("Budget not found")) && budgets.rows == old(budgets.rows)
      ensures id in old(budgets.rows) ==>
        var updated := budget.(keycloakUsername := Some(username), id := Some(id));
        r == Success(updated) && budgets.rows == old(budgets.rows)[id := updated]
    {
      if budgets.ExistsById(id) {
        var updated := budget.(keycloakUsername := Some(username));
        updated := updated.(id := Some(id));
        budgets.Put(id, updated);
        r := Success(updated);
      } else {
        r := Failure(IllegalArgument("Budget not found"));
      }
    }

    /** deleteBudget: answers with what was stored under the id (possibly nothing) and removes it;
        a failing store surfaces as the call's failure. */
    method DeleteBudget(id: int, storeFails: bool) returns (r: Result<Option<Budget>>)
      requires Valid()
      modifies budgets
      ensures Valid()
      ensures storeFails ==> r == Failure(StoreFailure) && budgets.rows == old(budgets.rows)
      ensures !storeFails ==>
        && r == Success(if id in old(budgets.rows) then Some(old(budgets.rows)[id]) else None)
        && budgets.rows == old(budgets.rows) - {id}
    {
      var deleted := budgets.FindById(id);
      var ok := budgets.DeleteById(id, storeFails);
      if !ok {
        return Failure(StoreFailure);
      }
      r := Success(deleted);
    }
  }
}
