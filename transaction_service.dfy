/** TransactionService: transactions are created from a request payload, stamped with the
    caller's username and the current time, and tied to a stored category. The caller's username
    and the clock reading are parameters. */
module Transactions {
  import opened Common
  import opened Entities
  import opened Tables

  class TransactionService {
    const transactions: Table<Transaction>
    const categories: Table<Category>

    ghost predicate Valid()
      reads this, transactions
    {
      transactions.Valid() && Keyed(transactions.rows, (t: Transaction) => t.id)
    }

    constructor (transactions: Table<Transaction>, categories: Table<Category>)
      requires transactions.Valid() && Keyed(transactions.rows, (t: Transaction) => t.id)
      ensures Valid() && this.transactions == transactions && this.categories == categories
    {
      this.transactions := transactions;
      this.categories := categories;
    }

    /** getAllTransactions: exactly the stored transactions. */
    method GetAllTransactions() returns (all: set<Transaction>)
      requires Valid()
      ensures forall t :: t in all <==> exists k :: k in transactions.rows && transactions.rows[k] == t
      ensures |all| == |transactions.rows|
    {
      all := transactions.FindAll();
      KeyedRecordsDistinct(transactions.rows, (t: Transaction) => t.id);
    }

    /** getTransactionById: present exactly when the id is stored, and then the stored one. */
    method GetTransactionById(id: int) returns (r: Option<Transaction>)
      ensures r.Some? <==> id in transactions.rows
      ensures r.Some? ==> r.value == transactions.rows[id]
    {
      r := transactions.FindById(id);
    }

    /** createTransaction: owner from the caller, amount from the request, type mapped by name,
        date from the clock (the request's date is not used), category looked up by id. A missing
        type throws before the category is looked up; nothing is saved on any failure. */
    method CreateTransaction(username: string, dto: TransactionDto, now: Date) returns (r: Result<Transaction>)
      requires Valid()
      modifies transactions
      ensures Valid()
      ensures r.Failure? ==> transactions.rows == old(transactions.rows)
      ensures dto.kind.None? ==> r == Failure(NullPointer)
      ensures dto.kind.Some? && dto.categoryId.None? ==>
        r == Failure(IllegalArgument("The given id must not be null"))
      ensures dto.kind.Some? && dto.categoryId.Some? && dto.categoryId.value !in categories.rows ==>
        r == Failure(NoSuchElement)
      ensures dto.kind.Some? && dto.categoryId.Some? && dto.categoryId.value in categories.rows ==>
        && r.Success? && r.value.id.Some?
        && r.value.keycloakUsername == Some(username)
        && r.value.amount == dto.amount
        && r.value.kind == Some(ToEntityType(dto.kind.value))
        && r.value.date == Some(now)
        && r.value.category == Some(categories.rows[dto.categoryId.value])
        && r.value.id.value !in old(transactions.rows)
        && transactions.rows == old(transactions.rows)[r.value.id.value := r.value]
    {
      var transaction := Transaction(None, None, None, None, None, None);
      transaction := transaction.(keycloakUsername := Some(username));
      transaction := transaction.(amount := dto.amount);
      if dto.kind.None? {
        return Failure(NullPointer);
      }
      transaction := transaction.(kind := Some(ToEntityType(dto.kind.value)));
      transaction := transaction.(date := Some(now));
      if dto.categoryId.None? {
        return Failure(IllegalArgument("The given id must not be null"));
      }
      var category := categories.FindById(dto.categoryId.value);
      if category.None? {
        return Failure(NoSuchElement);
      }
      transaction := transaction.(category := category);
      var key := transactions.KeyForSave(transaction.id);
      var saved := transaction.(id := Some(key));
      transactions.Put(key, saved);
      r := Success(saved);
    }

    /** updateTransaction: overwrite an existing transaction under the path id, now owned by the
        caller, its other fields as given; unknown ids are refused. */
    method UpdateTransaction(username: string, id: int, transaction: Transaction) returns (r: Result<Transaction>)
      requires Valid()
      modifies transactions
      ensures Valid()
      ensures id !in old(transactions.rows) ==>
        r == Failure(IllegalArgument("Transaction not found")) && transactions.rows == old(transactions.rows)
      ensures id in old(transactions.rows) ==>
        var updated := transaction.(keycloakUsername := Some(username), id := Some(id));
        r == Success(updated) && transactions.rows == old(transactions.rows)[id := updated]
    {
      if transactions.ExistsById(id) {
        var updated := transaction.(keycloakUsername := Some(username));
        updated := updated.(id := Some(id));
        transactions.Put(id, updated);
        r := Success(updated);
      } else {
        r := Failure(IllegalArgument("Transaction not found"));
      }
    }

    /** deleteTransaction: answers with what was stored under the id (possibly nothing) and
        removes it; a failing store surfaces as the call's failure. */
    method DeleteTransaction(id: int, storeFails: bool) returns (r: Result<Option<Transaction>>)
      requires Valid()
      modifies transactions
      ensures Valid()
      ensures storeFails ==> r == Failure(StoreFailure) && transactions.rows == old(transactions.rows)
      ensures !storeFails ==>
        && r == Success(if id in old(transactions.rows) then Some(old(transactions.rows)[id]) else None)
        && transactions.rows == old(transactions.rows) - {id}
    {
      var deleted := transactions.FindById(id);
      var ok := transactions.DeleteById(id, storeFails);
      if !ok {
        return Failure(StoreFailure);
      }
      r := Success(deleted);
    }
  }
}
