/** The persisted entities and the request payloads the services accept. A Java reference that
    may be null is an Option; a `Long id` is None until the store assigns one. */
module Entities {
  import opened Common

  /** java.util.Date, as milliseconds since the epoch. */
  type Date = int

  /** BigDecimal amounts; no rounding is involved anywhere in the services. */
  type Decimal = real

  /** A local user record (table `users`). `active` is a nullable Boolean. */
  datatype User = User(
    id: Option<int>,
    username: string,
    password: string,
    keycloakId: Option<string>,
    email: string,
    active: Option<bool>)

  /** A spending category (table `catergories`), owned by the user named in keycloakUsername. */
  datatype Category = Category(
    id: Option<int>,
    name: string,
    keycloakUsername: Option<string>,
    description: Option<string>)

  /** A spending limit for one category (table `budgets`). The category is held as a copy of its
      row, not as a reference to it. */
  datatype Budget = Budget(
    id: Option<int>,
    keycloakUsername: Option<string>,
    category: Option<Category>,
    limitAmount: Option<Decimal>)

  /** Transaction.Type. */
  datatype TransactionType = Income | Expense

  /** A booked income or expense (table `transactions`). The category is held as a copy of its
      row, not as a reference to it. */
  datatype Transaction = Transaction(
    id: Option<int>,
    keycloakUsername: Option<string>,
    category: Option<Category>,
    amount: Option<Decimal>,
    kind: Option<TransactionType>,
    date: Option<Date>)

  /** TransactionDTO.Type, a separate enum with the same constant names. */
  datatype DtoType = Income | Expense

  /** TransactionDTO: the body of a create-transaction request. */
  datatype TransactionDto = TransactionDto(
    categoryId: Option<int>,
    amount: Option<Decimal>,
    kind: Option<DtoType>,
    date: Option<Date>)

  /** BudgetDTO: the body of a create-budget request. */
  datatype BudgetDto = BudgetDto(
    categoryId: Option<int>,
    limitAmount: Option<Decimal>)

  /** Enum.name() of a DTO type: the constant's own name, different for the two constants. */
  function DtoName(t: DtoType): (r: string)
    ensures r == "INCOME" || r == "EXPENSE"
    ensures r == "INCOME" <==> t == DtoType.Income
  {
    match t
    case Income => "INCOME"
    case Expense => "EXPENSE"
  }

  /** Enum.name() of an entity type: the constant's own name, different for the two constants. */
  function TypeName(t: TransactionType): (r: string)
    ensures r == "INCOME" || r == "EXPENSE"
    ensures r == "INCOME" <==> t == TransactionType.Income
  {
    match t
    case Income => "INCOME"
    case Expense => "EXPENSE"
  }

  /** Transaction.Type.valueOf: the constant with that name; None where Java throws
      IllegalArgumentException. */
  function ValueOf(name: string): (r: Option<TransactionType>)
    ensures r.Some? <==> name == "INCOME" || name == "EXPENSE"
    ensures r.Some? ==> TypeName(r.value) == name
  {
    if name == "INCOME" then Some(TransactionType.Income)
    else if name == "EXPENSE" then Some(TransactionType.Expense)
    else None
  }

  /** TransactionDTO.Type.valueOf. */
  function DtoValueOf(name: string): (r: Option<DtoType>)
    ensures r.Some? <==> name == "INCOME" || name == "EXPENSE"
    ensures r.Some? ==> DtoName(r.value) == name
  {
    if name == "INCOME" then Some(DtoType.Income)
    else if name == "EXPENSE" then Some(DtoType.Expense)
    else None
  }

  /** `Transaction.Type.valueOf(dto.getType().name())`: the mapping goes through the constant's
      name, and every DTO name is an entity name, so it never throws. */
  function ToEntityType(t: DtoType): (r: TransactionType)
    ensures TypeName(r) == DtoName(t)
  {
    ValueOf(DtoName(t)).value
  }

  /** The reverse mapping, also by name. */
  function FromEntityType(r: TransactionType): (t: DtoType)
    ensures DtoName(t) == TypeName(r)
  {
    DtoValueOf(TypeName(r)).value
  }

  /** The name mapping is a bijection: the two directions undo each other. */
  lemma TypeMappingIsBijection(t: DtoType, r: TransactionType)
    ensures FromEntityType(ToEntityType(t)) == t
    ensures ToEntityType(FromEntityType(r)) == r
    ensures ToEntityType(t) == r <==> FromEntityType(r) == t
  {
  }

  /** INCOME maps to INCOME and EXPENSE to EXPENSE. */
  lemma TypeMappingKeepsConstant()
    ensures ToEntityType(DtoType.Income) == TransactionType.Income
    ensures ToEntityType(DtoType.Expense) == TransactionType.Expense
  {
  }
}
