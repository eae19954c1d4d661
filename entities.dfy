/** The rows of the ledger's tables (DomainLayer/EntityAbstactions/BaseEntity.cs and
    the entity classes under DomainLayer/EntityModels), as values. Navigation properties and the `RowVersion`
    concurrency stamp are not part of this model. */
module Entities {
  import opened Messages
  import opened Results

  /** A `Guid`; `EmptyGuid` is `Guid.Empty`. */
  type Guid = nat
  const EmptyGuid: Guid := 0

  /** A `DateTime` reading of the clock. */
  type Time = int

  newtype byte = x: int | 0 <= x < 256

  /** `BaseEntity`'s fields, common to every table, and the entity-specific payload `data`. */
  datatype Entity<+D> = Entity(
    id: Guid,
    active: bool,
    createdBy: Option<string>,
    updateBy: Option<string>,
    updateDate: Option<Time>,
    createdDate: Option<Time>,
    data: D)

  /** `Customer`; `balance` is the C# `decimal`, taken in whole units. */
  datatype CustomerData = CustomerData(
    name: string, surname: string, email: string, balance: int, accountId: Option<Guid>)

  /** `Transaction`: one transfer record. */
  datatype TransactionData = TransactionData(senderId: Guid, recipientId: Guid, transferredAmount: int)

  /** `Account`: login credentials. */
  datatype AccountData = AccountData(
    userName: string, passwordHash: seq<byte>, passwordSalt: seq<byte>, customerId: Option<Guid>)

  type Customer = Entity<CustomerData>
  type Transaction = Entity<TransactionData>
  type Account = Entity<AccountData>

  /** The primary-key constraint of every table. */
  ghost predicate UniqueIds<D>(rows: seq<Entity<D>>) {
    forall i, j :: 0 <= i < j < |rows| ==> rows[i].id != rows[j].id
  }

  /** The customer row with its balance replaced. */
  function WithBalance(c: Customer, balance: int): (c': Customer)
    ensures c'.data == c.data.(balance := balance)
    ensures c'.id == c.id && c'.active == c.active && c'.createdBy == c.createdBy && c'.updateBy == c.updateBy
    ensures c'.updateDate == c.updateDate && c'.createdDate == c.createdDate
    ensures balance == c.data.balance ==> c' == c
  {
    c.(data := c.data.(balance := balance))
  }

  /** `string.IsNullOrEmpty`. */
  predicate IsNullOrEmpty(s: Option<string>): (r: bool)
    ensures r <==> s == None || s == Some("")
  {
    s.None? || s.value == ""
  }
}
