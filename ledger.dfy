/** Reference definitions for what the transfer handlers do to the customer table: `Credit`
    changes one customer's balance by a delta and nothing else, `Total` is the money held by
    all customers, `BalanceOf` is one customer's balance. The handlers are proved against them. */
module Ledger {
  import opened Messages
  import opened Results
  import opened Entities
  import opened Repository

  /** The sum of every customer's balance, active or not. */
  function Total(rows: seq<Customer>): int
    decreases |rows|
  {
    if |rows| == 0 then 0 else rows[0].data.balance + Total(rows[1..])
  }

  /** How many rows carry the id (at most one under the primary key). */
  function Holders(rows: seq<Customer>, id: Guid): nat
    decreases |rows|
  {
    if |rows| == 0 then 0 else (if rows[0].id == id then 1 else 0) + Holders(rows[1..], id)
  }

  /** The balance of the customer with the id (its first row), 0 for an unknown id. */
  function BalanceOf(rows: seq<Customer>, id: Guid): int
  {
    match FirstIndex(rows, HasId(id))
    case None => 0
    case Some(k) => rows[k].data.balance
  }

  /** One row after crediting `delta` to the customer `id`. */
  function Credited(c: Customer, id: Guid, delta: int): Customer
  {
    if c.id == id then WithBalance(c, c.data.balance + delta) else c
  }

  /** The table with `delta` added to the balance of the customer `id`; every other row and every
      other field is as before. */
  function Credit(rows: seq<Customer>, id: Guid, delta: int): (r: seq<Customer>)
    ensures |r| == |rows|
    ensures forall k :: 0 <= k < |rows| ==> r[k] == Credited(rows[k], id, delta)
  {
    seq(|rows|, k requires 0 <= k < |rows| => Credited(rows[k], id, delta))
  }

  /** A credit moves the total by `delta` once per row holding the id. */
  lemma {:induction false} TotalOfCredit(rows: seq<Customer>, id: Guid, delta: int)
    ensures Total(Credit(rows, id, delta)) == Total(rows) + delta * Holders(rows, id)
    decreases |rows|
  {
    if |rows| > 0 {
      assert Credit(rows, id, delta)[1..] == Credit(rows[1..], id, delta);
      TotalOfCredit(rows[1..], id, delta);
    }
  }

  /** Under the primary key a present id is held by exactly one row, an absent one by none. */
  lemma {:induction false} HoldersUnderKey(rows: seq<Customer>, id: Guid)
    requires UniqueIds(rows)
    ensures Holders(rows, id) == if exists k :: 0 <= k < |rows| && rows[k].id == id then 1 else 0
    decreases |rows|
  {
    if |rows| > 0 {
      var rest := rows[1..];
      assert UniqueIds(rest) by {
        forall i, j | 0 <= i < j < |rest| ensures rest[i].id != rest[j].id {
          assert rest[i] == rows[i + 1] && rest[j] == rows[j + 1];
        }
      }
      HoldersUnderKey(rest, id);
      if rows[0].id == id {
        forall k | 0 <= k < |rest| ensures rest[k].id != id {
          assert rest[k] == rows[k + 1];
        }
      } else {
        if exists k :: 0 <= k < |rows| && rows[k].id == id {
          var k :| 0 <= k < |rows| && rows[k].id == id;
          assert rest[k - 1] == rows[k];
        }
      }
    }
  }

  /** The total moves by exactly `delta` when the customer exists. */
  lemma TotalOfOneCredit(rows: seq<Customer>, id: Guid, delta: int)
    requires UniqueIds(rows)
    requires exists k :: 0 <= k < |rows| && rows[k].id == id
    ensures Total(Credit(rows, id, delta)) == Total(rows) + delta
  {
    TotalOfCredit(rows, id, delta);
    HoldersUnderKey(rows, id);
  }

  /** A credit changes the credited customer's balance by `delta` and no other balance. */
  lemma BalanceOfCredit(rows: seq<Customer>, id: Guid, delta: int, other: Guid)
    ensures other != id ==> BalanceOf(Credit(rows, id, delta), other) == BalanceOf(rows, other)
    ensures other == id && (exists k :: 0 <= k < |rows| && rows[k].id == id) ==>
      BalanceOf(Credit(rows, id, delta), other) == BalanceOf(rows, other) + delta
  {
    var credited := Credit(rows, id, delta);
    FirstIndexByIdOnly(rows, credited, other);
    match FirstIndex(rows, HasId(other))
    case None =>
    case Some(k) =>
      assert credited[k] == Credited(rows[k], id, delta);
  }

  /** A credit keeps the primary key. */
  lemma CreditKeepsKey(rows: seq<Customer>, id: Guid, delta: int)
    requires UniqueIds(rows)
    ensures UniqueIds(Credit(rows, id, delta))
  {
    var credited := Credit(rows, id, delta);
    forall i, j | 0 <= i < j < |credited| ensures credited[i].id != credited[j].id {
      assert credited[i].id == rows[i].id && credited[j].id == rows[j].id;
    }
  }

  /** Under the primary key the row with the id is the first one. */
  lemma FirstWithKey<D>(rows: seq<Entity<D>>, k: nat)
    requires UniqueIds(rows) && k < |rows|
    ensures FirstIndex(rows, HasId(rows[k].id)) == Some(k)
  {
    assert HasId<D>(rows[k].id)(rows[k]);
  }

  /** The customer `GetByIdAsync` finds holds `BalanceOf` its id. */
  lemma BalanceOfFound(rows: seq<Customer>, id: Guid)
    requires UniqueIds(rows) && GetById(rows, id).success
    ensures BalanceOf(rows, id) == GetById(rows, id).value.value.data.balance
  {
    var k := FirstActive(rows, id).value;
    FirstWithKey(rows, k);
  }

  /** `_dbSet.Update` of a loaded customer with a changed balance is a credit of the difference. */
  lemma ReplaceIsCredit(rows: seq<Customer>, e: Customer, delta: int, balance: int)
    requires UniqueIds(rows) && e in rows && balance == e.data.balance + delta
    ensures Replace(rows, WithBalance(e, balance)) == Credit(rows, e.id, delta)
  {
    var m :| 0 <= m < |rows| && rows[m] == e;
    var e' := WithBalance(e, balance);
    var updated := Replace(rows, e');
    ReplaceRows(rows, e');
    var credited := Credit(rows, e.id, delta);
    forall k | 0 <= k < |rows| ensures updated[k] == credited[k] {
      assert credited[k] == Credited(rows[k], e.id, delta);
      if rows[k].id == e.id {
        assert k == m;
        assert updated[k] == e';
      } else {
        assert updated[k] == rows[k];
      }
    }
    assert |updated| == |credited|;
  }

  /** Two credits to customers of the table keep the key and move the total by their sum. */
  lemma CreditPairTotal(rows: seq<Customer>, id1: Guid, d1: int, id2: Guid, d2: int)
    requires UniqueIds(rows)
    requires exists k :: 0 <= k < |rows| && rows[k].id == id1
    requires exists k :: 0 <= k < |rows| && rows[k].id == id2
    ensures UniqueIds(Credit(Credit(rows, id1, d1), id2, d2))
    ensures Total(Credit(Credit(rows, id1, d1), id2, d2)) == Total(rows) + d1 + d2
  {
    var once := Credit(rows, id1, d1);
    CreditKeepsKey(rows, id1, d1);
    CreditKeepsKey(once, id2, d2);
    var k :| 0 <= k < |rows| && rows[k].id == id2;
    assert once[k].id == id2;
    TotalOfOneCredit(rows, id1, d1);
    TotalOfOneCredit(once, id2, d2);
  }

  /** Two credits to distinct customers move each one's balance by its own delta. */
  lemma CreditPairBalances(rows: seq<Customer>, id1: Guid, d1: int, id2: Guid, d2: int)
    requires id1 != id2
    requires exists k :: 0 <= k < |rows| && rows[k].id == id1
    requires exists k :: 0 <= k < |rows| && rows[k].id == id2
    ensures BalanceOf(Credit(Credit(rows, id1, d1), id2, d2), id1) == BalanceOf(rows, id1) + d1
    ensures BalanceOf(Credit(Credit(rows, id1, d1), id2, d2), id2) == BalanceOf(rows, id2) + d2
  {
    var once := Credit(rows, id1, d1);
    var k :| 0 <= k < |rows| && rows[k].id == id2;
    assert once[k].id == id2;
    BalanceOfCredit(rows, id1, d1, id1);
    BalanceOfCredit(rows, id1, d1, id2);
    BalanceOfCredit(once, id2, d2, id1);
    BalanceOfCredit(once, id2, d2, id2);
  }

  /** Two credits leave every row of the other customers as it was. */
  lemma CreditPairOthers(rows: seq<Customer>, id1: Guid, d1: int, id2: Guid, d2: int)
    ensures forall k :: 0 <= k < |rows| && rows[k].id != id1 && rows[k].id != id2 ==>
      Credit(Credit(rows, id1, d1), id2, d2)[k] == rows[k]
  {
    var once := Credit(rows, id1, d1);
    forall k | 0 <= k < |rows| && rows[k].id != id1 && rows[k].id != id2
      ensures Credit(once, id2, d2)[k] == rows[k]
    {
      assert once[k] == rows[k];
    }
  }

  /** `_dbSet.Update` of two loaded customers, one after the other, is two credits. */
  lemma UpdatesAreCredits(rows: seq<Customer>, first: Customer, d1: int, b1: int, second: Customer, d2: int, b2: int, after: seq<Customer>)
    requires UniqueIds(rows) && first in rows && second in rows && first.id != second.id
    requires b1 == first.data.balance + d1 && b2 == second.data.balance + d2
    requires after == Replace(Replace(rows, WithBalance(first, b1)), WithBalance(second, b2))
    ensures after == Credit(Credit(rows, first.id, d1), second.id, d2)
  {
    var once := Credit(rows, first.id, d1);
    ReplaceIsCredit(rows, first, d1, b1);
    CreditKeepsKey(rows, first.id, d1);
    var k :| 0 <= k < |rows| && rows[k] == second;
    assert once[k] == second;
    ReplaceIsCredit(once, second, d2, b2);
  }

  /** Two loaded customers updated one after the other, as every transfer handler does: the
      table `after` is the two credits, the total moves by their sum, each balance by its own
      delta, and no other row changes. */
  lemma UpdatePair(rows: seq<Customer>, first: Customer, d1: int, b1: int, second: Customer, d2: int, b2: int, after: seq<Customer>)
    requires UniqueIds(rows) && first in rows && second in rows && first.id != second.id
    requires b1 == first.data.balance + d1 && b2 == second.data.balance + d2
    requires after == Replace(Replace(rows, WithBalance(first, b1)), WithBalance(second, b2))
    ensures after == Credit(Credit(rows, first.id, d1), second.id, d2)
    ensures UniqueIds(after)
    ensures Total(after) == Total(rows) + d1 + d2
    ensures BalanceOf(after, first.id) == first.data.balance + d1
    ensures BalanceOf(after, second.id) == second.data.balance + d2
    ensures forall k :: 0 <= k < |rows| && rows[k].id != first.id && rows[k].id != second.id ==> after[k] == rows[k]
  {
    UpdatesAreCredits(rows, first, d1, b1, second, d2, b2, after);
    var j :| 0 <= j < |rows| && rows[j] == first;
    var k :| 0 <= k < |rows| && rows[k] == second;
    CreditPairTotal(rows, first.id, d1, second.id, d2);
    CreditPairBalances(rows, first.id, d1, second.id, d2);
    CreditPairOthers(rows, first.id, d1, second.id, d2);
    FirstWithKey(rows, j);
    FirstWithKey(rows, k);
  }

  /** A transfer as the add and amend handlers stage it: `amount` leaves `sender` and reaches
      `recipient`, the total is unchanged and no other row moves. */
  lemma MoveBetween(rows: seq<Customer>, sender: Customer, recipient: Customer, amount: int, after: seq<Customer>)
    requires UniqueIds(rows) && sender in rows && recipient in rows && sender.id != recipient.id
    requires after == Replace(Replace(rows, WithBalance(sender, sender.data.balance - amount)),
                              WithBalance(recipient, recipient.data.balance + amount))
    ensures after == Credit(Credit(rows, sender.id, -amount), recipient.id, amount)
    ensures Total(after) == Total(rows)
    ensures BalanceOf(after, sender.id) == sender.data.balance - amount
    ensures BalanceOf(after, recipient.id) == recipient.data.balance + amount
    ensures forall k :: 0 <= k < |rows| && rows[k].id != sender.id && rows[k].id != recipient.id ==> after[k] == rows[k]
  {
    UpdatePair(rows, sender, -amount, sender.data.balance - amount, recipient, amount, recipient.data.balance + amount, after);
  }

  /** Both parties credited with `amount`, as the reverse handler stages it: the recipient is
      loaded after the sender's update, so the two may be one customer. The total grows by twice
      the amount. */
  lemma CreditBoth(rows: seq<Customer>, sender: Customer, recipient: Customer, amount: int, after: seq<Customer>)
    requires UniqueIds(rows) && sender in rows
    requires recipient in Replace(rows, WithBalance(sender, sender.data.balance + amount))
    requires after == Replace(Replace(rows, WithBalance(sender, sender.data.balance + amount)),
                              WithBalance(recipient, recipient.data.balance + amount))
    ensures after == Credit(Credit(rows, sender.id, amount), recipient.id, amount)
    ensures Total(after) == Total(rows) + 2 * amount
  {
    CreditThenCredit(rows, sender, amount, sender.data.balance + amount, recipient, amount, recipient.data.balance + amount, after);
  }

  /** A customer loaded after another one's update, with a different id, is a row of the table
      as it was before that update. */
  lemma LoadedAfter(rows: seq<Customer>, first: Customer, balance: int, second: Customer)
    requires second in Replace(rows, WithBalance(first, balance)) && second.id != first.id
    ensures second in rows
  {
    var once := Replace(rows, WithBalance(first, balance));
    ReplaceRows(rows, WithBalance(first, balance));
    var k :| 0 <= k < |once| && once[k] == second;
    assert rows[k] == second;
  }

  /** The same with two distinct parties: each balance grows by the amount and no other row
      moves. */
  lemma CreditEach(rows: seq<Customer>, sender: Customer, recipient: Customer, amount: int, after: seq<Customer>)
    requires UniqueIds(rows) && sender in rows && sender.id != recipient.id
    requires recipient in Replace(rows, WithBalance(sender, sender.data.balance + amount))
    requires after == Replace(Replace(rows, WithBalance(sender, sender.data.balance + amount)),
                              WithBalance(recipient, recipient.data.balance + amount))
    ensures BalanceOf(after, sender.id) == sender.data.balance + amount
    ensures BalanceOf(after, recipient.id) == BalanceOf(rows, recipient.id) + amount
    ensures forall k :: 0 <= k < |rows| && rows[k].id != sender.id && rows[k].id != recipient.id ==> after[k] == rows[k]
  {
    LoadedAfter(rows, sender, sender.data.balance + amount, recipient);
    UpdatePair(rows, sender, amount, sender.data.balance + amount, recipient, amount, recipient.data.balance + amount, after);
  }

  /** Crediting nothing changes nothing. */
  lemma CreditZero(rows: seq<Customer>, id: Guid)
    ensures Credit(rows, id, 0) == rows
  {
    var credited := Credit(rows, id, 0);
    forall k | 0 <= k < |rows| ensures credited[k] == rows[k] {
      assert credited[k] == Credited(rows[k], id, 0);
    }
  }

  /** Two loaded customers updated one after the other, where the second was loaded from the
      table after the first update (so it may be the first one again): `after` is the two
      credits and the total moves by their sum. */
  lemma CreditThenCredit(rows: seq<Customer>, first: Customer, d1: int, b1: int, second: Customer, d2: int, b2: int, after: seq<Customer>)
    requires UniqueIds(rows) && first in rows && b1 == first.data.balance + d1
    requires second in Replace(rows, WithBalance(first, b1)) && b2 == second.data.balance + d2
    requires after == Replace(Replace(rows, WithBalance(first, b1)), WithBalance(second, b2))
    ensures after == Credit(Credit(rows, first.id, d1), second.id, d2)
    ensures UniqueIds(after)
    ensures Total(after) == Total(rows) + d1 + d2
  {
    var once := Credit(rows, first.id, d1);
    ReplaceIsCredit(rows, first, d1, b1);
    assert Replace(rows, WithBalance(first, b1)) == once;
    CreditKeepsKey(rows, first.id, d1);
    ReplaceIsCredit(once, second, d2, b2);
    CreditKeepsKey(once, second.id, d2);
    TotalOfOneCredit(rows, first.id, d1);
    TotalOfOneCredit(once, second.id, d2);
  }

  /** A transfer between the customers with the keys `senderId` and `recipientId`, where the
      recipient was loaded after the sender's debit: `after` is the two credits, and the
      recipient is a customer of the table. */
  lemma ShiftAfterLoad(rows: seq<Customer>, sender: Customer, recipient: Customer, senderId: Guid, recipientId: Guid, amount: int, after: seq<Customer>)
    requires UniqueIds(rows) && sender in rows && sender.id == senderId && recipient.id == recipientId && recipientId != senderId
    requires recipient in Replace(rows, WithBalance(sender, sender.data.balance - amount))
    requires after == Replace(Replace(rows, WithBalance(sender, sender.data.balance - amount)),
                              WithBalance(recipient, recipient.data.balance + amount))
    ensures exists k :: 0 <= k < |rows| && rows[k].id == recipientId
    ensures after == Credit(Credit(rows, senderId, -amount), recipientId, amount)
  {
    LoadedAfter(rows, sender, sender.data.balance - amount, recipient);
    UpdatesAreCredits(rows, sender, -amount, sender.data.balance - amount, recipient, amount, recipient.data.balance + amount, after);
  }

  /** Two credits under distinct keys of the table that move `amount` from `from` to `to`: the
      table keeps its length and its total, the two balances move by the amount and every other
      row stays. */
  lemma TransferByKey(rows: seq<Customer>, from: Guid, to: Guid, amount: int, after: seq<Customer>)
    requires UniqueIds(rows) && from != to
    requires exists k :: 0 <= k < |rows| && rows[k].id == from
    requires exists k :: 0 <= k < |rows| && rows[k].id == to
    requires after == Credit(Credit(rows, from, -amount), to, amount)
    ensures |after| == |rows|
    ensures Total(after) == Total(rows)
    ensures BalanceOf(after, from) == BalanceOf(rows, from) - amount
    ensures BalanceOf(after, to) == BalanceOf(rows, to) + amount
    ensures forall k :: 0 <= k < |rows| && rows[k].id != from && rows[k].id != to ==> after[k] == rows[k]
  {
    var d1, d2 := -amount, amount;
    CreditPairTotal(rows, from, d1, to, d2);
    CreditPairBalances(rows, from, d1, to, d2);
    CreditPairOthers(rows, from, d1, to, d2);
    assert after == Credit(Credit(rows, from, d1), to, d2);
  }
}
