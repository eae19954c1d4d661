/** ApplicationLayer/CQRS/Commands/Transactions/AddTransactionCommand.cs: a transfer. Inside a
    unit-of-work transaction it checks the request, loads both customers (active ones only),
    debits the sender, credits the recipient, appends an active transaction record, saves and
    commits. Every early failure returns without rolling back, so the transaction stays open and
    the staged edits are never saved. */
module AddTransaction {
  import opened Messages
  import opened Results
  import opened Entities
  import opened Repository
  import opened Persistence
  import opened Commands
  import opened Ledger

  /** `AddTransactionCommand`; the handler never reads `CreatedBy`. */
  datatype AddTransactionCommand = AddTransactionCommand(
    senderId: Guid, recipientId: Guid, transferredAmount: int, createdBy: Option<string>)

  function ArgumentError(request: AddTransactionCommand): Option<Message> {
    TransferArgumentError(Some(request.senderId), Some(request.recipientId), request.transferredAmount)
  }

  /** The record the handler appends: `CreatedBy` is left null. */
  function Record(request: AddTransactionCommand, io: Io): (t: Transaction)
    ensures t.active && t.id == io.newId && t.createdDate == Some(io.now)
    ensures t.data == TransactionData(request.senderId, request.recipientId, request.transferredAmount)
  {
    Entity(io.newId, true, None, None, None, Some(io.now),
      TransactionData(request.senderId, request.recipientId, request.transferredAmount))
  }

  /** The handler's last stage: append the record, save and commit. */
  function AppendStep(w: World, request: AddTransactionCommand, io: Io): (out: (Response, World))
    requires w.open
    ensures !Succeeded(out.0) ==> out.1.committed == w.committed
    ensures Succeeded(out.0) <==>
      && io.recordWrite.None? && (forall k :: 0 <= k < |w.staged.transactions| ==> w.staged.transactions[k].id != io.newId)
      && SaveSucceeds(w, io.save) && io.commitFault.None?
    ensures Succeeded(out.0) ==>
      && out.0 == Returned(SucceedValue(io.newId)) && !out.1.open
      && out.1.committed == out.1.staged == w.staged.(transactions := w.staged.transactions + [Record(request, io)])
    ensures (|| io.recordWrite.Some?
             || exists k :: 0 <= k < |w.staged.transactions| && w.staged.transactions[k].id == io.newId) ==>
      out == (Returned(FailValue(Some(TransactionNotAdded), 400)), w)
    ensures (&& io.recordWrite.None? && (forall k :: 0 <= k < |w.staged.transactions| ==> w.staged.transactions[k].id != io.newId)
             && !SaveSucceeds(w, io.save)) ==>
      out.0 == Returned(FailValue(Some(AddedDataNotSaved), 401))
    ensures (&& io.recordWrite.None? && (forall k :: 0 <= k < |w.staged.transactions| ==> w.staged.transactions[k].id != io.newId)
             && SaveSucceeds(w, io.save) && io.commitFault.Some?) ==>
      out.0 == Returned(FailValue(if io.rollbackFault.Some? then io.rollbackFault else io.commitFault, 500))
  {
    var (added, records) := AddEntity(w.staged.transactions, Some(Record(request, io)), io.recordWrite);
    var w' := w.(staged := w.staged.(transactions := records));
    if !added.success then (Returned(FailValue(Some(TransactionNotAdded), 400)), w')
    else CompleteStep(w', io.newId, io, Answer(AddedDataNotSaved, 401))
  }

  /** `recipient.Balance += amount` and its `UpdateAsync`, then the last stage. */
  function DepositStep(w: World, request: AddTransactionCommand, recipient: Customer, io: Io): (out: (Response, World))
    requires w.open
    ensures !Succeeded(out.0) ==> out.1.committed == w.committed
    ensures Succeeded(out.0) ==>
      var customers := Replace(w.staged.customers, WithBalance(recipient, recipient.data.balance + request.transferredAmount));
      && out.0 == Returned(SucceedValue(io.newId)) && !out.1.open
      && out.1.committed == out.1.staged == w.staged.(customers := customers, transactions := w.staged.transactions + [Record(request, io)])
    ensures !(InDecimalRange(recipient.data.balance + request.transferredAmount)) ==> out == AbortStep(w, Overflow, io.rollbackFault)
    ensures (InDecimalRange(recipient.data.balance + request.transferredAmount)) && io.recipientWrite.Some? ==> out == (Returned(FailValue(Some(RecipientNotCredited), 500)), w)
  {
    var credited := recipient.data.balance + request.transferredAmount;
    if !InDecimalRange(credited) then AbortStep(w, Overflow, io.rollbackFault)
    else
      var (deposit, rows) := UpdateEntity(w.staged.customers, Some(WithBalance(recipient, credited)), io.recipientWrite);
      var w' := w.(staged := w.staged.(customers := rows));
      if !deposit.success then (Returned(FailValue(Some(RecipientNotCredited), 500)), w')
      else AppendStep(w', request, io)
  }

  /** `sender.Balance -= amount` and its `UpdateAsync`, then the deposit. */
  function WithdrawStep(w: World, request: AddTransactionCommand, sender: Customer, recipient: Customer, io: Io): (out: (Response, World))
    requires w.open
    ensures !Succeeded(out.0) ==> out.1.committed == w.committed
    ensures !(InDecimalRange(sender.data.balance - request.transferredAmount)) ==> out == AbortStep(w, Overflow, io.rollbackFault)
    ensures (InDecimalRange(sender.data.balance - request.transferredAmount)) && io.senderWrite.Some? ==> out == (Returned(FailValue(Some(SenderNotDebited), 500)), w)
  {
    var debited := sender.data.balance - request.transferredAmount;
    if !InDecimalRange(debited) then AbortStep(w, Overflow, io.rollbackFault)
    else
      var (withdraw, rows) := UpdateEntity(w.staged.customers, Some(WithBalance(sender, debited)), io.senderWrite);
      var w' := w.(staged := w.staged.(customers := rows));
      if !withdraw.success then (Returned(FailValue(Some(SenderNotDebited), 500)), w')
      else DepositStep(w', request, recipient, io)
  }

  /** On success the withdraw stage answers the new record's id and commits both balance
      updates and the appended record. */
  lemma WithdrawCommitsBoth(w: World, request: AddTransactionCommand, sender: Customer, recipient: Customer, io: Io)
    requires w.open && Succeeded(WithdrawStep(w, request, sender, recipient, io).0)
    ensures WithdrawStep(w, request, sender, recipient, io).0 == Returned(SucceedValue(io.newId))
    ensures !WithdrawStep(w, request, sender, recipient, io).1.open
    ensures WithdrawStep(w, request, sender, recipient, io).1.committed == WithdrawStep(w, request, sender, recipient, io).1.staged
    ensures WithdrawStep(w, request, sender, recipient, io).1.staged
      == w.staged.(customers := Replace(Replace(w.staged.customers, WithBalance(sender, sender.data.balance - request.transferredAmount)),
                                        WithBalance(recipient, recipient.data.balance + request.transferredAmount)),
                   transactions := w.staged.transactions + [Record(request, io)])
  {
  }

  /** The handler on the unit of work's state `w`. */
  function HandleStep(w: World, request: AddTransactionCommand, io: Io): (out: (Response, World))
    // `BeginTransactionAsync` runs outside the try block: its exception escapes.
    ensures !CanBegin(w) ==> out == (Threw(BeginStep(w).1.value), w)
    // The argument checks come first, each a 400 before any lookup.
    ensures CanBegin(w) && ArgumentError(request).Some? ==>
      out == (Returned(FailValue(ArgumentError(request), 400)), w.(open := true))
    // Then the sender lookup, the funds check and the recipient lookup, in this order.
    ensures CanBegin(w) && ArgumentError(request).None? && !GetById(w.staged.customers, request.senderId).success ==>
      FailedWith(out.0, 404, SenderMissing) && out.1 == w.(open := true)
    ensures (CanBegin(w) && ArgumentError(request).None? && GetById(w.staged.customers, request.senderId).success
      && GetById(w.staged.customers, request.senderId).value.value.data.balance < request.transferredAmount) ==>
      FailedWith(out.0, 400, InsufficientFunds) && out.1 == w.(open := true)
    ensures (CanBegin(w) && ArgumentError(request).None? && GetById(w.staged.customers, request.senderId).success
      && GetById(w.staged.customers, request.senderId).value.value.data.balance >= request.transferredAmount
      && !GetById(w.staged.customers, request.recipientId).success) ==>
      FailedWith(out.0, 404, RecipientMissing) && out.1 == w.(open := true)
    // A failure commits nothing.
    ensures !Succeeded(out.0) ==> out.1.committed == w.committed
  {
    if !CanBegin(w) then (Threw(BeginStep(w).1.value), w)
    else
    var w1 := w.(open := true);
    if ArgumentError(request).Some? then (Returned(FailValue(ArgumentError(request), 400)), w1)
    else
      var sender := GetById(w1.staged.customers, request.senderId);
      if !sender.success || sender.value.None? then (Returned(FailValue(Some(SenderMissing), 404)), w1)
      else if sender.value.value.data.balance < request.transferredAmount then
        (Returned(FailValue(Some(InsufficientFunds), 400)), w1)
      else
        var recipient := GetById(w1.staged.customers, request.recipientId);
        if !recipient.success || recipient.value.None? then (Returned(FailValue(Some(RecipientMissing), 404)), w1)
        else WithdrawStep(w1, request, sender.value.value, recipient.value.value, io)
  }

  /** Everything a transfer needs to succeed, in the handler's order. */
  ghost predicate Succeeds(w: World, request: AddTransactionCommand, io: Io) {
    var sender := GetById(w.staged.customers, request.senderId);
    var recipient := GetById(w.staged.customers, request.recipientId);
    && CanBegin(w) && ArgumentError(request).None?
    && sender.success && sender.value.value.data.balance >= request.transferredAmount
    && recipient.success
    && InDecimalRange(sender.value.value.data.balance - request.transferredAmount) && io.senderWrite.None?
    && InDecimalRange(recipient.value.value.data.balance + request.transferredAmount) && io.recipientWrite.None?
    && io.recordWrite.None? && (forall k :: 0 <= k < |w.staged.transactions| ==> w.staged.transactions[k].id != io.newId)
    && SaveSucceeds(w, io.save) && io.commitFault.None?
  }

  /** The withdraw stage succeeds exactly when both balance updates stay within `decimal`, no
      write fails, the record's id is new, the save writes and the commit holds. */
  lemma WithdrawSucceedsExactlyWhen(w: World, request: AddTransactionCommand, sender: Customer, recipient: Customer, io: Io)
    requires w.open
    ensures Succeeded(WithdrawStep(w, request, sender, recipient, io).0) <==>
      && InDecimalRange(sender.data.balance - request.transferredAmount) && io.senderWrite.None?
      && InDecimalRange(recipient.data.balance + request.transferredAmount) && io.recipientWrite.None?
      && io.recordWrite.None? && (forall k :: 0 <= k < |w.staged.transactions| ==> w.staged.transactions[k].id != io.newId)
      && SaveSucceeds(w, io.save) && io.commitFault.None?
  {
  }

  /** The handler succeeds exactly when every check, lookup, write, the save and the commit do. */
  lemma AddSucceedsExactlyWhen(w: World, request: AddTransactionCommand, io: Io)
    ensures Succeeded(HandleStep(w, request, io).0) <==> Succeeds(w, request, io)
  {
    var sender := GetById(w.staged.customers, request.senderId);
    var recipient := GetById(w.staged.customers, request.recipientId);
    if && CanBegin(w) && ArgumentError(request).None? && sender.success
       && sender.value.value.data.balance >= request.transferredAmount && recipient.success {
      WithdrawSucceedsExactlyWhen(w.(open := true), request, sender.value.value, recipient.value.value, io);
    }
  }

  /** A successful transfer found both parties, which differ, with funds enough, and ran the
      withdraw stage on them. */
  lemma AddReachesWithdraw(w: World, request: AddTransactionCommand, io: Io) returns (sender: Customer, recipient: Customer)
    requires Succeeded(HandleStep(w, request, io).0)
    ensures CanBegin(w) && ArgumentError(request).None?
    ensures GetById(w.staged.customers, request.senderId).success && sender == GetById(w.staged.customers, request.senderId).value.value
    ensures GetById(w.staged.customers, request.recipientId).success && recipient == GetById(w.staged.customers, request.recipientId).value.value
    ensures sender in w.staged.customers && recipient in w.staged.customers
    ensures sender.id == request.senderId && recipient.id == request.recipientId && sender.id != recipient.id
    ensures sender.data.balance >= request.transferredAmount
    ensures HandleStep(w, request, io) == WithdrawStep(w.(open := true), request, sender, recipient, io)
  {
    sender := GetById(w.staged.customers, request.senderId).value.value;
    recipient := GetById(w.staged.customers, request.recipientId).value.value;
  }

  /** A successful transfer commits the two balance updates the handler staged and the
      appended record, and nothing else. */
  lemma AddCommitsBothUpdates(w: World, request: AddTransactionCommand, io: Io)
    requires Succeeded(HandleStep(w, request, io).0)
    ensures GetById(w.staged.customers, request.senderId).success && GetById(w.staged.customers, request.recipientId).success
    ensures var sender := GetById(w.staged.customers, request.senderId).value.value;
      var recipient := GetById(w.staged.customers, request.recipientId).value.value;
      && !HandleStep(w, request, io).1.open
      && HandleStep(w, request, io).1.committed == HandleStep(w, request, io).1.staged
           == w.staged.(customers := Replace(Replace(w.staged.customers, WithBalance(sender, sender.data.balance - request.transferredAmount)),
                                             WithBalance(recipient, recipient.data.balance + request.transferredAmount)),
                        transactions := w.staged.transactions + [Record(request, io)])
  {
    var sender, recipient := AddReachesWithdraw(w, request, io);
    WithdrawCommitsBoth(w.(open := true), request, sender, recipient, io);
  }

  /** The withdraw stage, on success, moves exactly the amount from the sender to the recipient. */
  lemma WithdrawMovesTheAmount(w: World, request: AddTransactionCommand, sender: Customer, recipient: Customer, io: Io)
    requires w.open && UniqueIds(w.staged.customers)
    requires sender in w.staged.customers && recipient in w.staged.customers && sender.id != recipient.id
    requires Succeeded(WithdrawStep(w, request, sender, recipient, io).0)
    ensures WithdrawStep(w, request, sender, recipient, io).1.committed.customers
      == Credit(Credit(w.staged.customers, sender.id, -request.transferredAmount), recipient.id, request.transferredAmount)
    ensures Total(WithdrawStep(w, request, sender, recipient, io).1.committed.customers) == Total(w.staged.customers)
    ensures BalanceOf(WithdrawStep(w, request, sender, recipient, io).1.committed.customers, sender.id)
      == sender.data.balance - request.transferredAmount
    ensures BalanceOf(WithdrawStep(w, request, sender, recipient, io).1.committed.customers, recipient.id)
      == recipient.data.balance + request.transferredAmount
    ensures forall k :: 0 <= k < |w.staged.customers| && w.staged.customers[k].id != sender.id && w.staged.customers[k].id != recipient.id ==>
      WithdrawStep(w, request, sender, recipient, io).1.committed.customers[k] == w.staged.customers[k]
  {
    WithdrawCommitsBoth(w, request, sender, recipient, io);
    var after := WithdrawStep(w, request, sender, recipient, io).1.committed.customers;
    MoveBetween(w.staged.customers, sender, recipient, request.transferredAmount, after);
  }

  /** A successful transfer debits the sender and credits the recipient by exactly the amount
      and changes nothing else: the money held by all customers is conserved, the sender cannot
      go negative, and every other customer row is as it was. */
  lemma AddMovesExactlyTheAmount(w: World, request: AddTransactionCommand, io: Io)
    requires UniqueIds(w.staged.customers)
    requires Succeeded(HandleStep(w, request, io).0)
    ensures HandleStep(w, request, io).1.committed.customers
      == Credit(Credit(w.staged.customers, request.senderId, -request.transferredAmount), request.recipientId, request.transferredAmount)
    ensures Total(HandleStep(w, request, io).1.committed.customers) == Total(w.staged.customers)
    ensures BalanceOf(HandleStep(w, request, io).1.committed.customers, request.senderId)
      == BalanceOf(w.staged.customers, request.senderId) - request.transferredAmount >= 0
    ensures BalanceOf(HandleStep(w, request, io).1.committed.customers, request.recipientId)
      == BalanceOf(w.staged.customers, request.recipientId) + request.transferredAmount
    ensures forall k :: 0 <= k < |w.staged.customers| && w.staged.customers[k].id != request.senderId && w.staged.customers[k].id != request.recipientId ==>
      HandleStep(w, request, io).1.committed.customers[k] == w.staged.customers[k]
  {
    var sender, recipient := AddReachesWithdraw(w, request, io);
    WithdrawMovesTheAmount(w.(open := true), request, sender, recipient, io);
    BalanceOfFound(w.staged.customers, request.senderId);
    BalanceOfFound(w.staged.customers, request.recipientId);
  }

  method Handle(uow: UnitOfWork, request: AddTransactionCommand, io: Io) returns (r: Response)
    requires uow.Valid()
    modifies uow, uow.customers, uow.transactions
    ensures uow.Valid()
    ensures (r, uow.State()) == HandleStep(old(uow.State()), request, io)
  {
    var began := uow.BeginTransaction();
    if began.Some? {
      return Threw(began.value);
    }
    // Checking arguments.
    if request.senderId == EmptyGuid {
      return Returned(FailValue(Some(SenderIdEmpty), 400));
    }
    if request.recipientId == EmptyGuid {
      return Returned(FailValue(Some(RecipientIdEmpty), 400));
    }
    if request.senderId == request.recipientId {
      return Returned(FailValue(Some(SameAccount), 400));
    }
    if request.transferredAmount <= 0 {
      return Returned(FailValue(Some(AmountNotPositive), 400));
    }
    // Checking data.
    var senderFound := GetById(uow.customers.rows, request.senderId);
    if !senderFound.success || senderFound.value.None? {
      return Returned(FailValue(Some(SenderMissing), 404));
    }
    var sender := senderFound.value.value;
    if sender.data.balance < request.transferredAmount {
      return Returned(FailValue(Some(InsufficientFunds), 400));
    }
    var recipientFound := GetById(uow.customers.rows, request.recipientId);
    if !recipientFound.success || recipientFound.value.None? {
      return Returned(FailValue(Some(RecipientMissing), 404));
    }
    r := Withdraw(uow, request, senderFound.value.value, recipientFound.value.value, io);
  }

  /** `sender.Balance -= amount` and its `UpdateAsync`, then the deposit. */
  method Withdraw(uow: UnitOfWork, request: AddTransactionCommand, sender: Customer, recipient: Customer, io: Io) returns (r: Response)
    requires uow.Valid() && uow.open
    modifies uow, uow.customers, uow.transactions
    ensures uow.Valid()
    ensures (r, uow.State()) == WithdrawStep(old(uow.State()), request, sender, recipient, io)
  {
    var debited := sender.data.balance - request.transferredAmount;
    if !InDecimalRange(debited) {
      r := Abort(uow, Overflow, io.rollbackFault);
      return;
    }
    var withdraw := uow.customers.Update(Some(WithBalance(sender, debited)), io.senderWrite);
    if !withdraw.success {
      return Returned(FailValue(Some(SenderNotDebited), 500));
    }
    r := Deposit(uow, request, recipient, io);
  }

  /** `recipient.Balance += amount` and its `UpdateAsync`, then the record. */
  method Deposit(uow: UnitOfWork, request: AddTransactionCommand, recipient: Customer, io: Io) returns (r: Response)
    requires uow.Valid() && uow.open
    modifies uow, uow.customers, uow.transactions
    ensures uow.Valid()
    ensures (r, uow.State()) == DepositStep(old(uow.State()), request, recipient, io)
  {
    var credited := recipient.data.balance + request.transferredAmount;
    if !InDecimalRange(credited) {
      r := Abort(uow, Overflow, io.rollbackFault);
      return;
    }
    var deposit := uow.customers.Update(Some(WithBalance(recipient, credited)), io.recipientWrite);
    if !deposit.success {
      return Returned(FailValue(Some(RecipientNotCredited), 500));
    }
    r := Append(uow, request, io);
  }

  /** Create the transaction record, stage it, save and commit. */
  method Append(uow: UnitOfWork, request: AddTransactionCommand, io: Io) returns (r: Response)
    requires uow.Valid() && uow.open
    modifies uow, uow.transactions
    ensures uow.Valid()
    ensures (r, uow.State()) == AppendStep(old(uow.State()), request, io)
  {
    var transaction := Entity(io.newId, true, None, None, None, Some(io.now),
      TransactionData(request.senderId, request.recipientId, request.transferredAmount));
    var added := uow.transactions.Add(Some(transaction), io.recordWrite);
    if !added.success {
      return Returned(FailValue(Some(TransactionNotAdded), 400));
    }
    r := Complete(uow, transaction.id, io, Answer(AddedDataNotSaved, 401));
  }
}
