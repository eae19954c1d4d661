/** InfrastructureLayer/Repositories/UnitOfWork.cs: the unit of work over the EF Core context.
    It owns the database's transaction handle (`_currentTransaction`, here `open`) and the
    context's lifetime (`_disposed`). The data it controls has three layers:
    - `staged`: the context's view, edited through the repositories (their `rows`);
    - `saved`: what `SaveChangesAsync` wrote, visible inside the open database transaction;
    - `committed`: what the database holds durably.
    Without an open transaction the database autocommits, so `saved == committed`. */
module Persistence {
  import opened Messages
  import opened Results
  import opened Entities
  import opened Repository

  datatype Snapshot = Snapshot(customers: seq<Customer>, transactions: seq<Transaction>, accounts: seq<Account>)

  ghost predicate SnapshotValid(s: Snapshot) {
    UniqueIds(s.customers) && UniqueIds(s.transactions) && UniqueIds(s.accounts)
  }

  /** Everything one unit of work can observe or change. `hasContext` is `_context != null`. */
  datatype World = World(
    staged: Snapshot, saved: Snapshot, committed: Snapshot,
    open: bool, disposed: bool, hasContext: bool)

  ghost predicate WorldValid(w: World) {
    && SnapshotValid(w.staged) && SnapshotValid(w.saved) && SnapshotValid(w.committed)
    && (!w.open ==> w.saved == w.committed)
    && (w.disposed ==> w.hasContext)
    && (w.disposed ==> w.saved == w.committed)
  }

  /** What EF Core's `SaveChangesAsync` answers: the number of rows written, or an exception
      (a `RowVersion` concurrency conflict, a constraint violation, a lost connection). */
  datatype SaveOutcome = RowsWritten(count: int) | SaveThrows(message: Message)


  /** `BeginTransactionAsync` can open a transaction (or finds one open). */
  predicate CanBegin(w: World) {
    w.open || (w.hasContext && !w.disposed)
  }

  /** `BeginTransactionAsync`: nothing happens when a transaction is open, so at most one is;
      otherwise the context opens one, and a missing or disposed context throws. */
  function BeginStep(w: World): (out: (World, Option<Message>))
    ensures w.open ==> out == (w, None)
    ensures out.1.None? <==> CanBegin(w)
    ensures out.1.None? ==> out.0 == w.(open := true)
    ensures out.1.Some? ==> out.0 == w
    ensures WorldValid(w) ==> WorldValid(out.0)
  {
    if w.open then (w, None)
    else if !w.hasContext then (w, Some(NullReference))
    else if w.disposed then (w, Some(ObjectDisposed))
    else (w.(open := true), None)
  }

  /** `SaveChangesAsync`: writes the staged data into the database (and, when no transaction is
      open, commits it); a null context, a disposed context, an exception or fewer than one row
      written is a failure with the default status 400 that writes nothing. */
  function SaveStep(w: World, outcome: SaveOutcome): (out: (ValueResult<bool>, World))
    ensures !w.hasContext ==> out.0 == FailValue(Some(ContextNull))
    ensures out.0.success <==> w.hasContext && !w.disposed && outcome.RowsWritten? && outcome.count >= 1
    ensures out.0.success ==> out.0 == SucceedValue(true)
    ensures out.0.success ==> out.1 == w.(saved := w.staged, committed := if w.open then w.committed else w.staged)
    ensures !out.0.success ==> out.1 == w && out.0.statusCode == DefaultFailStatus && out.0.value.None?
    ensures outcome.RowsWritten? && outcome.count < 1 && w.hasContext && !w.disposed ==> out.0 == FailValue()
    ensures WorldValid(w) ==> WorldValid(out.1)
  {
    if !w.hasContext then (FailValue(Some(ContextNull)), w)
    else if w.disposed then (FailValue(Some(ObjectDisposed)), w)
    else match outcome
      case SaveThrows(m) => (FailValue(Some(m)), w)
      case RowsWritten(n) =>
        if n < 1 then (FailValue(), w)
        else (SucceedValue(true), w.(saved := w.staged, committed := if w.open then w.committed else w.staged))
  }

  /** `Dispose`, lines 32-40: the first call on a unit of work with a context disposes the
      context, which closes its connection; the database then rolls back a transaction still
      open, so what was saved in it is gone. `_currentTransaction` stays set, so `open` does not
      change. Any later call does nothing. */
  function DisposeStep(w: World): (out: World)
    ensures out.disposed == (w.disposed || w.hasContext)
    ensures out.staged == w.staged && out.committed == w.committed
    ensures out.open == w.open && out.hasContext == w.hasContext
    ensures !w.disposed && w.hasContext ==> out.saved == w.committed
    ensures w.disposed || !w.hasContext ==> out == w
    ensures WorldValid(w) ==> WorldValid(out)
  {
    if !w.disposed && w.hasContext then w.(disposed := true, saved := w.committed) else w
  }

  /** `RollbackTransactionAsync` as intended: the open transaction is rolled back (the database
      drops what was saved in it) and the handle is disposed and cleared even when the rollback
      throws; with no transaction open it does nothing. A transaction whose context was disposed
      is already rolled back, and SqlClient refuses to roll it back again. */
  function RollbackStep(w: World, fault: Option<Message>): (out: (World, Option<Message>))
    ensures !out.0.open
    ensures out.0.committed == w.committed && out.0.staged == w.staged
    ensures w.open ==> out.0.saved == w.committed
    ensures w.open && !w.disposed ==> out.1 == fault
    ensures w.open && w.disposed ==> out.1 == Some(TransactionUnusable)
    ensures !w.open ==> out == (w, None)
    ensures WorldValid(w) ==> WorldValid(out.0)
  {
    if !w.open then (w, None)
    else (w.(saved := w.committed, open := false), if w.disposed then Some(TransactionUnusable) else fault)
  }

  /** `RollbackTransactionAsync` as written: `await _currentTransaction?.RollbackAsync()` awaits a
      null task when no transaction is open, which throws a NullReferenceException. */
  function RollbackAsWrittenStep(w: World, fault: Option<Message>): (out: (World, Option<Message>))
    ensures !out.0.open && out.0.committed == w.committed
    ensures !w.open ==> out == (w, Some(NullReference))
    ensures w.open ==> out == RollbackStep(w, fault)
  {
    if !w.open then (w, Some(NullReference))
    else RollbackStep(w, fault)
  }

  /** `CommitTransactionAsync` as intended: commits what was saved; a failed commit is rolled
      back and rethrown (or the rollback's own exception escapes instead); either way the handle
      is cleared afterwards. With no transaction open it does nothing. A transaction whose
      context was disposed cannot commit: the commit and the rollback both throw. */
  function CommitStep(w: World, commitFault: Option<Message>, rollbackFault: Option<Message>): (out: (World, Option<Message>))
    ensures !out.0.open && out.0.staged == w.staged
    ensures w.open && !w.disposed && commitFault.None? ==> out == (w.(committed := w.saved, open := false), None)
    ensures w.open && (w.disposed || commitFault.Some?) ==>
      out.1.Some? && out.0.committed == w.committed && out.0.saved == w.committed
    ensures w.open && !w.disposed && commitFault.Some? ==>
      out.1 == if rollbackFault.Some? then rollbackFault else commitFault
    ensures w.open && w.disposed ==> out.1 == Some(TransactionUnusable)
    ensures !w.open ==> out == (w, None)
    ensures WorldValid(w) ==> WorldValid(out.0)
  {
    if !w.open then (w, None)
    else if !w.disposed && commitFault.None? then (w.(committed := w.saved, open := false), None)
    else
      var (w', rollbackThrew) := RollbackStep(w, rollbackFault);
      (w', if rollbackThrew.Some? then rollbackThrew else commitFault)
  }

  /** `CommitTransactionAsync` as written: with no transaction open, `await null` throws inside
      the try, and the catch block's rollback throws the same way. */
  function CommitAsWrittenStep(w: World, commitFault: Option<Message>, rollbackFault: Option<Message>): (out: (World, Option<Message>))
    ensures !out.0.open && out.0.staged == w.staged
    ensures !w.open ==> out == (w, Some(NullReference))
    ensures w.open ==> out == CommitStep(w, commitFault, rollbackFault)
  {
    if !w.open then
      var (w', rollbackThrew) := RollbackAsWrittenStep(w, rollbackFault);
      (w', if rollbackThrew.Some? then rollbackThrew else Some(NullReference))
    else CommitStep(w, commitFault, rollbackFault)
  }

  /** The catch block of every transfer handler calls `RollbackTransactionAsync` after a failed
      `CommitTransactionAsync`, which has already rolled back and cleared the handle. As written
      that second rollback throws, so the handler throws instead of answering 500. */
  lemma FailedCommitThenRollbackAsWrittenThrows(w: World, commitFault: Message, rollbackFault: Option<Message>)
    requires w.open
    ensures var (w1, thrown1) := CommitAsWrittenStep(w, Some(commitFault), rollbackFault);
      thrown1.Some? && RollbackAsWrittenStep(w1, rollbackFault) == (w1, Some(NullReference))
  {
  }

  /** With the intended rollback, the catch block's second rollback is a silent no-op: no
      exception, nothing open, the committed data as before the commit was tried. */
  lemma FailedCommitThenRollbackIsQuiet(w: World, commitFault: Message, rollbackFault: Option<Message>)
    requires w.open
    ensures var (w1, thrown1) := CommitStep(w, Some(commitFault), rollbackFault);
      && thrown1.Some?
      && RollbackStep(w1, rollbackFault) == (w1, None)
      && !w1.open && w1.committed == w.committed
  {
  }

  /** Committing twice: as written the second commit throws; as intended it does nothing. */
  lemma SecondCommit(w: World, f1: Option<Message>, f2: Option<Message>, r: Option<Message>)
    requires w.open
    ensures CommitAsWrittenStep(CommitStep(w, f1, r).0, f2, r).1 == Some(NullReference)
    ensures CommitStep(CommitStep(w, f1, r).0, f2, r) == (CommitStep(w, f1, r).0, None)
  {
  }

  /** Disposing the unit of work while a transaction is open loses what was saved in it: a later
      commit throws and the committed data stay as they were before the transaction. */
  lemma DisposeLosesTheOpenTransaction(w: World, commitFault: Option<Message>, rollbackFault: Option<Message>)
    requires WorldValid(w) && w.open && w.hasContext
    ensures var (w1, thrown) := CommitStep(DisposeStep(w), commitFault, rollbackFault);
      && thrown == Some(TransactionUnusable)
      && !w1.open && w1.committed == w.committed && w1.saved == w.committed
  {
  }

  class UnitOfWork {
    const hasContext: bool
    const customers: GenericRepository<CustomerData>
    const transactions: GenericRepository<TransactionData>
    const accounts: GenericRepository<AccountData>
    /** `_currentTransaction != null`. */
    var open: bool
    /** `_disposed`. */
    var disposed: bool
    /** How often `_context.Dispose()` was called. */
    ghost var contextDisposals: nat
    var saved: Snapshot
    var committed: Snapshot

    function Staged(): Snapshot
      reads this, customers, transactions, accounts
    {
      Snapshot(customers.rows, transactions.rows, accounts.rows)
    }

    ghost function State(): World
      reads this, customers, transactions, accounts
    {
      World(Staged(), saved, committed, open, disposed, hasContext)
    }

    ghost predicate Valid()
      reads this, customers, transactions, accounts
    {
      && customers.Valid() && transactions.Valid() && accounts.Valid()
      && WorldValid(State())
      && contextDisposals == (if disposed then 1 else 0)
    }

    /** A unit of work over a fresh context: the tracker's view is the database's. */
    constructor (hasContext: bool, customers: GenericRepository<CustomerData>,
                 transactions: GenericRepository<TransactionData>, accounts: GenericRepository<AccountData>)
      requires customers.Valid() && transactions.Valid() && accounts.Valid()
      ensures Valid() && !open && !disposed
      ensures this.hasContext == hasContext && this.customers == customers
      ensures this.transactions == transactions && this.accounts == accounts
      ensures saved == committed == Staged()
    {
      this.hasContext := hasContext;
      this.customers := customers;
      this.transactions := transactions;
      this.accounts := accounts;
      open, disposed, contextDisposals := false, false, 0;
      var now := Snapshot(customers.rows, transactions.rows, accounts.rows);
      saved, committed := now, now;
    }

    /** `Dispose`: disposes the context the first time only; the database's rollback of an open
      transaction is the assignment to `saved`. */
    method Dispose()
      requires Valid()
      modifies this
      ensures Valid()
      ensures State() == DisposeStep(old(State()))
      ensures contextDisposals == old(contextDisposals) + (if !old(disposed) && hasContext then 1 else 0)
      ensures contextDisposals <= 1
    {
      if !disposed && hasContext {
        contextDisposals := contextDisposals + 1;
        disposed := true;
        saved := committed;
      }
    }

    method SaveChanges(outcome: SaveOutcome) returns (r: ValueResult<bool>)
      requires Valid()
      modifies this
      ensures Valid()
      ensures (r, State()) == SaveStep(old(State()), outcome)
    {
      if !hasContext {
        return FailValue(Some(ContextNull));
      }
      if disposed {
        return FailValue(Some(ObjectDisposed));
      }
      match outcome
      case SaveThrows(m) =>
        r := FailValue(Some(m));
      case RowsWritten(n) =>
        if n < 1 {
          return FailValue();
        }
        saved := Staged();
        if !open {
          committed := saved;
        }
        r := SucceedValue(true);
    }

    method BeginTransaction() returns (thrown: Option<Message>)
      requires Valid()
      modifies this
      ensures Valid()
      ensures (State(), thrown) == BeginStep(old(State()))
    {
      if open {
        return None;
      }
      if !hasContext {
        return Some(NullReference);
      }
      if disposed {
        return Some(ObjectDisposed);
      }
      open := true;
      thrown := None;
    }

    method RollbackTransaction(fault: Option<Message>) returns (thrown: Option<Message>)
      requires Valid()
      modifies this
      ensures Valid()
      ensures (State(), thrown) == RollbackStep(old(State()), fault)
    {
      if !open {
        return None;
      }
      saved := committed;
      open := false;
      thrown := if disposed then Some(TransactionUnusable) else fault;
    }

    method CommitTransaction(commitFault: Option<Message>, rollbackFault: Option<Message>) returns (thrown: Option<Message>)
      requires Valid()
      modifies this
      ensures Valid()
      ensures (State(), thrown) == CommitStep(old(State()), commitFault, rollbackFault)
    {
      if !open {
        return None;
      }
      if commitFault.None? && !disposed {
        committed := saved;
        open := false;
        return None;
      }
      var rollbackThrew := RollbackTransaction(rollbackFault);
      thrown := if rollbackThrew.Some? then rollbackThrew else commitFault;
    }
  }
}
