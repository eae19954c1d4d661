/** InfrastructureLayer/Repositories/GenericRepository.cs: one table of the EF Core context.
    Queries (`GetByIdAsync`, `GetByExpressionAsync`, `ListAsync`) are functions of the rows;
    `AddAsync`, `UpdateAsync` and `DeleteAsync` change the rows of a `GenericRepository`
    object in place, as the C# methods change the context's `DbSet`. The rows are the
    context's view (the change tracker's entities), which the unit of work later saves. */
module Repository {
  import opened Messages
  import opened Results
  import opened Entities

  /** Where `FirstOrDefaultAsync(p)` stops: the first row satisfying `p`. */
  function FirstIndex<D>(rows: seq<Entity<D>>, p: Entity<D> -> bool): (r: Option<nat>)
    ensures r.Some? ==> r.value < |rows| && p(rows[r.value])
    ensures r.Some? ==> forall k :: 0 <= k < r.value ==> !p(rows[k])
    ensures r.None? <==> forall k :: 0 <= k < |rows| ==> !p(rows[k])
    decreases |rows|
  {
    if |rows| == 0 then None
    else if p(rows[0]) then Some(0)
    else match FirstIndex(rows[1..], p)
      case None => None
      case Some(k) => Some(k + 1)
  }

  /** The filter `x => x.Id == id`. */
  function HasId<D>(id: Guid): (p: Entity<D> -> bool)
  {
    (e: Entity<D>) => e.id == id
  }

  /** Where `GetByIdAsync`'s `FirstOrDefaultAsync(x => x.Id == id && x.Active == true)` stops:
      the first active row with the id. */
  function FirstActive<D>(rows: seq<Entity<D>>, id: Guid): (r: Option<nat>)
    ensures r.Some? ==> r.value < |rows| && rows[r.value].id == id && rows[r.value].active
    ensures r.None? <==> forall k :: 0 <= k < |rows| ==> !(rows[k].id == id && rows[k].active)
    decreases |rows|
  {
    if |rows| == 0 then None
    else if rows[0].id == id && rows[0].active then Some(0)
    else match FirstActive(rows[1..], id)
      case None => None
      case Some(k) => Some(k + 1)
  }

  /** `GetByIdAsync`: only an active row with that id is found. */
  function GetById<D>(rows: seq<Entity<D>>, id: Guid): (r: ValueResult<Entity<D>>)
    ensures id == EmptyGuid ==> r == FailValue(Some(IdEmpty), 400)
    ensures r.success <==> id != EmptyGuid && exists k :: 0 <= k < |rows| && rows[k].id == id && rows[k].active
    ensures r.success ==> r.statusCode == 200 && r.value.Some?
    ensures r.success ==> r.value.value in rows && r.value.value.id == id && r.value.value.active
    ensures id != EmptyGuid && !r.success ==> r == FailValue(Some(EntityNotFound), 404)
  {
    if id == EmptyGuid then FailValue(Some(IdEmpty), 400)
    else match FirstActive(rows, id)
      case None => FailValue(Some(EntityNotFound), 404)
      case Some(k) => SucceedValue(rows[k])
  }

  /** `GetByExpressionAsync`: the first row satisfying the filter, active or not; no match is a
      `Fail()` with the default status 400. */
  function GetByExpression<D>(rows: seq<Entity<D>>, expression: Option<Entity<D> -> bool>): (r: ValueResult<Entity<D>>)
    ensures expression.None? ==> r == FailValue(Some(ExpressionNull))
    ensures r.success <==> expression.Some? && exists k :: 0 <= k < |rows| && expression.value(rows[k])
    ensures r.success ==> r.statusCode == 200 && r.value.Some? && r.value.value in rows
    ensures r.success ==> expression.value(r.value.value)
    ensures r.success ==> exists k :: 0 <= k < |rows| && rows[k] == r.value.value && forall j :: 0 <= j < k ==> !expression.value(rows[j])
    ensures !r.success ==> r.statusCode == DefaultFailStatus && r.value.None?
  {
    if expression.None? then FailValue(Some(ExpressionNull))
    else match FirstIndex(rows, expression.value)
      case None => FailValue()
      case Some(k) => SucceedValue(rows[k])
  }

  /** `query.Where(p)`: the matching rows. */
  function Where<D>(rows: seq<Entity<D>>, p: Entity<D> -> bool): (r: seq<Entity<D>>)
    ensures |r| <= |rows|
    ensures forall k :: 0 <= k < |r| ==> p(r[k]) && r[k] in rows
    ensures forall k :: 0 <= k < |rows| && p(rows[k]) ==> rows[k] in r
    decreases |rows|
  {
    if |rows| == 0 then []
    else if p(rows[0]) then [rows[0]] + Where(rows[1..], p)
    else Where(rows[1..], p)
  }

  /** `query.Take(count)`: at most the first `count` elements. */
  function Take<T>(s: seq<T>, count: nat): (r: seq<T>)
    ensures |r| == if count < |s| then count else |s|
    ensures r == s[..|r|]
  {
    if count < |s| then s[..count] else s
  }

  /** `ListAsync(expression, count)`: the rows the filter keeps (all rows when it is null),
      limited to `count` when `count > 0`. Ordering and includes are not modelled. */
  function List<D>(rows: seq<Entity<D>>, expression: Option<Entity<D> -> bool>, count: int): (r: ValueResult<seq<Entity<D>>>)
    ensures r.success && r.statusCode == 200 && r.value.Some?
    ensures forall e :: e in r.value.value ==> e in rows && (expression.Some? ==> expression.value(e))
    ensures count > 0 ==> |r.value.value| <= count
    ensures count <= 0 ==> forall k :: 0 <= k < |rows| && (expression.None? || expression.value(rows[k])) ==> rows[k] in r.value.value
    ensures expression.None? && count <= 0 ==> r.value.value == rows
  {
    var filtered := if expression.Some? then Where(rows, expression.value) else rows;
    var limited := if count > 0 then Take(filtered, count) else filtered;
    SucceedValue(limited)
  }

  /** A limited listing is the first `count` rows of the unlimited one. */
  lemma ListIsTakeOfUnlimited<D>(rows: seq<Entity<D>>, expression: Option<Entity<D> -> bool>, count: int)
    requires count > 0
    ensures List(rows, expression, count).value.value == Take(List(rows, expression, 0).value.value, count)
  {
  }

  /** What `_dbSet.Update(e)` stages: every row with `e`'s key now holds `e`. */
  function Replace<D>(rows: seq<Entity<D>>, e: Entity<D>): (r: seq<Entity<D>>)
    ensures |r| == |rows|
  {
    seq(|rows|, k requires 0 <= k < |rows| => if rows[k].id == e.id then e else rows[k])
  }

  /** Row by row: the rows with `e`'s key hold `e`, every other row is as it was, and no key
      changes. */
  lemma ReplaceRows<D>(rows: seq<Entity<D>>, e: Entity<D>)
    ensures forall k :: 0 <= k < |rows| ==> Replace(rows, e)[k].id == rows[k].id
    ensures forall k :: 0 <= k < |rows| && rows[k].id != e.id ==> Replace(rows, e)[k] == rows[k]
    ensures forall k :: 0 <= k < |rows| && rows[k].id == e.id ==> Replace(rows, e)[k] == e
  {
  }

  /** Staging an update keeps the keys of the table, so it keeps them unique. */
  lemma ReplaceKeepsUniqueIds<D>(rows: seq<Entity<D>>, e: Entity<D>)
    requires UniqueIds(rows)
    ensures UniqueIds(Replace(rows, e))
  {
    ReplaceRows(rows, e);
  }

  /** `AddAsync`: a null argument is a 400; a failure of EF's `AddAsync` (reported by `fault`,
      or a key already tracked) is caught and answered with its message and the default 400;
      otherwise the entity is appended. */
  function AddEntity<D>(rows: seq<Entity<D>>, entity: Option<Entity<D>>, fault: Option<Message>): (out: (Result, seq<Entity<D>>))
    ensures entity.None? ==> out.0 == Fail(Some(NullArgument), 400)
    ensures out.0.success <==> entity.Some? && fault.None? && forall k :: 0 <= k < |rows| ==> rows[k].id != entity.value.id
    ensures out.0.success ==> out.0 == Succeed(EntityAdded) && out.1 == rows + [entity.value]
    ensures !out.0.success ==> out.1 == rows && out.0.statusCode == 400
    ensures UniqueIds(rows) ==> UniqueIds(out.1)
  {
    if entity.None? then (Fail(Some(NullArgument), 400), rows)
    else if fault.Some? then (Fail(Some(fault.value)), rows)
    else if FirstIndex(rows, HasId(entity.value.id)).Some? then (Fail(Some(TrackingConflict)), rows)
    else (Succeed(EntityAdded), rows + [entity.value])
  }

  /** `UpdateAsync`: a null argument is a 400, a failure of `_dbSet.Update` is caught and
      answered with its message and the default 400; otherwise the entity is staged. */
  function UpdateEntity<D>(rows: seq<Entity<D>>, entity: Option<Entity<D>>, fault: Option<Message>): (out: (Result, seq<Entity<D>>))
    ensures entity.None? ==> out.0 == Fail(Some(NullArgument), 400)
    ensures out.0.success <==> entity.Some? && fault.None?
    ensures out.0.success ==> out.0 == Succeed(EntityUpdated) && out.1 == Replace(rows, entity.value)
    ensures !out.0.success ==> out.1 == rows && out.0.statusCode == 400
    ensures fault.Some? && entity.Some? ==> out.0.message == fault
  {
    if entity.None? then (Fail(Some(NullArgument), 400), rows)
    else if fault.Some? then (Fail(Some(fault.value)), rows)
    else (Succeed(EntityUpdated), Replace(rows, entity.value))
  }


  /** `DeleteAsync`: a soft delete. It looks the row up by id whatever its `Active`, refuses a
      null argument, an unknown id and an inactive row with 400, and otherwise clears `Active`
      and stamps `UpdateDate`. */
  function DeleteEntity<D>(rows: seq<Entity<D>>, entity: Option<Entity<D>>, now: Time): (out: (Result, seq<Entity<D>>))
    ensures entity.None? ==> out.0 == Fail(Some(NullArgument), 400)
    ensures entity.Some? && FirstIndex(rows, HasId(entity.value.id)).None? ==> out.0 == Fail(Some(DeleteNotFound), 400)
    ensures UniqueIds(rows) ==>
      (out.0.success <==> entity.Some? && exists k :: 0 <= k < |rows| && rows[k].id == entity.value.id && rows[k].active)
    ensures !out.0.success ==> out.1 == rows && out.0.statusCode == 400
    ensures out.0.success ==>
      var k := FirstIndex(rows, HasId(entity.value.id)).value;
      && out.1 == rows[k := rows[k].(active := false, updateDate := Some(now))]
      && out.0 == Succeed(EntityDeleted)
    ensures UniqueIds(rows) ==> UniqueIds(out.1)
  {
    if entity.None? then (Fail(Some(NullArgument), 400), rows)
    else match FirstIndex(rows, HasId(entity.value.id))
      case None => (Fail(Some(DeleteNotFound), 400), rows)
      case Some(k) =>
        if !rows[k].active then (Fail(Some(DeleteAlreadyDeleted), 400), rows)
        else (Succeed(EntityDeleted), rows[k := rows[k].(active := false, updateDate := Some(now))])
  }

  /** A filter on ids alone finds the same position in two tables with the same ids. */
  lemma {:induction false} FirstIndexByIdOnly<D>(rows: seq<Entity<D>>, rows': seq<Entity<D>>, id: Guid)
    requires |rows| == |rows'|
    requires forall k :: 0 <= k < |rows| ==> rows[k].id == rows'[k].id
    ensures FirstIndex(rows, HasId(id)) == FirstIndex(rows', HasId(id))
    decreases |rows|
  {
    if |rows| > 0 && rows[0].id != id {
      FirstIndexByIdOnly(rows[1..], rows'[1..], id);
    }
  }

  /** `DeleteAsync` is not idempotent: once it succeeded, the same call fails with "already
      marked as deleted" and changes nothing. */
  lemma DeleteTwiceFails<D>(rows: seq<Entity<D>>, entity: Entity<D>, now: Time, later: Time)
    requires DeleteEntity(rows, Some(entity), now).0.success
    ensures var rows' := DeleteEntity(rows, Some(entity), now).1;
      DeleteEntity(rows', Some(entity), later) == (Fail(Some(DeleteAlreadyDeleted), 400), rows')
  {
    var rows' := DeleteEntity(rows, Some(entity), now).1;
    FirstIndexByIdOnly(rows, rows', entity.id);
  }

  /** After a successful `DeleteAsync`, `GetByIdAsync` no longer finds the row. */
  lemma DeletedIsNotFound<D>(rows: seq<Entity<D>>, entity: Entity<D>, now: Time)
    requires UniqueIds(rows) && entity.id != EmptyGuid
    requires DeleteEntity(rows, Some(entity), now).0.success
    ensures GetById(DeleteEntity(rows, Some(entity), now).1, entity.id) == FailValue(Some(EntityNotFound), 404)
  {
  }

  /** An in-memory `DbSet<T>` behind a generic repository. */
  class GenericRepository<D> {
    var rows: seq<Entity<D>>

    ghost predicate Valid()
      reads this
    {
      UniqueIds(rows)
    }

    constructor (rows: seq<Entity<D>>)
      requires UniqueIds(rows)
      ensures Valid() && this.rows == rows
    {
      this.rows := rows;
    }

    method Add(entity: Option<Entity<D>>, fault: Option<Message>) returns (r: Result)
      requires Valid()
      modifies this
      ensures Valid()
      ensures (r, rows) == AddEntity(old(rows), entity, fault)
    {
      if entity.None? {
        return Fail(Some(NullArgument), 400);
      }
      if fault.Some? {
        return Fail(Some(fault.value));
      }
      if FirstIndex(rows, HasId(entity.value.id)).Some? {
        return Fail(Some(TrackingConflict));
      }
      rows := rows + [entity.value];
      r := Succeed(EntityAdded);
    }

    method Update(entity: Option<Entity<D>>, fault: Option<Message>) returns (r: Result)
      requires Valid()
      modifies this
      ensures Valid()
      ensures (r, rows) == UpdateEntity(old(rows), entity, fault)
    {
      if entity.None? {
        return Fail(Some(NullArgument), 400);
      }
      if fault.Some? {
        return Fail(Some(fault.value));
      }
      ReplaceKeepsUniqueIds(rows, entity.value);
      rows := Replace(rows, entity.value);
      r := Succeed(EntityUpdated);
    }

    method Delete(entity: Option<Entity<D>>, now: Time) returns (r: Result)
      requires Valid()
      modifies this
      ensures Valid()
      ensures (r, rows) == DeleteEntity(old(rows), entity, now)
    {
      if entity.None? {
        return Fail(Some(NullArgument), 400);
      }
      var found := FirstIndex(rows, HasId(entity.value.id));
      if found.None? {
        return Fail(Some(DeleteNotFound), 400);
      }
      var k := found.value;
      if !rows[k].active {
        return Fail(Some(DeleteAlreadyDeleted), 400);
      }
      rows := rows[k := rows[k].(active := false, updateDate := Some(now))];
      r := Succeed(EntityDeleted);
    }
  }
}
