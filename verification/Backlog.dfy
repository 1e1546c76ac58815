/** The backlog table (core/backlog_db.py).

    The table is a map from row id to row; one SQL statement is one assignment to the map, and
    the write lock of the source makes each method atomic.  The functions say what a statement
    does to the table; `BacklogDb` is the table updated in place. */
module Backlog {
  import opened Wrappers

  type Time = real

  const MAX_ATTEMPTS: nat := 3

  datatype Status = Pending | Running | Completed | Failed | Paused | Abandoned

  /** A row of `backlog_tasks`.  A NULL in `retries` is read as 0 by every query, so it is 0 here. */
  datatype Row = Row(
    title: string, priority: int, createdAt: Time, status: Status,
    scheduledAt: Option<Time>, gitBranch: Option<string>, retries: nat,
    errorMessage: Option<string>, discoveryKey: Option<string>)

  type Table = map<nat, Row>

  // ---------------------------------------------------------------- which row is next

  predicate Due(row: Row, now: Time) { row.scheduledAt.None? || row.scheduledAt.value <= now }

  /** The clause of `_sql_et_params_tache_jouable`. */
  predicate Playable(row: Row, now: Time) {
    || (row.status.Pending? && Due(row, now))
    || (row.status.Failed? && row.retries < MAX_ATTEMPTS && Due(row, now))
  }

  predicate Eligible(rows: Table, id: nat, now: Time, excluded: set<nat>) {
    id in rows && id !in excluded && Playable(rows[id], now)
  }

  /** ORDER BY priority ASC, created_at ASC */
  predicate Before(a: Row, b: Row) {
    a.priority < b.priority || (a.priority == b.priority && a.createdAt < b.createdAt)
  }

  ghost predicate IsNext(rows: Table, id: nat, now: Time, excluded: set<nat>) {
    && Eligible(rows, id, now, excluded)
    && forall other :: Eligible(rows, other, now, excluded) ==> !Before(rows[other], rows[id])
  }

  /** The row that is next: the smallest priority, and the oldest of those. */
  lemma NextIsFirst(rows: Table, id: nat, other: nat, now: Time, excluded: set<nat>)
    requires IsNext(rows, id, now, excluded) && Eligible(rows, other, now, excluded)
    ensures rows[id].priority <= rows[other].priority
    ensures rows[id].priority == rows[other].priority ==> rows[id].createdAt <= rows[other].createdAt
  {
  }

  // ---------------------------------------------------------------- what a statement does

  function Reserved(rows: Table, id: nat): Table
    requires id in rows
  {
    rows[id := rows[id].(status := Running)]
  }

  /** `liberer_tache`: back to pending, branch forgotten, counters untouched, and only from running. */
  function Released(rows: Table, id: nat): Table {
    if id in rows && rows[id].status.Running?
    then rows[id := rows[id].(status := Pending, gitBranch := None)]
    else rows
  }

  function RecoveredRow(row: Row, now: Time): Row {
    if !row.status.Running? then row
    else if row.retries > 0 then row.(status := Failed, scheduledAt := Some(now))
    else row.(status := Pending)
  }

  /** `recuperer_taches_running_orphelines`: at boot no row is running. */
  function Recovered(rows: Table, now: Time): Table {
    map id | id in rows :: RecoveredRow(rows[id], now)
  }

  /** The optional columns of `update_task_status`: None leaves the column alone. */
  datatype Patch = Patch(
    scheduledAt: Option<Option<Time>>, gitBranch: Option<Option<string>>,
    retries: Option<nat>, errorMessage: Option<Option<string>>)

  const NOTHING := Patch(None, None, None, None)

  function PatchedRow(row: Row, status: Status, p: Patch): Row {
    row.(
      status := status,
      scheduledAt := if p.scheduledAt.Some? then p.scheduledAt.value else row.scheduledAt,
      gitBranch := if p.gitBranch.Some? then p.gitBranch.value else row.gitBranch,
      retries := if p.retries.Some? then p.retries.value else row.retries,
      errorMessage := if p.errorMessage.Some? then p.errorMessage.value else row.errorMessage)
  }

  function Updated(rows: Table, id: nat, status: Status, p: Patch): Table {
    if id in rows then rows[id := PatchedRow(rows[id], status, p)] else rows
  }

  function NewRow(title: string, priority: int, now: Time, scheduledAt: Option<Time>, key: Option<string>): Row {
    Row(title, priority, now, Pending, scheduledAt, None, 0, None, key)
  }

  /** The clause in columns. */
  lemma EligibleIff(rows: Table, id: nat, now: Time, excluded: set<nat>)
    ensures Eligible(rows, id, now, excluded) <==>
      && id in rows && id !in excluded
      && (rows[id].status.Pending? || (rows[id].status.Failed? && rows[id].retries < 3))
      && (rows[id].scheduledAt.None? || rows[id].scheduledAt.value <= now)
  {
  }

  // ---------------------------------------------------------------- the table in place

  ghost predicate KeysUnique(rows: Table) {
    forall i, j :: i in rows && j in rows && i != j && rows[i].discoveryKey.Some? ==>
      rows[i].discoveryKey != rows[j].discoveryKey
  }

  class BacklogDb {
    var rows: Table
    var nextId: nat

    /** AUTOINCREMENT never reuses an id, and the partial unique index on `discovery_key`. */
    ghost predicate Valid()
      reads this
    {
      (forall id :: id in rows ==> id < nextId) && KeysUnique(rows)
    }

    constructor ()
      ensures Valid() && rows == map[]
    {
      rows, nextId := map[], 1;
    }

    method AddTask(title: string, priority: int, now: Time, scheduledAt: Option<Time>, key: Option<string>)
      returns (id: nat)
      requires Valid()
      modifies this
      ensures Valid()
      ensures key.Some? && (exists i :: i in old(rows) && old(rows)[i].discoveryKey == key) ==>
        id in rows && rows[id].discoveryKey == key && rows == old(rows)
      ensures key.None? || (forall i :: i in old(rows) ==> old(rows)[i].discoveryKey != key) ==>
        && id !in old(rows)
        && rows == old(rows)[id := Row(title, priority, now, Pending, scheduledAt, None, 0, None, key)]
    {
      if key.Some? {
        var todo := rows.Keys;
        while todo != {}
          invariant todo <= rows.Keys
          invariant forall i :: i in rows && i !in todo ==> rows[i].discoveryKey != key
          decreases |todo|
        {
          var i :| i in todo;
          if rows[i].discoveryKey == key { return i; }
          todo := todo - {i};
        }
      }
      id := nextId;
      rows := rows[id := NewRow(title, priority, now, scheduledAt, key)];
      nextId := nextId + 1;
    }

    /** SELECT ... ORDER BY ... LIMIT 1: any of the first rows in that order. */
    method NextTask(now: Time, excluded: set<nat>) returns (next: Option<nat>)
      ensures next.None? ==> forall id :: !Eligible(rows, id, now, excluded)
      ensures next.Some? ==> IsNext(rows, next.value, now, excluded)
      ensures forall id :: Eligible(rows, id, now, excluded) ==>
        && next.Some? && next.value in rows
        && rows[next.value].priority <= rows[id].priority
        && (rows[next.value].priority == rows[id].priority ==> rows[next.value].createdAt <= rows[id].createdAt)
    {
      next := None;
      var todo := rows.Keys;
      while todo != {}
        invariant todo <= rows.Keys
        invariant next.None? ==> forall id :: id !in todo ==> !Eligible(rows, id, now, excluded)
        invariant next.Some? ==> Eligible(rows, next.value, now, excluded)
        invariant next.Some? ==>
          forall id :: id !in todo && Eligible(rows, id, now, excluded) ==> !Before(rows[id], rows[next.value])
        decreases |todo|
      {
        var id :| id in todo;
        if Eligible(rows, id, now, excluded) && (next.None? || Before(rows[id], rows[next.value])) {
          next := Some(id);
        }
        todo := todo - {id};
      }
    }

    /** SELECT and UPDATE under one lock.  The row handed to the caller is the one read by the
        SELECT: it still carries the status from before the reservation. */
    method ReserveNext(now: Time, excluded: set<nat>) returns (task: Option<(nat, Row)>)
      requires Valid()
      modifies this
      ensures Valid() && nextId == old(nextId)
      ensures task.None? ==> rows == old(rows) && forall id :: !Eligible(rows, id, now, excluded)
      ensures task.Some? ==>
        && IsNext(old(rows), task.value.0, now, excluded)
        && task.value.1 == old(rows)[task.value.0]
        && rows == Reserved(old(rows), task.value.0)
        && rows == old(rows)[task.value.0 := task.value.1.(status := Running)]
    {
      var next := NextTask(now, excluded);
      if next.None? { return None; }
      var id := next.value;
      var row := rows[id];
      if rows[id].status.Pending? || rows[id].status.Failed? {
        rows := rows[id := rows[id].(status := Running)];
      }
      task := Some((id, row));
    }

    method UpdateTaskStatus(id: nat, status: Status, p: Patch) returns (found: bool)
      requires Valid()
      modifies this
      ensures Valid() && nextId == old(nextId)
      ensures found <==> id in old(rows)
      ensures rows == Updated(old(rows), id, status, p)
      ensures rows.Keys == old(rows).Keys
      ensures forall other :: other in rows && other != id ==> rows[other] == old(rows)[other]
      ensures found ==>
        var was, row := old(rows)[id], rows[id];
        && row.status == status && row.title == was.title && row.priority == was.priority
        && row.createdAt == was.createdAt && row.discoveryKey == was.discoveryKey
        && row.scheduledAt == (if p.scheduledAt.Some? then p.scheduledAt.value else was.scheduledAt)
        && row.gitBranch == (if p.gitBranch.Some? then p.gitBranch.value else was.gitBranch)
        && row.retries == (if p.retries.Some? then p.retries.value else was.retries)
        && row.errorMessage == (if p.errorMessage.Some? then p.errorMessage.value else was.errorMessage)
    {
      found := id in rows;
      if found { rows := rows[id := PatchedRow(rows[id], status, p)]; }
    }

    method Release(id: nat) returns (released: bool)
      requires Valid()
      modifies this
      ensures Valid() && nextId == old(nextId)
      ensures released <==> id in old(rows) && old(rows)[id].status.Running?
      ensures rows == Released(old(rows), id)
      ensures rows ==
        if released then old(rows)[id := old(rows)[id].(status := Pending, gitBranch := None)] else old(rows)
    {
      released := id in rows && rows[id].status.Running?;
      if released { rows := rows[id := rows[id].(status := Pending, gitBranch := None)]; }
    }

    /** Two UPDATEs, one after the other; the first must not hide rows from the second. */
    method RecoverOrphans(now: Time) returns (failed: nat, pending: nat)
      requires Valid()
      modifies this
      ensures Valid() && nextId == old(nextId)
      ensures rows == Recovered(old(rows), now)
      ensures rows.Keys == old(rows).Keys
      ensures forall id :: id in rows ==>
        var was := old(rows)[id];
        if !was.status.Running? then rows[id] == was
        else if was.retries > 0 then rows[id] == was.(status := Failed, scheduledAt := Some(now))
        else rows[id] == was.(status := Pending)
      ensures failed == |Orphans(old(rows), true)| && pending == |Orphans(old(rows), false)|
    {
      var retried := Orphans(rows, true);
      rows := map id | id in rows ::
        if id in retried then rows[id].(status := Failed, scheduledAt := Some(now)) else rows[id];
      var first := Orphans(rows, false);
      assert first == Orphans(old(rows), false);
      rows := map id | id in rows :: if id in first then rows[id].(status := Pending) else rows[id];
      failed, pending := |retried|, |first|;
    }
  }

  /** The WHERE clauses of the two recovery statements. */
  function Orphans(rows: Table, retried: bool): set<nat> {
    set id | id in rows && rows[id].status.Running? && (rows[id].retries > 0) == retried
  }
}
