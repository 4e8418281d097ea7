/** The `programs` table: lifecycle updates, restart recovery and resume. */
module Store {
  import opened Common
  import opened Program

  const RESTART_CODE := "daemon_restart"

  datatype Row = Row(
    state: ProgramState,
    startedAt: Option<int>,
    finishedAt: Option<int>,
    errorCode: Option<string>,
    errorMsg: Option<string>,
    cursor: nat)

  type Rows = map<Pid, Row>

  datatype StoreError = UnknownProgram | DuplicateProgram | NotResumable

  // ----- The table updates, as functions -----

  const NewRow := Row(Pending, None, None, None, None, 0)

  function StateSet(row: Row, state: ProgramState, now: int): Row {
    row.(state := state,
         startedAt := if row.startedAt.None? && state.Running? then Some(now) else row.startedAt,
         finishedAt := if state.Terminal() then Some(now) else row.finishedAt)
  }

  predicate Resumable(row: Row) {
    row.state.Failed? && row.errorCode == Some(RESTART_CODE)
  }

  function ResumeCursor(row: Row, fromStart: bool): nat {
    if fromStart then 0 else row.cursor
  }

  function ResumeSet(row: Row, fromStart: bool, now: int): Row {
    Row(Running, Some(row.startedAt.GetOr(now)), None, None, None, ResumeCursor(row, fromStart))
  }

  function RecoverRow(row: Row): Row {
    if row.state.Running?
    then row.(state := Failed, errorCode := Some(RESTART_CODE), errorMsg := Some("daemon restarted during execution"))
    else row
  }

  function Recover(rows: Rows): Rows {
    map id | id in rows :: RecoverRow(rows[id])
  }

  predicate Expired(row: Row, cutoff: int) {
    row.state.Terminal() && row.finishedAt.Some? && row.finishedAt.value < cutoff
  }

  // ----- The table updates, as they show in a row -----

  /** The state is new; the first run and every end are stamped; the rest stays. */
  ghost predicate StateUpdated(row: Row, state: ProgramState, now: int, row': Row) {
    && row'.state == state
    && row'.startedAt == (if row.startedAt.None? && state.Running? then Some(now) else row.startedAt)
    && row'.finishedAt == (if state.Completed? || state.Failed? || state.Cancelled? then Some(now) else row.finishedAt)
    && row'.errorCode == row.errorCode && row'.errorMsg == row.errorMsg && row'.cursor == row.cursor
  }

  /** A running row is failed and marked, at its cursor and with its stamps; others stay. */
  ghost predicate Recovered(row: Row, row': Row) {
    if row.state.Running? then
      && row'.state.Failed? && row'.errorCode == Some("daemon_restart")
      && row'.errorMsg == Some("daemon restarted during execution")
      && row'.cursor == row.cursor && row'.startedAt == row.startedAt && row'.finishedAt == row.finishedAt
    else row' == row
  }

  /** The row runs again from its cursor, or from 0, as if it had not ended. */
  ghost predicate Resumed(row: Row, fromStart: bool, now: int, row': Row) {
    && row'.state.Running? && row'.cursor == (if fromStart then 0 else row.cursor)
    && row'.startedAt == (if row.startedAt.None? then Some(now) else row.startedAt)
    && row'.finishedAt.None? && row'.errorCode.None? && row'.errorMsg.None?
  }

  class Db {
    var rows: Rows

    constructor ()
      ensures rows == map[]
    {
      rows := map[];
    }

    method InsertProgram(id: Pid) returns (r: Result<(), StoreError>)
      modifies this
      ensures r == if id in old(rows) then Err(DuplicateProgram) else Ok(())
      ensures rows == if r.Ok? then old(rows)[id := NewRow] else old(rows)
      ensures r.Ok? ==> id in rows && rows[id] == Row(Pending, None, None, None, None, 0)
    {
      if id in rows { return Err(DuplicateProgram); }
      rows := rows[id := NewRow];
      return Ok(());
    }

    method UpdateState(id: Pid, state: ProgramState, now: int) returns (r: Result<(), StoreError>)
      modifies this
      ensures r == if id in old(rows) then Ok(()) else Err(UnknownProgram)
      ensures rows == if r.Ok? then old(rows)[id := StateSet(old(rows)[id], state, now)] else old(rows)
      ensures r.Ok? ==> id in rows && StateUpdated(old(rows)[id], state, now, rows[id])
    {
      if id !in rows { return Err(UnknownProgram); }
      var row := rows[id];
      if row.startedAt.None? && state.Running? { row := row.(startedAt := Some(now)); }
      if state.Terminal() { row := row.(finishedAt := Some(now)); }
      rows := rows[id := row.(state := state)];
      return Ok(());
    }

    method SetBodyCursor(id: Pid, cursor: nat) returns (r: Result<(), StoreError>)
      modifies this
      ensures r == if id in old(rows) then Ok(()) else Err(UnknownProgram)
      ensures rows == if r.Ok? then old(rows)[id := old(rows)[id].(cursor := cursor)] else old(rows)
    {
      if id !in rows { return Err(UnknownProgram); }
      rows := rows[id := rows[id].(cursor := cursor)];
      return Ok(());
    }

    method SetLastError(id: Pid, code: string, msg: string)
      modifies this
      ensures rows == if id in old(rows)
                      then old(rows)[id := old(rows)[id].(errorCode := Some(code), errorMsg := Some(msg))] else old(rows)
    {
      if id in rows { rows := rows[id := rows[id].(errorCode := Some(code), errorMsg := Some(msg))]; }
    }

    /** Restart recovery. The query yields the rows in some `order`; the report lists
        exactly the running ones with their cursors. */
    method RecoverRunning(order: seq<Pid>) returns (recovered: seq<(Pid, nat)>)
      requires forall id :: id in order <==> id in rows
      requires forall i, j :: 0 <= i < j < |order| ==> order[i] != order[j]
      modifies this
      ensures rows == Recover(old(rows))
      ensures rows.Keys == old(rows).Keys && forall id :: id in rows ==> Recovered(old(rows)[id], rows[id])
      ensures forall id, c :: (id, c) in recovered <==> id in old(rows) && old(rows)[id].state.Running? && c == old(rows)[id].cursor
      ensures forall i, j :: 0 <= i < j < |recovered| ==> recovered[i].0 != recovered[j].0
    {
      recovered := [];
      for n := 0 to |order|
        invariant forall id, c :: (id, c) in recovered <==> id in order[..n] && rows[id].state.Running? && c == rows[id].cursor
        invariant forall i, j :: 0 <= i < j < |recovered| ==> recovered[i].0 != recovered[j].0
      {
        var id := order[n];
        assert order[..n + 1] == order[..n] + [id] && id !in order[..n];
        if rows[id].state.Running? {
          assert forall k :: 0 <= k < |recovered| ==> recovered[k] in recovered && recovered[k].0 != id;
          recovered := recovered + [(id, rows[id].cursor)];
        }
      }
      assert order[..|order|] == order;
      if recovered != [] {
        rows := map id | id in rows :: RecoverRow(rows[id]);
      } else {
        forall id | id in rows ensures !rows[id].state.Running? { assert (id, rows[id].cursor) !in recovered; }
        assert rows == Recover(rows);
      }
    }

    method ResumeProgram(id: Pid, fromStart: bool, now: int) returns (r: Result<nat, StoreError>)
      modifies this
      ensures r == if id !in old(rows) then Err(UnknownProgram)
                   else if !Resumable(old(rows)[id]) then Err(NotResumable)
                   else Ok(ResumeCursor(old(rows)[id], fromStart))
      ensures rows == if r.Ok? then old(rows)[id := ResumeSet(old(rows)[id], fromStart, now)] else old(rows)
      ensures r.Ok? <==> id in old(rows) && old(rows)[id].state.Failed? && old(rows)[id].errorCode == Some("daemon_restart")
      ensures r.Ok? ==> id in rows && Resumed(old(rows)[id], fromStart, now, rows[id]) && r.value == rows[id].cursor
    {
      if id !in rows { return Err(UnknownProgram); }
      var row := rows[id];
      if row.state != Failed || row.errorCode != Some(RESTART_CODE) { return Err(NotResumable); }
      var cursor := if fromStart then 0 else row.cursor;
      row := row.(state := Running, errorCode := None, errorMsg := None, cursor := cursor, finishedAt := None);
      if row.startedAt.None? { row := row.(startedAt := Some(now)); }
      rows := rows[id := row];
      return Ok(cursor);
    }
  }

  // ----- Recovery -----

  /** After recovery no row is running, every row it marked can be resumed at its own
      cursor (or from the start), nothing else about any row changed, and a second
      recovery changes nothing. */
  lemma RecoveryIsExact(rows: Rows, id: Pid)
    requires id in rows
    ensures !Recover(rows)[id].state.Running?
    ensures Recover(Recover(rows)) == Recover(rows)
    ensures Recover(rows)[id].cursor == rows[id].cursor && Recover(rows)[id].startedAt == rows[id].startedAt
    ensures Resumable(Recover(rows)[id]) <==> rows[id].state.Running? || Resumable(rows[id])
  {
  }

  // ----- Whole runs between recoveries -----

  datatype Op =
    | Insert(id: Pid)
    | Update(id: Pid, state: ProgramState, now: int)
    | SetCursor(id: Pid, cursor: nat)
    | SetError(id: Pid, code: string, msg: string)
    | Resume(id: Pid, fromStart: bool, now: int)
    | Collect(cutoff: int)

  function Apply(rows: Rows, op: Op): Rows {
    match op
    case Insert(id) => if id in rows then rows else rows[id := NewRow]
    case Update(id, state, now) => if id in rows then rows[id := StateSet(rows[id], state, now)] else rows
    case SetCursor(id, cursor) => if id in rows then rows[id := rows[id].(cursor := cursor)] else rows
    case SetError(id, code, msg) =>
      if id in rows then rows[id := rows[id].(errorCode := Some(code), errorMsg := Some(msg))] else rows
    case Resume(id, fromStart, now) =>
      if id in rows && Resumable(rows[id]) then rows[id := ResumeSet(rows[id], fromStart, now)] else rows
    case Collect(cutoff) => map id | id in rows && !Expired(rows[id], cutoff) :: rows[id]
  }

  ghost predicate StoreRun(rs: seq<Rows>, ops: seq<Op>) {
    && |rs| == |ops| + 1
    && (forall t :: 0 <= t < |ops| ==> rs[t + 1] == Apply(rs[t], ops[t]))
    && (forall t :: 0 <= t < |ops| ==> ops[t].SetError? ==> ops[t].code != RESTART_CODE)
  }

  ghost predicate Resumes(rs: seq<Rows>, ops: seq<Op>, t: nat, id: Pid)
    requires |rs| == |ops| + 1
  {
    t < |ops| && ops[t].Resume? && ops[t].id == id && id in rs[t] && Resumable(rs[t][id])
  }

  ghost predicate Marked(rows: Rows, id: Pid) {
    id in rows && rows[id].errorCode == Some(RESTART_CODE)
  }

  lemma {:induction false} MarkNeverAppears(rs: seq<Rows>, ops: seq<Op>, a: nat, b: nat, id: Pid)
    requires StoreRun(rs, ops) && a <= b < |rs| && !Marked(rs[a], id)
    ensures !Marked(rs[b], id)
  {
    if a < b {
      MarkNeverAppears(rs, ops, a, b - 1, id);
      assert rs[b] == Apply(rs[b - 1], ops[b - 1]);
    }
  }

  /** Between recoveries a row is resumed at most once, and only if recovery marked it. */
  lemma ResumedAtMostOnce(rs: seq<Rows>, ops: seq<Op>, a: nat, b: nat, id: Pid)
    requires StoreRun(rs, ops) && a < b && Resumes(rs, ops, a, id)
    ensures !Resumes(rs, ops, b, id)
    ensures Marked(rs[0], id)
  {
    if !Marked(rs[0], id) { MarkNeverAppears(rs, ops, 0, a, id); assert false; }
    assert rs[a + 1] == Apply(rs[a], ops[a]);
    if b < |ops| { MarkNeverAppears(rs, ops, a + 1, b, id); }
  }

  /** `started_at`, once set, never changes while the row exists. */
  lemma {:induction false} StartedAtIsStable(rs: seq<Rows>, ops: seq<Op>, a: nat, b: nat, id: Pid)
    requires StoreRun(rs, ops) && a <= b < |rs|
    requires forall t :: a <= t <= b ==> id in rs[t]
    requires rs[a][id].startedAt.Some?
    ensures rs[b][id].startedAt == rs[a][id].startedAt
  {
    if a < b {
      StartedAtIsStable(rs, ops, a, b - 1, id);
      assert rs[b] == Apply(rs[b - 1], ops[b - 1]);
    }
  }
}
