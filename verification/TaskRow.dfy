/**
The columns of one task row that admission depends on, and the guarded writes of
internal/store/tasks.go as functions on them.  Each write is one transaction there, so
it is one step here; None as the row is a missing id.
*/
module TaskRow {
  datatype TaskState =
    | Queued | Downloading | Checking | Paused | Seeding
    | Completed | Extracting | Moving | Failed | Removed

  /** error_code, as far as any guard reads it. */
  datatype Code = NoCode | DiskFull | ConcurrencyLimit | OtherCode

  datatype Row = Row(state: TaskState, code: Code, pending: bool)

  const Active: set<TaskState> := {Downloading, Checking, Extracting, Moving}

  const HoldCodes: set<Code> := {DiskFull, ConcurrencyLimit}

  /** The edge table of the task states without the universal targets. */
  function Edges(from: TaskState): set<TaskState> {
    match from
    case Queued => {Downloading, Checking, Seeding, Completed}
    case Downloading => {Queued, Checking, Seeding, Completed}
    case Checking => {Queued, Downloading, Seeding, Completed}
    case Paused => {Queued, Downloading, Checking, Seeding, Completed}
    case Seeding => {Queued, Downloading, Checking, Completed, Extracting, Moving}
    case Completed => {Checking, Seeding, Extracting, Moving}
    case Extracting => {Moving, Completed}
    case Moving => {Completed, Seeding}
    case Failed => {Queued, Completed}
    case Removed => {}
  }

  predicate Legal(from: TaskState, next: TaskState) {
    from != Removed && from != next && (next in {Paused, Failed, Removed} || next in Edges(from))
  }

  /** The same table read from the other end: the states a task may come from. */
  function Sources(next: TaskState): set<TaskState> {
    match next
    case Queued => {Downloading, Checking, Paused, Seeding, Failed}
    case Downloading => {Queued, Checking, Paused, Seeding}
    case Checking => {Queued, Downloading, Paused, Seeding, Completed}
    case Paused => {Queued, Downloading, Checking, Seeding, Completed, Extracting, Moving, Failed}
    case Seeding => {Queued, Downloading, Checking, Paused, Completed, Moving}
    case Completed => {Queued, Downloading, Checking, Paused, Seeding, Extracting, Moving, Failed}
    case Extracting => {Seeding, Completed}
    case Moving => {Seeding, Completed, Extracting}
    case Failed => {Queued, Downloading, Checking, Paused, Seeding, Completed, Extracting, Moving}
    case Removed => {Queued, Downloading, Checking, Paused, Seeding, Completed, Extracting, Moving, Failed}
  }

  lemma LegalFromBothEnds(from: TaskState, next: TaskState)
    ensures Legal(from, next) <==> from in Sources(next)
  {
  }

  /** One more slot in use: the counted set of the concurrency limits. */
  predicate Counted(row: Row) {
    row.state in Active || (row.state == Queued && row.pending)
  }

  /** The rows an admission pass selects. */
  predicate Selectable(row: Row) {
    row.state == Queued || (row.state == Paused && row.code == DiskFull)
  }

  /** Transition: every state move drops the pass's ownership mark, none touches the code. */
  function Transitioned(row: Row, next: TaskState): Row {
    if Legal(row.state, next) then row.(state := next, pending := false) else row
  }

  function StampedIfState(row: Row, expected: TaskState, code: Code): Row {
    if row.state == expected then row.(code := code) else row
  }

  /** PauseWithCode from the counted active states. */
  function PausedWithCode(row: Row, code: Code): Row {
    if row.state in Active then Row(Paused, code, false) else row
  }

  function HoldCodeCleared(row: Row): Row {
    if row.state != Paused && row.code in HoldCodes then row.(code := NoCode) else row
  }

  function PausedHoldCodeCleared(row: Row): Row {
    if row.state == Paused && row.code in HoldCodes then row.(code := NoCode) else row
  }

  predicate ClaimTakes(row: Row) {
    row.state == Paused && row.code == DiskFull
  }

  function Marked(row: Row): Row {
    if row.state == Queued then row.(pending := true) else row
  }
}
