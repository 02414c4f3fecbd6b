/** The order in which one migration runner touches its connection, shared by the runner
    itself and by the model of several sessions side by side. */
module MigrationProtocol {
  import opened Prelude

  /** How far a session has got. `Nested` is inside the second, re-entered acquisition. */
  datatype Phase =
    | Outside | Holding | HeadsRead | PendingRead
    | Nested | Migrated | NestedReleased | NestedFailed | Reread | Released

  datatype Call =
    | Acquire | ReadHeads | LoadPending | AcquireNested | RunMigrations | ReleaseNested | Release

  /** The phase after a call that goes through; None when the runner never issues it there. */
  function Advance(p: Phase, c: Call): Option<Phase> {
    match (p, c)
    case (Outside, Acquire) => Some(Holding)
    case (Holding, ReadHeads) => Some(HeadsRead)
    case (HeadsRead, LoadPending) => Some(PendingRead)
    case (PendingRead, AcquireNested) => Some(Nested)
    case (Nested, RunMigrations) => Some(Migrated)
    case (Nested, ReleaseNested) => Some(NestedFailed)
    case (Migrated, ReleaseNested) => Some(NestedReleased)
    case (NestedReleased, ReadHeads) => Some(Reread)
    case (_, Release) => if Depth(p) == 1 then Some(Released) else None
    case _ => None
  }

  /** How many times a session in this phase holds the advisory lock. */
  function Depth(p: Phase): nat {
    match p
    case Outside => 0
    case Released => 0
    case Nested => 2
    case Migrated => 2
    case _ => 1
  }
}
