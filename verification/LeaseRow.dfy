/**
  The singleton row of `quant_ingest_mutation_lease` and the three guarded UPDATE
  statements that are ever sent to it.  A statement carries everything its sender
  knew; the server evaluates the guard against the row it finds and against its
  own clock, and reports whether one row changed.
 */
module LeaseRow {

  datatype Phase = Vacant | Acquired | Migrating | Verifying | RecoveryRequired

  /** Owner and nonce are always compared together. */
  datatype Token = Token(owner: string, nonce: string)

  datatype Identity = Identity(environment: string, databaseId: string, manifestDigest: string, sourceSha: string)

  datatype Row = Row(identity: Identity, token: Token, phase: Phase, expiresAt: int, spawned: bool)

  /** The arguments of one phase transition: allowed sources, target, spawn flag, expiry guard. */
  datatype Change = Change(from: set<Phase>, to: Phase, spawned: bool, unexpiredOnly: bool)

  datatype Statement =
    | Acquire(token: Token, identity: Identity, expiresAt: int)
    | Set(token: Token, change: Change, expiresAt: int)
    | Release(token: Token, allowRecovery: bool)

  const NO_TOKEN := Token("", "")
  const NO_IDENTITY := Identity("", "", "", "")
  const EPOCH := 0
  const VACANT_ROW := Row(NO_IDENTITY, NO_TOKEN, Vacant, EPOCH, false)

  const ACTIVE: set<Phase> := {Acquired, Migrating, Verifying, RecoveryRequired}

  /** The four transitions of a migration: claim, announce the spawn, accept, give up. */
  const MARK := Change({Acquired}, Migrating, false, true)
  const MARK_SPAWNED := Change({Migrating}, Migrating, true, true)
  const VERIFY := Change({Migrating}, Verifying, false, false)
  const RECOVER := Change({Migrating}, RecoveryRequired, true, false)

  /** Renewal and resumption write back the phase and flag that were read. */
  function Keep(phase: Phase, spawned: bool, unexpiredOnly: bool): Change {
    Change({phase}, phase, spawned, unexpiredOnly)
  }

  predicate IsToken(t: Token) {
    t.owner != "" && t.nonce != ""
  }

  /** The WHERE clause; `now` is the server's clock. */
  predicate Guard(row: Row, st: Statement, now: int) {
    match st
    case Acquire(_, _, _) =>
      row.phase.Vacant? || (row.phase.Acquired? && !row.spawned && row.expiresAt <= now)
    case Set(token, change, _) =>
      row.token == token && row.phase in change.from && (change.unexpiredOnly ==> now < row.expiresAt)
    case Release(token, allowRecovery) =>
      && row.token == token
      && (row.phase.Acquired? || row.phase.Verifying? || (allowRecovery && row.phase.RecoveryRequired?))
      && !row.spawned
  }

  /** The SET clause. */
  function Written(row: Row, st: Statement): Row {
    match st
    case Acquire(token, identity, expiresAt) => Row(identity, token, Acquired, expiresAt, false)
    case Set(_, change, expiresAt) => row.(phase := change.to, spawned := change.spawned, expiresAt := expiresAt)
    case Release(_, _) => VACANT_ROW
  }

  function Execute(row: Row, st: Statement, now: int): Row {
    if Guard(row, st, now) then Written(row, st) else row
  }

  /** What `revalidate_mutation_lease` requires of the row, apart from expiry. */
  predicate Valid(row: Row, identity: Identity, token: Token, allowed: set<Phase>) {
    row.identity == identity && row.token == token && row.phase in allowed
  }
}
