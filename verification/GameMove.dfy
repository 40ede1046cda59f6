/**
 Moving a game server to another node: the coordinator's phases, the target staging
 record, physical commands and the DNS record.  A database batch is one atomic step
 that its triggers may refuse and whose response may be lost.
 */
module GameMove {
  import opened Faults
  import opened Prelude
  import opened CommandEnvelopes

  type CommandRows = map<string, PhysicalRow>

  datatype Phase = Reserved | BackedUp | Stopped | Restoring | Validated | CutOver | Released | RolledBack | PhaseFailed

  datatype EffectState = EffectPrepared | EffectCutOver | EffectReleased | EffectRolledBack
  datatype Effect = Effect(state: EffectState, revision: nat)

  datatype StageState = StagePrepared | StageStaged | StageValidated | StageCommitted | StageActive | StageRolledBack
  datatype Stage = Stage(backupId: string, state: StageState, revision: nat)

  datatype ReservationState = TargetReserved | TargetActive | TargetReleased | TargetRolledBack

  datatype HoldingState = HeldReserved | HeldActive | HeldReleased

  /** A capacity reservation or a port lease of the server. */
  datatype Holding = Holding(node: string, state: HoldingState)

  datatype ReceiptPhase = BackupReceipt | RestoreReceipt | ValidateReceipt | CutoverReceipt | ReleaseReceipt | RollbackReceipt
  datatype Direction = Forward | Backward

  /** The database rows of one move. */
  datatype Db = Db(
    phase: Phase, revision: nat, backupId: Option<string>, effect: Option<Effect>,
    deploymentNode: string, capacity: seq<Holding>, leases: seq<Holding>,
    reservation: ReservationState, receipts: set<ReceiptPhase>, dnsReceipts: set<Direction>, stage: Option<Stage>)

  datatype DnsRecord = DnsRecord(id: string, content: string)

  /** What a move never changes about itself. */
  datatype Plan = Plan(source: string, target: string, hasDns: bool, dnsId: string, dnsSource: string, dnsTarget: string)

  const RESTORE_STAGE := "restore-stage"
  const RESTORE_VALIDATE := "restore-validate"
  const RESTORE_COMMIT := "restore-commit"
  const ACTIVATE_TARGET := "activate-target"
  const RELEASE_SOURCE := "release-source"
  const ROLLBACK_TARGET := "rollback-target"
  const ROLLBACK_STAGE := "rollback-stage"
  const ROLLBACK_SOURCE_DEPLOY := "rollback-source-deploy"
  const ROLLBACK_SOURCE_START := "rollback-source-start"
  const ACTIONS := {
    RESTORE_STAGE, RESTORE_VALIDATE, RESTORE_COMMIT, ACTIVATE_TARGET, RELEASE_SOURCE,
    ROLLBACK_TARGET, ROLLBACK_STAGE, ROLLBACK_SOURCE_DEPLOY, ROLLBACK_SOURCE_START}

  function Rank(phase: Phase): nat {
    match phase
    case Reserved => 0
    case BackedUp => 1
    case Stopped => 2
    case Restoring => 3
    case Validated => 4
    case CutOver => 5
    case Released => 6
    case RolledBack => 7
    case PhaseFailed => 8
  }

  // --- placement -----------------------------------------------------------------

  predicate Live(h: Holding) {
    h.state != HeldReleased
  }

  predicate AllAt(holdings: seq<Holding>, node: string) {
    forall h <- holdings :: Live(h) ==> h.node == node
  }

  /** Deployment, capacity and port leases are all on one node. */
  predicate On(db: Db, node: string) {
    db.deploymentNode == node && AllAt(db.capacity, node) && AllAt(db.leases, node)
  }

  function MoveCapacity(holdings: seq<Holding>, from: string, to: string): (r: seq<Holding>)
    ensures |r| == |holdings|
    ensures AllAt(holdings, from) ==> AllAt(r, to)
  {
    seq(|holdings|, i requires 0 <= i < |holdings| =>
      if Live(holdings[i]) && holdings[i].node == from then Holding(to, HeldActive) else holdings[i])
  }

  function MoveLeases(holdings: seq<Holding>, from: string, to: string): (r: seq<Holding>)
    ensures |r| == |holdings|
    ensures AllAt(holdings, from) ==> AllAt(r, to)
    ensures forall i :: 0 <= i < |r| ==> r[i].state == holdings[i].state
  {
    seq(|holdings|, i requires 0 <= i < |holdings| =>
      if Live(holdings[i]) && holdings[i].node == from then holdings[i].(node := to) else holdings[i])
  }

  // --- fences ----------------------------------------------------------------------

  /** The transition fence on phases. */
  predicate PhaseAllowed(from: Phase, to: Phase) {
    || (from == Reserved && to == BackedUp)
    || (from == BackedUp && to in {Stopped, PhaseFailed, RolledBack})
    || (from == Stopped && to in {Restoring, PhaseFailed, RolledBack})
    || (from == Restoring && to in {Validated, PhaseFailed, RolledBack})
    || (from == Validated && to in {CutOver, PhaseFailed, RolledBack})
    || (from == CutOver && to in {Released, PhaseFailed, RolledBack})
    || (from == to && from in {Released, RolledBack, PhaseFailed})
  }

  /** The fence on effect transitions. */
  predicate EffectAllowed(from: EffectState, to: EffectState) {
    || (from == EffectPrepared && to in {EffectCutOver, EffectRolledBack})
    || (from == EffectCutOver && to in {EffectReleased, EffectRolledBack})
    || (from == EffectReleased && to == EffectRolledBack)
    || (from == to == EffectRolledBack)
  }

  /** When a physical receipt may be inserted. */
  predicate ReceiptAllowed(db: Db, receipt: ReceiptPhase) {
    && receipt !in db.receipts
    && db.effect.Some?
    && match receipt
       case ReleaseReceipt => db.effect.value.state == EffectCutOver
       case RollbackReceipt => db.effect.value.state != EffectRolledBack
       case _ => db.effect.value.state == EffectPrepared
  }

  /** The physical fence on the phases that claim a placement. */
  predicate PhysicalAllowed(plan: Plan, old_: Phase, db: Db) {
    match db.phase
    case CutOver =>
      && db.effect.Some? && db.effect.value.state == EffectCutOver && CutoverReceipt in db.receipts
      && db.deploymentNode == plan.target
      && Holding(plan.target, HeldActive) in db.capacity
      && AllAt(db.leases, plan.target)
      && db.reservation == TargetActive
      && (plan.hasDns ==> Forward in db.dnsReceipts)
    case Released =>
      && db.effect.Some? && db.effect.value.state == EffectReleased && ReleaseReceipt in db.receipts
      && db.deploymentNode == plan.target
      && db.reservation == TargetReleased
    case RolledBack =>
      && db.effect.Some? && db.effect.value.state == EffectRolledBack && RollbackReceipt in db.receipts
      && db.reservation == TargetRolledBack
      && (old_ == CutOver ==>
            && db.deploymentNode == plan.source
            && Holding(plan.source, HeldActive) in db.capacity
            && AllAt(db.leases, plan.source))
      && (plan.hasDns ==> Backward in db.dnsReceipts)
    case _ => true
  }

  // --- batches -----------------------------------------------------------------------

  /** The rows after a batch that only moves the phase. */
  function Advanced(db: Db, next: Phase, backupId: Option<string>, receipt: Option<ReceiptPhase>): Db {
    db.(phase := next, revision := db.revision + 1,
        backupId := if backupId.Some? then backupId else db.backupId,
        receipts := if receipt.Some? then db.receipts + {receipt.value} else db.receipts)
  }

  predicate AdvanceAllowed(db: Db, next: Phase, backupId: Option<string>, receipt: Option<ReceiptPhase>) {
    && PhaseAllowed(db.phase, next)
    && (receipt.Some? ==> ReceiptAllowed(db, receipt.value))
    && (backupId.Some? && db.backupId.Some? ==> backupId == db.backupId)
  }

  function WithEffect(db: Db, state: EffectState): Db
    requires db.effect.Some?
  {
    db.(effect := Some(Effect(state, db.effect.value.revision + 1)))
  }

  /** The rows after the cutover batch. */
  function CutoverRows(plan: Plan, db: Db): Db
    requires db.effect.Some?
  {
    WithEffect(db, EffectCutOver).(
      receipts := db.receipts + {CutoverReceipt},
      dnsReceipts := if plan.hasDns then db.dnsReceipts + {Forward} else db.dnsReceipts,
      deploymentNode := if db.deploymentNode == plan.source then plan.target else db.deploymentNode,
      capacity := MoveCapacity(db.capacity, plan.source, plan.target),
      leases := MoveLeases(db.leases, plan.source, plan.target),
      reservation := if db.reservation == TargetReserved then TargetActive else db.reservation,
      phase := CutOver, revision := db.revision + 1)
  }

  predicate CutoverAllowed(plan: Plan, db: Db) {
    && db.phase == Validated
    && ReceiptAllowed(db, CutoverReceipt)
    && (plan.hasDns ==> Forward !in db.dnsReceipts)
    && EffectAllowed(db.effect.value.state, EffectCutOver)
    && PhysicalAllowed(plan, db.phase, CutoverRows(plan, db))
  }

  function ReleaseRows(db: Db): Db
    requires db.effect.Some?
  {
    WithEffect(db, EffectReleased).(
      receipts := db.receipts + {ReleaseReceipt},
      reservation := if db.reservation == TargetActive then TargetReleased else db.reservation,
      phase := Released, revision := db.revision + 1)
  }

  predicate ReleaseAllowed(plan: Plan, db: Db) {
    && db.phase == CutOver
    && ReceiptAllowed(db, ReleaseReceipt)
    && EffectAllowed(db.effect.value.state, EffectReleased)
    && PhysicalAllowed(plan, db.phase, ReleaseRows(db))
  }

  /** The rows after the rollback batch; only a committed cutover has anything to move back. */
  function RollbackRows(plan: Plan, db: Db): Db
    requires db.effect.Some?
  {
    var placed :=
      if db.phase == CutOver
      then db.(deploymentNode := if db.deploymentNode == plan.target then plan.source else db.deploymentNode,
               capacity := MoveCapacity(db.capacity, plan.target, plan.source),
               leases := MoveLeases(db.leases, plan.target, plan.source))
      else db;
    WithEffect(placed, EffectRolledBack).(
      receipts := db.receipts + {RollbackReceipt},
      dnsReceipts := if plan.hasDns then db.dnsReceipts + {Backward} else db.dnsReceipts,
      reservation := if db.reservation in {TargetReserved, TargetActive} then TargetRolledBack else db.reservation,
      phase := RolledBack, revision := db.revision + 1)
  }

  predicate RollbackAllowed(plan: Plan, db: Db) {
    && PhaseAllowed(db.phase, RolledBack)
    && ReceiptAllowed(db, RollbackReceipt)
    && (plan.hasDns ==> Backward !in db.dnsReceipts)
    && EffectAllowed(db.effect.value.state, EffectRolledBack)
    && PhysicalAllowed(plan, db.phase, RollbackRows(plan, db))
  }

  // --- what the phases promise ---------------------------------------------------------

  /** The receipts that exist in a phase on the way forward. */
  function ReceiptsOf(phase: Phase): set<ReceiptPhase> {
    (if Rank(phase) >= 1 then {BackupReceipt} else {})
    + (if Rank(phase) >= 3 then {RestoreReceipt} else {})
    + (if Rank(phase) >= 4 then {ValidateReceipt} else {})
    + (if Rank(phase) >= 5 then {CutoverReceipt} else {})
    + (if Rank(phase) >= 6 then {ReleaseReceipt} else {})
  }

  /** Phase, effect, receipts, target reservation and placement agree. */
  predicate Consistent(plan: Plan, db: Db) {
    && plan.source != plan.target
    && (db.phase != Reserved ==> db.effect.Some? && db.backupId.Some?)
    && (db.phase != RolledBack ==>
          && db.receipts == ReceiptsOf(db.phase)
          && db.dnsReceipts == if plan.hasDns && Rank(db.phase) >= 5 then {Forward} else {})
    && match db.phase
       case CutOver =>
         && db.effect.value.state == EffectCutOver && db.reservation == TargetActive
         && On(db, plan.target)
       case Released =>
         && db.effect.value.state == EffectReleased && db.reservation == TargetReleased
         && On(db, plan.target)
       case RolledBack =>
         && db.effect.value.state == EffectRolledBack && db.reservation == TargetRolledBack
         && On(db, plan.source)
       case _ =>
         && db.phase != PhaseFailed
         && (db.effect.Some? ==> db.effect.value.state == EffectPrepared) && db.reservation == TargetReserved
         && On(db, plan.source)
  }

  lemma CutoverPlaces(plan: Plan, db: Db)
    requires Consistent(plan, db) && CutoverAllowed(plan, db)
    ensures Consistent(plan, CutoverRows(plan, db)) && On(CutoverRows(plan, db), plan.target)
  {
  }

  lemma ReleaseKeepsPlace(plan: Plan, db: Db)
    requires Consistent(plan, db) && ReleaseAllowed(plan, db)
    ensures Consistent(plan, ReleaseRows(db)) && On(ReleaseRows(db), plan.target)
  {
  }

  lemma RollbackReturns(plan: Plan, db: Db)
    requires Consistent(plan, db) && RollbackAllowed(plan, db)
    ensures Consistent(plan, RollbackRows(plan, db)) && On(RollbackRows(plan, db), plan.source)
  {
  }

  lemma AdvanceKeeps(plan: Plan, db: Db, next: Phase, backupId: Option<string>, receipt: Option<ReceiptPhase>)
    requires Consistent(plan, db) && AdvanceAllowed(db, next, backupId, receipt)
    requires next in {BackedUp, Stopped, Restoring, Validated}
    requires receipt == match next
                        case BackedUp => Some(BackupReceipt)
                        case Restoring => Some(RestoreReceipt)
                        case Validated => Some(ValidateReceipt)
                        case _ => None
    requires next == BackedUp ==> backupId.Some?
    ensures Consistent(plan, Advanced(db, next, backupId, receipt))
  {
  }

  lemma HeldMoves(holdings: seq<Holding>, from: string, to: string)
    requires AllAt(holdings, from)
    ensures Holding(to, HeldActive) in MoveCapacity(holdings, from, to) <==> exists h <- holdings :: h.state != HeldReleased
  {
    var moved := MoveCapacity(holdings, from, to);
    if h :| h in holdings && h.state != HeldReleased {
      var i :| 0 <= i < |holdings| && holdings[i] == h;
      assert moved[i] == Holding(to, HeldActive);
    }
    if Holding(to, HeldActive) in moved {
      var i :| 0 <= i < |moved| && moved[i] == Holding(to, HeldActive);
      assert holdings[i].state != HeldReleased;
    }
  }

  /** The cutover batch is admitted exactly for a validated move that still holds capacity. */
  lemma CutoverAdmitted(plan: Plan, db: Db)
    requires Consistent(plan, db) && db.effect.Some?
    ensures CutoverAllowed(plan, db) <==> db.phase == Validated && exists h <- db.capacity :: h.state != HeldReleased
  {
    hide MoveCapacity, MoveLeases;
    if db.phase == Validated {
      HeldMoves(db.capacity, plan.source, plan.target);
    }
  }

  /** The release batch is admitted exactly for a cut-over move. */
  lemma ReleaseAdmitted(plan: Plan, db: Db)
    requires Consistent(plan, db) && db.effect.Some?
    ensures ReleaseAllowed(plan, db) <==> db.phase == CutOver
  {
  }

  /**
   The rollback batch is admitted exactly once a backup was taken and before the release,
   after a cutover only while capacity is still held.
   */
  lemma RollbackAdmitted(plan: Plan, db: Db)
    requires Consistent(plan, db) && db.effect.Some?
    ensures RollbackAllowed(plan, db) <==>
              || db.phase in {BackedUp, Stopped, Restoring, Validated}
              || (db.phase == CutOver && exists h <- db.capacity :: h.state != HeldReleased)
  {
    hide MoveCapacity, MoveLeases;
    if db.phase == CutOver {
      HeldMoves(db.capacity, plan.target, plan.source);
    }
  }

  /** An earlier phase follows exactly the one before it, and a backup is taken once. */
  lemma AdvanceAdmitted(plan: Plan, db: Db, next: Phase, backupId: Option<string>, receipt: Option<ReceiptPhase>)
    requires Consistent(plan, db) && db.effect.Some?
    requires next in {BackedUp, Stopped, Restoring, Validated}
    requires receipt == match next
                        case BackedUp => Some(BackupReceipt)
                        case Restoring => Some(RestoreReceipt)
                        case Validated => Some(ValidateReceipt)
                        case _ => None
    ensures AdvanceAllowed(db, next, backupId, receipt) <==>
              && (backupId.Some? && db.backupId.Some? ==> backupId == db.backupId)
              && db.phase == match next
                             case BackedUp => Reserved
                             case Stopped => BackedUp
                             case Restoring => Stopped
                             case _ => Restoring
  {
  }

  /** Undoing a cutover gives every live lease back its node and state, and the deployment its node. */
  lemma RollbackUndoesCutover(plan: Plan, db: Db)
    requires Consistent(plan, db) && CutoverAllowed(plan, db)
    requires RollbackAllowed(plan, CutoverRows(plan, db))
    ensures var back := RollbackRows(plan, CutoverRows(plan, db));
            && back.deploymentNode == db.deploymentNode
            && back.leases == db.leases
            && |back.capacity| == |db.capacity|
            && forall i :: 0 <= i < |db.capacity| ==>
                 && back.capacity[i].node == db.capacity[i].node
                 && back.capacity[i].state == if Live(db.capacity[i]) then HeldActive else HeldReleased
  {
    var back := RollbackRows(plan, CutoverRows(plan, db));
    forall i | 0 <= i < |db.leases|
      ensures back.leases[i] == db.leases[i]
    {
      assert db.leases[i] in db.leases;
    }
    forall i | 0 <= i < |db.capacity|
      ensures back.capacity[i].node == db.capacity[i].node
      ensures back.capacity[i].state == if Live(db.capacity[i]) then HeldActive else HeldReleased
    {
      assert db.capacity[i] in db.capacity;
    }
  }

  // --- evidence --------------------------------------------------------------------------

  predicate Done(rows: CommandRows, action: string) {
    action in rows && rows[action].state == CommandSucceeded
  }

  /** The command has ended, and not in success. */
  predicate Lost(rows: CommandRows, action: string) {
    action in rows && rows[action].state != CommandPending && !Done(rows, action)
  }

  /** Which commands a staging state rests on. */
  predicate StageEvidenced(state: StageState, rows: CommandRows) {
    match state
    case StagePrepared => true
    case StageStaged => Done(rows, RESTORE_STAGE)
    case StageValidated => Done(rows, RESTORE_STAGE) && Done(rows, RESTORE_VALIDATE)
    case StageCommitted => Done(rows, RESTORE_STAGE) && Done(rows, RESTORE_VALIDATE) && Done(rows, RESTORE_COMMIT)
    case StageActive =>
      && Done(rows, RESTORE_STAGE) && Done(rows, RESTORE_VALIDATE) && Done(rows, RESTORE_COMMIT)
      && Done(rows, ACTIVATE_TARGET)
    case StageRolledBack =>
      Done(rows, ROLLBACK_STAGE) && Done(rows, ROLLBACK_SOURCE_DEPLOY) && Done(rows, ROLLBACK_SOURCE_START)
  }

  /** The fence on staging transitions. */
  predicate StageAllowed(from: StageState, to: StageState, rows: CommandRows) {
    || (from == StagePrepared && to == StageStaged && Done(rows, RESTORE_STAGE))
    || (from == StageStaged && to == StageValidated && Done(rows, RESTORE_VALIDATE))
    || (from == StageValidated && to == StageCommitted && Done(rows, RESTORE_COMMIT))
    || (from == StageCommitted && to == StageActive && Done(rows, ACTIVATE_TARGET))
    || (from != StageRolledBack && to == StageRolledBack
        && Done(rows, ROLLBACK_STAGE) && Done(rows, ROLLBACK_SOURCE_DEPLOY) && Done(rows, ROLLBACK_SOURCE_START)
        && (from in {StageCommitted, StageActive} ==> Done(rows, ROLLBACK_TARGET)))
  }

  /** Which durable command successes a phase rests on. */
  predicate Evidenced(db: Db, rows: CommandRows) {
    && (db.phase in {Restoring, Validated, CutOver, Released} ==> Done(rows, RESTORE_STAGE))
    && (db.phase in {Validated, CutOver, Released} ==> Done(rows, RESTORE_VALIDATE))
    && (db.phase in {CutOver, Released} ==> Done(rows, RESTORE_COMMIT) && Done(rows, ACTIVATE_TARGET))
    && (db.phase == Released ==> Done(rows, RELEASE_SOURCE))
    && (db.phase == RolledBack ==>
          && Done(rows, ROLLBACK_SOURCE_DEPLOY) && Done(rows, ROLLBACK_SOURCE_START)
          && (db.stage.Some? ==> db.stage.value.state == StageRolledBack))
    && (db.stage.Some? ==>
          && StageEvidenced(db.stage.value.state, rows)
          && db.backupId == Some(db.stage.value.backupId))
    && (ACTIVATE_TARGET in rows ==> db.stage.Some? && Activated(db.stage.value.state, rows))
  }

  /** Where the staging of a target stands once its activation was ever asked for. */
  predicate Activated(state: StageState, rows: CommandRows) {
    state in {StageCommitted, StageActive} || (state == StageRolledBack && Done(rows, ROLLBACK_TARGET))
  }

  lemma DoneStays(before: CommandRows, after: CommandRows, action: string)
    requires Fenced(before, after)
    ensures Done(before, action) ==> Done(after, action)
    ensures action in before ==> action in after
  {
  }

  /** Evidence is never lost. */
  lemma EvidenceStays(db: Db, before: CommandRows, after: CommandRows)
    requires Evidenced(db, before) && Fenced(before, after)
    requires ACTIVATE_TARGET in after && ACTIVATE_TARGET !in before ==> db.stage.Some? && db.stage.value.state == StageCommitted
    ensures Evidenced(db, after)
  {
    forall action | Done(before, action) ensures Done(after, action) {
      assert action in before;
    }
  }

  lemma StageStepEvidenced(db: Db, next: StageState, rows: CommandRows)
    requires Evidenced(db, rows) && db.stage.Some? && StageAllowed(db.stage.value.state, next, rows)
    requires db.phase != RolledBack
    ensures Evidenced(db.(stage := Some(Stage(db.stage.value.backupId, next, db.stage.value.revision + 1))), rows)
  {
  }

  /** Where the DNS record is, as far as the phase says. */
  predicate Published(plan: Plan, db: Db, record: DnsRecord, askedBack: bool) {
    plan.hasDns ==>
      && (db.phase in {CutOver, Released} && !askedBack ==> record.content == plan.dnsTarget)
      && (db.phase == RolledBack ==> record.content == plan.dnsSource)
  }

  function SpecOf(plan: Plan, action: string): Spec {
    var node := if action in {RELEASE_SOURCE, ROLLBACK_SOURCE_DEPLOY, ROLLBACK_SOURCE_START} then plan.source else plan.target;
    var commandType :=
      if action in {RESTORE_STAGE, RESTORE_VALIDATE, RESTORE_COMMIT, ROLLBACK_STAGE} then "backup.restore"
      else if action in {ACTIVATE_TARGET, ROLLBACK_SOURCE_DEPLOY} then "deployment.apply"
      else if action in {RELEASE_SOURCE, ROLLBACK_TARGET} then "deployment.remove"
      else "server.start";
    Spec(node, commandType, action)
  }

  /** What releases or revives the source goes to the source; all the rest goes to the target. */
  predicate ForItsNode(plan: Plan, action: string, body: Body) {
    && (action in {RELEASE_SOURCE, ROLLBACK_SOURCE_DEPLOY, ROLLBACK_SOURCE_START} ==> body.nodeId == plan.source)
    && (action in {RESTORE_STAGE, RESTORE_VALIDATE, RESTORE_COMMIT, ACTIVATE_TARGET, ROLLBACK_TARGET, ROLLBACK_STAGE} ==>
          body.nodeId == plan.target)
  }

  /** Restores handle the backup, deployments are applied or removed, and the source is started again. */
  predicate OfItsType(action: string, body: Body) {
    && (action in {RESTORE_STAGE, RESTORE_VALIDATE, RESTORE_COMMIT, ROLLBACK_STAGE} ==> body.commandType == "backup.restore")
    && (action in {ACTIVATE_TARGET, ROLLBACK_SOURCE_DEPLOY} ==> body.commandType == "deployment.apply")
    && (action in {RELEASE_SOURCE, ROLLBACK_TARGET} ==> body.commandType == "deployment.remove")
    && (action == ROLLBACK_SOURCE_START ==> body.commandType == "server.start")
  }

  /** A command of the move, for the right node and of the right type. */
  predicate Addressed(plan: Plan, action: string, body: Body) {
    action in ACTIONS && ForItsNode(plan, action, body) && OfItsType(action, body)
  }

  predicate Specified(plan: Plan, rows: CommandRows) {
    forall a <- rows :: Addressed(plan, a, rows[a].envelope.body)
  }

  lemma SpecIsAddressed(plan: Plan, action: string, body: Body)
    requires action in ACTIONS
    requires body.nodeId == SpecOf(plan, action).nodeId && body.commandType == SpecOf(plan, action).commandType
    ensures Addressed(plan, action, body)
  {
  }

  /** Running one command of the move keeps all of them specified, and a stored one fits. */
  lemma SpecifiedGrows(plan: Plan, before: CommandRows, after: CommandRows, action: string)
    requires action in ACTIONS && Specified(plan, before)
    requires forall a <- after :: a != action ==> a in before && after[a] == before[a]
    requires action in after && action in before ==> after[action].envelope == before[action].envelope
    requires action in after && action !in before ==>
               && after[action].envelope.body.nodeId == SpecOf(plan, action).nodeId
               && after[action].envelope.body.commandType == SpecOf(plan, action).commandType
    ensures Specified(plan, after)
    ensures action in before ==>
              && before[action].envelope.body.nodeId == SpecOf(plan, action).nodeId
              && before[action].envelope.body.commandType == SpecOf(plan, action).commandType
  {
    if action in after && action !in before {
      SpecIsAddressed(plan, action, after[action].envelope.body);
    }
  }

  /** A command of this action, node and type was handed to a node's coordinator. */
  ghost predicate Sent(enqueued: seq<Enqueue>, action: string, nodeId: string, commandType: string) {
    exists e <- enqueued :: e.key == action && e.envelope.body.nodeId == nodeId && e.envelope.body.commandType == commandType
  }

  /** A command that ended in success was sent to the node and with the type of its action. */
  lemma DoneWasSent(plan: Plan, commands: PhysicalCommands, action: string)
    requires commands.Safe() && Specified(plan, commands.rows) && Done(commands.rows, action)
    ensures var body := commands.rows[action].envelope.body;
            Addressed(plan, action, body) && Sent(commands.enqueued, action, body.nodeId, body.commandType)
  {
    assert Enqueue(action, commands.rows[action].envelope) in commands.enqueued;
  }

  /** A released move rests on commands that were sent. */
  lemma ReleasedWasSent(plan: Plan, db: Db, commands: PhysicalCommands)
    requires commands.Safe() && Specified(plan, commands.rows) && Evidenced(db, commands.rows) && db.phase == Released
    ensures Sent(commands.enqueued, RESTORE_COMMIT, plan.target, "backup.restore")
    ensures Sent(commands.enqueued, ACTIVATE_TARGET, plan.target, "deployment.apply")
    ensures Sent(commands.enqueued, RELEASE_SOURCE, plan.source, "deployment.remove")
  {
    DoneWasSent(plan, commands, RESTORE_COMMIT);
    DoneWasSent(plan, commands, ACTIVATE_TARGET);
    DoneWasSent(plan, commands, RELEASE_SOURCE);
  }

  /** So does one that was rolled back. */
  lemma RolledBackWasSent(plan: Plan, db: Db, commands: PhysicalCommands)
    requires commands.Safe() && Specified(plan, commands.rows) && Evidenced(db, commands.rows) && db.phase == RolledBack
    ensures Sent(commands.enqueued, ROLLBACK_SOURCE_DEPLOY, plan.source, "deployment.apply")
    ensures Sent(commands.enqueued, ROLLBACK_SOURCE_START, plan.source, "server.start")
    ensures ACTIVATE_TARGET in commands.rows ==> Sent(commands.enqueued, ROLLBACK_TARGET, plan.target, "deployment.remove")
  {
    DoneWasSent(plan, commands, ROLLBACK_SOURCE_DEPLOY);
    DoneWasSent(plan, commands, ROLLBACK_SOURCE_START);
    if ACTIVATE_TARGET in commands.rows {
      DoneWasSent(plan, commands, ROLLBACK_TARGET);
    }
  }

  lemma EnqueuedAddressed(plan: Plan, commands: PhysicalCommands)
    requires commands.Safe() && Specified(plan, commands.rows)
    ensures forall e <- commands.enqueued :: Addressed(plan, e.key, e.envelope.body)
  {
    hide Addressed;
  }

  /** Only these commands were stored, settled or sent. */
  ghost predicate Ran(before: CommandRows, sent: seq<Enqueue>, after: CommandRows, now: seq<Enqueue>, actions: set<string>) {
    && (forall a <- after :: a !in actions ==> a in before && after[a] == before[a])
    && sent <= now
    && (forall k :: |sent| <= k < |now| ==> now[k].key in actions)
  }

  lemma RanNone(rows: CommandRows, sent: seq<Enqueue>, actions: set<string>)
    ensures Ran(rows, sent, rows, sent, actions)
  {
  }

  lemma RanMore(before: CommandRows, sent: seq<Enqueue>, between: CommandRows, until: seq<Enqueue>,
                after: CommandRows, now: seq<Enqueue>, some: set<string>, actions: set<string>)
    requires Ran(before, sent, between, until, actions) && Ran(between, until, after, now, some) && some <= actions
    ensures Ran(before, sent, after, now, actions)
  {
  }

  lemma RanOne(before: CommandRows, sent: seq<Enqueue>, after: CommandRows, now: seq<Enqueue>, action: string)
    requires forall a <- after :: a != action ==> a in before && after[a] == before[a]
    requires now == sent || (action in after && now == sent + [Enqueue(action, after[action].envelope)])
    ensures Ran(before, sent, after, now, {action})
  {
  }

  class MoveSaga {
    const plan: Plan
    const faulty: bool
    const commands: PhysicalCommands
    var db: Db
    var record: DnsRecord
    /** The nodes are ready, and the endpoint evidence exists if the server has a DNS name. */
    var effectReady: bool
    /** A succeeded backup of the source exists. */
    var backupReady: bool
    /** The time, which goes on while commands are waited for. */
    var clock: int
    /** A rollback has asked for the record to go back since its last transfer to the target. */
    ghost var askedBack: bool

    constructor (plan: Plan, faulty: bool, commands: PhysicalCommands, capacity: seq<Holding>, leases: seq<Holding>, record: DnsRecord)
      requires plan.source != plan.target && AllAt(capacity, plan.source) && AllAt(leases, plan.source)
      requires commands.Safe() && commands.rows == map[] && commands.faulty == faulty
      ensures Safe() && this.plan == plan && this.faulty == faulty && this.commands == commands
      ensures db.phase == Reserved && db.effect.None? && db.stage.None? && db.backupId.None?
      ensures this.record == record && !askedBack
    {
      this.plan, this.faulty, this.commands, this.record := plan, faulty, commands, record;
      db := Db(Reserved, 1, None, None, plan.source, capacity, leases, TargetReserved, {}, {}, None);
      effectReady, backupReady, askedBack := false, false, false;
      clock := *;
    }

    /** What holds after every step of every run. */
    ghost predicate Safe()
      reads this, commands
    {
      && commands.Safe() && commands.faulty == faulty
      && Consistent(plan, db)
      && Evidenced(db, commands.rows)
      && Published(plan, db, record, askedBack)
      && Specified(plan, commands.rows)
    }

    // --- steps -------------------------------------------------------------------------

    /** Send a batch, forget how it ended, and see whether its rows are there. */
    method Batch(next: Db, allowed: bool) returns (o: Outcome<Fault>)
      requires next != db
      modifies `db
      ensures db == old(db) || (allowed && db == next)
      ensures o.Pass? ==> allowed && db == next
      ensures !faulty ==> (o.Pass? <==> allowed)
      // A batch that was committed is found, unless the process stops or cannot read its rows back.
      ensures o.Fail? && db == next ==> o.error == Crashed || o.error == Unread
    {
      o := Disturb(faulty);
      if o.Pass? {
        if allowed {
          db := next;
          o := Disturb(faulty);
        } else {
          o := Fail(Refused);
        }
      }
      if o == Fail(Crashed) {
        return;
      }
      var read := DisturbRead(faulty);
      if read.Fail? {
        return read;
      }
      if db == next {
        o := Pass;
      } else if o.Pass? {
        o := Fail(Refused);
      }
    }

    /** The immutable effect of the move, created while the move is still only reserved. */
    method EnsureEffect() returns (o: Outcome<Fault>)
      requires Safe()
      modifies `db
      ensures Safe()
      ensures db == old(db) || db == old(db).(effect := Some(Effect(EffectPrepared, 1)))
      ensures o.Pass? ==> db.effect.Some?
      ensures old(db).effect.Some? ==> db == old(db) && (!faulty ==> o.Pass?)
      ensures !faulty ==> (o.Pass? <==> old(db).effect.Some? || (db.phase == Reserved && effectReady))
    {
      hide AllAt, Evidenced, Published, Specified, PhysicalAllowed;
      EvidencedBy(db, db.(effect := Some(Effect(EffectPrepared, 1))), commands.rows);
      o := Disturb(faulty);
      if o.Fail? || db.effect.Some? {
        return;
      }
      if db.phase != Reserved || !effectReady {
        return Fail(Refused);
      }
      PublishedBy(db, db.(effect := Some(Effect(EffectPrepared, 1))));
      o := Batch(db.(effect := Some(Effect(EffectPrepared, 1))), true);
    }

    lemma EvidencedBy(before: Db, after: Db, rows: CommandRows)
      requires after.phase == before.phase && after.stage == before.stage && after.backupId == before.backupId
      ensures Evidenced(before, rows) ==> Evidenced(after, rows)
    {
    }

    lemma PublishedBy(before: Db, after: Db)
      ensures after.phase == before.phase && Published(plan, before, record, askedBack) ==>
                Published(plan, after, record, askedBack)
    {
    }

    /** Time has not gone back, and the signing key is the same. */
    twostate predicate Later()
      reads this, commands
    {
      clock >= old(clock) && commands.signingKey == old(commands.signingKey)
    }

    /** The rows are as they were, and no command was run. */
    twostate predicate Idle()
      reads this, commands
    {
      db == old(db) && record == old(record) && commands.rows == old(commands.rows) && commands.enqueued == old(commands.enqueued)
    }

    /** Of the commands of the move only these were run. */
    twostate predicate OnlyRan(actions: set<string>)
      reads this, commands
    {
      Ran(old(commands.rows), old(commands.enqueued), commands.rows, commands.enqueued, actions)
    }

    /** The commands of the move can still be signed. */
    predicate InTime()
      reads this, commands
    {
      clock < commands.expiresAt && commands.signingKey.Some?
    }

    /** Run one physical command to durable success. */
    method Physical(action: string, admitted: bool) returns (o: Outcome<Fault>)
      requires Safe() && action in ACTIONS
      requires action == ACTIVATE_TARGET ==> db.stage.Some? && db.stage.value.state == StageCommitted
      modifies `clock, commands
      ensures Safe() && Fenced(old(commands.rows), commands.rows) && Later() && OnlyRan({action})
      ensures o.Pass? ==> Done(commands.rows, action)
      // Without faults an admitted command is stored, while a key can sign it and the commands have not expired.
      ensures !faulty && action !in old(commands.rows) ==>
                (action in commands.rows <==> admitted && InTime())
      ensures !faulty && old(Done(commands.rows, action)) ==> o.Pass?
      ensures old(Lost(commands.rows, action)) ==> o.Fail?
      ensures !faulty && o.Fail? ==> o.error == Refused
    {
      hide Consistent, AllAt, Evidenced, Published, Specified, SpecOf, Addressed, ForItsNode, OfItsType, Ran;
      var passed :| passed >= 0;
      clock := clock + passed;
      var r := commands.Execute(action, SpecOf(plan, action), admitted, clock);
      SpecifiedGrows(plan, old(commands.rows), commands.rows, action);
      RanOne(old(commands.rows), old(commands.enqueued), commands.rows, commands.enqueued, action);
      EvidenceStays(db, old(commands.rows), commands.rows);
      o := if r.Ok? then Pass else Fail(r.error);
    }

    /** The record is the server's own, at the source or at the target. */
    predicate InStep()
      reads this
    {
      plan.hasDns ==> record.id == plan.dnsId && record.content in {plan.dnsSource, plan.dnsTarget}
    }

    /** Move the record of the server to the target or back; it is adopted where it already is. */
    method TransferDns(direction: Direction) returns (o: Outcome<Fault>)
      requires Safe()
      requires direction == Forward ==> Rank(db.phase) < 5
      requires direction == Backward ==> db.phase != RolledBack
      modifies `record, `askedBack
      ensures Safe()
      ensures o.Pass? && plan.hasDns ==>
                record == DnsRecord(plan.dnsId, if direction == Forward then plan.dnsTarget else plan.dnsSource)
                && askedBack == (direction == Backward)
      ensures !plan.hasDns ==> o.Pass? && record == old(record) && askedBack == old(askedBack)
      ensures askedBack ==> old(askedBack) || direction == Backward
      ensures !faulty && plan.hasDns ==>
                (o.Pass? <==> old(record).id == plan.dnsId && old(record).content in {plan.dnsSource, plan.dnsTarget})
    {
      hide Consistent, AllAt, Evidenced, Specified;
      if !plan.hasDns {
        return Pass;
      }
      var expected := if direction == Forward then plan.dnsSource else plan.dnsTarget;
      var next := if direction == Forward then plan.dnsTarget else plan.dnsSource;
      askedBack := direction == Backward || askedBack;
      o := Disturb(faulty);
      if o.Fail? {
        return;
      }
      if record.content != next {
        if record.content != expected {
          return Fail(Refused);
        }
        record := DnsRecord(record.id, next);
        o := Disturb(faulty);
        if o.Fail? {
          return;
        }
      }
      if record.id != plan.dnsId {
        return Fail(Refused);
      }
      askedBack := direction == Backward;
    }

    lemma ConsistentBy(before: Db, after: Db)
      requires after.(stage := None) == before.(stage := None)
      ensures Consistent(plan, before) ==> Consistent(plan, after)
    {
    }

    lemma NewStageEvidenced(before: Db, stage: Stage, rows: CommandRows)
      requires before.stage.None? && stage.state == StagePrepared
      ensures before.phase == Stopped && before.backupId == Some(stage.backupId) ==>
                Evidenced(before, rows) ==> Evidenced(before.(stage := Some(stage)), rows)
    {
    }

    lemma StoppedAtSource(before: Db)
      requires Consistent(plan, before)
      ensures before.phase == Stopped ==>
                before.effect.Some? && before.effect.value.state == EffectPrepared && before.deploymentNode == plan.source
    {
    }

    // --- target staging ---------------------------------------------------------------------

    /** The staging record of the move, created while the source is stopped. */
    method EnsureStage(backupId: string) returns (r: Result<Stage, Fault>)
      requires Safe() && db.effect.Some?
      modifies `db
      ensures Safe() && db.(stage := None) == old(db).(stage := None)
      ensures old(db).stage.Some? ==> db == old(db)
      ensures r.Ok? ==> db.stage == Some(r.value) && r.value.backupId == backupId
      ensures !faulty ==>
                (r.Ok? <==> if old(db).stage.Some? then old(db).stage.value.backupId == backupId
                            else db.phase == Stopped && db.backupId == Some(backupId))
      ensures db.stage.Some? ==> db.stage == old(db).stage || db.stage.value == Stage(backupId, StagePrepared, 1)
    {
      hide Consistent, Evidenced, Published, Specified;
      var o := Disturb(faulty);
      if o.Fail? {
        return Err(o.error);
      }
      if db.stage.Some? {
        return if db.stage.value.backupId != backupId then Err(Refused) else Ok(db.stage.value);
      }
      var prepared := Stage(backupId, StagePrepared, 1);
      ConsistentBy(db, db.(stage := Some(prepared)));
      NewStageEvidenced(db, prepared, commands.rows);
      StoppedAtSource(db);
      PublishedBy(db, db.(stage := Some(prepared)));
      o := Batch(db.(stage := Some(prepared)),
                 db.effect.value.state == EffectPrepared && db.phase == Stopped && db.backupId == Some(backupId)
                 && db.deploymentNode == plan.source);
      r := if o.Pass? then Ok(prepared) else Err(o.error);
    }

    method AdvanceStage(stage: Stage, next: StageState) returns (r: Result<Stage, Fault>)
      requires Safe() && db.stage == Some(stage) && db.phase != RolledBack
      modifies `db
      ensures Safe() && db.(stage := None) == old(db).(stage := None)
      ensures db.stage == old(db).stage || db.stage == Some(Stage(stage.backupId, next, stage.revision + 1))
      ensures r.Ok? ==> db.stage == Some(r.value) && r.value.state == next
      ensures !faulty ==> (r.Ok? <==> stage.state == next || StageAllowed(stage.state, next, commands.rows))
    {
      hide Consistent, Evidenced, Published, Specified, StageAllowed;
      if stage.state == next {
        return Ok(stage);
      }
      var advanced := Stage(stage.backupId, next, stage.revision + 1);
      ConsistentBy(db, db.(stage := Some(advanced)));
      if StageAllowed(stage.state, next, commands.rows) {
        StageStepEvidenced(db, next, commands.rows);
      }
      PublishedBy(db, db.(stage := Some(advanced)));
      var o := Batch(db.(stage := Some(advanced)), StageAllowed(stage.state, next, commands.rows));
      r := if o.Pass? then Ok(advanced) else Err(o.error);
    }

    method RequireStage(backupId: string, allowed: set<StageState>) returns (r: Result<Stage, Fault>)
      ensures r.Ok? ==> db.stage == Some(r.value) && r.value.backupId == backupId && r.value.state in allowed
      ensures !faulty ==>
                (r.Ok? <==> db.stage.Some? && db.stage.value.backupId == backupId && db.stage.value.state in allowed)
    {
      var o := Disturb(faulty);
      if o.Fail? {
        return Err(o.error);
      }
      if db.stage.None? || db.stage.value.backupId != backupId || db.stage.value.state !in allowed {
        return Err(Refused);
      }
      r := Ok(db.stage.value);
    }

    method SucceededBackup() returns (o: Outcome<Fault>)
      ensures o.Pass? ==> backupReady
      ensures !faulty ==> (o.Pass? <==> backupReady)
    {
      o := Disturb(faulty);
      if o.Pass? && !backupReady {
        o := Fail(Refused);
      }
    }

    /** Whether a restore command is admitted by the guard on physical commands. */
    predicate RestoreAdmitted(backupId: string)
      reads this
    {
      db.stage.Some? && db.stage.value.backupId == backupId
    }

    // --- the adapter -----------------------------------------------------------------------

    method AdapterRestore(backupId: string) returns (o: Outcome<Fault>)
      requires Safe() && db.effect.Some? && db.phase != RolledBack
      modifies `db, `clock, commands
      ensures Safe() && db.(stage := None) == old(db).(stage := None) && Later() && OnlyRan({RESTORE_STAGE})
      ensures o.Pass? ==> backupReady && Done(commands.rows, RESTORE_STAGE)
      // Without faults the restore is asked for.
      ensures !faulty && backupReady && old(db).stage.None? && db.phase == Stopped && db.backupId == Some(backupId) ==>
                InTime() ==> RESTORE_STAGE in commands.rows
      ensures o.Pass? ==> db.stage.Some? && db.stage.value.backupId == backupId
                          && db.stage.value.state in {StageStaged, StageValidated, StageCommitted, StageActive}
      ensures !faulty && backupReady && old(db).stage.None? && db.phase == Stopped && db.backupId == Some(backupId) ==>
                old(Done(commands.rows, RESTORE_STAGE)) ==> o.Pass?
    {
      hide Safe, Consistent, Evidenced, Ran;
      RanNone(commands.rows, commands.enqueued, {RESTORE_STAGE});
      o := SucceededBackup();
      if o.Fail? {
        return;
      }
      var stage := EnsureStage(backupId);
      if stage.Err? {
        return Fail(stage.error);
      }
      if stage.value.state == StageRolledBack {
        return Fail(Refused);
      }
      o := Physical(RESTORE_STAGE, RestoreAdmitted(backupId));
      if o.Fail? {
        return;
      }
      if stage.value.state == StagePrepared {
        var advanced := AdvanceStage(stage.value, StageStaged);
        o := if advanced.Ok? then Pass else Fail(advanced.error);
      }
    }

    method AdapterVerify(backupId: string) returns (o: Outcome<Fault>)
      requires Safe() && db.phase != RolledBack
      modifies `db, `clock, commands
      ensures Safe() && db.(stage := None) == old(db).(stage := None) && Later() && OnlyRan({RESTORE_VALIDATE})
      // Without faults a staged backup is validated.
      ensures !faulty && backupReady && old(db.stage.Some? && db.stage.value.backupId == backupId
                                            && db.stage.value.state in {StageStaged, StageValidated, StageCommitted, StageActive}) ==>
                && (InTime() ==> RESTORE_VALIDATE in commands.rows)
                && (old(Done(commands.rows, RESTORE_VALIDATE)) ==> o.Pass?)
      ensures o.Pass? ==> backupReady && Done(commands.rows, RESTORE_VALIDATE)
      ensures o.Pass? ==> db.stage.Some? && db.stage.value.backupId == backupId
                          && db.stage.value.state in {StageValidated, StageCommitted, StageActive}
    {
      hide Safe, Consistent, Evidenced, Ran;
      RanNone(commands.rows, commands.enqueued, {RESTORE_VALIDATE});
      o := SucceededBackup();
      if o.Fail? {
        return;
      }
      var stage := RequireStage(backupId, {StageStaged, StageValidated, StageCommitted, StageActive});
      if stage.Err? {
        return Fail(stage.error);
      }
      o := Physical(RESTORE_VALIDATE, RestoreAdmitted(backupId));
      if o.Fail? {
        return;
      }
      if stage.value.state == StageStaged {
        var advanced := AdvanceStage(stage.value, StageValidated);
        o := if advanced.Ok? then Pass else Fail(advanced.error);
      }
    }

    lemma ActiveStageDone()
      requires Safe() && db.stage.Some? && db.stage.value.state == StageActive
      ensures Done(commands.rows, RESTORE_COMMIT) && Done(commands.rows, ACTIVATE_TARGET)
      ensures db.backupId == Some(db.stage.value.backupId)
    {
    }

    /** Commit a validated stage; a later one is committed already. */
    method CommitStage(stage: Stage, backupId: string) returns (r: Result<Stage, Fault>)
      requires Safe() && db.phase != RolledBack && db.stage == Some(stage)
      requires stage.backupId == backupId && stage.state in {StageValidated, StageCommitted, StageActive}
      modifies `db, `clock, commands
      ensures Safe() && db.(stage := None) == old(db).(stage := None) && Later()
      ensures Fenced(old(commands.rows), commands.rows) && OnlyRan({RESTORE_COMMIT})
      ensures r.Ok? ==>
                && Done(commands.rows, RESTORE_COMMIT) && db.stage == Some(r.value) && r.value.backupId == backupId
                && r.value.state == if stage.state == StageValidated then StageCommitted else stage.state
      ensures !faulty ==>
                (InTime() ==> RESTORE_COMMIT in commands.rows) && (old(Done(commands.rows, RESTORE_COMMIT)) ==> r.Ok?)
    {
      hide Safe, Consistent, Evidenced, Ran;
      var o := Physical(RESTORE_COMMIT, RestoreAdmitted(backupId));
      if o.Fail? {
        return Err(o.error);
      }
      r := Ok(stage);
      if stage.state == StageValidated {
        r := AdvanceStage(stage, StageCommitted);
      }
    }

    /** Activate the target of a committed stage, or make sure that an active one was. */
    method ActivateStage(stage: Stage) returns (o: Outcome<Fault>)
      requires Safe() && db.phase != RolledBack && db.stage == Some(stage) && stage.state in {StageCommitted, StageActive}
      modifies `db, `clock, commands
      ensures Safe() && db.(stage := None) == old(db).(stage := None) && Later()
      ensures Fenced(old(commands.rows), commands.rows) && OnlyRan({ACTIVATE_TARGET})
      ensures o.Pass? ==>
                && Done(commands.rows, ACTIVATE_TARGET)
                && db.stage.Some? && db.stage.value.state == StageActive && db.stage.value.backupId == stage.backupId
      ensures !faulty && stage.state == StageCommitted ==>
                (InTime() ==> ACTIVATE_TARGET in commands.rows) && (old(Done(commands.rows, ACTIVATE_TARGET)) ==> o.Pass?)
      ensures !faulty && stage.state == StageActive ==> o.Pass?
    {
      hide Safe, Consistent, Evidenced, Ran;
      RanNone(commands.rows, commands.enqueued, {ACTIVATE_TARGET});
      if stage.state == StageCommitted {
        o := Physical(ACTIVATE_TARGET, true);
        if o.Fail? {
          return;
        }
        var advanced := AdvanceStage(stage, StageActive);
        o := if advanced.Ok? then Pass else Fail(advanced.error);
      } else {
        ActiveStageDone();
        o := Disturb(faulty);
        if o.Pass? && !Done(commands.rows, ACTIVATE_TARGET) {
          o := Fail(Refused);
        }
      }
    }

    method AdapterCutover(backupId: string) returns (o: Outcome<Fault>)
      requires Safe() && Rank(db.phase) < 5
      modifies `db, `record, `askedBack, `clock, commands
      ensures Safe() && db.(stage := None) == old(db).(stage := None) && Later()
      ensures OnlyRan({RESTORE_COMMIT, ACTIVATE_TARGET})
      ensures askedBack ==> old(askedBack)
      // Without faults a validated stage is committed and the target activated.
      ensures !faulty && backupReady && old(db.stage.Some? && db.stage.value.backupId == backupId
                                            && db.stage.value.state in {StageValidated, StageCommitted}) ==>
                && (InTime() ==> RESTORE_COMMIT in commands.rows)
                && (InTime() && old(Done(commands.rows, RESTORE_COMMIT)) ==> ACTIVATE_TARGET in commands.rows)
                && (old(Done(commands.rows, RESTORE_COMMIT) && Done(commands.rows, ACTIVATE_TARGET)) ==>
                      old(InStep()) ==>
                        o.Pass?)
      ensures o.Pass? ==>
                && backupReady
                && Done(commands.rows, RESTORE_COMMIT) && Done(commands.rows, ACTIVATE_TARGET)
                && db.stage.Some? && db.stage.value.backupId == backupId && db.stage.value.state == StageActive
                && (plan.hasDns ==> record == DnsRecord(plan.dnsId, plan.dnsTarget) && !askedBack)
      // Without faults an active stage of a succeeded backup is published again if the record is in step.
      ensures !faulty && backupReady && old(db.stage.Some? && db.stage.value.backupId == backupId && db.stage.value.state == StageActive) ==>
                old(InStep()) ==>
                  o.Pass?
    {
      hide Safe, Consistent, Evidenced, Ran, Lost, Published, Specified, Fenced, Done;
      RanNone(commands.rows, commands.enqueued, {RESTORE_COMMIT, ACTIVATE_TARGET});
      if db.stage.Some? && db.stage.value.state == StageActive {
        ActiveStageDone();
      }
      o := SucceededBackup();
      if o.Fail? {
        return;
      }
      var required := RequireStage(backupId, {StageValidated, StageCommitted, StageActive});
      if required.Err? {
        return Fail(required.error);
      }
      var stage := CommitStage(required.value, backupId);
      ghost var rows, sent := commands.rows, commands.enqueued;
      RanMore(old(commands.rows), old(commands.enqueued), old(commands.rows), old(commands.enqueued), rows, sent,
              {RESTORE_COMMIT}, {RESTORE_COMMIT, ACTIVATE_TARGET});
      if stage.Err? {
        return Fail(stage.error);
      }
      DoneStays(old(commands.rows), rows, ACTIVATE_TARGET);
      o := ActivateStage(stage.value);
      DoneStays(rows, commands.rows, RESTORE_COMMIT);
      RanMore(old(commands.rows), old(commands.enqueued), rows, sent, commands.rows, commands.enqueued,
              {ACTIVATE_TARGET}, {RESTORE_COMMIT, ACTIVATE_TARGET});
      if o.Fail? {
        return;
      }
      o := TransferDns(Forward);
    }

    method AdapterRelease() returns (o: Outcome<Fault>)
      requires Safe()
      modifies `clock, commands
      ensures Safe() && Later() && OnlyRan({RELEASE_SOURCE})
      ensures o.Pass? ==> backupReady && Done(commands.rows, RELEASE_SOURCE)
      ensures !faulty && backupReady && InTime() ==> RELEASE_SOURCE in commands.rows
      ensures !faulty && backupReady && old(Done(commands.rows, RELEASE_SOURCE)) ==> o.Pass?
    {
      hide Ran;
      RanNone(commands.rows, commands.enqueued, {RELEASE_SOURCE});
      o := SucceededBackup();
      if o.Fail? {
        return;
      }
      o := Physical(RELEASE_SOURCE, true);
    }

    predicate Compensated(rows: CommandRows) {
      && Done(rows, ROLLBACK_SOURCE_DEPLOY) && Done(rows, ROLLBACK_SOURCE_START)
      && Done(rows, ROLLBACK_TARGET) && Done(rows, ROLLBACK_STAGE)
    }

    /** The compensations that a staging record calls for. */
    function Compensations(stage: Option<Stage>): set<string> {
      {ROLLBACK_SOURCE_DEPLOY, ROLLBACK_SOURCE_START}
      + (if stage.Some? && stage.value.state in {StageCommitted, StageActive} then {ROLLBACK_TARGET} else {})
      + (if stage.Some? && stage.value.state != StageRolledBack then {ROLLBACK_STAGE} else {})
    }

    /** Run a command that must not keep the next ones from being tried, and count its failure. */
    method Counted(action: string, admitted: bool) returns (r: Result<nat, Fault>)
      requires Safe() && action in ACTIONS && action != ACTIVATE_TARGET
      modifies `clock, commands
      ensures Safe() && Fenced(old(commands.rows), commands.rows) && Later() && OnlyRan({action})
      ensures !faulty && InTime() && admitted ==> action in commands.rows
      ensures r == Ok(0) ==> Done(commands.rows, action)
      ensures old(Lost(commands.rows, action)) ==> r != Ok(0)
      ensures !faulty ==> r.Ok? && (old(Done(commands.rows, action)) ==> r == Ok(0))
    {
      hide Safe, Consistent, Evidenced, Ran;
      RanNone(commands.rows, commands.enqueued, {action});
      var o := Physical(action, admitted);
      r := if o == Fail(Crashed) then Err(Crashed) else Ok(if o.Pass? then 0 else 1);
    }

    /** Apply and start the server on its source again. */
    method CompensateSource() returns (r: Result<nat, Fault>)
      requires Safe()
      modifies `clock, commands
      ensures Safe() && Fenced(old(commands.rows), commands.rows) && Later()
      ensures OnlyRan({ROLLBACK_SOURCE_DEPLOY, ROLLBACK_SOURCE_START})
      ensures !faulty && InTime() ==> ROLLBACK_SOURCE_DEPLOY in commands.rows && ROLLBACK_SOURCE_START in commands.rows
      ensures r == Ok(0) ==> Done(commands.rows, ROLLBACK_SOURCE_DEPLOY) && Done(commands.rows, ROLLBACK_SOURCE_START)
      ensures old(Lost(commands.rows, ROLLBACK_SOURCE_DEPLOY)) ==> r != Ok(0)
      ensures !faulty ==>
                r.Ok? && (old(Done(commands.rows, ROLLBACK_SOURCE_DEPLOY) && Done(commands.rows, ROLLBACK_SOURCE_START)) ==> r == Ok(0))
    {
      hide Safe, Consistent, Evidenced, Ran;
      var applied := Counted(ROLLBACK_SOURCE_DEPLOY, true);
      ghost var rows, sent := commands.rows, commands.enqueued;
      RanMore(old(commands.rows), old(commands.enqueued), old(commands.rows), old(commands.enqueued), rows, sent,
              {ROLLBACK_SOURCE_DEPLOY}, {ROLLBACK_SOURCE_DEPLOY, ROLLBACK_SOURCE_START});
      if applied.Err? {
        return applied;
      }
      var started := Counted(ROLLBACK_SOURCE_START, true);
      RanMore(old(commands.rows), old(commands.enqueued), rows, sent, commands.rows, commands.enqueued,
              {ROLLBACK_SOURCE_START}, {ROLLBACK_SOURCE_DEPLOY, ROLLBACK_SOURCE_START});
      r := if started.Err? then started else Ok(applied.value + started.value);
    }

    /** Remove the server from the target and discard its stage, as far as they got. */
    method CompensateTarget(stage: Option<Stage>, backupId: string) returns (r: Result<nat, Fault>)
      requires Safe() && db.stage == stage
      modifies `clock, commands
      ensures Safe() && Fenced(old(commands.rows), commands.rows) && Later()
      ensures OnlyRan(Compensations(stage) - {ROLLBACK_SOURCE_DEPLOY, ROLLBACK_SOURCE_START})
      ensures !faulty && InTime() ==>
                && (stage.Some? && stage.value.state in {StageCommitted, StageActive} ==> ROLLBACK_TARGET in commands.rows)
                && (stage.Some? && stage.value.state != StageRolledBack && stage.value.backupId == backupId ==>
                      ROLLBACK_STAGE in commands.rows)
      ensures r == Ok(0) ==>
                && (stage.Some? && stage.value.state != StageRolledBack ==> Done(commands.rows, ROLLBACK_STAGE))
                && (stage.Some? && stage.value.state in {StageCommitted, StageActive} ==> Done(commands.rows, ROLLBACK_TARGET))
      ensures !faulty ==>
                r.Ok? && (old(Done(commands.rows, ROLLBACK_TARGET) && Done(commands.rows, ROLLBACK_STAGE)) ==> r == Ok(0))
    {
      hide Safe, Consistent, Evidenced, Ran;
      ghost var actions := Compensations(stage) - {ROLLBACK_SOURCE_DEPLOY, ROLLBACK_SOURCE_START};
      RanNone(commands.rows, commands.enqueued, actions);
      var target, staged: Result<nat, Fault> := Ok(0), Ok(0);
      if stage.Some? && stage.value.state in {StageCommitted, StageActive} {
        target := Counted(ROLLBACK_TARGET, true);
        RanMore(old(commands.rows), old(commands.enqueued), old(commands.rows), old(commands.enqueued),
                commands.rows, commands.enqueued, {ROLLBACK_TARGET}, actions);
        if target.Err? {
          return target;
        }
      }
      ghost var rows, sent := commands.rows, commands.enqueued;
      if stage.Some? && stage.value.state != StageRolledBack {
        staged := Counted(ROLLBACK_STAGE, RestoreAdmitted(backupId));
        RanMore(old(commands.rows), old(commands.enqueued), rows, sent, commands.rows, commands.enqueued,
                {ROLLBACK_STAGE}, actions);
      }
      r := if staged.Err? then staged else Ok(target.value + staged.value);
    }

    /** Run the compensating commands, each of them even if another failed, and count the failures. */
    method Compensate(stage: Option<Stage>, backupId: string) returns (r: Result<nat, Fault>)
      requires Safe() && db.stage == stage
      modifies `clock, commands
      ensures Safe() && Fenced(old(commands.rows), commands.rows) && Later() && OnlyRan(Compensations(stage))
      // Without faults every compensation is asked for.
      ensures !faulty && InTime() ==>
                && ROLLBACK_SOURCE_DEPLOY in commands.rows && ROLLBACK_SOURCE_START in commands.rows
                && (stage.Some? && stage.value.state in {StageCommitted, StageActive} ==> ROLLBACK_TARGET in commands.rows)
                && (stage.Some? && stage.value.state != StageRolledBack && stage.value.backupId == backupId ==>
                      ROLLBACK_STAGE in commands.rows)
      ensures r == Ok(0) ==>
                && Done(commands.rows, ROLLBACK_SOURCE_DEPLOY) && Done(commands.rows, ROLLBACK_SOURCE_START)
                && (stage.Some? && stage.value.state != StageRolledBack ==> Done(commands.rows, ROLLBACK_STAGE))
                && (stage.Some? && stage.value.state in {StageCommitted, StageActive} ==> Done(commands.rows, ROLLBACK_TARGET))
      ensures old(Lost(commands.rows, ROLLBACK_SOURCE_DEPLOY)) ==> r != Ok(0)
      ensures !faulty ==> r.Ok?
      ensures !faulty && old(Compensated(commands.rows)) ==> r == Ok(0)
    {
      hide Safe, Consistent, Evidenced, StageAllowed, Ran;
      RanNone(commands.rows, commands.enqueued, Compensations(stage));
      var source := CompensateSource();
      ghost var rows, sent := commands.rows, commands.enqueued;
      RanMore(old(commands.rows), old(commands.enqueued), old(commands.rows), old(commands.enqueued), rows, sent,
              {ROLLBACK_SOURCE_DEPLOY, ROLLBACK_SOURCE_START}, Compensations(stage));
      if source.Err? {
        return source;
      }
      var target := CompensateTarget(stage, backupId);
      RanMore(old(commands.rows), old(commands.enqueued), rows, sent, commands.rows, commands.enqueued,
              Compensations(stage) - {ROLLBACK_SOURCE_DEPLOY, ROLLBACK_SOURCE_START}, Compensations(stage));
      r := if target.Err? then target else Ok(source.value + target.value);
    }

    /** Try every compensation before reporting which of them are missing. */
    method AdapterRollback(backupId: string) returns (o: Outcome<Fault>)
      requires Safe() && db.phase != RolledBack
      modifies `db, `record, `askedBack, `clock, commands
      ensures Safe() && db.(stage := None) == old(db).(stage := None) && Fenced(old(commands.rows), commands.rows) && Later()
      ensures OnlyRan(Compensations(old(db).stage))
      ensures !faulty && backupReady && InTime() ==>
                && ROLLBACK_SOURCE_DEPLOY in commands.rows && ROLLBACK_SOURCE_START in commands.rows
                && (old(db).stage.Some? && old(db).stage.value.state in {StageCommitted, StageActive} ==>
                      ROLLBACK_TARGET in commands.rows)
                && (old(db.stage.Some? && db.stage.value.state != StageRolledBack && db.stage.value.backupId == backupId) ==>
                      ROLLBACK_STAGE in commands.rows)
      ensures old(Lost(commands.rows, ROLLBACK_SOURCE_DEPLOY)) ==> o.Fail?
      ensures o.Pass? ==>
                && backupReady
                && Done(commands.rows, ROLLBACK_SOURCE_DEPLOY) && Done(commands.rows, ROLLBACK_SOURCE_START)
                && (db.stage.Some? ==> db.stage.value.state == StageRolledBack)
                && (old(db).stage.Some? && old(db).stage.value.state != StageRolledBack ==> Done(commands.rows, ROLLBACK_STAGE))
                && (old(db).stage.Some? && old(db).stage.value.state in {StageCommitted, StageActive} ==>
                      Done(commands.rows, ROLLBACK_TARGET))
                && (plan.hasDns ==> record == DnsRecord(plan.dnsId, plan.dnsSource))
      // Once every compensation has succeeded and the record is in step, so does the rollback.
      ensures !faulty && backupReady && old(Compensated(commands.rows)) ==>
                old(InStep()) ==>
                  o.Pass?
      // A missing compensation does not keep the others from being tried.
      ensures !faulty && backupReady && plan.hasDns && record != DnsRecord(plan.dnsId, plan.dnsSource) ==>
                old(record).id != plan.dnsId || old(record).content !in {plan.dnsSource, plan.dnsTarget}
    {
      hide Safe, Consistent, Evidenced, Ran;
      RanNone(commands.rows, commands.enqueued, Compensations(db.stage));
      o := SucceededBackup();
      if o.Fail? {
        return;
      }
      var stage := db.stage;
      var compensated := Compensate(stage, backupId);
      if compensated.Err? {
        return Fail(compensated.error);
      }
      var incomplete := compensated.value;
      var dns := TransferDns(Backward);
      if dns == Fail(Crashed) {
        return dns;
      }
      incomplete := incomplete + if dns.Pass? then 0 else 1;
      if incomplete == 0 && stage.Some? && stage.value.state != StageRolledBack {
        var advanced := AdvanceStage(stage.value, StageRolledBack);
        if advanced == Err(Crashed) {
          return Fail(Crashed);
        }
        incomplete := incomplete + if advanced.Ok? then 0 else 1;
      }
      o := if incomplete > 0 then Fail(Refused) else Pass;
    }

    // --- the coordinator -----------------------------------------------------------------------

    /** Move the phase by one, with its receipt, in one batch. */
    method AdvanceMove(next: Phase, backupId: Option<string>, receipt: Option<ReceiptPhase>) returns (r: Result<nat, Fault>)
      requires Safe() && db.effect.Some?
      requires next in {BackedUp, Stopped, Restoring, Validated}
      requires receipt == match next
                          case BackedUp => Some(BackupReceipt)
                          case Restoring => Some(RestoreReceipt)
                          case Validated => Some(ValidateReceipt)
                          case _ => None
      requires next == BackedUp ==> backupId.Some?
      requires next == Restoring ==> Done(commands.rows, RESTORE_STAGE)
      requires next == Validated ==> Done(commands.rows, RESTORE_VALIDATE)
      modifies `db
      ensures Safe()
      ensures db == old(db) || (AdvanceAllowed(old(db), next, backupId, receipt) && db == Advanced(old(db), next, backupId, receipt))
      ensures r.Ok? ==> db.phase == next && r.value == db.revision
      ensures !faulty ==> (r.Ok? <==> AdvanceAllowed(old(db), next, backupId, receipt))
      ensures !faulty ==>
                (r.Ok? <==>
                 && (backupId.Some? && old(db).backupId.Some? ==> backupId == old(db).backupId)
                 && old(db).phase == match next
                                     case BackedUp => Reserved
                                     case Stopped => BackedUp
                                     case Restoring => Stopped
                                     case _ => Restoring)
    {
      AdvanceAdmitted(plan, db, next, backupId, receipt);
      hide Consistent, Evidenced, Published, Specified, AdvanceAllowed;
      if AdvanceAllowed(db, next, backupId, receipt) {
        AdvanceKeeps(plan, db, next, backupId, receipt);
        AdvanceEvidenced(db, next, backupId, receipt, commands.rows);
      }
      var o := Batch(Advanced(db, next, backupId, receipt), AdvanceAllowed(db, next, backupId, receipt));
      r := if o.Pass? then Ok(db.revision) else Err(o.error);
    }

    lemma AdvanceEvidenced(before: Db, next: Phase, backupId: Option<string>, receipt: Option<ReceiptPhase>, rows: CommandRows)
      requires Evidenced(before, rows) && AdvanceAllowed(before, next, backupId, receipt)
      requires next in {BackedUp, Stopped, Restoring, Validated}
      requires next == Restoring ==> Done(rows, RESTORE_STAGE)
      requires next == Validated ==> Done(rows, RESTORE_VALIDATE)
      ensures Evidenced(Advanced(before, next, backupId, receipt), rows)
      ensures forall dns, asked :: Published(plan, Advanced(before, next, backupId, receipt), dns, asked)
    {
    }

    /** Read the move and make sure that its effect exists. */
    method Begin() returns (o: Outcome<Fault>)
      requires Safe()
      modifies `db
      ensures Safe()
      ensures db == old(db) || db == old(db).(effect := Some(Effect(EffectPrepared, 1)))
      ensures o.Pass? ==> db.effect.Some?
      ensures old(db).effect.Some? ==> db == old(db) && (!faulty ==> o.Pass?)
    {
      o := Disturb(faulty);
      if o.Fail? {
        return;
      }
      o := EnsureEffect();
    }

    method BackupSource(taken: Result<string, Fault>) returns (r: Result<nat, Fault>)
      requires Safe()
      modifies this
      ensures Safe() && Moved(old(db), db, BackedUp)
      ensures record == old(record) && askedBack == old(askedBack)
      ensures r.Ok? ==> Rank(db.phase) >= 1 && r.value == db.revision
      // Repeated once its phase is reached, it does nothing.
      ensures Rank(old(db).phase) >= 1 ==> Idle() && (!faulty ==> r.Ok?)
      ensures r.Ok? && old(db).phase == Reserved ==>
                taken.Ok? && taken.value != "" && db.backupId == Some(taken.value) && db.phase == BackedUp
      ensures !faulty && old(db).effect.Some? && old(db).phase == Reserved && taken.Ok? && taken.value != "" ==>
                r.Ok? || old(db).backupId.Some?
    {
      hide Safe, Consistent;
      FirstReceipts();
      var o := Begin();
      if o.Fail? {
        return Err(o.error);
      }
      if Rank(db.phase) >= 1 {
        return Ok(db.revision);
      }
      if taken.Err? {
        return Err(taken.error);
      }
      if taken.value == "" {
        return Err(Refused);
      }
      FirstReceipts();
      r := AdvanceMove(BackedUp, Some(taken.value), Some(BackupReceipt));
    }

    lemma KnownPhase()
      requires Safe()
      ensures db.phase in {Reserved, BackedUp, Stopped, Restoring, Validated, CutOver, Released, RolledBack}
    {
    }

    lemma StagedBackup()
      requires Safe() && db.stage.Some?
      ensures db.backupId == Some(db.stage.value.backupId)
    {
    }

    lemma FirstReceipts()
      requires Safe()
      ensures Rank(db.phase) < 3 ==> RestoreReceipt !in db.receipts
      ensures Rank(db.phase) < 4 ==> ValidateReceipt !in db.receipts
      ensures db.phase == Reserved ==> db.receipts == {}
      ensures db.phase == CutOver ==> db.receipts == ReceiptsOf(CutOver)
      ensures Rank(db.phase) < 5 && db.effect.Some? ==> db.effect.value.state == EffectPrepared
      ensures db.phase != Reserved ==> db.backupId.Some? && db.effect.Some?
    {
    }

    method StopSource() returns (r: Result<nat, Fault>)
      requires Safe()
      modifies this
      ensures Safe() && Moved(old(db), db, Stopped)
      ensures record == old(record) && askedBack == old(askedBack)
      ensures r.Ok? ==> Rank(db.phase) >= 2 && r.value == db.revision
      // Repeated once its phase is reached, it does nothing.
      ensures Rank(old(db).phase) >= 2 ==> Idle() && (!faulty ==> r.Ok?)
      ensures !faulty && old(db).effect.Some? ==> (r.Ok? <==> Rank(old(db).phase) >= 1)
    {
      hide Safe, Consistent;
      FirstReceipts();
      var o := Begin();
      if o.Fail? {
        return Err(o.error);
      }
      if Rank(db.phase) >= 2 {
        return Ok(db.revision);
      }
      r := AdvanceMove(Stopped, None, None);
    }

    method RestoreTarget() returns (r: Result<nat, Fault>)
      requires Safe()
      modifies this, commands
      ensures Safe() && Moved(old(db), db, Restoring) && OnlyRan({RESTORE_STAGE})
      ensures record == old(record) && askedBack == old(askedBack)
      ensures r.Ok? && db.phase != old(db).phase ==> backupReady
      ensures r.Ok? ==> Rank(db.phase) >= 3 && r.value == db.revision
      // Repeated once its phase is reached, it does nothing.
      ensures Rank(old(db).phase) >= 3 ==> Idle() && (!faulty ==> r.Ok?)
      ensures !faulty && backupReady && old(db).phase == Stopped && old(db).stage.None? && InTime() ==>
                RESTORE_STAGE in commands.rows
      ensures !faulty && backupReady && old(db).phase == Stopped && old(db).stage.None? ==>
                old(Done(commands.rows, RESTORE_STAGE)) ==> r.Ok?
    {
      hide Safe, Consistent, Evidenced, Ran;
      RanNone(commands.rows, commands.enqueued, {RESTORE_STAGE});
      FirstReceipts();
      var o := Begin();
      if o.Fail? {
        return Err(o.error);
      }
      if Rank(db.phase) >= 3 {
        return Ok(db.revision);
      }
      if db.backupId.None? {
        return Err(Refused);
      }
      o := AdapterRestore(db.backupId.value);
      if o.Fail? {
        return Err(o.error);
      }
      FirstReceipts();
      r := AdvanceMove(Restoring, None, Some(RestoreReceipt));
    }

    method VerifyTarget() returns (r: Result<nat, Fault>)
      requires Safe()
      modifies this, commands
      ensures Safe() && Moved(old(db), db, Validated) && OnlyRan({RESTORE_VALIDATE})
      ensures record == old(record) && askedBack == old(askedBack)
      ensures r.Ok? && db.phase != old(db).phase ==> backupReady
      ensures r.Ok? ==> Rank(db.phase) >= 4 && r.value == db.revision
      // Repeated once its phase is reached, it does nothing.
      ensures Rank(old(db).phase) >= 4 ==> Idle() && (!faulty ==> r.Ok?)
      // Without faults a staged backup is validated, and once it is, the phase moves.
      ensures !faulty && backupReady && old(db).phase == Restoring && old(db.stage.Some? && db.stage.value.state == StageStaged) ==>
                && (InTime() ==> RESTORE_VALIDATE in commands.rows)
                && (old(Done(commands.rows, RESTORE_VALIDATE)) ==> r.Ok? && db.phase == Validated)
    {
      hide Safe, Consistent, Evidenced, Ran;
      RanNone(commands.rows, commands.enqueued, {RESTORE_VALIDATE});
      FirstReceipts();
      if db.stage.Some? {
        StagedBackup();
      }
      var o := Begin();
      if o.Fail? {
        return Err(o.error);
      }
      if Rank(db.phase) >= 4 {
        return Ok(db.revision);
      }
      if db.backupId.None? {
        return Err(Refused);
      }
      o := AdapterVerify(db.backupId.value);
      if o.Fail? {
        return Err(o.error);
      }
      FirstReceipts();
      r := AdvanceMove(Validated, None, Some(ValidateReceipt));
    }

    method CutoverEndpoint() returns (r: Result<nat, Fault>)
      requires Safe()
      modifies this, commands
      ensures Safe() && Moved(old(db), db, CutOver) && OnlyRan({RESTORE_COMMIT, ACTIVATE_TARGET})
      ensures backupReady == old(backupReady) && (askedBack ==> old(askedBack))
      ensures r.Ok? && db.phase != old(db).phase ==> backupReady
      ensures r.Ok? && old(db).phase == Validated ==> db.phase == CutOver && r.value == db.revision
      // Before that phase it succeeds without moving the phase, although everything is restored, active and published.
      ensures r.Ok? && Rank(old(db).phase) < 5 ==>
                && backupReady && Done(commands.rows, RESTORE_COMMIT) && Done(commands.rows, ACTIVATE_TARGET)
                && db.stage.Some? && db.stage.value.state == StageActive && db.backupId == Some(db.stage.value.backupId)
                && (plan.hasDns ==> record == DnsRecord(plan.dnsId, plan.dnsTarget) && !askedBack)
      ensures old(db).phase != Validated ==> db.phase == old(db).phase
      // Without faults a validated move commits and activates its stage, and once that is done it is cut over.
      ensures !faulty && backupReady && old(db).phase == Validated
              && old(db.stage.Some? && db.stage.value.state in {StageValidated, StageCommitted}) ==>
                && (InTime() ==> RESTORE_COMMIT in commands.rows)
                && (InTime() && old(Done(commands.rows, RESTORE_COMMIT)) ==> ACTIVATE_TARGET in commands.rows)
                && (old(Done(commands.rows, RESTORE_COMMIT) && Done(commands.rows, ACTIVATE_TARGET) && InStep()) ==>
                      (exists h <- old(db).capacity :: h.state != HeldReleased) ==> r.Ok? && db.phase == CutOver)
      ensures !faulty && backupReady && old(db).phase == Restoring && old(db.stage.Some? && db.stage.value.state == StageActive) ==>
                old(InStep()) ==>
                  r.Ok?
      // Repeated once its phase is reached, it does nothing.
      ensures Rank(old(db).phase) >= 5 ==> Idle() && (!faulty ==> r.Ok?)
      // From the cutover on it succeeds without doing anything, even after a rollback.
      ensures !faulty && Rank(old(db).phase) >= 5 ==> r.Ok? && db == old(db) && record == old(record)
    {
      hide Safe, Consistent, Evidenced, MoveCapacity, MoveLeases, AllAt, PhysicalAllowed, Ran;
      RanNone(commands.rows, commands.enqueued, {RESTORE_COMMIT, ACTIVATE_TARGET});
      FirstReceipts();
      if db.stage.Some? {
        StagedBackup();
      }
      var o := Begin();
      if o.Fail? {
        return Err(o.error);
      }
      if Rank(db.phase) >= 5 {
        return Ok(db.revision);
      }
      if db.backupId.None? {
        return Err(Refused);
      }
      o := AdapterCutover(db.backupId.value);
      if o.Fail? {
        return Err(o.error);
      }
      if db.phase != Validated {
        return Ok(db.revision);
      }
      o := CutoverMove();
      r := if o.Pass? then Ok(db.revision) else Err(o.error);
    }

    method CutoverMove() returns (o: Outcome<Fault>)
      requires Safe() && db.effect.Some?
      requires Done(commands.rows, RESTORE_COMMIT) && Done(commands.rows, ACTIVATE_TARGET)
      requires plan.hasDns ==> record.content == plan.dnsTarget && !askedBack
      modifies `db
      ensures Safe()
      ensures db == old(db) || (CutoverAllowed(plan, old(db)) && db == CutoverRows(plan, old(db)))
      ensures o.Pass? ==> db.phase == CutOver
      ensures !faulty ==> (o.Pass? <==> CutoverAllowed(plan, old(db)))
      ensures !faulty ==> (o.Pass? <==> old(db).phase == Validated && exists h <- old(db).capacity :: h.state != HeldReleased)
    {
      hide Consistent, PhysicalAllowed, AllAt, MoveCapacity, MoveLeases, Specified;
      CutoverAdmitted(plan, db);
      if CutoverAllowed(plan, db) {
        CutoverPlaces(plan, db);
      }
      o := Batch(CutoverRows(plan, db), CutoverAllowed(plan, db));
    }

    method ReleaseSource() returns (r: Result<nat, Fault>)
      requires Safe()
      modifies this, commands
      ensures Safe() && Moved(old(db), db, Released) && OnlyRan({RELEASE_SOURCE})
      ensures record == old(record) && askedBack == old(askedBack) && backupReady == old(backupReady)
      ensures r.Ok? && db.phase != old(db).phase ==> backupReady
      ensures r.Ok? ==> db.phase == Released && r.value == db.revision
      ensures !faulty && old(db).phase == Released ==> r.Ok? && db == old(db)
      ensures old(db).phase != CutOver ==>
                db.phase == old(db).phase && commands.rows == old(commands.rows) && commands.enqueued == old(commands.enqueued)
      ensures !faulty && backupReady && old(db).phase == CutOver && InTime() ==> RELEASE_SOURCE in commands.rows
      ensures !faulty && backupReady && old(db).phase == CutOver && old(Done(commands.rows, RELEASE_SOURCE)) ==> r.Ok?
    {
      hide Safe, Consistent, Evidenced, PhysicalAllowed, Ran;
      RanNone(commands.rows, commands.enqueued, {RELEASE_SOURCE});
      FirstReceipts();
      var o := Begin();
      if o.Fail? {
        return Err(o.error);
      }
      if db.phase == Released {
        o := Disturb(faulty);
        if o.Fail? {
          return Err(o.error);
        }
        ReleasedRows();
        return if db.reservation != TargetReleased || db.effect.value.state != EffectReleased then Err(Refused)
               else Ok(db.revision);
      }
      if db.phase != CutOver {
        return Err(Refused);
      }
      if db.backupId.None? {
        return Err(Refused);
      }
      o := AdapterRelease();
      if o.Fail? {
        return Err(o.error);
      }
      o := ReleaseMove();
      r := if o.Pass? then Ok(db.revision) else Err(o.error);
    }

    lemma RestoringPlaces()
      requires Safe() && db.phase == Restoring
      ensures On(db, plan.source)
    {
    }

    lemma ReleasedPlaces()
      requires Safe() && db.phase == Released
      ensures On(db, plan.target)
    {
    }

    lemma ReleasedRows()
      requires Safe()
      ensures db.phase == Released ==> db.reservation == TargetReleased && db.effect.value.state == EffectReleased
      ensures db.phase == CutOver ==> ReleaseAllowed(plan, db)
    {
      hide ReleaseAllowed;
      if db.phase == CutOver {
        ReleaseAdmitted(plan, db);
      }
    }

    method ReleaseMove() returns (o: Outcome<Fault>)
      requires Safe() && db.phase == CutOver && Done(commands.rows, RELEASE_SOURCE)
      modifies `db
      ensures Safe()
      ensures db == old(db) || db == ReleaseRows(old(db))
      ensures o.Pass? ==> db.phase == Released
      ensures !faulty ==> o.Pass?
    {
      hide Consistent, PhysicalAllowed, AllAt, Specified;
      FirstReceipts();
      ReleasedRows();
      ReleaseKeepsPlace(plan, db);
      o := Batch(ReleaseRows(db), ReleaseAllowed(plan, db));
    }

    method RollbackIfRequired() returns (r: Result<nat, Fault>)
      requires Safe()
      modifies this, commands
      ensures Safe() && Moved(old(db), db, RolledBack) && OnlyRan(Compensations(old(db).stage))
      ensures r.Ok? && db.phase != old(db).phase ==> backupReady
      ensures r.Ok? ==> db.phase in {Released, RolledBack} && r.value == db.revision
      ensures backupReady == old(backupReady) && Fenced(old(commands.rows), commands.rows)
      // A compensation that has failed for good leaves the phase, but not the record.
      ensures old(Lost(commands.rows, ROLLBACK_SOURCE_DEPLOY)) && old(db).phase !in {Released, RolledBack} ==>
                r.Err? && db.phase == old(db).phase
      ensures !faulty && backupReady && plan.hasDns && old(db).phase !in {Reserved, Released, RolledBack} ==>
                old(InStep()) ==>
                  record == DnsRecord(plan.dnsId, plan.dnsSource)
      // Without faults every compensation is asked for, and once all have succeeded the move is rolled back.
      ensures !faulty && backupReady && old(db).phase !in {Reserved, Released, RolledBack} ==>
                && (InTime() ==>
                      && ROLLBACK_SOURCE_DEPLOY in commands.rows && ROLLBACK_SOURCE_START in commands.rows
                      && (old(db.stage.Some? && db.stage.value.state in {StageCommitted, StageActive}) ==>
                            ROLLBACK_TARGET in commands.rows)
                      && (old(db.stage.Some? && db.stage.value.state != StageRolledBack) ==> ROLLBACK_STAGE in commands.rows))
                && (old(Compensated(commands.rows) && InStep()) ==>
                      (old(db).phase == CutOver ==> exists h <- old(db).capacity :: h.state != HeldReleased) ==>
                        r.Ok? && db.phase == RolledBack)
      // A move that is released or rolled back is left alone.
      ensures old(db).phase in {Released, RolledBack} ==> Idle() && (!faulty ==> r.Ok?)
      // Rolling back before a backup exists is refused.
      ensures old(db).phase == Reserved && old(db).backupId.None? ==> r.Err?
    {
      hide Safe, Consistent, Evidenced, PhysicalAllowed, Compensated, Lost, Rank, InTime, InStep, RollbackAllowed, Ran;
      RanNone(commands.rows, commands.enqueued, Compensations(db.stage));
      FirstReceipts();
      KnownPhase();
      if db.stage.Some? {
        StagedBackup();
      }
      var o := Begin();
      if o.Fail? {
        return Err(o.error);
      }
      if db.phase == Released || db.phase == RolledBack {
        return Ok(db.revision);
      }
      if db.backupId.None? {
        return Err(Refused);
      }
      o := UndoMove(db.backupId.value);
      r := if o.Pass? then Ok(db.revision) else Err(o.error);
    }

    /** Compensate on both nodes, then give back what the move took. */
    method UndoMove(backupId: string) returns (o: Outcome<Fault>)
      requires Safe() && db.effect.Some? && db.phase !in {Released, RolledBack}
      modifies `db, `record, `askedBack, `clock, commands
      ensures Safe() && Moved(old(db), db, RolledBack) && Fenced(old(commands.rows), commands.rows) && Later()
      ensures OnlyRan(Compensations(old(db).stage))
      ensures o.Pass? ==> backupReady && db.phase == RolledBack
      ensures old(Lost(commands.rows, ROLLBACK_SOURCE_DEPLOY)) ==> o.Fail? && db.phase == old(db).phase
      ensures !faulty && backupReady && plan.hasDns && old(InStep()) ==> record == DnsRecord(plan.dnsId, plan.dnsSource)
      ensures !faulty && backupReady && InTime() ==>
                && ROLLBACK_SOURCE_DEPLOY in commands.rows && ROLLBACK_SOURCE_START in commands.rows
                && (old(db.stage.Some? && db.stage.value.state in {StageCommitted, StageActive}) ==>
                      ROLLBACK_TARGET in commands.rows)
                && (old(db.stage.Some? && db.stage.value.state != StageRolledBack && db.stage.value.backupId == backupId) ==>
                      ROLLBACK_STAGE in commands.rows)
      ensures !faulty && backupReady && old(Compensated(commands.rows) && InStep()) ==>
                || old(db).phase in {BackedUp, Stopped, Restoring, Validated}
                || (old(db).phase == CutOver && exists h <- old(db).capacity :: h.state != HeldReleased) ==>
                  o.Pass?
    {
      hide Safe, Consistent, Evidenced, PhysicalAllowed, Compensated, Lost, InTime, Ran;
      RanNone(commands.rows, commands.enqueued, Compensations(db.stage));
      o := AdapterRollback(backupId);
      if o.Fail? {
        return;
      }
      o := RollbackMove();
    }

    method RollbackMove() returns (o: Outcome<Fault>)
      requires Safe() && db.effect.Some? && db.phase !in {Released, RolledBack}
      requires Done(commands.rows, ROLLBACK_SOURCE_DEPLOY) && Done(commands.rows, ROLLBACK_SOURCE_START)
      requires db.stage.Some? ==> db.stage.value.state == StageRolledBack
      requires plan.hasDns ==> record.content == plan.dnsSource
      modifies `db
      ensures Safe()
      ensures db == old(db) || (RollbackAllowed(plan, old(db)) && db == RollbackRows(plan, old(db)))
      ensures o.Pass? ==> db.phase == RolledBack
      ensures !faulty ==> (o.Pass? <==> RollbackAllowed(plan, old(db)))
      ensures !faulty ==>
                (o.Pass? <==>
                 || old(db).phase in {BackedUp, Stopped, Restoring, Validated}
                 || (old(db).phase == CutOver && exists h <- old(db).capacity :: h.state != HeldReleased))
    {
      hide Consistent, PhysicalAllowed, AllAt, MoveCapacity, MoveLeases, Specified;
      RollbackAdmitted(plan, db);
      if RollbackAllowed(plan, db) {
        RollbackReturns(plan, db);
      }
      o := Batch(RollbackRows(plan, db), RollbackAllowed(plan, db));
    }

    /** A step leaves the phase alone, or moves it once, to its own phase. */
    predicate Moved(before: Db, after: Db, to: Phase) {
      || (after.phase == before.phase && after.revision == before.revision && after.deploymentNode == before.deploymentNode
          && after.capacity == before.capacity && after.leases == before.leases)
      || (&& after.phase == to && PhaseAllowed(before.phase, to) && after.revision == before.revision + 1
          && (to in {CutOver, Released, RolledBack} ==>
                && before.effect.Some? && after.effect.Some?
                && after.effect.value.revision == before.effect.value.revision + 1))
    }

    /** Any steps in any order, repeated at will and cut short anywhere; with rollbacks, or without any. */
    method Run(calls: nat, rollbacks: bool)
      requires Safe()
      modifies this, commands
      ensures Safe() && (askedBack ==> old(askedBack) || rollbacks)
    {
      hide Safe;
      for i := 0 to calls
        invariant Safe() && (askedBack ==> old(askedBack) || rollbacks)
      {
        Environment();
        if * {
          var taken: string := *;
          var _ := BackupSource(Ok(taken));
        } else if * {
          var _ := StopSource();
        } else if * {
          var _ := RestoreTarget();
        } else if * {
          var _ := VerifyTarget();
        } else if * {
          var _ := CutoverEndpoint();
        } else if * {
          var _ := ReleaseSource();
        } else if rollbacks {
          var _ := RollbackIfRequired();
        }
      }
    }

    /** Nodes, backups and signing keys come and go. */
    method Environment()
      requires Safe()
      modifies `effectReady, `backupReady, `clock, commands
      ensures Safe()
    {
      hide Consistent, Evidenced, Published, Specified;
      effectReady, backupReady := *, *;
      var passed :| passed >= 0;
      clock := clock + passed;
      commands.Rotate();
    }
  }

  /**
   In every run the phase decides where the server is, a release rests on the five
   durable command successes, and a rollback on the compensations: in particular no
   target whose activation was ever asked for is left behind.  The name points at the
   target from the cutover on, unless a rollback has asked for the record since.
   */
  method MoveHistory(plan: Plan, faulty: bool, commands: PhysicalCommands, capacity: seq<Holding>, leases: seq<Holding>,
                     record: DnsRecord, calls: nat, rollbacks: bool)
    returns (db: Db, rows: CommandRows, dns: DnsRecord, ghost askedBack: bool, ghost enqueued: seq<Enqueue>)
    requires plan.source != plan.target && AllAt(capacity, plan.source) && AllAt(leases, plan.source)
    requires commands.Safe() && commands.rows == map[] && commands.faulty == faulty
    modifies commands
    // Every stored command, and every one that was sent, is for the right node and of the right type.
    ensures forall a <- rows :: Addressed(plan, a, rows[a].envelope.body)
    ensures forall e <- enqueued :: Addressed(plan, e.key, e.envelope.body)
    // A release removed the server from its source, after applying it on the target.
    ensures db.phase == Released ==>
              && Sent(enqueued, RESTORE_COMMIT, plan.target, "backup.restore")
              && Sent(enqueued, ACTIVATE_TARGET, plan.target, "deployment.apply")
              && Sent(enqueued, RELEASE_SOURCE, plan.source, "deployment.remove")
    // A rollback applied and started the server on its source again, and removed what was activated on the target.
    ensures db.phase == RolledBack ==>
              && Sent(enqueued, ROLLBACK_SOURCE_DEPLOY, plan.source, "deployment.apply")
              && Sent(enqueued, ROLLBACK_SOURCE_START, plan.source, "server.start")
              && (ACTIVATE_TARGET in rows ==> Sent(enqueued, ROLLBACK_TARGET, plan.target, "deployment.remove"))
    ensures On(db, if db.phase in {CutOver, Released} then plan.target else plan.source)
    ensures db.phase == Released ==>
              forall action <- {RESTORE_STAGE, RESTORE_VALIDATE, RESTORE_COMMIT, ACTIVATE_TARGET, RELEASE_SOURCE} ::
                Done(rows, action)
    ensures db.phase == RolledBack ==>
              && Done(rows, ROLLBACK_SOURCE_DEPLOY) && Done(rows, ROLLBACK_SOURCE_START)
              && (db.stage.Some? ==> db.stage.value.state == StageRolledBack && Done(rows, ROLLBACK_STAGE))
              && (ACTIVATE_TARGET in rows ==> Done(rows, ROLLBACK_TARGET))
              && (plan.hasDns ==> dns.content == plan.dnsSource)
    ensures askedBack ==> rollbacks
    ensures plan.hasDns && db.phase in {CutOver, Released} && !askedBack ==> dns.content == plan.dnsTarget
  {
    hide Sent, Addressed;
    var saga := new MoveSaga(plan, faulty, commands, capacity, leases, record);
    saga.Run(calls, rollbacks);
    db, rows, dns, askedBack := saga.db, commands.rows, saga.record, saga.askedBack;
    enqueued := commands.enqueued;
    EnqueuedAddressed(plan, commands);
    if db.phase == Released {
      ReleasedWasSent(plan, db, commands);
    } else if db.phase == RolledBack {
      RolledBackWasSent(plan, db, commands);
    }
  }

  /**
   A move that is still restoring, but whose stage has been activated already: the cutover
   step succeeds and publishes the target, while the phase, and with it the place of the
   server on record, stays on the source.
   */
  method CutoverWhileRestoring(saga: MoveSaga) returns (r: Result<nat, Fault>)
    requires saga.Safe() && !saga.faulty && saga.plan.hasDns && saga.backupReady && saga.db.phase == Restoring
    requires saga.db.stage.Some? && saga.db.stage.value.state == StageActive
    requires saga.record.id == saga.plan.dnsId && saga.record.content in {saga.plan.dnsSource, saga.plan.dnsTarget}
    modifies saga, saga.commands
    ensures r.Ok? && saga.db.phase == Restoring && On(saga.db, saga.plan.source)
    ensures saga.record.content == saga.plan.dnsTarget
  {
    hide Consistent, Evidenced, Published, Specified, On;
    saga.RestoringPlaces();
    r := saga.CutoverEndpoint();
    saga.RestoringPlaces();
  }

  /**
   A cut-over move one of whose compensations has failed for good: its rollback takes the
   record back and then reports the failure, and the source can be released all the same.
   */
  method ReleaseAfterRollback(saga: MoveSaga) returns (rolledBack: Result<nat, Fault>, released: Result<nat, Fault>)
    requires saga.Safe() && !saga.faulty && saga.plan.hasDns && saga.backupReady
    requires saga.db.phase == CutOver && saga.record == DnsRecord(saga.plan.dnsId, saga.plan.dnsTarget)
    requires Lost(saga.commands.rows, ROLLBACK_SOURCE_DEPLOY) && Done(saga.commands.rows, RELEASE_SOURCE)
    modifies saga, saga.commands
    ensures rolledBack.Err? && released.Ok?
    ensures saga.db.phase == Released && On(saga.db, saga.plan.target) && saga.record.content == saga.plan.dnsSource
  {
    hide Consistent, Evidenced, Published, Specified, On;
    rolledBack := saga.RollbackIfRequired();
    released := saga.ReleaseSource();
    saga.ReleasedPlaces();
  }
}
