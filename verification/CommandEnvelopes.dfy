/**
 Durable command envelopes: a signed command is stored before it is enqueued, every
 retry enqueues the stored one, and a terminal result is adopted instead of running
 the command again.  `Deliveries` holds the commands of one lifecycle operation by
 step, `PhysicalCommands` those of one move effect by action.
 */
module CommandEnvelopes {
  import opened Faults
  import opened Prelude

  /** What is signed; the fingerprint is an injective digest of it. */
  datatype Body = Body(
    commandId: string, operationId: string, organizationId: string, nodeId: string,
    commandType: string, issuedAt: int, payload: string)

  datatype Envelope = Envelope(body: Body, signature: string)

  datatype Status = Succeeded | Failed | Rejected

  datatype CommandResult = CommandResult(commandId: string, operationId: string, status: Status, revision: Option<int>)

  datatype Enqueue = Enqueue(key: string, envelope: Envelope)

  function Fingerprint(e: Envelope): Body {
    e.body
  }

  function Sign(body: Body, signingKey: string): Envelope {
    Envelope(body, signingKey + body.payload)
  }

  // --- deliveries of a lifecycle operation -------------------------------------

  datatype DeliveryState = Pending | Delivered | Completed | DeliveryFailed

  datatype Delivery = Delivery(
    commandId: string, fingerprint: Body, envelope: Envelope, state: DeliveryState,
    result: Option<CommandResult>, createdAt: int, attempts: nat)

  datatype Dispatched = Dispatched(result: CommandResult, adopted: bool)

  predicate Settled(d: Delivery) {
    d.state == Completed || d.state == DeliveryFailed
  }

  /** The delivery row after an update, which is not fenced on the state it finds. */
  function Updated(d: Delivery, state: DeliveryState, result: Option<CommandResult>): Delivery {
    d.(state := state, result := if result.Some? then result else d.result, attempts := d.attempts + 1)
  }

  /** Envelopes and results that are settled stay as they are. */
  predicate Kept(before: map<string, Delivery>, after: map<string, Delivery>) {
    forall k <- before ::
      && k in after
      && after[k].envelope == before[k].envelope
      && after[k].createdAt == before[k].createdAt
      && (Settled(before[k]) ==> after[k] == before[k])
  }

  class Deliveries {
    const faulty: bool
    const operationId: string
    const organizationId: string
    const nodeId: string
    const expiresAt: int
    var signingKey: Option<string>
    var rows: map<string, Delivery>
    /** Every command handed to the node coordinator so far. */
    ghost var enqueued: seq<Enqueue>
    /** What the coordinator answered so far. */
    ghost var reports: seq<Option<CommandResult>>

    constructor (faulty: bool, operationId: string, organizationId: string, nodeId: string, expiresAt: int)
      ensures Safe() && enqueued == [] && rows == map[] && this.faulty == faulty
    {
      this.faulty, this.operationId, this.organizationId := faulty, operationId, organizationId;
      this.nodeId, this.expiresAt, signingKey := nodeId, expiresAt, None;
      rows, enqueued, reports := map[], [], [];
    }

    function CommandIdOf(step: string): string {
      "gamecmd_" + operationId + ":" + step
    }

    /** The command belongs to this step of this operation. */
    predicate Scoped(step: string, command: Envelope) {
      && command.body.commandId == CommandIdOf(step)
      && command.body.operationId == operationId
      && command.body.organizationId == organizationId
      && command.body.nodeId == nodeId
    }

    /** Every command that was ever enqueued for a step is the one stored envelope of that step. */
    ghost predicate Safe()
      reads `rows, `enqueued
    {
      && (forall e <- enqueued :: e.key in rows && rows[e.key].envelope == e.envelope)
      && (forall k <- rows ::
            && rows[k].fingerprint == Fingerprint(rows[k].envelope)
            && rows[k].commandId == CommandIdOf(k) && Scoped(k, rows[k].envelope)
            && rows[k].createdAt < expiresAt
            && (Settled(rows[k]) ==> rows[k].result.Some?))
    }

    method ReadDelivery(step: string) returns (r: Result<Option<Delivery>, Fault>)
      ensures r.Ok? ==> r.value == if step in rows then Some(rows[step]) else None
      ensures !faulty ==> r.Ok?
      ensures r.Err? ==> r.error == Crashed || r.error == Unread
    {
      var o := DisturbRead(faulty);
      if o.Fail? {
        return Err(o.error);
      }
      r := Ok(if step in rows then Some(rows[step]) else None);
    }

    /** Store a new delivery; how that ended is found out by reading it back. */
    method InsertDelivery(step: string, command: Envelope, issuedAt: int) returns (o: Outcome<Fault>)
      requires Safe() && step !in rows && Scoped(step, command) && issuedAt < expiresAt
      modifies `rows
      ensures Safe()
      ensures rows == old(rows) || rows == old(rows)[step := Delivery(
                CommandIdOf(step), Fingerprint(command), command, Pending, None, issuedAt, 0)]
      ensures !faulty ==> o.Pass? && step in rows
      ensures o.Fail? ==> o.error == Crashed
    {
      o := Disturb(faulty);
      if o.Pass? {
        rows := rows[step := Delivery(CommandIdOf(step), Fingerprint(command), command, Pending, None, issuedAt, 0)];
        o := Disturb(faulty);
      }
      if o == Fail(IoFailed) {
        o := Pass;
      }
    }

    /** Store a new delivery and make sure that it is there. */
    method StoreDelivery(step: string, command: Envelope, issuedAt: int) returns (o: Outcome<Fault>)
      requires Safe() && step !in rows && Scoped(step, command) && issuedAt < expiresAt
      modifies `rows
      ensures Safe()
      ensures rows == old(rows) || rows == old(rows)[step := Delivery(
                CommandIdOf(step), Fingerprint(command), command, Pending, None, issuedAt, 0)]
      ensures o.Pass? ==> step in rows
      ensures o.Fail? && step in rows ==> o.error == Crashed || o.error == Unread
      ensures !faulty ==> o.Pass?
    {
      hide Safe;
      o := InsertDelivery(step, command, issuedAt);
      if o.Fail? {
        return;
      }
      var reread := ReadDelivery(step);
      if reread.Err? {
        return Fail(reread.error);
      }
      if reread.value.None? || reread.value.value.commandId != CommandIdOf(step)
         || reread.value.value.fingerprint != Fingerprint(command) {
        return Fail(Refused);
      }
    }

    method EnqueueCommand(step: string, command: Envelope) returns (o: Outcome<Fault>)
      requires Safe() && step in rows && rows[step].envelope == command
      modifies `enqueued
      ensures Safe()
      ensures enqueued == old(enqueued) || enqueued == old(enqueued) + [Enqueue(step, command)]
      ensures !faulty ==> o.Pass? && enqueued == old(enqueued) + [Enqueue(step, command)]
    {
      o := Disturb(faulty);
      if o.Fail? {
        return;
      }
      enqueued := enqueued + [Enqueue(step, command)];
      o := Disturb(faulty);
    }

    method UpdateDelivery(step: string, row: Delivery, state: DeliveryState, result: Option<CommandResult>)
      returns (o: Outcome<Fault>)
      requires Safe() && (state == Completed || state == DeliveryFailed ==> result.Some?)
      modifies `rows
      ensures Safe()
      ensures rows == old(rows)
              || (step in old(rows) && rows == old(rows)[step := Updated(old(rows)[step], state, result)])
      ensures o.Pass? && step in old(rows) && old(rows)[step].commandId == row.commandId
              && old(rows)[step].fingerprint == row.fingerprint ==>
                rows == old(rows)[step := Updated(old(rows)[step], state, result)]
      ensures !faulty ==> o.Pass?
    {
      o := Disturb(faulty);
      if o.Fail? {
        return;
      }
      if step in rows && rows[step].commandId == row.commandId && rows[step].fingerprint == row.fingerprint {
        rows := rows[step := Updated(rows[step], state, result)];
      }
      o := Disturb(faulty);
    }

    /** The coordinator's terminal result for a command, if the agent has produced one. */
    method WaitForResult() returns (r: Result<Option<CommandResult>, Fault>)
      modifies `reports
      ensures !faulty ==> r.Ok?
      ensures reports == if r.Ok? then old(reports) + [r.value] else old(reports)
    {
      var o := Disturb(faulty);
      if o.Fail? {
        return Err(o.error);
      }
      var result: Option<CommandResult> := *;
      reports := reports + [result];
      r := Ok(result);
    }

    /** The coordinator answered once more, and what it answered is returned. */
    twostate predicate Reported(new r: Result<Dispatched, Fault>)
      reads `reports
    {
      && |reports| == |old(reports)| + 1 && old(reports) <= reports
      && var last := reports[|reports| - 1];
         if last.Some? then r == Ok(Dispatched(last.value, false)) else r.Err?
    }

    /** Run one step of the operation as a command, or adopt its earlier result. */
    method Dispatch(step: string, commandType: string, payload: string, expectedType: string, now: int)
      returns (r: Result<Dispatched, Fault>)
      requires Safe()
      modifies this
      ensures Safe() && Kept(old(rows), rows) && signingKey == old(signingKey)
      ensures forall k <- rows :: k != step ==> k in old(rows) && rows[k] == old(rows)[k]
      // At most one enqueue, of the envelope the step has.
      ensures enqueued == old(enqueued)
              || (step in rows && enqueued == old(enqueued) + [Enqueue(step, rows[step].envelope)])
      // A new delivery holds the command it was asked for, signed with the current key.
      ensures step in rows && step !in old(rows) ==>
                && signingKey.Some? && rows[step].createdAt == now
                && rows[step].envelope == Sign(Body(CommandIdOf(step), operationId, organizationId, nodeId, commandType,
                                                    now, payload), signingKey.value)
      // A success is durable.
      ensures r.Ok? ==> step in rows && Settled(rows[step]) && rows[step].result == Some(r.value.result)
      ensures r.Ok? && !r.value.adopted ==>
                rows[step].state == if r.value.result.status == Succeeded then Completed else DeliveryFailed
      ensures r.Ok? ==> r.value.adopted == (step in old(rows) && Settled(old(rows)[step]))
      // After a durable result nothing is enqueued, and only that result is returned.
      ensures step in old(rows) && Settled(old(rows)[step]) ==>
                && enqueued == old(enqueued) && rows == old(rows)
                && (r.Ok? ==> Some(r.value.result) == old(rows)[step].result)
                && (!faulty ==> (r.Ok? <==> old(rows)[step].result.value.commandId == CommandIdOf(step)
                                            && old(rows)[step].result.value.operationId == operationId))
      // Without faults a live command of the right type is enqueued, first time or again.
      ensures !faulty && step !in old(rows) && signingKey.Some? && commandType == expectedType && now < expiresAt ==>
                step in rows && enqueued == old(enqueued) + [Enqueue(step, rows[step].envelope)]
      ensures !faulty && step in old(rows) && !Settled(old(rows)[step]) ==>
                (enqueued == old(enqueued) <==> old(rows)[step].envelope.body.commandType != expectedType)
      // Then what the coordinator reports is what is returned.
      ensures !faulty && enqueued != old(enqueued) ==> Reported(r)
    {
      hide Safe, Kept;
      if step in rows {
        OwnRow(step);
      }
      KeptSame(rows);
      var existing := ReadDelivery(step);
      if existing.Err? {
        return Err(existing.error);
      }
      var issuedAt := if existing.value.Some? then existing.value.value.createdAt else now;
      if issuedAt >= expiresAt {
        return Err(Refused);
      }
      if existing.value.Some? && existing.value.value.commandId != CommandIdOf(step) {
        return Err(Refused);
      }
      if existing.value.Some? && Settled(existing.value.value) {
        var terminal := existing.value.value.result.value;
        if terminal.commandId != CommandIdOf(step) || terminal.operationId != operationId {
          return Err(Refused);
        }
        return Ok(Dispatched(terminal, true));
      }
      var command;
      if existing.value.None? {
        if signingKey.None? {
          return Err(Refused);
        }
        command := Sign(
          Body(CommandIdOf(step), operationId, organizationId, nodeId, commandType, issuedAt, payload), signingKey.value);
      } else {
        command := existing.value.value.envelope;
      }
      if !Scoped(step, command) || command.body.commandType != expectedType {
        return Err(Refused);
      }
      if existing.value.None? {
        var stored := StoreDelivery(step, command, issuedAt);
        KeptInsert(old(rows), rows, step);
        if stored.Fail? {
          return Err(stored.error);
        }
      }
      r := Deliver(step, command);
      KeptBut(old(rows), rows, step);
    }

    lemma OwnRow(step: string)
      requires Safe() && step in rows
      ensures rows[step].commandId == CommandIdOf(step) && rows[step].fingerprint == Fingerprint(rows[step].envelope)
      ensures Scoped(step, rows[step].envelope) && rows[step].createdAt < expiresAt
      ensures Settled(rows[step]) ==> rows[step].result.Some?
    {
    }

    /** Enqueue the stored command and settle its delivery. */
    method Deliver(step: string, command: Envelope) returns (r: Result<Dispatched, Fault>)
      requires Safe() && step in rows && rows[step].envelope == command && !Settled(rows[step])
      modifies `rows, `enqueued, `reports
      ensures Safe()
      // Without faults the answer is what the coordinator reported.
      ensures !faulty ==> Reported(r)
      ensures step in rows && rows[step].envelope == command && rows[step].createdAt == old(rows)[step].createdAt
      ensures rows.Keys == old(rows).Keys && forall k <- rows :: k != step ==> rows[k] == old(rows)[k]
      ensures enqueued == old(enqueued) || enqueued == old(enqueued) + [Enqueue(step, command)]
      ensures r.Ok? ==>
                && !r.value.adopted && rows[step].result == Some(r.value.result)
                && rows[step].state == (if r.value.result.status == Succeeded then Completed else DeliveryFailed)
                && rows[step].attempts == old(rows)[step].attempts + 2
      ensures !faulty ==> enqueued == old(enqueued) + [Enqueue(step, command)]
    {
      hide Safe;
      OwnRow(step);
      var row := rows[step];
      var o := EnqueueCommand(step, command);
      if o.Fail? {
        return Err(o.error);
      }
      o := UpdateDelivery(step, row, Delivered, None);
      if o.Fail? {
        return Err(o.error);
      }
      var terminal := WaitForResult();
      if terminal.Err? {
        return Err(terminal.error);
      }
      if terminal.value.None? {
        return Err(Refused);
      }
      var result := terminal.value.value;
      o := UpdateDelivery(step, row, if result.status == Succeeded then Completed else DeliveryFailed, Some(result));
      if o.Fail? {
        return Err(o.error);
      }
      r := Ok(Dispatched(result, false));
    }

    /** Any steps, retried at will and cut short anywhere, while the signing key is rotated. */
    method Run(attempts: nat)
      requires Safe()
      modifies this
      ensures Safe() && Kept(old(rows), rows) && old(enqueued) <= enqueued
    {
      for i := 0 to attempts
        invariant Safe() && Kept(old(rows), rows) && old(enqueued) <= enqueued
      {
        ghost var before := rows;
        signingKey := *;
        var step: string := *;
        var commandType: string := *;
        var payload: string := *;
        var now: int := *;
        var _ := Dispatch(step, commandType, payload, commandType, now);
      }
    }
  }

  /** A retry after a slow second writer enqueues a settled command once more. */
  method SecondWriter(table: Deliveries, step: string, commandType: string, payload: string, now: int)
    requires table.Safe() && !table.faulty
    requires step in table.rows && Settled(table.rows[step]) && table.rows[step].envelope.body.commandType == commandType
    modifies table
    ensures step in table.rows && table.enqueued == old(table.enqueued) + [Enqueue(step, old(table.rows[step].envelope))]
  {
    var late := table.UpdateDelivery(step, table.rows[step], Delivered, None);
    var again := table.Dispatch(step, commandType, payload, commandType, now);
  }

  /**
   Whoever's result the coordinator returns is stored: without faults a success can be
   repeated if and only if its result is that of this command and operation.
   */
  method DispatchTwice(table: Deliveries, step: string, commandType: string, payload: string, expectedType: string,
                       now: int, later: int)
    returns (first: Result<Dispatched, Fault>, second: Result<Dispatched, Fault>)
    requires table.Safe() && !table.faulty
    modifies table
    ensures first.Ok? ==>
              (second.Ok? <==> first.value.result.commandId == table.CommandIdOf(step)
                               && first.value.result.operationId == table.operationId)
    ensures first.Ok? && second.Ok? ==> second.value == Dispatched(first.value.result, true)
    ensures first.Ok? ==> |table.enqueued| <= |old(table.enqueued)| + 1
  {
    first := table.Dispatch(step, commandType, payload, expectedType, now);
    second := table.Dispatch(step, commandType, payload, expectedType, later);
  }

  lemma KeptSame(rows: map<string, Delivery>)
    ensures Kept(rows, rows)
  {
  }

  lemma KeptInsert(before: map<string, Delivery>, after: map<string, Delivery>, step: string)
    requires step !in before
    requires after == before || (step in after && after == before[step := after[step]])
    ensures Kept(before, after)
  {
  }

  /** One row that is not settled may change, but for its envelope. */
  lemma KeptBut(before: map<string, Delivery>, after: map<string, Delivery>, step: string)
    requires step in before ==> !Settled(before[step])
    requires forall k <- before :: k in after && (k != step ==> after[k] == before[k])
    requires step in before ==> after[step].envelope == before[step].envelope && after[step].createdAt == before[step].createdAt
    ensures Kept(before, after)
  {
  }

  // --- physical commands of a move effect ---------------------------------------

  datatype CommandState = CommandPending | CommandSucceeded | CommandFailed

  datatype PhysicalRow = PhysicalRow(
    nodeId: string, fingerprint: Body, envelope: Envelope, state: CommandState, result: Option<CommandResult>)

  datatype Spec = Spec(nodeId: string, commandType: string, payload: string)

  /** Rows stay, their envelopes do not change, and a terminal row does not change at all. */
  predicate Fenced(before: map<string, PhysicalRow>, after: map<string, PhysicalRow>) {
    forall k <- before ::
      && k in after
      && after[k].envelope == before[k].envelope
      && (before[k].state != CommandPending ==> after[k] == before[k])
  }

  lemma FencedSame(rows: map<string, PhysicalRow>)
    ensures Fenced(rows, rows)
  {
  }

  lemma FencedTwice(a: map<string, PhysicalRow>, b: map<string, PhysicalRow>, c: map<string, PhysicalRow>)
    requires Fenced(a, b) && Fenced(b, c)
    ensures Fenced(a, c)
    ensures forall k <- b :: k in c && c[k].envelope == b[k].envelope
  {
  }

  class PhysicalCommands {
    const faulty: bool
    const effectId: string
    const operationId: string
    const organizationId: string
    const expiresAt: int
    var signingKey: Option<string>
    var rows: map<string, PhysicalRow>
    ghost var enqueued: seq<Enqueue>
    /** What the coordinator answered so far. */
    ghost var reports: seq<Option<CommandResult>>

    constructor (faulty: bool, effectId: string, operationId: string, organizationId: string, expiresAt: int)
      ensures Safe() && rows == map[] && enqueued == [] && this.faulty == faulty
    {
      this.faulty, this.effectId, this.operationId := faulty, effectId, operationId;
      this.organizationId, this.expiresAt, signingKey := organizationId, expiresAt, None;
      rows, enqueued, reports := map[], [], [];
    }

    function CommandIdOf(action: string): string {
      "gamemovecmd_" + effectId + ":" + action
    }

    predicate Scoped(action: string, row: PhysicalRow) {
      && row.envelope.body.commandId == CommandIdOf(action)
      && row.envelope.body.organizationId == organizationId
      && row.envelope.body.operationId == operationId
      && row.envelope.body.nodeId == row.nodeId
      && row.fingerprint == Fingerprint(row.envelope)
    }

    ghost predicate Safe()
      reads `rows, `enqueued
    {
      && (forall e <- enqueued :: e.key in rows && rows[e.key].envelope == e.envelope)
      && (forall a <- rows ::
            && Scoped(a, rows[a])
            && (rows[a].state == CommandPending <==> rows[a].result.None?)
            && (rows[a].state != CommandPending ==>
                  && Enqueue(a, rows[a].envelope) in enqueued
                  && rows[a].result.value.commandId == CommandIdOf(a)
                  && rows[a].result.value.operationId == operationId
                  && (rows[a].state == CommandSucceeded <==> rows[a].result.value.status == Succeeded)))
    }

    /** The stored command is for the node and of the type the action calls for. */
    predicate Fits(row: PhysicalRow, spec: Spec) {
      row.nodeId == spec.nodeId && row.envelope.body.commandType == spec.commandType
    }

    predicate Done(action: string)
      reads this
    {
      action in rows && rows[action].state == CommandSucceeded
    }

    method ReadRow(action: string) returns (r: Result<Option<PhysicalRow>, Fault>)
      ensures r.Ok? ==> r.value == if action in rows then Some(rows[action]) else None
      ensures !faulty ==> r.Ok?
      ensures r.Err? ==> r.error == Crashed || r.error == Unread
    {
      var o := DisturbRead(faulty);
      if o.Fail? {
        return Err(o.error);
      }
      r := Ok(if action in rows then Some(rows[action]) else None);
    }

    /** The row of a command that was just signed. */
    function Prepared(action: string, spec: Spec, now: int, key: string): PhysicalRow {
      var command := Sign(
        Body(CommandIdOf(action), operationId, organizationId, spec.nodeId, spec.commandType, now, spec.payload), key);
      PhysicalRow(spec.nodeId, Fingerprint(command), command, CommandPending, None)
    }

    /** Sign and store a new command; `admitted` is the verdict of the insert guard. */
    method PersistCommand(action: string, spec: Spec, admitted: bool, now: int) returns (r: Result<PhysicalRow, Fault>)
      requires Safe() && action !in rows
      modifies `rows
      ensures Safe() && Fenced(old(rows), rows)
      ensures rows == old(rows)
              || (admitted && action in rows && rows == old(rows)[action := rows[action]]
                  && signingKey.Some? && now < expiresAt
                  && rows[action] == Prepared(action, spec, now, signingKey.value))
      ensures r.Ok? ==> action in rows && r.value == rows[action]
      ensures !faulty ==> (r.Ok? <==> admitted && now < expiresAt && signingKey.Some?)
      // A command that was stored is found, unless the process stops or cannot read it back.
      ensures r.Err? && action in rows ==> r.error == Crashed || r.error == Unread
      ensures !faulty && r.Err? ==> r.error == Refused
    {
      if now >= expiresAt || signingKey.None? {
        return Err(Refused);
      }
      hide Safe, Fenced;
      var body := Body(CommandIdOf(action), operationId, organizationId, spec.nodeId, spec.commandType, now, spec.payload);
      var command := Sign(body, signingKey.value);
      var o := InsertCommand(action, spec, admitted, now, PhysicalRow(spec.nodeId, Fingerprint(command), command, CommandPending, None));
      if o == Fail(Crashed) {
        return Err(Crashed);
      }
      var adopted := ReadRow(action);
      if adopted.Err? {
        return Err(adopted.error);
      }
      if adopted.value.None? {
        return Err(if o.Fail? then o.error else Refused);
      }
      r := Ok(adopted.value.value);
    }

    /** Insert the row of a new command; the guard on physical commands may refuse it. */
    method InsertCommand(action: string, spec: Spec, admitted: bool, now: int, row: PhysicalRow) returns (o: Outcome<Fault>)
      requires Safe() && action !in rows && now < expiresAt && signingKey.Some?
      requires row == Prepared(action, spec, now, signingKey.value)
      modifies `rows
      ensures Safe() && Fenced(old(rows), rows)
      ensures rows == old(rows) || (admitted && rows == old(rows)[action := row])
      ensures !faulty ==> o.Pass? && rows == if admitted then old(rows)[action := row] else old(rows)
    {
      o := Disturb(faulty);
      if o.Fail? {
        return;
      }
      if admitted {
        rows := rows[action := row];
      }
      o := Disturb(faulty);
    }

    /** Store the terminal result of a pending command, and read back what the row then says. */
    method PersistResult(action: string, result: CommandResult) returns (r: Result<PhysicalRow, Fault>)
      requires Safe() && action in rows && rows[action].state == CommandPending
      requires Enqueue(action, rows[action].envelope) in enqueued
      requires result.commandId == CommandIdOf(action) && result.operationId == operationId
      modifies `rows
      ensures Safe() && Fenced(old(rows), rows)
      ensures action in rows && rows == old(rows)[action := rows[action]] && rows[action].nodeId == old(rows)[action].nodeId
      ensures r.Ok? ==>
                && r.value == rows[action] && rows[action].result == Some(result)
                && rows[action].state == if result.status == Succeeded then CommandSucceeded else CommandFailed
      // A result that was stored is found, unless the process stops or cannot read it back.
      ensures r.Err? && rows[action].state != CommandPending ==> r.error == Crashed || r.error == Unread
      ensures !faulty ==> r.Ok?
    {
      hide Safe, Fenced;
      var state := if result.status == Succeeded then CommandSucceeded else CommandFailed;
      var o := UpdateResult(action, state, result);
      if o == Fail(Crashed) {
        return Err(Crashed);
      }
      var adopted := ReadRow(action);
      if adopted.Err? {
        return Err(adopted.error);
      }
      if adopted.value.None? || adopted.value.value.state != state {
        return Err(if o.Fail? then o.error else Refused);
      }
      r := Ok(adopted.value.value);
    }

    /** Store a terminal state and its result. */
    method UpdateResult(action: string, state: CommandState, result: CommandResult) returns (o: Outcome<Fault>)
      requires Safe() && action in rows && rows[action].state == CommandPending
      requires Enqueue(action, rows[action].envelope) in enqueued
      requires state == if result.status == Succeeded then CommandSucceeded else CommandFailed
      requires result.commandId == CommandIdOf(action) && result.operationId == operationId
      modifies `rows
      ensures Safe() && Fenced(old(rows), rows)
      ensures rows == old(rows) || rows == old(rows)[action := old(rows)[action].(state := state, result := Some(result))]
      ensures o.Pass? ==> rows == old(rows)[action := old(rows)[action].(state := state, result := Some(result))]
      ensures !faulty ==> o.Pass?
    {
      o := Disturb(faulty);
      if o.Fail? {
        return;
      }
      rows := rows[action := rows[action].(state := state, result := Some(result))];
      o := Disturb(faulty);
    }

    lemma OwnCommand(action: string)
      requires Safe() && action in rows
      ensures Scoped(action, rows[action])
      ensures rows[action].state == CommandPending <==> rows[action].result.None?
    {
    }

    /** Run a physical command, or adopt the terminal result it already has. */
    method Execute(action: string, spec: Spec, admitted: bool, now: int) returns (r: Result<CommandResult, Fault>)
      requires Safe()
      modifies this
      ensures Safe() && Fenced(old(rows), rows)
      ensures forall a <- rows :: a != action ==> a in old(rows) && rows[a] == old(rows)[a]
      ensures action in rows && action !in old(rows) ==>
                && Fits(rows[action], spec)
                && old(signingKey.Some?)
                && rows[action].envelope == Prepared(action, spec, now, old(signingKey.value)).envelope
      // Success is durable and was reported for this command.
      ensures r.Ok? ==> Done(action) && rows[action].result == Some(r.value)
      ensures !faulty && r.Err? ==> r.error == Refused
      // At most one enqueue, of the stored envelope; none after a terminal result.
      ensures enqueued == old(enqueued)
              || (action in rows && enqueued == old(enqueued) + [Enqueue(action, rows[action].envelope)])
      ensures action in old(rows) && old(rows)[action].state != CommandPending ==>
                && enqueued == old(enqueued) && rows == old(rows)
                && (r.Ok? ==> Some(r.value) == old(rows)[action].result)
                && (!faulty ==> (r.Ok? <==> old(Done(action)) && Fits(old(rows)[action], spec)))
      // Without faults an admitted or pending command is enqueued.
      ensures !faulty && action in old(rows) && old(rows)[action].state == CommandPending && Fits(old(rows)[action], spec) ==>
                enqueued == old(enqueued) + [Enqueue(action, old(rows)[action].envelope)]
      ensures !faulty && action !in old(rows) ==>
                (enqueued == old(enqueued) <==> !(admitted && now < expiresAt && old(signingKey.Some?)))
      // Without faults a command that is enqueued succeeds exactly if its success is reported.
      ensures !faulty && enqueued != old(enqueued) ==> (r.Ok? <==> Succeeds(action))
      ensures signingKey == old(signingKey)
      ensures !faulty && action !in old(rows) ==>
                (action in rows <==> admitted && now < expiresAt && signingKey.Some?)
    {
      hide Safe, Fenced;
      FencedSame(rows);
      if action in rows {
        OwnCommand(action);
      }
      var found := ReadRow(action);
      if found.Err? {
        return Err(found.error);
      }
      var row;
      if found.value.None? {
        var persisted := PersistCommand(action, spec, admitted, now);
        if persisted.Err? {
          return Err(persisted.error);
        }
        row := persisted.value;
        OwnCommand(action);
      } else {
        row := found.value.value;
      }
      if !Scoped(action, row) || !Fits(row, spec) {
        return Err(Refused);
      }
      if row.state != CommandPending {
        return if row.state == CommandSucceeded then Ok(row.result.value) else Err(Refused);
      }
      ghost var stored := rows;
      r := EnqueueAndWait(action);
      FencedTwice(old(rows), stored, rows);
      OwnCommand(action);
    }

    /** The coordinator answered once more, and the answer is a success of this very command. */
    twostate predicate Succeeds(action: string)
      reads `reports
    {
      && |reports| == |old(reports)| + 1 && old(reports) <= reports
      && var last := reports[|reports| - 1];
         && last.Some? && last.value.status == Succeeded
         && last.value.commandId == CommandIdOf(action) && last.value.operationId == operationId
    }

    method EnqueueAndWait(action: string) returns (r: Result<CommandResult, Fault>)
      requires Safe() && action in rows && rows[action].state == CommandPending
      modifies `rows, `enqueued, `reports
      // Without faults it succeeds exactly if a success of this command is reported.
      ensures !faulty ==> (r.Ok? <==> Succeeds(action))
      ensures Safe() && Fenced(old(rows), rows)
      ensures action in rows && rows == old(rows)[action := rows[action]]
      ensures r.Ok? ==> Done(action) && rows[action].result == Some(r.value)
      ensures enqueued == old(enqueued) || enqueued == old(enqueued) + [Enqueue(action, rows[action].envelope)]
      ensures !faulty ==> enqueued == old(enqueued) + [Enqueue(action, rows[action].envelope)]
      ensures !faulty && r.Err? ==> r.error == Refused
    {
      var o := Disturb(faulty);
      if o.Fail? {
        return Err(o.error);
      }
      enqueued := enqueued + [Enqueue(action, rows[action].envelope)];
      o := Disturb(faulty);
      if o.Fail? {
        return Err(o.error);
      }
      var reported: Option<CommandResult> := *;
      reports := reports + [reported];
      if !reported.Some? || reported.value.commandId != CommandIdOf(action) || reported.value.operationId != operationId {
        return Err(Refused);
      }
      var row := PersistResult(action, reported.value);
      if row.Err? {
        return Err(row.error);
      }
      r := if row.value.state == CommandSucceeded then Ok(reported.value) else Err(Refused);
    }

    /** Any actions, retried at will and cut short anywhere, while the signing key is rotated. */
    method Run(attempts: nat)
      requires Safe()
      modifies this
      ensures Safe() && Fenced(old(rows), rows) && old(enqueued) <= enqueued
    {
      hide Safe;
      for i := 0 to attempts
        invariant Safe() && Fenced(old(rows), rows) && old(enqueued) <= enqueued
      {
        Rotate();
        var action: string := *;
        var spec: Spec := *;
        var admitted: bool := *;
        var now: int := *;
        var _ := Execute(action, spec, admitted, now);
      }
    }

    method Rotate()
      requires Safe()
      modifies `signingKey
      ensures Safe()
    {
      signingKey := *;
    }
  }
}
