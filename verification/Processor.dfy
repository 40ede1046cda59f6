/**
 Command handling over the leased store: claim, validate, execute under renewal,
 complete.  Other handlers use the same store between any two steps, and the process
 may stop anywhere.
 */
module Processor {
  import opened Prelude
  import opened CommandStore
  import opened StoreSimulation

  datatype AgentError = AgentError(code: string, message: string)

  datatype Command = Command(
    commandId: string, operationId: string, resourceId: string, fingerprint: string,
    expectedPriorRevision: Option<int>)

  datatype ExecutionResult = ExecutionResult(revision: Option<int>, code: string, message: string, evidence: Option<string>)

  /**
   One run of the executor: for which command, under which token, on which revision, and
   where in the run of the store it was claimed, read that revision and started.
   */
  datatype Execution = Execution(
    command: Command, token: string, observed: int, claimed: nat, read: nat, started: nat)

  datatype Delivery = Delivery(command: Command, result: CommandResult)

  /** Why a handler gave no answer: the process stopped, or it failed with an error. */
  datatype Stop = Crashed | Fails(error: AgentError)

  const LEASE_MS := 5 * 60000
  const STATE_FAILED := AgentError("state-failed", "")
  const PAYLOAD_MISMATCH_ERROR := AgentError("payload-mismatch", "command ID was replayed with a different signed payload")
  const UPDATE_RESPONSE_PENDING := "update-response-pending"

  // --- the calls of others -----------------------------------------------------

  /** A call by a handler that was given none of the tokens in `mine`. */
  predicate Foreign(call: Call, mine: set<string>) {
    match call
    case ClaimCall(_, _, _, _, uuid) => uuid !in mine
    case RenewCall(_, _, token, _, _) => token !in mine
    case CompleteCall(_, _, token, _, _) => token !in mine
    case RevisionCall(_) => true
  }

  /** The run went on, without any call under a token in `mine`. */
  ghost predicate Later(before: seq<Call>, after: seq<Call>, mine: set<string>) {
    before <= after && forall k :: |before| <= k < |after| ==> Foreign(after[k], mine)
  }

  /** None of the tokens was brought to the store yet. */
  ghost predicate Unused(calls: seq<Call>, tokens: set<string>) {
    forall k :: 0 <= k < |calls| ==> Foreign(calls[k], tokens)
  }

  /** No call completes a command under the token. */
  ghost predicate Uncompleted(calls: seq<Call>, token: string) {
    forall k :: 0 <= k < |calls| && calls[k].CompleteCall? ==> calls[k].token != token
  }

  /** The calls under tokens in `mine` keep the protocol among themselves. */
  ghost predicate OwnOrderly(calls: seq<Call>, mine: set<string>) {
    forall i, j :: 0 <= i < j < |calls| && !Foreign(calls[i], mine) && !Foreign(calls[j], mine) ==> Apart(calls[i], calls[j])
  }

  /** The other calls keep the protocol among themselves. */
  ghost predicate OthersOrderly(calls: seq<Call>, mine: set<string>) {
    forall i, j :: 0 <= i < j < |calls| && Foreign(calls[i], mine) && Foreign(calls[j], mine) ==> Apart(calls[i], calls[j])
  }

  /** If the others keep the protocol, a run goes the same over either store. */
  lemma EitherStore(calls: seq<Call>, mine: set<string>)
    requires OwnOrderly(calls, mine) && OthersOrderly(calls, mine)
    ensures Answers(EMPTY, calls) == MemoryAnswers(NOTHING, calls)
  {
    forall i, j | 0 <= i < j < |calls|
      ensures Apart(calls[i], calls[j])
    {
    }
    OrderlyRunsAgree(calls);
  }

  // --- executions and their claims ----------------------------------------------

  /** Call `i` is the claim of this command, with this token, and the store granted it. */
  ghost predicate ClaimGranted(calls: seq<Call>, i: nat, command: Command, token: string) {
    && GrantedAt(calls, i, command.commandId)
    && calls[i].fingerprint == command.fingerprint && calls[i].lease == LEASE_MS && calls[i].uuid == token
  }

  /** The executor was started under a granted claim, on the revision read since, which is the expected one. */
  ghost predicate Justified(e: Execution, calls: seq<Call>) {
    && e.claimed < e.read < e.started <= |calls|
    && ClaimGranted(calls, e.claimed, e.command, e.token)
    && calls[e.read] == RevisionCall(e.command.resourceId)
    && AnswerAt(EMPTY, calls, e.read) == RevisionIs(e.observed)
    && (e.command.expectedPriorRevision.Some? ==> e.command.expectedPriorRevision == Some(e.observed))
  }

  lemma SameAnswer(before: seq<Call>, after: seq<Call>, i: nat)
    requires before <= after && i < |before|
    ensures AnswerAt(EMPTY, after, i) == AnswerAt(EMPTY, before, i)
  {
    assert after[..i] == before[..i];
  }

  lemma GrantStays(before: seq<Call>, after: seq<Call>, i: nat, command: Command, token: string)
    requires before <= after && ClaimGranted(before, i, command, token)
    ensures ClaimGranted(after, i, command, token)
  {
    SameAnswer(before, after, i);
  }

  lemma JustifiedStays(e: Execution, before: seq<Call>, after: seq<Call>)
    requires before <= after && Justified(e, before)
    ensures Justified(e, after)
  {
    GrantStays(before, after, e.claimed, e.command, e.token);
    SameAnswer(before, after, e.read);
  }

  /** The claim of the second execution, or one before it, took over from the first one after its lease had run out. */
  ghost predicate Excluded(a: Execution, b: Execution, calls: seq<Call>) {
    exists m: nat :: a.claimed < m <= b.claimed && TakesOver(calls, a.claimed, m, a.command.commandId)
  }

  lemma ExecutionsExclude(a: Execution, b: Execution, calls: seq<Call>)
    requires Justified(a, calls) && Justified(b, calls)
    requires a.claimed < b.claimed && a.command.commandId == b.command.commandId
    ensures Excluded(a, b, calls)
  {
    hide TakesOver, AnswerAt;
    GrantsExclude(calls, a.claimed, b.claimed, a.command.commandId);
  }

  // --- renewals -------------------------------------------------------------------

  predicate Renewal(call: Call, token: string) {
    call.RenewCall? && call.token == token
  }

  /** The run went on with calls of others and with renewals of this claim for another lease. */
  ghost predicate OnlyRenewals(before: seq<Call>, after: seq<Call>, command: Command, token: string, mine: set<string>) {
    && before <= after
    && forall k :: |before| <= k < |after| ==>
         || Foreign(after[k], mine)
         || (&& Renewal(after[k], token) && after[k].lease == LEASE_MS
             && after[k].commandId == command.commandId && after[k].fingerprint == command.fingerprint)
  }

  /** How many renewals under the token there are from call `n` on. */
  ghost function RenewalsFrom(calls: seq<Call>, n: nat, token: string): nat {
    if |calls| <= n then 0
    else RenewalsFrom(calls[..|calls| - 1], n, token) + if Renewal(calls[|calls| - 1], token) then 1 else 0
  }

  /** Every renewal under the token from call `n` on was granted. */
  ghost predicate AllRenewed(calls: seq<Call>, n: nat, token: string) {
    forall k :: n <= k < |calls| && Renewal(calls[k], token) ==> AnswerAt(EMPTY, calls, k) == Done
  }

  /** The last call is the first renewal from call `n` on that was refused. */
  ghost predicate RefusedLast(calls: seq<Call>, n: nat, token: string) {
    && n < |calls|
    && Renewal(calls[|calls| - 1], token)
    && AnswerAt(EMPTY, calls, |calls| - 1) == Refused
    && AllRenewed(calls[..|calls| - 1], n, token)
  }

  lemma {:induction false} OthersRenewNone(before: seq<Call>, after: seq<Call>, n: nat, token: string, mine: set<string>)
    requires n <= |before| && Later(before, after, mine) && token in mine
    ensures RenewalsFrom(after, n, token) == RenewalsFrom(before, n, token)
    ensures AllRenewed(before, n, token) ==> AllRenewed(after, n, token)
    decreases |after|
  {
    if |before| < |after| {
      var shorter := after[..|after| - 1];
      assert before <= shorter;
      OthersRenewNone(before, shorter, n, token, mine);
      forall k | n <= k < |shorter| && Renewal(after[k], token)
        ensures AnswerAt(EMPTY, after, k) == AnswerAt(EMPTY, shorter, k)
      {
        SameAnswer(shorter, after, k);
      }
      hide AnswerAt;
    } else {
      assert before == after;
    }
  }

  /** What one more renewal adds. */
  lemma RenewalNext(calls: seq<Call>, n: nat, call: Call)
    requires n <= |calls| && call.RenewCall? && AllRenewed(calls, n, call.token)
    ensures var grown, answer := calls + [call], Step(After(EMPTY, calls), call).1;
            if answer == Done
            then AllRenewed(grown, n, call.token)
                 && RenewalsFrom(grown, n, call.token) == RenewalsFrom(calls, n, call.token) + 1
            else RefusedLast(grown, n, call.token)
  {
    hide AnswerAt, Step, After;
    var grown := calls + [call];
    AfterNext(EMPTY, calls, call);
    AnswerToRenewal(After(EMPTY, calls), call);
    assert grown[..|grown| - 1] == calls;
  }

  lemma AnswerToRenewal(s: Store, call: Call)
    requires call.RenewCall?
    ensures Step(s, call).1 == Refused || Step(s, call).1 == Done
  {
  }

  // --- results ----------------------------------------------------------------------

  function Terminal(command: Command, status: Status, error: AgentError, revision: int, now: int): CommandResult {
    CommandResult(command.commandId, command.operationId, status, Some(revision), error.code, error.message,
                  None, false, now)
  }

  /** The durable result a delivery must agree with, whatever its duplicate flag says. */
  ghost predicate Durable(s: Store, d: Delivery) {
    && d.command.commandId in s.commands
    && var row := s.commands[d.command.commandId];
       && row.Completed?
       && row.fingerprint == d.command.fingerprint
       && row.result.(duplicate := d.result.duplicate) == d.result
  }

  lemma DurableStays(before: seq<Call>, after: seq<Call>, d: Delivery)
    requires before <= after && Durable(After(EMPTY, before), d)
    ensures Durable(After(EMPTY, after), d)
  {
    assert after[..|before|] == before;
    RowStays(after, |before|, d.command.commandId);
  }

  /** What a claim can answer, given an earlier point of the run. */
  lemma ClaimAfter(start: seq<Call>, before: seq<Call>, command: Command, now: int, uuid: string)
    requires start <= before
    ensures var claim := ClaimAnswer(After(EMPTY, before), command.commandId, command.fingerprint, now, uuid);
            var s := After(EMPTY, start);
            && (command.commandId in s.commands && s.commands[command.commandId].Completed? ==>
                  claim == if s.commands[command.commandId].fingerprint == command.fingerprint
                           then AlreadyCompleted(s.commands[command.commandId].result) else PayloadMismatch)
            && (command.commandId in s.commands ==>
                  s.commands[command.commandId].fingerprint != command.fingerprint ==> claim == PayloadMismatch)
            && (claim.Granted? ==> claim.token == uuid)
            && (claim.AlreadyCompleted? ==>
                  && Durable(After(EMPTY, before), Delivery(command, claim.result.(duplicate := true)))
                  && ClaimNext(After(EMPTY, before), command.commandId, command.fingerprint, now, LEASE_MS, uuid)
                     == After(EMPTY, before))
  {
    assert before[..|start|] == start;
    if command.commandId in After(EMPTY, start).commands {
      RowStays(before, |start|, command.commandId);
    }
  }

  lemma RenewalAnswer(s: Store, command: Command, token: string, now: int)
    ensures Step(s, RenewCall(command.commandId, command.fingerprint, token, now, LEASE_MS)).1 == Done <==>
            RenewNext(s, command.commandId, command.fingerprint, token, now, LEASE_MS).Ok?
  {
  }

  lemma CompleteMeans(s: Store, command: Command, token: string, result: CommandResult)
    requires result.commandId == command.commandId
    ensures var next := CompleteNext(s, command.resourceId, command.fingerprint, token, result, command.expectedPriorRevision);
            next.Ok? ==> Durable(next.value, Delivery(command, result))
  {
  }

  lemma RevisionRead(before: seq<Call>, resource: string)
    ensures AnswerAt(EMPTY, before + [RevisionCall(resource)], |before|)
            == RevisionIs(RevisionOf(After(EMPTY, before).revisions, resource))
  {
    AfterNext(EMPTY, before, RevisionCall(resource));
  }

  /** What stands before the executor starts: a granted claim, and this revision read after it. */
  ghost predicate Ready(calls: seq<Call>, claimed: nat, read: nat, command: Command, token: string, revision: int) {
    && claimed < read < |calls|
    && ClaimGranted(calls, claimed, command, token)
    && calls[read] == RevisionCall(command.resourceId)
    && AnswerAt(EMPTY, calls, read) == RevisionIs(revision)
  }

  lemma StartJustified(e: Execution, ready: seq<Call>, calls: seq<Call>, command: Command, mine: set<string>)
    requires OnlyRenewals(ready, calls, command, e.token, mine)
    requires Ready(ready, e.claimed, e.read, e.command, e.token, e.observed) && e.started == |ready|
    requires e.command.expectedPriorRevision.Some? ==> e.command.expectedPriorRevision == Some(e.observed)
    ensures Justified(e, calls)
  {
    JustifiedStays(e, ready, calls);
  }

  /** The run went on without any call of others under our tokens, and without a completion under this one. */
  ghost predicate Proceeds(before: seq<Call>, after: seq<Call>, token: string, mine: set<string>) {
    && Later(before, after, mine - {token})
    && (OwnOrderly(before, mine) && Uncompleted(before, token) ==> OwnOrderly(after, mine) && Uncompleted(after, token))
  }

  lemma OthersProceed(before: seq<Call>, after: seq<Call>, token: string, mine: set<string>)
    requires Later(before, after, mine) && token in mine
    ensures Proceeds(before, after, token, mine)
  {
  }

  lemma RenewalsProceed(before: seq<Call>, after: seq<Call>, command: Command, token: string, mine: set<string>)
    requires OnlyRenewals(before, after, command, token, mine) && token in mine
    ensures Proceeds(before, after, token, mine)
  {
  }

  lemma ProceedsTwice(a: seq<Call>, b: seq<Call>, c: seq<Call>, token: string, mine: set<string>)
    requires Proceeds(a, b, token, mine) && Proceeds(b, c, token, mine)
    ensures Proceeds(a, c, token, mine)
  {
  }

  /** The same, but with at most one completion under this token. */
  ghost predicate Finishes(before: seq<Call>, after: seq<Call>, token: string, mine: set<string>) {
    && Later(before, after, mine - {token})
    && (OwnOrderly(before, mine) && Uncompleted(before, token) ==> OwnOrderly(after, mine))
  }

  lemma ProceedsFinishes(before: seq<Call>, after: seq<Call>, token: string, mine: set<string>)
    requires Proceeds(before, after, token, mine)
    ensures Finishes(before, after, token, mine)
  {
  }

  lemma CompletionFinishes(before: seq<Call>, after: seq<Call>, token: string, mine: set<string>, call: Call)
    requires Proceeds(before, after, token, mine) && call.CompleteCall? && call.token == token
    ensures Finishes(before, after + [call], token, mine)
  {
  }

  /** A whole delivery: others' calls, one claim with this token, its renewals and at most one completion. */
  ghost predicate Handled(before: seq<Call>, after: seq<Call>, token: string, mine: set<string>) {
    && Later(before, after, mine - {token})
    && (OwnOrderly(before, mine) && Unused(before, {token}) ==> OwnOrderly(after, mine))
  }

  /** A claim after calls of others: nothing under its token came before it. */
  lemma ClaimBegins(start: seq<Call>, before: seq<Call>, token: string, mine: set<string>, claim: Call)
    requires Later(start, before, mine) && token in mine && claim.ClaimCall? && claim.uuid == token
    ensures Handled(start, before + [claim], token, mine)
    ensures OwnOrderly(start, mine) && Unused(start, {token}) ==> Uncompleted(before + [claim], token)
  {
  }

  lemma HandledThenFinished(a: seq<Call>, b: seq<Call>, c: seq<Call>, token: string, mine: set<string>)
    requires Handled(a, b, token, mine) && Finishes(b, c, token, mine)
    requires OwnOrderly(a, mine) && Unused(a, {token}) ==> Uncompleted(b, token)
    ensures Handled(a, c, token, mine)
  {
  }

  lemma ClaimLogged(before: seq<Call>, command: Command, now: int, uuid: string)
    ensures ClaimAnswer(After(EMPTY, before), command.commandId, command.fingerprint, now, uuid).Granted? ==>
              ClaimGranted(before + [ClaimCall(command.commandId, command.fingerprint, now, LEASE_MS, uuid)],
                           |before|, command, uuid)
  {
    AfterNext(EMPTY, before, ClaimCall(command.commandId, command.fingerprint, now, LEASE_MS, uuid));
  }

  lemma LaterHandled(before: seq<Call>, after: seq<Call>, token: string, mine: set<string>)
    requires Later(before, after, mine) && token in mine
    ensures Handled(before, after, token, mine)
  {
  }

  /** The answer of a delivery, if it gave one. */
  function AsDelivery(command: Command, r: Result<Option<CommandResult>, Stop>): seq<Delivery> {
    if r.Ok? && r.value.Some? then [Delivery(command, r.value.value)] else []
  }

  predicate Distinct(s: seq<string>) {
    forall i, j :: 0 <= i < j < |s| ==> s[i] != s[j]
  }

  /** The executions so far, under the first `i` tokens: each justified, by claims made one after the other. */
  ghost predicate Executed(executions: seq<Execution>, uuids: seq<string>, i: nat, calls: seq<Call>)
    requires i <= |uuids|
  {
    && (forall e <- executions :: e.token in uuids[..i] && Justified(e, calls))
    && (forall j, k :: 0 <= j < k < |executions| ==>
          executions[j].claimed < executions[k].claimed && executions[j].token != executions[k].token)
  }

  lemma ExecutedStays(executions: seq<Execution>, uuids: seq<string>, i: nat, before: seq<Call>, after: seq<Call>)
    requires i < |uuids| && before <= after && Executed(executions, uuids, i, before)
    ensures Executed(executions, uuids, i, after) && Executed(executions, uuids, i + 1, after)
  {
    forall e <- executions ensures Justified(e, after) {
      JustifiedStays(e, before, after);
    }
    hide Justified;
    assert uuids[..i + 1] == uuids[..i] + [uuids[i]];
  }

  lemma ExecutedNext(executions: seq<Execution>, uuids: seq<string>, i: nat, before: seq<Call>, after: seq<Call>, e: Execution)
    requires i < |uuids| && Distinct(uuids) && before <= after && Executed(executions, uuids, i, before)
    requires e.token == uuids[i] && |before| <= e.claimed && Justified(e, after)
    ensures Executed(executions + [e], uuids, i + 1, after)
  {
    ExecutedStays(executions, uuids, i, before, after);
    forall d <- executions ensures d.claimed < |before| {
      ClaimedBefore(d, before);
    }
    hide Justified;
    assert uuids[i] !in uuids[..i];
  }

  lemma ClaimedBefore(e: Execution, calls: seq<Call>)
    requires Justified(e, calls)
    ensures e.claimed < |calls|
  {
  }

  lemma ExecutedExclude(executions: seq<Execution>, uuids: seq<string>, i: nat, calls: seq<Call>)
    requires i <= |uuids| && Executed(executions, uuids, i, calls)
    ensures forall j, k :: 0 <= j < k < |executions| ==>
              executions[j].command.commandId == executions[k].command.commandId ==>
                Excluded(executions[j], executions[k], calls)
  {
    hide Justified, Excluded;
    forall j, k | 0 <= j < k < |executions| && executions[j].command.commandId == executions[k].command.commandId
      ensures Excluded(executions[j], executions[k], calls)
    {
      ExecutionsExclude(executions[j], executions[k], calls);
    }
  }

  /** From new tokens on: our calls kept the protocol, and the tokens from `i` on are still new. */
  ghost predicate Kept(start: seq<Call>, calls: seq<Call>, uuids: seq<string>, i: nat, mine: set<string>) {
    && start <= calls
    && (Unused(start, mine) ==>
          OwnOrderly(calls, mine) && forall k :: i <= k < |uuids| ==> Unused(calls, {uuids[k]}))
  }

  lemma KeptStart(start: seq<Call>, uuids: seq<string>, mine: set<string>)
    requires forall u <- uuids :: u in mine
    ensures Kept(start, start, uuids, 0, mine)
  {
  }

  lemma KeptNext(start: seq<Call>, before: seq<Call>, between: seq<Call>, after: seq<Call>,
                 uuids: seq<string>, i: nat, mine: set<string>)
    requires i < |uuids| && Distinct(uuids) && forall u <- uuids :: u in mine
    requires Kept(start, before, uuids, i, mine) && Later(before, between, mine)
    requires Handled(between, after, uuids[i], mine)
    ensures Kept(start, after, uuids, i + 1, mine)
  {
    if Unused(start, mine) {
      KeptByOthers(before, between, uuids[i], mine);
      forall k | i < k < |uuids| ensures Unused(after, {uuids[k]}) {
        UnusedStays(before, between, uuids[k], mine);
        UnusedStays(between, after, uuids[k], mine - {uuids[i]});
      }
    }
  }

  lemma KeptByOthers(before: seq<Call>, after: seq<Call>, token: string, mine: set<string>)
    requires Later(before, after, mine) && token in mine && OwnOrderly(before, mine) && Unused(before, {token})
    ensures OwnOrderly(after, mine) && Unused(after, {token})
  {
  }

  lemma UnusedStays(before: seq<Call>, after: seq<Call>, token: string, mine: set<string>)
    requires Later(before, after, mine) && token in mine && Unused(before, {token})
    ensures Unused(after, {token})
  {
  }

  class Agent {
    const store: SqliteStore
    /** The checks on a command's payload: the error that rejects it, if any. */
    const validate: Command -> Option<AgentError>
    /** Executor runs so far. */
    ghost var executions: seq<Execution>
    /** Tokens under which a completion was asked for so far. */
    ghost var completions: seq<string>
    /** How each executor run ended: with a result, an error or a crash. */
    ghost var ends: seq<Result<ExecutionResult, Stop>>
    /** The commands delivered so far. */
    ghost var delivered: seq<Command>
    /** The answers given so far, and to which commands. */
    ghost var answered: seq<Delivery>

    constructor (store: SqliteStore, validate: Command -> Option<AgentError>)
      ensures this.store == store && this.validate == validate && executions == [] && completions == [] && ends == []
      ensures delivered == [] && answered == []
    {
      this.store, this.validate := store, validate;
      executions, completions, ends, delivered, answered := [], [], [], [], [];
    }

    /** Other handlers make any calls with claims of their own. */
    method Interference(mine: set<string>)
      requires store.Valid()
      modifies store
      ensures store.Valid() && Later(old(store.calls), store.calls, mine)
    {
      var turns :| turns >= 0;
      for i := 0 to turns
        invariant store.Valid() && Later(old(store.calls), store.calls, mine)
      {
        hide After;
        var call: Call := *;
        if Foreign(call, mine) {
          match call
          case ClaimCall(id, fingerprint, now, lease, uuid) =>
            var _ := store.Claim(id, fingerprint, now, lease, uuid);
          case RenewCall(id, fingerprint, token, now, lease) =>
            var _ := store.Renew(id, fingerprint, token, now, lease);
          case CompleteCall(resource, fingerprint, token, result, expected) =>
            var _ := store.Complete(resource, fingerprint, token, result, expected);
          case RevisionCall(resource) =>
            var _ := store.Revision(resource);
        }
      }
    }

    /** One minute of an execution: others take their turns, and the claim is renewed. */
    method RenewOnce(command: Command, token: string, mine: set<string>, ghost start: seq<Call>) returns (o: Outcome<Stop>)
      requires store.Valid() && token in mine
      requires OnlyRenewals(start, store.calls, command, token, mine) && AllRenewed(store.calls, |start|, token)
      modifies store
      ensures store.Valid() && OnlyRenewals(start, store.calls, command, token, mine)
      ensures o.Pass? ==> RenewalsFrom(store.calls, |start|, token) == old(RenewalsFrom(store.calls, |start|, token)) + 1
      ensures if o == Fail(Fails(STATE_FAILED)) then RefusedLast(store.calls, |start|, token)
              else AllRenewed(store.calls, |start|, token)
      ensures o.Fail? ==> o.error == Crashed || o.error == Fails(STATE_FAILED)
    {
      hide AllRenewed, RefusedLast, RenewalsFrom, After, Step;
      Interference(mine);
      OthersRenewNone(old(store.calls), store.calls, |start|, token, mine);
      if * {
        return Fail(Crashed);
      }
      var now: int := *;
      RenewalNext(store.calls, |start|, RenewCall(command.commandId, command.fingerprint, token, now, LEASE_MS));
      RenewalAnswer(store.State(), command, token, now);
      var renewed := store.Renew(command.commandId, command.fingerprint, token, now, LEASE_MS);
      o := if renewed.Fail? then Fail(Fails(STATE_FAILED)) else Pass;
    }

    /**
     Run the executor, which takes this many minutes, while renewing the claim every
     minute; a refused renewal interrupts it.
     */
    method ExecuteRenewing(command: Command, token: string, observed: int, minutes: nat, mine: set<string>,
                           ghost claimed: nat, ghost read: nat)
      returns (r: Result<ExecutionResult, Stop>)
      requires store.Valid() && token in mine
      modifies `executions, `ends, store
      ensures store.Valid() && OnlyRenewals(old(store.calls), store.calls, command, token, mine)
      ensures executions == old(executions) + [Execution(command, token, observed, claimed, read, |old(store.calls)|)]
      ensures completions == old(completions)
      ensures ends == old(ends) + [r]
      // A result means that the claim was renewed in every minute of the run.
      ensures r.Ok? ==> RenewalsFrom(store.calls, |old(store.calls)|, token) == minutes
      // Either every renewal was granted, or a refused one ended the run.
      ensures AllRenewed(store.calls, |old(store.calls)|, token)
              || (RefusedLast(store.calls, |old(store.calls)|, token) && r == Err(Fails(STATE_FAILED)))
    {
      ghost var start := store.calls;
      executions := executions + [Execution(command, token, observed, claimed, read, |start|)];
      for i := 0 to minutes
        invariant store.Valid() && OnlyRenewals(start, store.calls, command, token, mine)
        invariant executions == old(executions) + [Execution(command, token, observed, claimed, read, |start|)]
        invariant completions == old(completions) && ends == old(ends)
        invariant RenewalsFrom(store.calls, |start|, token) == i && AllRenewed(store.calls, |start|, token)
      {
        hide After, AllRenewed, RefusedLast, OnlyRenewals;
        var o := RenewOnce(command, token, mine, start);
        if o.Fail? {
          r := Err(o.error);
          ends := ends + [r];
          return;
        }
      }
      hide After, AllRenewed, RefusedLast;
      ghost var renewed := store.calls;
      Interference(mine);
      OthersRenewNone(renewed, store.calls, |start|, token, mine);
      if * {
        var done: ExecutionResult := *;
        r := Ok(done);
      } else if * {
        var error: AgentError := *;
        r := Err(Fails(error));
      } else {
        r := Err(Crashed);
      }
      ends := ends + [r];
    }

    /** A first answer says what happened: a rejection ran nothing, a success reports what the executor returned. */
    twostate predicate Tells(command: Command, new result: CommandResult)
      reads this
    {
      && result.commandId == command.commandId && result.operationId == command.operationId && !result.duplicate
      && match result.status
         case Rejected =>
           && executions == old(executions) && result.revision.Some?
           && if validate(command).Some? then result.code == validate(command).value.code
              else
                && command.expectedPriorRevision.Some? && command.expectedPriorRevision != result.revision
                && result.code == "revision-conflict"
         case Failed =>
           |executions| == |old(executions)| + 1 && result.revision == Some(executions[|executions| - 1].observed)
         case Succeeded =>
           && |executions| == |old(executions)| + 1
           && |ends| == |old(ends)| + 1 && ends[|ends| - 1].Ok?
           && var done := ends[|ends| - 1].value;
              result.revision == done.revision && result.code == done.code && result.message == done.message
              && result.evidence == done.evidence
    }

    /**
     How the executor ended decides the answer: nothing is completed after a crash or
     while the response of the update helper is pending, and any other error is answered
     as a failure with its code.
     */
    twostate predicate Concludes(new r: Result<Option<CommandResult>, Stop>)
      reads this
    {
      executions != old(executions) ==>
        && ends != []
        && match ends[|ends| - 1]
           case Err(Crashed) =>
             r == Err(Crashed) && completions == old(completions)
           case Err(Fails(error)) =>
             if error.code == "update-response-pending" then r == Ok(None) && completions == old(completions)
             else
               || r.Err?
               || (&& r.value.Some? && r.value.value.status == Failed
                   && r.value.value.code == error.code && r.value.value.message == error.message)
           case Ok(_) =>
             r.Err? || (r.value.Some? && r.value.value.status == Succeeded)
    }

    /** The executor ran at most once more, and then under a granted claim made at or after call `from`. */
    twostate predicate RanOnce(command: Command, token: string, from: nat)
      reads this, store
    {
      || executions == old(executions)
      || (&& |executions| == |old(executions)| + 1 && old(executions) <= executions && validate(command).None?
          && var e := executions[|old(executions)|];
             e.command == command && e.token == token && from <= e.claimed && Justified(e, store.calls))
    }

    /** Complete the command and return its result. */
    method Answer(command: Command, token: string, result: CommandResult, mine: set<string>, ghost start: seq<Call>)
      returns (r: Result<Option<CommandResult>, Stop>)
      requires store.Valid() && token in mine && result.commandId == command.commandId
      requires Proceeds(start, store.calls, token, mine)
      modifies store, `completions
      ensures store.Valid() && Finishes(start, store.calls, token, mine) && old(store.calls) <= store.calls
      ensures completions == old(completions) || completions == old(completions) + [token]
      ensures r.Ok? ==> r.value == Some(result) && completions == old(completions) + [token]
      ensures r.Ok? ==> Durable(After(EMPTY, store.calls), Delivery(command, result))
    {
      hide After, Proceeds, Finishes;
      Interference(mine);
      OthersProceed(old(store.calls), store.calls, token, mine);
      ProceedsTwice(start, old(store.calls), store.calls, token, mine);
      ProceedsFinishes(start, store.calls, token, mine);
      if * {
        return Err(Crashed);
      }
      completions := completions + [token];
      CompleteMeans(store.State(), command, token, result);
      CompletionFinishes(start, store.calls, token, mine,
                         CompleteCall(command.resourceId, command.fingerprint, token, result, command.expectedPriorRevision));
      var completed := store.Complete(
        command.resourceId, command.fingerprint, token, result, command.expectedPriorRevision);
      if completed.Fail? {
        return Err(Fails(STATE_FAILED));
      }
      if * {
        return Err(Crashed);
      }
      r := Ok(Some(result));
    }

    /** Read the revision of the resource after a granted claim. */
    method ReadRevision(command: Command, token: string, mine: set<string>, ghost claimed: nat)
      returns (revision: int, ghost read: nat)
      requires store.Valid() && token in mine && ClaimGranted(store.calls, claimed, command, token)
      modifies store
      ensures store.Valid() && Proceeds(old(store.calls), store.calls, token, mine)
      ensures Ready(store.calls, claimed, read, command, token, revision)
    {
      hide After, Proceeds;
      ghost var start := store.calls;
      Interference(mine);
      read := |store.calls|;
      GrantStays(start, store.calls, claimed, command, token);
      RevisionRead(store.calls, command.resourceId);
      revision := store.Revision(command.resourceId);
      ghost var seen := store.calls;
      GrantStays(start, seen, claimed, command, token);
      Interference(mine);
      GrantStays(start, store.calls, claimed, command, token);
      SameAnswer(seen, store.calls, read);
      OthersProceed(start, store.calls, token, mine);
    }

    /** The rest of a delivery once its claim, call `claimed` of the run, was granted. */
    method HandleClaimed(command: Command, token: string, now: int, mine: set<string>, ghost claimed: nat)
      returns (r: Result<Option<CommandResult>, Stop>)
      requires store.Valid() && token in mine
      requires ClaimGranted(store.calls, claimed, command, token)
      modifies `executions, `completions, `ends, store
      ensures store.Valid() && Finishes(old(store.calls), store.calls, token, mine)
      ensures r.Ok? && r.value.Some? ==> Durable(After(EMPTY, store.calls), Delivery(command, r.value.value))
      ensures r.Ok? && r.value.Some? ==> completions == old(completions) + [token] && Tells(command, r.value.value)
      ensures RanOnce(command, token, claimed)
      ensures completions == old(completions) || completions == old(completions) + [token]
      ensures r == Ok(None) ==> completions == old(completions)
      // A claim is left uncompleted without an error exactly while the response of the update helper is pending.
      ensures Concludes(r) && (r == Ok(None) ==> executions != old(executions))
    {
      hide After, Durable, ClaimGranted, Justified, Ready, Proceeds, Finishes, OnlyRenewals, AllRenewed, RefusedLast;
      ghost var start := store.calls;
      var currentRevision; ghost var read;
      currentRevision, read := ReadRevision(command, token, mine, claimed);
      var invalid := validate(command);
      if invalid.Some? {
        r := Answer(command, token, Terminal(command, Rejected, invalid.value, currentRevision, now), mine, start);
        return;
      }
      if command.expectedPriorRevision.Some? && command.expectedPriorRevision.value != currentRevision {
        var error := AgentError("revision-conflict", "");
        r := Answer(command, token, Terminal(command, Rejected, error, currentRevision, now), mine, start);
        return;
      }
      var minutes :| minutes >= 0;
      ghost var ready := store.calls;
      var executed := ExecuteRenewing(command, token, currentRevision, minutes, mine, claimed, read);
      ghost var ended := store.calls;
      RenewalsProceed(ready, ended, command, token, mine);
      ProceedsTwice(start, ready, ended, token, mine);
      ProceedsFinishes(start, ended, token, mine);
      ghost var e := executions[|executions| - 1];
      StartJustified(e, ready, ended, command, mine);
      match executed
      case Err(Crashed) =>
        r := Err(Crashed);
      case Err(Fails(error)) =>
        if error.code == UPDATE_RESPONSE_PENDING {
          return Ok(None);
        }
        r := Answer(command, token, Terminal(command, Failed, error, currentRevision, now), mine, start);
        JustifiedStays(e, ended, store.calls);
      case Ok(done) =>
        var result := CommandResult(command.commandId, command.operationId, Succeeded, done.revision, done.code,
                                    done.message, done.evidence, false, now);
        r := Answer(command, token, result, mine, start);
        JustifiedStays(e, ended, store.calls);
    }

    /** Handle one delivery of a command. */
    method Handle(command: Command, uuid: string, mine: set<string>) returns (r: Result<Option<CommandResult>, Stop>)
      requires store.Valid() && uuid in mine
      modifies `executions, `completions, `ends, store
      ensures store.Valid() && Handled(old(store.calls), store.calls, uuid, mine)
      // Whatever is returned is the durable result, up to its duplicate flag.
      ensures r.Ok? && r.value.Some? ==> Durable(After(EMPTY, store.calls), Delivery(command, r.value.value))
      // An answer is a replay, or a first answer that tells what happened.
      ensures r.Ok? && r.value.Some? ==>
                if completions == old(completions) then r.value.value.duplicate else Tells(command, r.value.value)
      // The executor runs at most once, under a claim of this delivery that the store granted.
      ensures RanOnce(command, uuid, |old(store.calls)|)
      // A claim is completed at most once, and never by a call without an answer.
      ensures completions == old(completions) || completions == old(completions) + [uuid]
      ensures r == Ok(None) ==> completions == old(completions)
      // A pending response leaves its claim uncompleted, and any other error of the executor is a failure.
      ensures Concludes(r)
      // A completed command is answered from the store, for the same payload only, and never runs again.
      ensures command.commandId in old(store.commands) && old(store.commands[command.commandId]).Completed? ==>
                && executions == old(executions) && completions == old(completions)
                && var row := old(store.commands[command.commandId]);
                   r.Ok? ==> row.fingerprint == command.fingerprint && r.value == Some(row.result.(duplicate := true))
      // Another payload under a known command id is never answered.
      ensures command.commandId in old(store.commands)
              && old(store.commands[command.commandId]).fingerprint != command.fingerprint ==>
                r.Err? && executions == old(executions) && completions == old(completions)
    {
      hide After, Durable, ClaimGranted, Justified, Handled, Finishes;
      ghost var start := store.calls;
      LaterHandled(start, start, uuid, mine);
      var accepted := Accept();
      if accepted.Fail? {
        return Err(accepted.error);
      }
      var now: int := *;
      Interference(mine);
      ghost var before := store.calls;
      ghost var call := ClaimCall(command.commandId, command.fingerprint, now, LEASE_MS, uuid);
      ClaimAfter(start, before, command, now, uuid);
      ClaimLogged(before, command, now, uuid);
      ClaimBegins(start, before, uuid, mine, call);
      var claim := store.Claim(command.commandId, command.fingerprint, now, LEASE_MS, uuid);
      if * {
        return Err(Crashed);
      }
      match claim
      case AlreadyCompleted(result) =>
        r := Ok(Some(result.(duplicate := true)));
      case Busy =>
        r := Ok(None);
      case PayloadMismatch =>
        r := Err(Fails(PAYLOAD_MISMATCH_ERROR));
      case Granted(token) =>
        r := HandleClaimed(command, token, now, mine, |before|);
        HandledThenFinished(start, before + [call], store.calls, uuid, mine);
    }

    /** Signature and envelope checks, none of which touches the store. */
    method Accept() returns (o: Outcome<Stop>) {
      if * {
        o := Fail(Crashed);
      } else if * {
        var error: AgentError := *;
        o := Fail(Fails(error));
      } else {
        o := Pass;
      }
    }

    /**
     Any deliveries in any order, repeated at will, each stopped anywhere, among other
     handlers: every result ever returned is the one the store still holds.
     */
    method Run(commands: seq<Command>, uuids: seq<string>) returns (returned: seq<Delivery>)
      requires |commands| == |uuids| && Distinct(uuids)
      requires store.Valid() && executions == [] && completions == [] && delivered == [] && answered == []
      modifies this, store
      ensures store.Valid() && old(store.calls) <= store.calls
      // Every command is delivered, in order, and the list holds every answer that was given.
      ensures delivered == commands && returned == answered
      ensures forall d <- returned :: Durable(After(EMPTY, store.calls), d)
      ensures forall a <- returned, b <- returned :: a.command.commandId == b.command.commandId ==>
                && a.command.fingerprint == b.command.fingerprint
                && a.result == b.result.(duplicate := a.result.duplicate)
      // Every executor run was started under a granted claim of its own, on the expected revision.
      ensures forall e <- executions :: Justified(e, store.calls)
      ensures forall i, j :: 0 <= i < j < |executions| ==>
                executions[i].claimed < executions[j].claimed && executions[i].token != executions[j].token
      // A command runs again only under a claim made when the lease of the earlier one had run out.
      ensures forall i, j :: 0 <= i < j < |executions| ==>
                executions[i].command.commandId == executions[j].command.commandId ==>
                  Excluded(executions[i], executions[j], store.calls)
      // No token is used for two completions.
      ensures Distinct(completions)
      // If the tokens were new, and the others keep the protocol too, the in-memory store would have answered the same.
      ensures var mine := set u | u in uuids;
              Unused(old(store.calls), mine) && OthersOrderly(store.calls, mine) ==>
                Answers(EMPTY, store.calls) == MemoryAnswers(NOTHING, store.calls)
    {
      ghost var start := store.calls;
      var mine := set u | u in uuids;
      KeptStart(start, uuids, mine);
      returned := [];
      for i := 0 to |commands|
        invariant store.Valid() && Kept(start, store.calls, uuids, i, mine)
        invariant delivered == commands[..i] && returned == answered
        invariant forall d <- returned :: Durable(After(EMPTY, store.calls), d)
        invariant forall t <- completions :: t in uuids[..i]
        invariant Distinct(completions) && Executed(executions, uuids, i, store.calls)
      {
        hide Durable, After, Kept, Executed, Justified;
        var answer := Deliver(commands[i], uuids, i, mine, returned, start);
        assert uuids[i] !in uuids[..i];
        assert uuids[..i + 1] == uuids[..i] + [uuids[i]];
        if answer.Ok? && answer.value.Some? {
          returned := returned + [Delivery(commands[i], answer.value.value)];
        }
      }
      hide After, Justified, Unused, OwnOrderly, OthersOrderly, Answers, MemoryAnswers;
      ExecutedExclude(executions, uuids, |uuids|, store.calls);
      if Unused(start, mine) && OthersOrderly(store.calls, mine) {
        EitherStore(store.calls, mine);
      }
    }

    /** One delivery after any activity of others. */
    method Deliver(command: Command, uuids: seq<string>, i: nat, mine: set<string>, ghost returned: seq<Delivery>,
                   ghost start: seq<Call>)
      returns (r: Result<Option<CommandResult>, Stop>)
      requires store.Valid() && i < |uuids| && Distinct(uuids) && mine == set u | u in uuids
      requires Kept(start, store.calls, uuids, i, mine) && Executed(executions, uuids, i, store.calls)
      requires forall d <- returned :: Durable(After(EMPTY, store.calls), d)
      modifies this, store
      ensures store.Valid() && Kept(start, store.calls, uuids, i + 1, mine)
      ensures Executed(executions, uuids, i + 1, store.calls)
      ensures forall d <- returned :: Durable(After(EMPTY, store.calls), d)
      ensures r.Ok? && r.value.Some? ==> Durable(After(EMPTY, store.calls), Delivery(command, r.value.value))
      ensures completions == old(completions) || completions == old(completions) + [uuids[i]]
      ensures delivered == old(delivered) + [command] && answered == old(answered) + AsDelivery(command, r)
    {
      hide After, Durable, Justified, Kept, Executed, Unused, OwnOrderly;
      ghost var before, earlier := store.calls, executions;
      Interference(mine);
      ghost var between := store.calls;
      r := Handle(command, uuids[i], mine);
      delivered, answered := delivered + [command], answered + AsDelivery(command, r);
      KeptNext(start, before, between, store.calls, uuids, i, mine);
      ExecutedStays(earlier, uuids, i, before, between);
      ExecutedStays(earlier, uuids, i, between, store.calls);
      if executions != earlier {
        assert executions == earlier + [executions[|earlier|]];
        ExecutedNext(earlier, uuids, i, between, store.calls, executions[|earlier|]);
      }
      forall d <- returned ensures Durable(After(EMPTY, store.calls), d) {
        DurableStays(before, store.calls, d);
      }
    }
  }
}
