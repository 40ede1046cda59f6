/** The in-memory command store, and when it gives the same answers as the SQLite one. */
module StoreSimulation {
  import opened Prelude
  import opened CommandStore

  datatype Entry = Entry(fingerprint: string, leaseUntil: int, token: string, result: Option<CommandResult>)

  datatype Memory = Memory(results: map<string, Entry>, revisions: map<string, int>)

  const NOTHING := Memory(map[], map[])

  function MemoryClaim(m: Memory, id: string, fingerprint: string, now: int, lease: int, token: string): (Memory, Claim) {
    var granted := m.(results := m.results[id := Entry(fingerprint, now + lease, token, None)]);
    if id !in m.results then (granted, Granted(token))
    else
      var current := m.results[id];
      if current.fingerprint != fingerprint then (m, PayloadMismatch)
      else if current.result.Some? then (m, AlreadyCompleted(current.result.value))
      else if current.leaseUntil <= now then (granted, Granted(token))
      else (m, Busy)
  }

  function MemoryComplete(m: Memory, resource: string, fingerprint: string, token: string,
                          result: CommandResult, expected: Option<int>): Result<Memory, StoreError>
  {
    var id := result.commandId;
    if id !in m.results || m.results[id].fingerprint != fingerprint || m.results[id].token != token then Err(ClaimLost)
    else if !Acceptable(m.revisions, resource, result, expected) then Err(NonMonotonic)
    else Ok(Memory(
      m.results[id := Entry(fingerprint, 0, token, Some(result))],
      if Commits(result) then m.revisions[resource := result.revision.value] else m.revisions))
  }

  function MemoryRenew(m: Memory, id: string, fingerprint: string, token: string, now: int, lease: int)
    : Result<Memory, StoreError>
  {
    if id !in m.results || m.results[id].fingerprint != fingerprint || m.results[id].token != token
       || m.results[id].result.Some?
    then Err(ClaimLost)
    else Ok(m.(results := m.results[id := m.results[id].(leaseUntil := now + lease)]))
  }

  function MemoryStep(m: Memory, call: Call): (Memory, Answer) {
    match call
    case ClaimCall(id, fingerprint, now, lease, uuid) =>
      var (next, claim) := MemoryClaim(m, id, fingerprint, now, lease, uuid);
      (next, Claimed(claim))
    case RenewCall(id, fingerprint, token, now, lease) =>
      var next := MemoryRenew(m, id, fingerprint, token, now, lease);
      if next.Ok? then (next.value, Done) else (m, Refused)
    case CompleteCall(resource, fingerprint, token, result, expected) =>
      var next := MemoryComplete(m, resource, fingerprint, token, result, expected);
      if next.Ok? then (next.value, Done) else (m, Refused)
    case RevisionCall(resource) =>
      (m, RevisionIs(RevisionOf(m.revisions, resource)))
  }

  function MemoryAfter(m: Memory, calls: seq<Call>): Memory {
    if calls == [] then m else MemoryStep(MemoryAfter(m, calls[..|calls| - 1]), calls[|calls| - 1]).0
  }

  function MemoryAnswers(m: Memory, calls: seq<Call>): (answers: seq<Answer>)
    ensures |answers| == |calls|
  {
    if calls == [] then []
    else
      var before := calls[..|calls| - 1];
      MemoryAnswers(m, before) + [MemoryStep(MemoryAfter(m, before), calls[|calls| - 1]).1]
  }

  // --- tokens ----------------------------------------------------------------

  function TokenAt(n: nat): string {
    "memory-claim-" + Decimal(n)
  }

  lemma {:induction false} DecimalInjective(a: nat, b: nat)
    requires Decimal(a) == Decimal(b)
    ensures a == b
  {
    var x, y := Decimal(a), Decimal(b);
    assert "0123456789"[a % 10] == x[|x| - 1] == y[|y| - 1] == "0123456789"[b % 10];
    if a >= 10 && b >= 10 {
      assert x[..|x| - 1] == Decimal(a / 10) && y[..|y| - 1] == Decimal(b / 10);
      DecimalInjective(a / 10, b / 10);
    }
  }

  /** The counter never hands out a token twice. */
  lemma TokensDiffer(a: nat, b: nat)
    requires a != b
    ensures TokenAt(a) != TokenAt(b)
  {
    if TokenAt(a) == TokenAt(b) {
      assert Decimal(a) == TokenAt(a)[13..] == TokenAt(b)[13..] == Decimal(b);
      DecimalInjective(a, b);
    }
  }

  // --- simulation ------------------------------------------------------------

  function AsEntry(row: Row): Entry {
    match row
    case InProgress(fingerprint, leaseUntil, token) => Entry(fingerprint, leaseUntil, token, None)
    case Completed(fingerprint, token, result) => Entry(fingerprint, 0, token, Some(result))
  }

  ghost predicate Matches(s: Store, m: Memory) {
    && s.revisions == m.revisions
    && (forall id :: id in s.commands <==> id in m.results)
    && (forall id <- s.commands :: AsEntry(s.commands[id]) == m.results[id])
  }

  /** A second completion under the token that already completed the command. */
  predicate Repeats(s: Store, call: Call) {
    && call.CompleteCall?
    && call.result.commandId in s.commands
    && var row := s.commands[call.result.commandId];
       row.Completed? && row.fingerprint == call.fingerprint && row.token == call.token
  }

  /** The stores agree on every call but an acceptable repeated completion. */
  lemma StepAgrees(s: Store, m: Memory, call: Call)
    requires Matches(s, m)
    ensures Step(s, call).1 == MemoryStep(m, call).1 <==>
            !(Repeats(s, call) && Acceptable(s.revisions, call.resource, call.result, call.expected))
    ensures Step(s, call).1 == MemoryStep(m, call).1 ==> Matches(Step(s, call).0, MemoryStep(m, call).0)
  {
  }

  /** A repeated completion overwrites a final result in memory; the tables refuse it. */
  lemma RepeatedCompletion(first: CommandResult, second: CommandResult)
    requires first.commandId == second.commandId && first != second
    requires !Commits(first) && !Commits(second)
    ensures var calls := [ClaimCall(first.commandId, "f", 0, 1, "t"), CompleteCall("r", "f", "t", first, None),
                          CompleteCall("r", "f", "t", second, None)];
            && Answers(EMPTY, calls)[2] == Refused
            && first.commandId in After(EMPTY, calls).commands
            && After(EMPTY, calls).commands[first.commandId] == Completed("f", "t", first)
            && MemoryAnswers(NOTHING, calls)[2] == Done
            && first.commandId in MemoryAfter(NOTHING, calls).results
            && MemoryAfter(NOTHING, calls).results[first.commandId].result == Some(second)
  {
    var calls := [ClaimCall(first.commandId, "f", 0, 1, "t"), CompleteCall("r", "f", "t", first, None),
                  CompleteCall("r", "f", "t", second, None)];
    assert calls[..2] == [calls[0], calls[1]];
    assert calls[..2][..1] == [calls[0]];
    assert [calls[0]][..0] == [];
    var s1 := Step(EMPTY, calls[0]).0;
    assert After(EMPTY, [calls[0]]) == s1;
    var s2 := Step(s1, calls[1]).0;
    assert After(EMPTY, calls[..2]) == s2;
    var m1 := MemoryStep(NOTHING, calls[0]).0;
    assert MemoryAfter(NOTHING, [calls[0]]) == m1;
    var m2 := MemoryStep(m1, calls[1]).0;
    assert MemoryAfter(NOTHING, calls[..2]) == m2;
  }

  /** Call `i` of the run is a claim that was granted `token`. */
  predicate GrantsUnder(calls: seq<Call>, answers: seq<Answer>, i: nat, token: string)
    requires |answers| == |calls|
  {
    i < |calls| && calls[i].ClaimCall? && answers[i] == Claimed(Granted(token))
  }

  /** No token is granted twice. */
  ghost predicate FreshGrants(calls: seq<Call>, answers: seq<Answer>)
    requires |answers| == |calls|
  {
    forall i: nat, j: nat, token :: i < j ==>
      !(GrantsUnder(calls, answers, i, token) && GrantsUnder(calls, answers, j, token))
  }

  /** Call `i` of the run completes a command under `token`. */
  predicate CompletesUnder(calls: seq<Call>, answers: seq<Answer>, i: nat, token: string)
    requires |answers| == |calls|
  {
    i < |calls| && calls[i].CompleteCall? && calls[i].token == token && answers[i] == Done
  }

  /** No token completes successfully twice. */
  ghost predicate OnceEach(calls: seq<Call>, answers: seq<Answer>)
    requires |answers| == |calls|
  {
    forall i: nat, j: nat, token :: i < j ==>
      !(CompletesUnder(calls, answers, i, token) && CompletesUnder(calls, answers, j, token))
  }

  ghost predicate Spent(calls: seq<Call>, answers: seq<Answer>, token: string)
    requires |answers| == |calls|
  {
    exists i: nat :: CompletesUnder(calls, answers, i, token)
  }

  ghost predicate Issued(calls: seq<Call>, answers: seq<Answer>, token: string)
    requires |answers| == |calls|
  {
    exists i: nat :: GrantsUnder(calls, answers, i, token)
  }

  lemma SpentGrows(calls: seq<Call>, answers: seq<Answer>, call: Call, answer: Answer, token: string)
    requires |answers| == |calls|
    ensures Spent(calls + [call], answers + [answer], token) <==>
            Spent(calls, answers, token) || (call.CompleteCall? && call.token == token && answer == Done)
  {
    var grown, more := calls + [call], answers + [answer];
    forall i: nat | i < |calls|
      ensures CompletesUnder(grown, more, i, token) == CompletesUnder(calls, answers, i, token)
    {
    }
    assert CompletesUnder(grown, more, |calls|, token) <==> call.CompleteCall? && call.token == token && answer == Done;
  }

  lemma OnceGrows(calls: seq<Call>, answers: seq<Answer>, call: Call, answer: Answer)
    requires |answers| == |calls|
    ensures OnceEach(calls + [call], answers + [answer]) <==>
            && OnceEach(calls, answers)
            && !(call.CompleteCall? && answer == Done && Spent(calls, answers, call.token))
  {
    var grown, more := calls + [call], answers + [answer];
    var n := |calls|;
    assert forall i: nat, token :: i < n ==>
             CompletesUnder(grown, more, i, token) == CompletesUnder(calls, answers, i, token);
    assert forall token :: CompletesUnder(grown, more, n, token) <==>
             call.CompleteCall? && call.token == token && answer == Done;
    assert forall i: nat, token :: CompletesUnder(calls, answers, i, token) ==> CompletesUnder(grown, more, i, token);
    if OnceEach(grown, more) {
      assert OnceEach(calls, answers);
      assert call.CompleteCall? && answer == Done ==> CompletesUnder(grown, more, n, call.token);
    }
    if OnceEach(calls, answers) && !(call.CompleteCall? && answer == Done && Spent(calls, answers, call.token)) {
      forall i: nat, j: nat, token | i < j && CompletesUnder(grown, more, i, token)
        ensures !CompletesUnder(grown, more, j, token)
      {
        assert i < n ==> CompletesUnder(calls, answers, i, token);
      }
    }
  }

  lemma IssuedGrows(calls: seq<Call>, answers: seq<Answer>, call: Call, answer: Answer, token: string)
    requires |answers| == |calls|
    ensures Issued(calls + [call], answers + [answer], token) <==>
            Issued(calls, answers, token) || (call.ClaimCall? && answer == Claimed(Granted(token)))
  {
    var grown, more := calls + [call], answers + [answer];
    forall i: nat | i < |calls|
      ensures GrantsUnder(grown, more, i, token) == GrantsUnder(calls, answers, i, token)
    {
    }
    assert GrantsUnder(grown, more, |calls|, token) <==> call.ClaimCall? && answer == Claimed(Granted(token));
  }

  lemma FreshGrows(calls: seq<Call>, answers: seq<Answer>, call: Call, answer: Answer)
    requires |answers| == |calls|
    requires FreshGrants(calls + [call], answers + [answer])
    ensures FreshGrants(calls, answers)
    ensures forall token :: call.ClaimCall? && answer == Claimed(Granted(token)) ==> !Issued(calls, answers, token)
  {
    var grown, more := calls + [call], answers + [answer];
    assert forall i: nat, token :: GrantsUnder(calls, answers, i, token) ==> GrantsUnder(grown, more, i, token);
    assert forall token :: call.ClaimCall? && answer == Claimed(Granted(token)) ==> GrantsUnder(grown, more, |calls|, token);
  }

  /** Tokens in the memory store were issued, are held by one command each, and are spent exactly if it is completed. */
  ghost predicate Accounted(m: Memory, calls: seq<Call>, answers: seq<Answer>)
    requires |answers| == |calls|
  {
    && (forall id <- m.results :: Issued(calls, answers, m.results[id].token))
    && (forall a <- m.results, b <- m.results :: m.results[a].token == m.results[b].token ==> a == b)
    && (forall id <- m.results :: m.results[id].result.Some? <==> Spent(calls, answers, m.results[id].token))
    && (forall token :: Spent(calls, answers, token) ==> Issued(calls, answers, token))
  }

  lemma AccountedStep(m: Memory, calls: seq<Call>, answers: seq<Answer>, call: Call)
    requires |answers| == |calls| && Accounted(m, calls, answers)
    requires call.ClaimCall? && MemoryStep(m, call).1 == Claimed(Granted(call.uuid)) ==> !Issued(calls, answers, call.uuid)
    ensures Accounted(MemoryStep(m, call).0, calls + [call], answers + [MemoryStep(m, call).1])
  {
    hide Spent, Issued, CompletesUnder, GrantsUnder, Acceptable, Commits, MemoryClaim, MemoryComplete, MemoryRenew;
    var answer := MemoryStep(m, call).1;
    forall token
      ensures Spent(calls + [call], answers + [answer], token) <==>
              Spent(calls, answers, token) || (call.CompleteCall? && call.token == token && answer == Done)
      ensures Issued(calls + [call], answers + [answer], token) <==>
              Issued(calls, answers, token) || (call.ClaimCall? && answer == Claimed(Granted(token)))
    {
      SpentGrows(calls, answers, call, answer, token);
      IssuedGrows(calls, answers, call, answer, token);
    }
    EntriesStep(m, call);
  }

  /** What a call does to the entries: a grant puts a new one, a completion gives one its result, a renewal its lease. */
  lemma EntriesStep(m: Memory, call: Call)
    ensures var (next, answer) := MemoryStep(m, call);
            if call.ClaimCall? && answer == Claimed(Granted(call.uuid)) then
              exists e: Entry :: next.results == m.results[call.commandId := e] && e.token == call.uuid && e.result.None?
            else if call.CompleteCall? && answer == Done then
              && call.result.commandId in m.results && m.results[call.result.commandId].token == call.token
              && exists e: Entry :: next.results == m.results[call.result.commandId := e] && e.token == call.token && e.result.Some?
            else if call.RenewCall? && answer == Done then
              && call.commandId in m.results
              && next.results == m.results[call.commandId := m.results[call.commandId].(leaseUntil := call.now + call.lease)]
            else next.results == m.results && (call.ClaimCall? ==> forall token :: answer != Claimed(Granted(token)))
  {
    hide Acceptable, Commits;
  }

  lemma {:induction false} AccountedRun(calls: seq<Call>)
    requires FreshGrants(calls, MemoryAnswers(NOTHING, calls))
    ensures Accounted(MemoryAfter(NOTHING, calls), calls, MemoryAnswers(NOTHING, calls))
  {
    hide FreshGrants, MemoryStep;
    if calls == [] {
      NothingAccounted();
    } else {
      hide Accounted;
      var before := calls[..|calls| - 1];
      assert calls == before + [calls[|calls| - 1]];
      var m, answers := MemoryAfter(NOTHING, before), MemoryAnswers(NOTHING, before);
      FreshGrows(before, answers, calls[|calls| - 1], MemoryStep(m, calls[|calls| - 1]).1);
      AccountedRun(before);
      AccountedStep(m, before, answers, calls[|calls| - 1]);
    }
  }

  lemma NothingAccounted()
    ensures Accounted(NOTHING, [], [])
  {
  }

  /**
   If no token is granted twice, the two stores give the same answers over a run
   exactly if no token completes successfully twice in it.
   */
  lemma {:induction false} StoresAgree(calls: seq<Call>)
    requires FreshGrants(calls, MemoryAnswers(NOTHING, calls))
    ensures Answers(EMPTY, calls) == MemoryAnswers(NOTHING, calls) <==> OnceEach(calls, MemoryAnswers(NOTHING, calls))
    ensures Answers(EMPTY, calls) == MemoryAnswers(NOTHING, calls) ==>
              Matches(After(EMPTY, calls), MemoryAfter(NOTHING, calls))
  {
    hide FreshGrants, OnceEach, Step, MemoryStep, Spent, Matches;
    if calls == [] {
      EmptyAgree();
    } else {
      var before, call := calls[..|calls| - 1], calls[|calls| - 1];
      assert calls == before + [call];
      var s, m := After(EMPTY, before), MemoryAfter(NOTHING, before);
      var answers, memoryAnswers := Answers(EMPTY, before), MemoryAnswers(NOTHING, before);
      FreshGrows(before, memoryAnswers, call, MemoryStep(m, call).1);
      StoresAgree(before);
      AccountedRun(before);
      OnceGrows(before, memoryAnswers, call, MemoryStep(m, call).1);
      assert answers + [Step(s, call).1] == memoryAnswers + [MemoryStep(m, call).1] <==>
             answers == memoryAnswers && Step(s, call).1 == MemoryStep(m, call).1 by {
        assert (answers + [Step(s, call).1])[..|before|] == answers;
        assert (memoryAnswers + [MemoryStep(m, call).1])[..|before|] == memoryAnswers;
        assert (answers + [Step(s, call).1])[|before|] == Step(s, call).1;
        assert (memoryAnswers + [MemoryStep(m, call).1])[|before|] == MemoryStep(m, call).1;
      }
      if answers == memoryAnswers {
        StepAgrees(s, m, call);
        RepeatsSpent(s, m, before, memoryAnswers, call);
      }
    }
  }

  /** An acceptable repeated completion is just a completion under a spent token. */
  lemma RepeatsSpent(s: Store, m: Memory, calls: seq<Call>, answers: seq<Answer>, call: Call)
    requires Matches(s, m) && |answers| == |calls| && Accounted(m, calls, answers)
    ensures Repeats(s, call) && Acceptable(s.revisions, call.resource, call.result, call.expected) <==>
            call.CompleteCall? && MemoryStep(m, call).1 == Done && Spent(calls, answers, call.token)
  {
    hide Spent, Issued, Acceptable, Commits;
  }

  lemma EmptyAgree()
    ensures Matches(EMPTY, NOTHING) && OnceEach([], [])
  {
  }

  // --- runs that keep the handlers' protocol -----------------------------------

  /** Two claims bring different tokens, and two completions ask under different ones. */
  predicate Apart(a: Call, b: Call) {
    && (a.ClaimCall? && b.ClaimCall? ==> a.uuid != b.uuid)
    && (a.CompleteCall? && b.CompleteCall? ==> a.token != b.token)
  }

  /** Every claim of a run brings a token of its own, and a token is completed in one call at most. */
  ghost predicate Orderly(calls: seq<Call>) {
    forall i, j :: 0 <= i < j < |calls| ==> Apart(calls[i], calls[j])
  }

  /** A grant hands out the token its claim brought. */
  lemma {:induction false} GrantsBrought(calls: seq<Call>, i: nat, token: string)
    requires GrantsUnder(calls, MemoryAnswers(NOTHING, calls), i, token)
    ensures calls[i].uuid == token
  {
    var before := calls[..|calls| - 1];
    if i < |before| {
      GrantsBrought(before, i, token);
    }
  }

  /** Where every handler keeps the protocol, it makes no difference which store it runs on. */
  lemma OrderlyRunsAgree(calls: seq<Call>)
    requires Orderly(calls)
    ensures Answers(EMPTY, calls) == MemoryAnswers(NOTHING, calls)
    ensures Matches(After(EMPTY, calls), MemoryAfter(NOTHING, calls))
  {
    hide Matches, Step, MemoryStep;
    var answers := MemoryAnswers(NOTHING, calls);
    forall i: nat, j: nat, token | i < j && GrantsUnder(calls, answers, i, token)
      ensures !GrantsUnder(calls, answers, j, token)
    {
      GrantsBrought(calls, i, token);
      if GrantsUnder(calls, answers, j, token) {
        GrantsBrought(calls, j, token);
      }
    }
    StoresAgree(calls);
  }

  // --- the object ---------------------------------------------------------------

  /** Every token granted so far is one of the first `n` of the counter, and none was granted twice. */
  ghost predicate Numbered(calls: seq<Call>, answers: seq<Answer>, n: nat)
    requires |answers| == |calls|
  {
    && FreshGrants(calls, answers)
    && forall i: nat, token :: GrantsUnder(calls, answers, i, token) ==> exists k: nat :: 1 <= k <= n && token == TokenAt(k)
  }

  lemma NumberedIsFresh(calls: seq<Call>, answers: seq<Answer>, n: nat)
    requires |answers| == |calls| && Numbered(calls, answers, n)
    ensures FreshGrants(calls, answers)
  {
  }

  lemma NumberedStep(m: Memory, calls: seq<Call>, answers: seq<Answer>, call: Call, n: nat)
    requires |answers| == |calls| && Numbered(calls, answers, n)
    requires call.ClaimCall? ==> call.uuid == TokenAt(n + 1)
    ensures var answer := MemoryStep(m, call).1;
            Numbered(calls + [call], answers + [answer], n + if answer == Claimed(Granted(TokenAt(n + 1))) then 1 else 0)
  {
    hide TokenAt;
    var answer := MemoryStep(m, call).1;
    var grown, more := calls + [call], answers + [answer];
    forall i: nat, token | GrantsUnder(grown, more, i, token)
      ensures i < |calls| ==> GrantsUnder(calls, answers, i, token)
      ensures i < |calls| ==> exists k: nat :: 1 <= k <= n && token == TokenAt(k)
      ensures i < |calls| ==> token != TokenAt(n + 1)
      ensures i >= |calls| ==> i == |calls| && token == TokenAt(n + 1)
    {
      if i < |calls| {
        assert GrantsUnder(calls, answers, i, token);
        var k: nat :| 1 <= k <= n && token == TokenAt(k);
        TokensDiffer(k, n + 1);
      }
    }
  }

  class MemoryStore {
    var results: map<string, Entry>
    var revisions: map<string, int>
    var tokenSequence: nat
    /** Every call so far; a claim is logged with the next token, whether or not it was handed out. */
    ghost var calls: seq<Call>

    constructor ()
      ensures Valid() && calls == []
    {
      results, revisions, tokenSequence, calls := map[], map[], 0, [];
    }

    function State(): Memory
      reads this
    {
      Memory(results, revisions)
    }

    /** The maps are what the calls make of empty ones, and the counter has handed out its tokens in turn. */
    ghost predicate Valid()
      reads this
    {
      State() == MemoryAfter(NOTHING, calls) && Numbered(calls, MemoryAnswers(NOTHING, calls), tokenSequence)
    }

    /** Log a call before it is made. */
    ghost method Log(call: Call)
      requires Valid()
      requires call.ClaimCall? ==> call.uuid == TokenAt(tokenSequence + 1)
      modifies `calls
      ensures calls == old(calls) + [call]
      ensures MemoryAfter(NOTHING, calls) == MemoryStep(State(), call).0
      ensures MemoryAnswers(NOTHING, calls) == old(MemoryAnswers(NOTHING, calls)) + [MemoryStep(State(), call).1]
      ensures var granted := MemoryStep(State(), call).1 == Claimed(Granted(TokenAt(tokenSequence + 1)));
              Numbered(calls, MemoryAnswers(NOTHING, calls), tokenSequence + if granted then 1 else 0)
    {
      assert (calls + [call])[..|calls|] == calls;
      NumberedStep(State(), calls, MemoryAnswers(NOTHING, calls), call, tokenSequence);
      calls := calls + [call];
    }

    method Claim(id: string, fingerprint: string, now: int, lease: int) returns (claim: Claim)
      requires Valid()
      modifies this
      ensures Valid()
      ensures calls == old(calls) + [ClaimCall(id, fingerprint, now, lease, TokenAt(old(tokenSequence) + 1))]
      ensures MemoryAnswers(NOTHING, calls) == old(MemoryAnswers(NOTHING, calls)) + [Claimed(claim)]
      ensures (State(), claim) == MemoryClaim(old(State()), id, fingerprint, now, lease, TokenAt(old(tokenSequence) + 1))
      ensures tokenSequence == old(tokenSequence) + if claim.Granted? then 1 else 0
    {
      hide Numbered, TokenAt, MemoryAfter, MemoryAnswers;
      Log(ClaimCall(id, fingerprint, now, lease, TokenAt(tokenSequence + 1)));
      if id !in results {
        tokenSequence := tokenSequence + 1;
        var token := TokenAt(tokenSequence);
        results := results[id := Entry(fingerprint, now + lease, token, None)];
        return Granted(token);
      }
      var current := results[id];
      if current.fingerprint != fingerprint {
        return PayloadMismatch;
      }
      if current.result.Some? {
        return AlreadyCompleted(current.result.value);
      }
      if current.leaseUntil <= now {
        tokenSequence := tokenSequence + 1;
        var token := TokenAt(tokenSequence);
        results := results[id := Entry(fingerprint, now + lease, token, None)];
        return Granted(token);
      }
      claim := Busy;
    }

    method Complete(resource: string, fingerprint: string, token: string, result: CommandResult, expected: Option<int>)
      returns (o: Outcome<StoreError>)
      requires Valid()
      modifies this
      ensures Valid() && calls == old(calls) + [CompleteCall(resource, fingerprint, token, result, expected)]
      ensures MemoryAnswers(NOTHING, calls) == old(MemoryAnswers(NOTHING, calls)) + [if o.Pass? then Done else Refused]
      ensures tokenSequence == old(tokenSequence)
      ensures var next := MemoryComplete(old(State()), resource, fingerprint, token, result, expected);
              if next.Ok? then o.Pass? && State() == next.value
              else o == Fail(next.error) && State() == old(State())
    {
      hide Numbered, TokenAt, MemoryAfter, MemoryAnswers;
      Log(CompleteCall(resource, fingerprint, token, result, expected));
      var id := result.commandId;
      if id !in results || results[id].fingerprint != fingerprint || results[id].token != token {
        return Fail(ClaimLost);
      }
      var current := if resource in revisions then revisions[resource] else 0;
      if result.status == Succeeded && result.revision.Some?
         && (expected.None? || expected.value != current || result.revision.value <= current) {
        return Fail(NonMonotonic);
      }
      results := results[id := Entry(fingerprint, 0, token, Some(result))];
      if result.status == Succeeded && result.revision.Some? {
        revisions := revisions[resource := result.revision.value];
      }
      o := Pass;
    }

    method Renew(id: string, fingerprint: string, token: string, now: int, lease: int) returns (o: Outcome<StoreError>)
      requires Valid()
      modifies this
      ensures Valid() && calls == old(calls) + [RenewCall(id, fingerprint, token, now, lease)]
      ensures MemoryAnswers(NOTHING, calls) == old(MemoryAnswers(NOTHING, calls)) + [if o.Pass? then Done else Refused]
      ensures tokenSequence == old(tokenSequence)
      ensures var next := MemoryRenew(old(State()), id, fingerprint, token, now, lease);
              if next.Ok? then o.Pass? && State() == next.value
              else o == Fail(next.error) && State() == old(State())
    {
      hide Numbered, TokenAt, MemoryAfter, MemoryAnswers;
      Log(RenewCall(id, fingerprint, token, now, lease));
      if id !in results || results[id].fingerprint != fingerprint || results[id].token != token
         || results[id].result.Some? {
        return Fail(ClaimLost);
      }
      results := results[id := results[id].(leaseUntil := now + lease)];
      o := Pass;
    }

    method Revision(resource: string) returns (revision: int)
      requires Valid()
      modifies `calls
      ensures Valid() && calls == old(calls) + [RevisionCall(resource)]
      ensures MemoryAnswers(NOTHING, calls) == old(MemoryAnswers(NOTHING, calls)) + [RevisionIs(revision)]
      ensures revision == RevisionOf(revisions, resource)
    {
      hide Numbered, TokenAt, MemoryAfter, MemoryAnswers;
      Log(RevisionCall(resource));
      revision := if resource in revisions then revisions[resource] else 0;
    }

    /**
     Whatever was called on this object, tables asked the same with the tokens it handed
     out would have answered the same, exactly if it completed no token twice.
     */
    lemma AgreesWithTables()
      requires Valid()
      ensures Answers(EMPTY, calls) == MemoryAnswers(NOTHING, calls) <==> OnceEach(calls, MemoryAnswers(NOTHING, calls))
    {
      NumberedIsFresh(calls, MemoryAnswers(NOTHING, calls), tokenSequence);
      StoresAgree(calls);
    }
  }
}
