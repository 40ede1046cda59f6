/**
 The leased command store.  `Store` and its step functions say what the SQLite tables
 do; the class changes the tables statement by statement inside a transaction.
 */
module CommandStore {
  import opened Prelude

  datatype Status = Succeeded | Failed | Rejected

  datatype CommandResult = CommandResult(
    commandId: string, operationId: string, status: Status, revision: Option<int>,
    code: string, message: string, evidence: Option<string>, duplicate: bool, completedAt: int)

  datatype Claim = Granted(token: string) | Busy | PayloadMismatch | AlreadyCompleted(result: CommandResult)

  datatype StoreError = ClaimLost | NonMonotonic

  /** A row of the `commands` table. */
  datatype Row =
    | InProgress(fingerprint: string, leaseUntil: int, token: string)
    | Completed(fingerprint: string, token: string, result: CommandResult)

  datatype Store = Store(commands: map<string, Row>, revisions: map<string, int>)

  const EMPTY := Store(map[], map[])

  function RevisionOf(revisions: map<string, int>, resource: string): int {
    if resource in revisions then revisions[resource] else 0
  }

  function ClaimAnswer(s: Store, commandId: string, fingerprint: string, now: int, token: string): Claim {
    if commandId !in s.commands then Granted(token)
    else
      var row := s.commands[commandId];
      if row.fingerprint != fingerprint then PayloadMismatch
      else if row.Completed? then AlreadyCompleted(row.result)
      else if row.leaseUntil > now then Busy
      else Granted(token)
  }

  function ClaimNext(s: Store, commandId: string, fingerprint: string, now: int, lease: int, token: string): Store {
    if ClaimAnswer(s, commandId, fingerprint, now, token).Granted?
    then s.(commands := s.commands[commandId := InProgress(fingerprint, now + lease, token)])
    else s
  }

  /** Whether `token` is the live claim on the command. */
  predicate Holds(s: Store, commandId: string, fingerprint: string, token: string) {
    && commandId in s.commands
    && s.commands[commandId].InProgress?
    && s.commands[commandId].fingerprint == fingerprint
    && s.commands[commandId].token == token
  }

  /** Whether a result commits a resource revision. */
  predicate Commits(result: CommandResult) {
    result.status == Succeeded && result.revision.Some?
  }

  predicate Acceptable(revisions: map<string, int>, resource: string, result: CommandResult, expected: Option<int>) {
    Commits(result) ==>
      expected == Some(RevisionOf(revisions, resource)) && result.revision.value > RevisionOf(revisions, resource)
  }

  function CompleteNext(s: Store, resource: string, fingerprint: string, token: string,
                        result: CommandResult, expected: Option<int>): Result<Store, StoreError>
  {
    if !Holds(s, result.commandId, fingerprint, token) then Err(ClaimLost)
    else if !Acceptable(s.revisions, resource, result, expected) then Err(NonMonotonic)
    else Ok(Store(
      s.commands[result.commandId := Completed(fingerprint, token, result)],
      if Commits(result) then s.revisions[resource := result.revision.value] else s.revisions))
  }

  function RenewNext(s: Store, commandId: string, fingerprint: string, token: string, now: int, lease: int)
    : Result<Store, StoreError>
  {
    if !Holds(s, commandId, fingerprint, token) then Err(ClaimLost)
    else Ok(s.(commands := s.commands[commandId := InProgress(fingerprint, now + lease, token)]))
  }

  // --- runs ------------------------------------------------------------------

  datatype Call =
    | ClaimCall(commandId: string, fingerprint: string, now: int, lease: int, uuid: string)
    | RenewCall(commandId: string, fingerprint: string, token: string, now: int, lease: int)
    | CompleteCall(resource: string, fingerprint: string, token: string, result: CommandResult, expected: Option<int>)
    | RevisionCall(resource: string)

  datatype Answer = Claimed(claim: Claim) | Done | Refused | RevisionIs(revision: int)

  function Step(s: Store, call: Call): (Store, Answer) {
    match call
    case ClaimCall(id, fingerprint, now, lease, uuid) =>
      (ClaimNext(s, id, fingerprint, now, lease, uuid), Claimed(ClaimAnswer(s, id, fingerprint, now, uuid)))
    case RenewCall(id, fingerprint, token, now, lease) =>
      var next := RenewNext(s, id, fingerprint, token, now, lease);
      if next.Ok? then (next.value, Done) else (s, Refused)
    case CompleteCall(resource, fingerprint, token, result, expected) =>
      var next := CompleteNext(s, resource, fingerprint, token, result, expected);
      if next.Ok? then (next.value, Done) else (s, Refused)
    case RevisionCall(resource) =>
      (s, RevisionIs(RevisionOf(s.revisions, resource)))
  }

  /** The store after a run. */
  function After(s: Store, calls: seq<Call>): Store {
    if calls == [] then s else Step(After(s, calls[..|calls| - 1]), calls[|calls| - 1]).0
  }

  /** The answers of a run. */
  function Answers(s: Store, calls: seq<Call>): (answers: seq<Answer>)
    ensures |answers| == |calls|
  {
    if calls == [] then []
    else
      var before := calls[..|calls| - 1];
      Answers(s, before) + [Step(After(s, before), calls[|calls| - 1]).1]
  }

  /** The answer to call `i` of a run. */
  function AnswerAt(s: Store, calls: seq<Call>, i: nat): Answer
    requires i < |calls|
  {
    Step(After(s, calls[..i]), calls[i]).1
  }

  lemma AfterNext(s: Store, calls: seq<Call>, call: Call)
    ensures After(s, calls + [call]) == Step(After(s, calls), call).0
    ensures AnswerAt(s, calls + [call], |calls|) == Step(After(s, calls), call).1
    ensures forall i :: 0 <= i < |calls| ==> AnswerAt(s, calls + [call], i) == AnswerAt(s, calls, i)
  {
    assert (calls + [call])[..|calls|] == calls;
    forall i | 0 <= i < |calls|
      ensures AnswerAt(s, calls + [call], i) == AnswerAt(s, calls, i)
    {
      assert (calls + [call])[..i] == calls[..i];
    }
  }

  class SqliteStore {
    var commands: map<string, Row>
    var revisions: map<string, int>
    /** Every call so far, by whichever handler. */
    ghost var calls: seq<Call>

    constructor ()
      ensures Valid() && calls == []
    {
      commands, revisions, calls := map[], map[], [];
    }

    function State(): Store
      reads `commands, `revisions
    {
      Store(commands, revisions)
    }

    /** The tables are what the calls make of empty ones. */
    ghost predicate Valid()
      reads this
    {
      State() == After(EMPTY, calls)
    }

    /** Claim a command; `uuid` is the random token of this call. */
    method Claim(commandId: string, fingerprint: string, now: int, lease: int, uuid: string) returns (claim: Claim)
      requires Valid()
      modifies this
      ensures Valid() && calls == old(calls) + [ClaimCall(commandId, fingerprint, now, lease, uuid)]
      ensures claim == ClaimAnswer(old(State()), commandId, fingerprint, now, uuid)
      ensures State() == ClaimNext(old(State()), commandId, fingerprint, now, lease, uuid)
    {
      AfterNext(EMPTY, calls, ClaimCall(commandId, fingerprint, now, lease, uuid));
      calls := calls + [ClaimCall(commandId, fingerprint, now, lease, uuid)];
      if commandId !in commands {
        commands := commands[commandId := InProgress(fingerprint, now + lease, uuid)];
        return Granted(uuid);
      }
      var row := commands[commandId];
      if row.fingerprint != fingerprint {
        return PayloadMismatch;
      }
      if row.Completed? {
        return AlreadyCompleted(row.result);
      }
      if row.leaseUntil > now {
        return Busy;
      }
      commands := commands[commandId := InProgress(fingerprint, now + lease, uuid)];
      claim := Granted(uuid);
    }

    /** Store a result and its revision in one transaction; a refused revision undoes the result too. */
    method Complete(resource: string, fingerprint: string, token: string, result: CommandResult, expected: Option<int>)
      returns (o: Outcome<StoreError>)
      requires Valid()
      modifies this
      ensures Valid() && calls == old(calls) + [CompleteCall(resource, fingerprint, token, result, expected)]
      ensures var next := CompleteNext(old(State()), resource, fingerprint, token, result, expected);
              if next.Ok? then o.Pass? && State() == next.value
              else o == Fail(next.error) && State() == old(State())
    {
      AfterNext(EMPTY, calls, CompleteCall(resource, fingerprint, token, result, expected));
      calls := calls + [CompleteCall(resource, fingerprint, token, result, expected)];
      var commandsAtBegin, revisionsAtBegin := commands, revisions;
      o := Pass;
      var id := result.commandId;
      if id in commands && commands[id].fingerprint == fingerprint && commands[id].token == token
         && commands[id].InProgress? {
        commands := commands[id := Completed(fingerprint, token, result)];
      } else {
        o := Fail(ClaimLost);
      }
      if o.Pass? && result.status == Succeeded && result.revision.Some? {
        var current := if resource in revisions then revisions[resource] else 0;
        if expected.None? || current != expected.value || result.revision.value <= current {
          o := Fail(NonMonotonic);
        } else {
          revisions := revisions[resource := result.revision.value];
        }
      }
      if o.Fail? {
        commands, revisions := commandsAtBegin, revisionsAtBegin;
      }
    }

    method Renew(commandId: string, fingerprint: string, token: string, now: int, lease: int)
      returns (o: Outcome<StoreError>)
      requires Valid()
      modifies this
      ensures Valid() && calls == old(calls) + [RenewCall(commandId, fingerprint, token, now, lease)]
      ensures var next := RenewNext(old(State()), commandId, fingerprint, token, now, lease);
              if next.Ok? then o.Pass? && State() == next.value
              else o == Fail(next.error) && State() == old(State())
    {
      AfterNext(EMPTY, calls, RenewCall(commandId, fingerprint, token, now, lease));
      calls := calls + [RenewCall(commandId, fingerprint, token, now, lease)];
      if commandId in commands && commands[commandId].fingerprint == fingerprint
         && commands[commandId].token == token && commands[commandId].InProgress? {
        commands := commands[commandId := InProgress(fingerprint, now + lease, token)];
        o := Pass;
      } else {
        o := Fail(ClaimLost);
      }
    }

    method Revision(resource: string) returns (revision: int)
      requires Valid()
      modifies `calls
      ensures Valid() && calls == old(calls) + [RevisionCall(resource)]
      ensures revision == RevisionOf(revisions, resource)
    {
      AfterNext(EMPTY, calls, RevisionCall(resource));
      calls := calls + [RevisionCall(resource)];
      revision := if resource in revisions then revisions[resource] else 0;
    }
  }

  // --- revisions and results over a run ---------------------------------------

  /** A revision committed by a run: the resource, the revision before it and the new one. */
  datatype Commit = Commit(resource: string, prior: int, revision: int)

  function CommitsOf(s: Store, calls: seq<Call>): seq<Commit> {
    if calls == [] then []
    else
      var before := calls[..|calls| - 1];
      CommitsOf(s, before) + CommitOf(After(s, before), calls[|calls| - 1])
  }

  /** The revision of a resource after a list of commits. */
  function Latest(revisions: map<string, int>, commits: seq<Commit>, resource: string): int {
    if commits == [] then RevisionOf(revisions, resource)
    else if commits[|commits| - 1].resource == resource then commits[|commits| - 1].revision
    else Latest(revisions, commits[..|commits| - 1], resource)
  }

  /** Every commit names as its prior exactly the revision before it, and goes above it. */
  ghost predicate Chained(revisions: map<string, int>, commits: seq<Commit>) {
    forall i :: 0 <= i < |commits| ==>
      commits[i].prior == Latest(revisions, commits[..i], commits[i].resource) < commits[i].revision
  }

  /** What one call commits. */
  function CommitOf(s: Store, call: Call): seq<Commit> {
    if call.CompleteCall? && Step(s, call).1 == Done && Commits(call.result)
    then [Commit(call.resource, call.expected.value, call.result.revision.value)]
    else []
  }

  lemma CommitStep(s: Store, call: Call, resource: string)
    ensures var commit := CommitOf(s, call);
            var before, after := RevisionOf(s.revisions, resource), RevisionOf(Step(s, call).0.revisions, resource);
            && (commit == [] || commit[0].resource != resource ==> after == before)
            && (commit != [] && commit[0].resource == resource ==>
                  commit[0].prior == before < commit[0].revision == after)
  {
  }

  lemma ChainGrows(revisions: map<string, int>, commits: seq<Commit>, next: Commit)
    requires Chained(revisions, commits)
    requires next.prior == Latest(revisions, commits, next.resource) < next.revision
    ensures Chained(revisions, commits + [next])
  {
    var grown := commits + [next];
    forall i | 0 <= i < |grown|
      ensures grown[i].prior == Latest(revisions, grown[..i], grown[i].resource) < grown[i].revision
    {
      if i < |commits| {
        assert grown[..i] == commits[..i];
      } else {
        assert grown[..i] == commits;
      }
    }
  }

  /** Over any run the committed revisions of each resource form one increasing chain, and the table holds its end. */
  lemma {:induction false} RevisionChain(s: Store, calls: seq<Call>, resource: string)
    ensures Chained(s.revisions, CommitsOf(s, calls))
    ensures RevisionOf(After(s, calls).revisions, resource) == Latest(s.revisions, CommitsOf(s, calls), resource)
  {
    hide Chained, Step, CommitOf, RevisionOf;
    if calls == [] {
      EmptyChain(s.revisions);
    } else {
      var before := calls[..|calls| - 1];
      var call := calls[|calls| - 1];
      var commits, commit := CommitsOf(s, before), CommitOf(After(s, before), call);
      RevisionChain(s, before, resource);
      CommitStep(After(s, before), call, resource);
      AtMostOne(After(s, before), call);
      if commit == [] {
        assert CommitsOf(s, calls) == commits;
      } else {
        RevisionChain(s, before, commit[0].resource);
        CommitStep(After(s, before), call, commit[0].resource);
        ChainGrows(s.revisions, commits, commit[0]);
        assert CommitsOf(s, calls) == commits + [commit[0]];
        assert (commits + [commit[0]])[..|commits|] == commits;
      }
    }
  }

  lemma EmptyChain(revisions: map<string, int>)
    ensures Chained(revisions, [])
    ensures forall r :: Latest(revisions, [], r) == RevisionOf(revisions, r)
  {
  }

  lemma AtMostOne(s: Store, call: Call)
    ensures var commit := CommitOf(s, call); commit == [] || commit == [commit[0]]
  {
  }

  /** In a chain, a later commit of a resource is above every earlier one. */
  lemma {:induction false} ChainIncreases(revisions: map<string, int>, commits: seq<Commit>, i: nat, j: nat)
    requires Chained(revisions, commits)
    requires i < j < |commits| && commits[i].resource == commits[j].resource
    ensures commits[i].revision <= commits[j].prior < commits[j].revision
    ensures (forall k :: i < k < j ==> commits[k].resource != commits[j].resource) ==>
              commits[j].prior == commits[i].revision
  {
    LatestCovers(revisions, commits, i, j, commits[j].resource);
  }

  lemma {:induction false} LatestCovers(revisions: map<string, int>, commits: seq<Commit>, i: nat, j: nat, resource: string)
    requires Chained(revisions, commits)
    requires i < j <= |commits| && commits[i].resource == resource
    ensures commits[i].revision <= Latest(revisions, commits[..j], resource)
    ensures (forall k :: i < k < j ==> commits[k].resource != resource) ==>
              Latest(revisions, commits[..j], resource) == commits[i].revision
    decreases j
  {
    assert commits[..j][..j - 1] == commits[..j - 1];
    if i < j - 1 {
      LatestCovers(revisions, commits, i, j - 1, resource);
    }
  }

  /**
   A resource that no call committed has revision 0, and its first commit goes on from
   0; otherwise its revision is that of its last commit.
   */
  lemma RevisionTells(s: Store, calls: seq<Call>, resource: string)
    requires s.revisions == map[]
    ensures var commits, revision := CommitsOf(s, calls), RevisionOf(After(s, calls).revisions, resource);
            && ((forall c <- commits :: c.resource != resource) ==> revision == 0)
            && (forall k :: 0 <= k < |commits| && commits[k].resource == resource ==>
                  && ((forall j :: 0 <= j < k ==> commits[j].resource != resource) ==> commits[k].prior == 0)
                  && ((forall j :: k < j < |commits| ==> commits[j].resource != resource) ==> revision == commits[k].revision))
  {
    hide CommitsOf, After, RevisionOf;
    var commits := CommitsOf(s, calls);
    RevisionChain(s, calls, resource);
    if forall c <- commits :: c.resource != resource {
      NoneLatest(commits, resource);
    }
    assert commits[..|commits|] == commits;
    forall k | 0 <= k < |commits| && commits[k].resource == resource
      ensures (forall j :: 0 <= j < k ==> commits[j].resource != resource) ==> commits[k].prior == 0
      ensures (forall j :: k < j < |commits| ==> commits[j].resource != resource) ==>
                Latest(s.revisions, commits, resource) == commits[k].revision
    {
      LatestCovers(s.revisions, commits, k, |commits|, resource);
      if forall j :: 0 <= j < k ==> commits[j].resource != resource {
        NoneLatest(commits[..k], resource);
      }
    }
  }

  lemma {:induction false} NoneLatest(commits: seq<Commit>, resource: string)
    requires forall c <- commits :: c.resource != resource
    ensures Latest(map[], commits, resource) == 0
  {
    if commits != [] {
      NoneLatest(commits[..|commits| - 1], resource);
    }
  }

  /** A completed command keeps its result for ever. */
  lemma {:induction false} ResultsAreFinal(s: Store, calls: seq<Call>, commandId: string)
    requires commandId in s.commands && s.commands[commandId].Completed?
    ensures commandId in After(s, calls).commands && After(s, calls).commands[commandId] == s.commands[commandId]
  {
    if calls != [] {
      ResultsAreFinal(s, calls[..|calls| - 1], commandId);
    }
  }

  /** No claim of the run is given `token`. */
  predicate NeverIssued(calls: seq<Call>, token: string) {
    forall c <- calls :: c.ClaimCall? ==> c.uuid != token
  }

  /** Once a claim has moved on to another token, the old one neither completes nor renews anything. */
  lemma {:induction false} SupersededIsDead(s: Store, calls: seq<Call>, commandId: string, token: string, i: nat)
    requires commandId in s.commands && s.commands[commandId].token != token
    requires NeverIssued(calls, token)
    requires i < |calls|
    ensures commandId in After(s, calls).commands && After(s, calls).commands[commandId].token != token
    ensures calls[i].CompleteCall? && calls[i].result.commandId == commandId && calls[i].token == token ==>
              Answers(s, calls)[i] == Refused
    ensures calls[i].RenewCall? && calls[i].commandId == commandId && calls[i].token == token ==>
              Answers(s, calls)[i] == Refused
  {
    var before := calls[..|calls| - 1];
    assert forall c <- before :: c in calls;
    StaysSuperseded(s, before, commandId, token);
    if i < |before| {
      SupersededIsDead(s, before, commandId, token, i);
    }
    StaysSuperseded(s, calls, commandId, token);
  }

  lemma {:induction false} StaysSuperseded(s: Store, calls: seq<Call>, commandId: string, token: string)
    requires commandId in s.commands && s.commands[commandId].token != token
    requires NeverIssued(calls, token)
    ensures commandId in After(s, calls).commands && After(s, calls).commands[commandId].token != token
  {
    if calls != [] {
      var before := calls[..|calls| - 1];
      assert forall c <- before :: c in calls;
      StaysSuperseded(s, before, commandId, token);
      assert calls[|calls| - 1] in calls;
    }
  }

  // --- claims in a run ---------------------------------------------------------

  /** Call `i` of a run is a claim of the command that the store granted. */
  predicate GrantedAt(calls: seq<Call>, i: nat, commandId: string) {
    && i < |calls|
    && calls[i].ClaimCall? && calls[i].commandId == commandId
    && AnswerAt(EMPTY, calls, i) == Claimed(Granted(calls[i].uuid))
  }

  /** Call `k` of a run renews the claim of the command under `token`. */
  predicate RenewsAt(calls: seq<Call>, k: nat, commandId: string, token: string) {
    && k < |calls|
    && calls[k].RenewCall? && calls[k].commandId == commandId && calls[k].token == token
    && AnswerAt(EMPTY, calls, k) == Done
  }

  /** What one call does to the row of a command. */
  lemma RowStep(s: Store, call: Call, commandId: string)
    requires commandId in s.commands
    ensures commandId in Step(s, call).0.commands
    ensures var row, next := s.commands[commandId], Step(s, call).0.commands[commandId];
            && next.fingerprint == row.fingerprint
            && (row.Completed? ==> next == row)
            && (next.token == row.token
                || (call.ClaimCall? && call.commandId == commandId && Step(s, call).1 == Claimed(Granted(call.uuid))))
            && (next.InProgress? && next != row ==>
                  || (call.ClaimCall? && call.commandId == commandId && Step(s, call).1 == Claimed(Granted(call.uuid)))
                  || (call.RenewCall? && call.commandId == commandId && call.token == row.token && Step(s, call).1 == Done))
            && (call.RenewCall? && call.commandId == commandId && call.token == row.token && Step(s, call).1 == Done ==>
                  next == InProgress(row.fingerprint, call.now + call.lease, row.token))
  {
  }

  lemma GrantStep(s: Store, call: Call)
    requires call.ClaimCall? && Step(s, call).1 == Claimed(Granted(call.uuid))
    ensures call.commandId in Step(s, call).0.commands
    ensures Step(s, call).0.commands[call.commandId] == InProgress(call.fingerprint, call.now + call.lease, call.uuid)
    ensures call.commandId in s.commands ==>
              var row := s.commands[call.commandId];
              row.InProgress? && row.leaseUntil <= call.now && row.fingerprint == call.fingerprint
  {
  }

  /** Until the next grant, a granted claim keeps the row of its command. */
  lemma {:induction false} GrantKeepsRow(calls: seq<Call>, i: nat, n: nat, commandId: string)
    requires GrantedAt(calls, i, commandId) && i < n <= |calls|
    requires forall m: nat :: i < m < n ==> !GrantedAt(calls, m, commandId)
    ensures var s := After(EMPTY, calls[..n]);
            && commandId in s.commands
            && s.commands[commandId].token == calls[i].uuid
            && s.commands[commandId].fingerprint == calls[i].fingerprint
    decreases n
  {
    hide Step;
    assert calls[..n] == calls[..n - 1] + [calls[n - 1]];
    AfterNext(EMPTY, calls[..n - 1], calls[n - 1]);
    if i < n - 1 {
      GrantKeepsRow(calls, i, n - 1, commandId);
      RowStep(After(EMPTY, calls[..n - 1]), calls[n - 1], commandId);
      assert !GrantedAt(calls, n - 1, commandId);
    } else {
      GrantStep(After(EMPTY, calls[..i]), calls[i]);
    }
  }

  /** The lease of a live claim is the one its grant or its last renewal gave it. */
  lemma {:induction false} LeaseIsLast(calls: seq<Call>, i: nat, n: nat, commandId: string) returns (k: nat)
    requires GrantedAt(calls, i, commandId) && i < n <= |calls|
    requires forall m: nat :: i < m < n ==> !GrantedAt(calls, m, commandId)
    requires commandId in After(EMPTY, calls[..n]).commands && After(EMPTY, calls[..n]).commands[commandId].InProgress?
    ensures i <= k < n && (k == i || RenewsAt(calls, k, commandId, calls[i].uuid))
    ensures calls[k].ClaimCall? || calls[k].RenewCall?
    ensures After(EMPTY, calls[..n]).commands[commandId].leaseUntil == calls[k].now + calls[k].lease
    ensures forall l: nat :: k < l < n ==> !RenewsAt(calls, l, commandId, calls[i].uuid)
    decreases n
  {
    hide Step;
    assert calls[..n] == calls[..n - 1] + [calls[n - 1]];
    AfterNext(EMPTY, calls[..n - 1], calls[n - 1]);
    if i == n - 1 {
      GrantStep(After(EMPTY, calls[..i]), calls[i]);
      return i;
    }
    GrantKeepsRow(calls, i, n - 1, commandId);
    RowStep(After(EMPTY, calls[..n - 1]), calls[n - 1], commandId);
    assert !GrantedAt(calls, n - 1, commandId);
    if RenewsAt(calls, n - 1, commandId, calls[i].uuid) {
      k := n - 1;
    } else {
      k := LeaseIsLast(calls, i, n - 1, commandId);
    }
  }

  /** Claim `m` took the command over from claim `i`, whose lease had run out by then. */
  ghost predicate TakesOver(calls: seq<Call>, i: nat, m: nat, commandId: string) {
    && i < m && GrantedAt(calls, i, commandId) && GrantedAt(calls, m, commandId)
    && commandId in After(EMPTY, calls[..m]).commands
    && var row := After(EMPTY, calls[..m]).commands[commandId];
       && row.InProgress? && row.token == calls[i].uuid
       && row.leaseUntil <= calls[m].now
       && exists k: nat ::
            && i <= k < m && (k == i || RenewsAt(calls, k, commandId, calls[i].uuid))
            && (calls[k].ClaimCall? || calls[k].RenewCall?)
            && row.leaseUntil == calls[k].now + calls[k].lease
            && forall l: nat :: k < l < m ==> !RenewsAt(calls, l, commandId, calls[i].uuid)
  }

  /**
   Claims of a command exclude one another: before a later one is granted, the lease of
   the earlier one, counted from its last renewal, has run out.
   */
  lemma {:induction false} GrantsExclude(calls: seq<Call>, i: nat, j: nat, commandId: string)
    requires i < j && GrantedAt(calls, i, commandId) && GrantedAt(calls, j, commandId)
    ensures exists m: nat :: i < m <= j && TakesOver(calls, i, m, commandId)
    decreases j
  {
    hide Step;
    if m: nat :| i < m < j && GrantedAt(calls, m, commandId) {
      GrantsExclude(calls, i, m, commandId);
    } else {
      GrantKeepsRow(calls, i, j, commandId);
      GrantStep(After(EMPTY, calls[..j]), calls[j]);
      var k := LeaseIsLast(calls, i, j, commandId);
      assert TakesOver(calls, i, j, commandId);
    }
  }

  /** A row stays with its payload, and a completed one as it is, however a run goes on. */
  lemma {:induction false} RowStays(calls: seq<Call>, n: nat, commandId: string)
    requires n <= |calls| && commandId in After(EMPTY, calls[..n]).commands
    ensures commandId in After(EMPTY, calls).commands
    ensures var row, later := After(EMPTY, calls[..n]).commands[commandId], After(EMPTY, calls).commands[commandId];
            later.fingerprint == row.fingerprint && (row.Completed? ==> later == row)
    decreases |calls|
  {
    hide Step;
    if n < |calls| {
      var before := calls[..|calls| - 1];
      assert before[..n] == calls[..n];
      RowStays(before, n, commandId);
      RowStep(After(EMPTY, before), calls[|calls| - 1], commandId);
    } else {
      assert calls[..n] == calls;
    }
  }
}
