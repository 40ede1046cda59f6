/**
 The source-preserving endpoint cutover of a restore and its rollback, for one job.
 Database batches are atomic and may lose their response; DNS provider records are
 transferred one at a time.  Record `i` of the provider is the one named by row `i`.
 */
module EndpointCutover {
  import opened Faults
  import opened Prelude
  import opened Slashes

  type pos = x: int | x > 0 witness 1

  datatype RecordType = TypeA | TypeAAAA

  /** Who owns an endpoint name and what it resolves to. */
  datatype Endpoint = Endpoint(owner: string, content: string)

  /** A row of `dns_records`; `direct` says that it is an active, direct record with a provider identity. */
  datatype Row = Row(at: Endpoint, revision: pos, providerId: string, direct: bool)

  datatype ProviderRecord = ProviderRecord(id: string, at: Endpoint)

  datatype Transition = Transition(
    providerId: string, recordType: RecordType, source: Endpoint, sourceRevision: pos,
    target: Endpoint, targetRevision: pos)

  datatype Input = Input(effectId: string, sourceServer: string, targetServer: string, targetNode: string)

  datatype EffectState = EffectPlanned | EffectApplied | EffectRolledBack

  datatype Effect = Effect(
    identity: Input, targetDeployment: string, cutoverRevision: pos, transitions: seq<Transition>,
    state: EffectState, revision: pos)

  datatype Mark = Unmarked | MarkedApplied | MarkedRolledBack

  datatype EndpointReceipt = EndpointReceipt(effectId: string, targetServer: string, cutoverRevision: pos, rolledBack: bool)

  datatype RollbackRow = RollbackRow(
    rollbackId: string, cutoverId: string, cutoverRevision: pos, targetServer: string,
    cutoverWasApplied: bool, applied: bool, revision: pos)

  datatype Fence = Fence(rollbackId: string, cutoverId: string)

  /** The rest of the database, as far as planning looks at it. */
  datatype World = World(
    target: Option<Deployment>, sourceRunning: bool, targetHasLease: bool, targetContents: seq<string>)
  datatype Deployment = Deployment(id: string, running: bool, revision: pos)

  // --- record types ------------------------------------------------------------

  predicate Digit(c: char) {
    '0' <= c <= '9'
  }

  predicate HexOrColon(c: char) {
    Digit(c) || 'a' <= c <= 'f' || 'A' <= c <= 'F' || c == ':'
  }

  /** One to three digits, three times followed by a dot. */
  predicate Dotted(s: string, groups: nat) {
    if groups == 0 then 1 <= |s| <= 3 && forall c <- s :: Digit(c)
    else
      || (|s| >= 2 && Digit(s[0]) && s[1] == '.' && Dotted(s[2..], groups - 1))
      || (|s| >= 3 && Digit(s[0]) && Digit(s[1]) && s[2] == '.' && Dotted(s[3..], groups - 1))
      || (|s| >= 4 && Digit(s[0]) && Digit(s[1]) && Digit(s[2]) && s[3] == '.' && Dotted(s[4..], groups - 1))
  }

  function DirectType(content: string): Option<RecordType> {
    if Dotted(content, 3) then Some(TypeA)
    else if content != "" && (forall c <- content :: HexOrColon(c)) && ':' in content then Some(TypeAAAA)
    else None
  }

  /** One to three decimal digits. */
  predicate Octet(s: string) {
    1 <= |s| <= 3 && forall c <- s :: c in "0123456789"
  }

  /** Four groups of digits with dots between them. */
  ghost predicate FourOctets(s: string) {
    exists a: string, b: string, c: string, d: string ::
      Octet(a) && Octet(b) && Octet(c) && Octet(d) && s == a + "." + b + "." + c + "." + d
  }

  /** Hexadecimal digits and colons, with a colon among them. */
  predicate Colons(s: string) {
    ':' in s && forall c <- s :: c in "0123456789abcdefABCDEF:"
  }

  lemma {:induction false} DottedMeans(s: string, groups: nat) returns (parts: seq<string>)
    requires Dotted(s, groups)
    ensures |parts| == groups + 1 && (forall p <- parts :: Octet(p)) && s == Joined(parts, '.')
  {
    if groups == 0 {
      OctetDigits(s);
      return [s];
    }
    var n := if |s| >= 2 && Digit(s[0]) && s[1] == '.' && Dotted(s[2..], groups - 1) then 1
             else if |s| >= 3 && Digit(s[0]) && Digit(s[1]) && s[2] == '.' && Dotted(s[3..], groups - 1) then 2 else 3;
    var rest := DottedMeans(s[n + 1..], groups - 1);
    parts := [s[..n]] + rest;
    OctetDigits(s[..n]);
    assert parts[1..] == rest;
    assert s == s[..n] + "." + s[n + 1..];
  }

  lemma {:induction false} JoinedIsDotted(parts: seq<string>)
    requires parts != [] && forall p <- parts :: Octet(p)
    ensures Dotted(Joined(parts, '.'), |parts| - 1)
  {
    if |parts| > 1 {
      JoinedIsDotted(parts[1..]);
      OctetFirst(parts[0], Joined(parts[1..], '.'), |parts| - 1);
    } else {
      OctetDigits(parts[0]);
    }
  }

  lemma OctetDigits(p: string)
    ensures Octet(p) <==> 1 <= |p| <= 3 && forall k :: 0 <= k < |p| ==> Digit(p[k])
  {
    forall k | 0 <= k < |p|
      ensures p[k] in "0123456789" <==> Digit(p[k])
    {
      if Digit(p[k]) {
        assert "0123456789"[p[k] as int - '0' as int] == p[k];
      }
    }
  }

  lemma OctetFirst(p: string, rest: string, groups: nat)
    requires Octet(p) && groups > 0 && Dotted(rest, groups - 1)
    ensures Dotted(p + "." + rest, groups)
  {
    OctetDigits(p);
    var s, n := p + "." + rest, |p|;
    assert s[n + 1..] == rest && s[n] == '.';
    assert forall k :: 0 <= k < n ==> s[k] == p[k];
  }

  lemma DottedFour(content: string)
    ensures Dotted(content, 3) <==> FourOctets(content)
  {
    if Dotted(content, 3) {
      var parts := DottedMeans(content, 3);
      FourParts(parts);
      assert Octet(parts[0]) && Octet(parts[1]) && Octet(parts[2]) && Octet(parts[3]);
    }
    hide Dotted;
    if FourOctets(content) {
      var a: string, b: string, c: string, d: string :|
        Octet(a) && Octet(b) && Octet(c) && Octet(d) && content == a + "." + b + "." + c + "." + d;
      var parts := [a, b, c, d];
      FourParts(parts);
      JoinedIsDotted(parts);
      assert Joined(parts, '.') == content;
    }
  }

  lemma OctetsHaveDots(content: string)
    requires FourOctets(content)
    ensures '.' in content
  {
    var a: string, b: string, c: string, d: string :|
      Octet(a) && Octet(b) && Octet(c) && Octet(d) && content == a + "." + b + "." + c + "." + d;
    assert content[|a|] == '.';
  }

  lemma ColonsHaveNoDots(content: string)
    requires Colons(content)
    ensures '.' !in content
  {
  }

  /** A direct record is of type A for a dotted address, of type AAAA for one with colons, and there is no other. */
  lemma DirectTypeMeans(content: string)
    ensures DirectType(content) == Some(TypeA) <==> FourOctets(content)
    ensures DirectType(content) == Some(TypeAAAA) <==> Colons(content)
    ensures !(FourOctets(content) && Colons(content))
  {
    DottedFour(content);
    if FourOctets(content) {
      OctetsHaveDots(content);
    }
    if Colons(content) {
      ColonsHaveNoDots(content);
    }
    forall c <- content
      ensures c in "0123456789abcdefABCDEF:" <==> HexOrColon(c)
    {
      HexMeans(c);
    }
    hide Dotted, FourOctets, HexOrColon;
  }

  lemma HexMeans(c: char)
    ensures c in "0123456789abcdefABCDEF:" <==> HexOrColon(c)
  {
    var all := "0123456789abcdefABCDEF:";
    if '0' <= c <= '9' {
      assert all[c as int - '0' as int] == c;
    } else if 'a' <= c <= 'f' {
      assert all[10 + c as int - 'a' as int] == c;
    } else if 'A' <= c <= 'F' {
      assert all[16 + c as int - 'A' as int] == c;
    } else if c == ':' {
      assert all[22] == c;
    }
  }

  lemma FourParts(parts: seq<string>)
    requires |parts| == 4
    ensures Joined(parts, '.') == parts[0] + "." + parts[1] + "." + parts[2] + "." + parts[3]
  {
    assert parts[1..][1..] == parts[2..] && parts[2..][1..] == parts[3..];
    assert Joined(parts[3..], '.') == parts[3];
    assert Joined(parts[2..], '.') == parts[2] + "." + parts[3];
    assert Joined(parts[1..], '.') == parts[1] + "." + Joined(parts[2..], '.');
    assert Joined(parts[1..], '.') == parts[1] + "." + parts[2] + "." + parts[3];
  }

  // --- the plan ----------------------------------------------------------------

  /** The transition planned for a source row, if the row is eligible. */
  function TransitionOf(row: Row, targetServer: string, content: string): Option<Transition> {
    var recordType := DirectType(row.at.content);
    if !row.direct || row.providerId == "" || recordType.None? || recordType != DirectType(content) then None
    else Some(Transition(row.providerId, recordType.value, row.at, row.revision,
                         Endpoint(targetServer, content), row.revision + 1))
  }

  /** The transitions planned for the source rows in order, if every row is eligible. */
  function TransitionsOf(rows: seq<Row>, targetServer: string, content: string): Option<seq<Transition>> {
    if rows == [] then Some([])
    else
      var before := TransitionsOf(rows[..|rows| - 1], targetServer, content);
      var last := TransitionOf(rows[|rows| - 1], targetServer, content);
      if before.None? || last.None? then None else Some(before.value + [last.value])
  }

  /** Whether a plan may be made at all, apart from the source rows. */
  predicate Plannable(world: World, input: Input) {
    && world.target.Some? && world.target.value.running
    && world.sourceRunning
    && (input.sourceServer != input.targetServer ==>
          world.targetHasLease && |world.targetContents| == 1 && DirectType(world.targetContents[0]).Some?)
  }

  /** The transitions of a plan: none for a restore in place. */
  function PlanOf(rows: seq<Row>, world: World, input: Input): Option<seq<Transition>>
    requires Plannable(world, input)
  {
    if input.sourceServer == input.targetServer then Some([])
    else TransitionsOf(rows, input.targetServer, world.targetContents[0])
  }

  /** `t` moves a row that stands as `row` now. */
  predicate Moves(t: Transition, row: Row) {
    && t.source == row.at && t.sourceRevision == row.revision && t.providerId == row.providerId
    && t.targetRevision == t.sourceRevision + 1
    && t.target.owner != t.source.owner
  }

  predicate MovesAll(transitions: seq<Transition>, rows: seq<Row>) {
    && |transitions| <= |rows|
    && (transitions == [] || |transitions| == |rows|)
    && forall i :: 0 <= i < |transitions| ==> Moves(transitions[i], rows[i])
  }

  /** An active direct record with a provider identity, whose address is of the same kind as the target's. */
  ghost predicate Eligible(row: Row, content: string) {
    && row.direct && row.providerId != ""
    && ((FourOctets(row.at.content) && FourOctets(content)) || (Colons(row.at.content) && Colons(content)))
  }

  /** The transition takes this row to that address of the target server, one revision on. */
  ghost predicate Leads(t: Transition, row: Row, targetServer: string, content: string) {
    && t.source == row.at && t.sourceRevision == row.revision && t.providerId == row.providerId
    && t.target == Endpoint(targetServer, content) && t.targetRevision == row.revision + 1
    && (t.recordType == TypeA <==> FourOctets(content)) && (t.recordType == TypeAAAA <==> Colons(content))
  }

  /** Rows can be planned exactly if each of them is eligible, and every one of them then leads to the target's address. */
  lemma {:induction false} PlanMeans(rows: seq<Row>, targetServer: string, content: string)
    ensures TransitionsOf(rows, targetServer, content).Some? <==> forall i :: 0 <= i < |rows| ==> Eligible(rows[i], content)
    ensures TransitionsOf(rows, targetServer, content).Some? ==>
              var transitions := TransitionsOf(rows, targetServer, content).value;
              |transitions| == |rows| && forall i :: 0 <= i < |rows| ==> Leads(transitions[i], rows[i], targetServer, content)
  {
    hide Eligible, Leads, TransitionOf;
    if rows != [] {
      PlanMeans(rows[..|rows| - 1], targetServer, content);
      TransitionMeans(rows[|rows| - 1], targetServer, content);
    }
  }

  lemma TransitionMeans(row: Row, targetServer: string, content: string)
    ensures TransitionOf(row, targetServer, content).Some? <==> Eligible(row, content)
    ensures TransitionOf(row, targetServer, content).Some? ==>
              Leads(TransitionOf(row, targetServer, content).value, row, targetServer, content)
  {
    hide DirectType, FourOctets, Colons;
    DirectTypeMeans(row.at.content);
    DirectTypeMeans(content);
    TwoTypes(DirectType(row.at.content));
    TwoTypes(DirectType(content));
  }

  lemma TwoTypes(t: Option<RecordType>)
    ensures t == None || t == Some(TypeA) || t == Some(TypeAAAA)
  {
    if t.Some? {
      match t.value
      case TypeA =>
      case TypeAAAA =>
    }
  }

  lemma PlanMoves(rows: seq<Row>, server: string, targetServer: string, content: string)
    requires server != targetServer
    requires forall row <- rows :: row.at.owner == server
    requires TransitionsOf(rows, targetServer, content).Some?
    ensures |TransitionsOf(rows, targetServer, content).value| == |rows|
    ensures MovesAll(TransitionsOf(rows, targetServer, content).value, rows)
  {
    hide TransitionsOf, Eligible, FourOctets, Colons;
    PlanMeans(rows, targetServer, content);
  }

  // --- exact states ------------------------------------------------------------

  function AtTarget(row: Row, t: Transition): Row {
    row.(at := t.target, revision := t.targetRevision)
  }

  /** Owner and content of the source again, two revisions later. */
  function Returned(row: Row, t: Transition): Row {
    row.(at := t.source, revision := t.targetRevision + 1)
  }

  predicate RowsAtTarget(rows: seq<Row>, original: seq<Row>, transitions: seq<Transition>) {
    && |rows| == |original| && |transitions| <= |rows|
    && (forall i :: 0 <= i < |transitions| ==> rows[i] == AtTarget(original[i], transitions[i]))
    && rows[|transitions|..] == original[|transitions|..]
  }

  predicate RowsReturned(rows: seq<Row>, original: seq<Row>, transitions: seq<Transition>) {
    && |rows| == |original| && |transitions| <= |rows|
    && (forall i :: 0 <= i < |transitions| ==> rows[i] == Returned(original[i], transitions[i]))
    && rows[|transitions|..] == original[|transitions|..]
  }

  predicate ProviderAtTarget(provider: seq<ProviderRecord>, transitions: seq<Transition>) {
    |transitions| <= |provider| && forall i :: 0 <= i < |transitions| ==> provider[i].at == transitions[i].target
  }

  predicate ProviderAtSource(provider: seq<ProviderRecord>, transitions: seq<Transition>) {
    |transitions| <= |provider| && forall i :: 0 <= i < |transitions| ==> provider[i].at == transitions[i].source
  }

  predicate AllMarked(marks: seq<Mark>, transitions: seq<Transition>, mark: Mark) {
    |transitions| <= |marks| && forall i :: 0 <= i < |transitions| ==> marks[i] == mark
  }

  /** Every provider record still has its identity, and stands where it was, at its source or at its target. */
  predicate Within(provider: seq<ProviderRecord>, before: seq<ProviderRecord>, transitions: seq<Transition>) {
    && |provider| == |before| && |transitions| <= |provider|
    && (forall i :: 0 <= i < |provider| ==> provider[i].id == before[i].id)
    && (forall i :: 0 <= i < |transitions| ==>
          provider[i] == before[i] || provider[i].at == transitions[i].source || provider[i].at == transitions[i].target)
    && provider[|transitions|..] == before[|transitions|..]
  }

  /** A record is back at its source only if all records after it have been marked as rolled back. */
  predicate ReversedFromEnd(provider: seq<ProviderRecord>, marks: seq<Mark>, transitions: seq<Transition>) {
    && |transitions| <= |provider| == |marks|
    && forall i :: 0 <= i < |transitions| ==>
         || provider[i].at == transitions[i].target
         || (provider[i].at == transitions[i].source && forall j :: i < j < |transitions| ==> marks[j] == MarkedRolledBack)
  }

  /** Every record but possibly the last one is at its target; the last one is there, or back at its source. */
  predicate AtTargetButLast(provider: seq<ProviderRecord>, transitions: seq<Transition>) {
    && |transitions| <= |provider|
    && (forall i :: 0 <= i < |transitions| - 1 ==> provider[i].at == transitions[i].target)
    && (transitions != [] ==> LastAt(provider, transitions) || provider[|transitions| - 1].at == transitions[|transitions| - 1].source)
  }

  /** The last record is at its target. */
  predicate LastAt(provider: seq<ProviderRecord>, transitions: seq<Transition>)
    requires 0 < |transitions| <= |provider|
  {
    provider[|transitions| - 1].at == transitions[|transitions| - 1].target
  }

  class EndpointSaga {
    const faulty: bool
    const sourceServer: string
    var world: World
    var rows: seq<Row>
    var provider: seq<ProviderRecord>
    var effect: Option<Effect>
    var marks: seq<Mark>
    var receipt: Option<EndpointReceipt>
    var rollback: Option<RollbackRow>
    var fence: Option<Fence>
    var preCutover: Option<Input>
    /** What the database was when the effect was planned, and the target's address in it. */
    ghost var plannedIn: World
    ghost var address: string
    ghost const original: seq<Row>
    ghost const providerBefore: seq<ProviderRecord>

    constructor (faulty: bool, sourceServer: string, world: World, rows: seq<Row>, provider: seq<ProviderRecord>)
      requires |rows| == |provider| && forall row <- rows :: row.at.owner == sourceServer
      ensures Safe()
      ensures this.faulty == faulty && original == rows && providerBefore == provider && this.world == world
      ensures effect.None? && this.rows == rows && this.provider == provider && this.sourceServer == sourceServer
    {
      this.faulty, this.sourceServer, this.world := faulty, sourceServer, world;
      this.rows, this.provider := rows, provider;
      effect, receipt, rollback, fence, preCutover := None, None, None, None, None;
      marks := seq(|rows|, _ => Unmarked);
      original, providerBefore, plannedIn, address := rows, provider, world, "";
    }

    /** The rollback row belongs to this effect. */
    predicate Bound(r: RollbackRow, e: Effect) {
      && r.cutoverId == e.identity.effectId
      && r.cutoverRevision == e.cutoverRevision
      && r.targetServer == e.identity.targetServer
    }

    function ReceiptOf(e: Effect): EndpointReceipt {
      EndpointReceipt(e.identity.effectId, e.identity.targetServer, e.cutoverRevision, false)
    }

    /** A rollback of the committed cutover has begun. */
    predicate Reversing()
      reads this
    {
      rollback.Some? && rollback.value.cutoverWasApplied && !rollback.value.applied
    }

    /** What holds after every step of every run. */
    ghost predicate Safe()
      reads this
    {
      && |rows| == |original| == |provider| == |providerBefore| == |marks|
      && (forall row <- original :: row.at.owner == sourceServer)
      && match effect
         case None =>
           && rows == original && provider == providerBefore
           && receipt.None? && rollback.None? && fence.None?
         case Some(e) =>
           && MovesAll(e.transitions, original)
           && |e.transitions| == (if e.identity.sourceServer == sourceServer != e.identity.targetServer then |original| else 0)
           && (forall i :: 0 <= i < |e.transitions| ==> e.transitions[i].target == Endpoint(e.identity.targetServer, address))
           && (e.transitions != [] ==> plannedIn.targetContents == [address])
           && Within(provider, providerBefore, e.transitions)
           && (rollback.Some? ==> Bound(rollback.value, e))
           && match e.state
              case EffectPlanned =>
                && rows == original && receipt.None? && fence.None?
                && (rollback.Some? ==> !rollback.value.applied && !rollback.value.cutoverWasApplied)
              case EffectApplied =>
                && RowsAtTarget(rows, original, e.transitions)
                && receipt == Some(ReceiptOf(e)) && fence.None?
                && (rollback.Some? ==> !rollback.value.applied)
                && ReversedFromEnd(provider, marks, e.transitions)
                && (!Reversing() ==>
                      ProviderAtTarget(provider, e.transitions) && AllMarked(marks, e.transitions, MarkedApplied))
              case EffectRolledBack =>
                && rollback.Some? && rollback.value.applied
                && fence == Some(Fence(rollback.value.rollbackId, e.identity.effectId))
                && ProviderAtSource(provider, e.transitions) && AllMarked(marks, e.transitions, MarkedRolledBack)
                && if rollback.value.cutoverWasApplied
                   then receipt == Some(ReceiptOf(e).(rolledBack := true)) && RowsReturned(rows, original, e.transitions)
                   else receipt.None? && rows == original
    }

    /** The provider records may be moved: the cutover is not committed, or is being reversed. */
    ghost predicate Movable()
      reads this
    {
      effect.Some? && (effect.value.state.EffectPlanned? || (effect.value.state.EffectApplied? && Reversing()))
    }

    // --- steps -----------------------------------------------------------------

    method LoadEffect(faults: bool) returns (r: Result<Option<Effect>, Fault>)
      ensures r.Ok? ==> r.value == effect
      ensures !faults ==> r.Ok?
    {
      var o := Disturb(faults);
      r := if o.Fail? then Err(o.error) else Ok(effect);
    }

    /** Move the record of transition `i`: from the expected endpoint, or adopted where it already is. */
    method Transfer(i: nat, providerId: string, expected: Endpoint, next: Endpoint, faults: bool) returns (o: Outcome<Fault>)
      requires i < |provider|
      modifies `provider
      ensures provider == old(provider)
              || (old(provider[i].at) == expected && provider == old(provider)[i := ProviderRecord(old(provider[i].id), next)])
      ensures o.Pass? ==> provider[i].at == next && provider[i].id == providerId
      ensures !faults ==>
                (o.Pass? <==> && (old(provider[i].at) == expected || old(provider[i].at) == next)
                              && old(provider[i].id) == providerId)
    {
      o := Disturb(faults);
      if o.Fail? {
        return;
      }
      if provider[i].at != next {
        if provider[i].at != expected {
          return Fail(Refused);
        }
        provider := provider[i := ProviderRecord(provider[i].id, next)];
        o := Disturb(faults);
        if o.Fail? {
          return;
        }
      }
      if provider[i].id != providerId {
        return Fail(Refused);
      }
    }

    /** Write a provider receipt, ignore how that ended, and require the exact receipt to be there. */
    method PersistMark(i: nat, mark: Mark, faults: bool) returns (o: Outcome<Fault>)
      requires i < |marks|
      modifies `marks
      ensures marks == old(marks) || marks == old(marks)[i := mark]
      ensures o.Pass? ==> marks[i] == mark
      ensures !faults ==> o.Pass?
      // A receipt that was written is found, unless the process stops or cannot read it back.
      ensures o.Fail? && marks[i] == mark ==> o.error == Crashed || o.error == Unread
    {
      o := Disturb(faults);
      if o.Pass? {
        marks := marks[i := mark];
        o := Disturb(faults);
      }
      if o == Fail(Crashed) {
        return;
      }
      o := DisturbRead(faults);
      if o.Pass? && marks[i] != mark {
        o := Fail(Refused);
      }
    }

    // --- planning ----------------------------------------------------------------

    /** The source runs, the target runs and has one direct address, and every source row can be led there. */
    ghost predicate MayPlan(input: Input)
      reads `world, `rows
    {
      && world.target.Some? && world.target.value.running && world.sourceRunning
      && (input.sourceServer != input.targetServer ==>
            && world.targetHasLease && |world.targetContents| == 1
            && (FourOctets(world.targetContents[0]) || Colons(world.targetContents[0]))
            && forall i :: 0 <= i < |SourceRows(input)| ==> Eligible(SourceRows(input)[i], world.targetContents[0]))
    }

    /** The effect is the plan of the current rows for the current target. */
    ghost predicate NewPlan(e: Effect, input: Input)
      reads `world, `rows, `address
    {
      && e.identity == input && e.state.EffectPlanned? && e.revision == 1
      && world.target.Some? && e.targetDeployment == world.target.value.id && e.cutoverRevision == world.target.value.revision
      && (input.sourceServer == input.targetServer ==> e.transitions == [])
      && (input.sourceServer != input.targetServer ==>
            && world.targetContents == [address]
            && |e.transitions| == |SourceRows(input)|
            && forall i :: 0 <= i < |e.transitions| ==> Leads(e.transitions[i], SourceRows(input)[i], input.targetServer, address))
    }

    lemma PlanIsAllowed(input: Input)
      ensures Plannable(world, input) && PlanOf(SourceRows(input), world, input).Some? <==> MayPlan(input)
    {
      hide DirectType, TransitionsOf, Eligible, FourOctets, Colons;
      if input.sourceServer != input.targetServer && |world.targetContents| == 1 {
        DirectTypeMeans(world.targetContents[0]);
        TwoTypes(DirectType(world.targetContents[0]));
        PlanMeans(SourceRows(input), input.targetServer, world.targetContents[0]);
      }
    }

    /** The immutable effect of the job: the one on record, or a new plan of the current rows. */
    method PlanEffect(input: Input) returns (r: Result<Effect, Fault>)
      requires Safe()
      modifies `effect, `plannedIn, `address
      ensures Safe()
      // A new plan leads every source row to the target's one address, and a restore in place moves none.
      ensures old(effect.None?) && effect.Some? ==> NewPlan(effect.value, input)
      ensures !faulty && old(effect.None?) ==> (r.Ok? <==> MayPlan(input))
      ensures if old(effect.Some?) then plannedIn == old(plannedIn) && address == old(address) else effect.Some? ==> plannedIn == world
      ensures r.Ok? ==> effect == Some(r.value) && r.value.identity == input
      ensures old(effect.Some?) ==>
                effect == old(effect) && (!faulty ==> (r.Ok? <==> old(effect.value.identity) == input))
      ensures effect.Some? ==> effect == old(effect) || effect.value.state.EffectPlanned?
      ensures old(effect.None?) && effect.Some? ==>
                && effect.value.identity == input
                && Plannable(world, input) && PlanOf(SourceRows(input), world, input) == Some(effect.value.transitions)
      ensures !faulty && old(effect.None?) ==>
                (r.Ok? <==> Plannable(world, input) && PlanOf(SourceRows(input), world, input).Some?)
    {
      hide TransitionsOf, DirectType, RowsAtTarget, RowsReturned, FourOctets, Colons, Eligible, MayPlan;
      hide ReversedFromEnd, AllMarked, ProviderAtTarget, ProviderAtSource, Bound;
      PlanIsAllowed(input);
      var existing := LoadEffect(faulty);
      if existing.Err? {
        return Err(existing.error);
      }
      if existing.value.Some? {
        return if existing.value.value.identity != input then Err(Refused) else Ok(existing.value.value);
      }
      var o := Disturb(faulty);
      if o.Fail? {
        return Err(o.error);
      }
      if !Plannable(world, input) {
        return Err(Refused);
      }
      var plan := ComputePlan(input);
      if plan.None? {
        return Err(Refused);
      }
      var transitions := plan.value;
      if input.sourceServer != input.targetServer {
        PlanMoves(SourceRows(input), input.sourceServer, input.targetServer, world.targetContents[0]);
        PlanMeans(SourceRows(input), input.targetServer, world.targetContents[0]);
      }
      var planned := Effect(input, world.target.value.id, world.target.value.revision, transitions, EffectPlanned, 1);
      o := InsertEffect(planned, if input.sourceServer != input.targetServer then world.targetContents[0] else address);
      r := if o.Pass? then Ok(planned) else Err(o.error);
    }

    /** Insert the new plan, and adopt it however the write ended. */
    method InsertEffect(planned: Effect, ghost content: string) returns (o: Outcome<Fault>)
      requires Safe() && effect.None? && planned.state.EffectPlanned? && MovesAll(planned.transitions, original)
      requires |planned.transitions| == (if planned.identity.sourceServer == sourceServer != planned.identity.targetServer
                                         then |original| else 0)
      requires forall t <- planned.transitions :: t.target == Endpoint(planned.identity.targetServer, content)
      requires planned.transitions != [] ==> world.targetContents == [content]
      modifies `effect, `plannedIn, `address
      ensures Safe()
      ensures (effect == old(effect) && plannedIn == old(plannedIn) && address == old(address))
              || (effect == Some(planned) && plannedIn == world && address == content)
      ensures o.Pass? ==> effect == Some(planned)
      ensures !faulty ==> o.Pass?
      // A plan that was stored is found, unless the process stops or cannot read it back.
      ensures o.Fail? && effect == Some(planned) ==> o.error == Crashed || o.error == Unread
    {
      hide RowsAtTarget, RowsReturned;
      o := Disturb(faulty);
      if o.Pass? {
        effect := Some(planned);
        plannedIn, address := world, content;
        o := Disturb(faulty);
      }
      if o == Fail(Crashed) {
        return;
      }
      o := DisturbRead(faulty);
      if o.Pass? && effect != Some(planned) {
        o := Fail(Refused);
      }
    }

    /** One transition for each source row, or none if a row is not eligible. */
    method ComputePlan(input: Input) returns (plan: Option<seq<Transition>>)
      requires Plannable(world, input)
      ensures plan == PlanOf(SourceRows(input), world, input)
    {
      if input.sourceServer == input.targetServer {
        return Some([]);
      }
      var source, content := SourceRows(input), world.targetContents[0];
      var transitions := [];
      for i := 0 to |source|
        invariant TransitionsOf(source[..i], input.targetServer, content) == Some(transitions)
      {
        assert source[..i + 1][..i] == source[..i];
        var t := TransitionOf(source[i], input.targetServer, content);
        if t.None? {
          NoPlan(source, i, input.targetServer, content);
          return None;
        }
        transitions := transitions + [t.value];
      }
      assert source[..|source|] == source;
      plan := Some(transitions);
    }

    /** The active rows of the server named as the source. */
    function SourceRows(input: Input): seq<Row>
      reads `rows
    {
      if input.sourceServer == sourceServer then rows else []
    }

    /** One ineligible row spoils every longer plan. */
    lemma {:induction false} NoPlan(source: seq<Row>, i: nat, targetServer: string, content: string)
      requires i < |source| && TransitionOf(source[i], targetServer, content).None?
      ensures TransitionsOf(source, targetServer, content).None?
    {
      if i < |source| - 1 {
        NoPlan(source[..|source| - 1], i, targetServer, content);
      }
    }

    // --- moving the provider ---------------------------------------------------

    /** Transfer one record to its target, and store its receipt. */
    method ForwardOne(e: Effect, i: nat) returns (o: Outcome<Fault>)
      requires Safe() && effect == Some(e) && e.state.EffectPlanned?
      requires i < |e.transitions| <= |provider| == |marks|
      modifies `provider, `marks
      ensures Safe() && |provider| == |old(provider)| == |marks|
      ensures provider == old(provider) || provider == old(provider)[i := ProviderRecord(old(provider)[i].id, e.transitions[i].target)]
      ensures marks == old(marks) || marks == old(marks)[i := MarkedApplied]
      ensures InStepAt(provider, e.transitions, i) == InStepAt(old(provider), e.transitions, i)
      ensures o.Pass? ==>
                && provider[i].at == e.transitions[i].target && marks[i] == MarkedApplied
                && InStepAt(old(provider), e.transitions, i)
      ensures !faulty ==> (o.Pass? <==> InStepAt(old(provider), e.transitions, i))
    {
      hide RowsAtTarget, RowsReturned, MovesAll, DirectType;
      var t := e.transitions[i];
      o := Transfer(i, t.providerId, t.source, t.target, faulty);
      if o.Pass? {
        o := PersistMark(i, MarkedApplied, faulty);
      }
    }

    /** Transfer every record to its target, in order, with a receipt for each. */
    method Forward(e: Effect) returns (o: Outcome<Fault>)
      requires Safe() && effect == Some(e) && e.state.EffectPlanned?
      modifies `provider, `marks
      ensures Safe() && |provider| == |old(provider)|
      ensures InStep(provider, e.transitions) == InStep(old(provider), e.transitions)
      ensures o.Pass? ==>
                ProviderAtTarget(provider, e.transitions) && AllMarked(marks, e.transitions, MarkedApplied)
      ensures !faulty && InStep(old(provider), e.transitions) ==> o.Pass?
      // The first record out of step stops it, with the records before it moved.
      ensures !faulty ==> forall k: nat :: FirstOutOfStep(old(provider), e.transitions, k) ==>
                && o.Fail? && |e.transitions| <= |provider| && !InStepAt(provider, e.transitions, k)
                && forall i :: 0 <= i < k ==> provider[i].at == e.transitions[i].target
    {
      hide Safe, InStepAt;
      Shape(e);
      o := Pass;
      for i := 0 to |e.transitions|
        invariant Safe() && o.Pass? && |provider| == |old(provider)| == |marks|
        invariant forall k: nat :: k < i ==> InStepAt(old(provider), e.transitions, k) && InStepAt(provider, e.transitions, k)
        invariant ProviderAtTarget(provider, e.transitions[..i]) && AllMarked(marks, e.transitions[..i], MarkedApplied)
        invariant forall k :: i <= k < |provider| ==> provider[k] == old(provider)[k]
      {
        ghost var was := provider;
        o := ForwardOne(e, i);
        SameStep(old(provider), was, e.transitions, i);
        KeptSteps(was, provider, e.transitions, i);
        SameSteps(old(provider), provider, e.transitions, i);
        if o.Fail? {
          return;
        }
      }
      assert e.transitions[..|e.transitions|] == e.transitions;
    }

    /** Transfer one record back to its source, and store its receipt. */
    method ReverseOne(e: Effect, i: nat, faults: bool) returns (o: Outcome<Fault>)
      requires Safe() && effect == Some(e) && Movable()
      requires i < |e.transitions| <= |provider| == |marks|
      requires forall k :: i < k < |e.transitions| ==> provider[k].at == e.transitions[k].source && marks[k] == MarkedRolledBack
      modifies `provider, `marks
      ensures Safe() && |provider| == |old(provider)| == |marks|
      ensures provider == old(provider) || provider == old(provider)[i := ProviderRecord(old(provider)[i].id, e.transitions[i].source)]
      ensures marks == old(marks) || marks == old(marks)[i := MarkedRolledBack]
      ensures o.Pass? ==>
                && provider[i].at == e.transitions[i].source && marks[i] == MarkedRolledBack
                && InStepAt(old(provider), e.transitions, i)
      ensures !faults ==> (o.Pass? <==> InStepAt(old(provider), e.transitions, i))
    {
      hide RowsAtTarget, RowsReturned, MovesAll, DirectType;
      var t := e.transitions[i];
      o := Transfer(i, t.providerId, t.target, t.source, faults);
      if o.Pass? {
        o := PersistMark(i, MarkedRolledBack, faults);
      }
    }

    /** Transfer every record back to its source, last one first, with a receipt for each. */
    method Reverse(e: Effect, faults: bool) returns (o: Outcome<Fault>)
      requires Safe() && effect == Some(e) && Movable()
      modifies `provider, `marks
      ensures Safe() && |provider| == |old(provider)|
      ensures o.Pass? ==>
                ProviderAtSource(provider, e.transitions) && AllMarked(marks, e.transitions, MarkedRolledBack)
      // From any mixture of sources and targets it succeeds, unless a step fails.
      ensures !faults && InStep(old(provider), e.transitions) ==> o.Pass?
      // A record out of step stops it, with every record before that one where it was.
      ensures forall k: nat ::
                k < |e.transitions| && |e.transitions| <= |old(provider)| && !InStepAt(old(provider), e.transitions, k) ==>
                  o.Fail? && provider[..k] == old(provider)[..k]
    {
      hide Safe, InStepAt;
      Shape(e);
      o := Pass;
      for i := |e.transitions| downto 0
        invariant Safe() && o.Pass? && |provider| == |old(provider)| == |marks|
        invariant forall k :: i <= k < |e.transitions| ==>
                    provider[k].at == e.transitions[k].source && marks[k] == MarkedRolledBack
        invariant forall k :: 0 <= k < i ==> provider[k] == old(provider)[k]
        invariant forall k: nat :: i <= k < |e.transitions| ==> InStepAt(old(provider), e.transitions, k)
      {
        SameStep(old(provider), provider, e.transitions, i);
        o := ReverseOne(e, i, faults);
        if o.Fail? {
          return;
        }
      }
    }

    // --- batches -----------------------------------------------------------------

    /** Move the rows, record the endpoint receipt and mark the effect applied, all or nothing. */
    method CutoverBatch(e: Effect) returns (o: Outcome<Fault>)
      requires Safe() && effect == Some(e) && e.state.EffectPlanned?
      requires ProviderAtTarget(provider, e.transitions) && AllMarked(marks, e.transitions, MarkedApplied)
      modifies `rows, `receipt, `effect
      ensures Safe()
      ensures o.Pass? ==> effect == Some(AppliedOf(e))
      ensures effect == Some(AppliedOf(e)) || (effect == old(effect) && rows == old(rows) && receipt == old(receipt))
      ensures effect != old(effect) ==>
                && effect == Some(e.(state := EffectApplied, revision := e.revision + 1))
                && receipt == Some(EndpointReceipt(e.identity.effectId, e.identity.targetServer, e.cutoverRevision, false))
      ensures !faulty ==> o.Pass?
    {
      o := Disturb(faulty);
      if o.Fail? {
        return;
      }
      var next := rows;
      for i := 0 to |e.transitions|
        invariant |next| == |rows|
        invariant forall k :: 0 <= k < i ==> next[k] == AtTarget(rows[k], e.transitions[k])
        invariant next[i..] == rows[i..]
      {
        var t := e.transitions[i];
        if next[i].at == t.source && next[i].providerId == t.providerId && next[i].revision == t.sourceRevision {
          next := next[i := AtTarget(next[i], t)];
        }
      }
      if receipt.Some? || !AllMarked(marks, e.transitions, MarkedApplied) || !AllRowsAt(next, e.transitions) {
        return Fail(Refused);
      }
      rows, receipt, effect := next, Some(ReceiptOf(e)), Some(AppliedOf(e));
      o := Disturb(faulty);
    }

    function AppliedOf(e: Effect): Effect {
      e.(state := EffectApplied, revision := e.revision + 1)
    }

    function RolledBackOf(e: Effect): Effect {
      e.(state := EffectRolledBack, revision := e.revision + 1)
    }

    /** The row condition of the receipt guard. */
    predicate AllRowsAt(rows: seq<Row>, transitions: seq<Transition>)
      requires |transitions| <= |rows|
    {
      forall i :: 0 <= i < |transitions| ==>
        && rows[i].at == transitions[i].target
        && rows[i].providerId == transitions[i].providerId
        && rows[i].revision == transitions[i].targetRevision
    }

    /** The row condition of the rollback fence guard. */
    predicate AllRowsBack(rows: seq<Row>, transitions: seq<Transition>, wasApplied: bool)
      requires |transitions| <= |rows|
    {
      forall i :: 0 <= i < |transitions| ==>
        && rows[i].at == transitions[i].source
        && rows[i].providerId == transitions[i].providerId
        && rows[i].revision == if wasApplied then transitions[i].targetRevision + 1 else transitions[i].sourceRevision
    }

    /** Return the rows, close the receipt, the effect and the rollback, and write the fence, all or nothing. */
    method RollbackBatch(e: Effect, r: RollbackRow) returns (o: Outcome<Fault>)
      requires Safe() && effect == Some(e) && Movable() && rollback == Some(r)
      requires r.cutoverWasApplied == receipt.Some?
      requires ProviderAtSource(provider, e.transitions) && AllMarked(marks, e.transitions, MarkedRolledBack)
      modifies `rows, `receipt, `effect, `rollback, `fence
      ensures Safe()
      ensures o.Pass? ==> effect == Some(RolledBackOf(e))
      ensures effect == Some(RolledBackOf(e))
              || (effect == old(effect) && rows == old(rows) && receipt == old(receipt)
                  && rollback == old(rollback) && fence == old(fence))
      ensures rollback.Some? && rollback.value.rollbackId == r.rollbackId
      ensures rollback.value.cutoverWasApplied == r.cutoverWasApplied
      ensures effect != old(effect) ==> effect == Some(e.(state := EffectRolledBack, revision := e.revision + 1))
      ensures effect == Some(RolledBackOf(e)) ==>
                && rollback == Some(r.(applied := true, revision := r.revision + 1))
                && fence == Some(Fence(r.rollbackId, e.identity.effectId))
                && (receipt.Some? <==> old(receipt).Some?)
                && (receipt.Some? ==> receipt.value == old(receipt).value.(rolledBack := true))
      ensures !faulty ==> o.Pass?
    {
      hide Leads, FourOctets, Colons, DirectType, ReversedFromEnd;
      o := Disturb(faulty);
      if o.Fail? {
        return;
      }
      var next := rows;
      if r.cutoverWasApplied {
        next := RowsBack(e);
      }
      if fence.Some? || !AllMarked(marks, e.transitions, MarkedRolledBack)
         || !AllRowsBack(next, e.transitions, r.cutoverWasApplied) {
        return Fail(Refused);
      }
      rows, effect := next, Some(RolledBackOf(e));
      receipt := if receipt.Some? then Some(receipt.value.(rolledBack := true)) else None;
      rollback := Some(r.(applied := true, revision := r.revision + 1));
      fence := Some(Fence(r.rollbackId, e.identity.effectId));
      o := Disturb(faulty);
    }

    /** The rows with every transferred one returned to its source. */
    method RowsBack(e: Effect) returns (next: seq<Row>)
      requires Safe() && effect == Some(e) && e.state.EffectApplied?
      ensures RowsReturned(next, original, e.transitions)
    {
      next := rows;
      for i := 0 to |e.transitions|
        invariant |next| == |rows|
        invariant forall k :: 0 <= k < i ==> next[k] == Returned(original[k], e.transitions[k])
        invariant next[i..] == rows[i..]
      {
        var t := e.transitions[i];
        assert next[i] == next[i..][0] == rows[i..][0] == rows[i];
        if next[i].at == t.target && next[i].providerId == t.providerId && next[i].revision == t.targetRevision {
          next := next[i := next[i].(at := t.source, revision := t.targetRevision + 1)];
        }
      }
    }

    // --- reading back ------------------------------------------------------------

    /** Whether receipt, rows and provider receipts are all those of the committed cutover. */
    predicate AppliedExact(e: Effect)
      requires |e.transitions| <= |rows| && |e.transitions| <= |marks|
      reads this
    {
      && receipt == Some(ReceiptOf(e))
      && AllRowsAt(rows, e.transitions)
      && AllMarked(marks, e.transitions, MarkedApplied)
    }

    method AppliedCutoverIsExact(e: Effect, faults: bool) returns (r: Result<bool, Fault>)
      requires |e.transitions| <= |rows| && |e.transitions| <= |marks|
      ensures r.Ok? ==> r.value == AppliedExact(e)
      ensures !faults ==> r.Ok?
    {
      var o := Disturb(faults);
      if o.Fail? {
        return Err(o.error);
      }
      if receipt != Some(ReceiptOf(e)) {
        return Ok(false);
      }
      for i := 0 to |e.transitions|
        invariant forall k :: 0 <= k < i ==>
                    && rows[k].at == e.transitions[k].target
                    && rows[k].providerId == e.transitions[k].providerId
                    && rows[k].revision == e.transitions[k].targetRevision
                    && marks[k] == MarkedApplied
      {
        o := Disturb(faults);
        if o.Fail? {
          return Err(o.error);
        }
        var t := e.transitions[i];
        if rows[i].at != t.target || rows[i].providerId != t.providerId || rows[i].revision != t.targetRevision
           || marks[i] != MarkedApplied {
          return Ok(false);
        }
      }
      r := Ok(true);
    }

    predicate RolledBackExact(rollbackId: string, e: Effect)
      requires |e.transitions| <= |rows| && |e.transitions| <= |marks|
      reads this
    {
      && fence == Some(Fence(rollbackId, e.identity.effectId))
      && (forall i :: 0 <= i < |e.transitions| ==>
            && rows[i].at == e.transitions[i].source
            && rows[i].providerId == e.transitions[i].providerId
            && (rows[i].revision == e.transitions[i].sourceRevision
                || rows[i].revision == e.transitions[i].targetRevision + 1)
            && marks[i] == MarkedRolledBack)
    }

    method RolledBackCutoverIsExact(rollbackId: string, e: Effect) returns (r: Result<bool, Fault>)
      requires |e.transitions| <= |rows| && |e.transitions| <= |marks|
      ensures r.Ok? ==> r.value == RolledBackExact(rollbackId, e)
      ensures !faulty ==> r.Ok?
    {
      var o := Disturb(faulty);
      if o.Fail? {
        return Err(o.error);
      }
      if fence != Some(Fence(rollbackId, e.identity.effectId)) {
        return Ok(false);
      }
      for i := 0 to |e.transitions|
        invariant forall k :: 0 <= k < i ==>
                    && rows[k].at == e.transitions[k].source
                    && rows[k].providerId == e.transitions[k].providerId
                    && (rows[k].revision == e.transitions[k].sourceRevision
                        || rows[k].revision == e.transitions[k].targetRevision + 1)
                    && marks[k] == MarkedRolledBack
      {
        o := Disturb(faulty);
        if o.Fail? {
          return Err(o.error);
        }
        var t := e.transitions[i];
        if rows[i].at != t.source || rows[i].providerId != t.providerId
           || (rows[i].revision != t.sourceRevision && rows[i].revision != t.targetRevision + 1)
           || marks[i] != MarkedRolledBack {
          return Ok(false);
        }
      }
      r := Ok(true);
    }

    // --- cutover -----------------------------------------------------------------

    /** Rows, receipts and provider records are all at the target of the job's effect. */
    ghost predicate CutOver(input: Input)
      reads this
    {
      && effect.Some? && effect.value.identity == input && effect.value.state.EffectApplied?
      && |rows| == |original| == |marks| == |provider|
      && RowsAtTarget(rows, original, effect.value.transitions)
      && receipt == Some(ReceiptOf(effect.value))
      && AllMarked(marks, effect.value.transitions, MarkedApplied)
      && (forall i :: 0 <= i < |effect.value.transitions| ==>
            effect.value.transitions[i].target == Endpoint(input.targetServer, address))
      && AtTargetButLast(provider, effect.value.transitions)
      && (!Reversing() ==> ProviderAtTarget(provider, effect.value.transitions))
    }

    /** The database shows an exact applied cutover. */
    predicate Shown()
      reads this
    {
      && effect.Some? && |effect.value.transitions| <= |rows| && |effect.value.transitions| <= |marks|
      && AppliedExact(effect.value)
    }

    /**
     Plan the cutover of a job, or adopt its plan, and apply it.  `begun` says whether the
     transfers were begun, and `undone` whether they were taken back.
     */
    method Apply(input: Input, shaky: bool) returns (o: Outcome<Fault>, ghost begun: bool, ghost undone: bool)
      requires Safe()
      modifies this
      ensures Safe() && rollback == old(rollback) && world == old(world)
      ensures o.Pass? ==> CutOver(input)
      ensures old(effect.Some?) ==>
                effect.Some? && effect.value.(state := EffectPlanned, revision := 1) == old(effect.value).(state := EffectPlanned, revision := 1)
      // Until the transfers are begun nothing is touched.
      ensures begun ==> effect.Some? && effect.value.identity == input && (old(effect.None?) || old(effect.value.state.EffectPlanned?))
      ensures !begun ==> provider == old(provider) && marks == old(marks) && rows == old(rows) && receipt == old(receipt)
      // An undo takes back every transfer, and nothing was committed.
      ensures undone ==>
                begun && o.Fail? && effect.value.state.EffectPlanned? && rows == old(rows) && TakenBack(effect.value)
      // A begun cutover that fails, and is not cut short, is undone exactly if every record was in step.
      ensures begun && !(faulty && shaky) && o.Fail? && o.error != Crashed ==>
                effect.value.state.EffectPlanned? && (undone <==> InStep(old(provider), effect.value.transitions))
      // A cutover that was rolled back is never applied again.
      ensures old(effect.Some? && effect.value.state.EffectRolledBack?) ==>
                o.Fail? && effect == old(effect) && rows == old(rows) && provider == old(provider)
      // A first cutover plans exactly what the rows and the rest of the database allow: every row to the target's address.
      ensures old(effect.None?) && effect.Some? ==>
                (input.sourceServer != input.targetServer ==> world.targetContents == [address])
      ensures if old(effect.Some?) then plannedIn == old(plannedIn) && address == old(address) else effect.Some? ==> plannedIn == world
      ensures !faulty && old(effect.None?) ==> (effect.Some? <==> old(MayPlan(input)))
      ensures old(effect.None?) && effect.Some? ==>
                && effect.value.identity == input
                && Plannable(world, input) && old(PlanOf(SourceRows(input), world, input)) == Some(effect.value.transitions)
      ensures !faulty && old(effect.None?) ==>
                (effect.Some? <==> Plannable(world, input) && old(PlanOf(SourceRows(input), world, input)).Some?)
      // Unless its rollback is under way, success means that every record is at its target.
      ensures o.Pass? && !Reversing() ==> ProviderAtTarget(provider, effect.value.transitions)
      // A repeated cutover succeeds on what the database shows, without looking at the provider.
      ensures !faulty && old(effect.Some? && effect.value.state.EffectApplied?) && old(effect.value.identity) == input ==>
                effect == old(effect) && provider == old(provider) && (old(Shown()) <==> o.Pass?)
      // Without faults a plan succeeds exactly if every record is in step with it.
      ensures !faulty && effect.Some? && effect.value.identity == input && (old(effect.None?) || old(effect.value.state.EffectPlanned?)) ==>
                (o.Pass? <==> InStep(old(provider), effect.value.transitions))
      // Otherwise the undo stops too: the records before the first one out of step stay at the target.
      ensures !faulty && effect.Some? && effect.value.identity == input && (old(effect.None?) || old(effect.value.state.EffectPlanned?)) ==>
                forall k: nat :: FirstOutOfStep(old(provider), effect.value.transitions, k) ==>
                  && effect.value.state.EffectPlanned? && |provider| == |old(provider)|
                  && forall i :: 0 <= i < k ==> provider[i].at == effect.value.transitions[i].target
    {
      PlanIsAllowed(input);
      hide MayPlan, Leads, FourOctets, Colons;
      begun, undone := false, false;
      var planned := PlanEffect(input);
      if planned.Err? {
        return Fail(planned.error), begun, undone;
      }
      var e := planned.value;
      if e.state.EffectRolledBack? {
        return Fail(Refused), begun, undone;
      }
      if e.state.EffectApplied? {
        var exact := AppliedCutoverIsExact(e, faulty);
        if exact.Err? {
          return Fail(exact.error), begun, undone;
        }
        ExactIsCutOver(e);
        return if exact.value then Pass else Fail(Refused), begun, undone;
      }
      begun := true;
      o, undone := ApplyPlanned(e, shaky);
    }

    /** Everything the exact applied state shows, from what holds anyway. */
    lemma ExactIsCutOver(e: Effect)
      requires Safe() && effect == Some(e) && e.state.EffectApplied?
      ensures |e.transitions| <= |rows| && |e.transitions| <= |marks|
      ensures AppliedExact(e) ==> CutOver(e.identity)
      ensures !Reversing() ==> AppliedExact(e)
    {
      if AppliedExact(e) && e.transitions != [] {
        assert marks[|e.transitions| - 1] == MarkedApplied;
      }
    }

    /**
     Transfer, commit, and undo the transfers if the commit did not happen; `shaky` says
     whether faults may hit the undo, and `undone` whether it succeeded.
     */
    method ApplyPlanned(e: Effect, shaky: bool) returns (o: Outcome<Fault>, ghost undone: bool)
      requires Safe() && effect == Some(e) && e.state.EffectPlanned?
      modifies this
      ensures Safe() && rollback == old(rollback) && world == old(world) && plannedIn == old(plannedIn) && address == old(address)
      ensures effect == Some(e) || effect == Some(AppliedOf(e))
      ensures o.Pass? ==> CutOver(e.identity)
      // An undo takes back every transfer and nothing was committed.
      ensures undone ==> o.Fail? && effect == Some(e) && rows == old(rows) && TakenBack(e)
      // A cutover that fails, and is not cut short, is undone exactly if every record was in step.
      ensures !(faulty && shaky) && o.Fail? && o.error != Crashed ==>
                effect == Some(e) && (undone <==> InStep(old(provider), e.transitions))
      ensures !faulty ==> (o.Pass? <==> InStep(old(provider), e.transitions))
      ensures !faulty ==> forall k: nat :: FirstOutOfStep(old(provider), e.transitions, k) ==>
                && effect == Some(e) && |provider| == |old(provider)|
                && forall i :: 0 <= i < k ==> provider[i].at == e.transitions[i].target
    {
      hide Safe, RowsAtTarget, RowsReturned, MovesAll, DirectType, InStepAt, Plannable, AppliedExact, AllRowsAt, Bound, Within;
      undone := false;
      Shape(e);
      FirstExists(provider, e.transitions);
      o := Forward(e);
      if o.Pass? {
        o := CutoverBatch(e);
      }
      if o.Pass? {
        ExactIsCutOver(AppliedOf(e));
        return;
      }
      if o.error == Crashed {
        return;
      }
      var reread := LoadEffect(faulty && shaky);
      if reread.Err? {
        return Fail(reread.error), undone;
      }
      if reread.value.Some? && reread.value.value.state.EffectApplied? && reread.value.value.identity == e.identity {
        ExactIsCutOver(reread.value.value);
        var exact := AppliedCutoverIsExact(reread.value.value, faulty && shaky);
        if exact.Err? {
          return Fail(exact.error), undone;
        }
        if exact.value {
          return Pass, undone;
        }
      }
      NotReversing(e);
      FirstExists(provider, e.transitions);
      var reversed := Reverse(e, faulty && shaky);
      undone := reversed.Pass?;
      if reversed.Fail? {
        o := reversed;
      }
    }

    /** Every record of the plan is back at its source, and marked so. */
    ghost predicate TakenBack(e: Effect)
      reads this
    {
      ProviderAtSource(provider, e.transitions) && AllMarked(marks, e.transitions, MarkedRolledBack)
    }

    lemma Shape(e: Effect)
      requires Safe() && effect == Some(e)
      ensures |e.transitions| <= |rows| == |provider| == |marks|
      ensures e.state.EffectPlanned? ==> !Reversing() && Movable()
    {
    }

    /** Unless the commit happened, the effect is still planned. */
    lemma NotReversing(e: Effect)
      requires Safe() && effect == Some(e) && e.state.EffectPlanned?
      ensures Movable()
    {
    }

    // --- rollback ----------------------------------------------------------------

    /** Rows, receipts and provider records are back at the source of the job's effect. */
    ghost predicate BackAtSource(rollbackId: string)
      reads this
    {
      && effect.Some? && effect.value.state.EffectRolledBack?
      && fence == Some(Fence(rollbackId, effect.value.identity.effectId))
      && ProviderAtSource(provider, effect.value.transitions)
      && AllMarked(marks, effect.value.transitions, MarkedRolledBack)
      && if receipt.Some? then RowsReturned(rows, original, effect.value.transitions) else rows == original
    }

    /** The rollback on record, if any, is this one, and was planned knowing whether the cutover is committed. */
    predicate Undoable(input: Input)
      reads this
    {
      rollback.Some? ==>
        rollback.value.rollbackId == input.effectId && rollback.value.cutoverWasApplied == receipt.Some?
    }

    /** The cutover was committed after its rollback had been planned as that of an uncommitted one. */
    predicate Stuck()
      reads this
    {
      effect.Some? && effect.value.state.EffectApplied? && rollback.Some? && !rollback.value.cutoverWasApplied
    }

    /** The planned rollback of the current effect: the one on record, or a new one. */
    method PlanRollback(e: Effect, input: Input) returns (r: Result<RollbackRow, Fault>)
      requires Safe() && effect == Some(e)
      modifies `rollback
      ensures Safe()
      ensures r.Ok? ==>
                && rollback == Some(r.value) && r.value.rollbackId == input.effectId && !r.value.applied
                && r.value.cutoverWasApplied == receipt.Some? && Movable()
                && r.value.cutoverId == e.identity.effectId && r.value.targetServer == e.identity.targetServer
      ensures old(rollback.Some?) ==> rollback == old(rollback)
      ensures old(rollback.None?) && rollback.Some? ==>
                rollback.value == RollbackRow(input.effectId, e.identity.effectId, e.cutoverRevision, e.identity.targetServer,
                                              receipt.Some?, false, 1)
      ensures !faulty && !e.state.EffectRolledBack? ==> (r.Ok? <==> old(Undoable(input)))
      ensures old(Stuck()) ==> r.Err?
    {
      hide RowsAtTarget, RowsReturned, MovesAll, DirectType, Within;
      var o := Disturb(faulty);
      if o.Fail? {
        return Err(o.error);
      }
      var cutoverWasApplied := receipt.Some?;
      if receipt.Some? && receipt.value.(rolledBack := false) != ReceiptOf(e) {
        return Err(Refused);
      }
      o := Disturb(faulty);
      if o.Pass? {
        if rollback.None? {
          rollback := Some(RollbackRow(input.effectId, e.identity.effectId, e.cutoverRevision, e.identity.targetServer,
                                       cutoverWasApplied, false, 1));
        }
        o := Disturb(faulty);
      }
      if o == Fail(Crashed) {
        return Err(Crashed);
      }
      o := Disturb(faulty);
      if o.Fail? {
        return Err(o.error);
      }
      if rollback.None? || rollback.value.rollbackId != input.effectId || !Bound(rollback.value, e)
         || rollback.value.cutoverWasApplied != cutoverWasApplied || rollback.value.applied {
        return Err(Refused);
      }
      r := Ok(rollback.value);
    }

    /** Record that the job was rolled back before any effect was planned. */
    method RollbackBeforeCutover(input: Input) returns (o: Outcome<Fault>)
      requires effect.None? && receipt.None?
      modifies `preCutover
      ensures o.Pass? ==> preCutover == Some(input)
      ensures old(preCutover.Some?) ==> preCutover == old(preCutover)
      ensures !faulty ==> (o.Pass? <==> old(preCutover.None? || preCutover.value == input))
    {
      o := Disturb(faulty);
      if o.Pass? {
        if preCutover.None? {
          preCutover := Some(input);
        }
        o := Disturb(faulty);
      }
      if o == Fail(Crashed) {
        return;
      }
      o := Disturb(faulty);
      if o.Pass? && preCutover != Some(input) {
        o := Fail(Refused);
      }
    }

    method RollbackCutover(input: Input) returns (o: Outcome<Fault>)
      requires Safe()
      modifies this
      ensures Safe() && world == old(world)
      // Success before any plan touches nothing; success after one is an exact return to the source.
      ensures o.Pass? ==>
                if old(effect.None?) then effect.None? && preCutover == Some(input) && rows == old(rows) && provider == old(provider)
                else BackAtSource(input.effectId) && receipt.Some? == old(receipt.Some?)
      ensures !faulty && old(effect.None?) ==> (o.Pass? <==> old(preCutover.None? || preCutover.value == input))
      // Repeating a finished rollback changes nothing.
      ensures old(effect.Some? && effect.value.state.EffectRolledBack?) ==>
                && effect == old(effect) && rows == old(rows) && provider == old(provider) && marks == old(marks)
                && receipt == old(receipt)
      // Without faults a finished rollback succeeds again exactly if it is asked for under its own name.
      ensures !faulty && old(effect.Some? && effect.value.state.EffectRolledBack?) ==>
                (o.Pass? <==> SameServers(old(effect.value), input) && old(rollback.value.rollbackId) == input.effectId)
      // Without faults the rollback of an effect succeeds exactly if it is undoable and every record is in step.
      ensures !faulty && old(effect.Some? && !effect.value.state.EffectRolledBack?) ==>
                (o.Pass? <==> && SameServers(old(effect.value), input) && old(Undoable(input))
                              && InStep(old(provider), old(effect.value).transitions))
      // A cutover that was committed after its rollback had been planned cannot be rolled back any more.
      ensures old(Stuck()) ==>
                && o.Fail? && Stuck() && effect == old(effect) && rows == old(rows) && provider == old(provider)
                && marks == old(marks) && receipt == old(receipt)
    {
      hide RowsAtTarget, RowsReturned, MovesAll, DirectType, Within, InStep, Plannable;
      var found := LoadEffect(faulty);
      if found.Err? {
        return Fail(found.error);
      }
      if found.value.None? {
        o := RollbackBeforeCutover(input);
        return;
      }
      var e := found.value.value;
      if e.identity != input.(effectId := e.identity.effectId) {
        return Fail(Refused);
      }
      hide Safe;
      Shape(e);
      var exact := RolledBackCutoverIsExact(input.effectId, e);
      if exact.Err? {
        return Fail(exact.error);
      }
      RolledBackIsBack(input.effectId, e);
      if exact.value {
        return Pass;
      }
      ghost var unread;
      o, unread := ReverseCutover(e, input);
    }

    predicate SameServers(e: Effect, input: Input) {
      e.identity == input.(effectId := e.identity.effectId)
    }

    lemma RolledBackIsBack(rollbackId: string, e: Effect)
      requires Safe() && effect == Some(e)
      ensures |e.transitions| <= |rows| && |e.transitions| <= |marks|
      ensures RolledBackExact(rollbackId, e) ==> BackAtSource(rollbackId)
      ensures e.state.EffectRolledBack? ==>
                && rollback.Some? && rollback.value.applied
                && (RolledBackExact(rollbackId, e) <==> rollback.value.rollbackId == rollbackId)
    {
    }

    /** Plan the rollback, reverse the provider, and close everything in one batch. */
    method ReverseCutover(e: Effect, input: Input) returns (o: Outcome<Fault>, ghost unread: bool)
      requires Safe() && effect == Some(e)
      modifies this
      ensures Safe() && world == old(world)
      ensures o.Pass? ==> BackAtSource(input.effectId) && receipt.Some? == old(receipt.Some?)
      ensures e.state.EffectRolledBack? ==>
                && o.Fail?
                && effect == old(effect) && rows == old(rows) && provider == old(provider) && marks == old(marks)
                && receipt == old(receipt)
      ensures !faulty && !e.state.EffectRolledBack? ==>
                (o.Pass? <==> old(Undoable(input)) && InStep(old(provider), e.transitions))
      ensures old(Stuck()) ==>
                && o.Fail? && effect == old(effect) && rows == old(rows) && provider == old(provider)
                && marks == old(marks) && receipt == old(receipt) && rollback == old(rollback)
      // A rollback that was committed is reported as done, unless the process stops or cannot read it back.
      ensures o.Fail? && o.error != Crashed && !e.state.EffectRolledBack? && effect == Some(RolledBackOf(e)) ==> unread
      ensures !faulty ==> !unread
    {
      hide Safe, RowsAtTarget, RowsReturned, MovesAll, DirectType, Within, InStepAt;
      unread := false;
      RolledBackIsBack(input.effectId, e);
      var planned := PlanRollback(e, input);
      if planned.Err? {
        return Fail(planned.error), false;
      }
      o := Reverse(e, faulty);
      if o.Fail? {
        return;
      }
      o := RollbackBatch(e, planned.value);
      if effect == Some(RolledBackOf(e)) {
        ClosedIsBack(RolledBackOf(e));
      }
      if o.Fail? && o.error != Crashed {
        Shape(effect.value);
        RolledBackIsBack(input.effectId, effect.value);
        var exact := RolledBackCutoverIsExact(input.effectId, effect.value);
        unread := exact.Err?;
        if exact.Ok? && exact.value {
          o := Pass;
        }
      }
    }

    /** Plan the rollback of a committed cutover and take its last record back, but do not mark it yet. */
    method BeginReversal(undo: Input)
      requires Safe() && !faulty && effect.Some? && effect.value.state.EffectApplied? && rollback.None?
      requires effect.value.transitions != []
      requires InStepAt(provider, effect.value.transitions, |effect.value.transitions| - 1)
      modifies `rollback, `provider
      ensures Safe() && Shown() && |provider| == |old(provider)|
      ensures var i := |effect.value.transitions| - 1;
              provider[i].at == effect.value.transitions[i].source && provider[i].id == old(provider)[i].id
    {
      hide RowsReturned, DirectType, Leads, FourOctets, Colons;
      var e := effect.value;
      var i := |e.transitions| - 1;
      var t := e.transitions[i];
      var planned := PlanRollback(e, undo);
      var moved := Transfer(i, t.providerId, t.target, t.source, false);
    }

    lemma ClosedIsBack(e: Effect)
      requires Safe() && effect == Some(e) && e.state.EffectRolledBack?
      ensures rollback.Some? && BackAtSource(rollback.value.rollbackId)
      ensures receipt.Some? == rollback.value.cutoverWasApplied
    {
    }

    /** The rest of the database changes. */
    method Environment()
      requires Safe()
      modifies `world
      ensures Safe()
    {
      world := *;
    }

    /** Cutovers and rollbacks in any order, with any input, each cut short anywhere. */
    method Run(calls: nat)
      requires Safe()
      modifies this
      ensures Safe()
    {
      hide Safe;
      for i := 0 to calls
        invariant Safe()
      {
        var input: Input := *;
        var shaky: bool := *;
        Environment();
        if * {
          var _, _, _ := Apply(input, shaky);
        } else {
          var _ := RollbackCutover(input);
        }
      }
    }
  }

  /** Record `i` has the planned identity and stands at its source or at its target. */
  predicate InStepAt(provider: seq<ProviderRecord>, transitions: seq<Transition>, i: nat)
    requires i < |transitions| <= |provider|
  {
    && provider[i].id == transitions[i].providerId
    && (provider[i].at == transitions[i].source || provider[i].at == transitions[i].target)
  }

  predicate InStep(provider: seq<ProviderRecord>, transitions: seq<Transition>) {
    |transitions| <= |provider| && forall i :: 0 <= i < |transitions| ==> InStepAt(provider, transitions, i)
  }

  /** Record `k` is the first one out of step. */
  predicate FirstOutOfStep(provider: seq<ProviderRecord>, transitions: seq<Transition>, k: nat) {
    && k < |transitions| <= |provider|
    && !InStepAt(provider, transitions, k)
    && forall i :: 0 <= i < k ==> InStepAt(provider, transitions, i)
  }

  /** Moving record `i` between its two sides leaves the whole plan as much in step as it was. */
  lemma SameSteps(before: seq<ProviderRecord>, after: seq<ProviderRecord>, transitions: seq<Transition>, i: nat)
    requires i < |transitions| <= |before| == |after|
    requires forall k: nat :: k < i ==> InStepAt(before, transitions, k) && InStepAt(after, transitions, k)
    requires InStepAt(after, transitions, i) == InStepAt(before, transitions, i)
    requires forall k :: i < k < |before| ==> after[k] == before[k]
    ensures InStep(after, transitions) == InStep(before, transitions)
  {
    forall k | i < k < |transitions|
      ensures InStepAt(after, transitions, k) == InStepAt(before, transitions, k)
    {
    }
    hide InStepAt;
  }

  lemma SameStep(before: seq<ProviderRecord>, after: seq<ProviderRecord>, transitions: seq<Transition>, i: nat)
    requires i < |transitions| <= |before| == |after| && after[i] == before[i]
    ensures InStepAt(after, transitions, i) == InStepAt(before, transitions, i)
  {
  }

  lemma KeptSteps(before: seq<ProviderRecord>, after: seq<ProviderRecord>, transitions: seq<Transition>, i: nat)
    requires i < |transitions| <= |before| == |after| && forall k :: 0 <= k < i ==> after[k] == before[k]
    ensures forall k: nat :: k < i ==> InStepAt(after, transitions, k) == InStepAt(before, transitions, k)
  {
  }

  lemma FirstExists(provider: seq<ProviderRecord>, transitions: seq<Transition>)
    requires |transitions| <= |provider|
    ensures InStep(provider, transitions) || exists k: nat :: FirstOutOfStep(provider, transitions, k)
  {
    FirstFrom(provider, transitions, 0);
  }

  lemma {:induction false} FirstFrom(provider: seq<ProviderRecord>, transitions: seq<Transition>, from: nat)
    requires from <= |transitions| <= |provider|
    requires forall i :: 0 <= i < from ==> InStepAt(provider, transitions, i)
    ensures InStep(provider, transitions) || exists k: nat :: FirstOutOfStep(provider, transitions, k)
    decreases |transitions| - from
  {
    hide InStepAt;
    if from < |transitions| {
      if InStepAt(provider, transitions, from) {
        FirstFrom(provider, transitions, from + 1);
      } else {
        assert FirstOutOfStep(provider, transitions, from);
      }
    }
  }

  /**
   After any run, a rollback that succeeds leaves every row with its first owner and
   content: two revisions later if a cutover of a plan with any moves was committed, and
   otherwise untouched.  The provider records of such a plan are back at the rows, and
   without a plan they were never touched.
   */
  method RollbackAfterRun(faulty: bool, server: string, world: World, before: seq<Row>, records: seq<ProviderRecord>,
                          calls: nat, input: Input)
    returns (o: Outcome<Fault>, rows: seq<Row>, provider: seq<ProviderRecord>, committed: bool, moves: nat)
    requires |before| == |records| && forall row <- before :: row.at.owner == server
    ensures o.Pass? ==> |rows| == |before| == |provider| && (moves == 0 || moves == |rows|)
    ensures o.Pass? && committed && moves > 0 ==>
              forall i :: 0 <= i < |rows| ==> rows[i] == before[i].(revision := before[i].revision + 2)
    ensures o.Pass? && !(committed && moves > 0) ==> rows == before
    ensures o.Pass? ==> if moves == 0 then provider == records else forall i :: 0 <= i < |rows| ==> provider[i].at == before[i].at
  {
    var saga := new EndpointSaga(faulty, server, world, before, records);
    saga.Run(calls);
    o := saga.RollbackCutover(input);
    rows, provider, committed := saga.rows, saga.provider, saga.receipt.Some?;
    moves := if saga.effect.Some? then |saga.effect.value.transitions| else 0;
  }

  /**
   After any run, a cutover from the server that succeeds leaves every row of it with the
   target server and at the target's one address, one revision on, and so every provider
   record, but possibly the last one while a rollback is under way.
   */
  method CutoverAfterRun(faulty: bool, server: string, world: World, before: seq<Row>, records: seq<ProviderRecord>,
                         calls: nat, input: Input, shaky: bool)
    returns (o: Outcome<Fault>, rows: seq<Row>, provider: seq<ProviderRecord>, reversing: bool, ghost planned: World)
    requires |before| == |records| && forall row <- before :: row.at.owner == server
    ensures o.Pass? ==> |rows| == |before| == |provider|
    ensures o.Pass? && input.sourceServer == server != input.targetServer && before != [] ==>
              && |planned.targetContents| == 1
              && var target := Endpoint(input.targetServer, planned.targetContents[0]);
                 && (forall i :: 0 <= i < |rows| ==> rows[i] == before[i].(at := target, revision := before[i].revision + 1))
                 && (forall i :: 0 <= i < |provider| - 1 ==> provider[i].at == target)
                 && (!reversing ==> forall i :: 0 <= i < |provider| ==> provider[i].at == target)
    ensures o.Pass? && !(input.sourceServer == server != input.targetServer) ==> rows == before && provider == records
  {
    hide Leads, FourOctets, Colons;
    var saga := new EndpointSaga(faulty, server, world, before, records);
    saga.Run(calls);
    ghost var begun, undone;
    o, begun, undone := saga.Apply(input, shaky);
    rows, provider, reversing, planned := saga.rows, saga.provider, saga.Reversing(), saga.plannedIn;
  }

  /**
   Of a committed cutover whose rollback stops between taking the last record back and
   marking it, nothing shows: a repeated cutover reports success.
   */
  method ReversalUnnoticed(saga: EndpointSaga, undo: Input) returns (again: Outcome<Fault>)
    requires saga.Safe() && !saga.faulty
    requires saga.effect.Some? && saga.effect.value.state.EffectApplied? && saga.rollback.None?
    requires saga.effect.value.transitions != []
    requires InStepAt(saga.provider, saga.effect.value.transitions, |saga.effect.value.transitions| - 1)
    modifies saga
    ensures again.Pass? && saga.effect == old(saga.effect) && |saga.provider| == |old(saga.provider)|
    ensures var i := |saga.effect.value.transitions| - 1;
            saga.provider[i].at == saga.effect.value.transitions[i].source && saga.provider[i].id == old(saga.provider)[i].id
  {
    hide Leads, FourOctets, Colons, DirectType;
    saga.BeginReversal(undo);
    hide InStepAt, Within, MovesAll, RowsAtTarget, ReversedFromEnd;
    ghost var begun, taken;
    again, begun, taken := saga.Apply(saga.effect.value.identity, false);
  }

  /**
   A cutover that is repeated while its rollback is under way can report success
   although the provider record is back at the source.
   */
  method ApplyDuringReversal(world: World, row: Row, record: ProviderRecord, input: Input, undo: Input)
    returns (first: Outcome<Fault>, again: Outcome<Fault>, provider: seq<ProviderRecord>)
    requires input.sourceServer == row.at.owner && input.sourceServer != input.targetServer
    requires Plannable(world, input) && PlanOf([row], world, input).Some?
    requires record == ProviderRecord(row.providerId, row.at)
    ensures first.Pass? && again.Pass? && provider == [record]
  {
    PlanMoves([row], input.sourceServer, input.targetServer, world.targetContents[0]);
    var saga := new EndpointSaga(false, row.at.owner, world, [row], [record]);
    assert saga.SourceRows(input) == [row];
    ghost var begun, taken;
    first, begun, taken := saga.Apply(input, false);
    var e := saga.effect.value;
    assert InStepAt([record], e.transitions, 0);
    again := ReversalUnnoticed(saga, undo);
    provider := saga.provider;
  }

  /** A rollback that comes before any plan is recorded and then forgotten: the cutover goes as if it had not been. */
  method ApplyAfterRollback(saga: EndpointSaga, undo: Input, input: Input) returns (undone: Outcome<Fault>, applied: Outcome<Fault>)
    requires saga.Safe() && !saga.faulty && saga.effect.None? && saga.preCutover.None?
    modifies saga
    ensures undone.Pass?
    ensures applied.Pass? <==>
              && Plannable(old(saga.world), input) && old(PlanOf(saga.SourceRows(input), saga.world, input)).Some?
              && InStep(old(saga.provider), old(PlanOf(saga.SourceRows(input), saga.world, input)).value)
    ensures applied.Pass? ==> saga.CutOver(input)
  {
    undone := saga.RollbackCutover(undo);
    ghost var begun, taken;
    applied, begun, taken := saga.Apply(input, false);
  }

  /**
   A rollback that is planned before the cutover commits, and stops there, makes the
   committed cutover final: no rollback under any name succeeds or changes anything.
   */
  method CommitAfterPlannedRollback(saga: EndpointSaga, undo: Input, later: Input)
    returns (applied: Outcome<Fault>, undone: Outcome<Fault>)
    requires saga.Safe() && !saga.faulty
    requires saga.effect.Some? && saga.effect.value.state.EffectPlanned? && saga.rollback.None?
    requires InStep(saga.provider, saga.effect.value.transitions)
    modifies saga
    ensures applied.Pass? && undone.Fail?
    ensures saga.Stuck() && saga.CutOver(old(saga.effect.value.identity))
  {
    var e := saga.effect.value;
    var planned := saga.PlanRollback(e, undo);
    ghost var begun, taken;
    applied, begun, taken := saga.Apply(e.identity, false);
    undone := saga.RollbackCutover(later);
  }
}
