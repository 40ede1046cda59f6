/** The root helper's persisted update state and the pure functions over it. */
module UpdateState {
  import opened Prelude

  datatype Release = Release(version: string, digest: string, sequence: nat, epoch: nat)

  datatype Activation = Activation(
    commandId: string, operationId: string, candidate: Release, previous: Release, startedAt: int)

  datatype Status = Active | RolledBack

  datatype UpdateOutcome = UpdateOutcome(
    commandId: string, operationId: string, release: Release, status: Status, observedAt: int)

  datatype Phase = ActivePhase | Activating

  datatype RootState = RootState(
    phase: Phase,
    active: Release,
    previous: Option<Release>,
    activation: Option<Activation>,
    outcomes: seq<UpdateOutcome>,
    highestSequence: nat,
    minimumEpoch: nat)

  datatype Request = Request(digest: string, version: string, commandId: string, operationId: string)

  datatype HelperError = Crashed | Unsafe | Rejected | InvalidManifest | ArtifactRejected | Pending | Raw

  const MAX_OUTCOMES: nat := 32

  const MAX_SAFE_INTEGER: nat := 9007199254740991

  // --- the schema's bounds ---------------------------------------------------

  predicate ReleaseFits(r: Release) {
    |r.version| <= 64 && |r.digest| == 71 && 1 <= r.sequence <= MAX_SAFE_INTEGER && 1 <= r.epoch <= MAX_SAFE_INTEGER
  }

  predicate OutcomeFits(o: UpdateOutcome) {
    |o.commandId| <= 128 && |o.operationId| <= 128 && ReleaseFits(o.release)
  }

  predicate ActivationFits(a: Activation) {
    |a.commandId| <= 128 && |a.operationId| <= 128 && ReleaseFits(a.candidate) && ReleaseFits(a.previous)
  }

  predicate RequestFits(request: Request) {
    |request.commandId| <= 128 && |request.operationId| <= 128 && |request.version| <= 64 && |request.digest| == 71
  }

  predicate SchemaFits(s: RootState) {
    && ReleaseFits(s.active)
    && (s.previous.Some? ==> ReleaseFits(s.previous.value))
    && (s.activation.Some? ==> ActivationFits(s.activation.value))
    && (forall o <- s.outcomes :: OutcomeFits(o))
    && |s.outcomes| <= MAX_OUTCOMES
    && 1 <= s.highestSequence <= MAX_SAFE_INTEGER && 1 <= s.minimumEpoch <= MAX_SAFE_INTEGER
  }

  /** The checks a persisted state must pass to be read again. */
  predicate Readable(s: RootState) {
    && SchemaFits(s)
    && s.highestSequence >= s.active.sequence
    && s.minimumEpoch >= s.active.epoch
    && (s.previous.Some? ==>
          s.highestSequence >= s.previous.value.sequence && s.minimumEpoch >= s.previous.value.epoch)
  }

  predicate UniqueIds(outcomes: seq<UpdateOutcome>) {
    forall i, j :: 0 <= i < j < |outcomes| ==> outcomes[i].commandId != outcomes[j].commandId
  }

  function Without(outcomes: seq<UpdateOutcome>, commandId: string): (r: seq<UpdateOutcome>)
    ensures |r| <= |outcomes|
    ensures forall o <- r :: o in outcomes && o.commandId != commandId
    ensures UniqueIds(outcomes) ==> UniqueIds(r)
  {
    if outcomes == [] then []
    else if outcomes[0].commandId == commandId then Without(outcomes[1..], commandId)
    else [outcomes[0]] + Without(outcomes[1..], commandId)
  }

  /** `slice(-limit)`. */
  function Latest(outcomes: seq<UpdateOutcome>, limit: nat): seq<UpdateOutcome> {
    if |outcomes| <= limit then outcomes else outcomes[|outcomes| - limit..]
  }

  function AppendOutcome(s: RootState, o: UpdateOutcome): RootState {
    s.(outcomes := Latest(Without(s.outcomes, o.commandId) + [o], MAX_OUTCOMES))
  }

  function Find(outcomes: seq<UpdateOutcome>, commandId: string): Option<UpdateOutcome> {
    if outcomes == [] then None
    else if outcomes[0].commandId == commandId then Some(outcomes[0])
    else Find(outcomes[1..], commandId)
  }

  /** The recorded outcome of a request; a reused command id must name the same request. */
  function ExactOutcome(s: RootState, request: Request): Result<Option<UpdateOutcome>, HelperError> {
    match Find(s.outcomes, request.commandId)
    case None => Ok(None)
    case Some(o) =>
      if o.operationId != request.operationId || o.release.version != request.version
         || o.release.digest != request.digest
      then Err(Rejected)
      else Ok(Some(o))
  }

  /** A replay is answered exactly by the outcome of its command, and refused if that was of another request. */
  lemma ReplayMeans(s: RootState, request: Request)
    requires UniqueIds(s.outcomes)
    ensures ExactOutcome(s, request) == Ok(None) <==> forall o <- s.outcomes :: o.commandId != request.commandId
    ensures forall o: UpdateOutcome :: ExactOutcome(s, request) == Ok(Some(o)) <==>
              && o in s.outcomes && o.commandId == request.commandId && o.operationId == request.operationId
              && o.release.version == request.version && o.release.digest == request.digest
    ensures ExactOutcome(s, request).Err? <==>
              exists o <- s.outcomes ::
                && o.commandId == request.commandId
                && !(o.operationId == request.operationId
                     && o.release.version == request.version && o.release.digest == request.digest)
  {
    FindNone(s.outcomes, request.commandId);
    forall o | o in s.outcomes && o.commandId == request.commandId
      ensures Find(s.outcomes, request.commandId) == Some(o)
    {
      FindIn(s.outcomes, o);
    }
  }

  function CompletedState(s: RootState, o: UpdateOutcome, active: Release, previous: Option<Release>): RootState {
    AppendOutcome(
      RootState(
        ActivePhase, active, previous, None, s.outcomes,
        Max(Max(s.highestSequence, active.sequence), o.release.sequence),
        Max(Max(s.minimumEpoch, active.epoch), o.release.epoch)),
      o)
  }

  /** The digests garbage collection must keep. */
  function Retained(s: RootState): set<string> {
    {s.active.digest}
    + (if s.previous.Some? then {s.previous.value.digest} else {})
    + (if s.activation.Some? then {s.activation.value.candidate.digest, s.activation.value.previous.digest} else {})
  }

  // --- outcomes ------------------------------------------------------------

  lemma {:induction false} FindIn(outcomes: seq<UpdateOutcome>, o: UpdateOutcome)
    requires UniqueIds(outcomes) && o in outcomes
    ensures Find(outcomes, o.commandId) == Some(o)
  {
    if outcomes[0].commandId == o.commandId {
      var i :| 0 <= i < |outcomes| && outcomes[i] == o;
    } else {
      FindIn(outcomes[1..], o);
    }
  }

  lemma {:induction false} FindNone(outcomes: seq<UpdateOutcome>, commandId: string)
    ensures Find(outcomes, commandId).None? <==> forall o <- outcomes :: o.commandId != commandId
    ensures Find(outcomes, commandId).Some? ==>
              Find(outcomes, commandId).value in outcomes && Find(outcomes, commandId).value.commandId == commandId
  {
    if outcomes != [] {
      FindNone(outcomes[1..], commandId);
    }
  }

  lemma {:induction false} WithoutKeeps(outcomes: seq<UpdateOutcome>, commandId: string, o: UpdateOutcome)
    requires o in outcomes && o.commandId != commandId
    ensures o in Without(outcomes, commandId)
  {
    if outcomes[0] != o {
      WithoutKeeps(outcomes[1..], commandId, o);
    }
  }

  /**
   Recording an outcome keeps one outcome per command and at most 32 of them, makes
   it the answer to a replay, and leaves the answers for other commands as they were,
   except that a full record forgets its oldest one.
   */
  lemma AppendOutcomeRecords(s: RootState, o: UpdateOutcome)
    requires UniqueIds(s.outcomes) && |s.outcomes| <= MAX_OUTCOMES
    ensures var r := AppendOutcome(s, o).outcomes;
            && UniqueIds(r) && |r| <= MAX_OUTCOMES
            && Find(r, o.commandId) == Some(o)
            && (forall id :: id != o.commandId ==>
                  || Find(r, id) == Find(s.outcomes, id)
                  || (Find(r, id).None? && |s.outcomes| == MAX_OUTCOMES && s.outcomes[0].commandId == id))
  {
    var kept := Without(s.outcomes, o.commandId);
    var all := kept + [o];
    var r := Latest(all, MAX_OUTCOMES);
    assert r[|r| - 1] == o;
    FindIn(r, o);
    forall id | id != o.commandId
      ensures || Find(r, id) == Find(s.outcomes, id)
              || (Find(r, id).None? && |s.outcomes| == MAX_OUTCOMES && s.outcomes[0].commandId == id)
    {
      FindNone(s.outcomes, id);
      FindNone(r, id);
      if Find(s.outcomes, id).Some? {
        var found := Find(s.outcomes, id).value;
        WithoutKeeps(s.outcomes, o.commandId, found);
        if found in r {
          FindIn(r, found);
        } else {
          Forgotten(s.outcomes, o, found);
          assert forall other <- s.outcomes[1..] :: other.commandId != found.commandId;
        }
      }
    }
  }

  /** Only the oldest outcome of a full record is forgotten. */
  lemma Forgotten(outcomes: seq<UpdateOutcome>, o: UpdateOutcome, found: UpdateOutcome)
    requires UniqueIds(outcomes) && |outcomes| <= MAX_OUTCOMES
    requires found in outcomes && found.commandId != o.commandId
    requires found !in Latest(Without(outcomes, o.commandId) + [o], MAX_OUTCOMES)
    ensures |outcomes| == MAX_OUTCOMES && outcomes[0] == found
    ensures Latest(Without(outcomes, o.commandId) + [o], MAX_OUTCOMES) == outcomes[1..] + [o]
  {
    hide UniqueIds;
    var kept := Without(outcomes, o.commandId);
    WithoutKeeps(outcomes, o.commandId, found);
    assert found in kept + [o];
    assert |kept| >= MAX_OUTCOMES;
    WithoutFull(outcomes, o.commandId);
    assert (outcomes + [o])[1..] == outcomes[1..] + [o];
    assert outcomes == [outcomes[0]] + outcomes[1..];
  }

  lemma {:induction false} WithoutFull(outcomes: seq<UpdateOutcome>, commandId: string)
    requires |Without(outcomes, commandId)| == |outcomes|
    ensures Without(outcomes, commandId) == outcomes
  {
    hide UniqueIds;
    if outcomes != [] {
      WithoutFull(outcomes[1..], commandId);
    }
  }

  // --- completion ----------------------------------------------------------

  /** A completed activation is readable again, raises the floors over both releases and never lowers them. */
  lemma CompletedIsReadable(s: RootState, o: UpdateOutcome, active: Release, previous: Option<Release>)
    requires Readable(s) && UniqueIds(s.outcomes)
    requires OutcomeFits(o) && ReleaseFits(active)
    requires previous.Some? ==> previous == s.previous || previous.value == s.active
    ensures var c := CompletedState(s, o, active, previous);
            && Readable(c) && UniqueIds(c.outcomes)
            && c.highestSequence >= s.highestSequence && c.minimumEpoch >= s.minimumEpoch
            && c.highestSequence >= o.release.sequence && c.minimumEpoch >= o.release.epoch
            && Find(c.outcomes, o.commandId) == Some(o)
  {
    AppendOutcomeRecords(s, o);
  }

  // --- size of the state file ------------------------------------------------

  const MAX_STATE_BYTES: nat := 32 * 1024
  /** What a state within the schema's bounds takes at most beside its timestamps. */
  const FIXED_BYTES: nat := 20 * 1024 + 640
  const MAX_TIMESTAMP: nat := 350

  function Pow10(n: nat): (p: nat)
    ensures p >= 1
  {
    if n == 0 then 1 else 10 * Pow10(n - 1)
  }

  lemma {:induction false} DecimalLength(n: nat, digits: nat)
    requires digits >= 1 && n < Pow10(digits)
    ensures |Decimal(n)| <= digits
  {
    if n >= 10 {
      assert Pow10(digits) == 10 * Pow10(digits - 1);
      DecimalLength(n / 10, digits - 1);
    }
  }

  function Quote(s: string): string {
    "\"" + s + "\""
  }

  function EncodeRelease(r: Release): string {
    "{\"digest\":" + Quote(r.digest) + ",\"releaseSequence\":" + Decimal(r.sequence)
    + ",\"securityEpoch\":" + Decimal(r.epoch) + ",\"version\":" + Quote(r.version) + "}"
  }

  function EncodeOutcome(o: UpdateOutcome, iso: int -> string): string {
    "{\"commandId\":" + Quote(o.commandId) + ",\"observedAt\":" + Quote(iso(o.observedAt))
    + ",\"operationId\":" + Quote(o.operationId) + ",\"release\":" + EncodeRelease(o.release)
    + ",\"status\":" + Quote(if o.status == Active then "active" else "rolled-back") + "}"
  }

  function EncodeOutcomes(outcomes: seq<UpdateOutcome>, iso: int -> string): string {
    if outcomes == [] then ""
    else (if |outcomes| == 1 then "" else EncodeOutcomes(outcomes[..|outcomes| - 1], iso) + ",")
         + EncodeOutcome(outcomes[|outcomes| - 1], iso)
  }

  function EncodeActivation(a: Activation, iso: int -> string): string {
    "{\"candidate\":" + EncodeRelease(a.candidate) + ",\"commandId\":" + Quote(a.commandId)
    + ",\"operationId\":" + Quote(a.operationId) + ",\"previous\":" + EncodeRelease(a.previous)
    + ",\"startedAt\":" + Quote(iso(a.startedAt)) + "}"
  }

  /** The canonical JSON of a state, keys in order, and a newline. */
  function Encode(s: RootState, iso: int -> string): string {
    "{\"activation\":" + (if s.activation.Some? then EncodeActivation(s.activation.value, iso) else "null")
    + ",\"active\":" + EncodeRelease(s.active)
    + ",\"highestReleaseSequence\":" + Decimal(s.highestSequence)
    + ",\"minimumSecurityEpoch\":" + Decimal(s.minimumEpoch)
    + EncodeRest(s, iso)
  }

  /** The rest of a state, from its outcomes on. */
  function EncodeRest(s: RootState, iso: int -> string): string {
    ",\"outcomes\":[" + EncodeOutcomes(s.outcomes, iso) + "]"
    + ",\"phase\":" + Quote(if s.phase.ActivePhase? then "active" else "activating")
    + ",\"previous\":" + (if s.previous.Some? then EncodeRelease(s.previous.value) else "null")
    + ",\"version\":1}\n"
  }

  // --- how long a state is -----------------------------------------------------

  /** The timestamps of a state, all together. */
  function Timestamps(s: RootState, iso: int -> string): nat {
    OutcomeTimes(s.outcomes, iso) + if s.activation.Some? then |iso(s.activation.value.startedAt)| else 0
  }

  function OutcomeTimes(outcomes: seq<UpdateOutcome>, iso: int -> string): nat {
    if outcomes == [] then 0
    else OutcomeTimes(outcomes[..|outcomes| - 1], iso) + |iso(outcomes[|outcomes| - 1].observedAt)|
  }

  /** No time at all, which leaves what a state takes beside its timestamps. */
  function NoTime(t: int): string {
    ""
  }

  lemma ReleaseLength(r: Release)
    requires ReleaseFits(r)
    ensures |EncodeRelease(r)| <= 230
  {
    hide Decimal;
    NumberLength(r.sequence);
    NumberLength(r.epoch);
  }

  lemma OutcomeLength(o: UpdateOutcome, iso: int -> string)
    ensures |EncodeOutcome(o, iso)| == |EncodeOutcome(o, NoTime)| + |iso(o.observedAt)|
    ensures OutcomeFits(o) ==> |EncodeOutcome(o, NoTime)| <= 583
  {
    if OutcomeFits(o) {
      ReleaseLength(o.release);
    }
    hide EncodeRelease;
  }

  lemma {:induction false} OutcomesLength(outcomes: seq<UpdateOutcome>, iso: int -> string)
    ensures |EncodeOutcomes(outcomes, iso)| == |EncodeOutcomes(outcomes, NoTime)| + OutcomeTimes(outcomes, iso)
    ensures (forall o <- outcomes :: OutcomeFits(o)) ==> |EncodeOutcomes(outcomes, NoTime)| <= 584 * |outcomes|
  {
    hide EncodeOutcome, OutcomeFits;
    if outcomes != [] {
      OutcomesLength(outcomes[..|outcomes| - 1], iso);
      OutcomeLength(outcomes[|outcomes| - 1], iso);
    }
  }

  lemma ActivationLength(a: Activation, iso: int -> string)
    ensures |EncodeActivation(a, iso)| == |EncodeActivation(a, NoTime)| + |iso(a.startedAt)|
    ensures ActivationFits(a) ==> |EncodeActivation(a, NoTime)| <= 813
  {
    if ActivationFits(a) {
      ReleaseLength(a.candidate);
      ReleaseLength(a.previous);
    }
    hide EncodeRelease;
  }

  /** A state is as long as its fixed part and its timestamps. */
  lemma EncodedLength(s: RootState, iso: int -> string)
    ensures |Encode(s, iso)| == |Encode(s, NoTime)| + Timestamps(s, iso)
  {
    hide EncodeRelease, EncodeOutcomes, EncodeActivation, Decimal;
    OutcomesLength(s.outcomes, iso);
    if s.activation.Some? {
      ActivationLength(s.activation.value, iso);
    }
  }

  /**
   The fixed part of a state within the schema's bounds leaves more than a third of the
   32 KiB its reader accepts: the state fits if and only if its timestamps do.
   */
  lemma EncodedFits(s: RootState, iso: int -> string)
    requires SchemaFits(s)
    ensures |Encode(s, NoTime)| <= FIXED_BYTES
    ensures |Encode(s, iso)| <= MAX_STATE_BYTES <==> Timestamps(s, iso) <= MAX_STATE_BYTES - |Encode(s, NoTime)|
    ensures Timestamps(s, iso) <= MAX_STATE_BYTES - FIXED_BYTES ==> |Encode(s, iso)| <= MAX_STATE_BYTES
  {
    hide Encode, SchemaFits, Timestamps;
    EncodedLength(s, iso);
    FixedLength(s);
  }

  lemma RestLength(s: RootState)
    requires SchemaFits(s)
    ensures |EncodeRest(s, NoTime)| <= 584 * 32 + 230 + 200
  {
    hide EncodeRelease, EncodeOutcomes, Decimal, ReleaseFits, OutcomeFits, ActivationFits;
    OutcomesLength(s.outcomes, NoTime);
    if s.previous.Some? {
      ReleaseLength(s.previous.value);
    }
  }

  lemma FixedLength(s: RootState)
    requires SchemaFits(s)
    ensures |Encode(s, NoTime)| <= FIXED_BYTES
  {
    RestLength(s);
    hide EncodeRelease, EncodeRest, EncodeActivation, Decimal, ReleaseFits, OutcomeFits, ActivationFits;
    NumberLength(s.highestSequence);
    NumberLength(s.minimumEpoch);
    ReleaseLength(s.active);
    if s.activation.Some? {
      ActivationLength(s.activation.value, NoTime);
    }
  }

  /** Timestamps of at most 350 characters fit, whatever else the state holds; those the helper writes have 24 or 27. */
  lemma {:induction false} ShortTimesFit(s: RootState, iso: int -> string)
    requires SchemaFits(s)
    requires forall t :: |iso(t)| <= MAX_TIMESTAMP
    ensures |Encode(s, iso)| <= MAX_STATE_BYTES
  {
    hide Encode, SchemaFits;
    ShortTimes(s.outcomes, iso);
    AtMostFull(s);
    EncodedFits(s, iso);
  }

  lemma AtMostFull(s: RootState)
    requires SchemaFits(s)
    ensures |s.outcomes| <= MAX_OUTCOMES
  {
  }

  lemma {:induction false} ShortTimes(outcomes: seq<UpdateOutcome>, iso: int -> string)
    requires forall t :: |iso(t)| <= MAX_TIMESTAMP
    ensures OutcomeTimes(outcomes, iso) <= MAX_TIMESTAMP * |outcomes|
  {
    if outcomes != [] {
      ShortTimes(outcomes[..|outcomes| - 1], iso);
    }
  }

  /** The schema bounds no fraction of a second: a state that passes it can outgrow its file. */
  lemma LongTimesDoNotFit(s: RootState, iso: int -> string)
    requires SchemaFits(s) && s.activation.Some?
    requires |iso(s.activation.value.startedAt)| > MAX_STATE_BYTES
    ensures |Encode(s, iso)| > MAX_STATE_BYTES
  {
    hide Encode;
    EncodedFits(s, iso);
  }

  lemma NumberLength(n: nat)
    requires n <= MAX_SAFE_INTEGER
    ensures |Decimal(n)| <= 16
  {
    assert Pow10(16) == 10000000000000000 by {
      assert Pow10(4) == 10000;
      assert Pow10(8) == 100000000;
      assert Pow10(12) == 1000000000000;
    }
    DecimalLength(n, 16);
  }
}
