/**
 The root self-update helper over its state file, the `current` link and the release
 directories.  Every awaited step may fail before or after its effect, or be the last
 one of the process.
 */
module UpdateHelper {
  import opened Prelude
  import opened UpdateState

  /** A release directory: complete, or left half written or half deleted. */
  datatype Directory = Whole(release: Release) | Broken

  /** The health receipt a running agent writes. */
  datatype Receipt = Receipt(version: string, digest: string, startedAt: int, writtenAt: int)

  /** What an agent staged under a digest: a manifest, whether it is trusted, and whether the artifact matches it. */
  datatype Staged = Staged(manifest: Release, trusted: bool, intact: bool)

  datatype Proof = Proof(outcome: UpdateOutcome, duplicate: bool, retained: Option<nat>)

  /** One attempt of the health check: whether the unit was active, whether it was found ready, and when. */
  datatype Observation = Observation(active: bool, ready: bool, at: int)

  /** A health check that came to a verdict: of which release, and what its attempts saw. */
  datatype Check = Check(release: Release, log: seq<Observation>)

  /** What the helper looked at: the unit was inactive or active, or the probe answered. */
  datatype Look = UnitDown | UnitUp | Probed(release: Release, healthy: bool)

  /** The looks that the attempts of a log stand for: a probe after each active unit, and its answer is the readiness. */
  function Looks(log: seq<Observation>, release: Release): seq<Look> {
    if log == [] then []
    else
      var last := log[|log| - 1];
      Looks(log[..|log| - 1], release) + if last.active then [UnitUp, Probed(release, last.ready)] else [UnitDown]
  }

  const ATTEMPTS: nat := 40

  predicate Fresh(health: Option<Receipt>, release: Release, startedAfter: int) {
    && health.Some?
    && health.value.writtenAt >= startedAfter
    && health.value.version == release.version
    && health.value.digest == release.digest
    && health.value.startedAt >= startedAfter
  }

  predicate OnDisk(release: Release, disk: map<string, Directory>) {
    release.digest in disk && disk[release.digest] == Whole(release)
  }

  function Keep(disk: map<string, Directory>, retained: set<string>): map<string, Directory> {
    map d | d in disk && d in retained :: disk[d]
  }

  /** Every retained directory is as before; any other is as before, broken or gone. */
  predicate Remains(before: map<string, Directory>, after: map<string, Directory>, retained: set<string>) {
    && (forall d <- after :: d in before && (after[d] == before[d] || after[d].Broken?))
    && (forall d <- before :: d in retained ==> d in after && after[d] == before[d])
  }

  // --- probation -------------------------------------------------------------

  /** Since when the observations up to now have been ready without a gap. */
  function Since(log: seq<Observation>): Option<int> {
    if log == [] || !log[|log| - 1].ready then None
    else
      var before := Since(log[..|log| - 1]);
      if before.Some? then before else Some(log[|log| - 1].at)
  }

  predicate Stable(log: seq<Observation>, probation: int) {
    && Since(log).Some?
    && log[|log| - 1].at - Since(log).value >= probation
  }

  /** No beginning of the log was stable. */
  ghost predicate NeverStable(log: seq<Observation>, probation: int) {
    forall n :: 0 <= n <= |log| ==> !Stable(log[..n], probation)
  }

  lemma NeverAtFirst(probation: int, release: Release)
    ensures NeverStable([], probation) && Since([]).None? && Looks([], release) == []
  {
  }

  lemma NeverWhole(log: seq<Observation>, probation: int)
    requires NeverStable(log, probation)
    ensures forall n :: 0 <= n <= |log| ==> !Stable(log[..n], probation)
    ensures !Stable(log, probation)
  {
    assert log[..|log|] == log;
  }

  /** What one more observation makes of a log. */
  lemma ObservedNext(log: seq<Observation>, last: Observation, release: Release, probation: int)
    ensures Since(log + [last]) ==
            if !last.ready then None else if Since(log).Some? then Since(log) else Some(last.at)
    ensures Stable(log + [last], probation) <==>
              last.ready && last.at - (if Since(log).Some? then Since(log).value else last.at) >= probation
    ensures Looks(log + [last], release) ==
            Looks(log, release) + if last.active then [UnitUp, Probed(release, last.ready)] else [UnitDown]
  {
    var next := log + [last];
    assert next[..|next| - 1] == log;
  }

  lemma NeverNext(log: seq<Observation>, last: Observation, probation: int)
    requires NeverStable(log, probation) && !Stable(log + [last], probation)
    ensures NeverStable(log + [last], probation)
  {
    hide Stable;
    var next := log + [last];
    assert next[..|next|] == next;
    assert forall n :: 0 <= n <= |log| ==> next[..n] == log[..n];
  }

  /** A log is stable exactly if it ends in a maximal run of ready observations that spans the probation. */
  lemma {:induction false} StableIsContinuous(log: seq<Observation>, probation: int)
    ensures Stable(log, probation) <==>
            exists i :: && 0 <= i < |log|
                        && (forall k :: i <= k < |log| ==> log[k].ready)
                        && (i > 0 ==> !log[..i][i - 1].ready)
                        && log[|log| - 1].at - log[i].at >= probation
  {
    if log != [] && log[|log| - 1].ready {
      var start := RunStart(log);
      forall i | 0 <= i < |log| && (forall k :: i <= k < |log| ==> log[k].ready) && (i > 0 ==> !log[..i][i - 1].ready)
        ensures i == start
      {
        assert i > 0 ==> !log[i - 1].ready;
        assert start > 0 ==> !log[start - 1].ready;
      }
    }
  }

  lemma {:induction false} RunStart(log: seq<Observation>) returns (start: nat)
    requires log != [] && log[|log| - 1].ready
    ensures start < |log| && Since(log) == Some(log[start].at)
    ensures forall k :: start <= k < |log| ==> log[k].ready
    ensures start > 0 ==> !log[start - 1].ready
  {
    var before := log[..|log| - 1];
    if before != [] && before[|before| - 1].ready {
      start := RunStart(before);
      assert before[start] == log[start];
    } else {
      start := |log| - 1;
    }
  }

  // --- what a state promises -------------------------------------------------

  /** The link and the releases on disk are those the state needs. */
  ghost predicate Placed(s: RootState, link: Option<string>, disk: map<string, Directory>) {
    && OnDisk(s.active, disk)
    && (s.previous.Some? ==> OnDisk(s.previous.value, disk))
    && match s.phase
       case ActivePhase =>
         s.activation.None? && link == Some(s.active.digest)
       case Activating =>
         && s.activation.Some?
         && var a := s.activation.value;
            && a.previous == s.active
            && a.candidate.sequence > s.highestSequence
            && a.candidate.epoch >= s.minimumEpoch
            && OnDisk(a.candidate, disk)
            && (link == Some(a.candidate.digest) || link == Some(a.previous.digest))
  }

  ghost predicate Increasing(log: seq<Release>) {
    forall i, j :: 0 <= i < j < |log| ==> log[i].sequence < log[j].sequence && log[i].epoch <= log[j].epoch
  }

  /** An increasing history that only the pending candidate, as its last entry, takes above the floors. */
  ghost predicate Within(log: seq<Release>, s: RootState) {
    && Increasing(log)
    && forall i :: 0 <= i < |log| ==>
         || (log[i].sequence <= s.highestSequence && log[i].epoch <= s.minimumEpoch)
         || (s.activation.Some? && i == |log| - 1 && log[i] == s.activation.value.candidate)
  }

  /** The floors are those of the installed state or of some candidate since. */
  ghost predicate Attained(base: RootState, intents: seq<Release>, s: RootState) {
    && (s.highestSequence == base.highestSequence || exists x <- intents :: x.sequence == s.highestSequence)
    && (s.minimumEpoch == base.minimumEpoch || exists x <- intents :: x.epoch == s.minimumEpoch)
  }

  /** Every candidate of the history is at or below the floors of `s`. */
  ghost predicate Below(log: seq<Release>, s: RootState) {
    forall x <- log :: x.sequence <= s.highestSequence && x.epoch <= s.minimumEpoch
  }

  lemma ExtendedWithin(log: seq<Release>, s: RootState)
    requires s.activation.Some?
    requires s.activation.value.candidate.sequence > s.highestSequence && s.activation.value.candidate.epoch >= s.minimumEpoch
    requires Increasing(log) && Below(log, s)
    ensures Within(log + [s.activation.value.candidate], s)
  {
  }

  /** Neither floor is lower afterwards. */
  predicate Floors(before: Option<RootState>, after: Option<RootState>) {
    before.Some? ==>
      && after.Some?
      && before.value.highestSequence <= after.value.highestSequence
      && before.value.minimumEpoch <= after.value.minimumEpoch
  }

  /** The state that ends an activation on its candidate. */
  predicate AdoptedFrom(s: RootState, t: RootState) {
    && s.activation.Some?
    && var a := s.activation.value;
       var found := Find(t.outcomes, a.commandId);
       && found.Some?
       && found.value.operationId == a.operationId
       && found.value.release == a.candidate
       && found.value.status == Active
       && t == CompletedState(s, found.value, a.candidate, Some(a.previous))
  }

  /** The state that ends an activation on the release that was active before it. */
  predicate RolledBackFrom(s: RootState, t: RootState) {
    && s.activation.Some?
    && var a := s.activation.value;
       var found := Find(t.outcomes, a.commandId);
       && found.Some?
       && found.value.operationId == a.operationId
       && found.value.release == a.candidate
       && found.value.status == RolledBack
       && t == CompletedState(s, found.value, a.previous, s.previous)
  }

  /** How an activation ends: settled, on one of its sides, and with its command on record. */
  lemma EndsSettled(s: RootState, t: RootState)
    ensures AdoptedFrom(s, t) || RolledBackFrom(s, t) ==>
              && Retained(t) == Named(t)
              && exists o <- t.outcomes ::
                   && o.commandId == s.activation.value.commandId && o.operationId == s.activation.value.operationId
                   && o.release == s.activation.value.candidate
    ensures AdoptedFrom(s, t) ==>
              && t.phase.ActivePhase? && t.activation.None?
              && t.active == s.activation.value.candidate && t.previous == Some(s.activation.value.previous)
    ensures RolledBackFrom(s, t) ==>
              && t.phase.ActivePhase? && t.activation.None?
              && t.active == s.activation.value.previous && t.previous == s.previous
  {
    if s.activation.Some? {
      FindNone(t.outcomes, s.activation.value.commandId);
    }
  }

  /** The three ways an outcome completes a state: confirmed, rolled back or adopted. */
  predicate Completable(s: RootState, o: UpdateOutcome, active: Release, previous: Option<Release>) {
    match s.phase
    case ActivePhase =>
      o.release == s.active && active == s.active && previous == s.previous
    case Activating =>
      && s.activation.Some?
      && o.release == s.activation.value.candidate
      && ((active == s.active && previous == s.previous) || (active == o.release && previous == Some(s.active)))
  }

  predicate Answers(s: RootState, request: Request, o: UpdateOutcome) {
    && Find(s.outcomes, request.commandId) == Some(o)
    && o.operationId == request.operationId
    && o.release.version == request.version
    && o.release.digest == request.digest
  }

  /** Whether the staging area holds, under the requested digest, just what is requested. */
  predicate StagedFor(staged: map<string, Staged>, request: Request) {
    && request.digest in staged
    && ReleaseFits(staged[request.digest].manifest)
    && staged[request.digest].trusted
    && staged[request.digest].manifest.digest == request.digest
    && staged[request.digest].manifest.version == request.version
  }

  /** The digests of the active release and of the one before it. */
  function Named(s: RootState): set<string> {
    {s.active.digest} + if s.previous.Some? then {s.previous.value.digest} else {}
  }

  function RetainedCount(disk: map<string, Directory>): Option<nat> {
    if |disk| >= 2 then Some(|disk|) else None
  }

  /** No directory is half written or half deleted. */
  predicate AllWhole(disk: map<string, Directory>) {
    forall d <- disk :: disk[d].Whole?
  }

  /** No directory that `s` does not need is half written. */
  predicate Tidy(disk: map<string, Directory>, s: RootState) {
    forall d <- disk :: d in Retained(s) || disk[d].Whole?
  }

  /** The intents after state `s` is persisted. */
  ghost function Intended(intents: seq<Release>, s: RootState): seq<Release> {
    if s.activation.Some? then intents + [s.activation.value.candidate] else intents
  }

  class RootHelper {
    const faulty: bool
    const probation: int
    ghost const installed: set<Release>
    /** The state that the installer left. */
    ghost const base: RootState
    var state: Option<RootState>
    var link: Option<string>
    var releases: map<string, Directory>
    var health: Option<Receipt>
    var staged: map<string, Staged>
    /** Candidates of the activation intents persisted so far. */
    ghost var intents: seq<Release>
    /** Releases the link was switched to as a candidate so far. */
    ghost var switches: seq<Release>
    /** Releases for which a fresh exact receipt was read. */
    ghost var proven: set<Release>
    /** What the link pointed at when the agent was restarted, so far. */
    ghost var restarts: seq<Option<string>>
    /** What the health checks looked at, so far. */
    ghost var looks: seq<Look>
    /** The health checks that came to a verdict, so far. */
    ghost var checks: seq<Check>

    /** A root whose installer left `s` on disk. */
    constructor (s: RootState, disk: map<string, Directory>, faulty: bool, probation: int)
      requires Readable(s) && UniqueIds(s.outcomes) && s.phase.ActivePhase?
      requires Placed(s, Some(s.active.digest), disk)
      requires forall d <- disk :: disk[d].Whole? ==> disk[d].release.digest == d
      ensures Safe()
      ensures state == Some(s) && releases == disk && intents == [] && switches == [] && proven == {}
      ensures this.faulty == faulty && base == s
      ensures installed == {s.active} + if s.previous.Some? then {s.previous.value} else {}
    {
      this.faulty, this.probation, this.base := faulty, probation, s;
      installed := {s.active} + if s.previous.Some? then {s.previous.value} else {};
      state, link, releases := Some(s), Some(s.active.digest), disk;
      health, staged := None, map[];
      intents, switches, proven, restarts, looks, checks := [], [], {}, [], [], [];
    }

    /** What holds after every step of every run. */
    ghost predicate Safe()
      reads `state, `link, `releases, `intents, `switches, `proven, `restarts
    {
      && (forall d <- releases :: releases[d].Whole? ==> releases[d].release.digest == d)
      && (forall x <- switches :: x in intents)
      && (state.Some? ==>
            var s := state.value;
            && Readable(s) && UniqueIds(s.outcomes)
            && Placed(s, link, releases)
            && Within(intents, s) && Within(switches, s) && Attained(base, intents, s)
            && (s.activation.Some? ==> intents != [] && intents[|intents| - 1] == s.activation.value.candidate)
            && s.active in installed + proven
            && (s.previous.Some? ==> s.previous.value in installed + proven))
    }

    /** Histories and floors only grow. */
    twostate predicate Grew()
      reads `state, `intents, `switches, `proven, `restarts, `checks
    {
      && Floors(old(state), state)
      && old(checks) <= checks
      && old(intents) <= intents
      && old(switches) <= switches
      && old(proven) <= proven
    }

    // --- steps ---------------------------------------------------------------

    method Disturbance(raw: bool) returns (o: Outcome<HelperError>)
      ensures !faulty ==> o.Pass?
      ensures o.Fail? ==> o.error == Crashed || o.error == Unsafe || (raw && o.error == Raw)
    {
      o := Pass;
      if faulty {
        if * {
          o := Fail(Crashed);
        } else if * {
          o := Fail(Unsafe);
        } else if raw {
          o := Fail(Raw);
        }
      }
    }

    method Now() returns (t: int) {
      t := *;
    }

    method ReadState() returns (r: Result<Option<RootState>, HelperError>)
      ensures r.Ok? ==> r.value == state && (state.Some? ==> Readable(state.value))
      ensures !faulty ==> (r.Ok? <==> (state.Some? ==> Readable(state.value)))
      ensures r.Err? ==> r.error == Crashed || r.error == Unsafe
    {
      var o := Disturbance(false);
      if o.Fail? {
        return Err(o.error);
      }
      if state.Some? {
        var s := state.value;
        if !(&& ReleaseFits(s.active) && (s.previous.Some? ==> ReleaseFits(s.previous.value))
             && (s.activation.Some? ==>
                   && |s.activation.value.commandId| <= 128 && |s.activation.value.operationId| <= 128
                   && ReleaseFits(s.activation.value.candidate) && ReleaseFits(s.activation.value.previous))
             && |s.outcomes| <= 32
             && (forall o <- s.outcomes :: |o.commandId| <= 128 && |o.operationId| <= 128 && ReleaseFits(o.release))
             && 1 <= s.highestSequence <= 9007199254740991 && 1 <= s.minimumEpoch <= 9007199254740991)
        {
          return Err(Unsafe);
        }
        if s.highestSequence < s.active.sequence || s.minimumEpoch < s.active.epoch
           || (s.previous.Some? && (s.highestSequence < s.previous.value.sequence || s.minimumEpoch < s.previous.value.epoch))
        {
          return Err(Unsafe);
        }
      }
      r := Ok(state);
    }

    /** Replace the state file atomically. */
    method PersistState(s: RootState) returns (o: Outcome<HelperError>)
      modifies `state, `intents
      ensures o.Pass? ==> state == Some(s)
      ensures (state == old(state) && intents == old(intents)) || (state == Some(s) && intents == Intended(old(intents), s))
      ensures o.Pass? ==> intents == Intended(old(intents), s)
      ensures !faulty ==> o.Pass?
      ensures o.Fail? ==> o.error == Crashed || o.error == Unsafe
    {
      o := Disturbance(false);
      if o.Fail? {
        return;
      }
      state := Some(s);
      intents := Intended(intents, s);
      o := Disturbance(false);
    }

    method AssertRelease(release: Release) returns (o: Outcome<HelperError>)
      ensures o.Pass? ==> OnDisk(release, releases)
      ensures !faulty ==> o.Pass? || (o.error == Unsafe && !OnDisk(release, releases))
      ensures o.Fail? ==> o.error == Crashed || o.error == Unsafe || o.error == Raw
    {
      o := Disturbance(true);
      if o.Pass? && (release.digest !in releases || releases[release.digest] != Whole(release)) {
        o := Fail(Unsafe);
      }
    }

    /** The release the link points at; a dangling link reads as no release. */
    method CurrentTarget() returns (r: Result<Option<Release>, HelperError>)
      ensures r.Ok? && r.value.Some? ==> link.Some? && link.value in releases && releases[link.value] == Whole(r.value.value)
      ensures !faulty && link.Some? && link.value in releases && releases[link.value].Whole? ==> r.Ok? && r.value.Some?
      ensures r.Err? ==> r.error == Crashed || r.error == Unsafe
    {
      var o := Disturbance(false);
      if o.Fail? {
        return Err(o.error);
      }
      if link.None? || link.value !in releases {
        return Ok(None);
      }
      match releases[link.value]
      case Whole(release) =>
        r := Ok(Some(release));
      case Broken =>
        if * {
          r := Ok(None);
        } else {
          r := Err(Unsafe);
        }
    }

    method ReadStagedManifest(request: Request) returns (r: Result<Release, HelperError>)
      ensures r.Ok? ==> StagedFor(staged, request) && r.value == staged[request.digest].manifest
      ensures !faulty ==> (r.Ok? <==> StagedFor(staged, request))
    {
      var o := Disturbance(true);
      if o.Fail? {
        return Err(o.error);
      }
      if request.digest !in staged {
        return Err(Unsafe);
      }
      var found := staged[request.digest];
      var manifest := found.manifest;
      if !(&& |manifest.version| <= 64 && |manifest.digest| == 71
           && 1 <= manifest.sequence <= 9007199254740991 && 1 <= manifest.epoch <= 9007199254740991)
      {
        return Err(InvalidManifest);
      }
      if !found.trusted || manifest.digest != request.digest || manifest.version != request.version {
        return Err(InvalidManifest);
      }
      r := Ok(manifest);
    }

    method ReadStagedArtifact(manifest: Release) returns (o: Outcome<HelperError>)
      ensures o.Pass? ==> manifest.digest in staged && staged[manifest.digest].intact
      ensures !faulty ==> (o.Pass? <==> manifest.digest in staged && staged[manifest.digest].intact)
    {
      o := Disturbance(true);
      if o.Fail? {
        return;
      }
      if manifest.digest !in staged {
        return Fail(Unsafe);
      }
      if !staged[manifest.digest].intact {
        return Fail(ArtifactRejected);
      }
    }

    /** Create the release directory if it does not exist, and check what stands there. */
    method EnsureRelease(release: Release) returns (o: Outcome<HelperError>)
      requires Safe()
      modifies `releases
      ensures Safe()
      ensures o.Pass? ==> OnDisk(release, releases)
      ensures forall d <- old(releases) :: d in releases && releases[d] == old(releases)[d]
      ensures forall d <- releases :: d in old(releases) || d == release.digest
      ensures !faulty ==> (o.Pass? <==> release.digest !in old(releases) || OnDisk(release, old(releases)))
      ensures o.Pass? ==> releases == old(releases)[release.digest := Whole(release)]
      ensures !faulty && o.Fail? ==> o.error == Unsafe
    {
      hide Safe;
      o := Disturbance(false);
      if o.Fail? {
        return;
      }
      if release.digest !in releases {
        o := CreateRelease(release);
        if o.Fail? {
          return;
        }
      }
      o := AssertRelease(release);
    }

    /** Make the release directory, then fill it. */
    method CreateRelease(release: Release) returns (o: Outcome<HelperError>)
      requires Safe() && release.digest !in releases
      modifies `releases
      ensures Safe()
      ensures releases - {release.digest} == old(releases)
      ensures o.Pass? ==> releases == old(releases)[release.digest := Whole(release)]
      ensures !faulty ==> o.Pass?
    {
      hide Readable, UniqueIds, Within, Increasing;
      releases := releases[release.digest := Broken];
      o := Disturbance(false);
      if o.Fail? {
        return;
      }
      releases := releases[release.digest := Whole(release)];
      o := Disturbance(false);
    }

    /** Replace the `current` link atomically and read it back. */
    method ActivateCurrent(release: Release, ghost asCandidate: bool) returns (o: Outcome<HelperError>)
      requires Safe() && state.Some? && state.value.phase.Activating?
      requires if asCandidate
               then release == state.value.activation.value.candidate
                    && Below(switches, state.value)
               else release == state.value.active
      modifies `link, `switches
      ensures Safe()
      ensures o.Pass? ==> link == Some(release.digest)
      ensures o.Pass? ==> switches == if asCandidate then old(switches) + [release] else old(switches)
      ensures (link == old(link) && switches == old(switches))
              || (link == Some(release.digest) && switches == if asCandidate then old(switches) + [release] else old(switches))
      ensures !faulty ==> o.Pass? && switches == if asCandidate then old(switches) + [release] else old(switches)
      ensures o.Fail? ==> o.error in {Crashed, Unsafe, Raw}
    {
      if asCandidate {
        ExtendedWithin(switches, state.value);
      }
      hide Readable, UniqueIds, Within, Increasing, Attained, Below;
      o := AssertRelease(release);
      if o.Fail? {
        return;
      }
      o := Disturbance(false);
      if o.Fail? {
        return;
      }
      link := Some(release.digest);
      switches := if asCandidate then switches + [release] else switches;
      o := Disturbance(false);
      if o.Fail? {
        return;
      }
      var observed := CurrentTarget();
      if observed.Err? {
        return Fail(observed.error);
      }
      if observed.value != Some(release) {
        return Fail(Unsafe);
      }
    }

    method ClearHealth() returns (o: Outcome<HelperError>)
      modifies `health
      ensures o.Pass? ==> health.None?
      ensures !faulty ==> o.Pass?
      ensures o.Fail? ==> o.error == Crashed || o.error == Unsafe
    {
      o := Disturbance(false);
      if o.Fail? {
        return;
      }
      health := None;
      o := Disturbance(false);
    }

    /** The running agent may write any receipt. */
    method AgentRuns()
      modifies `health
    {
      health := *;
    }

    method Restart() returns (o: Outcome<HelperError>)
      requires Safe()
      modifies `health, `restarts
      ensures Safe()
      ensures restarts == old(restarts) + [link]
      ensures !faulty ==> o.Pass?
      ensures o.Fail? ==> o.error == Crashed || o.error == Rejected
    {
      AgentRuns();
      restarts := restarts + [link];
      o := Pass;
      if faulty {
        if * {
          o := Fail(Crashed);
        } else if * {
          o := Fail(Rejected);
        }
      }
    }

    /** Ask the service manager whether the agent runs. */
    method IsActive() returns (active: bool)
      modifies `looks
      ensures looks == old(looks) + [if active then UnitUp else UnitDown]
    {
      active := *;
      looks := looks + [if active then UnitUp else UnitDown];
    }

    /** The default probe: an unreadable receipt is not a healthy one. */
    method Healthy(release: Release, startedAfter: int) returns (r: Result<bool, HelperError>)
      requires Safe()
      modifies `proven, `looks
      ensures Safe()
      ensures r == Ok(true) ==> Fresh(health, release, startedAfter) && proven == old(proven) + {release}
      ensures r != Ok(true) ==> proven == old(proven)
      ensures r.Ok? ==> looks == old(looks) + [Probed(release, r.value)]
      ensures !faulty ==> r == Ok(Fresh(health, release, startedAfter))
      ensures r.Err? ==> r.error == Crashed
    {
      var o := Disturbance(true);
      if o == Fail(Crashed) {
        return Err(Crashed);
      }
      r := Ok(
        && o.Pass? && health.Some?
        && health.value.writtenAt >= startedAfter
        && health.value.version == release.version && health.value.digest == release.digest
        && health.value.startedAt >= startedAfter);
      looks := looks + [Probed(release, r.value)];
      if r.value {
        proven := proven + {release};
      }
    }

    /** One attempt: probe the agent if it runs. */
    method Observe(release: Release, startedAfter: int) returns (r: Result<Observation, HelperError>)
      requires Safe()
      modifies `health, `proven, `looks
      ensures Safe() && old(proven) <= proven
      ensures r.Ok? ==> looks == old(looks) + if r.value.active then [UnitUp, Probed(release, r.value.ready)] else [UnitDown]
      ensures r.Ok? && r.value.ready ==> r.value.active && Fresh(health, release, startedAfter) && release in proven
      ensures r.Err? ==> r.error == Crashed
      ensures !faulty ==> r.Ok?
    {
      hide Safe;
      var active := IsActive();
      var ready := false;
      AgentRuns();
      if active {
        var probed := Healthy(release, startedAfter);
        if probed.Err? {
          return Err(probed.error);
        }
        ready := probed.value;
      }
      var observedAt := Now();
      r := Ok(Observation(active, ready, observedAt));
    }

    /** Poll until the agent has been ready without a gap for the probation period. */
    method WaitForHealth(release: Release, startedAfter: int)
      returns (r: Result<bool, HelperError>, ghost log: seq<Observation>)
      requires Safe()
      modifies `health, `proven, `looks, `checks
      ensures Safe()
      ensures old(proven) <= proven
      // The verdict is the stability of the log.
      ensures checks == if r.Ok? then old(checks) + [Check(release, log)] else old(checks)
      ensures r.Ok? ==> (r.value <==> Stable(log, probation))
      // The log is what was seen: an active agent is probed, and ready is what the probe answered.
      ensures r.Ok? ==> looks == old(looks) + Looks(log, release)
      ensures forall k :: 0 <= k < |log| && log[k].ready ==> log[k].active
      ensures r == Ok(true) ==> Fresh(health, release, startedAfter) && release in proven && Stable(log, probation)
      ensures r == Ok(false) ==> |log| == ATTEMPTS && forall n :: 0 <= n <= ATTEMPTS ==> !Stable(log[..n], probation)
      ensures r.Err? ==> r.error == Crashed
      ensures !faulty ==> r.Ok?
    {
      hide Safe, Fresh, NeverStable, Stable, Since, Looks;
      r, log := Ok(false), [];
      NeverAtFirst(probation, release);
      var stableSince: Option<int> := None;
      for attempt := 0 to ATTEMPTS
        invariant |log| == attempt && Since(log) == stableSince
        invariant NeverStable(log, probation)
        invariant looks == old(looks) + Looks(log, release)
        invariant forall k :: 0 <= k < |log| && log[k].ready ==> log[k].active
        invariant old(proven) <= proven && Safe()
        invariant r == Ok(false) && checks == old(checks)
      {
        var observed := Observe(release, startedAfter);
        if observed.Err? {
          return Err(observed.error), log;
        }
        var ready, observedAt := observed.value.ready, observed.value.at;
        ghost var before := log;
        log := log + [observed.value];
        ObservedNext(before, observed.value, release, probation);
        if ready {
          if stableSince.None? {
            stableSince := Some(observedAt);
          }
          if observedAt - stableSince.value >= probation {
            checks := checks + [Check(release, log)];
            return Ok(true), log;
          }
        } else {
          stableSince := None;
        }
        NeverNext(before, observed.value, probation);
      }
      NeverWhole(log, probation);
      checks := checks + [Check(release, log)];
    }

    method ReleaseCount() returns (r: Result<nat, HelperError>)
      ensures r.Ok? ==> r.value == |releases|
      ensures !faulty ==> r.Ok?
      ensures r.Err? ==> r.error == Crashed || r.error == Raw || r.error == Unsafe
    {
      var o := Disturbance(true);
      r := if o.Fail? then Err(o.error) else Ok(|releases|);
    }

    /** Delete every release directory the state does not name. */
    method GarbageCollect(s: RootState) returns (o: Outcome<HelperError>)
      requires Safe() && state == Some(s)
      modifies `releases
      ensures Safe()
      ensures o.Pass? ==> releases == Keep(old(releases), Retained(s))
      ensures o.Pass? && s.phase.ActivePhase? ==> releases.Keys == Retained(s)
      ensures !faulty ==> (o.Pass? <==> Tidy(old(releases), s))
      ensures o.Fail? ==> o.error == Crashed || o.error == Unsafe || o.error == Raw
    {
      hide Readable, UniqueIds, Within;
      o := DeleteUnretained(Retained(s));
    }

    method DeleteUnretained(retained: set<string>) returns (o: Outcome<HelperError>)
      modifies `releases
      ensures o.Pass? ==> releases == Keep(old(releases), retained)
      ensures Remains(old(releases), releases, retained)
      ensures !faulty ==> (o.Pass? <==> forall d <- old(releases) :: d in retained || old(releases)[d].Whole?)
      ensures o.Fail? ==> o.error == Crashed || o.error == Unsafe || o.error == Raw
    {
      o := Disturbance(true);
      if o.Fail? {
        return;
      }
      var entries := releases.Keys;
      while entries != {}
        invariant entries <= releases.Keys
        invariant Remains(old(releases), releases, retained)
        invariant forall d <- entries :: releases[d] == old(releases)[d]
        invariant forall d <- releases :: d in entries || d in retained
        invariant forall d <- old(releases) :: d in entries || d in retained || old(releases)[d].Whole?
        invariant o.Pass?
        decreases |entries|
      {
        var d :| d in entries;
        entries := entries - {d};
        if d !in retained {
          if releases[d].Broken? {
            return Fail(Unsafe);
          }
          o := DeleteRelease(d);
          if o.Fail? {
            return;
          }
        }
      }
    }

    /** Delete one directory, file by file. */
    method DeleteRelease(d: string) returns (o: Outcome<HelperError>)
      requires d in releases
      modifies `releases
      ensures forall e <- releases :: e in old(releases) && (e != d ==> releases[e] == old(releases)[e])
      ensures forall e <- old(releases) :: e != d ==> e in releases
      ensures o.Pass? ==> d !in releases
      ensures d in releases ==> releases[d] == old(releases)[d] || releases[d].Broken?
      ensures !faulty ==> o.Pass?
      ensures o.Fail? ==> o.error == Crashed || o.error == Unsafe || o.error == Raw
    {
      o := Disturbance(true);
      if o.Fail? {
        return;
      }
      releases := releases[d := Broken];
      o := Disturbance(true);
      if o.Fail? {
        return;
      }
      releases := releases - {d};
      o := Disturbance(true);
    }

    // --- what a safe state gives ----------------------------------------------

    lemma SettledState(s: RootState)
      requires Safe() && state == Some(s) && s.phase.ActivePhase?
      ensures s.activation.None? && link == Some(s.active.digest) && OnDisk(s.active, releases)
      ensures s.active.sequence <= s.highestSequence && s.active.epoch <= s.minimumEpoch
      ensures s.active in installed + proven
      ensures Below(switches, s) && Retained(s) == Named(s)
      ensures ReleaseFits(s.active)
    {
    }

    lemma Replayed(s: RootState, request: Request)
      requires Safe() && state == Some(s)
      ensures ExactOutcome(s, request) == Ok(None) <==> forall o <- s.outcomes :: o.commandId != request.commandId
      ensures forall o <- s.outcomes :: o.commandId == request.commandId ==>
                ExactOutcome(s, request) ==
                if && o.operationId == request.operationId
                   && o.release.version == request.version && o.release.digest == request.digest
                then Ok(Some(o)) else Err(Rejected)
      ensures ExactOutcome(s, request).Ok? && ExactOutcome(s, request).value.Some? ==>
                Answers(s, request, ExactOutcome(s, request).value.value)
    {
      ReplayMeans(s, request);
      FindNone(s.outcomes, request.commandId);
      forall o | o in s.outcomes && o.commandId == request.commandId
        ensures Find(s.outcomes, request.commandId) == Some(o)
      {
        FindIn(s.outcomes, o);
      }
    }

    lemma OpenActivation(s: RootState)
      requires Safe() && state == Some(s) && s.phase.Activating?
      ensures s.activation.Some? && ActivationFits(s.activation.value)
      ensures var a := s.activation.value;
              && a.previous == s.active && a.candidate != s.active
              && OnDisk(a.candidate, releases) && OnDisk(a.previous, releases)
              && (link == Some(a.candidate.digest) || link == Some(a.previous.digest))
      ensures s.active in installed + proven
      ensures !AdoptedFrom(s, s) && !RolledBackFrom(s, s)
    {
    }

    lemma SettledBelow()
      requires Safe() && state.Some?
      ensures state.value.phase.ActivePhase? ==> Below(intents, state.value)
    {
    }

    lemma ReadableState()
      requires Safe() && state.Some?
      ensures Readable(state.value)
    {
    }

    // --- operations ----------------------------------------------------------

    /** A completed state needs nothing but its own releases. */
    lemma CompletedPlaces(s: RootState, o: UpdateOutcome, active: Release, previous: Option<Release>)
      requires Safe() && state == Some(s)
      requires Completable(s, o, active, previous) && OutcomeFits(o)
      ensures var c := CompletedState(s, o, active, previous);
              && Readable(c) && UniqueIds(c.outcomes)
              && Floors(state, Some(c))
              && (link == Some(active.digest) ==> Placed(c, link, releases))
              && Within(intents, c) && Within(switches, c) && Attained(base, intents, c)
              && c.active == active && c.previous == previous && c.phase.ActivePhase? && c.activation.None?
              && Find(c.outcomes, o.commandId) == Some(o)
    {
      CompletedIsReadable(s, o, active, previous);
    }

    /**
     Persist the state that completes an activation and collect the releases it does
     not need; `committed` says whether the state was persisted for certain.
     */
    method Complete(s: RootState, outcome: UpdateOutcome, active: Release, previous: Option<Release>)
      returns (o: Outcome<HelperError>, committed: bool)
      requires Safe() && state == Some(s)
      requires Completable(s, outcome, active, previous) && OutcomeFits(outcome)
      requires link == Some(active.digest) && active in installed + proven
      modifies `state, `releases, `intents
      ensures Safe() && Grew() && intents == old(intents)
      ensures state == old(state) || state == Some(CompletedState(s, outcome, active, previous))
      ensures committed ==> state == Some(CompletedState(s, outcome, active, previous))
      ensures Find(CompletedState(s, outcome, active, previous).outcomes, outcome.commandId) == Some(outcome)
      ensures o.Pass? ==> committed && state.Some? && releases.Keys == Retained(state.value)
      ensures !committed ==> o.Fail? && (o.error == Unsafe || o.error == Crashed)
      ensures !faulty ==>
                && committed
                && (o.Pass? <==> Tidy(old(releases), CompletedState(s, outcome, active, previous)))
                && (AllWhole(old(releases)) ==> o.Pass? && AllWhole(releases))
    {
      hide Readable, UniqueIds, CompletedState, Retained, Increasing, Find;
      var completed := CompletedState(s, outcome, active, previous);
      CompletedPlaces(s, outcome, active, previous);
      committed := false;
      o := PersistState(completed);
      if o.Fail? {
        return;
      }
      committed := true;
      o := GarbageCollect(completed);
    }

    /** The next health check was of `release`, and this is its verdict. */
    twostate predicate Checked(n: nat, release: Release, stable: bool)
      reads `checks
    {
      && |old(checks)| + n < |checks| && checks[|old(checks)| + n].release == release
      && (Stable(checks[|old(checks)| + n].log, probation) <==> stable)
    }

    /** Point the link at `release`, restart the agent and wait until it has proved healthy. */
    method SwitchTo(release: Release, ghost asCandidate: bool) returns (o: Outcome<HelperError>)
      requires Safe() && state.Some? && state.value.phase.Activating?
      requires if asCandidate
               then release == state.value.activation.value.candidate
                    && Below(switches, state.value)
               else release == state.value.active
      modifies `link, `health, `switches, `proven, `restarts, `looks, `checks
      ensures Safe() && Grew()
      ensures switches == old(switches) || (asCandidate && switches == old(switches) + [release])
      ensures o.Pass? ==>
                && link == Some(release.digest) && release in proven
                && restarts == old(restarts) + [link]
                && switches == if asCandidate then old(switches) + [release] else old(switches)
      ensures !faulty && asCandidate ==> switches == old(switches) + [release]
      // Without faults it succeeds exactly if the release proves healthy throughout its probation.
      ensures !faulty ==> |checks| == |old(checks)| + 1 && Checked(0, release, o.Pass?) && (o.Fail? ==> o.error == Rejected)
    {
      hide Safe;
      var startedAt := Now();
      o := ClearHealth();
      if o.Fail? {
        return;
      }
      o := ActivateCurrent(release, asCandidate);
      if o.Fail? {
        return;
      }
      o := Restart();
      if o.Fail? {
        return;
      }
      var healthy, _ := WaitForHealth(release, startedAt);
      if healthy.Err? {
        return Fail(healthy.error);
      }
      if !healthy.value {
        return Fail(Rejected);
      }
    }

    /** Return to the release that was active before, and record that the candidate was rolled back. */
    method Rollback(s: RootState) returns (r: Result<RootState, HelperError>)
      requires Safe() && state == Some(s) && s.phase.Activating?
      modifies `state, `link, `releases, `health, `intents, `switches, `proven, `restarts, `looks, `checks
      ensures Safe() && Grew()
      ensures intents == old(intents) && switches == old(switches)
      ensures state == old(state) || RolledBackFrom(s, state.value)
      ensures r.Ok? ==> state == Some(r.value) && RolledBackFrom(s, r.value) && releases.Keys == Retained(r.value)
      // The old release was restarted, and was healthy, before the rollback was recorded.
      ensures state != old(state) ==>
                restarts == old(restarts) + [Some(s.active.digest)] && link == Some(s.active.digest)
      // Without faults it is recorded exactly if the old release proves healthy.
      ensures !faulty ==> |checks| == |old(checks)| + 1 && Checked(0, s.active, state != old(state))
      ensures !faulty && state != old(state) && AllWhole(old(releases)) ==> r.Ok? && AllWhole(releases)
    {
      hide Safe, CompletedState, Retained, Find, AllWhole;
      OpenActivation(s);
      var activation := s.activation.value;
      var o := SwitchTo(activation.previous, false);
      if o.Fail? {
        return Err(o.error);
      }
      var observedAt := Now();
      var outcome := UpdateOutcome(
        activation.commandId, activation.operationId, activation.candidate, RolledBack, observedAt);
      var completed, _ := Complete(s, outcome, activation.previous, s.previous);
      r := if completed.Fail? then Err(completed.error) else Ok(state.value);
    }

    /** Settle an activation that an earlier call left open. */
    method RecoverActivation(s: RootState) returns (r: Result<RootState, HelperError>)
      requires Safe() && state == Some(s) && s.phase.Activating?
      modifies `state, `link, `releases, `health, `intents, `switches, `proven, `restarts, `looks, `checks
      ensures Safe() && Grew()
      ensures intents == old(intents) && switches == old(switches)
      // The activation is still open, or it ended on the candidate or on the release before it.
      ensures state == old(state) || AdoptedFrom(s, state.value) || RolledBackFrom(s, state.value)
      ensures r.Ok? ==> state == Some(r.value) && (AdoptedFrom(s, r.value) || RolledBackFrom(s, r.value))
      ensures r.Ok? ==> releases.Keys == Retained(r.value)
      // It ends on the candidate only with its exact receipt, written since the activation began.
      ensures AdoptedFrom(s, state.value) ==>
                && restarts == old(restarts)
                && old(link) == Some(s.activation.value.candidate.digest)
                && Fresh(old(health), s.activation.value.candidate, s.activation.value.startedAt)
      // With that receipt, and without faults, it does.
      ensures !faulty && old(link) == Some(s.activation.value.candidate.digest)
              && Fresh(old(health), s.activation.value.candidate, s.activation.value.startedAt) ==>
                AdoptedFrom(s, state.value)
      // Without it, the activation is rolled back once the old release proves healthy.
      ensures !faulty && !(&& old(link) == Some(s.activation.value.candidate.digest)
                           && Fresh(old(health), s.activation.value.candidate, s.activation.value.startedAt)) ==>
                Checked(0, s.active, RolledBackFrom(s, state.value))
    {
      hide Safe, CompletedState, Retained, Find;
      OpenActivation(s);
      var activation := s.activation.value;
      var current := CurrentTarget();
      if current.Err? {
        return Err(current.error);
      }
      if current.value == Some(activation.candidate) {
        var healthy := Healthy(activation.candidate, activation.startedAt);
        if healthy.Err? {
          return Err(healthy.error);
        }
        if healthy.value {
          var observedAt := Now();
          var outcome := UpdateOutcome(
            activation.commandId, activation.operationId, activation.candidate, Active, observedAt);
          var completed, _ := Complete(s, outcome, activation.candidate, Some(activation.previous));
          return if completed.Fail? then Err(completed.error) else Ok(state.value);
        }
      }
      r := Rollback(s);
      Different(s, state.value);
    }

    /** An activation ends on one side only. */
    lemma Different(s: RootState, t: RootState)
      requires s.activation.Some? && s.activation.value.candidate != s.activation.value.previous
      ensures !(AdoptedFrom(s, t) && RolledBackFrom(s, t))
    {
    }

    /** The guarded part of an activation: everything after its intent was persisted. */
    method TryActivate(s: RootState) returns (r: Result<Proof, HelperError>, committed: bool)
      requires Safe() && state == Some(s) && s.phase.Activating?
      requires Below(switches, s)
      modifies `state, `link, `releases, `health, `intents, `switches, `proven, `restarts, `looks, `checks
      ensures Safe() && Grew()
      ensures intents == old(intents)
      ensures switches == old(switches) || switches == old(switches) + [s.activation.value.candidate]
      ensures state == old(state) || AdoptedFrom(s, state.value)
      ensures committed ==> AdoptedFrom(s, state.value)
      ensures state != old(state) ==>
                restarts == old(restarts) + [Some(s.activation.value.candidate.digest)]
      ensures r.Ok? ==>
                && committed
                && !r.value.duplicate
                && Find(state.value.outcomes, s.activation.value.commandId) == Some(r.value.outcome)
                && releases.Keys == Retained(state.value)
                && r.value.retained == RetainedCount(releases)
                && switches == old(switches) + [s.activation.value.candidate]
      ensures r.Err? && !committed && r.error != Unsafe && r.error != Crashed ==> state == old(state)
      // Without faults the candidate is adopted exactly if it proves healthy.
      ensures !faulty ==>
                && |checks| == |old(checks)| + 1 && Checked(0, s.activation.value.candidate, committed)
                && (if committed then AllWhole(old(releases)) ==> r.Ok?
                    else r == Err(Rejected) && state == old(state) && releases == old(releases))
      ensures !faulty ==> switches == old(switches) + [s.activation.value.candidate]
    {
      hide Safe, CompletedState, Retained, Find;
      OpenActivation(s);
      committed := false;
      var activation := s.activation.value;
      var o := SwitchTo(activation.candidate, true);
      if o.Fail? {
        return Err(o.error), committed;
      }
      var observedAt := Now();
      var outcome := UpdateOutcome(
        activation.commandId, activation.operationId, activation.candidate, Active, observedAt);
      o, committed := Complete(s, outcome, activation.candidate, Some(activation.previous));
      if o.Fail? {
        return Err(o.error), committed;
      }
      var count := ReleaseCount();
      if count.Err? {
        return Err(count.error), committed;
      }
      r := Ok(Proof(outcome, false, RetainedCount(releases)));
    }

    /** What a request leads to from a settled state `s`, given what was on disk and staged. */
    twostate predicate Served(s: RootState, request: Request, new r: Result<Proof, HelperError>)
      reads this
    {
      var recorded := exists o <- s.outcomes :: o.commandId == request.commandId;
      && (r.Ok? ==> r.value.duplicate == recorded)
      // A recorded command is answered from the record, or refused if it was another request, and nothing moves.
      && (recorded ==>
            && state == old(state) && link == old(link) && health == old(health)
            && intents == old(intents) && switches == old(switches) && restarts == old(restarts))
      && (forall o <- s.outcomes :: o.commandId == request.commandId ==>
            if && o.operationId == request.operationId
               && o.release.version == request.version && o.release.digest == request.digest
            then (r.Ok? ==> r.value.outcome == o) && (!faulty && Tidy(old(releases), s) ==> r.Ok?)
            else r.Err? && (!faulty ==> r == Err(Rejected)))
      // Another release at or below a floor is refused, and nothing moves.
      && (!recorded && request.digest in staged ==>
            var other := staged[request.digest].manifest;
            other != s.active && (other.sequence <= s.highestSequence || other.epoch < s.minimumEpoch) ==>
              && state == old(state) && link == old(link) && health == old(health)
              && intents == old(intents) && switches == old(switches) && releases == old(releases)
              && r.Err?
              && (!faulty && StagedFor(staged, request) ==> r == Err(Rejected)))
      // Only a trusted, intact release above the floors becomes a candidate, once, after its intent.
      && (intents == old(intents) ==> switches == old(switches))
      && (intents != old(intents) ==>
            && !recorded && StagedFor(staged, request) && staged[request.digest].intact
            && var candidate := staged[request.digest].manifest;
               && candidate.sequence > s.highestSequence && candidate.epoch >= s.minimumEpoch
               && intents == old(intents) + [candidate]
               && (switches == old(switches) || switches == old(switches) + [candidate]))
      // A new answer names the requested release and the side the activation ended on.
      && (r.Ok? && !recorded ==>
            && StagedFor(staged, request) && state.Some?
            && r.value.outcome.release == staged[request.digest].manifest
            && match r.value.outcome.status
               case Active =>
                 && state.value.active == r.value.outcome.release
                 && (if r.value.outcome.release == s.active
                     then state.value.previous == s.previous && switches == old(switches) && restarts == old(restarts)
                     else state.value.previous == Some(s.active)
                          && switches == old(switches) + [r.value.outcome.release])
               case RolledBack =>
                 && state.value.active == s.active && state.value.previous == s.previous
                 && intents == old(intents) + [r.value.outcome.release])
      // Without faults a release above the floors is tried, and the active one is confirmed.
      && (!faulty && !recorded && StagedFor(staged, request) && staged[request.digest].intact ==>
            var candidate := staged[request.digest].manifest;
            && (candidate.sequence > s.highestSequence && candidate.epoch >= s.minimumEpoch
                && (candidate.digest !in old(releases) || OnDisk(candidate, old(releases))) ==>
                  && switches == old(switches) + [candidate] && OnProbation(s, candidate)
                  && (AllWhole(old(releases)) && state.value.phase.ActivePhase? ==> r.Ok?))
            && (candidate == s.active && Tidy(old(releases), s) ==> r.Ok? && r.value.outcome.status == Active))
    }

    lemma SameRetained(s: RootState, outcome: UpdateOutcome)
      requires s.activation.None?
      ensures Retained(CompletedState(s, outcome, s.active, s.previous)) == Retained(s) == Named(s)
    {
    }

    /** Record a request for the release that is already active. */
    method Confirm(s: RootState, request: Request) returns (r: Result<Proof, HelperError>)
      requires Safe() && state == Some(s) && s.phase.ActivePhase?
      requires request.digest == s.active.digest && request.version == s.active.version && RequestFits(request)
      modifies `state, `releases, `intents
      ensures Safe() && Grew() && intents == old(intents)
      ensures r.Ok? ==>
                && !r.value.duplicate && r.value.outcome.release == s.active && r.value.outcome.status == Active
                && state.value.active == s.active && state.value.previous == s.previous
                && Settled(request, r.value)
      ensures !faulty && Tidy(old(releases), s) ==> r.Ok?
    {
      hide Safe, Retained, Find;
      SettledState(s);
      var observedAt := Now();
      var outcome := UpdateOutcome(request.commandId, request.operationId, s.active, Active, observedAt);
      SameRetained(s, outcome);
      var o, _ := Complete(s, outcome, s.active, s.previous);
      if o.Fail? {
        return Err(o.error);
      }
      var count := ReleaseCount();
      if count.Err? {
        return Err(count.error);
      }
      r := Ok(Proof(outcome, false, RetainedCount(releases)));
    }

    /** Persist the intent to activate `candidate`. */
    method PersistIntent(s: RootState, request: Request, candidate: Release)
      returns (o: Outcome<HelperError>, activating: RootState)
      requires Safe() && state == Some(s) && s.phase.ActivePhase?
      requires OnDisk(candidate, releases) && candidate != s.active
      requires candidate.sequence > s.highestSequence && candidate.epoch >= s.minimumEpoch
      requires RequestFits(request) && ReleaseFits(candidate)
      modifies `state, `intents
      ensures Safe() && Grew()
      ensures activating.phase.Activating? && activating.activation.Some?
      ensures activating == s.(phase := Activating, activation := activating.activation)
      ensures var a := activating.activation.value;
              && a.commandId == request.commandId && a.operationId == request.operationId
              && a.candidate == candidate && a.previous == s.active
      ensures (state == old(state) && intents == old(intents))
              || (state == Some(activating) && intents == old(intents) + [candidate])
      ensures o.Pass? ==> state == Some(activating)
      ensures !faulty ==> o.Pass?
    {
      var startedAt := Now();
      var activation := Activation(request.commandId, request.operationId, candidate, s.active, startedAt);
      activating := s.(phase := Activating, activation := Some(activation));
      ExtendedWithin(intents, activating);
      assert Readable(activating) && Within(switches, activating) && Placed(activating, link, releases);
      hide Readable, UniqueIds, Within, Placed;
      o := PersistState(activating);
    }

    /** Collect unneeded releases and answer with a recorded outcome. */
    method Report(s: RootState, outcome: UpdateOutcome, duplicate: bool) returns (r: Result<Proof, HelperError>)
      requires Safe() && state == Some(s) && s.phase.ActivePhase?
      modifies `releases
      ensures Safe()
      ensures r.Ok? ==> r.value == Proof(outcome, duplicate, RetainedCount(releases)) && releases.Keys == Retained(s)
      ensures !faulty && Tidy(old(releases), s) ==> r.Ok?
    {
      hide Safe, Retained;
      var o := GarbageCollect(s);
      if o.Fail? {
        return Err(o.error);
      }
      var count := ReleaseCount();
      if count.Err? {
        return Err(count.error);
      }
      r := Ok(Proof(outcome, duplicate, RetainedCount(releases)));
    }

    /** The request is the one that began the open activation. */
    predicate OfActivation(s: RootState, request: Request) {
      && s.activation.Some?
      && var a := s.activation.value;
         && a.commandId == request.commandId && a.operationId == request.operationId
         && a.candidate.version == request.version && a.candidate.digest == request.digest
    }

    /** Roll back a failed activation and answer the request that asked for it. */
    method UndoActivation(s: RootState, request: Request) returns (r: Result<Proof, HelperError>)
      requires Safe() && state == Some(s) && s.phase.Activating?
      modifies `state, `link, `releases, `health, `intents, `switches, `proven, `restarts, `looks, `checks
      ensures Safe() && Grew() && intents == old(intents) && switches == old(switches)
      ensures r.Ok? ==>
                && RolledBackFrom(s, state.value) && Settled(request, r.value) && !r.value.duplicate
                && (request.commandId == s.activation.value.commandId ==>
                      r.value.outcome.status == RolledBack && r.value.outcome.release == s.activation.value.candidate)
      ensures state == old(state) || RolledBackFrom(s, state.value)
      ensures !faulty ==> |checks| == |old(checks)| + 1 && Checked(0, s.active, state != old(state))
      // Without faults the request of the activation is answered once it is rolled back.
      ensures !faulty && state != old(state) && AllWhole(old(releases)) && OfActivation(s, request) ==> r.Ok?
    {
      hide Safe, Retained, Find, AllWhole;
      var rolledBack := Rollback(s);
      if rolledBack.Err? {
        return Err(rolledBack.error);
      }
      EndsSettled(s, rolledBack.value);
      var found := ExactOutcome(rolledBack.value, request);
      if found.Err? {
        return Err(found.error);
      }
      if found.value.None? {
        return Err(Rejected);
      }
      r := Report(rolledBack.value, found.value.value, false);
    }

    /**
     The candidate was checked, and stays if it proved healthy; otherwise the old release
     was checked, and stays if it did.
     */
    twostate predicate OnProbation(s: RootState, candidate: Release)
      reads `checks, `state
    {
      && state.Some? && |old(checks)| < |checks| && checks[|old(checks)|].release == candidate
      && if Stable(checks[|old(checks)|].log, probation)
         then state.value.phase.ActivePhase? && state.value.active == candidate && state.value.previous == Some(s.active)
         else
           && |checks| == |old(checks)| + 2 && checks[|old(checks)| + 1].release == s.active
           && if Stable(checks[|old(checks)| + 1].log, probation)
              then state.value.phase.ActivePhase? && state.value.active == s.active && state.value.previous == s.previous
              else state.value.phase.Activating?
    }

    /** Persist the intent, try the candidate, and roll it back if the guarded part fails. */
    method Activate(s: RootState, request: Request, candidate: Release) returns (r: Result<Proof, HelperError>)
      requires Safe() && state == Some(s) && s.phase.ActivePhase?
      requires request.digest == candidate.digest && request.version == candidate.version
      requires OnDisk(candidate, releases) && candidate != s.active
      requires candidate.sequence > s.highestSequence && candidate.epoch >= s.minimumEpoch
      requires RequestFits(request) && ReleaseFits(candidate)
      modifies `state, `link, `releases, `health, `intents, `switches, `proven, `restarts, `looks, `checks
      ensures Safe() && Grew()
      ensures intents == old(intents) || intents == old(intents) + [candidate]
      ensures switches == old(switches) || (intents == old(intents) + [candidate] && switches == old(switches) + [candidate])
      ensures r.Ok? ==>
                && !r.value.duplicate && r.value.outcome.release == candidate
                && intents == old(intents) + [candidate]
                && Settled(request, r.value)
                && match r.value.outcome.status
                   case Active =>
                     && state.value.active == candidate && state.value.previous == Some(s.active)
                     && switches == old(switches) + [candidate]
                   case RolledBack =>
                     state.value.active == s.active && state.value.previous == s.previous
      ensures !faulty ==> switches == old(switches) + [candidate]
      ensures !faulty ==> OnProbation(s, candidate)
      // An activation that ended is answered.
      ensures !faulty && AllWhole(old(releases)) && state.value.phase.ActivePhase? ==> r.Ok?
    {
      hide Safe, Retained, Find, AllWhole, Stable, OnDisk, CompletedState;
      SettledState(s);
      var o, activating := PersistIntent(s, request, candidate);
      if o.Fail? {
        return Err(o.error);
      }
      var committed;
      r, committed := TryActivate(activating);
      EndsSettled(activating, state.value);
      if r.Ok? || r.error == Unsafe || r.error == Crashed {
        return;
      }
      if committed {
        return Err(Pending);
      }
      r := UndoActivation(activating, request);
      EndsSettled(activating, state.value);
    }

    /** The answer is on record, and only the releases the state names are on disk. */
    ghost predicate Settled(request: Request, proof: Proof)
      reads this
    {
      && state.Some?
      && state.value.phase.ActivePhase?
      && Answers(state.value, request, proof.outcome)
      && releases.Keys == Retained(state.value)
      && releases.Keys == Named(state.value)
      && proof.retained == (if |releases| >= 2 then Some(|releases|) else None)
    }

    /** Check the running release and the staged one, and put the staged one on disk. */
    method Prepare(s: RootState, request: Request) returns (r: Result<Release, HelperError>)
      requires Safe() && state == Some(s) && s.phase.ActivePhase?
      modifies `releases
      ensures Safe()
      ensures r.Ok? ==>
                && StagedFor(staged, request) && staged[request.digest].intact
                && r.value == staged[request.digest].manifest
                && (r.value == s.active || (r.value.sequence > s.highestSequence && r.value.epoch >= s.minimumEpoch))
                && OnDisk(r.value, releases)
                && releases == old(releases)[r.value.digest := Whole(r.value)]
      ensures request.digest in staged ==>
                var other := staged[request.digest].manifest;
                other != s.active && (other.sequence <= s.highestSequence || other.epoch < s.minimumEpoch) ==>
                  && releases == old(releases) && r.Err?
                  && (!faulty && StagedFor(staged, request) ==> r == Err(Rejected))
      ensures !faulty && StagedFor(staged, request) && staged[request.digest].intact ==>
                var candidate := staged[request.digest].manifest;
                (&& (candidate == s.active || (candidate.sequence > s.highestSequence && candidate.epoch >= s.minimumEpoch))
                 && (candidate.digest !in old(releases) || OnDisk(candidate, old(releases)))) ==> r.Ok?
    {
      hide Safe, Retained, Find;
      SettledState(s);
      var o := AssertRelease(s.active);
      if o.Fail? {
        return Err(o.error);
      }
      var current := CurrentTarget();
      if current.Err? {
        return Err(current.error);
      }
      if current.value != Some(s.active) {
        return Err(Unsafe);
      }
      var manifest := ReadStagedManifest(request);
      if manifest.Err? {
        return Err(manifest.error);
      }
      var candidate := manifest.value;
      if candidate != s.active && (candidate.sequence <= s.highestSequence || candidate.epoch < s.minimumEpoch) {
        return Err(Rejected);
      }
      o := ReadStagedArtifact(candidate);
      if o.Fail? {
        return Err(o.error);
      }
      o := EnsureRelease(candidate);
      r := if o.Fail? then Err(o.error) else Ok(candidate);
    }

    /** Answer a request from a settled state. */
    method Serve(s: RootState, request: Request) returns (r: Result<Proof, HelperError>)
      requires Safe() && state == Some(s) && s.phase.ActivePhase? && RequestFits(request)
      modifies `state, `link, `releases, `health, `intents, `switches, `proven, `restarts, `looks, `checks
      ensures Safe() && Grew()
      ensures Served(s, request, r)
      ensures r.Ok? ==> Settled(request, r.value)
    {
      hide Safe, Retained, Find, ExactOutcome;
      SettledState(s);
      Replayed(s, request);
      var replay := ExactOutcome(s, request);
      if replay.Err? {
        return Err(replay.error);
      }
      if replay.value.Some? {
        r := Report(s, replay.value.value, true);
        return;
      }
      r := ServeNew(s, request);
    }

    /** Answer a request whose command is not on record: confirm the active release, or activate the staged one. */
    method ServeNew(s: RootState, request: Request) returns (r: Result<Proof, HelperError>)
      requires Safe() && state == Some(s) && s.phase.ActivePhase? && RequestFits(request)
      requires forall o <- s.outcomes :: o.commandId != request.commandId
      modifies `state, `link, `releases, `health, `intents, `switches, `proven, `restarts, `looks, `checks
      ensures Safe() && Grew()
      ensures Served(s, request, r)
      ensures r.Ok? ==> Settled(request, r.value)
    {
      hide Safe, Retained, Find, Settled;
      SettledState(s);
      var prepared := Prepare(s, request);
      if prepared.Err? {
        return Err(prepared.error);
      }
      var candidate := prepared.value;
      if candidate == s.active {
        r := Confirm(s, request);
      } else {
        r := Activate(s, request, candidate);
      }
    }

    /** Read the state, and settle an activation that was left open. */
    method Settle() returns (r: Result<RootState, HelperError>)
      requires Safe()
      modifies `state, `link, `releases, `health, `intents, `switches, `proven, `restarts, `looks, `checks
      ensures Safe() && Grew() && intents == old(intents) && switches == old(switches)
      ensures old(state.None?) ==> r.Err? && state.None? && link == old(link) && releases == old(releases)
      ensures old(state.Some? && state.value.phase.ActivePhase?) ==>
                && state == old(state) && link == old(link) && releases == old(releases) && health == old(health)
                && restarts == old(restarts) && checks == old(checks)
                && (r.Ok? ==> r.value == old(state.value))
                && (!faulty ==> r.Ok?)
      ensures r.Ok? ==> state == Some(r.value) && r.value.phase.ActivePhase?
      ensures r.Ok? && old(state.Some? && state.value.phase.Activating?) ==>
                && (AdoptedFrom(old(state.value), r.value) || RolledBackFrom(old(state.value), r.value))
                && exists o <- r.value.outcomes ::
                     && o.commandId == old(state.value.activation.value.commandId)
                     && o.operationId == old(state.value.activation.value.operationId)
                     && o.release == old(state.value.activation.value.candidate)
    {
      hide Safe, Retained, Find, Readable;
      if state.Some? {
        ReadableState();
      }
      var found := ReadState();
      if found.Err? {
        return Err(found.error);
      }
      if found.value.None? {
        return Err(Rejected);
      }
      if found.value.value.phase.ActivePhase? {
        return Ok(found.value.value);
      }
      r := RecoverActivation(found.value.value);
      if r.Ok? {
        EndsSettled(found.value.value, r.value);
      }
    }

    /** The privileged entry point: check the request, settle what was left open, then serve the request. */
    method Execute(request: Request) returns (r: Result<Proof, HelperError>)
      requires Safe()
      modifies `state, `link, `releases, `health, `intents, `switches, `proven, `restarts, `looks, `checks
      ensures Safe() && Grew()
      ensures r.Ok? ==> Settled(request, r.value)
      // A root without a state serves nothing.
      ensures old(state.None?) ==> r.Err? && state.None? && link == old(link) && releases == old(releases)
      // A request outside the schema is refused before anything else.
      ensures |request.commandId| > 128 || |request.operationId| > 128 || |request.version| > 64 || |request.digest| != 71 ==>
                && r == Err(Rejected) && state == old(state) && link == old(link) && releases == old(releases)
                && health == old(health) && intents == old(intents) && switches == old(switches) && restarts == old(restarts)
      // From a settled state.
      ensures old(state.Some? && state.value.phase.ActivePhase?)
              && |request.commandId| <= 128 && |request.operationId| <= 128 && |request.version| <= 64 && |request.digest| == 71 ==>
                Served(old(state.value), request, r)
      // The request of an open activation is never tried again.
      ensures old(state.Some? && state.value.phase.Activating?)
              && request.commandId == old(state.value.activation.value.commandId) ==>
                && intents == old(intents) && switches == old(switches)
                && (r.Ok? ==> r.value.duplicate && r.value.outcome.release == old(state.value.activation.value.candidate))
      // A call persists at most one intent and makes at most one switch to a candidate.
      ensures |intents| <= |old(intents)| + 1 && |switches| <= |old(switches)| + 1
    {
      hide Safe, Retained, Find, StagedFor, Tidy, Named, Answers, OnDisk, AdoptedFrom, RolledBackFrom;
      if !RequestFits(request) {
        return Err(Rejected);
      }
      var settled := Settle();
      if settled.Err? {
        return Err(settled.error);
      }
      r := Serve(settled.value, request);
    }

    /**
     Any number of calls with any requests, each cut short anywhere, while the agent
     stages and reports whatever it likes, keep every promise.
     */
    method Run(calls: nat)
      requires Safe()
      modifies this
      ensures Safe() && Grew()
    {
      hide Safe;
      for i := 0 to calls
        invariant Safe() && Grew()
      {
        staged := *;
        AgentRuns();
        var request: Request := *;
        var _ := Execute(request);
      }
    }
  }

  /**
   Over any run from an installed root: the floors never fall below the installed
   ones, the state can be read again and fits its file, what it needs is on disk, the
   link is the active release once settled, and no release is switched to twice as a
   candidate.
   */
  method UpdateHistory(s: RootState, disk: map<string, Directory>, faulty: bool, probation: int, calls: nat,
                       ghost iso: int -> string)
    returns (t: RootState, link: Option<string>, after: map<string, Directory>,
             ghost intents: seq<Release>, ghost switches: seq<Release>, ghost proven: set<Release>)
    requires Readable(s) && UniqueIds(s.outcomes) && s.phase.ActivePhase?
    requires Placed(s, Some(s.active.digest), disk)
    requires forall d <- disk :: disk[d].Whole? ==> disk[d].release.digest == d
    requires forall u :: |iso(u)| <= MAX_TIMESTAMP
    ensures |Encode(t, iso)| <= MAX_STATE_BYTES
    ensures Readable(t) && UniqueIds(t.outcomes) && Placed(t, link, after)
    ensures t.highestSequence >= s.highestSequence && t.minimumEpoch >= s.minimumEpoch
    ensures Increasing(intents) && Increasing(switches) && forall x <- switches :: x in intents
    // Once settled, the floors are exactly the highest numbers among the installed ones and the candidates.
    ensures Attained(s, intents, t) && (t.phase.ActivePhase? ==> Below(intents, t))
    ensures t.active == s.active || s.previous == Some(t.active) || t.active in proven
  {
    hide Encode, ReleaseFits, OutcomeFits, ActivationFits, Increasing, UniqueIds, Placed;
    var root := new RootHelper(s, disk, faulty, probation);
    root.Run(calls);
    root.SettledBelow();
    t, link, after := root.state.value, root.link, root.releases;
    intents, switches, proven := root.intents, root.switches, root.proven;
    ShortTimesFit(t, iso);
  }
}
