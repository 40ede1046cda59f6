/**
 The persisted record of observation events: at most one event is pending, it is
 numbered after the last accepted one, and only its own receipt accepts it.
 */
module ObservationSequencer {
  import opened Prelude

  datatype Authentication = Authentication(credentialId: string, credentialVersion: nat, sessionVersion: nat)

  datatype AgentIdentity = AgentIdentity(organizationId: string, nodeId: string)

  datatype Event = Event(
    organizationId: string, nodeId: string, sessionVersion: nat, sequence: nat, observedRevision: nat,
    issuedAt: int, facts: string)

  datatype Receipt = Receipt(organizationId: string, nodeId: string, sequence: nat, observedRevision: nat)

  datatype Publisher = Publisher(
    authentication: Authentication, lastAcceptedSequence: nat, lastObservedRevision: nat, pending: Option<Event>)

  datatype ObservationError = Crashed | StateFailed | Rejected | RefreshRequired | MovedBackwards | ReceiptMismatch | NothingPending

  /** What the control plane answers to a published event. */
  datatype Reply = Received(receipt: Receipt) | Rejects | AsksRefresh

  /** An accepted event and the session it was accepted in. */
  datatype Acceptance = Acceptance(authentication: Authentication, event: Event)

  function Initial(authentication: Authentication): Publisher {
    Publisher(authentication, 0, 0, None)
  }

  /** The record a session works on: its own, a fresh one that keeps the observed revision, or none if it is older. */
  function Loaded(file: Option<Publisher>, authentication: Authentication): Result<Publisher, ObservationError> {
    if file.None? then Ok(Initial(authentication))
    else if file.value.authentication == authentication then Ok(file.value)
    else if authentication.sessionVersion <= file.value.authentication.sessionVersion then Err(MovedBackwards)
    else Ok(Initial(authentication).(lastObservedRevision := file.value.lastObservedRevision))
  }

  /** The event a publication starts with: the pending one, or a new one with the next numbers. */
  function NextEvent(p: Publisher, identity: AgentIdentity, now: int, facts: string): Event {
    if p.pending.Some? then p.pending.value
    else Event(identity.organizationId, identity.nodeId, p.authentication.sessionVersion,
               p.lastAcceptedSequence + 1, p.lastObservedRevision + 1, now, facts)
  }

  predicate Matches(receipt: Receipt, event: Event) {
    && receipt.organizationId == event.organizationId
    && receipt.nodeId == event.nodeId
    && receipt.sequence == event.sequence
    && receipt.observedRevision == event.observedRevision
  }

  /** The pending event, if any, carries the next numbers. */
  predicate Numbered(p: Publisher) {
    p.pending.Some? ==>
      && p.pending.value.sequence == p.lastAcceptedSequence + 1
      && p.pending.value.observedRevision == p.lastObservedRevision + 1
      && p.pending.value.sessionVersion == p.authentication.sessionVersion
  }

  // --- accepted histories ---------------------------------------------------------

  /** The sequence a session has reached in a history. */
  function Reached(history: seq<Acceptance>, authentication: Authentication): nat {
    if history == [] then 0
    else if history[|history| - 1].authentication == authentication then history[|history| - 1].event.sequence
    else Reached(history[..|history| - 1], authentication)
  }

  function LastRevision(history: seq<Acceptance>): nat {
    if history == [] then 0 else history[|history| - 1].event.observedRevision
  }

  /** Within a session sequences count up by one; across sessions observed revisions do, and versions never fall. */
  ghost predicate Ordered(history: seq<Acceptance>) {
    forall i :: 0 <= i < |history| ==>
      && history[i].event.sequence == Reached(history[..i], history[i].authentication) + 1
      && history[i].event.observedRevision == LastRevision(history[..i]) + 1
      && (i > 0 ==> history[..i][i - 1].authentication == history[i].authentication
                    || history[..i][i - 1].authentication.sessionVersion < history[i].authentication.sessionVersion)
  }

  lemma OrderedNext(history: seq<Acceptance>, next: Acceptance)
    requires Ordered(history)
    requires next.event.sequence == Reached(history, next.authentication) + 1
    requires next.event.observedRevision == LastRevision(history) + 1
    requires history != [] ==>
               || history[|history| - 1].authentication == next.authentication
               || history[|history| - 1].authentication.sessionVersion < next.authentication.sessionVersion
    ensures Ordered(history + [next])
  {
    var grown := history + [next];
    forall i | 0 <= i < |grown|
      ensures grown[i].event.sequence == Reached(grown[..i], grown[i].authentication) + 1
      ensures grown[i].event.observedRevision == LastRevision(grown[..i]) + 1
      ensures i > 0 ==> grown[..i][i - 1].authentication == grown[i].authentication
                        || grown[..i][i - 1].authentication.sessionVersion < grown[i].authentication.sessionVersion
    {
      if i < |history| {
        assert grown[..i] == history[..i];
      } else {
        assert grown[..i] == history;
      }
    }
  }

  /** The events of one session in a history. */
  function OfSession(history: seq<Acceptance>, authentication: Authentication): seq<Event> {
    if history == [] then []
    else
      var last := history[|history| - 1];
      OfSession(history[..|history| - 1], authentication)
      + if last.authentication == authentication then [last.event] else []
  }

  /** The accepted sequences of every session are exactly 1, 2, 3 and so on. */
  lemma {:induction false} SessionCounts(history: seq<Acceptance>, authentication: Authentication, k: nat)
    requires Ordered(history) && k < |OfSession(history, authentication)|
    ensures OfSession(history, authentication)[k].sequence == k + 1
  {
    var before := history[..|history| - 1];
    OrderedPrefix(history);
    ReachedIsCount(before, authentication);
    if k < |OfSession(before, authentication)| {
      SessionCounts(before, authentication, k);
    }
  }

  lemma OrderedPrefix(history: seq<Acceptance>)
    requires Ordered(history) && history != []
    ensures Ordered(history[..|history| - 1])
  {
    var before := history[..|history| - 1];
    forall i | 0 <= i < |before|
      ensures before[..i] == history[..i] && before[i] == history[i]
    {
    }
  }

  lemma {:induction false} ReachedIsCount(history: seq<Acceptance>, authentication: Authentication)
    requires Ordered(history)
    ensures Reached(history, authentication) == |OfSession(history, authentication)|
  {
    if history != [] {
      OrderedPrefix(history);
      ReachedIsCount(history[..|history| - 1], authentication);
    }
  }

  /** Every accepted revision is its position in the whole history: no revision is used twice or skipped. */
  lemma {:induction false} RevisionsCount(history: seq<Acceptance>, i: nat)
    requires Ordered(history) && i < |history|
    ensures history[i].event.observedRevision == i + 1
  {
    if i > 0 {
      RevisionsCount(history, i - 1);
      assert history[..i][i - 1] == history[i - 1];
    }
  }

  lemma {:induction false} NewSessionStartsAtZero(history: seq<Acceptance>, authentication: Authentication)
    requires forall a <- history :: a.authentication.sessionVersion < authentication.sessionVersion
    ensures Reached(history, authentication) == 0
  {
    if history != [] {
      assert history[|history| - 1] in history;
      NewSessionStartsAtZero(history[..|history| - 1], authentication);
    }
  }

  class ObservationState {
    const faulty: bool
    /** The state file. */
    var file: Option<Publisher>
    ghost var accepted: seq<Acceptance>
    /** Every event sent to the control plane so far. */
    ghost var sent: seq<Event>

    constructor (faulty: bool)
      ensures Safe() && file.None? && accepted == [] && sent == [] && this.faulty == faulty
    {
      this.faulty := faulty;
      file, accepted, sent := None, [], [];
    }

    /** What a record says about the history that led to it. */
    ghost predicate Records(p: Publisher, history: seq<Acceptance>) {
      && Numbered(p)
      && p.lastAcceptedSequence == Reached(history, p.authentication)
      && p.lastObservedRevision == LastRevision(history)
      && (forall a <- history ::
            a.authentication == p.authentication || a.authentication.sessionVersion < p.authentication.sessionVersion)
    }

    ghost predicate Safe()
      reads `file, `accepted
    {
      && Ordered(accepted)
      && (file.None? ==> accepted == [])
      && (file.Some? ==> Records(file.value, accepted))
    }

    // --- steps -----------------------------------------------------------------------

    method Disturbance() returns (o: Outcome<ObservationError>)
      ensures !faulty ==> o.Pass?
      ensures o.Fail? ==> o.error == Crashed || o.error == StateFailed
    {
      o := Pass;
      if faulty {
        if * {
          o := Fail(Crashed);
        } else if * {
          o := Fail(StateFailed);
        }
      }
    }

    method Load(authentication: Authentication) returns (r: Result<Publisher, ObservationError>)
      requires Safe()
      ensures r.Ok? ==> Loaded(file, authentication) == r && r.value.authentication == authentication && Records(r.value, accepted)
      ensures !faulty ==> r == Loaded(file, authentication)
    {
      var o := Disturbance();
      if o.Fail? {
        return Err(o.error);
      }
      r := Loaded(file, authentication);
      if r.Ok? && (file.None? || file.value.authentication != authentication) {
        NewSessionStartsAtZero(accepted, authentication);
      }
    }

    method Persist(p: Publisher, ghost event: Option<Event>) returns (o: Outcome<ObservationError>)
      requires Safe()
      requires event.None? ==> Records(p, accepted)
      requires event.Some? ==> var history := accepted + [Acceptance(p.authentication, event.value)];
                               Ordered(history) && Records(p, history)
      modifies `file, `accepted
      ensures Safe()
      ensures (file == old(file) && accepted == old(accepted)) || (file == Some(p) && accepted == Grown(old(accepted), p, event))
      ensures o.Pass? ==> file == Some(p) && accepted == Grown(old(accepted), p, event)
      ensures !faulty ==> o.Pass?
    {
      hide Ordered, Records;
      o := Disturbance();
      if o.Fail? {
        return;
      }
      file, accepted := Some(p), Grown(accepted, p, event);
      o := Disturbance();
    }

    ghost function Grown(history: seq<Acceptance>, p: Publisher, event: Option<Event>): seq<Acceptance> {
      if event.Some? then history + [Acceptance(p.authentication, event.value)] else history
    }

    // --- operations ------------------------------------------------------------------

    method Pending(authentication: Authentication) returns (r: Result<Option<Event>, ObservationError>)
      requires Safe()
      ensures r.Ok? ==> Loaded(file, authentication).Ok? && r.value == Loaded(file, authentication).value.pending
      ensures !faulty ==> (r.Ok? <==> Loaded(file, authentication).Ok?)
    {
      var p := Load(authentication);
      if p.Err? {
        return Err(p.error);
      }
      r := Ok(p.value.pending);
    }

    /** The pending event, or a new one with the next numbers. */
    method Prepare(authentication: Authentication, identity: AgentIdentity, issuedAt: int, facts: string)
      returns (r: Result<Event, ObservationError>)
      requires Safe()
      modifies `file, `accepted
      ensures Safe() && accepted == old(accepted)
      ensures r.Ok? ==> Waiting(authentication, r.value) && Loaded(old(file), authentication).Ok?
      ensures r.Ok? ==>
                && r.value.sequence == Reached(accepted, authentication) + 1
                && r.value.observedRevision == LastRevision(accepted) + 1
                && r.value.sessionVersion == authentication.sessionVersion
      ensures r.Ok? && Loaded(old(file), authentication).value.pending.None? ==>
                r.value == Event(identity.organizationId, identity.nodeId, authentication.sessionVersion,
                                 Reached(accepted, authentication) + 1, LastRevision(accepted) + 1, issuedAt, facts)
      ensures r.Ok? ==> r.value == NextEvent(Loaded(old(file), authentication).value, identity, issuedAt, facts)
      // A pending event is not replaced.
      ensures r.Ok? && old(file.Some? && file.value.authentication == authentication && file.value.pending.Some?) ==>
                file == old(file) && Some(r.value) == old(file).value.pending
      ensures !faulty ==> (r.Ok? <==> Loaded(old(file), authentication).Ok?)
    {
      var p := Load(authentication);
      if p.Err? {
        return Err(p.error);
      }
      if p.value.pending.Some? {
        return Ok(p.value.pending.value);
      }
      var event := Event(identity.organizationId, identity.nodeId, authentication.sessionVersion,
                         p.value.lastAcceptedSequence + 1, p.value.lastObservedRevision + 1, issuedAt, facts);
      var o := Persist(p.value.(pending := Some(event)), None);
      r := if o.Pass? then Ok(event) else Err(o.error);
    }

    /** `event` is the pending event of the session. */
    predicate Waiting(authentication: Authentication, event: Event)
      reads this
    {
      file.Some? && file.value.authentication == authentication && file.value.pending == Some(event)
    }

    /** Accepting the pending event extends the history as it must be extended. */
    lemma AcceptanceRecorded(p: Publisher, history: seq<Acceptance>)
      requires Ordered(history) && Records(p, history) && p.pending.Some?
      ensures var event := p.pending.value;
              var grown := history + [Acceptance(p.authentication, event)];
              && Ordered(grown)
              && Records(Publisher(p.authentication, event.sequence, event.observedRevision, None), grown)
    {
      var next := Acceptance(p.authentication, p.pending.value);
      OrderedNext(history, next);
      assert (history + [next])[..|history|] == history;
      hide Ordered;
    }

    /** Accept the pending event with its own receipt. */
    method Accept(authentication: Authentication, receipt: Receipt) returns (o: Outcome<ObservationError>)
      requires Safe()
      modifies `file, `accepted
      ensures Safe()
      ensures (accepted == old(accepted) && file == old(file))
              || (exists event :: AcceptedNow(old(file), old(accepted), authentication, event, receipt))
      ensures o.Pass? ==> exists event :: AcceptedNow(old(file), old(accepted), authentication, event, receipt)
      ensures !faulty ==>
                (o.Pass? <==>
                 && old(file.Some? && file.value.authentication == authentication && file.value.pending.Some?)
                 && Matches(receipt, old(file).value.pending.value))
    {
      hide Ordered, Records;
      var p := Load(authentication);
      if p.Err? {
        return Fail(p.error);
      }
      if p.value.pending.None? {
        return Fail(ReceiptMismatch);
      }
      var event := p.value.pending.value;
      if receipt.organizationId != event.organizationId || receipt.nodeId != event.nodeId
         || receipt.sequence != event.sequence || receipt.observedRevision != event.observedRevision
      {
        return Fail(ReceiptMismatch);
      }
      AcceptanceRecorded(p.value, accepted);
      o := Persist(
        p.value.(lastAcceptedSequence := event.sequence, lastObservedRevision := event.observedRevision, pending := None),
        Some(event));
      assert o.Pass? ==> AcceptedNow(old(file), old(accepted), authentication, event, receipt);
      assert accepted != old(accepted) || file != old(file) ==>
          AcceptedNow(old(file), old(accepted), authentication, event, receipt);
    }

    /** The pending event of `before` was accepted by a receipt of its own, and nothing is pending any more. */
    ghost predicate AcceptedNow(before: Option<Publisher>, history: seq<Acceptance>, authentication: Authentication,
                                event: Event, receipt: Receipt)
      reads this
    {
      && before.Some? && before.value.authentication == authentication && before.value.pending == Some(event)
      && Matches(receipt, event)
      && accepted == history + [Acceptance(authentication, event)]
      && file == Some(Publisher(authentication, event.sequence, event.observedRevision, None))
    }

    /** Give the pending event new facts; its numbers stay. */
    method Refresh(authentication: Authentication, issuedAt: int, facts: string) returns (r: Result<Event, ObservationError>)
      requires Safe()
      modifies `file, `accepted
      ensures Safe() && accepted == old(accepted)
      ensures r.Ok? ==>
                && old(file.Some? && file.value.authentication == authentication && file.value.pending.Some?)
                && r.value == old(file).value.pending.value.(issuedAt := issuedAt, facts := facts)
                && file == Some(old(file).value.(pending := Some(r.value)))
      ensures !faulty ==>
                (r.Ok? <==> old(file.Some? && file.value.authentication == authentication && file.value.pending.Some?))
    {
      var p := Load(authentication);
      if p.Err? {
        return Err(p.error);
      }
      if p.value.pending.None? {
        return Err(NothingPending);
      }
      var refreshed := p.value.pending.value.(issuedAt := issuedAt, facts := facts);
      var o := Persist(p.value.(pending := Some(refreshed)), None);
      r := if o.Pass? then Ok(refreshed) else Err(o.error);
    }

    /** Send an event; the control plane gives its reply, unless the process stops first. */
    method Publish(event: Event, reply: Reply) returns (r: Result<Receipt, ObservationError>)
      modifies `sent
      ensures sent == old(sent) + [event]
      ensures r == Answer(reply) || (faulty && r == Err(Crashed))
    {
      sent := sent + [event];
      var o := Disturbance();
      r := if o == Fail(Crashed) then Err(Crashed) else Answer(reply);
    }

    function Answer(reply: Reply): Result<Receipt, ObservationError> {
      match reply
      case Received(receipt) => Ok(receipt)
      case Rejects => Err(Rejected)
      case AsksRefresh => Err(RefreshRequired)
    }

    /** The receipt with which a publication of `event` ends well, given the two replies it may get. */
    function Settles(event: Event, first: Reply, second: Reply): Option<Receipt> {
      if first.Received? && Matches(first.receipt, event) then Some(first.receipt)
      else if first.AsksRefresh? && second.Received? && Matches(second.receipt, event) then Some(second.receipt)
      else None
    }

    /**
     Publish the pending event, or a new one, refreshing it once if that is asked for;
     `first` and `second` are the replies that the control plane would give.
     */
    method PublishOnce(authentication: Authentication, identity: AgentIdentity, now: int, facts: string,
                       later: int, newFacts: string, first: Reply, second: Reply)
      returns (r: Result<Receipt, ObservationError>)
      requires Safe()
      modifies this
      ensures Safe()
      // Only the next event is sent, and again with fresh facts only if that is asked for.
      ensures sent == old(sent) || Loaded(old(file), authentication).Ok?
      ensures sent != old(sent) ==>
                var event := NextEvent(Loaded(old(file), authentication).value, identity, now, facts);
                || sent == old(sent) + [event]
                || (first.AsksRefresh? && sent == old(sent) + [event, event.(issuedAt := later, facts := newFacts)])
      // At most one event is accepted: the last one sent, by a receipt of its own.
      ensures accepted == old(accepted)
              || (&& sent != old(sent) && accepted == old(accepted) + [Acceptance(authentication, sent[|sent| - 1])])
      ensures r.Ok? ==>
                && accepted != old(accepted) && Matches(r.value, sent[|sent| - 1])
                && file == Some(Publisher(authentication, r.value.sequence, r.value.observedRevision, None))
      // Without faults it succeeds exactly if the session is current and a reply settles the event.
      ensures !faulty ==> (Loaded(old(file), authentication).Ok? <==> sent != old(sent))
      ensures !faulty ==>
                (r.Ok? <==> && Loaded(old(file), authentication).Ok?
                            && var event := NextEvent(Loaded(old(file), authentication).value, identity, now, facts);
                               Settles(event, first, second).Some?)
      ensures !faulty && r.Ok? ==>
                var event := NextEvent(Loaded(old(file), authentication).value, identity, now, facts);
                Settles(event, first, second) == Some(r.value)
    {
      hide Records, Ordered;
      var existing := Pending(authentication);
      if existing.Err? {
        return Err(existing.error);
      }
      var event;
      if existing.value.Some? {
        event := existing.value.value;
      } else {
        var prepared := Prepare(authentication, identity, now, facts);
        if prepared.Err? {
          return Err(prepared.error);
        }
        event := prepared.value;
      }
      assert event == NextEvent(Loaded(old(file), authentication).value, identity, now, facts);
      r := Send(authentication, event, later, newFacts, first, second);
      if r.Ok? {
        var o := Accept(authentication, r.value);
        r := if o.Pass? then r else Err(o.error);
      }
    }

    /** Publish the pending event, and once more with fresh facts if that is asked for. */
    method Send(authentication: Authentication, event: Event, later: int, newFacts: string, first: Reply, second: Reply)
      returns (r: Result<Receipt, ObservationError>)
      requires Safe() && Waiting(authentication, event)
      modifies this
      ensures Safe() && accepted == old(accepted)
      ensures || sent == old(sent) + [event]
              || (first.AsksRefresh? && sent == old(sent) + [event, event.(issuedAt := later, facts := newFacts)])
      ensures r.Ok? ==> Waiting(authentication, sent[|sent| - 1])
      ensures r.Ok? ==> r == Answer(first) || (first.AsksRefresh? && r == Answer(second))
      ensures !faulty ==> r == if !first.AsksRefresh? then Answer(first) else if second.AsksRefresh? then Err(Rejected) else Answer(second)
    {
      hide Records, Ordered;
      r := Publish(event, first);
      if r == Err(RefreshRequired) {
        var refreshed := Refresh(authentication, later, newFacts);
        if refreshed.Err? {
          return Err(refreshed.error);
        }
        r := Publish(refreshed.value, second);
        if r == Err(RefreshRequired) {
          r := Err(Rejected);
        }
      }
    }

    /** Any publications under any credentials, each cut short anywhere. */
    method Run(calls: nat)
      requires Safe()
      modifies this
      ensures Safe() && old(accepted) <= accepted
    {
      for i := 0 to calls
        invariant Safe() && old(accepted) <= accepted
      {
        var authentication: Authentication := *;
        var identity: AgentIdentity := *;
        var now: int := *;
        var facts: string := *;
        var later: int, newFacts: string, first: Reply, second: Reply := *, *, *, *;
        var _ := PublishOnce(authentication, identity, now, facts, later, newFacts, first, second);
      }
    }
  }

  /** After any run the record counts the history: all events by revision, those of its session by sequence. */
  method PublishedHistory(faulty: bool, calls: nat) returns (file: Option<Publisher>, ghost accepted: seq<Acceptance>)
    ensures Ordered(accepted)
    ensures file.None? ==> accepted == []
    ensures file.Some? ==>
              && file.value.lastObservedRevision == |accepted|
              && file.value.lastAcceptedSequence == |OfSession(accepted, file.value.authentication)|
              && Numbered(file.value)
  {
    var state := new ObservationState(faulty);
    state.Run(calls);
    file, accepted := state.file, state.accepted;
    if file.Some? {
      ReachedIsCount(accepted, file.value.authentication);
      if accepted != [] {
        RevisionsCount(accepted, |accepted| - 1);
      }
    }
  }
}
