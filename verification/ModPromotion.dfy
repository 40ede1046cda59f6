/** Promotion of a staged mod set: the active set is saved, cleared and refilled, and a marker commits it. */
module ModPromotion {
  import opened Faults
  import opened Prelude

  type Mods = map<string, string>

  datatype Promotion = Promoted | Adopted

  class ModFiles {
    const faulty: bool
    var active: Mods
    var marker: Option<nat>
    /** The `mods-<revision>` directories. */
    var staged: map<nat, Mods>
    /** The `mods-known-good-<revision>` directories. */
    var knownGood: map<nat, Mods>

    constructor (faulty: bool, active: Mods, marker: Option<nat>, staged: map<nat, Mods>)
      ensures this.faulty == faulty && this.active == active && this.marker == marker && this.staged == staged
      ensures knownGood == map[]
    {
      this.faulty, this.active, this.marker, this.staged := faulty, active, marker, staged;
      knownGood := map[];
    }

    /** Copy the active set into a new known-good directory, entry by entry. */
    method SaveActive(revision: nat) returns (o: Outcome<Fault>)
      requires revision >= 1
      modifies `knownGood
      ensures o.Pass? ==> revision - 1 in knownGood && knownGood[revision - 1] == active
      ensures knownGood - {revision - 1} == old(knownGood) - {revision - 1}
      ensures !faulty ==> o.Pass?
    {
      o := Disturb(faulty);
      if o.Fail? {
        return;
      }
      var copied: Mods, rest := map[], active.Keys;
      knownGood := knownGood[revision - 1 := copied];
      while rest != {}
        invariant o.Pass? && rest <= active.Keys && copied == map m | m in active.Keys - rest :: active[m]
        invariant revision - 1 in knownGood && knownGood[revision - 1] == copied
        invariant knownGood - {revision - 1} == old(knownGood) - {revision - 1}
        decreases |rest|
      {
        o := Disturb(faulty);
        if o.Fail? {
          return;
        }
        var m :| m in rest;
        copied, rest := copied[m := active[m]], rest - {m};
        knownGood := knownGood[revision - 1 := copied];
      }
      assert copied == active;
    }

    /** Remove the active entries one by one. */
    method ClearActive(faults: bool) returns (o: Outcome<Fault>)
      modifies `active
      ensures o.Pass? ==> active == map[]
      ensures !faults ==> o.Pass?
    {
      o := Disturb(faults);
      while o.Pass? && active != map[]
        invariant !faults ==> o.Pass?
        decreases |active|, o.Pass?
      {
        var m :| m in active;
        assert (active - {m}).Keys == active.Keys - {m};
        active := active - {m};
        o := Disturb(faults);
      }
    }

    /** Copy a set into the active directory entry by entry; an entry that exists is an error. */
    method FillActive(source: Mods, faults: bool) returns (o: Outcome<Fault>)
      requires active == map[]
      modifies `active
      ensures o.Pass? ==> active == source
      ensures !faults ==> o.Pass?
    {
      o := Disturb(faults);
      var rest := source.Keys;
      while o.Pass? && rest != {}
        invariant rest <= source.Keys && active == map m | m in source.Keys - rest :: source[m]
        invariant !faults ==> o.Pass?
        decreases |rest|, o.Pass?
      {
        var m :| m in rest;
        active, rest := active[m := source[m]], rest - {m};
        o := Disturb(faults);
      }
      assert rest == {} ==> active == source;
    }

    method WriteMarker(revision: nat) returns (o: Outcome<Fault>)
      modifies `marker
      ensures marker == old(marker) || marker == Some(revision)
      ensures o.Pass? ==> marker == Some(revision)
      ensures !faulty ==> o.Pass?
    {
      o := Disturb(faulty);
      if o.Fail? {
        return;
      }
      marker := Some(revision);
      o := Disturb(faulty);
    }

    /** Replace the active set and commit it with the marker. */
    method Replace(source: Mods, revision: nat) returns (o: Outcome<Fault>)
      modifies `active, `marker
      ensures marker == old(marker) || marker == Some(revision)
      ensures o.Pass? ==> active == source && marker == Some(revision)
      ensures !faulty ==> o.Pass?
    {
      o := ClearActive(faulty);
      if o.Fail? {
        return;
      }
      o := FillActive(source, faulty);
      if o.Fail? {
        return;
      }
      o := WriteMarker(revision);
    }

    /** `undone` says that an undo, if there was one, ran to its end; `shaky` whether faults may hit it. */
    method Promote(revision: nat, shaky: bool) returns (r: Result<Promotion, Fault>, ghost undone: bool)
      requires revision >= 1
      modifies this
      ensures r == Ok(Promoted) ==>
                && revision in old(staged) && active == old(staged)[revision]
                && revision - 1 in knownGood && knownGood[revision - 1] == old(active)
                && marker == Some(revision) && revision !in staged
                && (revision > 2 ==> revision - 2 !in knownGood)
      // The saved sets of other revisions stay, but for that of the one before the last.
      ensures forall k: nat :: k != revision - 1 && (revision > 2 ==> k != revision - 2) ==>
                (k in knownGood <==> k in old(knownGood)) && (k in knownGood ==> knownGood[k] == old(knownGood)[k])
      ensures r == Ok(Adopted) <==> r.Ok? && old(marker) == Some(revision)
      ensures r == Ok(Adopted) ==> revision !in staged
      ensures old(marker.Some? && marker.value >= revision) ==> active == old(active) && marker == old(marker)
      ensures old(marker.Some? && marker.value > revision) ==> r.Err?
      // A failure leaves the old set, or the new one if only the clean-up failed, given that the undo runs to its end.
      ensures r.Err? && undone ==>
                || (active == old(active) && (marker == old(marker) || marker == Some(revision)))
                || (revision in old(staged) && active == old(staged)[revision] && marker == Some(revision))
      // If no fault hits the undo, a promotion that fails and is not cut short is undone.
      ensures !(faulty && shaky) && r.Err? && r.error != Crashed ==> undone
      // The old set is always whole: in place, or among the known-good ones.
      ensures active == old(active) || (revision - 1 in knownGood && knownGood[revision - 1] == old(active))
      ensures !faulty ==>
                && undone
                && (r.Ok? <==> old(marker) == Some(revision)
                               || (!old(marker.Some? && marker.value > revision) && revision in old(staged)))
    {
      undone := true;
      var o := Disturb(faulty);
      if o.Fail? {
        return Err(o.error), true;
      }
      if marker == Some(revision) {
        staged := staged - {revision};
        o := Disturb(faulty);
        return if o.Fail? then Err(o.error) else Ok(Adopted), true;
      }
      if (marker.Some? && marker.value > revision) || revision !in staged {
        return Err(Refused), true;
      }
      o := SaveActive(revision);
      KeptBeside(old(knownGood), knownGood, revision - 1);
      if o.Fail? {
        return Err(o.error), true;
      }
      o := Replace(staged[revision], revision);
      if o.Fail? {
        if o.error == Crashed {
          return Err(Crashed), false;
        }
        var undo := ClearActive(faulty && shaky);
        if undo.Pass? {
          undo := FillActive(knownGood[revision - 1], faulty && shaky);
        }
        return Err(if undo.Fail? then undo.error else o.error), undo.Pass?;
      }
      staged := staged - {revision};
      o := Disturb(faulty);
      if o.Pass? && revision > 2 {
        knownGood := knownGood - {revision - 2};
        o := Disturb(faulty);
      }
      r := if o.Fail? then Err(o.error) else Ok(Promoted);
    }
  }

  lemma KeptBeside(before: map<nat, Mods>, after: map<nat, Mods>, slot: nat)
    requires after - {slot} == before - {slot}
    ensures forall k: nat :: k != slot ==> (k in after <==> k in before) && (k in after ==> after[k] == before[k])
  {
    forall k: nat | k != slot
      ensures (k in after <==> k in before) && (k in after ==> after[k] == before[k])
    {
      assert k in after <==> k in after - {slot};
      assert k in before <==> k in before - {slot};
    }
  }

  /**
   The saved set is only as good as the active one it was copied from: after a promotion
   that was cut short once the active set was cleared, a retry saves the empty set over
   the good one.
   */
  method RetryForgetsSavedSet(revision: nat, active: Mods, staged: Mods)
    returns (r: Result<Promotion, Fault>, knownGood: Mods)
    requires revision >= 1
    ensures r == Ok(Promoted) && knownGood == map[]
  {
    var mods := new ModFiles(false, active, None, map[revision := staged]);
    var saved := mods.SaveActive(revision);
    var cleared := mods.ClearActive(false);
    ghost var undone;
    r, undone := mods.Promote(revision, false);
    assert r.Ok? && r.value != Adopted;
    knownGood := mods.knownGood[revision - 1];
  }
}
