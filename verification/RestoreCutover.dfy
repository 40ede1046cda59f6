/**
 The two-rename restore cutover over a server root.  Every awaited file operation is
 a step that may fail before or after its effect, or be the last one of the process;
 a crash point is therefore a possible result of each method.
 */
module RestoreCutover {
  import opened Faults
  import opened Prelude

  type Name = string
  type Content = string

  const MARKER: Name := ".gridora-restore-complete"

  /** A directory tree: its identity, and its files by relative name. */
  datatype Tree = Tree(id: nat, files: map<Name, Content>) {
    predicate Marked(expected: Content) {
      MARKER in files && files[MARKER] == expected
    }
  }

  datatype Place = Target | Stage | Rollback

  /** What stands at the three paths of a restore. */
  datatype Paths = Paths(target: Option<Tree>, stage: Option<Tree>, rollback: Option<Tree>) {
    function Get(p: Place): Option<Tree> {
      match p
      case Target => target
      case Stage => stage
      case Rollback => rollback
    }

    function Set(p: Place, t: Option<Tree>): Paths {
      match p
      case Target => this.(target := t)
      case Stage => this.(stage := t)
      case Rollback => this.(rollback := t)
    }

    function Move(from: Place, to: Place): Paths {
      Set(from, None).Set(to, Get(from))
    }
  }

  /** Tree `t`, if any, is older than the next identity. */
  predicate Older(t: Option<Tree>, nextId: nat) {
    t.Some? ==> t.value.id < nextId
  }

  /** Tree `t`, if any, is not the one with identity `id`. */
  predicate Other(t: Option<Tree>, id: nat) {
    t.Some? ==> t.value.id != id
  }

  class RestoreFs {
    /** The checksum of the backup that is being restored. */
    const expected: Content
    /** Whether steps may fail on their own. */
    const faulty: bool
    var fs: Paths
    /** The source-absent marker beside the rollback path. */
    var absent: bool
    var nextId: nat
    /** The tree that stood at the target before the restore, if any. */
    ghost const original: Option<Tree>
    /** What each tree holds whose staging reported success and whose removal has not begun. */
    ghost var complete: map<nat, map<Name, Content>>

    constructor (expected: Content, faulty: bool, before: Option<Tree>)
      requires expected != ""
      ensures this.expected == expected && this.faulty == faulty && original == before
      ensures fs == Paths(before, None, None) && !absent
      ensures Safe() && Whole()
    {
      this.expected, this.faulty, original := expected, faulty, before;
      fs, complete := Paths(before, None, None), map[];
      absent := false;
      nextId := if before.Some? then before.value.id + 1 else 0;
    }

    /**
     The original is whole at exactly one of target and rollback path; without an
     original there is no rollback tree, and a target exists only beside the marker.
     */
    ghost predicate Safe()
      reads this
    {
      && expected != ""
      && Older(original, nextId) && Older(fs.target, nextId) && Older(fs.stage, nextId) && Older(fs.rollback, nextId)
      && (original.Some? ==>
            && !absent
            && Other(fs.stage, original.value.id)
            && ((fs.target == original && fs.rollback == None)
                || (fs.rollback == original && Other(fs.target, original.value.id))))
      && (original.None? ==> fs.rollback == None && (fs.target.Some? ==> absent))
      && (forall id <- complete ::
            id < nextId && Other(original, id) && MARKER in complete[id] && complete[id][MARKER] == expected)
      && Holds(fs.stage) && Holds(fs.target)
      && (fs.stage.Some? ==> Other(fs.target, fs.stage.value.id))
    }

    /** A tree, if its staging was completed, holds just what was staged. */
    ghost predicate Holds(t: Option<Tree>)
      reads `complete
    {
      t.Some? && t.value.id in complete ==> t.value.files == complete[t.value.id]
    }

    /** Without faults there are no half-written or half-removed trees between two operations. */
    ghost predicate Whole()
      reads this
    {
      WholeTarget() && (!faulty && fs.stage.Some? ==> fs.stage.value.id in complete)
    }

    ghost predicate WholeTarget()
      reads this
    {
      !faulty && fs.target.Some? && fs.target != original ==> fs.target.value.id in complete
    }

    // --- steps -------------------------------------------------------------

    method Exists(place: Place) returns (r: Result<bool, Fault>)
      ensures r.Ok? ==> r.value == fs.Get(place).Some?
      ensures !faulty ==> r.Ok?
      ensures r.Err? ==> r.error == Crashed || r.error == IoFailed
    {
      var o := Disturb(faulty);
      r := if o.Pass? then Ok(fs.Get(place).Some?) else Err(o.error);
    }

    method AbsentMarkerExists() returns (r: Result<bool, Fault>)
      ensures r.Ok? ==> r.value == absent
      ensures !faulty ==> r.Ok?
      ensures r.Err? ==> r.error == Crashed || r.error == IoFailed
    {
      var o := Disturb(faulty);
      r := if o.Pass? then Ok(absent) else Err(o.error);
    }

    /** Read the completion marker of the target. */
    method ReadMarker() returns (r: Result<Content, Fault>)
      ensures r.Ok? ==> fs.target.Some? && MARKER in fs.target.value.files && r.value == fs.target.value.files[MARKER]
      ensures !faulty ==> (r.Ok? <==> fs.target.Some? && MARKER in fs.target.value.files)
      ensures r.Err? ==> r.error == Crashed || r.error == IoFailed
      ensures !faulty && r.Err? ==> r.error == IoFailed
    {
      var o := Disturb(faulty);
      if o.Fail? {
        return Err(o.error);
      }
      if fs.target.None? || MARKER !in fs.target.value.files {
        return Err(IoFailed);
      }
      r := Ok(fs.target.value.files[MARKER]);
    }

    /** `readFile(...).catch(() => '')`: an unreadable marker reads as empty. */
    method ReadMarkerOrEmpty() returns (r: Result<Content, Fault>)
      requires fs.target.Some? && expected != ""
      ensures r == Ok(expected) ==> fs.target.value.Marked(expected)
      ensures !faulty ==> r.Ok? && (r.value == expected <==> fs.target.value.Marked(expected))
      ensures r.Err? ==> r.error == Crashed
    {
      r := ReadMarker();
      if r == Err(IoFailed) {
        r := Ok("");
      }
    }

    /** Rename a tree; a missing source or an occupied destination is an error. */
    method Rename(from: Place, to: Place, faults: bool) returns (o: Outcome<Fault>)
      modifies this`fs
      ensures o.Pass? ==> old(fs.Get(from).Some? && fs.Get(to).None?) && fs == old(fs.Move(from, to))
      ensures o.Fail? ==> fs == old(fs) || (old(fs.Get(from).Some? && fs.Get(to).None?) && fs == old(fs.Move(from, to)))
      ensures !faults ==> (o.Pass? <==> old(fs.Get(from).Some? && fs.Get(to).None?))
      ensures o.Fail? ==> o.error == Crashed || o.error == IoFailed
    {
      o := Disturb(faults);
      if o.Fail? {
        return;
      }
      if fs.Get(from).None? || fs.Get(to).Some? {
        return Fail(IoFailed);
      }
      fs := fs.Move(from, to);
      o := Disturb(faults);
    }

    /** Recursive removal: one file after another, then the directory. */
    method Remove(place: Place) returns (o: Outcome<Fault>)
      modifies this`fs, this`complete
      ensures fs.Set(place, None) == old(fs).Set(place, None)
      ensures o.Pass? ==> fs.Get(place).None?
      ensures fs.Get(place).Some? ==> old(fs.Get(place).Some?) && fs.Get(place).value.id == old(fs.Get(place).value.id)
      ensures complete == old(complete)
              || (old(fs.Get(place).Some?) && complete == old(complete) - {old(fs.Get(place).value.id)})
      ensures fs.Get(place).Some? && fs.Get(place).value.id in complete ==> fs.Get(place) == old(fs.Get(place))
      ensures !faulty ==> o.Pass?
      ensures o.Fail? ==> o.error == Crashed || o.error == IoFailed
    {
      o := Disturb(faulty);
      if o.Fail? || fs.Get(place).None? {
        return;
      }
      ghost var id := fs.Get(place).value.id;
      complete := complete - {id};
      while fs.Get(place).value.files != map[]
        invariant fs.Set(place, None) == old(fs).Set(place, None)
        invariant fs.Get(place).Some? && fs.Get(place).value.id == id && complete == old(complete) - {id}
        decreases |fs.Get(place).value.files|
      {
        var name :| name in fs.Get(place).value.files;
        Unlink(place, name);
        o := Disturb(faulty);
        if o.Fail? {
          return;
        }
      }
      fs := fs.Set(place, None);
      o := Disturb(faulty);
    }

    /** Remove one file of a tree. */
    method Unlink(place: Place, name: Name)
      requires fs.Get(place).Some? && name in fs.Get(place).value.files
      modifies this`fs
      ensures fs == old(fs.Set(place, Some(Tree(fs.Get(place).value.id, fs.Get(place).value.files - {name}))))
      ensures |fs.Get(place).value.files| < old(|fs.Get(place).value.files|)
    {
      var tree := fs.Get(place).value;
      var left := tree.files - {name};
      assert left.Keys == tree.files.Keys - {name};
      fs := fs.Set(place, Some(Tree(tree.id, left)));
    }

    /** Write or remove the source-absent marker. */
    method SetAbsentMarker(present: bool) returns (o: Outcome<Fault>)
      modifies this`absent
      ensures o.Pass? ==> absent == present
      ensures o.Fail? ==> absent == old(absent) || absent == present
      ensures !faulty ==> o.Pass?
      ensures o.Fail? ==> o.error == Crashed || o.error == IoFailed
    {
      o := Disturb(faulty);
      if o.Fail? {
        return;
      }
      absent := present;
      o := Disturb(faulty);
    }

    // --- operations ----------------------------------------------------------

    /** Extract the archive into a fresh staging tree; on an error the partial tree is removed. */
    method StageRestore(payload: map<Name, Content>) returns (o: Outcome<Fault>)
      requires Safe()
      modifies this`fs, this`nextId, this`complete
      ensures Safe() && (old(Whole()) ==> Whole())
      ensures fs.Set(Stage, None) == old(fs).Set(Stage, None)
      ensures o.Pass? ==> fs.stage.Some? && fs.stage.value.files == payload[MARKER := expected]
      ensures o.Pass? ==> fs.stage.value.id in complete
      ensures !faulty ==> if MARKER in payload then o.Fail? && fs.stage.None? else o.Pass?
    {
      hide Safe;
      o := RemoveStage();
      if o.Fail? {
        return;
      }
      o := Extract(payload);
      if o.Fail? && o.error != Crashed {
        var cleanup := RemoveStage();
        if cleanup.Fail? {
          o := cleanup;
        }
      }
    }

    /** Remove the staging tree, whatever it holds. */
    method RemoveStage() returns (o: Outcome<Fault>)
      requires Safe()
      modifies this`fs, this`complete
      ensures Safe() && (old(WholeTarget()) ==> WholeTarget())
      ensures fs.Set(Stage, None) == old(fs).Set(Stage, None)
      ensures o.Pass? ==> fs.stage.None?
      ensures !faulty ==> o.Pass?
    {
      o := Remove(Stage);
    }

    /** Write every file of the payload, then the completion marker. */
    method Extract(payload: map<Name, Content>) returns (o: Outcome<Fault>)
      requires Safe() && fs.stage.None?
      modifies this`fs, this`nextId, this`complete
      ensures Safe()
      ensures fs.Set(Stage, None) == old(fs).Set(Stage, None) && (old(WholeTarget()) ==> WholeTarget())
      ensures o.Pass? ==> fs.stage.Some? && fs.stage.value.files == payload[MARKER := expected]
      ensures complete == if o.Pass? then old(complete)[fs.stage.value.id := payload[MARKER := expected]] else old(complete)
      ensures !faulty ==> if MARKER in payload then o == Fail(IoFailed) else o.Pass?
    {
      hide Safe;
      o := Disturb(faulty);
      if o.Fail? {
        return;
      }
      var id := NewStage();
      var written: map<Name, Content> := map[];
      var rest := payload.Keys;
      while rest != {}
        invariant Safe() && fs == old(fs).(stage := Some(Tree(id, written)))
        invariant nextId == id + 1 == old(nextId) + 1 && id !in complete && complete == old(complete)
        invariant rest <= payload.Keys && written == map name | name in payload.Keys - rest :: payload[name]
        decreases |rest|
      {
        o := Disturb(faulty);
        if o.Fail? {
          return;
        }
        var name :| name in rest;
        written := written[name := payload[name]];
        rest := rest - {name};
        PutStage(id, written);
      }
      assert written == payload;
      o := Disturb(faulty);
      if o.Fail? {
        return;
      }
      o := FinishStage(id, payload);
    }

    /** Write the completion marker beside a whole payload. */
    method FinishStage(id: nat, payload: map<Name, Content>) returns (o: Outcome<Fault>)
      requires Safe() && fs.stage == Some(Tree(id, payload)) && id !in complete
      modifies this`fs, this`complete
      ensures Safe()
      ensures fs.Set(Stage, None) == old(fs).Set(Stage, None)
      ensures o.Pass? ==> fs.stage == Some(Tree(id, payload[MARKER := expected]))
      ensures complete == if o.Pass? then old(complete)[id := payload[MARKER := expected]] else old(complete)
      ensures !faulty ==> if MARKER in payload then o == Fail(IoFailed) else o.Pass?
    {
      if MARKER in payload {
        return Fail(IoFailed);
      }
      PutStage(id, payload[MARKER := expected]);
      o := Disturb(faulty);
      if o.Pass? {
        complete := complete[id := payload[MARKER := expected]];
      }
    }

    /** Make the staging directory. */
    method NewStage() returns (id: nat)
      requires Safe() && fs.stage.None?
      modifies this`fs, this`nextId
      ensures id == old(nextId) && nextId == id + 1 && id !in complete
      ensures fs == old(fs).(stage := Some(Tree(id, map[]))) && Safe()
    {
      id := nextId;
      nextId := nextId + 1;
      fs := fs.Set(Stage, Some(Tree(id, map[])));
    }

    /** The staging tree now holds `files`. */
    method PutStage(id: nat, files: map<Name, Content>)
      requires Safe() && fs.stage.Some? && fs.stage.value.id == id && id !in complete
      modifies this`fs
      ensures fs == old(fs).(stage := Some(Tree(id, files))) && Safe()
    {
      fs := fs.Set(Stage, Some(Tree(id, files)));
    }

    /** The paths after a cutover of the stage. */
    ghost function CutOver(): Paths
      reads this
    {
      Paths(fs.stage, None, if fs.target.Some? then fs.target else fs.rollback)
    }

    /** The tree that a commit puts or finds at the target. */
    ghost function Committed(): Option<Tree>
      reads this
    {
      if fs.stage.Some? then fs.stage else fs.target
    }

    /**
     Cut the stage over, or adopt an earlier cutover.  `shaky` says whether faults may hit a
     compensation, and `undone` whether one has put the original back.
     */
    method CommitRestore(shaky: bool) returns (o: Outcome<Fault>, ghost undone: bool)
      requires Safe()
      modifies this`fs, this`absent
      ensures Safe() && (old(Whole()) ==> Whole())
      // Success is a cutover of the stage, or the adoption of an earlier one.
      ensures o.Pass? ==>
                if old(fs.stage.Some?) then fs == old(CutOver()) && absent == original.None?
                else fs.target.Some? && fs.target.value.Marked(expected) && fs == old(fs) && absent == old(absent)
      // Without faults success is decided by what exists.
      ensures !faulty ==>
                (o.Pass? <==> if old(fs.stage.Some?)
                              then old(fs.target.Some? ==> fs.rollback.None? && !absent)
                              else old(fs.target.Some? && fs.target.value.Marked(expected)))
      // However it ends, a stage is still there or stands at the target.
      ensures old(fs.stage.Some?) ==> fs.stage == old(fs.stage) || (fs.stage.None? && fs.target == old(fs.stage))
      // A compensation that succeeds leaves the original where it was, and whole.
      ensures undone ==> o.Fail? && fs.target == original && original.Some? && fs.rollback.None? && fs.stage == old(fs.stage)
      // Where stage and target are gone, the original is put back, and without faults always.
      ensures !faulty && old(fs.stage.None? && fs.target.None? && fs.rollback.Some?) ==>
                undone && o == Fail(Refused) && fs == old(fs.Move(Rollback, Target))
      // A finished commit stays as it is when it is repeated.
      ensures old(fs.target.Some? && fs.stage.None?) ==> fs == old(fs) && absent == old(absent)
    {
      undone := false;
      var targetExists := Exists(Target);
      if targetExists.Err? { return Fail(targetExists.error), undone; }
      var stageExists := Exists(Stage);
      if stageExists.Err? { return Fail(stageExists.error), undone; }
      var rollbackExists := Exists(Rollback);
      if rollbackExists.Err? { return Fail(rollbackExists.error), undone; }
      if targetExists.value && !stageExists.value {
        var marker := ReadMarker();
        if marker.Err? { return Fail(marker.error), undone; }
        return if marker.value != expected then Fail(Refused) else Pass, undone;
      }
      if !stageExists.value {
        if !targetExists.value && rollbackExists.value {
          o, undone := Reinstate(shaky);
          if o.Fail? { return; }
        }
        return Fail(Refused), undone;
      }
      if !targetExists.value && rollbackExists.value {
        o := MoveStage();
        return;
      }
      if !targetExists.value {
        o := SetAbsentMarker(true);
        if o.Fail? { return; }
        o := MoveStage();
        return;
      }
      if rollbackExists.value {
        return Fail(Refused), undone;
      }
      var markerExists := AbsentMarkerExists();
      if markerExists.Err? { return Fail(markerExists.error), undone; }
      if markerExists.value {
        return Fail(Refused), undone;
      }
      o, undone := SetAside(shaky);
    }

    /** Set the original aside and put the stage in its place. */
    method SetAside(shaky: bool) returns (o: Outcome<Fault>, ghost undone: bool)
      requires Safe() && original.Some? && fs.target == original && fs.stage.Some? && fs.rollback.None?
      modifies this`fs
      ensures Safe() && (old(Whole()) ==> Whole())
      ensures fs == old(fs) || fs == old(fs.Move(Target, Rollback)) || fs == old(fs.Move(Target, Rollback).Move(Stage, Target))
      ensures o.Pass? ==> fs == old(fs.Move(Target, Rollback).Move(Stage, Target)) && !undone
      ensures undone ==> o.Fail? && fs == old(fs)
      ensures !faulty ==> o.Pass?
    {
      undone := false;
      o := Rename(Target, Rollback, faulty);
      if o.Fail? {
        return;
      }
      o, undone := MoveIn(shaky);
      if o.Pass? {
        o := Disturb(faulty);
      }
    }

    /** Put the stage in the empty place of the target. */
    method MoveStage() returns (o: Outcome<Fault>)
      requires Safe() && fs.stage.Some? && fs.target.None? && (original.None? ==> absent)
      modifies this`fs
      ensures Safe() && (old(Whole()) ==> Whole())
      ensures fs == old(fs) || fs == old(fs.Move(Stage, Target))
      ensures o.Pass? ==> fs == old(fs.Move(Stage, Target))
      ensures !faulty ==> o.Pass?
    {
      o := Rename(Stage, Target, faulty);
      if o.Pass? {
        o := Disturb(faulty);
      }
    }

    /** Put the original back where neither stage nor target is left. */
    method Reinstate(shaky: bool) returns (o: Outcome<Fault>, ghost undone: bool)
      requires Safe() && fs.stage.None? && fs.target.None? && fs.rollback.Some?
      modifies this`fs
      ensures Safe() && (old(Whole()) ==> Whole())
      ensures fs == if undone then old(fs.Move(Rollback, Target)) else old(fs)
      ensures original == old(fs.rollback)
      ensures o.Pass? ==> undone
      ensures !faulty ==> o.Pass?
    {
      o := Rename(Rollback, Target, faulty && shaky);
      undone := fs != old(fs);
      if o.Pass? {
        o := Disturb(faulty && shaky);
      }
    }

    /** With the original set aside, put the stage in its place; if that fails, put the original back. */
    method MoveIn(shaky: bool) returns (o: Outcome<Fault>, ghost undone: bool)
      requires Safe() && original.Some? && fs.target.None? && fs.stage.Some? && fs.rollback == original
      modifies this`fs
      ensures Safe() && (fs == old(fs) || fs == old(fs.Move(Stage, Target)) || fs == old(fs.Move(Rollback, Target)))
      ensures o.Pass? ==> fs == old(fs.Move(Stage, Target)) && !undone
      ensures undone ==> o.Fail? && fs == old(fs.Move(Rollback, Target))
      // A failure that is not cut short leaves the stage in place, or the original back in its own.
      ensures !(faulty && shaky) && o.Fail? && o.error != Crashed && fs != old(fs.Move(Stage, Target)) ==> undone
      ensures !faulty ==> o.Pass?
    {
      undone := false;
      o := Rename(Stage, Target, faulty);
      if o.Pass? {
        o := Disturb(faulty);
      }
      if o.Fail? && o.error != Crashed {
        var undo := Rename(Rollback, Target, faulty && shaky);
        undone := undo.Pass?;
        if undo.Fail? { o := undo; }
      }
    }

    method RollbackRestore() returns (o: Outcome<Fault>)
      requires Safe()
      modifies this`fs, this`absent, this`complete
      ensures Safe() && (old(Whole()) ==> Whole())
      // From every reachable state, success restores exactly what was there before.
      ensures o.Pass? ==> fs == Paths(original, None, None) && !absent
      // Without faults only a target that is not the exact committed stage is refused, and then stays.
      ensures !faulty && o.Fail? ==> fs == old(fs) && absent == old(absent) && complete == old(complete)
      ensures !faulty ==>
                (o.Pass? <==> old((fs.rollback.Some? || absent) && fs.target.Some? ==> fs.target.value.Marked(expected)))
    {
      var targetExists := Exists(Target);
      if targetExists.Err? { return Fail(targetExists.error); }
      var rollbackExists := Exists(Rollback);
      if rollbackExists.Err? { return Fail(rollbackExists.error); }
      var sourceWasAbsent := AbsentMarkerExists();
      if sourceWasAbsent.Err? { return Fail(sourceWasAbsent.error); }
      if rollbackExists.value {
        if targetExists.value {
          o := RemoveCommitted();
          if o.Fail? { return; }
        }
        o := PutBack();
        return;
      }
      if sourceWasAbsent.value {
        if targetExists.value {
          o := RemoveCommitted();
          if o.Fail? { return; }
        }
        o := Discard();
        return;
      }
      o := RemoveStage();
    }

    /** Remove the target, if it is the committed stage. */
    method RemoveCommitted() returns (o: Outcome<Fault>)
      requires Safe() && fs.target.Some? && (fs.rollback.Some? || absent)
      modifies this`fs, this`complete
      ensures Safe() && (old(Whole()) ==> Whole())
      ensures fs.Set(Target, None) == old(fs).Set(Target, None)
      ensures o.Pass? ==> fs.target.None?
      ensures !faulty ==> (o.Pass? <==> old(fs.target.value.Marked(expected)))
      ensures !faulty && o.Fail? ==> fs == old(fs) && complete == old(complete)
    {
      var marker := ReadMarkerOrEmpty();
      if marker.Err? { return Fail(marker.error); }
      if marker.value != expected { return Fail(Refused); }
      o := Remove(Target);
    }

    /** Rename the original back, then discard the rest. */
    method PutBack() returns (o: Outcome<Fault>)
      requires Safe() && fs.target.None? && fs.rollback.Some?
      modifies this`fs, this`absent, this`complete
      ensures Safe() && (old(Whole()) ==> Whole())
      ensures o.Pass? ==> fs == Paths(original, None, None) && !absent
      ensures !faulty ==> o.Pass?
    {
      o := Rename(Rollback, Target, faulty);
      if o.Fail? { return; }
      o := Discard();
    }

    /** With the original back in its place, discard the stage and the source-absent marker. */
    method Discard() returns (o: Outcome<Fault>)
      requires Safe() && fs.target == original && fs.rollback.None?
      modifies this`fs, this`absent, this`complete
      ensures Safe() && (old(Whole()) ==> Whole())
      ensures fs.target == original && fs.rollback.None?
      ensures o.Pass? ==> fs == Paths(original, None, None) && !absent
      ensures !faulty ==> o.Pass?
    {
      o := RemoveStage();
      if o.Fail? { return; }
      o := SetAbsentMarker(false);
      if o.Fail? { return; }
      o := Disturb(faulty);
    }

    /** Discard the rollback material once the restore has succeeded everywhere. */
    method FinalizeRestore() returns (o: Outcome<Fault>)
      requires expected != ""
      modifies this`fs, this`absent, this`complete
      ensures fs.target == old(fs.target)
      ensures o.Pass? ==> fs.target.Some? && fs.target.value.Marked(expected)
      ensures o.Pass? ==> fs == Paths(old(fs.target), None, None) && !absent
      ensures !faulty ==> (o.Pass? <==> fs.target.Some? && fs.target.value.Marked(expected))
      // A target that is not the committed stage keeps its rollback material.
      ensures !(fs.target.Some? && fs.target.value.Marked(expected)) ==> fs == old(fs) && absent == old(absent)
    {
      var targetExists := Exists(Target);
      if targetExists.Err? { return Fail(targetExists.error); }
      if !targetExists.value { return Fail(Refused); }
      var marker := ReadMarkerOrEmpty();
      if marker.Err? { return Fail(marker.error); }
      if marker.value != expected { return Fail(Refused); }
      o := Remove(Rollback);
      if o.Fail? { return; }
      o := SetAbsentMarker(false);
      if o.Fail? { return; }
      o := Remove(Stage);
      if o.Fail? { return; }
      o := Disturb(faulty);
    }

    /**
     Any number of staging, commit and rollback calls in any order, each of them cut
     short anywhere or retried, keep the original tree safe.
     */
    method Run(calls: nat)
      requires Safe()
      modifies this
      ensures Safe() && (old(Whole()) ==> Whole())
    {
      for i := 0 to calls
        invariant Safe() && (old(Whole()) ==> Whole())
      {
        if * {
          var payload: map<Name, Content> := *;
          var _ := StageRestore(payload);
        } else if * {
          var shaky: bool := *;
          var _, _ := CommitRestore(shaky);
        } else {
          var _ := RollbackRestore();
        }
      }
    }
  }

  /** After any run, a rollback that succeeds has undone the whole restore. */
  method RollbackAfterRun(expected: Content, faulty: bool, before: Option<Tree>, calls: nat)
    returns (o: Outcome<Fault>, fs: Paths, absent: bool)
    requires expected != ""
    ensures o.Pass? ==> fs == Paths(before, None, None) && !absent
    ensures before.Some? ==> !absent && (fs.target == before) != (fs.rollback == before)
  {
    var disk := new RestoreFs(expected, faulty, before);
    disk.Run(calls);
    o := disk.RollbackRestore();
    fs, absent := disk.fs, disk.absent;
  }

  /**
   After any run, a commit that reports success has cut over, keeping the original at
   the rollback path, unless it adopted an original that carries the expected marker.
   The target then holds all of its payload if its staging reported success and no
   rollback began to remove it, which without faults is always so.
   */
  method CommitAfterRun(expected: Content, faulty: bool, before: Option<Tree>, calls: nat)
    returns (o: Outcome<Fault>, fs: Paths, ghost complete: map<nat, map<Name, Content>>)
    requires expected != ""
    ensures o.Pass? ==> fs.target.Some?
    ensures o.Pass? && fs.target != before ==> fs.rollback == before
    ensures o.Pass? && fs.target == before ==> before.value.Marked(expected)
    ensures o.Pass? && fs.target.value.id in complete ==>
              fs.target.value.Marked(expected) && fs.target.value.files == complete[fs.target.value.id]
    ensures o.Pass? && !faulty && fs.target != before ==> fs.target.value.id in complete
  {
    var disk := new RestoreFs(expected, faulty, before);
    disk.Run(calls);
    ghost var undone;
    o, undone := disk.CommitRestore(true);
    fs, complete := disk.fs, disk.complete;
  }

  /**
   After any run: once a staging has reported success, a commit that reports success has
   put exactly its payload at the target, however many commits were cut short in between.
   */
  method StagedCommitAfterRun(expected: Content, faulty: bool, before: Option<Tree>, calls: nat,
                              payload: map<Name, Content>, commits: nat)
    returns (staged: Outcome<Fault>, o: Outcome<Fault>, fs: Paths)
    requires expected != ""
    ensures staged.Pass? && o.Pass? ==> fs.target.Some? && fs.target.value.files == payload[MARKER := expected]
  {
    var disk := new RestoreFs(expected, faulty, before);
    disk.Run(calls);
    staged := disk.StageRestore(payload);
    if staged.Fail? {
      return staged, staged, disk.fs;
    }
    ghost var tree, complete := disk.fs.stage, disk.complete;
    for i := 0 to commits
      invariant disk.Safe() && disk.complete == complete
      invariant disk.fs.stage == tree || (disk.fs.stage.None? && disk.fs.target == tree)
    {
      var _, _ := disk.CommitRestore(true);
    }
    ghost var undone;
    o, undone := disk.CommitRestore(true);
    fs := disk.fs;
  }

  /**
   A commit that reported success can be repeated: nothing changes, and without faults it
   succeeds again exactly if the tree it committed carries the expected marker.
   */
  method CommitTwice(disk: RestoreFs) returns (first: Outcome<Fault>, second: Outcome<Fault>)
    requires disk.Safe()
    modifies disk
    ensures disk.Safe()
    ensures first.Pass? ==> old(disk.Committed().Some?)
    ensures first.Pass? ==>
              && disk.fs == (if old(disk.fs.stage.Some?) then old(disk.CutOver()) else old(disk.fs))
              && disk.absent == (if old(disk.fs.stage.Some?) then disk.original.None? else old(disk.absent))
    ensures first.Pass? && second.Pass? ==> old(disk.Committed()).value.Marked(disk.expected)
    ensures first.Pass? && !disk.faulty ==> (second.Pass? <==> old(disk.Committed()).value.Marked(disk.expected))
    // In particular, it succeeds again if the staging of that tree reported success.
    ensures first.Pass? && !disk.faulty && old(disk.fs.stage.Some?) && old(disk.fs.stage.value.id) in disk.complete ==>
              second.Pass?
  {
    ghost var undone, again;
    first, undone := disk.CommitRestore(true);
    second, again := disk.CommitRestore(true);
  }

  /**
   A stage that a stopped extraction left without its marker is cut over with success all
   the same; only the repeated commit is refused, and so is the rollback.
   */
  method HalfStagedIsCommitted(expected: Content, before: Tree, part: map<Name, Content>)
    returns (first: Outcome<Fault>, second: Outcome<Fault>, rollback: Outcome<Fault>, fs: Paths)
    requires expected != "" && MARKER !in part
    ensures first.Pass? && second.Fail? && rollback.Fail?
    ensures fs.target.Some? && fs.target.value.files == part && fs.rollback == Some(before) && fs.stage.None?
  {
    var disk := new RestoreFs(expected, false, Some(before));
    var id := disk.NewStage();
    disk.PutStage(id, part);
    ghost var undone, again;
    first, undone := disk.CommitRestore(true);
    second, again := disk.CommitRestore(true);
    rollback := disk.RollbackRestore();
    fs := disk.fs;
  }

  /** A target of which a stopped rollback has left only the marker is adopted by the next commit. */
  method HalfRemovedIsAdopted(expected: Content, before: Tree, name: Name, content: Content)
    returns (o: Outcome<Fault>, fs: Paths)
    requires expected != "" && name != MARKER
    ensures o.Pass?
    ensures fs.target.Some? && fs.target.value.files == map[MARKER := expected] && fs.rollback == Some(before)
  {
    var disk := new RestoreFs(expected, false, Some(before));
    var id := disk.NewStage();
    disk.PutStage(id, map[name := content, MARKER := expected]);
    var committed, undone := disk.CommitRestore(true);
    assert disk.fs == Paths(Some(Tree(id, map[name := content, MARKER := expected])), None, Some(before));
    disk.Unlink(Target, name);
    o, undone := disk.CommitRestore(true);
    fs := disk.fs;
  }

  /** Such an original, left by an earlier restore of the same backup, is adopted without any staging. */
  method AdoptsMarkedOriginal(expected: Content, before: Tree)
    returns (o: Outcome<Fault>, fs: Paths)
    requires expected != ""
    ensures o.Pass? <==> before.Marked(expected)
    ensures fs == Paths(Some(before), None, None)
  {
    var disk := new RestoreFs(expected, false, Some(before));
    ghost var undone;
    o, undone := disk.CommitRestore(true);
    fs := disk.fs;
  }
}
