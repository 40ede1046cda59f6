/**
 Staging and promotion of a rendered configuration: files are moved into the active
 tree one by one with an undo log, and a revision marker commits the change.
 */
module ConfigPromotion {
  import opened Faults
  import opened Prelude
  import opened Slashes

  datatype File = File(content: string, mode: nat)
  datatype FileRender = FileRender(path: string, file: File)

  type Files = map<string, File>

  datatype Promotion = Promoted | Adopted

  /** A configuration that staging has accepted, to be promoted later. */
  datatype Prepared = Prepared(revision: nat, files: seq<FileRender>)

  datatype Undo = Undo(path: string, hadPrior: bool)

  function Paths(files: seq<FileRender>): (s: set<string>)
    ensures forall p :: p in s <==> exists i :: 0 <= i < |files| && files[i].path == p
  {
    set f <- files :: f.path
  }

  /** `new Set(paths).size === files.length`. */
  predicate Distinct(files: seq<FileRender>) {
    forall i, j :: 0 <= i < j < |files| ==> files[i].path != files[j].path
  }

  /** The list names a path twice. */
  predicate Twice(files: seq<FileRender>, path: string) {
    exists i, j :: 0 <= i < j < |files| && files[i].path == files[j].path == path
  }

  /** File `n` is the first one that is not staged, or that repeats an earlier path. */
  predicate StopsAt(files: seq<FileRender>, tree: Files, n: nat) {
    && n < |files|
    && (files[n].path !in tree || files[n].path in Paths(files[..n]))
    && forall k :: 0 <= k < n ==> files[k].path in tree && files[k].path !in Paths(files[..k])
  }

  /** The path of file `n`, if it repeats an earlier one. */
  function Again(files: seq<FileRender>, n: nat): set<string>
    requires n < |files|
  {
    if files[n].path in Paths(files[..n]) then {files[n].path} else {}
  }

  /** A marker that is there stays, and does not go back. */
  predicate Rising(before: Option<nat>, after: Option<nat>) {
    before.Some? ==> after.Some? && before.value <= after.value
  }

  /** Where the known-good files of a promotion go: `Math.max(0, revision - 1)`. */
  function Slot(revision: nat): nat {
    if revision == 0 then 0 else revision - 1
  }

  function Restrict(files: Files, paths: set<string>): Files {
    map p | p in files && p in paths :: files[p]
  }

  /** The tree that a list of files makes. */
  function Rendered(files: seq<FileRender>): Files {
    if files == [] then map[]
    else Rendered(files[..|files| - 1])[files[|files| - 1].path := files[|files| - 1].file]
  }

  lemma {:induction false} RenderedKeys(files: seq<FileRender>)
    ensures Rendered(files).Keys == Paths(files)
  {
    if files != [] {
      var before := files[..|files| - 1];
      RenderedKeys(before);
      assert files == before + [files[|files| - 1]];
      forall p ensures p in Rendered(files) <==> p in Paths(files) {
        if p in Paths(files) && p != files[|files| - 1].path {
          var i :| 0 <= i < |files| && files[i].path == p;
          assert before[i].path == p;
        }
      }
    }
  }

  /** All that is rendered is at the rendered paths. */
  lemma RenderedWhole(files: seq<FileRender>)
    ensures Paths(files) <= Rendered(files).Keys && Restrict(Rendered(files), Paths(files)) == Rendered(files)
  {
    RenderedKeys(files);
  }

  /** Every entry of `before` still stands in the active tree or among the known-good files. */
  predicate NothingLost(before: Files, active: Files, knownGood: Files) {
    forall p <- before ::
      || (p in active && active[p] == before[p])
      || (p in knownGood && knownGood[p] == before[p])
  }

  /** `safeRelative`: a relative path of non-empty segments other than `.` and `..`. */
  predicate SafeRelative(path: string) {
    && path != "" && path[0] != '/' && '\0' !in path
    && forall segment <- Split(path, '/', "") :: segment != "" && segment != "." && segment != ".."
  }

  predicate HasDotDot(path: string) {
    |path| >= 2 && (path[..2] == ".." || HasDotDot(path[1..]))
  }

  predicate PlainPart(part: string) {
    part != "" && part != "." && part != ".." && '/' !in part && '\0' !in part
  }

  /** The accepted paths: plain parts with slashes between them, and no two dots in a row. */
  lemma AcceptedPaths(path: string)
    ensures SafeRelative(path) <==>
              exists parts :: parts != [] && path == Joined(parts, '/') && forall part <- parts :: PlainPart(part)
    ensures HasDotDot(path) <==> exists i :: 0 <= i < |path| - 1 && path[i] == '.' && path[i + 1] == '.'
  {
    DotDotMeans(path);
    if SafeRelative(path) {
      var parts := Split(path, '/', "");
      SplitJoins(path, '/', "");
      assert "" + path == path;
      forall part | part in parts ensures PlainPart(part) {
        PartOf(parts, '/', part);
      }
      assert path == Joined(parts, '/');
    }
    if parts: seq<string> :| parts != [] && path == Joined(parts, '/') && forall part <- parts :: PlainPart(part) {
      assert PlainPart(parts[0]) && forall part <- parts :: PlainPart(part);
      SplitOfJoined(parts, '/');
      NotJoined(parts, '/', '\0');
      JoinedStarts(parts, '/');
    }
  }

  lemma {:induction false} DotDotMeans(path: string)
    ensures HasDotDot(path) <==> exists i :: 0 <= i < |path| - 1 && path[i] == '.' && path[i + 1] == '.'
  {
    if |path| >= 2 {
      var rest := path[1..];
      DotDotMeans(rest);
      assert path[..2] == [path[0], path[1]];
      if i :| 0 <= i < |rest| - 1 && rest[i] == '.' && rest[i + 1] == '.' {
        assert path[i + 1] == '.' && path[i + 2] == '.';
      }
      if i :| 0 < i < |path| - 1 && path[i] == '.' && path[i + 1] == '.' {
        assert rest[i - 1] == '.' && rest[i] == '.';
      }
    }
  }

  /**
   The trees when the files at `done` have been moved: the active tree has them from
   the staged tree, and the known-good tree has what they replaced.
   */
  ghost predicate MovedAt(before: Files, staged: Files, done: set<string>, active: Files, knownGood: Files) {
    && done <= staged.Keys
    && (forall p :: p in active <==> p in before || p in done)
    && (forall p <- active :: active[p] == if p in done then staged[p] else if p in before then before[p] else active[p])
    && (forall p :: p in knownGood <==> p in before && p in done)
    && (forall p <- knownGood :: p in before && knownGood[p] == before[p])
  }

  lemma MovedIsOverride(before: Files, staged: Files, done: set<string>, active: Files, knownGood: Files)
    requires MovedAt(before, staged, done, active, knownGood)
    ensures active == before + Restrict(staged, done)
    ensures knownGood == Restrict(before, done)
    ensures done == {} ==> active == before
    ensures NothingLost(before, active, knownGood)
  {
  }

  /** Every known-good file but one is as it was. */
  predicate KeptBeside(before: Files, after: Files, path: string) {
    forall p <- before :: p != path ==> p in after && after[p] == before[p]
  }

  /** What the moved files replaced is set aside. */
  predicate SetAsideAll(moved: seq<Undo>, stood: Files, kept: Files) {
    forall k :: 0 <= k < |moved| && moved[k].path in stood ==>
      moved[k].path in kept && kept[moved[k].path] == stood[moved[k].path]
  }

  lemma SetAsideStays(moved: seq<Undo>, files: seq<FileRender>, before: Files, staged: Files, active: Files, kept: Files,
                      after: Files, path: string)
    requires Logged(moved, files, before) && MovedAt(before, staged, Paths(files[..|moved|]), active, kept)
    requires KeptBeside(kept, after, path)
    ensures SetAsideAll(moved, before - {path}, after)
    ensures path !in Paths(files[..|moved|]) || after == kept ==> SetAsideAll(moved, before, after)
  {
    forall k | 0 <= k < |moved| && moved[k].path in before
      ensures moved[k].path in kept && kept[moved[k].path] == before[moved[k].path]
      ensures moved[k].path in Paths(files[..|moved|])
    {
      assert files[..|moved|][k].path == moved[k].path;
    }
  }

  /** What is left to move. */
  function Rest(staged: Files, done: set<string>): Files {
    map p | p in staged && p !in done :: staged[p]
  }

  lemma RestStep(staged: Files, done: set<string>, p: string)
    requires p !in done
    ensures p in Rest(staged, done) <==> p in staged
    ensures p in staged ==> Rest(staged, done)[p] == staged[p]
    ensures Rest(staged, done) - {p} == Rest(staged, done + {p})
    ensures Rest(staged, {}) == staged
  {
  }

  /** Setting a file aside and putting the new one in its place moves one more path. */
  lemma MoveStep(before: Files, staged: Files, done: set<string>, active: Files, kept: Files, p: string)
    requires MovedAt(before, staged, done, active, kept) && p !in done
    ensures p in active <==> p in before
    ensures p in active ==>
              && NothingLost(before, active - {p}, kept[p := active[p]])
              && (active - {p})[p := active[p]] == active && kept[p := active[p]] - {p} == kept
    ensures p in staged ==>
              && MovedAt(before, staged, done + {p}, active[p := staged[p]], if p in active then kept[p := active[p]] else kept)
              && (active - {p})[p := staged[p]] == active[p := staged[p]]
    ensures NothingLost(before, active, kept)
  {
  }

  /** Moving a path again overwrites what was set aside for it, and finds nothing to put in its place. */
  lemma MoveAgain(before: Files, staged: Files, done: set<string>, active: Files, kept: Files, p: string)
    requires MovedAt(before, staged, done, active, kept) && p in done
    ensures p in active && p !in Rest(staged, done)
    ensures MovedAt(before - {p}, staged, done, active, kept - {p})
    ensures NothingLost(before, active, kept) && NothingLost(before - {p}, active - {p}, kept[p := active[p]])
    ensures (active - {p})[p := active[p]] == active && kept[p := active[p]] - {p} == kept - {p}
    ensures NothingLost(before - {p}, active, kept - {p})
  {
  }

  /** Removing a moved file and putting back what it replaced undoes one path. */
  lemma UndoStep(before: Files, staged: Files, done: set<string>, active: Files, kept: Files, p: string)
    requires MovedAt(before, staged, done + {p}, active, kept) && p !in done
    ensures if p in before
            then p in kept && MovedAt(before, staged, done, (active - {p})[p := kept[p]], kept - {p})
            else MovedAt(before, staged, done, active - {p}, kept)
  {
    assert kept - {p} == map q | q in kept && q != p :: kept[q];
  }

  /** While what it replaced is set aside, a file may go. */
  lemma UndoLosesNothing(before: Files, active: Files, kept: Files, p: string)
    requires NothingLost(before, active, kept) && (p in before ==> p in kept && kept[p] == before[p])
    ensures NothingLost(before, active - {p}, kept)
    ensures p in kept ==> NothingLost(before, (active - {p})[p := kept[p]], kept - {p})
  {
  }

  lemma PathsStep(files: seq<FileRender>, i: nat)
    requires i < |files|
    ensures Paths(files[..i + 1]) == Paths(files[..i]) + {files[i].path}
    ensures Distinct(files[..i + 1]) <==> Distinct(files[..i]) && files[i].path !in Paths(files[..i])
    ensures files[i].path in Paths(files[..i]) ==> Twice(files, files[i].path)
    ensures Distinct(files) ==> Distinct(files[..i + 1])
  {
    assert files[..i + 1] == files[..i] + [files[i]];
  }

  /** Putting the old entry back makes two trees that differ in nothing else the same. */
  lemma Restored(was: Files, now: Files, path: string)
    requires path in was && (now == was - {path} || (path in now && now == (was - {path})[path := now[path]]))
    ensures now[path := was[path]] == was
  {
  }

  /** What happens to the known-good files when one is set aside and put back. */
  lemma KeptWhile(kept: Files, active: Files, path: string)
    ensures KeptBeside(kept, kept, path)
    ensures path in active ==>
              KeptBeside(kept, kept[path := active[path]], path) && KeptBeside(kept, kept[path := active[path]] - {path}, path)
  {
  }

  lemma UndoKeeps(moved: seq<Undo>, files: seq<FileRender>, stood: Files, kept: Files, i: nat)
    requires i < |moved| && LoggedFor(moved, files, stood) && Distinct(files[..|moved|])
    requires SetAsideAll(moved[..i + 1], stood, kept)
    ensures SetAsideAll(moved[..i], stood, kept) && SetAsideAll(moved[..i], stood, kept - {moved[i].path})
    ensures moved[i].path == files[i].path && (moved[i].path in stood ==> moved[i].hadPrior)
    ensures moved[i].path in stood ==> moved[i].path in kept && kept[moved[i].path] == stood[moved[i].path]
  {
    assert moved[..i + 1][i] == moved[i];
    forall k | 0 <= k < i && moved[k].path in stood
      ensures moved[k].path in kept && kept[moved[k].path] == stood[moved[k].path]
      ensures moved[k].path != moved[i].path
    {
      assert moved[..i + 1][k] == moved[k];
      assert files[..|moved|][k].path != files[..|moved|][i].path;
    }
  }

  lemma AllSetAside(moved: seq<Undo>, files: seq<FileRender>, before: Files, staged: Files, active: Files, kept: Files)
    requires Logged(moved, files, before) && |moved| == |files| && MovedAt(before, staged, Paths(files), active, kept)
    ensures SetAsideAll(moved, before, kept) && Paths(files) <= staged.Keys
  {
  }

  /** A list stops in one place only, and one that stops nowhere is wholly staged and names no path twice. */
  lemma StopsOnce(files: seq<FileRender>, tree: Files, n: nat)
    requires StopsAt(files, tree, n)
    ensures forall m: nat :: StopsAt(files, tree, m) ==> m == n
    ensures !(Distinct(files) && Paths(files) <= tree.Keys)
  {
    forall m: nat | StopsAt(files, tree, m) ensures m == n {
      if m < n {
      } else if n < m {
      }
    }
    if files[n].path in Paths(files[..n]) {
      var i :| 0 <= i < n && files[..n][i].path == files[n].path;
    }
  }

  lemma NoneTwice(files: seq<FileRender>)
    ensures Distinct(files) <==> forall p :: !Twice(files, p)
  {
    forall i, j | 0 <= i < j < |files| && files[i].path == files[j].path ensures Twice(files, files[i].path) {
    }
  }

  lemma LoggedBoth(moved: seq<Undo>, files: seq<FileRender>, before: Files, lost: set<string>)
    requires Logged(moved, files, before)
    ensures LoggedFor(moved, files, before - lost)
  {
  }

  lemma LoggedWithin(moved: seq<Undo>, files: seq<FileRender>, stood: Files)
    requires LoggedFor(moved, files, stood)
    ensures |moved| <= |files|
  {
  }

  lemma NothingMoved(before: Files, staged: Files)
    ensures MovedAt(before, staged, {}, before, map[])
  {
  }

  lemma InPaths(files: seq<FileRender>, i: nat)
    requires i < |files|
    ensures files[i].path in Paths(files)
  {
  }

  lemma NoPaths(files: seq<FileRender>)
    ensures Paths(files[..0]) == {} && Distinct(files[..0])
  {
  }

  /** Paths are undone in the order opposite to the one they were moved in. */
  predicate Logged(moved: seq<Undo>, files: seq<FileRender>, before: Files) {
    && |moved| <= |files|
    && forall k :: 0 <= k < |moved| ==> moved[k].path == files[k].path && moved[k].hadPrior == (files[k].path in before)
  }

  /** The log names the moved paths, and says of each that is to be put back that it replaced something. */
  predicate LoggedFor(moved: seq<Undo>, files: seq<FileRender>, stood: Files) {
    && |moved| <= |files|
    && forall k :: 0 <= k < |moved| ==> moved[k].path == files[k].path && (moved[k].path in stood ==> moved[k].hadPrior)
  }

  /** Every known-good entry from before still stands in the active tree, or is what is staged for its path. */
  predicate Stands(kept: Files, active: Files, staged: Files, paths: set<string>) {
    forall p <- kept ::
      || (p in active && active[p] == kept[p])
      || (p in paths && p in staged && staged[p] == kept[p])
  }

  /** A promotion over known-good files of an earlier one keeps them exactly if they stand anyway. */
  lemma OverrideKeeps(kept: Files, active: Files, staged: Files, paths: set<string>)
    requires paths <= staged.Keys
    ensures NothingLost(kept, active + Restrict(staged, paths), Restrict(active, paths)) <==> Stands(kept, active, staged, paths)
  {
    forall p <- kept
      ensures (&& p in active + Restrict(staged, paths) && (active + Restrict(staged, paths))[p] == kept[p])
              || (p in Restrict(active, paths) && Restrict(active, paths)[p] == kept[p])
              <==> (p in active && active[p] == kept[p]) || (p in paths && staged[p] == kept[p])
    {
    }
  }

  class GameFiles {
    const faulty: bool
    var active: Files
    var marker: Option<nat>
    /** The `config-<revision>` directories. */
    var staged: map<nat, Files>
    /** The `config-known-good-<revision>` directories. */
    var knownGood: map<nat, Files>

    constructor (faulty: bool, active: Files)
      ensures this.faulty == faulty && this.active == active && marker.None? && staged == map[] && knownGood == map[]
    {
      this.faulty, this.active := faulty, active;
      marker, staged, knownGood := None, map[], map[];
    }

    // --- staging -----------------------------------------------------------------

    /** The revision on the marker; a marker that is not a positive number is corrupt. */
    method ReadMarker() returns (r: Result<Option<nat>, Fault>)
      ensures r.Ok? ==> r.value == marker && marker != Some(0)
      ensures !faulty ==> (r.Ok? <==> marker != Some(0))
    {
      var o := Disturb(faulty);
      if o.Fail? {
        return Err(o.error);
      }
      r := if marker == Some(0) then Err(IoFailed) else Ok(marker);
    }

    /** Render a configuration into its staging directory, unless it is already active or older. */
    method Prepare(revision: nat, files: seq<FileRender>) returns (o: Outcome<Fault>)
      modifies `staged
      ensures staged - {revision} == old(staged) - {revision}
      ensures o.Pass? ==> revision >= 1 && Distinct(files) && marker != Some(0)
      ensures o.Pass? && !(marker.Some? && marker.value >= revision) ==>
                revision in staged && staged[revision] == Rendered(files)
      ensures marker.Some? && marker.value >= revision ==> staged == old(staged)
      ensures revision < 1 || !Distinct(files) ==> staged == old(staged)
      ensures !faulty ==>
                (o.Pass? <==>
                 && revision >= 1 && Distinct(files) && marker != Some(0)
                 && ((marker.Some? && marker.value >= revision)
                     || forall f <- files :: SafeRelative(f.path) && !HasDotDot(f.path)))
    {
      hide SafeRelative, HasDotDot;
      if revision < 1 || !Distinct(files) {
        return Fail(Refused);
      }
      var current := ReadMarker();
      if current.Err? {
        return Fail(current.error);
      }
      o := Pass;
      if current.value.Some? && current.value.value >= revision {
        return Pass;
      }
      staged := staged - {revision};
      o := Disturb(faulty);
      if o.Fail? {
        return;
      }
      staged := staged[revision := map[]];
      for i := 0 to |files|
        invariant o.Pass? && staged - {revision} == old(staged) - {revision}
        invariant revision in staged && staged[revision] == Rendered(files[..i])
        invariant forall k :: 0 <= k < i ==> SafeRelative(files[k].path) && !HasDotDot(files[k].path)
      {
        if !SafeRelative(files[i].path) || HasDotDot(files[i].path) {
          return Fail(Refused);
        }
        o := Disturb(faulty);
        if o.Fail? {
          return;
        }
        staged := staged[revision := staged[revision][files[i].path := files[i].file]];
        assert files[..i + 1][..i] == files[..i];
        o := Disturb(faulty);
        if o.Fail? {
          return;
        }
      }
      assert files[..|files|] == files;
    }

    // --- promotion -----------------------------------------------------------------

    /** The known-good files that a promotion removes: those of the promotion before the last. */
    function Pruned(revision: nat): set<nat> {
      if revision > 2 then {revision - 2} else {}
    }

    /** The known-good files of a promotion, if there are any. */
    function Kept(revision: nat): Files
      reads `knownGood
    {
      if Slot(revision) in knownGood then knownGood[Slot(revision)] else map[]
    }

    /**
     Move the staged files into the active tree and commit them with the marker.
     `undone` says that every step of an undo, if there was one, succeeded; `lost` is
     the path, if any, that was moved a second time.
     */
    method Promote(revision: nat, files: seq<FileRender>)
      returns (r: Result<Promotion, Fault>, ghost undone: bool, ghost lost: set<string>)
      modifies this
      // Success overrides the active tree with the staged files and keeps what they replaced.
      ensures r == Ok(Promoted) ==>
                && revision in old(staged) && Distinct(files) && Paths(files) <= old(staged)[revision].Keys
                && active == old(active) + Restrict(old(staged)[revision], Paths(files))
                && marker == Some(revision)
                && Slot(revision) in knownGood && Kept(revision) == Restrict(old(active), Paths(files))
                && revision !in staged
                && (if revision < 1 then 0 else revision - 1) in knownGood
                && knownGood[if revision < 1 then 0 else revision - 1] == Restrict(old(active), Paths(files))
                && (revision > 2 ==> revision - 2 !in knownGood)
      // The known-good files of other revisions stay, but for those of the one before the last.
      ensures knownGood - {Slot(revision)} - Pruned(revision) == old(knownGood) - {Slot(revision)} - Pruned(revision)
      // Of what an earlier promotion had set aside, it keeps exactly what stands anyway.
      ensures r == Ok(Promoted) ==>
                (NothingLost(old(Kept(revision)), active, Kept(revision))
                 <==> Stands(old(Kept(revision)), old(active), old(staged)[revision], Paths(files)))
      // An active revision is adopted as it stands, and its staged files are dropped; an older one is refused.
      ensures r == Ok(Adopted) ==> revision !in staged
      ensures r == Ok(Adopted) <==> r.Ok? && old(marker) == Some(revision)
      ensures old(marker.Some? && marker.value >= revision) ==>
                active == old(active) && marker == old(marker) && knownGood == old(knownGood)
      ensures old(marker.Some? && marker.value > revision) ==> r.Err?
      // A failure leaves the active tree as it was but for a lost path, given that the undo steps succeed.
      ensures r.Err? && undone ==> active == old(active) - lost && (marker == old(marker) || marker == Some(revision))
      ensures r.Err? && undone ==> Kept(revision) == old(Kept(revision)) || Kept(revision) == map[]
      // The marker is written only over an older one.
      ensures marker == old(marker) || (marker == Some(revision) && (old(marker).None? || old(marker).value < revision))
      // Whatever happens, no other active file is lost.
      ensures NothingLost(old(active) - lost, active, Kept(revision))
      // A path is lost only if the list names it twice.
      ensures forall p <- lost :: Twice(files, p)
      ensures Distinct(files) ==> lost == {}
      // Without faults it succeeds exactly if the whole configuration is staged, without repetition, and not stale.
      ensures !faulty ==> undone
      ensures !faulty ==>
                (r.Ok? <==> && old(marker) != Some(0)
                            && (|| old(marker) == Some(revision)
                                || (&& !old(marker.Some? && marker.value > revision) && revision in old(staged)
                                    && Distinct(files) && Paths(files) <= old(staged)[revision].Keys)))
      // Then a path is lost exactly if it is the first to stop the list, by being named again.
      ensures !faulty && r.Err? && revision in old(staged) && (old(marker).None? || 0 < old(marker).value < revision) ==>
                forall n: nat :: StopsAt(files, old(staged)[revision], n) ==> lost == Again(files, n)
    {
      undone, lost := true, {};
      OverrideNothing(active, Kept(revision));
      var current := ReadMarker();
      if current.Err? {
        return Err(current.error), true, {};
      }
      if current.value == Some(revision) {
        staged := staged - {revision};
        var o := Disturb(faulty);
        return if o.Fail? then Err(o.error) else Ok(Adopted), true, {};
      }
      if current.value.Some? && current.value.value > revision {
        return Err(Refused), true, {};
      }
      if revision !in staged {
        return Err(Refused), true, {};
      }
      r, undone, lost := PromoteStaged(revision, files);
      NoneTwice(files);
    }

    lemma OverrideNothing(before: Files, kept: Files)
      ensures before - {} == before && NothingLost(before - {}, before, kept)
    {
    }

    method PromoteStaged(revision: nat, files: seq<FileRender>)
      returns (r: Result<Promotion, Fault>, ghost undone: bool, ghost lost: set<string>)
      requires revision in staged && marker != Some(revision)
      modifies this
      ensures r.Ok? ==>
                && r.value == Promoted && Distinct(files) && Paths(files) <= old(staged)[revision].Keys
                && active == old(active) + Restrict(old(staged)[revision], Paths(files))
                && marker == Some(revision)
                && Slot(revision) in knownGood && Kept(revision) == Restrict(old(active), Paths(files))
                && revision !in staged
                && (revision > 2 ==> revision - 2 !in knownGood)
      ensures knownGood - {Slot(revision)} - Pruned(revision) == old(knownGood) - {Slot(revision)} - Pruned(revision)
      ensures r.Ok? ==>
                (NothingLost(old(Kept(revision)), active, Kept(revision))
                 <==> Stands(old(Kept(revision)), old(active), old(staged)[revision], Paths(files)))
      ensures r.Err? && undone ==> active == old(active) - lost
      ensures marker == old(marker) || marker == Some(revision)
      ensures r.Err? && undone ==> Kept(revision) == old(Kept(revision)) || Kept(revision) == map[]
      ensures NothingLost(old(active) - lost, active, Kept(revision))
      ensures forall p <- lost :: Twice(files, p)
      ensures !faulty ==> undone && (r.Ok? <==> Distinct(files) && Paths(files) <= old(staged)[revision].Keys)
      ensures !faulty && r.Err? ==> forall n: nat :: StopsAt(files, old(staged)[revision], n) ==> lost == Again(files, n)
    {
      hide Distinct, Paths, Restrict, NothingLost, MovedAt, SetAsideAll, LoggedFor, StopsAt, Again, Twice, Stands;
      ghost var before, tree, earlier := active, staged[revision], Kept(revision);
      OverrideNothing(before, earlier);
      OverrideNothing(before, map[]);
      var o := Disturb(faulty);
      if o.Fail? {
        return Err(o.error), true, {};
      }
      knownGood := knownGood[Slot(revision) := map[]];
      var moved;
      o, moved, undone, lost := MoveAll(revision, files);
      if o.Pass? {
        assert files[..|files|] == files;
        MovedIsOverride(before - lost, tree, Paths(files), active, Kept(revision));
        OverrideKeeps(earlier, before, tree, Paths(files));
        o := Commit(revision);
        if o.Pass? {
          return Ok(Promoted), true, {};
        }
      }
      if o.error == Crashed {
        return Err(Crashed), false, lost;
      }
      ghost var restored;
      restored := UndoAll(revision, files, moved, before - lost, tree, undone);
      undone := undone && restored;
      r := Err(o.error);
    }

    /** Move every file, setting aside what it replaces; a file that cannot be moved is put back. */
    method MoveAll(revision: nat, files: seq<FileRender>)
      returns (o: Outcome<Fault>, moved: seq<Undo>, ghost clean: bool, ghost lost: set<string>)
      requires revision in staged && Slot(revision) in knownGood && Kept(revision) == map[]
      modifies `active, `staged, `knownGood
      ensures revision in staged && Slot(revision) in knownGood
      ensures knownGood - {Slot(revision)} == old(knownGood) - {Slot(revision)}
      ensures LoggedFor(moved, files, old(active) - lost) && |moved| <= |files| && Distinct(files[..|moved|])
      ensures clean ==>
                MovedAt(old(active) - lost, old(staged)[revision], Paths(files[..|moved|]), active, Kept(revision))
      ensures NothingLost(old(active) - lost, active, Kept(revision))
      ensures SetAsideAll(moved, old(active) - lost, Kept(revision))
      ensures o.Pass? ==> |moved| == |files| && clean && Paths(files) <= old(staged)[revision].Keys && Distinct(files)
      ensures o.Pass? ==> lost == {}
      ensures forall p <- lost :: Twice(files, p)
      ensures !faulty ==> clean && (o.Pass? <==> Distinct(files) && Paths(files) <= old(staged)[revision].Keys)
      ensures !faulty && o.Fail? ==>
                && o.error != Crashed
                && forall n: nat :: StopsAt(files, old(staged)[revision], n) ==> lost == Again(files, n)
    {
      hide NothingLost, Rest, Distinct, MovedAt, Paths, KeptBeside, SetAsideAll, LoggedFor, Again, Twice;
      o, moved, clean, lost := Pass, [], true, {};
      ghost var before, tree := active, staged[revision];
      OverrideNothing(before, map[]);
      NoPaths(files);
      NothingMoved(before, tree);
      RestStep(tree, {}, "");
      for i := 0 to |files|
        invariant o.Pass? && |moved| == i && clean && lost == {} && Logged(moved, files, before)
        invariant revision in staged && Slot(revision) in knownGood
        invariant knownGood - {Slot(revision)} == old(knownGood) - {Slot(revision)}
        invariant MovedAt(before, tree, Paths(files[..i]), active, Kept(revision))
        invariant staged[revision] == Rest(tree, Paths(files[..i])) && Distinct(files[..i])
        invariant forall k :: 0 <= k < i ==> files[k].path in tree && files[k].path !in Paths(files[..k])
      {
        PathsStep(files, i);
        InPaths(files, i);
        ghost var was, kept := active, Kept(revision);
        var hadPrior;
        o, hadPrior, clean, lost := MoveOne(revision, files[i].path, before, tree, Paths(files[..i]));
        if o.Fail? {
          OverrideNothing(before, map[]);
          SetAsideStays(moved, files, before, tree, was, kept, Kept(revision), files[i].path);
          LoggedBoth(moved, files, before, lost);
          if !faulty {
            StopsOnce(files, tree, i);
            AgainIs(files, i);
          }
          return;
        }
        moved := moved + [Undo(files[i].path, hadPrior)];
      }
      assert files[..|files|] == files;
      LoggedBoth(moved, files, before, lost);
      MovedIsOverride(before, tree, Paths(files), active, Kept(revision));
      AllSetAside(moved, files, before, tree, active, Kept(revision));
    }

    lemma AgainIs(files: seq<FileRender>, n: nat)
      requires n < |files|
      ensures Again(files, n) == if files[n].path in Paths(files[..n]) then {files[n].path} else {}
    {
    }

    method MoveOne(revision: nat, path: string, ghost before: Files, ghost tree: Files, ghost done: set<string>)
      returns (o: Outcome<Fault>, hadPrior: bool, ghost clean: bool, ghost lost: set<string>)
      requires revision in staged && Slot(revision) in knownGood
      requires MovedAt(before, tree, done, active, Kept(revision))
      requires staged[revision] == Rest(tree, done)
      modifies `active, `staged, `knownGood
      ensures revision in staged && Slot(revision) in knownGood
      ensures knownGood - {Slot(revision)} == old(knownGood) - {Slot(revision)}
      ensures o.Pass? ==>
                && clean && lost == {} && path in tree && path !in done && hadPrior == (path in before)
                && MovedAt(before, tree, done + {path}, active, Kept(revision))
                && staged[revision] == Rest(tree, done + {path})
      ensures o.Fail? && clean ==> MovedAt(before - lost, tree, done, active, Kept(revision))
      ensures NothingLost(before - lost, active, Kept(revision))
      // A path that was moved before loses what was set aside for it.
      ensures if path in done then lost == {path} || (lost == {} && Kept(revision) == old(Kept(revision))) else lost == {}
      ensures KeptBeside(old(Kept(revision)), Kept(revision), path)
      ensures !faulty ==>
                && clean && (o.Pass? <==> path in tree && path !in done) && (o.Fail? ==> o.error != Crashed)
                && (path in done ==> lost == {path})
    {
      hide MovedAt, NothingLost, Rest, KeptBeside;
      ghost var kept, was := Kept(revision), active;
      KeptWhile(kept, active, path);
      if path in done {
        MoveAgain(before, tree, done, active, kept, path);
      } else {
        MoveStep(before, tree, done, active, kept, path);
        RestStep(tree, done, path);
      }
      OverrideNothing(before, kept);
      clean, lost := true, {};
      o := Disturb(faulty);
      hadPrior := path in active;
      if o.Fail? {
        return;
      }
      if hadPrior {
        SetAside(revision, path);
        clean := false;
        lost := if path in done then {path} else {};
        o := Disturb(faulty);
        if o.Fail? {
          return;
        }
      }
      ghost var aside := active;
      o := TakeStaged(revision, path);
      if active != aside {
        MovedIsOverride(before, tree, done + {path}, active, Kept(revision));
        clean := false;
      }
      if o.Pass? {
        return Pass, hadPrior, true, {};
      }
      if o.error != Crashed && hadPrior {
        var back := Disturb(faulty);
        if back.Pass? {
          Restored(was, active, path);
          PutBack(revision, path);
          clean := true;
        } else if back.error == Crashed {
          o := back;
        }
      }
    }

    /** Rename a staged file to its active path. */
    method TakeStaged(revision: nat, path: string) returns (o: Outcome<Fault>)
      requires revision in staged
      modifies `active, `staged
      ensures o.Pass? ==>
                && path in old(staged)[revision]
                && active == old(active)[path := old(staged)[revision][path]]
                && staged == old(staged)[revision := old(staged)[revision] - {path}]
      ensures o.Fail? ==>
                || (active == old(active) && staged == old(staged))
                || (&& path in old(staged)[revision]
                    && active == old(active)[path := old(staged)[revision][path]]
                    && staged == old(staged)[revision := old(staged)[revision] - {path}])
      ensures !faulty ==> (o.Pass? <==> path in old(staged)[revision])
      ensures !faulty && o.Fail? ==> o.error != Crashed && active == old(active)
    {
      o := Disturb(faulty);
      if o.Fail? {
        return;
      }
      if path !in staged[revision] {
        return Fail(IoFailed);
      }
      active := active[path := staged[revision][path]];
      staged := staged[revision := staged[revision] - {path}];
      o := Disturb(faulty);
    }

    /** Rename an active file to the known-good directory. */
    method SetAside(revision: nat, path: string)
      requires Slot(revision) in knownGood && path in active
      modifies `active, `knownGood
      ensures active == old(active) - {path}
      ensures Slot(revision) in knownGood && Kept(revision) == old(Kept(revision))[path := old(active)[path]]
      ensures knownGood - {Slot(revision)} == old(knownGood) - {Slot(revision)}
    {
      knownGood := knownGood[Slot(revision) := knownGood[Slot(revision)][path := active[path]]];
      active := active - {path};
    }

    /** Rename a known-good file back over the active one. */
    method PutBack(revision: nat, path: string)
      requires Slot(revision) in knownGood && path in Kept(revision)
      modifies `active, `knownGood
      ensures active == old(active)[path := old(Kept(revision))[path]]
      ensures Slot(revision) in knownGood && Kept(revision) == old(Kept(revision)) - {path}
      ensures knownGood - {Slot(revision)} == old(knownGood) - {Slot(revision)}
    {
      active := active[path := knownGood[Slot(revision)][path]];
      knownGood := knownGood[Slot(revision) := knownGood[Slot(revision)] - {path}];
    }

    /** Write the marker, then remove what is no longer needed. */
    method Commit(revision: nat) returns (o: Outcome<Fault>)
      requires Slot(revision) in knownGood
      modifies `marker, `staged, `knownGood
      ensures marker == old(marker) || marker == Some(revision)
      ensures Slot(revision) in knownGood && Kept(revision) == old(Kept(revision))
      ensures o.Pass? ==> marker == Some(revision) && revision !in staged
      ensures o.Pass? ==> knownGood == if revision > 2 then old(knownGood) - {revision - 2} else old(knownGood)
      ensures knownGood - {Slot(revision)} - Pruned(revision) == old(knownGood) - {Slot(revision)} - Pruned(revision)
      ensures !faulty ==> o.Pass?
    {
      o := Disturb(faulty);
      if o.Fail? {
        return;
      }
      marker := Some(revision);
      o := Disturb(faulty);
      if o.Fail? {
        return;
      }
      staged := staged - {revision};
      o := Disturb(faulty);
      if o.Fail? {
        return;
      }
      if revision > 2 {
        knownGood := knownGood - {revision - 2};
        o := Disturb(faulty);
      }
    }

    /**
     Undo the moves, last one first; a replaced file that cannot be moved back stays
     among the known-good ones.
     */
    method UndoAll(revision: nat, files: seq<FileRender>, moved: seq<Undo>, ghost stood: Files, ghost tree: Files, ghost clean: bool)
      returns (ghost restored: bool)
      requires Slot(revision) in knownGood && LoggedFor(moved, files, stood) && |moved| <= |files| && Distinct(files[..|moved|])
      requires clean ==> MovedAt(stood, tree, Paths(files[..|moved|]), active, Kept(revision))
      requires NothingLost(stood, active, Kept(revision))
      requires SetAsideAll(moved, stood, Kept(revision))
      modifies `active, `knownGood
      ensures Slot(revision) in knownGood
      ensures knownGood - {Slot(revision)} == old(knownGood) - {Slot(revision)}
      ensures clean && restored ==> active == stood && Kept(revision) == map[]
      ensures NothingLost(stood, active, Kept(revision))
      ensures !faulty ==> restored
    {
      hide MovedAt, NothingLost, Paths, SetAsideAll, LoggedFor, Distinct;
      assert moved[..|moved|] == moved;
      restored := true;
      for i := |moved| downto 0
        invariant Slot(revision) in knownGood
        invariant knownGood - {Slot(revision)} == old(knownGood) - {Slot(revision)}
        invariant clean && restored ==> MovedAt(stood, tree, Paths(files[..i]), active, Kept(revision))
        invariant NothingLost(stood, active, Kept(revision))
        invariant SetAsideAll(moved[..i], stood, Kept(revision))
        invariant !faulty ==> restored
      {
        UndoKeeps(moved, files, stood, Kept(revision), i);
        DistinctStep(files, |moved|, i);
        var path := moved[i].path;
        ghost var done := Paths(files[..i]);
        if clean && restored {
          UndoStep(stood, tree, done, active, Kept(revision), path);
        }
        UndoLosesNothing(stood, active, Kept(revision), path);
        var o := Disturb(faulty);
        if o.Fail? {
          return false;
        }
        active := active - {path};
        o := Disturb(faulty);
        if o.Fail? {
          return false;
        }
        if moved[i].hadPrior {
          o := Disturb(faulty);
          if o.Pass? {
            if path in knownGood[Slot(revision)] {
              PutBack(revision, path);
            } else {
              o := Fail(IoFailed);
            }
          }
          if o.Pass? {
            o := Disturb(faulty);
          }
          if o == Fail(Crashed) {
            return false;
          }
          restored := restored && (o.Pass? || path !in stood);
        }
      }
      if clean && restored {
        NoPaths(files);
        MovedIsOverride(stood, tree, {}, active, Kept(revision));
      }
    }

    // --- the writer -------------------------------------------------------------------

    /** Whether staging accepts a configuration, apart from what is active already. */
    predicate Acceptable(revision: nat, files: seq<FileRender>) {
      revision >= 1 && Distinct(files)
    }

    /** The writer's `stage`: prepare a configuration, then promote it. */
    method Stage(revision: nat, files: seq<FileRender>) returns (r: Result<Promotion, Fault>, ghost undone: bool)
      modifies this
      // Success overrides the active tree with the whole rendered configuration and keeps what it replaced.
      ensures r == Ok(Promoted) ==>
                && active == old(active) + Rendered(files)
                && Kept(revision) == Restrict(old(active), Paths(files))
                && revision - 1 in knownGood && knownGood[revision - 1] == Restrict(old(active), Paths(files))
                && marker == Some(revision) && revision !in staged
      // The active revision is adopted as it stands.
      ensures r == Ok(Adopted) <==> r.Ok? && old(marker) == Some(revision)
      ensures r == Ok(Adopted) ==> active == old(active) && marker == old(marker) && knownGood == old(knownGood)
      // A failure whose undo steps succeed leaves the active tree as it was, and no failure loses a file.
      ensures r.Err? && undone ==> active == old(active) && (marker == old(marker) || marker == Some(revision))
      ensures NothingLost(old(active), active, Kept(revision))
      // What staging refuses changes nothing.
      ensures !Acceptable(revision, files) ==>
                r.Err? && active == old(active) && marker == old(marker) && staged == old(staged) && knownGood == old(knownGood)
      // The marker stays readable and never falls.
      ensures old(marker) != Some(0) ==> marker != Some(0) && Rising(old(marker), marker)
      // Without faults it succeeds exactly if the configuration is acceptable and not stale, and its paths are safe.
      ensures !faulty ==> undone
      ensures !faulty ==>
                (r.Ok? <==> && Acceptable(revision, files) && old(marker) != Some(0)
                            && (|| old(marker) == Some(revision)
                                || (&& !old(marker.Some? && marker.value > revision)
                                    && forall f <- files :: SafeRelative(f.path) && !HasDotDot(f.path))))
    {
      hide SafeRelative, HasDotDot, NothingLost, Stands, Twice, StopsAt;
      OverrideNothing(active, Kept(revision));
      var o := Prepare(revision, files);
      if o.Fail? {
        return Err(o.error), true;
      }
      ghost var lost;
      RenderedWhole(files);
      r, undone, lost := Promote(revision, files);
    }

    /**
     Any calls of the writer in any order: configurations are prepared, staged, promoted
     later or again from an earlier preparation, or discarded.  What is promoted has
     always been accepted before, and the marker stays readable and never falls.
     */
    method Run(calls: nat) returns (prepared: seq<Prepared>)
      modifies this
      ensures forall c <- prepared :: Acceptable(c.revision, c.files)
      ensures old(marker) != Some(0) ==> marker != Some(0) && Rising(old(marker), marker)
    {
      prepared := [];
      for i := 0 to calls
        invariant forall c <- prepared :: Acceptable(c.revision, c.files)
        invariant old(marker) != Some(0) ==> marker != Some(0) && Rising(old(marker), marker)
      {
        hide NothingLost, Stands, Twice, StopsAt;
        var revision: nat := *;
        var files: seq<FileRender> := *;
        if * {
          var accepted := Prepare(revision, files);
          if accepted.Pass? {
            prepared := prepared + [Prepared(revision, files)];
          }
        } else if * {
          var _, _ := Stage(revision, files);
        } else if prepared != [] {
          var k: nat :| k < |prepared|;
          var _, _, _ := Promote(prepared[k].revision, prepared[k].files);
        } else {
          staged := staged - {revision};
        }
      }
    }
  }

  lemma DistinctStep(files: seq<FileRender>, n: nat, i: nat)
    requires i < n <= |files| && Distinct(files[..n])
    ensures Paths(files[..i + 1]) == Paths(files[..i]) + {files[i].path} && files[i].path !in Paths(files[..i])
  {
    PathsStep(files, i);
    assert files[..n][..i + 1] == files[..i + 1];
    assert forall j :: 0 <= j < i ==> files[..n][j].path != files[..n][i].path;
  }

  /**
   A promotion that failed and was undone, and its retry.  The retry reports the revision
   as adopted, over the old files, exactly if the marker survived the undo.
   */
  method PromoteTwice(game: GameFiles, revision: nat, files: seq<FileRender>)
    returns (first: Result<Promotion, Fault>, second: Result<Promotion, Fault>, ghost undone: bool, ghost lost: set<string>,
             ghost between: Option<nat>)
    modifies game
    ensures first.Err? && undone && second.Ok? ==>
              if between == Some(revision) then second == Ok(Adopted) && game.active == old(game.active) - lost
              else second == Ok(Promoted) && between == old(game.marker)
    ensures Distinct(files) ==> lost == {}
  {
    first, undone, lost := game.Promote(revision, files);
    between := game.marker;
    ghost var again, more;
    second, again, more := game.Promote(revision, files);
    assert second.Ok? ==> second.value.Promoted? || second.value.Adopted?;
  }

  /**
   If only the clean-up after the marker fails, the files are undone but the marker
   stays, and a repeated promotion reports the revision as adopted over the old files.
   */
  method AdoptsUndoneRevision(revision: nat, files: seq<FileRender>, active: Files)
    returns (r: Result<Promotion, Fault>, after: Files)
    requires revision >= 1 && Distinct(files)
    ensures r == Ok(Adopted) && after == active
  {
    var game := new GameFiles(false, active);
    game.staged := map[revision := Rendered(files)];
    game.knownGood := map[Slot(revision) := map[]];
    RenderedKeys(files);
    NoneTwice(files);
    var o, moved, clean, lost := game.MoveAll(revision, files);
    game.marker := Some(revision);
    var restored := game.UndoAll(revision, files, moved, active - lost, Rendered(files), clean);
    ghost var undone, more;
    r, undone, more := game.Promote(revision, files);
    after := game.active;
    assert active - {} == active;
  }

  /**
   Nothing is lost within one promotion, but a retry empties the known-good directory
   first: a file that a cut-short promotion had only set aside is then gone.
   */
  method RetryForgetsSetAside(revision: nat, render: FileRender, prior: File)
    returns (r: Result<Promotion, Fault>, knownGood: Files)
    requires revision >= 1
    ensures r == Ok(Promoted) && knownGood == map[]
  {
    var game := new GameFiles(false, map[render.path := prior]);
    game.staged := map[revision := map[render.path := render.file]];
    game.knownGood := map[Slot(revision) := map[]];
    game.SetAside(revision, render.path);
    assert game.active == map[];
    ghost var undone, lost;
    r, undone, lost := game.Promote(revision, [render]);
    assert r.Ok? && r.value != Adopted;
    knownGood := game.knownGood[Slot(revision)];
  }
}
