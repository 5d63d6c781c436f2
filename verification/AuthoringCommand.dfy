/** Applying, rolling back and recovering the authoring transaction, the command that sequences
    them, and what it must find on the disk at its start. */
module AuthoringCommand {
  import opened AuthoringDisk
  import opened RealismTransaction

  // ---------------------------------------------------------------------------------------
  // Applying
  // ---------------------------------------------------------------------------------------

  // A complete transaction directory, which a crash cannot take, and nothing written to the targets
  // yet.
  ghost predicate Prepared(view: View, t: Journal, s: DiskState) {
    match view
    case AsRead => Complete(t, s)
    case AsLeftByACrash => Staged(t, s) && TargetsSettled(s)
  }

  // The review cannot fall back to its old bytes.
  ghost predicate ReadyForManifest(view: View, t: Journal, s: DiskState) {
    match view
    case AsRead => Complete(t, s)
    case AsLeftByACrash => Staged(t, s) && s.review.possible <= {t.newReview}
  }

  // A transaction whose pair is in place may go on, to be concluded or rolled back.
  ghost predicate MayGoOn(view: View, t: Journal, s: DiskState) {
    match view
    case AsRead => Complete(t, s)
    case AsLeftByACrash => Staged(t, s) && CrashUniform(t, s)
  }

  // Where an apply may have stopped: at the review, or past it at the manifest.
  ghost predicate AtReview(t: Journal, s: DiskState) {
    && s.review.possible <= {t.oldReview, t.newReview} && s.manifest.possible <= {t.oldManifest}
    && (s.review.live == t.oldReview != t.newReview ==> s.review.possible <= {t.oldReview})
  }

  ghost predicate AtManifest(t: Journal, s: DiskState) {
    s.review.possible <= {t.newReview} && s.manifest.live == t.newManifest
    && s.manifest.possible <= {t.oldManifest, t.newManifest}
  }

  ghost predicate MayRollBack(view: View, t: Journal, s: DiskState) {
    match view
    case AsRead => Complete(t, s)
    case AsLeftByACrash => Staged(t, s) && (AtReview(t, s) || AtManifest(t, s))
  }

  // Replacing a target keeps the staged files.
  lemma ReplacingKeepsStaged(view: View, t: Journal, was: DiskState, s: DiskState, which: Target, bytes: Bytes)
    requires Replacing(was, s, which, bytes)
    requires if view == AsRead then Complete(t, was) else Staged(t, was)
    ensures if view == AsRead then Complete(t, s) else Staged(t, s)
  {
  }

  // Replacing a target leaves nothing foreign in the directory.
  lemma ReplacingKeepsStrays(was: DiskState, s: DiskState, which: Target, bytes: Bytes)
    requires Replacing(was, s, which, bytes)
    ensures NoStrays(was) ==> NoStrays(s)
  {
    hide At;
  }

  predicate TargetsAre(s: DiskState, review: Bytes, manifest: Bytes) {
    s.review.live == review && s.manifest.live == manifest
  }

  lemma OldMayRollBack(view: View, j: Journal, s: DiskState)
    requires EqualityOf(j, s).IsOld() && Prepared(view, j, s)
    ensures MayRollBack(view, j, s)
  {
  }

  lemma SettledMayGoOn(view: View, j: Journal, s: DiskState)
    requires Prepared(view, j, s) && TargetsAre(s, j.newReview, j.newManifest)
    ensures MayGoOn(view, j, s)
  {
  }

  // Replaces the review, then the manifest, checking the pair before, between and after.
  method Apply(disk: Disk, j: Journal, ghost view: View) returns (ok: bool)
    modifies disk
    ensures Untroubled(disk, true)
    ensures ok ==> TargetsAre(disk.s, j.newReview, j.newManifest)
    ensures !EqualityOf(j, old(disk.s)).IsOld() ==> !ok && disk.s == old(disk.s)
    ensures old(disk.Calm() && TargetsAre(disk.s, j.oldReview, j.oldManifest)) ==> ok
    ensures old(NoStrays(disk.s)) ==> NoStrays(disk.s)
    ensures old(Safe(view, disk) && Prepared(view, j, disk.s)) && old(disk.begun) == j ==>
              Safe(view, disk) && (EqualityOf(j, old(disk.s)).IsOld() ==> MayRollBack(view, j, disk.s))
              && (ok ==> MayGoOn(view, j, disk.s))
  {
    hide Guarded, Prepared, MayRollBack, MayGoOn, TargetsSettled, NoStrays;
    var initial := TransactionState(disk, j);
    if Prepared(view, j, disk.s) && EqualityOf(j, disk.s).IsOld() {
      OldMayRollBack(view, j, disk.s);
    }
    if initial.None? || !initial.value.IsOld() {
      return false;
    }
    if j.oldReview != j.newReview {
      ok := CommitReview(disk, j, view);
      if !ok {
        return;
      }
    }
    var middle := TransactionState(disk, j);
    if middle.None? || !middle.value.IsReviewCommitted() {
      return false;
    }
    if j.oldManifest != j.newManifest {
      if Prepared(view, j, disk.s) {
        PreparedIsReady(view, j, disk.s);
      }
      ok := CommitManifest(disk, j, view);
      if !ok {
        return;
      }
    } else if Prepared(view, j, disk.s) {
      SettledMayGoOn(view, j, disk.s);
    }
    var completed := TransactionState(disk, j);
    ok := completed.Some? && completed.value.IsFinal();
  }

  method CommitReview(disk: Disk, j: Journal, ghost view: View) returns (ok: bool)
    requires EqualityOf(j, disk.s).IsOld() && j.oldReview != j.newReview
    modifies disk
    ensures Untroubled(disk, ok)
    ensures ok ==> TargetsAre(disk.s, j.newReview, j.oldManifest)
    ensures old(disk.Calm()) ==> ok
    ensures old(NoStrays(disk.s)) ==> NoStrays(disk.s)
    ensures old(Safe(view, disk) && Prepared(view, j, disk.s)) && old(disk.begun) == j ==>
              Safe(view, disk) && MayRollBack(view, j, disk.s) && (ok ==> Prepared(view, j, disk.s))
  {
    hide Guarded, At, Staged, Complete, NoStrays;
    ghost var was := disk.s;
    if Prepared(view, j, was) {
      MayCommitReview(view, j, was);
    }
    ok := ReplaceTarget(disk, Review, j.newReview, view);
    ReplacingKeepsStrays(was, disk.s, Review, j.newReview);
    if Safe(view, disk) {
      GuardedIsSound(view, disk.begun, disk.s);
    }
    if Prepared(view, j, was) {
      ReplacingKeepsStaged(view, j, was, disk.s, Review, j.newReview);
    }
  }

  lemma MayCommitReview(view: View, j: Journal, s: DiskState)
    requires EqualityOf(j, s).IsOld() && Prepared(view, j, s)
    ensures MayReplace(view, j, s, Review, j.newReview)
  {
  }

  lemma PreparedIsReady(view: View, j: Journal, s: DiskState)
    requires EqualityOf(j, s).IsReviewCommitted() && Prepared(view, j, s)
    ensures ReadyForManifest(view, j, s)
  {
  }

  lemma MayCommitManifest(view: View, j: Journal, s: DiskState)
    requires EqualityOf(j, s).IsReviewCommitted() && ReadyForManifest(view, j, s)
    ensures MayReplace(view, j, s, Manifest, j.newManifest)
  {
  }

  lemma CommittedManifest(view: View, j: Journal, was: DiskState, s: DiskState)
    requires EqualityOf(j, was).IsReviewCommitted() && ReadyForManifest(view, j, was) && Sound(s)
    requires Replacing(was, s, Manifest, j.newManifest)
    ensures Prepared(view, j, was) ==> MayRollBack(view, j, s)
    ensures s.manifest == Cell(j.newManifest, {j.newManifest}) ==> MayGoOn(view, j, s)
  {
    ReplacingKeepsStaged(view, j, was, s, Manifest, j.newManifest);
  }

  method CommitManifest(disk: Disk, j: Journal, ghost view: View) returns (ok: bool)
    requires EqualityOf(j, disk.s).IsReviewCommitted() && j.oldManifest != j.newManifest
    modifies disk
    ensures Untroubled(disk, ok)
    ensures ok ==> TargetsAre(disk.s, j.newReview, j.newManifest)
    ensures disk.s.review.live == old(disk.s.review.live)
    ensures disk.s.manifest.live == old(disk.s.manifest.live) || disk.s.manifest.live == j.newManifest
    ensures old(disk.Calm()) ==> ok
    ensures old(NoStrays(disk.s)) ==> NoStrays(disk.s)
    ensures ok && old(disk.begun) == j && j.oldReview != j.newReview && j.oldReview in old(disk.s.review.possible) ==>
              Spoiled(disk)
    ensures old(Safe(view, disk) && ReadyForManifest(view, j, disk.s)) && old(disk.begun) == j ==>
              && Safe(view, disk) && (ok ==> MayGoOn(view, j, disk.s))
              && (old(Prepared(view, j, disk.s)) ==> MayRollBack(view, j, disk.s))
  {
    hide Guarded, At, Staged, Complete, ReadyForManifest, Prepared, MayRollBack, MayGoOn, MayReplace, JustMoved,
         NoStrays;
    ghost var was := disk.s;
    if ReadyForManifest(view, j, was) {
      MayCommitManifest(view, j, was);
    }
    ok := ReplaceTarget(disk, Manifest, j.newManifest, view);
    ReplacingKeepsStrays(was, disk.s, Manifest, j.newManifest);
    if Safe(view, disk) && ReadyForManifest(view, j, was) {
      GuardedIsSound(view, disk.begun, disk.s);
      CommittedManifest(view, j, was, disk.s);
    }
    if ok && disk.begun == j && j.oldReview != j.newReview && j.oldReview in was.review.possible {
      MovedTooEarly(disk, j, was, Manifest, j.newManifest, j.oldReview);
    }
  }

  // ---------------------------------------------------------------------------------------
  // Rolling back
  // ---------------------------------------------------------------------------------------

  lemma MayRestoreManifest(view: View, j: Journal, s: DiskState)
    requires Sound(s) && MayRollBack(view, j, s)
    requires EqualityOf(j, s).IsFinal() && j.oldManifest != j.newManifest
    ensures MayReplace(view, j, s, Manifest, j.oldManifest)
    ensures view == AsLeftByACrash ==> s.review.possible <= {j.newReview}
  {
  }

  lemma MayRestoreReview(view: View, j: Journal, s: DiskState)
    requires Sound(s) && MayRollBack(view, j, s)
    requires EqualityOf(j, s).IsReviewCommitted()
    ensures MayReplace(view, j, s, Review, j.oldReview)
    ensures view == AsLeftByACrash ==> s.manifest.possible <= {j.oldManifest}
  {
  }

  lemma OldMayClean(view: View, j: Journal, s: DiskState)
    requires Sound(s) && MayRollBack(view, j, s) && EqualityOf(j, s).IsOld()
    ensures MayClean(view, j, s)
  {
  }

  method RestoreManifest(disk: Disk, j: Journal, ghost view: View) returns (ok: bool)
    requires EqualityOf(j, disk.s).IsFinal() && j.oldManifest != j.newManifest
    modifies disk
    ensures Untroubled(disk, ok)
    ensures ok ==> TargetsAre(disk.s, j.newReview, j.oldManifest)
    ensures old(disk.Calm()) ==> ok
    ensures old(NoStrays(disk.s)) ==> NoStrays(disk.s)
    ensures old(Safe(view, disk) && MayRollBack(view, j, disk.s)) && old(disk.begun) == j ==>
              Safe(view, disk) && (ok ==> MayRollBack(view, j, disk.s))
  {
    hide Guarded, At, Staged, Complete, NoStrays;
    ghost var was := disk.s;
    if Safe(view, disk) && disk.begun == j && MayRollBack(view, j, was) {
      GuardedIsSound(view, j, was);
      MayRestoreManifest(view, j, was);
    }
    ok := ReplaceTarget(disk, Manifest, j.oldManifest, view);
    ReplacingKeepsStrays(was, disk.s, Manifest, j.oldManifest);
    if MayRollBack(view, j, was) {
      ReplacingKeepsStaged(view, j, was, disk.s, Manifest, j.oldManifest);
    }
  }

  method RestoreReview(disk: Disk, j: Journal, ghost view: View) returns (ok: bool)
    requires EqualityOf(j, disk.s).IsReviewCommitted() && j.oldReview != j.newReview
    modifies disk
    ensures Untroubled(disk, ok)
    ensures ok ==> TargetsAre(disk.s, j.oldReview, j.oldManifest)
    ensures old(disk.Calm()) ==> ok
    ensures old(NoStrays(disk.s)) ==> NoStrays(disk.s)
    ensures old(Safe(view, disk) && MayRollBack(view, j, disk.s)) && old(disk.begun) == j ==>
              Safe(view, disk) && (ok ==> MayRollBack(view, j, disk.s))
  {
    hide Guarded, At, Staged, Complete, NoStrays;
    ghost var was := disk.s;
    if Safe(view, disk) && disk.begun == j && MayRollBack(view, j, was) {
      GuardedIsSound(view, j, was);
      MayRestoreReview(view, j, was);
    }
    ok := ReplaceTarget(disk, Review, j.oldReview, view);
    ReplacingKeepsStrays(was, disk.s, Review, j.oldReview);
    if MayRollBack(view, j, was) {
      ReplacingKeepsStaged(view, j, was, disk.s, Review, j.oldReview);
    }
  }

  // Restores the manifest, then the review, then removes the directory. True means both targets are
  // old again and the directory is gone; targets with undeclared bytes are not touched.
  method RollBack(disk: Disk, j: Journal, ghost view: View) returns (ok: bool)
    modifies disk
    ensures Untroubled(disk, true)
    ensures ok ==> TargetsAre(disk.s, j.oldReview, j.oldManifest) && !disk.s.directory.live
    ensures ok ==> Emptied(disk.s)
    ensures !EqualityOf(j, old(disk.s)).IsDeclared() ==> !ok && disk.s == old(disk.s)
    ensures old(disk.Calm() && NoStrays(disk.s) && Allowed(j, disk.s.review.live, disk.s.manifest.live)) ==> ok
    ensures old(Safe(view, disk)) && old(disk.begun) == j && old(MayRollBack(view, j, disk.s)) ==> Safe(view, disk)
  {
    hide Guarded, At, Staged, MayRollBack, MayClean, Spoiled, CrashUniform, NoStrays, Emptied, Allowed, TargetsSettled;
    AllowedByEquality(j, disk.s);
    ghost var may := Safe(view, disk) && disk.begun == j && MayRollBack(view, j, disk.s);
    var state := TransactionState(disk, j);
    if state.None? || !state.value.IsDeclared()
       || (!state.value.IsOld() && !state.value.IsReviewCommitted() && !state.value.IsFinal()) {
      return false;
    }
    if state.value.IsFinal() && j.oldManifest != j.newManifest {
      ok := RestoreManifest(disk, j, view);
      if !ok {
        return;
      }
      state := TransactionState(disk, j);
    }
    if state.None? || !state.value.IsDeclared() {
      return false;
    }
    ok := RollBackReview(disk, j, state.value, view);
  }

  // The same once the manifest is old.
  method RollBackReview(disk: Disk, j: Journal, found: Equality, ghost view: View) returns (ok: bool)
    requires found == EqualityOf(j, disk.s)
    modifies disk
    ensures Untroubled(disk, true)
    ensures ok ==> TargetsAre(disk.s, j.oldReview, j.oldManifest) && !disk.s.directory.live && Emptied(disk.s)
    ensures !found.IsOld() && !found.IsReviewCommitted() ==> !ok && disk.s == old(disk.s)
    ensures old(disk.Calm() && NoStrays(disk.s)) && (found.IsOld() || found.IsReviewCommitted()) ==> ok
    ensures old(Safe(view, disk)) && old(disk.begun) == j && old(MayRollBack(view, j, disk.s)) ==> Safe(view, disk)
  {
    hide Guarded, At, Staged, MayRollBack, MayClean, Spoiled, CrashUniform, NoStrays, Emptied, TargetsSettled;
    ghost var may := Safe(view, disk) && disk.begun == j && MayRollBack(view, j, disk.s);
    var state := Some(found);
    if !found.IsOld() && found.IsReviewCommitted() && j.oldReview != j.newReview {
      ok := RestoreReview(disk, j, view);
      if !ok {
        return;
      }
      state := TransactionState(disk, j);
    }
    if state.None? || !state.value.IsOld() {
      return false;
    }
    if may {
      GuardedIsSound(view, j, disk.s);
      OldMayClean(view, j, disk.s);
    }
    ghost var restored := disk.s;
    ok := CleanUp(disk, view);
    SettlingDependsOnTargets(j, restored, disk.s);
  }

  // ---------------------------------------------------------------------------------------
  // Where a command may start
  // ---------------------------------------------------------------------------------------

  // The review is committed, the manifest is not, and the journal is there.
  ghost predicate HalfDone(t: Journal, s: DiskState) {
    Complete(t, s) && EqualityOf(t, s).IsReviewCommitted() && !EqualityOf(t, s).IsOld()
  }

  ghost predicate TakenForFinal(t: Journal, s: DiskState) {
    Complete(t, s) && EqualityOf(t, s).IsFinal() && !EqualityOf(t, s).IsOld()
  }

  // A pair that is neither old nor new always has its journal beside it, and after a stop one that
  // no further stop can take away.
  lemma {:induction false} HalfDonePairHasItsJournal(view: View, t: Journal, s: DiskState)
    requires Guarded(view, t, s)
    requires !Uniform(t, s.review.live, s.manifest.live)
    ensures HalfDone(t, s)
    ensures view == AsLeftByACrash ==> Durable(t, s)
  {
  }

  // What a command must find on the disk so that nothing it does can leave a half-done pair without
  // its journal, or a pair that is no transaction's. Recovery never synchronises a target before it
  // goes by what it reads there: before it throws the journal of an old pair away, before it takes a
  // new pair for final, and before it moves the manifest forward. And without a journal the next
  // transaction takes what it reads for its old files.
  ghost predicate MayStart(t: Journal, s: DiskState) {
    if Complete(t, s) then
      if EqualityOf(t, s).IsOld() then TargetsSettled(s)
      else if EqualityOf(t, s).IsFinal() then CrashUniform(t, s)
      else t.oldReview !in s.review.possible
    else if s.directory.live && At(s, JournalFile).live.Some? then true
    else TargetsSettled(s)
  }

  // After a stop, or when every target step was synchronised, any command may start.
  lemma {:induction false} SettledMayStart(t: Journal, s: DiskState)
    requires Guarded(AsLeftByACrash, t, s) && TargetsSettled(s)
    ensures MayStart(t, s)
  {
    if Complete(t, s) && EqualityOf(t, s).IsFinal() {
      assert s.review.possible == {t.newReview} && s.manifest.possible == {t.newManifest};
    } else if Complete(t, s) && !EqualityOf(t, s).IsOld() {
      assert s.review.possible == {s.review.live} && s.manifest.possible == {s.manifest.live};
      assert Allowed(t, s.review.live, s.manifest.live);
    }
  }

  ghost predicate Starts(view: View, t: Journal, s: DiskState) {
    view == AsLeftByACrash ==> MayStart(t, s)
  }

  ghost predicate Settles(view: View, s: DiskState) {
    view == AsLeftByACrash ==> TargetsSettled(s)
  }

  // A safe disk on which a command must not start, and nothing else is in its way.
  ghost predicate Precarious(view: View, disk: Disk)
    reads disk
  {
    && view == AsLeftByACrash && Safe(view, disk) && disk.Calm()
    && NoStrays(disk.s) && !MayStart(disk.begun, disk.s)
  }

  // ---------------------------------------------------------------------------------------
  // Recovering
  // ---------------------------------------------------------------------------------------

  // What the catalog holds for the journal's pack and version.
  datatype CatalogAnswer = NoRevision | SameRevision | OtherRevision | CatalogUnreadable

  datatype Recovery = Conflict | ImmutableConflict | NothingToResume | Resumed(journal: Journal, wrote: bool)

  // Beside a complete journal, a target holds bytes that the journal does not declare.
  ghost predicate Undeclared(s: DiskState) {
    exists j :: Complete(j, s) && !EqualityOf(j, s).IsDeclared()
  }

  lemma UndeclaredDependsOnTargetsAndStaged(was: DiskState, s: DiskState)
    requires s.review == was.review && s.manifest == was.manifest && s.directory == was.directory
    requires forall m :: m != ReviewApply && m != ManifestApply ==> At(s, m) == At(was, m)
    ensures Undeclared(was) ==> Undeclared(s)
  {
    hide At;
    if Undeclared(was) {
      var j :| Complete(j, was) && !EqualityOf(j, was).IsDeclared();
      assert Complete(j, s);
    }
  }

  // The journal that is loaded is the one that does not declare the bytes.
  lemma UndeclaredByTheLoaded(s: DiskState, j: Journal)
    requires Undeclared(s) && Written(j, s)
    ensures !EqualityOf(j, s).IsDeclared()
  {
    hide Written;
    var k :| Complete(k, s) && !EqualityOf(k, s).IsDeclared();
    WrittenOnce(k, j, s);
  }

  lemma UndeclaredHasAJournal(s: DiskState)
    requires Undeclared(s)
    ensures s.directory.live && At(s, JournalFile).live.Some?
  {
    CompleteHasItsJournal(s);
  }

  // Removes the copies an interrupted replacement may have left.
  method DropCopies(disk: Disk, ghost view: View) returns (ok: bool)
    modifies disk
    ensures TargetsUntouched(disk) && Untroubled(disk, ok) && disk.s.directory == old(disk.s.directory)
    ensures forall m :: m != ReviewApply && m != ManifestApply ==> At(disk.s, m) == old(At(disk.s, m))
    ensures old(disk.Calm()) ==> ok
    ensures old(Safe(view, disk)) ==> Safe(view, disk)
  {
    hide Guarded, At;
    ok := RemoveCopyIfPresent(disk, Review, view);
    if ok {
      ok := RemoveCopyIfPresent(disk, Manifest, view);
    }
  }

  // Dropping the copies changes nothing that a start depends on.
  lemma StartDependsOnTargetsAndStaged(t: Journal, was: DiskState, s: DiskState)
    requires s.review == was.review && s.manifest == was.manifest && s.directory == was.directory
    requires forall m :: m != ReviewApply && m != ManifestApply ==> At(s, m) == At(was, m)
    ensures MayStart(t, s) == MayStart(t, was) && Complete(t, s) == Complete(t, was)
    ensures HalfDone(t, s) == HalfDone(t, was) && TakenForFinal(t, s) == TakenForFinal(t, was)
    ensures NoStrays(was) ==> NoStrays(s)
  {
    assert forall m :: IsStaged(m) ==> At(s, m) == At(was, m);
    assert IsStaged(JournalFile);
  }

  lemma SettlingDependsOnTargets(t: Journal, was: DiskState, s: DiskState)
    requires s.review == was.review && s.manifest == was.manifest
    ensures TargetsSettled(s) == TargetsSettled(was) && CrashUniform(t, s) == CrashUniform(t, was)
  {
  }

  lemma CompleteHasJournal(t: Journal, s: DiskState)
    ensures Complete(t, s) ==> At(s, JournalFile).live == Some(JournalText(t))
  {
    if Complete(t, s) {
      assert IsStaged(JournalFile);
    }
  }

  // Without a directory nothing half-done is there to be recovered.
  lemma NoDirectoryIsUniform(view: View, t: Journal, s: DiskState)
    requires Guarded(view, t, s) && !s.directory.live
    ensures Uniform(t, s.review.live, s.manifest.live)
    ensures MayStart(t, s) == TargetsSettled(s)
  {
  }

  lemma NoJournalMayClean(view: View, t: Journal, s: DiskState)
    requires Guarded(view, t, s) && At(s, JournalFile).live == None
    ensures MayClean(view, t, s) && Uniform(t, s.review.live, s.manifest.live)
    ensures MayStart(t, s) == TargetsSettled(s)
  {
    CompleteHasJournal(t, s);
  }

  // A journal that was loaded is the begun transaction's, and durable once anything was replaced.
  lemma {:induction false} LoadedIsBegun(view: View, t: Journal, j: Journal, s: DiskState)
    requires Guarded(view, t, s) && Complete(j, s)
    ensures j == t && Changes(t) && Complete(t, s)
    ensures view == AsLeftByACrash && !EqualityOf(t, s).IsOld() ==> Staged(t, s)
  {
    assert At(s, JournalFile).live == Some(StagedContent(j, JournalFile));
    assert At(s, JournalFile).live in At(s, JournalFile).possible;
  }

  lemma WrittenOnce(t: Journal, j: Journal, s: DiskState)
    requires Written(j, s)
    ensures Written(t, s) ==> j == t
  {
    assert IsStaged(JournalFile) && StagedContent(j, JournalFile) == JournalText(j);
    assert StagedContent(t, JournalFile) == JournalText(t);
  }

  // With a journal that is not complete, nothing can be loaded.
  lemma BrokenJournalIsNotLoaded(view: View, t: Journal, s: DiskState)
    requires Guarded(view, t, s) && s.directory.live && !Complete(t, s) && At(s, JournalFile).live.Some?
    ensures MayStart(t, s)
    ensures forall j :: !Written(j, s)
  {
    forall j ensures !Written(j, s) {
      if Written(j, s) {
        LoadedIsBegun(view, t, j, s);
        assert false;
      }
    }
  }

  method CatalogAllows(answer: CatalogAnswer) returns (refusal: Option<Recovery>)
    ensures refusal == match answer
                       case OtherRevision => Some(ImmutableConflict)
                       case CatalogUnreadable => Some(Conflict)
                       case _ => None
  {
    refusal := match answer
      case OtherRevision => Some(ImmutableConflict)
      case CatalogUnreadable => Some(Conflict)
      case _ => None;
  }

  // The only write recovery makes: over a journalled old manifest beside the journalled new review,
  // the journalled new manifest.
  predicate RollsForward(was: DiskState, manifest: Bytes) {
    match At(was, JournalFile).live
    case Some(JournalText(j)) => EqualityOf(j, was).IsReviewCommitted() && manifest == j.newManifest
    case _ => false
  }

  // Recovery got past a precarious start without harm: it leaves targets that may still change under
  // the next transaction, or a pair taken for final that may still fall apart.
  ghost predicate Pending(r: Recovery, t: Journal, was: DiskState, s: DiskState) {
    match r
    case NothingToResume => !TakenForFinal(t, was) && !TargetsSettled(s)
    case Resumed(j, _) => j == t && TakenForFinal(t, was) && !CrashUniform(t, s)
    case _ => false
  }

  // Nothing is in the way of a command: no step fails, and no foreign file is where its directory is
  // or will be.
  ghost predicate Undisturbed(disk: Disk)
    reads disk
  {
    disk.Calm() && NoStrays(disk.s) && (!disk.s.directory.live ==> Emptied(disk.s))
  }

  // How recovery ends beside a complete journal when nothing is in its way: by the pair it reads, and
  // for a half-done one by the catalog.
  ghost predicate RecoversAs(j: Journal, s: DiskState, catalog: CatalogAnswer, r: Recovery) {
    if TargetsAre(s, j.oldReview, j.oldManifest) then r == NothingToResume
    else if TargetsAre(s, j.newReview, j.newManifest) then r == Resumed(j, false)
    else if TargetsAre(s, j.newReview, j.oldManifest) then
      match catalog
      case OtherRevision => r == ImmutableConflict
      case CatalogUnreadable => r == Conflict
      case _ => r == Resumed(j, true)
    else r == Conflict
  }

  ghost predicate RecoveredFrom(s: DiskState, request: string, catalog: CatalogAnswer, r: Recovery) {
    forall j :: Complete(j, s) && j.request == request ==> RecoversAs(j, s, catalog, r)
  }

  lemma NothingRecovered(s: DiskState, request: string, catalog: CatalogAnswer, r: Recovery)
    requires forall j :: Complete(j, s) ==> j.request != request
    ensures RecoveredFrom(s, request, catalog, r)
  {
  }

  lemma WithoutAJournal(s: DiskState)
    requires !s.directory.live || At(s, JournalFile).live == None
    ensures forall j :: !Complete(j, s)
  {
    CompleteHasItsJournal(s);
  }

  lemma RecoveredByTheLoaded(s: DiskState, j: Journal, request: string, catalog: CatalogAnswer, r: Recovery)
    requires Complete(j, s) && RecoversAs(j, s, catalog, r)
    ensures RecoveredFrom(s, request, catalog, r)
  {
    hide RecoversAs;
    forall k | Complete(k, s) ensures k == j {
      WrittenOnce(k, j, s);
    }
  }

  lemma RecoveryDependsOnTargetsAndStaged(was: DiskState, s: DiskState, request: string, catalog: CatalogAnswer,
                                          r: Recovery)
    requires s.review == was.review && s.manifest == was.manifest && s.directory == was.directory
    requires forall m :: m != ReviewApply && m != ManifestApply ==> At(s, m) == At(was, m)
    requires RecoveredFrom(s, request, catalog, r)
    ensures RecoveredFrom(was, request, catalog, r)
  {
    hide At;
    forall j | Complete(j, was) && j.request == request ensures RecoversAs(j, was, catalog, r) {
      assert Complete(j, s);
    }
  }

  lemma AllowedByEquality(j: Journal, s: DiskState)
    ensures var e := EqualityOf(j, s);
            Allowed(j, s.review.live, s.manifest.live) <==> e.IsOld() || e.IsReviewCommitted() || e.IsFinal()
  {
  }

  // Ends in one of three ways without conflict: there was no directory; the directory held nothing
  // to resume and is gone, with the targets as they were; or both targets are new and the
  // transaction can go on. Whenever nothing is to be resumed, both targets are old or both are new.
  // Targets with undeclared bytes are never written. From a half-done pair a conflict needs a
  // failing step, an unreadable catalog or somebody else's request.
  method Recover(disk: Disk, request: string, catalog: CatalogAnswer, ghost view: View) returns (r: Recovery)
    modifies disk
    ensures Untroubled(disk, true)
    ensures r.NothingToResume? ==>
              !disk.s.directory.live && disk.s.review == old(disk.s.review) && disk.s.manifest == old(disk.s.manifest)
    ensures r.Resumed? ==>
              TargetsAre(disk.s, r.journal.newReview, r.journal.newManifest) && r.journal.request == request
    ensures disk.s.review.live == old(disk.s.review.live)
    ensures disk.s.manifest.live == old(disk.s.manifest.live)
            || (!r.ImmutableConflict? && RollsForward(old(disk.s), disk.s.manifest.live))
    ensures old(Safe(view, disk) && Starts(view, disk.begun, disk.s)) ==>
              && Safe(view, disk)
              && (r.Resumed? ==> r.journal == disk.begun && MayGoOn(view, disk.begun, disk.s))
              && (r.NothingToResume? ==>
                    Settles(view, disk.s) && Uniform(disk.begun, disk.s.review.live, disk.s.manifest.live))
    ensures old(Precarious(view, disk)) && disk.begun.request == request && catalog.NoRevision? ==>
              Spoiled(disk) || (NoStrays(disk.s) && Pending(r, disk.begun, old(disk.s), disk.s))
    ensures old(Undeclared(disk.s)) ==> r.Conflict? && TargetsUntouched(disk)
    ensures old(Undisturbed(disk)) && (!old(disk.s.directory.live) || old(At(disk.s, JournalFile)).live == None) ==>
              r == NothingToResume
    ensures old(Undisturbed(disk)) ==> NoStrays(disk.s) && (r.NothingToResume? ==> Emptied(disk.s))
    ensures old(Undisturbed(disk)) ==> RecoveredFrom(old(disk.s), request, catalog, r)
    ensures !old(disk.s.directory.live) ==> !r.Resumed? && disk.s == old(disk.s)
    ensures old(HalfDone(disk.begun, disk.s)) && disk.begun.request == request && catalog != CatalogUnreadable
            && r.Conflict? ==>
              disk.troubles > old(disk.troubles)
  {
    hide Guarded, At, Staged, Written, HalfDone, MayStart, MayClean, MayGoOn, NoStrays, Spoiled, CrashUniform, Uniform,
         TargetsSettled, Undeclared, RecoveredFrom, Emptied;
    ghost var t := disk.begun;
    if Undeclared(disk.s) {
      UndeclaredHasAJournal(disk.s);
    }
    var exists_ := disk.DirectoryExists();
    if exists_.None? {
      return Conflict;
    }
    if !exists_.value {
      if Safe(view, disk) {
        NoDirectoryIsUniform(view, t, disk.s);
      }
      WithoutAJournal(disk.s);
      NothingRecovered(disk.s, request, catalog, NothingToResume);
      return NothingToResume;
    }
    var ok := DropCopies(disk, view);
    StartDependsOnTargetsAndStaged(t, old(disk.s), disk.s);
    UndeclaredDependsOnTargetsAndStaged(old(disk.s), disk.s);
    if !ok {
      return Conflict;
    }
    ghost var s := disk.s;
    r := RecoverWithoutCopies(disk, request, catalog, view);
    if RecoveredFrom(s, request, catalog, r) {
      RecoveryDependsOnTargetsAndStaged(old(disk.s), s, request, catalog, r);
    }
  }

  method RecoverWithoutCopies(disk: Disk, request: string, catalog: CatalogAnswer, ghost view: View)
    returns (r: Recovery)
    requires disk.s.directory.live
    modifies disk
    ensures Untroubled(disk, true)
    ensures r.NothingToResume? ==>
              !disk.s.directory.live && disk.s.review == old(disk.s.review) && disk.s.manifest == old(disk.s.manifest)
    ensures r.Resumed? ==>
              TargetsAre(disk.s, r.journal.newReview, r.journal.newManifest) && r.journal.request == request
    ensures disk.s.review.live == old(disk.s.review.live)
    ensures disk.s.manifest.live == old(disk.s.manifest.live)
            || (!r.ImmutableConflict? && RollsForward(old(disk.s), disk.s.manifest.live))
    ensures old(Safe(view, disk) && Starts(view, disk.begun, disk.s)) ==>
              && Safe(view, disk)
              && (r.Resumed? ==> r.journal == disk.begun && MayGoOn(view, disk.begun, disk.s))
              && (r.NothingToResume? ==>
                    Settles(view, disk.s) && Uniform(disk.begun, disk.s.review.live, disk.s.manifest.live))
    ensures old(Precarious(view, disk)) && disk.begun.request == request && catalog.NoRevision? ==>
              Spoiled(disk) || (NoStrays(disk.s) && Pending(r, disk.begun, old(disk.s), disk.s))
    ensures old(Undeclared(disk.s)) ==> r.Conflict? && TargetsUntouched(disk)
    ensures old(Undisturbed(disk)) && (!old(disk.s.directory.live) || old(At(disk.s, JournalFile)).live == None) ==>
              r == NothingToResume
    ensures old(Undisturbed(disk)) ==> NoStrays(disk.s) && (r.NothingToResume? ==> Emptied(disk.s))
    ensures old(Undisturbed(disk)) ==> RecoveredFrom(old(disk.s), request, catalog, r)
    ensures old(HalfDone(disk.begun, disk.s)) && disk.begun.request == request && catalog != CatalogUnreadable
            && r.Conflict? ==>
              disk.troubles > old(disk.troubles)
  {
    hide Guarded, At, Staged, Written, MayStart, MayClean, MayGoOn, NoStrays, Spoiled, CrashUniform, Uniform,
         TargetsSettled, Undeclared, RollsForward, EqualityOf, RecoveredFrom, Emptied;
    ghost var t := disk.begun;
    if Undeclared(disk.s) {
      UndeclaredHasAJournal(disk.s);
    }
    var journalText := disk.ReadMember(JournalFile);
    if journalText.None? {
      return Conflict;
    }
    CompleteHasJournal(t, disk.s);
    if journalText.value.None? {
      if Safe(view, disk) {
        NoJournalMayClean(view, t, disk.s);
      }
      WithoutAJournal(disk.s);
      NothingRecovered(disk.s, request, catalog, NothingToResume);
      var ok := CleanUp(disk, view);
      SettlingDependsOnTargets(t, old(disk.s), disk.s);
      return if ok then NothingToResume else Conflict;
    }
    r := LoadAndResume(disk, request, catalog, view);
  }

  method LoadAndResume(disk: Disk, request: string, catalog: CatalogAnswer, ghost view: View)
    returns (r: Recovery)
    requires disk.s.directory.live && At(disk.s, JournalFile).live.Some?
    modifies disk
    ensures Untroubled(disk, true)
    ensures r.NothingToResume? ==>
              !disk.s.directory.live && disk.s.review == old(disk.s.review) && disk.s.manifest == old(disk.s.manifest)
    ensures r.Resumed? ==>
              TargetsAre(disk.s, r.journal.newReview, r.journal.newManifest) && r.journal.request == request
    ensures disk.s.review.live == old(disk.s.review.live)
    ensures disk.s.manifest.live == old(disk.s.manifest.live)
            || (!r.ImmutableConflict? && RollsForward(old(disk.s), disk.s.manifest.live))
    ensures old(Safe(view, disk) && Starts(view, disk.begun, disk.s)) ==>
              && Safe(view, disk)
              && (r.Resumed? ==> r.journal == disk.begun && MayGoOn(view, disk.begun, disk.s))
              && (r.NothingToResume? ==>
                    Settles(view, disk.s) && Uniform(disk.begun, disk.s.review.live, disk.s.manifest.live))
    ensures old(Precarious(view, disk)) && disk.begun.request == request && catalog.NoRevision? ==>
              Spoiled(disk) || (NoStrays(disk.s) && Pending(r, disk.begun, old(disk.s), disk.s))
    ensures old(Undeclared(disk.s)) ==> r.Conflict? && TargetsUntouched(disk)
    ensures old(Undisturbed(disk)) ==> NoStrays(disk.s) && (r.NothingToResume? ==> Emptied(disk.s))
    ensures old(Undisturbed(disk)) ==> RecoveredFrom(old(disk.s), request, catalog, r)
    ensures old(HalfDone(disk.begun, disk.s)) && disk.begun.request == request && catalog != CatalogUnreadable
            && r.Conflict? ==>
              disk.troubles > old(disk.troubles)
  {
    hide Guarded, At, Staged, Written, MayStart, MayClean, MayGoOn, NoStrays, Spoiled, CrashUniform, Uniform,
         TargetsSettled, Undeclared, RollsForward, EqualityOf, RecoveredFrom, RecoversAs, Emptied;
    ghost var t := disk.begun;
    if Safe(view, disk) && !Complete(t, disk.s) {
      BrokenJournalIsNotLoaded(view, t, disk.s);
    }
    var loaded := Load(disk, request);
    if loaded.None? {
      if old(Undisturbed(disk)) {
        NothingRecovered(disk.s, request, catalog, Conflict);
      }
      return Conflict;
    }
    WrittenOnce(t, loaded.value, disk.s);
    if Undeclared(disk.s) {
      UndeclaredByTheLoaded(disk.s, loaded.value);
    }
    r := Resume(disk, loaded.value, catalog, view);
    if old(Undisturbed(disk)) {
      RecoveredByTheLoaded(old(disk.s), loaded.value, request, catalog, r);
    }
  }

  // What a start with a complete journal needs, branch by branch.
  lemma StartOfResuming(view: View, t: Journal, s: DiskState)
    requires Guarded(view, t, s) && Complete(t, s) && Starts(view, t, s)
    requires view == AsLeftByACrash && !EqualityOf(t, s).IsOld() ==> Staged(t, s)
    ensures EqualityOf(t, s).IsOld() ==>
              MayClean(view, t, s) && Settles(view, s) && Uniform(t, s.review.live, s.manifest.live)
    ensures !EqualityOf(t, s).IsOld() && EqualityOf(t, s).IsFinal() ==> MayGoOn(view, t, s)
    ensures HalfDone(t, s) && !EqualityOf(t, s).IsFinal() ==> ReadyForManifest(view, t, s)
  {
    if view == AsLeftByACrash && HalfDone(t, s) && !EqualityOf(t, s).IsFinal() {
      forall r | r in s.review.possible ensures r == t.newReview {
        assert Allowed(t, r, s.manifest.live);
      }
    }
  }

  lemma PrecariousResuming(t: Journal, s: DiskState)
    requires Guarded(AsLeftByACrash, t, s) && Complete(t, s) && !MayStart(t, s)
    ensures EqualityOf(t, s).IsOld() || EqualityOf(t, s).IsReviewCommitted() || EqualityOf(t, s).IsFinal()
    ensures EqualityOf(t, s).IsOld() ==> !TargetsSettled(s)
    ensures !EqualityOf(t, s).IsOld() && EqualityOf(t, s).IsFinal() ==> !CrashUniform(t, s)
    ensures !EqualityOf(t, s).IsOld() && !EqualityOf(t, s).IsFinal() ==> t.oldReview in s.review.possible
  {
    assert Allowed(t, s.review.live, s.manifest.live);
  }

  // Moves the manifest of a half-done pair forward, whatever may still become of the review.
  method MoveForward(disk: Disk, j: Journal, ghost view: View) returns (r: Recovery)
    requires EqualityOf(j, disk.s).IsReviewCommitted() && !EqualityOf(j, disk.s).IsFinal()
    modifies disk
    ensures Untroubled(disk, r.Resumed?)
    ensures r.Conflict? || (r.Resumed? && r.journal == j && TargetsAre(disk.s, j.newReview, j.newManifest))
    ensures disk.s.review.live == old(disk.s.review.live)
    ensures disk.s.manifest.live == old(disk.s.manifest.live) || disk.s.manifest.live == j.newManifest
    ensures old(disk.Calm()) ==> r == Resumed(j, j.oldManifest != j.newManifest)
    ensures old(NoStrays(disk.s)) ==> NoStrays(disk.s)
    ensures old(Safe(view, disk) && ReadyForManifest(view, j, disk.s)) && old(disk.begun) == j ==>
              Safe(view, disk) && (r.Resumed? ==> MayGoOn(view, j, disk.s))
    ensures old(disk.Calm()) && old(disk.begun) == j && j.oldReview != j.newReview
            && j.oldReview in old(disk.s.review.possible) ==>
              Spoiled(disk)
  {
    hide Guarded, At, Staged, Written, MayGoOn, ReadyForManifest, TargetsSettled;
    var wrote := false;
    if j.oldManifest != j.newManifest {
      var ok := CommitManifest(disk, j, view);
      if !ok {
        return Conflict;
      }
      wrote := true;
    }
    var completed := TransactionState(disk, j);
    if completed.None? || !completed.value.IsFinal() {
      return Conflict;
    }
    return Resumed(j, wrote);
  }

  // Decides by the pair that is read: throw the directory of an old pair away, go on with a new one,
  // or move the manifest of a half-done one forward.
  method Resume(disk: Disk, j: Journal, catalog: CatalogAnswer, ghost view: View) returns (r: Recovery)
    requires Complete(j, disk.s)
    modifies disk
    ensures Untroubled(disk, true)
    ensures r.NothingToResume? ==>
              !disk.s.directory.live && disk.s.review == old(disk.s.review) && disk.s.manifest == old(disk.s.manifest)
    ensures r.Resumed? ==> TargetsAre(disk.s, r.journal.newReview, r.journal.newManifest) && r.journal == j
    ensures disk.s.review.live == old(disk.s.review.live)
    ensures disk.s.manifest.live == old(disk.s.manifest.live)
            || (!r.ImmutableConflict? && RollsForward(old(disk.s), disk.s.manifest.live))
    ensures old(Safe(view, disk) && Starts(view, disk.begun, disk.s)) ==>
              && Safe(view, disk) && j == disk.begun
              && (r.Resumed? ==> MayGoOn(view, j, disk.s))
              && (r.NothingToResume? ==>
                    Settles(view, disk.s) && Uniform(j, disk.s.review.live, disk.s.manifest.live))
    ensures old(Precarious(view, disk)) && catalog.NoRevision? ==>
              Spoiled(disk) || (NoStrays(disk.s) && Pending(r, disk.begun, old(disk.s), disk.s))
    ensures !EqualityOf(j, old(disk.s)).IsDeclared() ==> r.Conflict? && TargetsUntouched(disk)
    ensures old(Undisturbed(disk)) ==> NoStrays(disk.s) && (r.NothingToResume? ==> Emptied(disk.s))
    ensures old(Undisturbed(disk)) ==> RecoversAs(j, old(disk.s), catalog, r)
    ensures old(HalfDone(j, disk.s)) && catalog != CatalogUnreadable && r.Conflict? ==>
              disk.troubles > old(disk.troubles)
  {
    hide Guarded, At, Staged, Written, MayStart, MayClean, MayGoOn, NoStrays, Spoiled, CrashUniform, Uniform,
         TargetsSettled, ReadyForManifest, Emptied;
    CompleteHasJournal(j, disk.s);
    if Safe(view, disk) {
      LoadedIsBegun(view, disk.begun, j, disk.s);
      if Starts(view, disk.begun, disk.s) {
        StartOfResuming(view, j, disk.s);
      } else {
        PrecariousResuming(j, disk.s);
      }
    }
    var state := TransactionState(disk, j);
    if state.None? {
      return Conflict;
    }
    if state.value.IsOld() {
      var ok := CleanUp(disk, view);
      SettlingDependsOnTargets(j, old(disk.s), disk.s);
      return if ok then NothingToResume else Conflict;
    }
    if state.value.IsFinal() {
      return Resumed(j, false);
    }
    if !state.value.IsReviewCommitted() {
      return Conflict;
    }
    var refusal := CatalogAllows(catalog);
    if refusal.Some? {
      return refusal.value;
    }
    r := MoveForward(disk, j, view);
  }

  // ---------------------------------------------------------------------------------------
  // The command
  // ---------------------------------------------------------------------------------------

  // What authoring yields for the files as it read them.
  datatype Authored = Authored(
    revision: string, sourceReview: Bytes, review: Bytes, sourceManifest: Bytes, manifest: Bytes)

  datatype Report =
    | RecoveryConflict
    | Immutable
    | AuthoringFailed
    | SourceUnreadable
    | SourceChanged
    | RecoveredMismatch(rolledBack: bool)
    | CannotPrepare
    | CannotCommit(rolledBack: bool)
    | VerificationFailed(rolledBack: bool)
    | CleanupFailed
    | Completed(updated: bool)

  function JournalFor(request: string, a: Authored): Journal {
    Journal(request, a.revision, a.sourceReview, a.review, a.sourceManifest, a.manifest)
  }

  // A recovered transaction must be the one authoring asks for, already in place.
  predicate RecoveryMatches(j: Journal, a: Authored) {
    && j.revision == a.revision && j.newReview == a.review && j.newManifest == a.manifest
    && a.sourceReview == a.review && a.sourceManifest == a.manifest
  }

  // What any part of a command keeps.
  twostate predicate Ran(disk: Disk)
    reads disk
  {
    && old(disk.trace) <= disk.trace && disk.starts == old(disk.starts)
    && (disk.running ==> old(disk.running)) && disk.troubles >= old(disk.troubles)
    && (disk.troubles == old(disk.troubles) && old(TargetsSettled(disk.s)) ==> TargetsSettled(disk.s))
  }

  // A transaction may begin where no directory is in use and the targets are its old files.
  lemma BeginningIsGuarded(view: View, t: Journal, j: Journal, s: DiskState)
    requires Guarded(view, t, s) && Settles(view, s) && !s.directory.live
    requires TargetsAre(s, j.oldReview, j.oldManifest) && Changes(j)
    ensures Guarded(view, j, s) && MayStage(view, j, s)
  {
  }

  lemma StagedIsPrepared(view: View, j: Journal, s: DiskState)
    requires Staged(j, s) && Settles(view, s)
    ensures Prepared(view, j, s)
  {
  }

  lemma NewPairMayRollBack(view: View, j: Journal, s: DiskState)
    requires Sound(s) && MayGoOn(view, j, s) && TargetsAre(s, j.newReview, j.newManifest)
    ensures MayRollBack(view, j, s) && MayClean(view, j, s)
  {
    if view == AsLeftByACrash {
      assert forall r :: r in s.review.possible ==> Uniform(j, r, s.manifest.live);
      assert forall m :: m in s.manifest.possible ==> Uniform(j, s.review.live, m);
    }
  }

  lemma EmptiedHasNothingStaged(s: DiskState)
    ensures Emptied(s) ==> NothingStaged(s) && NoStrays(s)
  {
  }

  // Prepares and applies a new transaction; on failure to apply it rolls back.
  method Transact(disk: Disk, j: Journal, ghost view: View) returns (failure: Option<Report>)
    requires Changes(j)
    modifies disk
    ensures Ran(disk)
    ensures failure.None? ==> TargetsAre(disk.s, j.newReview, j.newManifest) && disk.begun == j
    ensures failure.Some? ==> failure.value.CannotPrepare? || failure.value.CannotCommit?
    ensures !CrashSafe(j, old(disk.s)) ==> Spoiled(disk)
    ensures old(Undisturbed(disk) && !disk.s.directory.live && TargetsAre(disk.s, j.oldReview, j.oldManifest)) ==>
              failure.None? && disk.Calm() && NoStrays(disk.s)
    ensures old(Safe(view, disk) && Settles(view, disk.s)) && !old(disk.s.directory.live)
            && TargetsAre(old(disk.s), j.oldReview, j.oldManifest) ==>
              Safe(view, disk) && (failure.None? ==> MayGoOn(view, j, disk.s))
  {
    hide Guarded, At, Staged, MayStage, MayRollBack, MayGoOn, Prepared, CrashSafe, TargetsSettled, NoStrays;
    EmptiedHasNothingStaged(disk.s);
    if Safe(view, disk) && Settles(view, disk.s) && !disk.s.directory.live
       && TargetsAre(disk.s, j.oldReview, j.oldManifest) {
      BeginningIsGuarded(view, disk.begun, j, disk.s);
    }
    disk.begun := j;
    var prepared := Prepare(disk, j, view);
    SettlingDependsOnTargets(j, old(disk.s), disk.s);
    if !prepared {
      return Some(CannotPrepare);
    }
    if Settles(view, disk.s) {
      StagedIsPrepared(view, j, disk.s);
    }
    var applied := Apply(disk, j, view);
    if !applied {
      var rolledBack := RollBack(disk, j, view);
      return Some(CannotCommit(rolledBack));
    }
    return None;
  }

  // Authoring again yields the same revision and the same two files.
  predicate Confirms(verified: Option<Authored>, a: Authored) {
    match verified
    case None => false
    case Some(v) => v.revision == a.revision && v.review == a.review && v.manifest == a.manifest
  }

  // How a command ends that finds no transaction, when nothing is in its way.
  ghost function FreshReport(review: Bytes, manifest: Bytes, authored: Option<Authored>,
                             verified: Option<Authored>): Report
  {
    match authored
    case None => AuthoringFailed
    case Some(a) =>
      if a.sourceReview != review || a.sourceManifest != manifest then SourceChanged
      else if !Confirms(verified, a) then VerificationFailed(true)
      else Completed(a.review != review || a.manifest != manifest)
  }

  // How a command ends that goes on with a recovered transaction, when nothing is in its way.
  ghost function ResumedReport(j: Journal, wrote: bool, authored: Option<Authored>,
                               verified: Option<Authored>): Report
  {
    match authored
    case None => AuthoringFailed
    case Some(a) =>
      if a.sourceReview != j.newReview || a.sourceManifest != j.newManifest then SourceChanged
      else if a.revision != j.revision || a.review != j.newReview || a.manifest != j.newManifest then
        RecoveredMismatch(true)
      else if !Confirms(verified, a) then VerificationFailed(true)
      else Completed(wrote)
  }

  // What authoring yielded after success, the pair as it was after anything else, and no directory in
  // either case.
  ghost predicate EndsFresh(s: DiskState, r: Report, review: Bytes, manifest: Bytes, authored: Option<Authored>) {
    && !s.directory.live
    && if r.Completed? then authored.Some? && TargetsAre(s, authored.value.review, authored.value.manifest)
       else TargetsAre(s, review, manifest)
  }

  // The new pair after success, the old one after anything else, and no directory in either case.
  ghost predicate EndsWith(s: DiskState, r: Report, j: Journal) {
    && !s.directory.live
    && if r.Completed? then TargetsAre(s, j.newReview, j.newManifest) else TargetsAre(s, j.oldReview, j.oldManifest)
  }

  // Ends the command once both targets are new: authoring again must confirm them, or the
  // transaction, if there is one, is rolled back; then its directory goes.
  method Conclude(disk: Disk, transaction: Option<Journal>, authored: Authored, verified: Option<Authored>,
                  updated: bool, ghost view: View)
    returns (r: Report)
    modifies disk
    ensures Ran(disk)
    ensures r.Completed? ==>
              disk.s.review.live == old(disk.s.review.live) && disk.s.manifest.live == old(disk.s.manifest.live)
    ensures r.Completed? && transaction.Some? ==>
              !disk.s.directory.live && TargetsAre(disk.s, transaction.value.newReview, transaction.value.newManifest)
    ensures r.Completed? && transaction.None? ==> disk.s == old(disk.s)
    ensures r == VerificationFailed(true) && transaction.Some? ==>
              TargetsAre(disk.s, transaction.value.oldReview, transaction.value.oldManifest) && !disk.s.directory.live
    ensures transaction.None? ==>
              disk.s == old(disk.s)
              && r == if Confirms(verified, authored) then Completed(updated) else VerificationFailed(true)
    ensures transaction.Some? && old(disk.Calm() && NoStrays(disk.s))
            && TargetsAre(old(disk.s), transaction.value.newReview, transaction.value.newManifest) ==>
              && r == (if Confirms(verified, authored) then Completed(updated) else VerificationFailed(true))
              && EndsWith(disk.s, r, transaction.value)
    ensures transaction.Some? && verified == Some(authored) && old(disk.Calm() && NoStrays(disk.s))
            && TargetsAre(old(disk.s), transaction.value.newReview, transaction.value.newManifest)
            && !CrashUniform(old(disk.begun), old(disk.s)) ==>
              Spoiled(disk)
    ensures old(Safe(view, disk))
            && (transaction.Some? ==>
                  && transaction.value == old(disk.begun) && old(MayGoOn(view, disk.begun, disk.s))
                  && TargetsAre(old(disk.s), transaction.value.newReview, transaction.value.newManifest)) ==>
              Safe(view, disk)
  {
    hide Guarded, At, Staged, MayRollBack, MayClean, MayGoOn, CrashUniform, NoStrays, TargetsSettled, Emptied;
    if transaction.Some? && Safe(view, disk) && MayGoOn(view, transaction.value, disk.s)
       && TargetsAre(disk.s, transaction.value.newReview, transaction.value.newManifest) {
      GuardedIsSound(view, disk.begun, disk.s);
      NewPairMayRollBack(view, transaction.value, disk.s);
    }
    var matches := verified.Some? && verified.value.review == authored.review
                   && verified.value.manifest == authored.manifest && verified.value.revision == authored.revision;
    if !matches {
      var rolledBack := true;
      if transaction.Some? {
        rolledBack := RollBack(disk, transaction.value, view);
      }
      return VerificationFailed(rolledBack);
    }
    if transaction.Some? {
      var state := TransactionState(disk, transaction.value);
      if state.None? || !state.value.IsFinal() {
        return CleanupFailed;
      }
      var cleaned := CleanUp(disk, view);
      SettlingDependsOnTargets(disk.begun, old(disk.s), disk.s);
      if !cleaned {
        return CleanupFailed;
      }
    }
    return Completed(updated);
  }

  // Authoring that finds the recovered pair in place, and confirms it.
  function Confirmation(j: Journal): Authored {
    Authored(j.revision, j.newReview, j.newReview, j.newManifest, j.newManifest)
  }

  // Continues a recovered transaction.
  method GoOn(disk: Disk, j: Journal, wrote: bool, authored: Option<Authored>, verified: Option<Authored>,
              ghost view: View)
    returns (r: Report)
    requires TargetsAre(disk.s, j.newReview, j.newManifest)
    modifies disk
    ensures Ran(disk)
    ensures r.Completed? ==>
              && authored.Some? && TargetsAre(disk.s, authored.value.review, authored.value.manifest)
              && !disk.s.directory.live
    ensures old(disk.Calm() && NoStrays(disk.s)) ==>
              r == ResumedReport(j, wrote, authored, verified) && EndsWith(disk.s, r, j)
    ensures authored == verified == Some(Confirmation(j)) && old(disk.Calm() && NoStrays(disk.s))
            && !CrashUniform(old(disk.begun), old(disk.s)) ==>
              Spoiled(disk)
    ensures old(Safe(view, disk) && MayGoOn(view, disk.begun, disk.s)) && j == old(disk.begun) ==> Safe(view, disk)
  {
    hide Guarded, At, Staged, MayRollBack, MayClean, MayGoOn, CrashUniform, NoStrays, TargetsSettled, Emptied;
    if Safe(view, disk) && MayGoOn(view, j, disk.s) {
      GuardedIsSound(view, disk.begun, disk.s);
      NewPairMayRollBack(view, j, disk.s);
    }
    if authored.None? {
      var _ := RollBack(disk, j, view);
      return AuthoringFailed;
    }
    var a := authored.value;
    var review := disk.ReadTarget(Review);
    var manifest := disk.ReadTarget(Manifest);
    if review.None? || manifest.None? {
      var _ := RollBack(disk, j, view);
      return SourceUnreadable;
    }
    if review.value != a.sourceReview || manifest.value != a.sourceManifest {
      var _ := RollBack(disk, j, view);
      return SourceChanged;
    }
    if !RecoveryMatches(j, a) {
      var rolledBack := RollBack(disk, j, view);
      return RecoveredMismatch(rolledBack);
    }
    r := Conclude(disk, Some(j), a, verified, wrote, view);
  }

  predicate TargetsSound(s: DiskState) {
    s.review.live in s.review.possible && s.manifest.live in s.manifest.possible
  }

  // Authoring that changes only the file beside one that is not settled.
  function Disturbance(s: DiskState): Authored {
    var r, m := s.review.live, s.manifest.live;
    if s.review != Settled(s.review) then Authored("", r, r, m, m + [0]) else Authored("", r, r + [0], m, m)
  }

  lemma DisturbanceIsUnsafe(request: string, s: DiskState)
    requires TargetsSound(s) && !TargetsSettled(s)
    ensures var a := Disturbance(s);
            && a.sourceReview == s.review.live && a.sourceManifest == s.manifest.live
            && Changes(JournalFor(request, a)) && !CrashSafe(JournalFor(request, a), s)
  {
    var j := JournalFor(request, Disturbance(s));
    if s.review != Settled(s.review) {
      var r :| r in s.review.possible && r != s.review.live;
      assert !Allowed(j, r, s.manifest.live);
    } else {
      var m :| m in s.manifest.possible && m != s.manifest.live;
      assert !Allowed(j, s.review.live, m);
    }
  }

  lemma UpdatingChanges(request: string, a: Authored)
    ensures Changes(JournalFor(request, a)) <==> a.sourceReview != a.review || a.sourceManifest != a.manifest
  {
  }

  lemma EndsEarly(s: DiskState, authored: Option<Authored>, verified: Option<Authored>)
    requires !s.directory.live
    ensures var review, manifest := s.review.live, s.manifest.live;
            if authored.None? then
              FreshReport(review, manifest, authored, verified) == AuthoringFailed
              && EndsFresh(s, AuthoringFailed, review, manifest, authored)
            else if !TargetsAre(s, authored.value.sourceReview, authored.value.sourceManifest) then
              FreshReport(review, manifest, authored, verified) == SourceChanged
              && EndsFresh(s, SourceChanged, review, manifest, authored)
            else true
  {
  }

  lemma EndsVerified(request: string, a: Authored, verified: Option<Authored>, s: DiskState, r: Report)
    requires r == if Confirms(verified, a) then Completed(Changes(JournalFor(request, a))) else VerificationFailed(true)
    requires if Changes(JournalFor(request, a)) then EndsWith(s, r, JournalFor(request, a))
             else !s.directory.live && TargetsAre(s, a.review, a.manifest)
    ensures r == FreshReport(a.sourceReview, a.sourceManifest, Some(a), verified)
    ensures EndsFresh(s, r, a.sourceReview, a.sourceManifest, Some(a))
  {
    hide Confirms;
  }

  // Begins a transaction if authoring would change anything.
  method BeginAnew(disk: Disk, request: string, authored: Option<Authored>, verified: Option<Authored>,
                   ghost view: View)
    returns (r: Report)
    requires !disk.s.directory.live
    modifies disk
    ensures Ran(disk)
    ensures r.Completed? ==>
              && authored.Some? && TargetsAre(disk.s, authored.value.review, authored.value.manifest)
              && !disk.s.directory.live
    ensures authored.Some? && !TargetsAre(old(disk.s), authored.value.sourceReview, authored.value.sourceManifest) ==>
              disk.s == old(disk.s)
    ensures old(Undisturbed(disk)) ==>
              && r == FreshReport(old(disk.s).review.live, old(disk.s).manifest.live, authored, verified)
              && EndsFresh(disk.s, r, old(disk.s).review.live, old(disk.s).manifest.live, authored)
    ensures old(disk.Calm() && TargetsSound(disk.s) && !TargetsSettled(disk.s))
            && authored == Some(Disturbance(old(disk.s))) ==>
              Spoiled(disk)
    ensures old(Safe(view, disk) && Settles(view, disk.s)) ==> Safe(view, disk)
  {
    hide Guarded, At, Staged, MayRollBack, MayClean, MayGoOn, TargetsSettled, CrashSafe, CrashUniform, TargetsSound,
         NoStrays, Changes, Disturbance, Emptied, Confirms, FreshReport, EndsFresh, EndsWith;
    EndsEarly(disk.s, authored, verified);
    if authored.None? {
      return AuthoringFailed;
    }
    var a := authored.value;
    if TargetsSound(disk.s) && !TargetsSettled(disk.s) {
      DisturbanceIsUnsafe(request, disk.s);
    }
    var review := disk.ReadTarget(Review);
    var manifest := disk.ReadTarget(Manifest);
    if review.None? || manifest.None? {
      return SourceUnreadable;
    }
    if review.value != a.sourceReview || manifest.value != a.sourceManifest {
      return SourceChanged;
    }
    UpdatingChanges(request, a);
    var updated := review.value != a.review || manifest.value != a.manifest;
    if !updated {
      r := Conclude(disk, None, a, verified, false, view);
    } else {
      r := Update(disk, JournalFor(request, a), a, verified, view);
    }
    if old(Undisturbed(disk)) {
      EndsVerified(request, a, verified, disk.s, r);
    }
  }

  // Runs a new transaction to its end.
  method Update(disk: Disk, j: Journal, a: Authored, verified: Option<Authored>, ghost view: View) returns (r: Report)
    requires !disk.s.directory.live && Changes(j) && TargetsAre(disk.s, j.oldReview, j.oldManifest)
    requires j.newReview == a.review && j.newManifest == a.manifest
    modifies disk
    ensures Ran(disk)
    ensures r.Completed? ==> TargetsAre(disk.s, a.review, a.manifest) && !disk.s.directory.live
    ensures old(Undisturbed(disk)) ==>
              && r == (if Confirms(verified, a) then Completed(true) else VerificationFailed(true))
              && EndsWith(disk.s, r, j)
    ensures !CrashSafe(j, old(disk.s)) ==> Spoiled(disk)
    ensures old(Safe(view, disk) && Settles(view, disk.s)) ==> Safe(view, disk)
  {
    hide Guarded, At, Staged, MayRollBack, MayClean, MayGoOn, TargetsSettled, CrashSafe, CrashUniform, NoStrays,
         Emptied, Changes;
    var failure := Transact(disk, j, view);
    if failure.Some? {
      return failure.value;
    }
    r := Conclude(disk, Some(j), a, verified, true, view);
  }

  // What authoring may yield so that a command that must not start does harm.
  ghost function Provocation(t: Journal, s: DiskState): Authored {
    if TakenForFinal(t, s) then Confirmation(t) else Disturbance(s)
  }

  // How a command ends beside a complete journal when nothing is in its way.
  ghost predicate EndsCalmly(j: Journal, was: DiskState, catalog: CatalogAnswer, authored: Option<Authored>,
                             verified: Option<Authored>, s: DiskState, r: Report)
  {
    if TargetsAre(was, j.oldReview, j.oldManifest) then
      r == FreshReport(j.oldReview, j.oldManifest, authored, verified)
      && EndsFresh(s, r, j.oldReview, j.oldManifest, authored)
    else if TargetsAre(was, j.newReview, j.newManifest) then
      r == ResumedReport(j, false, authored, verified) && EndsWith(s, r, j)
    else if TargetsAre(was, j.newReview, j.oldManifest) then
      match catalog
      case OtherRevision => r == Immutable
      case CatalogUnreadable => r == RecoveryConflict
      case _ => r == ResumedReport(j, true, authored, verified) && EndsWith(s, r, j)
    else r == RecoveryConflict
  }

  lemma EndsByRecovery(was: DiskState, request: string, catalog: CatalogAnswer, recovered: Recovery,
                       authored: Option<Authored>, verified: Option<Authored>, s: DiskState, r: Report)
    requires RecoveredFrom(was, request, catalog, recovered)
    requires match recovered
             case Conflict => r == RecoveryConflict
             case ImmutableConflict => r == Immutable
             case NothingToResume =>
               && r == FreshReport(was.review.live, was.manifest.live, authored, verified)
               && EndsFresh(s, r, was.review.live, was.manifest.live, authored)
             case Resumed(j, wrote) => r == ResumedReport(j, wrote, authored, verified) && EndsWith(s, r, j)
    ensures forall j :: Complete(j, was) && j.request == request ==>
              EndsCalmly(j, was, catalog, authored, verified, s, r)
  {
    hide Complete, FreshReport, ResumedReport, EndsFresh, EndsWith;
  }

  // Recover, author, check the sources, then go on with the recovered transaction or begin one,
  // verify, and clean up. Bytes that neither the journal nor, without one, authoring declares are
  // never written over. The start is recorded. From a start that meets the condition nothing the
  // command does, wherever it fails or is killed, can break the invariant; from one that does not,
  // some answers of the catalog and of authoring make a step that breaks it.
  method AuthorEvidence(disk: Disk, request: string, catalog: CatalogAnswer, authored: Option<Authored>,
                        verified: Option<Authored>, ghost view: View)
    returns (r: Report)
    modifies disk
    ensures old(disk.trace) <= disk.trace && disk.starts == old(disk.starts + [Moment(disk.s, disk.begun)])
    ensures (disk.running ==> old(disk.running)) && disk.troubles >= old(disk.troubles)
    ensures disk.troubles == old(disk.troubles) && old(TargetsSettled(disk.s)) ==> TargetsSettled(disk.s)
    ensures r.Completed? ==>
              && authored.Some? && TargetsAre(disk.s, authored.value.review, authored.value.manifest)
              && !disk.s.directory.live
    ensures old(Undeclared(disk.s)) ==>
              r == RecoveryConflict && disk.s.review == old(disk.s.review) && disk.s.manifest == old(disk.s.manifest)
    ensures !old(disk.s.directory.live) && authored.Some?
            && !TargetsAre(old(disk.s), authored.value.sourceReview, authored.value.sourceManifest) ==>
              disk.s == old(disk.s)
    ensures old(Undisturbed(disk)) && (!old(disk.s.directory.live) || old(At(disk.s, JournalFile)).live == None) ==>
              && r == FreshReport(old(disk.s).review.live, old(disk.s).manifest.live, authored, verified)
              && EndsFresh(disk.s, r, old(disk.s).review.live, old(disk.s).manifest.live, authored)
    ensures forall j :: old(Undisturbed(disk) && Complete(j, disk.s)) && j.request == request ==>
              EndsCalmly(j, old(disk.s), catalog, authored, verified, disk.s, r)
    ensures old(Safe(view, disk) && Starts(view, disk.begun, disk.s)) ==> Safe(view, disk)
    ensures old(Precarious(view, disk)) && request == old(disk.begun).request && catalog.NoRevision?
            && authored == verified == Some(Provocation(old(disk.begun), old(disk.s))) ==>
              Spoiled(disk)
  {
    hide Guarded, At, Staged, Complete, MayGoOn, Settles, MayStart, NoStrays, CrashUniform, TargetsSettled,
         TakenForFinal, Undeclared, Emptied, RecoveredFrom, EndsFresh, EndsWith, EndsCalmly, FreshReport,
         ResumedReport;
    disk.starts := disk.starts + [Moment(disk.s, disk.begun)];
    ghost var was, t := disk.s, disk.begun;
    if Safe(view, disk) {
      GuardedIsSound(view, t, was);
    }
    assert Safe(view, disk) ==> TargetsSound(was);
    var recovered := Recover(disk, request, catalog, view);
    if recovered.Conflict? {
      r := RecoveryConflict;
    } else if recovered.ImmutableConflict? {
      r := Immutable;
    } else if recovered.Resumed? {
      r := GoOn(disk, recovered.journal, recovered.wrote, authored, verified, view);
    } else {
      r := BeginAnew(disk, request, authored, verified, view);
    }
    if old(Undisturbed(disk)) {
      EndsByRecovery(was, request, catalog, recovered, authored, verified, disk.s, r);
    }
  }

}
