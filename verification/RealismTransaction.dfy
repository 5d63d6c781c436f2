/** The authoring transaction: a review file and its manifest are replaced together, through a
    journalled directory, with recovery forward and rollback backward. */
module RealismTransaction {
  import opened AuthoringDisk

  // ---------------------------------------------------------------------------------------
  // Which pairs of files a transaction may leave
  // ---------------------------------------------------------------------------------------

  // Old and old, new review beside the old manifest, or new and new.
  predicate Allowed(t: Journal, review: Bytes, manifest: Bytes) {
    || (review == t.oldReview && manifest == t.oldManifest)
    || (review == t.newReview && manifest == t.oldManifest)
    || (review == t.newReview && manifest == t.newManifest)
  }

  // Both old or both new.
  predicate Uniform(t: Journal, review: Bytes, manifest: Bytes) {
    || (review == t.oldReview && manifest == t.oldManifest)
    || (review == t.newReview && manifest == t.newManifest)
  }

  // A transaction that changes something.
  predicate Changes(t: Journal) {
    t.oldReview != t.newReview || t.oldManifest != t.newManifest
  }

  ghost predicate CrashSafe(t: Journal, s: DiskState) {
    forall r, m :: r in s.review.possible && m in s.manifest.possible ==> Allowed(t, r, m)
  }

  ghost predicate CrashUniform(t: Journal, s: DiskState) {
    forall r, m :: r in s.review.possible && m in s.manifest.possible ==> Uniform(t, r, m)
  }

  ghost predicate OnlyOld(t: Journal, s: DiskState) {
    s.review.possible <= {t.oldReview} && s.manifest.possible <= {t.oldManifest}
  }

  // ---------------------------------------------------------------------------------------
  // What the transaction directory must hold meanwhile
  // ---------------------------------------------------------------------------------------

  predicate IsStaged(m: Member) {
    m == ReviewOld || m == ReviewNew || m == ManifestOld || m == ManifestNew || m == JournalFile
  }

  function StagedContent(t: Journal, m: Member): Content
    requires IsStaged(m)
  {
    match m
    case ReviewOld => Blob(t.oldReview)
    case ReviewNew => Blob(t.newReview)
    case ManifestOld => Blob(t.oldManifest)
    case ManifestNew => Blob(t.newManifest)
    case _ => JournalText(t)
  }

  ghost predicate Written(t: Journal, s: DiskState) {
    forall m :: IsStaged(m) ==> At(s, m).live == Some(StagedContent(t, m))
  }

  ghost predicate Complete(t: Journal, s: DiskState) {
    s.directory.live && Written(t, s)
  }

  lemma CompleteHasItsJournal(s: DiskState)
    ensures forall j :: Complete(j, s) ==> At(s, JournalFile).live == Some(JournalText(j))
  {
    forall j | Complete(j, s) ensures At(s, JournalFile).live == Some(JournalText(j)) {
      assert IsStaged(JournalFile);
    }
  }

  // What is complete cannot be lost.
  ghost predicate Durable(t: Journal, s: DiskState) {
    && (s.directory.live ==> s.directory.possible == {true})
    && (forall m :: IsStaged(m) && At(s, m).live == Some(StagedContent(t, m)) ==>
          At(s, m).possible == {Some(StagedContent(t, m))})
  }

  // No journal but this transaction's can be found, and none outside a directory in use.
  ghost predicate OnlyJournal(t: Journal, s: DiskState) {
    forall j :: Some(JournalText(j)) in At(s, JournalFile).possible ==> j == t && Changes(t) && s.directory.live
  }

  // The pair of targets is watched in two ways: as running processes read it, whatever steps fail;
  // and as any crash may leave it.
  datatype View = AsRead | AsLeftByACrash

  // The invariant of every disk state. What processes read is an allowed pair, and a half-done pair
  // has its complete journal beside it. So has whatever a crash leaves, in a journal that no crash
  // can take away.
  ghost predicate Guarded(view: View, t: Journal, s: DiskState) {
    && Sound(s) && OnlyJournal(t, s)
    && match view
       case AsRead =>
         Allowed(t, s.review.live, s.manifest.live)
         && (Uniform(t, s.review.live, s.manifest.live) || Complete(t, s))
       case AsLeftByACrash =>
         CrashSafe(t, s) && (OnlyOld(t, s) || Durable(t, s)) && (CrashUniform(t, s) || Complete(t, s))
  }

  lemma GuardedIsSound(view: View, t: Journal, s: DiskState)
    requires Guarded(view, t, s)
    ensures Sound(s)
  {
  }

  // The invariant holds now and held after every step so far.
  ghost predicate Safe(view: View, disk: Disk)
    reads disk
  {
    Guarded(view, disk.begun, disk.s)
    && forall k :: 0 <= k < |disk.trace| ==> Guarded(view, disk.trace[k].begun, disk.trace[k].state)
  }

  // Some step left a disk state that breaks what must hold across crashes.
  ghost predicate Spoiled(disk: Disk)
    reads disk
  {
    exists k :: 0 <= k < |disk.trace| && !Guarded(AsLeftByACrash, disk.trace[k].begun, disk.trace[k].state)
  }

  ghost predicate MayClean(view: View, t: Journal, s: DiskState) {
    match view
    case AsRead => Uniform(t, s.review.live, s.manifest.live)
    case AsLeftByACrash => CrashUniform(t, s)
  }

  ghost predicate MayStage(view: View, t: Journal, s: DiskState) {
    Changes(t) && MayClean(view, t, s) && (view == AsLeftByACrash ==> OnlyOld(t, s))
  }

  // A copy to be moved over a target may always be written; a staged file only while staging.
  ghost predicate MayWrite(view: View, t: Journal, s: DiskState, m: Member, content: Content) {
    IsStaged(m) ==> MayStage(view, t, s) && s.directory.live && (content.Blob? || content == JournalText(t))
  }

  // Putting `bytes` in place of one target is safe beside everything the other target may be.
  ghost predicate MayReplace(view: View, t: Journal, s: DiskState, which: Target, bytes: Bytes) {
    match view
    case AsRead =>
      && Complete(t, s)
      && if which == Review then Allowed(t, bytes, s.manifest.live) else Allowed(t, s.review.live, bytes)
    case AsLeftByACrash =>
      && Complete(t, s) && Durable(t, s)
      && if which == Review then forall m :: m in s.manifest.possible ==> Allowed(t, bytes, m)
         else forall r :: r in s.review.possible ==> Allowed(t, r, bytes)
  }

  // ---------------------------------------------------------------------------------------
  // Every kind of step keeps the invariant
  // ---------------------------------------------------------------------------------------

  lemma OneMemberChanges(s: DiskState, m: Member, content: Option<Content>)
    ensures WithMember(s, m, content) == s.(members := WithMember(s, m, content).members)
    ensures forall n :: At(WithMember(s, m, content), n) == if n == m then Put(At(s, m), content) else At(s, n)
  {
    forall n ensures At(WithMember(s, m, content), n) == if n == m then Put(At(s, m), content) else At(s, n) {
      if n == m {
        assert WithMember(s, m, content).members[n] == Put(At(s, m), content);
      }
    }
  }

  lemma SyncSettlesMembers(s: DiskState)
    ensures forall m :: At(MembersSynced(s), m) == Settled(At(s, m))
  {
  }

  lemma MemberSyncKeepsGuard(view: View, t: Journal, s: DiskState)
    requires Guarded(view, t, s)
    ensures Guarded(view, t, MembersSynced(s))
  {
    SyncSettlesMembers(s);
  }

  lemma ParentSyncKeepsGuard(view: View, t: Journal, s: DiskState)
    requires Guarded(view, t, s)
    ensures Guarded(view, t, ParentSynced(s))
  {
    assert forall m :: At(ParentSynced(s), m) == At(s, m);
  }

  lemma TargetSyncKeepsGuard(view: View, t: Journal, s: DiskState, which: Target, sharedParent: bool)
    requires Guarded(view, t, s)
    ensures Guarded(view, t, TargetSynced(s, which, sharedParent))
  {
    assert forall m :: At(TargetSynced(s, which, sharedParent), m) == At(s, m);
  }

  lemma UnlinkKeepsGuard(view: View, t: Journal, s: DiskState, m: Member)
    requires Guarded(view, t, s) && (IsStaged(m) ==> MayClean(view, t, s))
    ensures Guarded(view, t, WithMember(s, m, None))
  {
    OneMemberChanges(s, m, None);
  }

  // Writing bytes, whatever they are, or the content itself.
  lemma WritingKeepsGuard(view: View, t: Journal, s: DiskState, m: Member, content: Content, written: Content)
    requires Guarded(view, t, s) && MayWrite(view, t, s, m, content)
    requires written.Blob? || written == content
    ensures Guarded(view, t, WithMember(s, m, Some(written)))
    ensures MayWrite(view, t, WithMember(s, m, Some(written)), m, content)
  {
    OneMemberChanges(s, m, Some(written));
  }

  lemma MakingKeepsGuard(view: View, t: Journal, s: DiskState)
    requires Guarded(view, t, s) && MayStage(view, t, s)
    ensures Guarded(view, t, DirectoryMade(s))
  {
    assert forall m :: At(DirectoryMade(s), m) == At(s, m);
  }

  lemma RemovingKeepsGuard(view: View, t: Journal, s: DiskState)
    requires Guarded(view, t, s) && MayClean(view, t, s) && At(s, JournalFile).possible == {None}
    ensures Guarded(view, t, DirectoryRemoved(s))
  {
    assert forall m :: At(DirectoryRemoved(s), m) == At(s, m);
  }

  lemma {:induction false} ReplacingKeepsGuard(view: View, t: Journal, s: DiskState, which: Target, bytes: Bytes)
    requires Guarded(view, t, s) && MayReplace(view, t, s, which, bytes)
    ensures Guarded(view, t, TargetReplaced(s, which, bytes))
  {
    var after := TargetReplaced(s, which, bytes);
    OneMemberChanges(s, ApplyMember(which), None);
    assert forall m :: At(after, m) == At(WithMember(s, ApplyMember(which), None), m);
  }

  // A stop, whatever it leaves, keeps the stronger invariant, and leaves nothing unsettled.
  lemma {:induction false} StopKeepsGuard(t: Journal, s: DiskState, after: DiskState)
    requires Guarded(AsLeftByACrash, t, s) && MaySettle(s, after)
    ensures Guarded(AsLeftByACrash, t, after) && TargetsSettled(after)
  {
    assert after.review.possible == {after.review.live};
    assert after.manifest.possible == {after.manifest.live};
    assert forall m :: At(after, m).possible == {At(after, m).live};
    if !CrashUniform(t, after) {
      assert Complete(t, s) && Durable(t, s);
    }
  }

  // ---------------------------------------------------------------------------------------
  // Removing the transaction directory
  // ---------------------------------------------------------------------------------------

  // What every procedure keeps, apart from the disk state: the past, and its own end.
  twostate predicate Continued(disk: Disk)
    reads disk
  {
    && disk.begun == old(disk.begun) && old(disk.trace) <= disk.trace && disk.starts == old(disk.starts)
    && (disk.running ==> old(disk.running)) && disk.troubles >= old(disk.troubles)
    && (old(disk.Calm()) ==> disk.Calm())
  }

  // What a procedure that never touches the targets leaves as it was.
  twostate predicate TargetsUntouched(disk: Disk)
    reads disk
  {
    Continued(disk) && disk.s.review == old(disk.s.review) && disk.s.manifest == old(disk.s.manifest)
  }

  // Only members of the transaction are in its directory.
  ghost predicate NoStrays(s: DiskState) {
    forall m: Member :: m.Stray? ==> At(s, m).live == None
  }

  // Nothing at all is in its directory.
  ghost predicate Emptied(s: DiskState) {
    forall m: Member :: At(s, m).live == None
  }

  // Unlinks the listed members in no particular order; an unexpected one stops it.
  method UnlinkAll(disk: Disk, listed: set<Member>, ghost view: View) returns (ok: bool)
    modifies disk
    ensures TargetsUntouched(disk)
    ensures ok ==> forall m :: At(disk.s, m).live != None ==> old(At(disk.s, m)).live != None && m !in listed
    ensures forall m :: m !in listed ==> At(disk.s, m) == old(At(disk.s, m))
    ensures old(disk.Calm()) && (forall m :: m in listed ==> !m.Stray?) ==> ok
    ensures old(Safe(view, disk)) && old(MayClean(view, disk.begun, disk.s)) ==>
              Safe(view, disk) && MayClean(view, disk.begun, disk.s)
  {
    hide Guarded, At;
    var rest := listed;
    while rest != {}
      invariant rest <= listed && TargetsUntouched(disk)
      invariant forall m :: At(disk.s, m).live != None ==>
                  old(At(disk.s, m)).live != None && (m !in listed || m in rest)
      invariant forall m :: m !in listed ==> At(disk.s, m) == old(At(disk.s, m))
      invariant old(Safe(view, disk)) && old(MayClean(view, disk.begun, disk.s)) ==>
                  Safe(view, disk) && MayClean(view, disk.begun, disk.s)
      decreases |rest|
    {
      var m :| m in rest;
      if m.Stray? {
        return false;
      }
      if Safe(view, disk) && MayClean(view, disk.begun, disk.s) {
        UnlinkKeepsGuard(view, disk.begun, disk.s, m);
      }
      OneMemberChanges(disk.s, m, None);
      var removed := disk.Unlink(m);
      if !removed {
        return false;
      }
      rest := rest - {m};
    }
    ok := true;
  }

  // Without a directory, pairs that are not uniform break the invariant.
  lemma CleanedTooEarly(t: Journal, s: DiskState)
    requires !CrashUniform(t, s) && !s.directory.live
    ensures !Guarded(AsLeftByACrash, t, s)
  {
  }

  lemma CleaningDependsOnTargets(view: View, t: Journal, was: DiskState, s: DiskState)
    requires MayClean(view, t, was) && s.review == was.review && s.manifest == was.manifest
    ensures MayClean(view, t, s)
  {
  }

  method CleanUp(disk: Disk, ghost view: View) returns (ok: bool)
    modifies disk
    ensures TargetsUntouched(disk)
    ensures ok ==> !disk.s.directory.live && Emptied(disk.s)
    ensures old(disk.Calm() && NoStrays(disk.s)) ==> ok && NoStrays(disk.s)
    ensures ok && !CrashUniform(disk.begun, disk.s) ==> Spoiled(disk)
    ensures old(Safe(view, disk)) && old(MayClean(view, disk.begun, disk.s)) ==> Safe(view, disk)
  {
    hide Guarded, At, CrashUniform, MayClean;
    var listed := disk.ListMembers();
    if listed.None? {
      return false;
    }
    ok := UnlinkAll(disk, listed.value, view);
    if ok {
      ok := RemoveEmptied(disk, view);
    }
  }

  lemma EmptiedDirectory(s: DiskState)
    requires Emptied(s)
    ensures MembersSynced(s) == s.(members := MembersSynced(s).members)
    ensures DirectoryIsEmpty(MembersSynced(s)) && At(MembersSynced(s), JournalFile).possible == {None}
    ensures NoStrays(MembersSynced(s)) && Emptied(MembersSynced(s))
  {
    var synced := MembersSynced(s);
    SyncSettlesMembers(s);
    forall m | m in synced.members ensures synced.members[m].live == None {
      assert At(synced, m) == synced.members[m];
    }
  }

  // Synchronises the emptied directory and removes it.
  method RemoveEmptied(disk: Disk, ghost view: View) returns (ok: bool)
    requires Emptied(disk.s)
    modifies disk
    ensures TargetsUntouched(disk)
    ensures ok ==> !disk.s.directory.live && Emptied(disk.s) && NoStrays(disk.s)
    ensures old(disk.Calm()) ==> ok
    ensures ok && !CrashUniform(disk.begun, disk.s) ==> Spoiled(disk)
    ensures old(Safe(view, disk)) && old(MayClean(view, disk.begun, disk.s)) ==> Safe(view, disk)
  {
    hide Guarded, At, CrashUniform, MayClean, MembersSynced, NoStrays, Emptied, DirectoryIsEmpty;
    EmptiedDirectory(disk.s);
    if Safe(view, disk) && MayClean(view, disk.begun, disk.s) {
      MemberSyncKeepsGuard(view, disk.begun, disk.s);
      CleaningDependsOnTargets(view, disk.begun, disk.s, MembersSynced(disk.s));
    }
    ok := disk.SyncMembers();
    if !ok {
      return;
    }
    ok := disk.Check();
    if ok {
      ok := DetachDirectory(disk, view);
    }
  }

  // Removes the empty directory, and makes that last.
  method DetachDirectory(disk: Disk, ghost view: View) returns (ok: bool)
    requires DirectoryIsEmpty(disk.s) && At(disk.s, JournalFile).possible == {None}
    requires Emptied(disk.s) && NoStrays(disk.s)
    modifies disk
    ensures TargetsUntouched(disk)
    ensures ok ==> !disk.s.directory.live && Emptied(disk.s) && NoStrays(disk.s)
    ensures old(disk.Calm()) ==> ok
    ensures ok && !CrashUniform(disk.begun, disk.s) ==> Spoiled(disk)
    ensures old(Safe(view, disk)) && old(MayClean(view, disk.begun, disk.s)) ==> Safe(view, disk)
  {
    hide Guarded, At, CrashUniform, MayClean, DirectoryIsEmpty;
    ghost var mayClean := Safe(view, disk) && MayClean(view, disk.begun, disk.s);
    DirectoryStepsKeepMembers(disk.s);
    if mayClean {
      RemovingKeepsGuard(view, disk.begun, disk.s);
    }
    ok := disk.RemoveDirectory();
    if !ok {
      return;
    }
    DirectoryStepsKeepMembers(disk.s);
    if mayClean {
      ParentSyncKeepsGuard(view, disk.begun, disk.s);
    }
    ok := disk.SyncParent();
    if !ok {
      return;
    }
    if !CrashUniform(disk.begun, disk.s) {
      CleanedTooEarly(disk.begun, disk.s);
      assert disk.trace[|disk.trace| - 1] == Moment(disk.s, disk.begun);
    }
    ok := disk.Check();
  }

  // ---------------------------------------------------------------------------------------
  // Replacing one target
  // ---------------------------------------------------------------------------------------

  lemma DirectoryStepsKeepMembers(s: DiskState)
    ensures forall m :: At(DirectoryMade(s), m) == At(s, m)
    ensures forall m :: At(DirectoryRemoved(s), m) == At(s, m)
    ensures forall m :: At(ParentSynced(s), m) == At(s, m)
  {
  }

  // Creates a member, which fails if it exists, writes it and synchronises its bytes.
  method WriteMember(disk: Disk, m: Member, content: Content, ghost view: View) returns (ok: bool)
    modifies disk
    ensures TargetsUntouched(disk) && disk.s.directory == old(disk.s.directory)
    ensures forall n :: n != m ==> At(disk.s, n) == old(At(disk.s, n))
    ensures ok ==> At(disk.s, m).live == Some(content)
    ensures !ok ==> disk.troubles > old(disk.troubles)
    ensures old(disk.Calm()) && old(At(disk.s, m)).live == None ==> ok
    ensures old(Safe(view, disk)) && old(MayWrite(view, disk.begun, disk.s, m, content)) ==> Safe(view, disk)
  {
    hide Guarded, At, MayWrite, WithMember, TargetsSettled;
    ghost var t, before := disk.begun, disk.s;
    ghost var may := Safe(view, disk) && MayWrite(view, t, before, m, content);
    var torn: Bytes;
    ok, torn := disk.CreateMember(m);
    OneMemberChanges(before, m, Some(Blob(torn)));
    if may {
      WritingKeepsGuard(view, t, before, m, content, Blob(torn));
    }

    if !ok {
      return;
    }
    ghost var middle := disk.s;
    if may {
      WritingKeepsGuard(view, t, middle, m, content, content);
    }
    OneMemberChanges(middle, m, Some(content));
    ok := disk.FillMember(m, content);
    if !ok {
      return;
    }
    ok := disk.Check();
  }

  // What replacing one target leaves: the other target and the staged files keep their contents,
  // and what could not be lost still cannot.
  ghost predicate Replacing(was: DiskState, s: DiskState, which: Target, bytes: Bytes) {
    && (TargetCell(s, Other(which)) == TargetCell(was, Other(which))
        || TargetCell(s, Other(which)) == Settled(TargetCell(was, Other(which))))
    && (TargetCell(s, which).live == TargetCell(was, which).live || TargetCell(s, which).live == bytes)
    && TargetCell(s, which).possible <= TargetCell(was, which).possible + {bytes}
    && (TargetCell(s, which).live == bytes || TargetCell(s, which).possible <= TargetCell(was, which).possible)
    && s.directory == was.directory
    && (forall m :: IsStaged(m) ==> At(s, m) == At(was, m) || At(s, m) == Settled(At(was, m)))
    && (forall m :: !IsStaged(m) && m != ApplyMember(which) ==> At(s, m).live == At(was, m).live)
  }

  // Success, or something went wrong; without trouble settled targets stay settled.
  twostate predicate Untroubled(disk: Disk, ok: bool)
    reads disk
  {
    && Continued(disk) && (!ok ==> disk.troubles > old(disk.troubles))
    && (disk.troubles == old(disk.troubles) && old(TargetsSettled(disk.s)) ==> TargetsSettled(disk.s))
  }

  method RemoveCopyIfPresent(disk: Disk, which: Target, ghost view: View) returns (ok: bool)
    modifies disk
    ensures TargetsUntouched(disk) && Untroubled(disk, ok) && disk.s.directory == old(disk.s.directory)
    ensures forall m :: m != ApplyMember(which) ==> At(disk.s, m) == old(At(disk.s, m))
    ensures ok ==> At(disk.s, ApplyMember(which)).live == None
    ensures old(disk.Calm()) ==> ok
    ensures old(Safe(view, disk)) ==> Safe(view, disk)
  {
    hide Guarded, At;
    var present := disk.ReadMember(ApplyMember(which));
    if present.None? {
      return false;
    }
    if present.value.None? {
      return true;
    }
    if Safe(view, disk) {
      UnlinkKeepsGuard(view, disk.begun, disk.s, ApplyMember(which));
    }
    OneMemberChanges(disk.s, ApplyMember(which), None);
    ok := disk.Unlink(ApplyMember(which));
  }

  // Leaves a synchronised copy of `bytes` in the transaction directory.
  method CopyBeside(disk: Disk, which: Target, bytes: Bytes, ghost view: View) returns (ok: bool)
    modifies disk
    ensures TargetsUntouched(disk) && Untroubled(disk, ok) && Copied(old(disk.s), disk.s, which)
    ensures ok ==> At(disk.s, ApplyMember(which)).live == Some(Blob(bytes))
    ensures old(disk.Calm()) ==> ok
    ensures old(Safe(view, disk)) ==> Safe(view, disk)
  {
    hide Guarded, At;
    ok := RemoveCopyIfPresent(disk, which, view);
    if !ok {
      return;
    }
    ok := WriteMember(disk, ApplyMember(which), Blob(bytes), view);
    if !ok {
      return;
    }
    if Safe(view, disk) {
      MemberSyncKeepsGuard(view, disk.begun, disk.s);
    }
    SyncSettlesMembers(disk.s);
    ok := disk.SyncMembers();
  }

  lemma ReplacingTransfersMay(view: View, t: Journal, was: DiskState, s: DiskState, which: Target, bytes: Bytes)
    requires MayReplace(view, t, was, which, bytes)
    requires s.review == was.review && s.manifest == was.manifest && s.directory == was.directory
    requires forall m :: IsStaged(m) ==> At(s, m) == At(was, m) || At(s, m) == Settled(At(was, m))
    ensures MayReplace(view, t, s, which, bytes)
  {
  }

  // The moment at which one target was moved over, and nothing of it synchronised.
  ghost predicate JustMoved(t: Journal, was: DiskState, now: Moment, which: Target, bytes: Bytes) {
    && now.begun == t
    && TargetCell(now.state, which) == Put(TargetCell(was, which), bytes)
    && TargetCell(now.state, Other(which)) == TargetCell(was, Other(which))
  }

  // A pair that was possible at that moment and is not allowed breaks the invariant.
  lemma MovedTooEarly(disk: Disk, t: Journal, was: DiskState, which: Target, bytes: Bytes, other: Bytes)
    requires exists k :: 0 <= k < |disk.trace| && JustMoved(t, was, disk.trace[k], which, bytes)
    requires other in TargetCell(was, Other(which)).possible
    requires if which == Review then !Allowed(t, bytes, other) else !Allowed(t, other, bytes)
    ensures Spoiled(disk)
  {
    var k :| 0 <= k < |disk.trace| && JustMoved(t, was, disk.trace[k], which, bytes);
    assert !CrashSafe(t, disk.trace[k].state);
  }

  // A state that differs from another only by the copy beside a target.
  ghost predicate Copied(was: DiskState, s: DiskState, which: Target) {
    && s.review == was.review && s.manifest == was.manifest && s.directory == was.directory
    && (forall m :: m != ApplyMember(which) ==> At(s, m) == At(was, m) || At(s, m) == Settled(At(was, m)))
  }

  lemma CopyingIsNoReplacing(was: DiskState, beside: DiskState, s: DiskState, which: Target, bytes: Bytes)
    requires Copied(was, beside, which)
    ensures Replacing(was, beside, which, bytes)
    ensures Replacing(beside, s, which, bytes) ==> Replacing(was, s, which, bytes)
  {
  }

  lemma SameTargetsJustMoved(
    t: Journal, was: DiskState, beside: DiskState, now: Moment, which: Target, bytes: Bytes)
    requires beside.review == was.review && beside.manifest == was.manifest
    requires JustMoved(t, beside, now, which, bytes)
    ensures JustMoved(t, was, now, which, bytes)
  {
  }

  // Copies `bytes` beside the target and moves the copy over it.
  method ReplaceTarget(disk: Disk, which: Target, bytes: Bytes, ghost view: View) returns (ok: bool)
    modifies disk
    ensures Untroubled(disk, ok)
    ensures Replacing(old(disk.s), disk.s, which, bytes)
    ensures ok ==> TargetCell(disk.s, which) == Cell(bytes, {bytes})
    ensures ok ==> exists k :: 0 <= k < |disk.trace| && JustMoved(disk.begun, old(disk.s), disk.trace[k], which, bytes)
    ensures old(disk.Calm()) ==> ok
    ensures old(Safe(view, disk)) && old(MayReplace(view, disk.begun, disk.s, which, bytes)) ==> Safe(view, disk)
  {
    hide Guarded, At, MayReplace, Replacing, JustMoved;
    ghost var was := disk.s;
    ghost var may := Safe(view, disk) && MayReplace(view, disk.begun, disk.s, which, bytes);
    CopyingIsNoReplacing(was, was, was, which, bytes);
    ok := disk.Check();
    if !ok {
      return;
    }
    ok := CopyBeside(disk, which, bytes, view);
    CopyingIsNoReplacing(was, disk.s, disk.s, which, bytes);
    if !ok {
      return;
    }
    ok := disk.Check();
    if !ok {
      return;
    }
    if may {
      ReplacingTransfersMay(view, disk.begun, was, disk.s, which, bytes);
      ReplacingKeepsGuard(view, disk.begun, disk.s, which, bytes);
    }
    ghost var beside := disk.s;
    ok := MoveOver(disk, which, bytes, view);
    CopyingIsNoReplacing(was, beside, disk.s, which, bytes);
    if ok {
      ghost var k :| 0 <= k < |disk.trace| && JustMoved(disk.begun, beside, disk.trace[k], which, bytes);
      SameTargetsJustMoved(disk.begun, was, beside, disk.trace[k], which, bytes);
    }
  }

  lemma MovingStepsReplace(was: DiskState, which: Target, bytes: Bytes, sharedParent: bool)
    ensures var moved := TargetReplaced(was, which, bytes);
            var synced := TargetSynced(moved, which, sharedParent);
            && Replacing(was, was, which, bytes) && Replacing(was, moved, which, bytes)
            && Replacing(was, synced, which, bytes) && Replacing(was, MembersSynced(synced), which, bytes)
            && TargetCell(synced, which) == TargetCell(MembersSynced(synced), which) == Cell(bytes, {bytes})
  {
    var moved := TargetReplaced(was, which, bytes);
    var synced := TargetSynced(moved, which, sharedParent);
    OneMemberChanges(was, ApplyMember(which), None);
    SyncSettlesMembers(synced);
    assert forall m :: At(moved, m) == At(WithMember(was, ApplyMember(which), None), m);
    assert forall m :: At(synced, m) == At(moved, m);
  }

  lemma MovingIsJustMoved(t: Journal, was: DiskState, which: Target, bytes: Bytes)
    ensures JustMoved(t, was, Moment(TargetReplaced(was, which, bytes), t), which, bytes)
  {
  }

  // Moves the copy over its target and synchronises both directories.
  method MoveOver(disk: Disk, which: Target, bytes: Bytes, ghost view: View) returns (ok: bool)
    requires At(disk.s, ApplyMember(which)).live == Some(Blob(bytes))
    modifies disk
    ensures Untroubled(disk, ok)
    ensures Replacing(old(disk.s), disk.s, which, bytes)
    ensures ok ==> TargetCell(disk.s, which) == Cell(bytes, {bytes})
    ensures ok ==> exists k :: 0 <= k < |disk.trace| && JustMoved(disk.begun, old(disk.s), disk.trace[k], which, bytes)
    ensures old(disk.Calm()) ==> ok
    ensures old(Safe(view, disk)) && old(Guarded(view, disk.begun, TargetReplaced(disk.s, which, bytes))) ==>
              Safe(view, disk)
  {
    hide Guarded, At, Replacing, TargetReplaced, TargetSynced, MembersSynced, JustMoved, TargetCell, TargetsSettled,
         HoldsBytes;
    MovingStepsReplace(disk.s, which, bytes, disk.sharedParent);
    MovingIsJustMoved(disk.begun, disk.s, which, bytes);
    MovingKeepsSettled(disk.s, which, bytes, disk.sharedParent);
    MovableCopy(disk.s, which, bytes);
    var moved: Bytes;
    ok, moved := disk.Rename(which);
    if !ok {
      return;
    }
    ghost var k := |old(disk.trace)|;
    assert JustMoved(disk.begun, old(disk.s), disk.trace[k], which, moved);
    ok := SyncMoved(disk, which, view);
  }

  // Synchronises the directory a target was moved into, then the one it came from.
  method SyncMoved(disk: Disk, which: Target, ghost view: View) returns (ok: bool)
    modifies disk
    ensures Continued(disk) && (!ok ==> disk.troubles > old(disk.troubles)) && (old(disk.Calm()) ==> ok)
    ensures var synced := TargetSynced(old(disk.s), which, disk.sharedParent);
            if ok then disk.s == MembersSynced(synced) else disk.s in {old(disk.s), synced, MembersSynced(synced)}
    ensures old(Safe(view, disk)) ==> Safe(view, disk)
  {
    hide Guarded, At, TargetSynced, MembersSynced;
    if Safe(view, disk) {
      TargetSyncKeepsGuard(view, disk.begun, disk.s, which, disk.sharedParent);
    }
    ok := disk.SyncTarget(which);
    if !ok {
      return;
    }
    if Safe(view, disk) {
      MemberSyncKeepsGuard(view, disk.begun, disk.s);
    }
    ok := disk.SyncMembers();
    if !ok {
      return;
    }
    ok := disk.Check();
  }

  lemma MovableCopy(s: DiskState, which: Target, bytes: Bytes)
    requires At(s, ApplyMember(which)).live == Some(Blob(bytes))
    ensures HoldsBytes(s, ApplyMember(which))
  {
  }

  lemma MovingKeepsSettled(was: DiskState, which: Target, bytes: Bytes, sharedParent: bool)
    ensures var synced := TargetSynced(TargetReplaced(was, which, bytes), which, sharedParent);
            TargetsSettled(was) ==> TargetsSettled(synced) && TargetsSettled(MembersSynced(synced))
  {
  }

  // ---------------------------------------------------------------------------------------
  // Reading the state of a transaction
  // ---------------------------------------------------------------------------------------

  datatype Equality = Equality(reviewOld: bool, reviewNew: bool, manifestOld: bool, manifestNew: bool) {
    predicate IsOld() { reviewOld && manifestOld }
    predicate IsReviewCommitted() { reviewNew && manifestOld }
    predicate IsFinal() { reviewNew && manifestNew }
    predicate IsDeclared() { (reviewOld || reviewNew) && (manifestOld || manifestNew) }
  }

  function EqualityOf(j: Journal, s: DiskState): Equality {
    Equality(s.review.live == j.oldReview, s.review.live == j.newReview,
             s.manifest.live == j.oldManifest, s.manifest.live == j.newManifest)
  }

  twostate predicate Unchanged(disk: Disk)
    reads disk
  {
    Continued(disk) && disk.s == old(disk.s) && disk.trace == old(disk.trace)
  }

  method TransactionState(disk: Disk, j: Journal) returns (r: Option<Equality>)
    modifies disk
    ensures Unchanged(disk)
    ensures r.Some? ==> r.value == EqualityOf(j, disk.s)
    ensures r.None? ==> disk.troubles > old(disk.troubles)
    ensures old(disk.Calm()) ==> r.Some?
  {
    var review := disk.ReadTarget(Review);
    var manifest := disk.ReadTarget(Manifest);
    if review.None? || manifest.None? {
      return None;
    }
    return Some(Equality(review.value == j.oldReview, review.value == j.newReview,
                         manifest.value == j.oldManifest, manifest.value == j.newManifest));
  }

  // The journal must parse and match the request, and every staged file must match the journal.
  method Load(disk: Disk, request: string) returns (r: Option<Journal>)
    modifies disk
    ensures Unchanged(disk)
    ensures r.Some? ==> r.value.request == request && Written(r.value, disk.s)
    ensures r.None? ==> disk.troubles > old(disk.troubles)
                        || forall j :: Complete(j, disk.s) ==> j.request != request
    ensures old(disk.Calm()) && r.None? ==> forall j :: Complete(j, disk.s) ==> j.request != request
  {
    CompleteHasItsJournal(disk.s);
    var text := disk.ReadMember(JournalFile);
    if text.None? {
      return None;
    }
    var journal: Journal;
    match text.value {
      case Some(JournalText(j)) => journal := j;
      case _ => return None;
    }
    var oldReview := disk.ReadMember(ReviewOld);
    var newReview := disk.ReadMember(ReviewNew);
    var oldManifest := disk.ReadMember(ManifestOld);
    var newManifest := disk.ReadMember(ManifestNew);
    if oldReview.None? || newReview.None? || oldManifest.None? || newManifest.None? {
      return None;
    }
    if journal.request != request
       || oldReview.value != Some(Blob(journal.oldReview)) || newReview.value != Some(Blob(journal.newReview))
       || oldManifest.value != Some(Blob(journal.oldManifest)) || newManifest.value != Some(Blob(journal.newManifest)) {
      assert Complete(journal, disk.s) ==>
               At(disk.s, ReviewOld).live == Some(StagedContent(journal, ReviewOld))
               && At(disk.s, ReviewNew).live == Some(StagedContent(journal, ReviewNew))
               && At(disk.s, ManifestOld).live == Some(StagedContent(journal, ManifestOld))
               && At(disk.s, ManifestNew).live == Some(StagedContent(journal, ManifestNew));
      return None;
    }
    return Some(journal);
  }

  // ---------------------------------------------------------------------------------------
  // Preparing
  // ---------------------------------------------------------------------------------------

  ghost predicate Staged(t: Journal, s: DiskState) {
    Complete(t, s) && Durable(t, s)
  }

  ghost predicate NothingStaged(s: DiskState) {
    forall m :: IsStaged(m) ==> At(s, m).live == None
  }

  lemma UnsafeIsUnguarded(t: Journal, was: DiskState, s: DiskState)
    requires !CrashSafe(t, was) && s.review == was.review && s.manifest == was.manifest
    ensures !Guarded(AsLeftByACrash, t, s)
  {
  }

  // Makes the transaction directory, and makes it last.
  method OpenDirectory(disk: Disk, ghost view: View) returns (ok: bool)
    modifies disk
    ensures TargetsUntouched(disk) && Untroubled(disk, ok)
    ensures forall m :: At(disk.s, m) == old(At(disk.s, m))
    ensures ok ==> disk.s.directory.live
    ensures !CrashSafe(disk.begun, old(disk.s)) ==> Spoiled(disk)
    ensures old(disk.Calm() && !disk.s.directory.live) ==> ok
    ensures old(Safe(view, disk)) && old(MayStage(view, disk.begun, disk.s)) ==> Safe(view, disk)
  {
    hide Guarded, At, MayStage, CrashSafe;
    ghost var may := Safe(view, disk) && MayStage(view, disk.begun, disk.s);
    if may {
      MakingKeepsGuard(view, disk.begun, disk.s);
    }
    DirectoryStepsKeepMembers(disk.s);
    ok := disk.MakeDirectory();
    ghost var k := |old(disk.trace)|;
    ghost var made := disk.trace[k];
    if !CrashSafe(disk.begun, old(disk.s)) {
      UnsafeIsUnguarded(disk.begun, old(disk.s), made.state);
    }
    if !ok {
      return;
    }
    ok := disk.Check();
    if !ok {
      return;
    }
    if may {
      ParentSyncKeepsGuard(view, disk.begun, disk.s);
    }
    DirectoryStepsKeepMembers(disk.s);
    ok := disk.SyncParent();
    assert disk.trace[k] == made;
  }

  // All five files are tried, whatever fails.
  method StageAll(disk: Disk, j: Journal, ghost view: View) returns (ok: bool)
    modifies disk
    ensures TargetsUntouched(disk) && Untroubled(disk, ok) && disk.s.directory == old(disk.s.directory)
    ensures ok ==> Written(j, disk.s)
    ensures forall m :: !IsStaged(m) ==> At(disk.s, m) == old(At(disk.s, m))
    ensures old(disk.Calm() && NothingStaged(disk.s)) ==> ok
    ensures old(Safe(view, disk) && MayStage(view, j, disk.s) && disk.s.directory.live) && old(disk.begun) == j ==>
              Safe(view, disk)
  {
    hide Guarded, At, MayStage;
    var ok1 := WriteMember(disk, ReviewOld, Blob(j.oldReview), view);
    StagingDependsOnTargets(view, j, old(disk.s), disk.s);
    var ok2 := WriteMember(disk, ReviewNew, Blob(j.newReview), view);
    StagingDependsOnTargets(view, j, old(disk.s), disk.s);
    var ok3 := WriteMember(disk, ManifestOld, Blob(j.oldManifest), view);
    StagingDependsOnTargets(view, j, old(disk.s), disk.s);
    var ok4 := WriteMember(disk, ManifestNew, Blob(j.newManifest), view);
    StagingDependsOnTargets(view, j, old(disk.s), disk.s);
    var ok5 := WriteMember(disk, JournalFile, JournalText(j), view);
    ok := ok1 && ok2 && ok3 && ok4 && ok5;
  }

  lemma StagingDependsOnTargets(view: View, t: Journal, was: DiskState, s: DiskState)
    requires s.review == was.review && s.manifest == was.manifest
    ensures MayStage(view, t, was) ==> MayStage(view, t, s)
  {
  }

  method SyncStaged(disk: Disk, j: Journal, ghost view: View) returns (ok: bool)
    modifies disk
    ensures TargetsUntouched(disk) && Untroubled(disk, ok)
    ensures forall m :: At(disk.s, m).live == old(At(disk.s, m)).live
    ensures ok && old(Complete(j, disk.s)) ==> Staged(j, disk.s)
    ensures old(disk.Calm()) ==> ok
    ensures old(Safe(view, disk)) ==> Safe(view, disk)
  {
    hide Guarded, At;
    if Safe(view, disk) {
      MemberSyncKeepsGuard(view, disk.begun, disk.s);
    }
    SyncSettlesMembers(disk.s);
    ok := disk.SyncMembers();
    if !ok {
      return;
    }
    if Safe(view, disk) {
      ParentSyncKeepsGuard(view, disk.begun, disk.s);
    }
    DirectoryStepsKeepMembers(disk.s);
    ok := disk.SyncParent();
  }

  lemma StagingMayClean(view: View, t: Journal, s: DiskState)
    requires MayStage(view, t, s)
    ensures MayClean(view, t, s)
  {
  }

  // Writes the five staged files into a new directory and makes them durable.
  method Prepare(disk: Disk, j: Journal, ghost view: View) returns (ok: bool)
    modifies disk
    ensures TargetsUntouched(disk) && Untroubled(disk, ok)
    ensures ok ==> Staged(j, disk.s)
    ensures ok && old(NoStrays(disk.s)) ==> NoStrays(disk.s)
    ensures !CrashSafe(disk.begun, old(disk.s)) ==> Spoiled(disk)
    ensures old(disk.Calm() && !disk.s.directory.live && NothingStaged(disk.s)) ==> ok
    ensures old(Safe(view, disk) && MayStage(view, j, disk.s)) && old(disk.begun) == j ==> Safe(view, disk)
  {
    hide Guarded, At, Staged, MayStage, MayClean, Written, CrashSafe;
    ghost var may := Safe(view, disk) && MayStage(view, j, disk.s) && disk.begun == j;
    ok := OpenDirectory(disk, view);
    if !ok {
      return;
    }
    StagingDependsOnTargets(view, j, old(disk.s), disk.s);
    ok := StageAll(disk, j, view);
    if ok {
      ok := SyncStaged(disk, j, view);
    }
    if !ok {
      if may {
        StagingDependsOnTargets(view, j, old(disk.s), disk.s);
        StagingMayClean(view, j, disk.s);
      }
      var _ := CleanUp(disk, view);
    }
  }
}
