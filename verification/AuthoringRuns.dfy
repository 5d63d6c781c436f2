/** Any run of authoring commands, with failing steps, killed processes and machine stops in between;
    and where a command must not start. */
module AuthoringRuns {
  import opened AuthoringDisk
  import opened RealismTransaction
  import opened AuthoringCommand

  datatype Request = Request(
    name: string, catalog: CatalogAnswer, authored: Option<Authored>, verified: Option<Authored>)

  // ---------------------------------------------------------------------------------------
  // As running processes read the files
  // ---------------------------------------------------------------------------------------

  // Whatever commands are started one after another, whatever steps of them fail, and whenever the
  // process is killed, everything any process ever reads is an allowed pair, a half-done one with
  // its journal.
  method AnyRunAsRead(disk: Disk, requests: seq<Request>)
    requires Safe(AsRead, disk)
    modifies disk
    ensures Safe(AsRead, disk)
  {
    hide Guarded;
    for i := 0 to |requests|
      invariant Safe(AsRead, disk)
    {
      var q := requests[i];
      disk.running := true;
      var _ := AuthorEvidence(disk, q.name, q.catalog, q.authored, q.verified, AsRead);
    }
  }

  // ---------------------------------------------------------------------------------------
  // As any crash may leave the files
  // ---------------------------------------------------------------------------------------

  // A command, and whether the machine stops after it.
  datatype Round = Round(q: Request, stops: bool)

  // Every command that was started found a disk on which it may start.
  ghost predicate StartedWell(starts: seq<Moment>) {
    forall k :: 0 <= k < |starts| ==> MayStart(starts[k].begun, starts[k].state)
  }

  // Whatever steps fail, and whenever processes are killed and the machine stops: as long as every
  // command starts where it may, everything a crash may leave, at every step, is an allowed pair, a
  // half-done one with its journal. In particular when no step fails, or when each command is
  // followed by a stop.
  method AnyRunWithCrashes(disk: Disk, rounds: seq<Round>)
    requires Safe(AsLeftByACrash, disk)
    modifies disk
    ensures |disk.starts| == |old(disk.starts)| + |rounds| && old(disk.starts) <= disk.starts
    ensures StartedWell(disk.starts[|old(disk.starts)|..]) ==> Safe(AsLeftByACrash, disk)
    ensures old(TargetsSettled(disk.s))
            && ((forall i :: 0 <= i < |rounds| ==> rounds[i].stops) || disk.troubles == old(disk.troubles)) ==>
              Safe(AsLeftByACrash, disk)
  {
    hide Guarded, MaySettle, MayStart, TargetsSettled;
    ghost var n := |disk.starts|;
    for i := 0 to |rounds|
      invariant |disk.starts| == n + i && old(disk.starts) <= disk.starts && disk.troubles >= old(disk.troubles)
      invariant StartedWell(disk.starts[n..]) ==> Safe(AsLeftByACrash, disk)
      invariant old(TargetsSettled(disk.s))
                && ((forall k :: 0 <= k < i ==> rounds[k].stops) || disk.troubles == old(disk.troubles)) ==>
                  Safe(AsLeftByACrash, disk) && TargetsSettled(disk.s)
    {
      ghost var starts, found := disk.starts[n..], Moment(disk.s, disk.begun);
      if Safe(AsLeftByACrash, disk) && TargetsSettled(disk.s) {
        SettledMayStart(disk.begun, disk.s);
      }
      PlayRound(disk, rounds[i]);
      assert disk.starts[n..] == starts + [found];
      if StartedWell(starts + [found]) {
        StartedOneByOne(starts, found);
      }
    }
  }

  lemma StartedOneByOne(starts: seq<Moment>, found: Moment)
    requires StartedWell(starts + [found])
    ensures StartedWell(starts) && MayStart(found.begun, found.state)
  {
    forall k | 0 <= k < |starts| ensures MayStart(starts[k].begun, starts[k].state) {
      assert starts[k] == (starts + [found])[k];
    }
    assert (starts + [found])[|starts|] == found;
  }

  // One command in a new process, and a stop of the machine or not.
  method PlayRound(disk: Disk, round: Round)
    modifies disk
    ensures disk.starts == old(disk.starts + [Moment(disk.s, disk.begun)]) && disk.troubles >= old(disk.troubles)
    ensures old(Safe(AsLeftByACrash, disk) && MayStart(disk.begun, disk.s)) ==> Safe(AsLeftByACrash, disk)
    ensures round.stops || (disk.troubles == old(disk.troubles) && old(TargetsSettled(disk.s))) ==>
              TargetsSettled(disk.s)
  {
    hide Guarded, MaySettle, MayStart, TargetsSettled;
    disk.running := true;
    var q := round.q;
    var _ := AuthorEvidence(disk, q.name, q.catalog, q.authored, q.verified, AsLeftByACrash);
    if round.stops {
      ghost var before, safe := disk.s, Safe(AsLeftByACrash, disk);
      if safe {
        GuardedIsSound(AsLeftByACrash, disk.begun, before);
      }
      disk.Crash();
      if safe {
        StopKeepsGuard(disk.begun, before, disk.s);
      }
    }
  }

  lemma UntouchedIsGuarded(view: View, review: Bytes, manifest: Bytes)
    ensures Guarded(view, NothingBegun(review, manifest), Untouched(review, manifest))
    ensures TargetsSettled(Untouched(review, manifest))
  {
  }

  // From two files that no transaction has touched, any run of commands, failing steps and machine
  // stops keeps every possible disk state safe, at every step, if every command starts where it may;
  // and so it does if no step fails, or if each command is followed by a stop.
  method AnyRunFromUntouchedFiles(
    sharedParent: bool, review: Bytes, manifest: Bytes, fates: seq<Fate>, rounds: seq<Round>)
    returns (disk: Disk)
    ensures fresh(disk) && |disk.starts| == |rounds|
    ensures StartedWell(disk.starts) ==> Safe(AsLeftByACrash, disk)
    ensures (forall i :: 0 <= i < |rounds| ==> rounds[i].stops) || disk.troubles == 0 ==> Safe(AsLeftByACrash, disk)
  {
    hide Guarded;
    disk := new Disk(sharedParent, review, manifest, fates);
    UntouchedIsGuarded(AsLeftByACrash, review, manifest);
    AnyRunWithCrashes(disk, rounds);
    assert disk.starts[0..] == disk.starts;
  }

  // ---------------------------------------------------------------------------------------
  // Where a command must not start
  // ---------------------------------------------------------------------------------------

  // Recovery does not synchronise the review before it moves the manifest forward. That step is
  // safe exactly when the review cannot fall back to its old bytes any more.
  lemma {:induction false} RollingForwardIsSafeExactlyWhenReviewIsDurable(t: Journal, s: DiskState)
    requires Guarded(AsLeftByACrash, t, s) && HalfDone(t, s) && t.oldManifest != t.newManifest
    ensures CrashSafe(t, TargetReplaced(s, Manifest, t.newManifest)) <==> t.oldReview !in s.review.possible
  {
    var after := TargetReplaced(s, Manifest, t.newManifest);
    assert t.newManifest in after.manifest.possible && s.manifest.live in s.manifest.possible;
    if t.oldReview !in s.review.possible {
      forall r, m | r in after.review.possible && m in after.manifest.possible ensures Allowed(t, r, m) {
        assert Allowed(t, r, s.manifest.live);
        if m != t.newManifest {
          assert Allowed(t, r, m);
        }
      }
    }
  }

  // The condition on a start cannot be weakened. On every safe disk that does not meet it, a command
  // none of whose steps fails takes a step that leaves an unguarded state, for these answers of the
  // catalog and of authoring.
  method StartingElsewhereSpoils(disk: Disk, request: string, authored: Authored)
    requires Safe(AsLeftByACrash, disk) && !MayStart(disk.begun, disk.s)
    requires disk.Calm() && NoStrays(disk.s)
    requires request == disk.begun.request && authored == Provocation(disk.begun, disk.s)
    modifies disk
    ensures Spoiled(disk)
  {
    hide Guarded, MayStart, NoStrays, Provocation;
    var _ := AuthorEvidence(disk, request, NoRevision, Some(authored), Some(authored), AsLeftByACrash);
  }

  // ---------------------------------------------------------------------------------------
  // Such starts are reached when a process is killed between moving a target and synchronising it
  // ---------------------------------------------------------------------------------------

  // A disk on which nothing fails, and whose transaction directory holds only the transaction.
  ghost predicate Smooth(t: Journal, disk: Disk)
    reads disk
  {
    && Safe(AsLeftByACrash, disk) && disk.Calm() && disk.begun == t
    && NoStrays(disk.s) && Staged(t, disk.s)
  }

  // Begins a transaction over its old files.
  method BeginOver(sharedParent: bool, t: Journal) returns (disk: Disk)
    requires Changes(t)
    ensures fresh(disk) && Smooth(t, disk)
    ensures TargetsSettled(disk.s) && TargetsAre(disk.s, t.oldReview, t.oldManifest)
  {
    hide Guarded, MayStage, Staged;
    disk := new Disk(sharedParent, t.oldReview, t.oldManifest, []);
    UntouchedIsGuarded(AsLeftByACrash, t.oldReview, t.oldManifest);
    BeginningIsGuarded(AsLeftByACrash, disk.begun, t, disk.s);
    assert NothingStaged(disk.s);
    disk.begun := t;
    var _ := Prepare(disk, t, AsLeftByACrash);
  }

  // Replaces a target like any replacement, but for the synchronisation after the move.
  method MoveAndBeKilled(disk: Disk, t: Journal, which: Target, bytes: Bytes)
    requires Smooth(t, disk) && MayReplace(AsLeftByACrash, t, disk.s, which, bytes)
    modifies disk
    ensures Smooth(t, disk)
    ensures TargetCell(disk.s, which) == Put(old(TargetCell(disk.s, which)), bytes)
    ensures TargetCell(disk.s, Other(which)) == old(TargetCell(disk.s, Other(which)))
  {
    hide Guarded, Staged, MayReplace;
    var _ := disk.Check();
    ghost var was := disk.s;
    var _ := CopyBeside(disk, which, bytes, AsLeftByACrash);
    CopyKeeps(t, was, disk.s, which);
    var _ := disk.Check();
    ReplacingTransfersMay(AsLeftByACrash, t, was, disk.s, which, bytes);
    ReplacingKeepsGuard(AsLeftByACrash, t, disk.s, which, bytes);
    MovableCopy(disk.s, which, bytes);
    ghost var beside := disk.s;
    var ok, moved := disk.Rename(which);
    MoveKeeps(t, beside, which, moved);
  }

  lemma CopyKeeps(t: Journal, was: DiskState, s: DiskState, which: Target)
    requires Copied(was, s, which)
    ensures (NoStrays(was) ==> NoStrays(s)) && (Staged(t, was) ==> Staged(t, s))
  {
  }

  lemma MoveKeeps(t: Journal, was: DiskState, which: Target, bytes: Bytes)
    ensures var s := TargetReplaced(was, which, bytes);
            (NoStrays(was) ==> NoStrays(s)) && (Staged(t, was) ==> Staged(t, s))
  {
    OneMemberChanges(was, ApplyMember(which), None);
    assert forall m :: At(TargetReplaced(was, which, bytes), m) == At(WithMember(was, ApplyMember(which), None), m);
  }

  method MoveAndSynchronise(disk: Disk, t: Journal, which: Target, bytes: Bytes)
    requires Smooth(t, disk) && MayReplace(AsLeftByACrash, t, disk.s, which, bytes)
    modifies disk
    ensures Smooth(t, disk) && TargetCell(disk.s, which) == Cell(bytes, {bytes})
    ensures Replacing(old(disk.s), disk.s, which, bytes)
  {
    hide Guarded, Staged, MayReplace, Replacing;
    ghost var was := disk.s;
    var _ := ReplaceTarget(disk, which, bytes, AsLeftByACrash);
    ReplacingKeepsStaged(AsLeftByACrash, t, was, disk.s, which, bytes);
    ReplacingKeepsStrays(was, disk.s, which, bytes);
  }

  lemma ReplacingKeepsStrays(was: DiskState, s: DiskState, which: Target, bytes: Bytes)
    requires NoStrays(was) && Replacing(was, s, which, bytes)
    ensures NoStrays(s)
  {
  }

  // Killed while the review was being committed: the next recovery makes a new manifest beside a
  // review that may still be old.
  method KilledCommittingTheReview(sharedParent: bool, t: Journal) returns (disk: Disk)
    requires t.oldReview != t.newReview && t.oldManifest != t.newManifest
    ensures fresh(disk) && Smooth(t, disk)
    ensures HalfDone(t, disk.s) && !MayStart(t, disk.s)
  {
    hide Guarded;
    disk := BeginOver(sharedParent, t);
    MayCommitReview(AsLeftByACrash, t, disk.s);
    MoveAndBeKilled(disk, t, Review, t.newReview);
  }

  // Killed while the manifest was being committed: the next command takes the pair for final and
  // throws the journal away, though the manifest may still be old.
  method KilledCommittingTheManifest(sharedParent: bool, t: Journal) returns (disk: Disk)
    requires t.oldReview != t.newReview && t.oldManifest != t.newManifest
    ensures fresh(disk) && Smooth(t, disk)
    ensures TakenForFinal(t, disk.s) && !MayStart(t, disk.s)
  {
    hide Guarded;
    disk := BeginOver(sharedParent, t);
    MayCommitReview(AsLeftByACrash, t, disk.s);
    MoveAndSynchronise(disk, t, Review, t.newReview);
    MayCommitManifest(AsLeftByACrash, t, disk.s);
    MoveAndBeKilled(disk, t, Manifest, t.newManifest);
  }

  // Killed while the review was being restored: the next recovery throws the journal of an old pair
  // away, though the review may still be new.
  method KilledRestoringTheReview(sharedParent: bool, t: Journal) returns (disk: Disk)
    requires t.oldReview != t.newReview && t.oldManifest != t.newManifest
    ensures fresh(disk) && Smooth(t, disk)
    ensures Complete(t, disk.s) && EqualityOf(t, disk.s).IsOld() && !MayStart(t, disk.s)
  {
    hide Guarded;
    disk := BeginOver(sharedParent, t);
    MayCommitReview(AsLeftByACrash, t, disk.s);
    MoveAndSynchronise(disk, t, Review, t.newReview);
    GuardedIsSound(AsLeftByACrash, t, disk.s);
    MayRestoreReview(AsLeftByACrash, t, disk.s);
    MoveAndBeKilled(disk, t, Review, t.oldReview);
  }

  datatype Killed = CommittingTheReview | CommittingTheManifest | RestoringTheReview

  // So from two untouched files, a transaction that changes both, a process killed at any of these
  // three places, and one more command none of whose steps fails, are enough to spoil the disk.
  method KilledProcessesSpoil(sharedParent: bool, t: Journal, killed: Killed) returns (disk: Disk)
    requires t.oldReview != t.newReview && t.oldManifest != t.newManifest
    ensures fresh(disk) && Spoiled(disk)
  {
    hide Guarded, NoStrays, Staged, MayStart;
    var authored: Authored;
    match killed {
      case CommittingTheReview =>
        disk := KilledCommittingTheReview(sharedParent, t);
        authored := Disturbance(disk.s);
      case CommittingTheManifest =>
        disk := KilledCommittingTheManifest(sharedParent, t);
        authored := Confirmation(t);
      case RestoringTheReview =>
        disk := KilledRestoringTheReview(sharedParent, t);
        authored := Disturbance(disk.s);
    }
    StartingElsewhereSpoils(disk, t.request, authored);
  }
}
