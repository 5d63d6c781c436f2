/** The disk under the authoring transaction: two target files, and the transaction directory with
    its members. A step that is not yet synchronised may be kept or lost when the machine stops. */
module AuthoringDisk {

  type Bytes = seq<int>

  datatype Option<+T> = None | Some(value: T)

  // `live` is what a running process reads; `possible` is everything a crash may leave.
  datatype Cell<T> = Cell(live: T, possible: set<T>)

  function Put<T>(c: Cell<T>, value: T): Cell<T> {
    Cell(value, c.possible + {value})
  }

  function Settled<T>(c: Cell<T>): Cell<T> {
    Cell(c.live, {c.live})
  }

  // The journal names the four staged files by digest; a digest stands for the bytes it was made of.
  datatype Journal = Journal(
    request: string, revision: string,
    oldReview: Bytes, newReview: Bytes, oldManifest: Bytes, newManifest: Bytes)

  datatype Content = Blob(bytes: Bytes) | JournalText(journal: Journal)

  datatype Member =
    | ReviewOld
    | ReviewNew
    | ManifestOld
    | ManifestNew
    | JournalFile
    | ReviewApply
    | ManifestApply
    | Stray(name: string)

  datatype Target = Review | Manifest

  datatype DiskState = DiskState(
    review: Cell<Bytes>,
    manifest: Cell<Bytes>,
    directory: Cell<bool>,
    members: map<Member, Cell<Option<Content>>>)

  function At(s: DiskState, m: Member): Cell<Option<Content>> {
    if m in s.members then s.members[m] else Cell(None, {None})
  }

  function TargetCell(s: DiskState, which: Target): Cell<Bytes> {
    if which == Review then s.review else s.manifest
  }

  function Other(which: Target): Target {
    if which == Review then Manifest else Review
  }

  function ApplyMember(which: Target): Member {
    if which == Review then ReviewApply else ManifestApply
  }

  // ---------------------------------------------------------------------------------------
  // The effect of one step
  // ---------------------------------------------------------------------------------------

  function WithMember(s: DiskState, m: Member, content: Option<Content>): DiskState {
    s.(members := s.members[m := Put(At(s, m), content)])
  }

  function MembersSynced(s: DiskState): DiskState {
    s.(members := map m | m in s.members :: Settled(s.members[m]))
  }

  function ParentSynced(s: DiskState): DiskState {
    s.(directory := Settled(s.directory))
  }

  function DirectoryMade(s: DiskState): DiskState {
    s.(directory := Put(s.directory, true))
  }

  function DirectoryRemoved(s: DiskState): DiskState {
    s.(directory := Put(s.directory, false))
  }

  function TargetReplaced(s: DiskState, which: Target, bytes: Bytes): DiskState {
    var moved := WithMember(s, ApplyMember(which), None);
    if which == Review then moved.(review := Put(s.review, bytes)) else moved.(manifest := Put(s.manifest, bytes))
  }

  // Synchronising a target's parent covers both targets when they share it.
  function TargetSynced(s: DiskState, which: Target, sharedParent: bool): DiskState {
    if sharedParent then s.(review := Settled(s.review), manifest := Settled(s.manifest))
    else if which == Review then s.(review := Settled(s.review))
    else s.(manifest := Settled(s.manifest))
  }

  predicate DirectoryIsEmpty(s: DiskState) {
    forall m :: m in s.members ==> s.members[m].live == None
  }

  predicate HoldsBytes(s: DiskState, m: Member) {
    At(s, m).live.Some? && At(s, m).live.value.Blob?
  }

  // What may be found after the machine stopped in state `s`.
  ghost predicate MaySettle(s: DiskState, after: DiskState) {
    && after.review.live in s.review.possible && after.review == Settled(after.review)
    && after.manifest.live in s.manifest.possible && after.manifest == Settled(after.manifest)
    && after.directory.live in s.directory.possible && after.directory == Settled(after.directory)
    && (forall m :: At(after, m) == Settled(At(after, m)))
    && (forall m ::
          if after.directory.live then At(after, m).live in At(s, m).possible else At(after, m).live == None)
  }

  ghost predicate Sound(s: DiskState) {
    && s.review.live in s.review.possible && s.manifest.live in s.manifest.possible
    && s.directory.live in s.directory.possible
    && forall m :: At(s, m).live in At(s, m).possible
  }

  // One of the values a cell may be left with.
  method PickFrom<T(==)>(c: Cell<T>) returns (value: T)
    ensures c.live in c.possible ==> value in c.possible
  {
    value := c.live;
    if c.possible != {} {
      value :| value in c.possible;
    }
  }

  predicate TargetsSettled(s: DiskState) {
    s.review == Settled(s.review) && s.manifest == Settled(s.manifest)
  }

  // ---------------------------------------------------------------------------------------
  // The disk as a process uses it
  // ---------------------------------------------------------------------------------------

  // Every step either works, or fails and changes nothing, or never happens because the process was
  // killed or the machine stopped; after that no step of this process has any effect.
  datatype Fate = Works | Fails | Stops

  function Untouched(review: Bytes, manifest: Bytes): DiskState {
    DiskState(Cell(review, {review}), Cell(manifest, {manifest}), Cell(false, {false}), map[])
  }

  function NothingBegun(review: Bytes, manifest: Bytes): Journal {
    Journal("", "", review, review, manifest, manifest)
  }

  // A state the disk went through, and the transaction last begun by then.
  datatype Moment = Moment(state: DiskState, begun: Journal)

  class Disk {
    const sharedParent: bool
    var s: DiskState
    var running: bool
    // What becomes of the next steps; the steps after these work.
    var fates: seq<Fate>
    ghost var begun: Journal
    ghost var trace: seq<Moment>
    // Where each command found the disk.
    ghost var starts: seq<Moment>
    ghost var troubles: nat

    // Two files and no transaction directory. Nothing has been begun: the ghost journal changes nothing.
    constructor (sharedParent: bool, review: Bytes, manifest: Bytes, fates: seq<Fate>)
      ensures this.sharedParent == sharedParent && s == Untouched(review, manifest) && running && this.fates == fates
      ensures begun == NothingBegun(review, manifest) && trace == [] && starts == [] && troubles == 0
    {
      this.sharedParent := sharedParent;
      s, running, this.fates := Untouched(review, manifest), true, fates;
      begun, trace, starts, troubles := NothingBegun(review, manifest), [], [], 0;
    }

    // From here on every step works, unless what it finds is in its way.
    ghost predicate Calm()
      reads this
    {
      running && fates == []
    }

    // No disk state was added.
    twostate predicate Unmoved()
      reads this
    {
      && s == old(s) && begun == old(begun) && trace == old(trace) && starts == old(starts)
      && (running ==> old(running)) && troubles >= old(troubles)
      && (old(Calm()) ==> Calm())
    }

    // One step: its full effect if it worked, none if it did not.
    twostate predicate Stepped(ok: bool, after: DiskState)
      reads this
    {
      && s == (if ok then after else old(s))
      && begun == old(begun) && starts == old(starts)
      && trace == old(trace) + [Moment(s, begun)]
      && (running ==> old(running)) && (ok ==> running)
      && troubles >= old(troubles) && (!ok ==> troubles > old(troubles))
      && (old(Calm()) ==> Calm())
    }

    method Decree() returns (works: bool)
      modifies this`running, this`troubles, this`fates
      ensures works ==> old(running) && running && troubles == old(troubles)
      ensures !works ==> troubles > old(troubles)
      ensures running ==> old(running)
      ensures old(Calm()) ==> works && Calm()
    {
      var fate := Works;
      if fates != [] {
        fate, fates := fates[0], fates[1..];
      }
      works := running && fate == Works;
      if fate == Stops {
        running := false;
      }
      if !works {
        troubles := troubles + 1;
      }
    }

    // An identity or permission check: it may fail, and changes nothing.
    method Check() returns (ok: bool)
      modifies this
      ensures Unmoved() && (ok ==> running) && (!ok ==> troubles > old(troubles))
      ensures old(Calm()) ==> ok
    {
      ok := Decree();
    }

    method ReadTarget(which: Target) returns (r: Option<Bytes>)
      modifies this
      ensures Unmoved() && (r.Some? ==> running && r.value == TargetCell(s, which).live)
      ensures r.None? ==> troubles > old(troubles)
      ensures old(Calm()) ==> r.Some?
    {
      var works := Decree();
      r := if works then Some(TargetCell(s, which).live) else None;
    }

    method DirectoryExists() returns (r: Option<bool>)
      modifies this
      ensures Unmoved() && (r.Some? ==> running && r.value == s.directory.live)
      ensures r.None? ==> troubles > old(troubles)
      ensures old(Calm()) ==> r.Some?
    {
      var works := Decree();
      r := if works then Some(s.directory.live) else None;
    }

    method ReadMember(m: Member) returns (r: Option<Option<Content>>)
      modifies this
      ensures Unmoved() && (r.Some? ==> running && r.value == At(s, m).live)
      ensures r.None? ==> troubles > old(troubles)
      ensures old(Calm()) ==> r.Some?
    {
      var works := Decree();
      r := if works then Some(At(s, m).live) else None;
    }

    method ListMembers() returns (r: Option<set<Member>>)
      modifies this
      ensures Unmoved() && (r.Some? ==> running && forall m :: m in r.value <==> At(s, m).live != None)
      ensures r.None? ==> troubles > old(troubles)
      ensures old(Calm()) ==> r.Some?
    {
      var works := Decree();
      r := if works then Some(set m | m in s.members && s.members[m].live != None) else None;
    }

    // Creating a member leaves arbitrary bytes in it until they are all written.
    method CreateMember(m: Member) returns (ok: bool, torn: Bytes)
      modifies this
      ensures Stepped(ok, WithMember(old(s), m, Some(Blob(torn))))
      ensures ok ==> old(At(s, m)).live == None
      ensures old(Calm()) && old(At(s, m)).live == None ==> ok
    {
      torn := *;
      ok := Decree();
      if ok && At(s, m).live != None {
        ok := false;
        troubles := troubles + 1;
      }
      if ok {
        s := WithMember(s, m, Some(Blob(torn)));
      }
      trace := trace + [Moment(s, begun)];
    }

    method FillMember(m: Member, content: Content) returns (ok: bool)
      modifies this
      ensures Stepped(ok, WithMember(old(s), m, Some(content)))
      ensures old(Calm()) ==> ok
    {
      ok := Decree();
      if ok {
        s := WithMember(s, m, Some(content));
      }
      trace := trace + [Moment(s, begun)];
    }

    method Unlink(m: Member) returns (ok: bool)
      modifies this
      ensures Stepped(ok, WithMember(old(s), m, None))
      ensures old(Calm()) ==> ok
    {
      ok := Decree();
      if ok {
        s := WithMember(s, m, None);
      }
      trace := trace + [Moment(s, begun)];
    }

    method SyncMembers() returns (ok: bool)
      modifies this
      ensures Stepped(ok, MembersSynced(old(s)))
      ensures old(Calm()) ==> ok
    {
      ok := Decree();
      if ok {
        s := MembersSynced(s);
      }
      trace := trace + [Moment(s, begun)];
    }

    method SyncParent() returns (ok: bool)
      modifies this
      ensures Stepped(ok, ParentSynced(old(s)))
      ensures old(Calm()) ==> ok
    {
      ok := Decree();
      if ok {
        s := ParentSynced(s);
      }
      trace := trace + [Moment(s, begun)];
    }

    method SyncTarget(which: Target) returns (ok: bool)
      modifies this
      ensures Stepped(ok, TargetSynced(old(s), which, sharedParent))
      ensures old(Calm()) ==> ok
    {
      ok := Decree();
      if ok {
        s := TargetSynced(s, which, sharedParent);
      }
      trace := trace + [Moment(s, begun)];
    }

    method MakeDirectory() returns (ok: bool)
      modifies this
      ensures Stepped(ok, DirectoryMade(old(s)))
      ensures ok ==> !old(s).directory.live
      ensures old(Calm()) && !old(s).directory.live ==> ok
    {
      ok := Decree();
      if ok && s.directory.live {
        ok := false;
        troubles := troubles + 1;
      }
      if ok {
        s := DirectoryMade(s);
      }
      trace := trace + [Moment(s, begun)];
    }

    method RemoveDirectory() returns (ok: bool)
      modifies this
      ensures Stepped(ok, DirectoryRemoved(old(s)))
      ensures ok ==> DirectoryIsEmpty(old(s))
      ensures old(Calm()) && DirectoryIsEmpty(old(s)) ==> ok
    {
      ok := Decree();
      if ok && !(forall m :: m in s.members ==> s.members[m].live == None) {
        ok := false;
        troubles := troubles + 1;
      }
      if ok {
        s := DirectoryRemoved(s);
      }
      trace := trace + [Moment(s, begun)];
    }

    // Moves the staged copy over the target, in one step.
    method Rename(which: Target) returns (ok: bool, bytes: Bytes)
      modifies this
      ensures Stepped(ok, TargetReplaced(old(s), which, bytes))
      ensures ok ==> old(At(s, ApplyMember(which))).live == Some(Blob(bytes))
      ensures old(Calm()) && HoldsBytes(old(s), ApplyMember(which)) ==> ok
    {
      var staged := At(s, ApplyMember(which)).live;
      bytes := [];
      ok := Decree();
      if ok {
        match staged {
          case Some(Blob(b)) =>
            bytes := b;
            s := TargetReplaced(s, which, b);
          case _ =>
            ok := false;
            troubles := troubles + 1;
        }
      }
      trace := trace + [Moment(s, begun)];
    }

    // The machine stops and a new process finds one of the states that may be left.
    method Crash()
      modifies this
      ensures Sound(old(s)) ==> MaySettle(old(s), s)
      ensures running && begun == old(begun) && troubles == old(troubles) && fates == old(fates)
      ensures starts == old(starts)
      ensures TargetsSettled(s)
      ensures trace == old(trace) + [Moment(s, begun)]
    {
      ghost var before := s;
      var review := PickFrom(s.review);
      var manifest := PickFrom(s.manifest);
      var directory := s.directory.live;
      var flips: bool := *;
      if flips && !directory in s.directory.possible {
        directory := !directory;
      }
      var members := map[];
      if directory {
        members := PickMembers(s.members);
        assert Sound(before) ==> forall m :: m in members ==> At(before, m).live in At(before, m).possible;
      }
      s := DiskState(Cell(review, {review}), Cell(manifest, {manifest}), Cell(directory, {directory}), members);
      running := true;
      trace := trace + [Moment(s, begun)];
    }
  }

  method PickMembers(cells: map<Member, Cell<Option<Content>>>) returns (members: map<Member, Cell<Option<Content>>>)
    ensures members.Keys == cells.Keys
    ensures forall m :: m in members ==> members[m] == Settled(members[m])
    ensures forall m :: m in cells && cells[m].live in cells[m].possible ==> members[m].live in cells[m].possible
  {
    members := map[];
    var rest := cells.Keys;
    while rest != {}
      invariant rest <= cells.Keys && members.Keys == cells.Keys - rest
      invariant forall m :: m in members ==> members[m] == Settled(members[m])
      invariant forall m :: m in members && cells[m].live in cells[m].possible ==>
                  members[m].live in cells[m].possible
      decreases |rest|
    {
      var m :| m in rest;
      var content := PickFrom(cells[m]);
      members := members[m := Cell(content, {content})];
      rest := rest - {m};
    }
  }
}
