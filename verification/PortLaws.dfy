/**
 What making a snapshot and transferring it does, told by where subvolumes lie and what they are: when
 each succeeds, what it adds, and what is lost or left behind when it fails.
 */
module PortLaws {
  import opened Wrappers
  import opened Naming
  import opened Model
  import opened Service
  import opened DatedSnapshots

  /** Nothing on the host lies in the directory under this name. */
  ghost predicate Free(w: World, dir: Path, name: string) {
    && (forall s :: s in w.source ==> !LiesIn(s, dir, name))
    && (forall s :: s in w.target ==> !LiesIn(s, dir, name))
  }

  /** A subvolume the kernel made in this directory. */
  ghost predicate MadeIn(s: Subvolume, site: Site, name: string, a: Assigned) {
    && LiesIn(s, site.Directory(), name) && s.path.FileName() == Some(name) && s.fsUuid == site.fsUuid
    && s.id == a.id && s.uuid == Some(a.uuid) && s.parentUuid == a.parentUuid
    && s.generation == a.generation && s.cgen == a.cgen
  }

  /** Writable and received from nowhere. */
  ghost predicate LooksBroken(s: Subvolume) { !s.readonly && s.receivedUuid == None }

  lemma AtEntry(s: Subvolume, site: Site, name: string)
    ensures s.FullPath() == site.mountpoint.Join(site.Entry(name)) <==> LiesIn(s, site.Directory(), name)
  {
    assert site.mountpoint.parts + (site.dir + [name]) == site.mountpoint.parts + site.dir + [name];
  }

  lemma AllAtEntry(w: World, site: Site, name: string)
    ensures TakenOnHost(w, site.mountpoint.Join(site.Entry(name))) <==> !Free(w, site.Directory(), name)
    ensures Taken(w.target, site.mountpoint.Join(site.Entry(name)))
       <==> exists s :: s in w.target && LiesIn(s, site.Directory(), name)
    ensures Taken(w.source, site.mountpoint.Join(site.Entry(name)))
       <==> exists s :: s in w.source && LiesIn(s, site.Directory(), name)
  {
    forall s: Subvolume
      ensures s.FullPath() == site.mountpoint.Join(site.Entry(name)) <==> LiesIn(s, site.Directory(), name)
    {
      AtEntry(s, site, name);
    }
  }

  lemma NewIsMade(site: Site, name: string, a: Assigned, receivedUuid: Option<Uuid>, readonly: bool)
    requires name != ".."
    ensures MadeIn(NewSubvolume(site, name, a, receivedUuid, readonly), site, name, a)
  {
    AtEntry(NewSubvolume(site, name, a, receivedUuid, readonly), site, name);
  }

  // ---------------------------------------------------------------------------
  // The transfer
  // ---------------------------------------------------------------------------

  /** What the transfer takes away: something that looks broken at the receive path, if its deletion works. */
  ghost predicate Loses(dir: Path, leaf: string, answer: TransferAnswer, s: Subvolume) {
    LiesIn(s, dir, leaf) && LooksBroken(s) && (answer.Broken? ==> answer.cleans)
  }

  /** What it adds: the copy, or what a broken receive leaves and the cleanup does not delete. */
  ghost predicate Adds(job: Job, snapshot: Subvolume, leaf: string, answer: TransferAnswer, b: Subvolume) {
    match answer
    case Received(a) => MadeIn(b, job.target, leaf, a) && b.readonly && b.receivedUuid == snapshot.uuid
    case Broken(None, _) => false
    case Broken(Some(l), cleans) =>
      && MadeIn(b, job.target, leaf, l.made) && b.readonly == l.readonly && b.receivedUuid == l.receivedUuid
      && !(LooksBroken(b) && cleans)
  }

  /** Whether a broken receive leaves anything. */
  predicate LeavesSome(answer: TransferAnswer) {
    match answer
    case Received(_) => true
    case Broken(None, _) => false
    case Broken(Some(l), cleans) => l.readonly || l.receivedUuid.Some? || !cleans
  }

  lemma Cleared(w: World, job: Job, leaf: string, s: Subvolume)
    ensures
      var path := job.target.mountpoint.Join(job.target.Entry(leaf));
      var gone := LiesIn(s, job.target.Directory(), leaf) && LooksBroken(s);
      && (s in ClearGarbled(w, path).source <==> s in w.source && !gone)
      && (s in ClearGarbled(w, path).target <==> s in w.target && !gone)
  {
    AtEntry(s, job.target, leaf);
  }

  /**
   A transfer succeeds if and only if the stream arrives whole at a free path and the snapshot has a uuid to
   be recognised by. At a taken path it fails, and all that can be lost is what looks like a broken receive
   there.
   */
  lemma TransferOutcome(w: World, job: Job, snapshot: Subvolume, answer: TransferAnswer, leaf: string)
    requires snapshot.path.FileName() == Some(leaf)
    ensures
      var (w', r) := TransferStep(w, job, snapshot, answer);
      var free := Free(w, job.target.Directory(), leaf);
      && (r.Ok? <==> free && answer.Received? && snapshot.uuid.Some?)
      && (r.Ok? ==> w'.target == w.target + [r.value])
      && (r.Err? ==> r.error == if free && answer.Received? then Verification else Command)
      && (free && LeavesSome(answer) ==>
            && w'.source == w.source && |w'.target| == |w.target| + 1 && w.target <= w'.target
            && Adds(job, snapshot, leaf, answer, w'.target[|w.target|]))
      && (free && !LeavesSome(answer) ==> w' == w)
      && (!free ==> forall s ::
            && (s in w'.source <==> s in w.source && !Loses(job.target.Directory(), leaf, answer, s))
            && (s in w'.target <==> s in w.target && !Loses(job.target.Directory(), leaf, answer, s)))
  {
    AllAtEntry(w, job.target, leaf);
    if Free(w, job.target.Directory(), leaf) {
      match answer {
        case Received(a) => NewIsMade(job.target, leaf, a, snapshot.uuid, true);
        case Broken(None, _) =>
        case Broken(Some(l), _) => NewIsMade(job.target, leaf, l.made, l.receivedUuid, l.readonly);
      }
    } else {
      forall s: Subvolume {
        Cleared(w, job, leaf, s);
      }
    }
  }

  /** A snapshot whose path has no name cannot be transferred. */
  lemma NamelessIsRefused(w: World, job: Job, snapshot: Subvolume, answer: TransferAnswer)
    requires snapshot.path.FileName() == None
    ensures TransferStep(w, job, snapshot, answer) == (w, Err(Command))
  {
  }

  // ---------------------------------------------------------------------------
  // The snapshot
  // ---------------------------------------------------------------------------

  /** The directory a subvolume of that name is. */
  function Inside(site: Site, name: string): Path {
    Path(site.Directory().absolute, site.Directory().parts + [name])
  }

  lemma AtInside(s: Subvolume, site: Site, name: string, inner: string)
    ensures s.FullPath() == site.mountpoint.Join(Path(false, site.dir + [name, inner]))
       <==> LiesIn(s, Inside(site, name), inner)
  {
    assert site.mountpoint.parts + (site.dir + [name, inner]) == site.mountpoint.parts + site.dir + [name] + [inner];
  }

  lemma AllInside(w: World, site: Site, name: string, inner: string)
    ensures TakenOnHost(w, site.mountpoint.Join(Path(false, site.dir + [name, inner])))
       <==> !Free(w, Inside(site, name), inner)
  {
    forall s: Subvolume
      ensures s.FullPath() == site.mountpoint.Join(Path(false, site.dir + [name, inner]))
         <==> LiesIn(s, Inside(site, name), inner)
    {
      AtInside(s, site, name, inner);
    }
  }

  lemma SealedAtEntry(w: World, site: Site, name: string)
    ensures SealedAt(w, site.mountpoint.Join(site.Entry(name)))
       <==> exists s :: s in w.source && s.readonly && LiesIn(s, site.Directory(), name)
  {
    forall s: Subvolume
      ensures s.FullPath() == site.mountpoint.Join(site.Entry(name)) <==> LiesIn(s, site.Directory(), name)
    {
      AtEntry(s, site, name);
    }
  }

  /** The path is taken by writable subvolumes of the source only, and inside there is room for the new one. */
  ghost predicate Nests(w: World, job: Job, leaf: string) {
    && (exists s :: s in w.source && LiesIn(s, job.source.Directory(), leaf))
    && (forall s :: s in w.source && LiesIn(s, job.source.Directory(), leaf) ==> !s.readonly)
    && (forall s :: s in w.target ==> !LiesIn(s, job.source.Directory(), leaf))
    && Free(w, Inside(job.source, leaf), job.sourceLeaf)
  }

  /** What btrfs makes: at the free path, or else inside what is there. */
  ghost predicate Makes(w: World, job: Job, leaf: string, answer: SnapshotAnswer, s: Subvolume)
    requires !answer.Refused?
  {
    && (if Free(w, job.source.Directory(), leaf) then MadeIn(s, job.source, leaf, answer.made)
        else LiesIn(s, Inside(job.source, leaf), job.sourceLeaf))
    && s.uuid == Some(answer.made.uuid) && s.receivedUuid == None && s.readonly == (answer.Created? || answer.readonly)
  }

  lemma EntryIsNotInside(w: World, job: Job, leaf: string)
    requires leaf != ".."
    ensures
      var at := job.source.mountpoint.Join(Path(false, SnapshotParts(w, job, leaf)));
      TakenOnHost(w, at) <==>
        if Free(w, job.source.Directory(), leaf) then false else !Free(w, Inside(job.source, leaf), job.sourceLeaf)
  {
    AllAtEntry(w, job.source, leaf);
    AllInside(w, job.source, leaf, job.sourceLeaf);
  }

  /**
   Making a snapshot succeeds if and only if the path is free and the new subvolume is seen to be read-only.
   A failed call may leave one behind: at the path, or inside a writable subvolume that stands there.
   */
  lemma SnapshotOutcome(w: World, job: Job, leaf: string, answer: SnapshotAnswer)
    requires leaf != ".."
    ensures
      var (w', r) := CreateStep(w, job, leaf, answer);
      && (r.Ok? <==> answer.Created? && Free(w, job.source.Directory(), leaf))
      && (w' != w <==> !answer.Refused? && (Free(w, job.source.Directory(), leaf) || Nests(w, job, leaf)))
      && (r.Err? ==> r.error == if w' == w then Command else Verification)
      && (w' != w ==>
            && w'.target == w.target && |w'.source| == |w.source| + 1 && w.source <= w'.source
            && Makes(w, job, leaf, answer, w'.source[|w.source|])
            && (r.Ok? ==> r.value == w'.source[|w.source|]))
  {
    AllAtEntry(w, job.source, leaf);
    SealedAtEntry(w, job.source, leaf);
    EntryIsNotInside(w, job, leaf);
    if !answer.Refused? {
      var s := NewSubvolume(job.source, leaf, answer.made, None, answer.Created? || answer.readonly);
      NewIsMade(job.source, leaf, answer.made, None, answer.Created? || answer.readonly);
      AtInside(s.(path := Path(false, job.source.dir + [leaf, job.sourceLeaf])), job.source, leaf, job.sourceLeaf);
    }
  }

  // ---------------------------------------------------------------------------
  // The name
  // ---------------------------------------------------------------------------

  lemma {:induction false} LeavesAre(subvols: seq<Subvolume>, leaf: string)
    ensures leaf in Leaves(subvols) <==> exists s :: s in subvols && s.path.FileName() == Some(leaf)
  {
    if subvols != [] {
      LeavesAre(subvols[1..], leaf);
      assert subvols == [subvols[0]] + subvols[1..];
    }
  }

  /** The name of this timestamp with some counter. */
  predicate NamesMoment(leaf: string, job: Job, c: u32)
    requires job.Valid()
  {
    ParseName(leaf) == Some(ParsedName(job.basename, Truncated(job.now.local, job.format), job.format != Short,
                                       if job.format == LongIso then Some(job.now.offset) else None, c))
  }

  lemma NextIsBeyond(base: string, existing: seq<string>) returns (c: u32)
    requires !UsedUp(base, existing)
    ensures NextFreeName(base, existing) == NthName(base, c)
    ensures forall k: u32 :: NthName(base, k) in existing ==> k < c
  {
    var highest := HighestCounter(base, existing);
    UsedUpIsHighest(base, existing);
    c := if highest.None? then 0 else highest.value + 1;
    NthNext(base, existing, c);
    forall k: u32 | NthName(base, k) in existing ensures k < c {
      NthCounter(base, k);
      HighestCovers(base, existing, NthName(base, k), k);
    }
  }

  /**
   The name a run gives its snapshot reads back as the basename and the moment, and its counter is beyond
   those of all snapshots in the directory that have the same name, as long as the counters are not used up.
   */
  lemma SnapshotIsNamed(w: World, job: Job) returns (c: u32)
    requires job.Valid() && Nameable(job.basename, job.now)
    requires
      var existing := ExistingIn(w.source, job.source.Directory());
      !UsedUp(MakeName(job.basename, job.now, job.format), Leaves(existing))
    ensures SnapshotLeaf(w, job) != ".." && NamesMoment(SnapshotLeaf(w, job), job, c)
    ensures
      var base := MakeName(job.basename, job.now, job.format);
      var existing := ExistingIn(w.source, job.source.Directory());
      forall s, k: u32 :: s in existing && s.path.FileName() == Some(NthName(base, k)) ==> k < c
  {
    var base, existing := MakeName(job.basename, job.now, job.format), ExistingIn(w.source, job.source.Directory());
    c := NextIsBeyond(base, Leaves(existing));
    NameRoundTrip(job.basename, job.now, job.format, c);
    assert |base| > |job.basename| + 1 && base[|job.basename|] == '.';
    forall s, k: u32 | s in existing && s.path.FileName() == Some(NthName(base, k)) ensures k < c {
      LeavesAre(existing, NthName(base, k));
    }
  }
}
