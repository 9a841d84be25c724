/**
 Restore: crates/application/src/restore.rs, over the adapters it is wired to.

 `Files` is everything that exists, by path. The port effects are functions on it; `Machine` runs the
 ports, and its `budget` is the number of port calls that work before one fails, so every step a
 restore can break off at is some budget. What a failed call leaves behind is part of its answer.
 */
module Restore {
  import opened Wrappers
  import opened Decimal
  import opened Model
  import opened Parent
  import opened SendCommand

  /** A directory or file, or a subvolume; `data` stands for the content. */
  datatype Node =
    | Plain(data: nat)
    | Volume(readonly: bool, receivedUuid: Option<Uuid>, data: nat)
  {
    /** A clean writable subvolume, the only result a restore accepts. */
    predicate IsClean() { Volume? && !readonly && receivedUuid.None? }

    /** What counts as the remains of a broken receive: by its metadata the same thing. */
    predicate IsGarbled() { IsClean() }
  }

  type Files = map<Path, Node>

  /** A path that exists has its parent directories. */
  ghost predicate Closed(fs: Files) {
    forall p :: p in fs && |p.parts| > 1 ==> Path(p.absolute, p.parts[..|p.parts| - 1]) in fs
  }

  function Below(p: Path, rest: seq<string>): Path { Path(p.absolute, p.parts + rest) }

  /** What is at `p` before is at `q` after, whole. */
  ghost predicate SameTree(before: Files, p: Path, after: Files, q: Path) {
    forall rest: seq<string> ::
      && (Below(p, rest) in before <==> Below(q, rest) in after)
      && (Below(p, rest) in before ==> before[Below(p, rest)] == after[Below(q, rest)])
  }

  ghost predicate KeptAt(before: Files, after: Files, p: Path) {
    p in before ==> p in after && after[p] == before[p]
  }

  // ---------------------------------------------------------------------------
  // Names
  // ---------------------------------------------------------------------------

  /** Appending to a path's text appends to its last component. */
  function Appended(p: Path, suffix: string): Path {
    if p.parts == [] then Path(p.absolute, [suffix])
    else Path(p.absolute, p.parts[..|p.parts| - 1] + [p.parts[|p.parts| - 1] + suffix])
  }

  function BrokenPath(dest: Path): Path { Appended(dest, ".broken") }

  function SuffixedBroken(base: Path, n: nat): Path { Appended(base, "." + Print(n)) }

  lemma SuffixesDiffer(base: Path, m: nat, n: nat)
    requires SuffixedBroken(base, m) == SuffixedBroken(base, n)
    ensures m == n
  {
    var last := if base.parts == [] then "" else base.parts[|base.parts| - 1];
    var a, b := "." + Print(m), "." + Print(n);
    assert SuffixedBroken(base, m).parts[|SuffixedBroken(base, m).parts| - 1] == last + a;
    assert SuffixedBroken(base, n).parts[|SuffixedBroken(base, n).parts| - 1] == last + b;
    assert (last + a)[|last| + 1..] == Print(m) && (last + b)[|last| + 1..] == Print(n);
    PrintInjective(m, n);
  }

  /** The move-aside path: `.broken`, or the first free `.broken.N`. */
  ghost predicate IsAside(fs: Files, dest: Path, aside: Path) {
    var base := BrokenPath(dest);
    && aside !in fs
    && (aside == base
        || (base in fs && exists n :: 1 <= n <= U32_MAX && aside == SuffixedBroken(base, n)
                                      && forall m :: 1 <= m < n ==> SuffixedBroken(base, m) in fs))
  }

  /** There is only one such path, so a dry run names the one a real run takes. */
  lemma AsideIsUnique(fs: Files, dest: Path, a: Path, b: Path)
    requires IsAside(fs, dest, a) && IsAside(fs, dest, b)
    ensures a == b
  {
    var base := BrokenPath(dest);
    if a != base && b != base {
      var m :| 1 <= m <= U32_MAX && a == SuffixedBroken(base, m)
        && forall k :: 1 <= k < m ==> SuffixedBroken(base, k) in fs;
      var n :| 1 <= n <= U32_MAX && b == SuffixedBroken(base, n)
        && forall k :: 1 <= k < n ==> SuffixedBroken(base, k) in fs;
    }
  }

  lemma AsideIsASibling(fs: Files, dest: Path, aside: Path)
    requires IsAside(fs, dest, aside) && dest.parts != []
    ensures !aside.StartsWith(dest) && !dest.StartsWith(aside)
    ensures |aside.parts| == |dest.parts| && aside.absolute == dest.absolute
  {
    var n := |dest.parts| - 1;
    assert |BrokenPath(dest).parts[n]| == |dest.parts[n]| + 7;
    assert |aside.parts[n]| > |dest.parts[n]|;
  }

  /** The names: `.broken` and `.broken.N` behind the last component. */
  lemma AsideNames(dest: Path, n: nat)
    requires dest.parts != []
    ensures
      var dir, last := dest.parts[..|dest.parts| - 1], dest.parts[|dest.parts| - 1];
      && BrokenPath(dest) == Path(dest.absolute, dir + [last + ".broken"])
      && SuffixedBroken(BrokenPath(dest), n) == Path(dest.absolute, dir + [last + ".broken." + Print(n)])
  {
    var last := dest.parts[|dest.parts| - 1];
    assert last + ".broken" + ("." + Print(n)) == last + ".broken." + Print(n);
  }

  // ---------------------------------------------------------------------------
  // What the ports do
  // ---------------------------------------------------------------------------

  function Moved(p: Path, from: Path, to: Path): Path
    requires p.StartsWith(from)
  {
    Below(to, p.parts[|from.parts|..])
  }

  /** Rename: everything at and below `from` moves; whatever was at `to` is gone. */
  function Rename(fs: Files, from: Path, to: Path): Files
    requires !to.StartsWith(from) && !from.StartsWith(to)
  {
    var stay := set p | p in fs && !p.StartsWith(from) && !p.StartsWith(to);
    var come := set p | p in fs && p.StartsWith(from) :: Moved(p, from, to);
    (map p | p in stay :: fs[p])
      + (map q | q in come && q.StartsWith(to) && Moved(q, to, from) in fs :: fs[Moved(q, to, from)])
  }

  /** Delete: everything at and below `p` is gone. */
  function Remove(fs: Files, p: Path): Files {
    map q | q in fs && !q.StartsWith(p) :: fs[q]
  }

  /**
   `arrives` is what the receive makes, and `name` the name the stream gives it; `piped` says whether the
   pipeline succeeds, `cleans` whether a deletion of something garbled works.
   */
  datatype TransferAnswer = TransferAnswer(
    arrives: Option<Node>,
    name: string,
    piped: bool,
    cleans: bool,
    verified: bool
  )

  /** A receive onto a path that exists changes nothing. */
  function Land(fs: Files, path: Path, answer: TransferAnswer): Files {
    if path in fs || answer.arrives.None? then fs else fs[path := answer.arrives.value]
  }

  /**
   `send_receive`: a receive onto a path that exists fails. Then the path is inspected in any case:
   something garbled there is deleted, and only a verified arrival is a success.
   */
  function Receive(fs: Files, path: Path, answer: TransferAnswer): (Files, bool) {
    var received := Land(fs, path, answer);
    if path !in received || !received[path].Volume? then (received, false)
    else
      var node := received[path];
      (if node.IsGarbled() && answer.cleans then Remove(received, path) else received,
       answer.piped && path !in fs && node.readonly && node.receivedUuid.Some? && answer.verified)
  }

  /** `made` is the new subvolume, if btrfs makes one; `shown` whether its inspection works. */
  datatype SnapshotAnswer = SnapshotAnswer(made: Option<Node>, shown: bool)

  /** Where `btrfs subvolume snapshot` puts the new subvolume: at a free path, else inside what is there. */
  function SnapshotPath(fs: Files, source: Path, dest: Path): Path {
    if dest in fs && source.parts != [] then Below(dest, [source.parts[|source.parts| - 1]]) else dest
  }

  /** Nothing can be put inside a read-only subvolume. */
  predicate Sealed(fs: Files, dest: Path) { dest in fs && fs[dest].Volume? && fs[dest].readonly }

  /** `make_writable`: snapshot, show the destination, refuse a read-only result. */
  function MakeWritable(fs: Files, source: Path, dest: Path, answer: SnapshotAnswer): (Files, Option<Node>) {
    var at := SnapshotPath(fs, source, dest);
    if answer.made.None? || source !in fs || at in fs || Sealed(fs, dest) then (fs, None)
    else
      var fs' := fs[at := answer.made.value];
      (fs', if answer.shown && dest in fs' && fs'[dest].Volume? && !fs'[dest].readonly then Some(fs'[dest]) else None)
  }

  // ---------------------------------------------------------------------------
  // Facts about them
  // ---------------------------------------------------------------------------

  lemma BelowSplits(p: Path, q: Path)
    requires q.StartsWith(p)
    ensures Below(p, q.parts[|p.parts|..]) == q
  {
  }

  lemma BelowStarts(p: Path, rest: seq<string>)
    ensures Below(p, rest).StartsWith(p) && Below(p, rest).parts[|p.parts|..] == rest
  {
  }

  /** Nothing exists below a path that does not exist. */
  lemma {:induction false} NothingBelow(fs: Files, p: Path, rest: seq<string>)
    requires Closed(fs) && p !in fs && p.parts != []
    ensures Below(p, rest) !in fs
    decreases rest
  {
    if rest == [] {
      assert p.parts + [] == p.parts;
    } else {
      var front := rest[..|rest| - 1];
      NothingBelow(fs, p, front);
      assert Below(p, rest).parts[..|Below(p, rest).parts| - 1] == p.parts + front;
    }
  }

  lemma NothingStartsWith(fs: Files, p: Path)
    requires Closed(fs) && p !in fs && p.parts != []
    ensures forall q :: q in fs ==> !q.StartsWith(p)
  {
    forall q | q in fs ensures !q.StartsWith(p) {
      if q.StartsWith(p) {
        BelowSplits(p, q);
        NothingBelow(fs, p, q.parts[|p.parts|..]);
      }
    }
  }

  lemma RenameMovesOne(fs: Files, from: Path, to: Path, rest: seq<string>)
    requires !to.StartsWith(from) && !from.StartsWith(to)
    ensures
      var fs' := Rename(fs, from, to);
      && (Below(from, rest) in fs <==> Below(to, rest) in fs')
      && (Below(from, rest) in fs ==> fs[Below(from, rest)] == fs'[Below(to, rest)])
  {
    BelowStarts(from, rest);
    BelowStarts(to, rest);
    var come := set p | p in fs && p.StartsWith(from) :: Moved(p, from, to);
    assert Moved(Below(from, rest), from, to) == Below(to, rest);
    assert Moved(Below(to, rest), to, from) == Below(from, rest);
    if Below(from, rest) in fs {
      assert Below(to, rest) in come;
    }
  }

  /** A move aside loses nothing: the whole tree is at the new path, and everything else stays. */
  lemma RenameKeeps(fs: Files, from: Path, to: Path)
    requires Closed(fs) && to !in fs && to.parts != [] && !to.StartsWith(from) && !from.StartsWith(to)
    ensures SameTree(fs, from, Rename(fs, from, to), to)
    ensures forall p :: p in fs && !p.StartsWith(from) ==> KeptAt(fs, Rename(fs, from, to), p)
    ensures forall p :: p in Rename(fs, from, to) && !p.StartsWith(to) ==> p in fs && !p.StartsWith(from)
  {
    var fs' := Rename(fs, from, to);
    forall rest: seq<string>
      ensures (Below(from, rest) in fs <==> Below(to, rest) in fs')
      ensures Below(from, rest) in fs ==> fs[Below(from, rest)] == fs'[Below(to, rest)]
    {
      RenameMovesOne(fs, from, to, rest);
    }
    NothingStartsWith(fs, to);
    forall q | q in fs' && !q.StartsWith(to) ensures q in fs && !q.StartsWith(from) {
      var come := set p | p in fs && p.StartsWith(from) :: Moved(p, from, to);
      forall p | p in fs && p.StartsWith(from) ensures Moved(p, from, to).StartsWith(to) {
        BelowStarts(to, p.parts[|from.parts|..]);
      }
      assert q !in come;
    }
  }

  /** The transfer onto `path` destroys something that was there: a writable subvolume received from nowhere. */
  predicate Clobbers(fs: Files, path: Path) {
    path in fs && fs[path].Volume? && !fs[path].readonly && fs[path].receivedUuid == None
  }

  /** A deletion takes away a whole tree and nothing else, and leaves no file without its directory. */
  lemma RemoveTakesTheTree(fs: Files, p: Path)
    ensures forall q :: q in Remove(fs, p) <==> q in fs && !(q.absolute == p.absolute && p.parts <= q.parts)
    ensures forall q :: q in Remove(fs, p) ==> KeptAt(fs, Remove(fs, p), q)
    ensures Closed(fs) ==> Closed(Remove(fs, p))
  {
    if Closed(fs) {
      forall q | q in Remove(fs, p) && |q.parts| > 1
        ensures Path(q.absolute, q.parts[..|q.parts| - 1]) in Remove(fs, p)
      {
        assert !ParentOf(q).StartsWith(p) by {
          if ParentOf(q).StartsWith(p) {
            ParentStarts(q, p);
          }
        }
      }
    }
  }

  /** What arrives is a read-only subvolume that says where it was received from. */
  predicate Sound(arrives: Option<Node>) {
    arrives.Some? && arrives.value.Volume? && arrives.value.readonly && arrives.value.receivedUuid.Some?
  }

  /** The remains of a broken receive. */
  predicate Remains(arrives: Option<Node>) {
    arrives.Some? && arrives.value.Volume? && !arrives.value.readonly && arrives.value.receivedUuid == None
  }

  /**
   A receive succeeds if and only if the path was free, the pipeline worked, and something sound arrived and was
   verified. It leaves what arrived, unless that is the remains of a broken receive and can be deleted.
   */
  lemma ReceiveOutcome(fs: Files, path: Path, answer: TransferAnswer)
    requires Closed(fs) && path.parts != []
    ensures
      var (fs', ok) := Receive(fs, path, answer);
      && (ok <==> path !in fs && answer.piped && answer.verified && Sound(answer.arrives))
      && (path !in fs ==>
            fs' == if answer.arrives.None? || (Remains(answer.arrives) && answer.cleans) then fs
                   else fs[path := answer.arrives.value])
      && (path in fs ==> fs' == if Clobbers(fs, path) && answer.cleans then Remove(fs, path) else fs)
  {
    if path !in fs && answer.arrives.Some? {
      NothingStartsWith(fs, path);
      assert path.StartsWith(path);
      assert Remove(fs[path := answer.arrives.value], path) == fs;
    }
  }

  /**
   A writable snapshot is made at the free destination, or inside the writable thing that stands there, and
   the call succeeds if the destination then shows a writable subvolume.
   */
  lemma MakeWritableOutcome(fs: Files, source: Path, dest: Path, answer: SnapshotAnswer)
    ensures
      var (fs', shown) := MakeWritable(fs, source, dest, answer);
      if source !in fs || answer.made.None? then fs' == fs && shown == None
      else if dest !in fs then
        && fs' == fs[dest := answer.made.value]
        && shown == if answer.shown && answer.made.value.Volume? && !answer.made.value.readonly then answer.made
                    else None
      else if source.parts == [] || (fs[dest].Volume? && fs[dest].readonly) then fs' == fs && shown == None
      else
        var inside := Path(dest.absolute, dest.parts + [source.parts[|source.parts| - 1]]);
        if inside in fs then fs' == fs && shown == None
        else
          && fs' == fs[inside := answer.made.value]
          && shown == if answer.shown && fs[dest].Volume? then Some(fs[dest]) else None
  {
    if dest in fs && source.parts != [] {
      assert |SnapshotPath(fs, source, dest).parts| > |dest.parts|;
    }
  }

  /**
   When does a receive keep what was there? Exactly when the path was not taken by something that looks
   garbled, or its deletion fails: a writable subvolume that was never received is indistinguishable
   from a broken receive.
   */
  lemma ReceiveKeepsIff(fs: Files, path: Path, answer: TransferAnswer)
    requires Closed(fs) && path.parts != []
    ensures (forall p :: p in fs ==> KeptAt(fs, Receive(fs, path, answer).0, p))
      <==> !(Clobbers(fs, path) && answer.cleans)
    ensures forall p :: p in fs && !p.StartsWith(path) ==> KeptAt(fs, Receive(fs, path, answer).0, p)
    ensures forall p :: p in Receive(fs, path, answer).0 ==> p in fs || p == path
    ensures Receive(fs, path, answer).1 ==> path !in fs && path in Receive(fs, path, answer).0
  {
    if path !in fs {
      NothingStartsWith(fs, path);
    } else if Clobbers(fs, path) && answer.cleans {
      assert path.StartsWith(path);
      assert !KeptAt(fs, Receive(fs, path, answer).0, path);
    }
  }

  /** A subvolume an earlier restore made is deleted by a transfer back that is staged at its path. */
  lemma RestoredVolumeIsLost(data: nat, answer: TransferAnswer)
    requires answer.cleans
    ensures
      var dir, home := Path(true, ["data"]), Path(true, ["data", "home.20260101"]);
      var fs := map[dir := Plain(0), home := Volume(false, None, data)];
      Closed(fs) && fs[home].IsClean() && home !in Receive(fs, home, answer).0
  {
    var home := Path(true, ["data", "home.20260101"]);
    assert home.parts[..1] == ["data"];
    assert home.StartsWith(home);
  }

  lemma MakeWritableAdds(fs: Files, source: Path, dest: Path, answer: SnapshotAnswer)
    ensures
      var (fs', made) := MakeWritable(fs, source, dest, answer);
      && (forall p :: p in fs ==> KeptAt(fs, fs', p))
      && (forall p :: p in fs' && p !in fs ==> p.StartsWith(dest))
      && (made.Some? ==> dest in fs' && fs'[dest] == made.value)
  {
  }

  function ParentOf(p: Path): Path
    requires p.parts != []
  {
    Path(p.absolute, p.parts[..|p.parts| - 1])
  }

  lemma ParentOfBelow(p: Path, rest: seq<string>)
    requires rest != []
    ensures Below(p, rest).parts != [] && ParentOf(Below(p, rest)) == Below(p, rest[..|rest| - 1])
  {
    assert (p.parts + rest)[..|p.parts + rest| - 1] == p.parts + rest[..|rest| - 1];
  }

  lemma ParentStarts(p: Path, q: Path)
    requires p.parts != [] && ParentOf(p).StartsWith(q)
    ensures p.StartsWith(q)
  {
  }

  /** Siblings have the same parent. */
  lemma SameParent(fs: Files, from: Path, to: Path)
    requires IsAside(fs, from, to) && from.parts != []
    ensures to.parts != [] && ParentOf(to) == ParentOf(from)
  {
    AsideIsASibling(fs, from, to);
  }

  lemma MovedParent(fs: Files, from: Path, to: Path, rest: seq<string>)
    requires Closed(fs) && !to.StartsWith(from) && !from.StartsWith(to)
    requires rest != [] && Below(to, rest) in Rename(fs, from, to) && |from.parts| > 0
    ensures ParentOf(Below(to, rest)) in Rename(fs, from, to)
  {
    RenameMovesOne(fs, from, to, rest);
    ParentOfBelow(from, rest);
    ParentOfBelow(to, rest);
    RenameMovesOne(fs, from, to, rest[..|rest| - 1]);
  }

  lemma RenameCloses(fs: Files, from: Path, to: Path)
    requires Closed(fs) && from in fs && IsAside(fs, from, to) && from.parts != []
    requires !to.StartsWith(from) && !from.StartsWith(to)
    ensures Closed(Rename(fs, from, to))
  {
    var fs' := Rename(fs, from, to);
    SameParent(fs, from, to);
    RenameKeeps(fs, from, to);
    forall p | p in fs' && |p.parts| > 1 ensures ParentOf(p) in fs' {
      if !p.StartsWith(to) {
        assert p in fs && !p.StartsWith(from);
        if ParentOf(p).StartsWith(from) {
          ParentStarts(p, from);
        }
      } else if p == to {
        assert !ParentOf(from).StartsWith(from);
        assert KeptAt(fs, fs', ParentOf(from));
      } else {
        BelowSplits(to, p);
        MovedParent(fs, from, to, p.parts[|to.parts|..]);
      }
    }
  }

  // ---------------------------------------------------------------------------
  // The service
  // ---------------------------------------------------------------------------

  datatype RestoreError = DestinationExists | NotCleanWritable(movedAside: Option<Path>) | Port

  datatype RestoreReport = RestoreReport(
    dest: Path,
    restored: Option<Node>,
    movedAside: Option<Path>,
    transferredBack: bool,
    dryRun: bool
  )

  /** What the ports answer: the backup's metadata, the two listings, and how the effects go. */
  datatype Answers = Answers(
    backup: Subvolume,
    sendSide: seq<Subvolume>,
    receiveSide: seq<Subvolume>,
    transfer: TransferAnswer,
    snapshot: SnapshotAnswer
  ) {
    function StagingDir(dest: Path): Path {
      match dest.Parent() case None => dest case Some(dir) => dir
    }

    /** Where a transfer back would arrive. */
    function Staging(dest: Path): Path { StagingDir(dest).Join(Path(false, [Leaf()])) }

    function Leaf(): string { match backup.path.FileName() case None => transfer.name case Some(leaf) => leaf }

    /** The transfer back looks at what is at the staging path: it does, if the backup has a name. */
    predicate Inspects(dest: Path) { IsRemote(dest) && backup.path.FileName().Some? }

    /** The listings are usable, and the cleanup after a broken receive works. */
    predicate Resourceful() {
      UniqueUuids(sendSide) && UniqueUuids(receiveSide) && transfer.cleans
    }

    /** Everything a restore of `backup` to the free path `dest` needs goes well. */
    predicate Works(fs: Files, backup: Path, dest: Path) {
      && snapshot.made.Some? && snapshot.made.value.IsClean() && snapshot.shown
      && if IsRemote(dest) then TransferWorks(fs, dest) else backup in fs
    }

    /** The transfer back of one that is on another filesystem included. */
    predicate TransferWorks(fs: Files, dest: Path) {
      && UniqueUuids(sendSide) && UniqueUuids(receiveSide) && backup.path.FileName().Some?
      && Staging(dest) !in fs && Staging(dest) != dest
      && transfer.arrives.Some? && transfer.arrives.value.Volume? && transfer.arrives.value.readonly
      && transfer.arrives.value.receivedUuid.Some? && transfer.piped && transfer.verified
    }

    predicate IsRemote(dest: Path) { !dest.StartsWith(backup.mountpoint) }
  }

  /**
   The staging path lies beside the destination and has the backup's own name; the transfer is needed if the
   destination is not under the mount point of the backup's filesystem.
   */
  lemma StagingIsBeside(a: Answers, dest: Path)
    ensures dest.parts != [] ==>
      a.Staging(dest) == Path(dest.absolute, dest.parts[..|dest.parts| - 1] + [a.Leaf()])
    ensures dest.parts == [] ==> a.Staging(dest) == Path(dest.absolute, [a.Leaf()])
    ensures a.backup.path.parts != [] && a.backup.path.parts[|a.backup.path.parts| - 1] != ".." ==>
      a.Leaf() == a.backup.path.parts[|a.backup.path.parts| - 1]
    ensures a.IsRemote(dest)
       <==> !(dest.absolute == a.backup.mountpoint.absolute && a.backup.mountpoint.parts <= dest.parts)
  {
  }

  /** The command of a transfer back names the right parent and clone sources for the two listings. */
  ghost predicate SentBack(a: Answers, command: seq<Arg>) {
    exists selection :: command == SendArgs(a.backup, selection)
      && RightAnswer(Ok(selection), a.backup, a.sendSide, a.receiveSide, Yes)
  }

  /**
   The staging path of a transfer back is taken by something that looks like the remains of a broken
   receive, either from before or because the destination was moved aside to that very path.
   */
  predicate Endangers(fs: Files, a: Answers, dest: Path, aside: Option<Path>) {
    var staging := a.Staging(dest);
    && a.Inspects(dest)
    && if aside.Some? && aside.value == staging then dest in fs && fs[dest].IsGarbled()
       else Clobbers(fs, staging) && (aside.None? || staging != dest)
  }

  /** The same, as it can be told before the call: an existing destination will be moved to its move-aside path. */
  ghost predicate Endangered(fs: Files, a: Answers, dest: Path) {
    if dest in fs then exists aside :: IsAside(fs, dest, aside) && Endangers(fs, a, dest, Some(aside))
    else Endangers(fs, a, dest, None)
  }

  lemma EndangeredByAside(fs: Files, a: Answers, dest: Path, aside: Path)
    requires dest in fs && IsAside(fs, dest, aside)
    ensures Endangered(fs, a, dest) <==> Endangers(fs, a, dest, Some(aside))
  {
    if Endangered(fs, a, dest) {
      var other :| IsAside(fs, dest, other) && Endangers(fs, a, dest, Some(other));
      AsideIsUnique(fs, dest, aside, other);
    }
  }

  /** After the destination was moved aside, the danger is that the staging path is taken by something garbled. */
  lemma EndangeredAfterMove(fs: Files, mid: Files, a: Answers, dest: Path, aside: Path)
    requires dest in fs && aside !in fs
    requires aside in mid && mid[aside] == fs[dest]
    requires a.Staging(dest) != aside ==>
      (a.Staging(dest) in mid <==> a.Staging(dest) in fs && a.Staging(dest) != dest)
      && (a.Staging(dest) in mid ==> mid[a.Staging(dest)] == fs[a.Staging(dest)])
    ensures Endangers(fs, a, dest, Some(aside)) <==> a.Inspects(dest) && Clobbers(mid, a.Staging(dest))
  {
  }

  lemma RenameMovesThis(fs: Files, from: Path, to: Path)
    requires from in fs && !to.StartsWith(from) && !from.StartsWith(to)
    ensures to in Rename(fs, from, to) && Rename(fs, from, to)[to] == fs[from]
  {
    RenameMovesOne(fs, from, to, []);
    assert Below(from, []) == from && Below(to, []) == to;
  }

  lemma EndangeredOne(fs: Files, a: Answers, dest: Path, aside: Path)
    requires Closed(fs) && dest in fs && IsAside(fs, dest, aside) && dest.parts != []
    requires !aside.StartsWith(dest) && !dest.StartsWith(aside)
    ensures Endangered(fs, a, dest) <==> a.Inspects(dest) && Clobbers(Rename(fs, dest, aside), a.Staging(dest))
  {
    EndangeredByAside(fs, a, dest, aside);
    AsideIsASibling(fs, dest, aside);
    StagingIsASibling(a, dest);
    RenameMovesThis(fs, dest, aside);
    if a.Staging(dest) != aside {
      SiblingStays(fs, dest, aside, a.Staging(dest));
    }
    EndangeredAfterMove(fs, Rename(fs, dest, aside), a, dest, aside);
  }

  lemma StagingStaysFree(fs: Files, a: Answers, dest: Path, aside: Path)
    requires Closed(fs) && IsAside(fs, dest, aside) && dest.parts != []
    requires !aside.StartsWith(dest) && !dest.StartsWith(aside)
    ensures a.Staging(dest) != aside && a.Staging(dest) !in fs ==> a.Staging(dest) !in Rename(fs, dest, aside)
  {
    AsideIsASibling(fs, dest, aside);
    StagingIsASibling(a, dest);
    if a.Staging(dest) != aside {
      SiblingStays(fs, dest, aside, a.Staging(dest));
    }
  }

  /** A rename moves no sibling of what it moves. */
  lemma SiblingStays(fs: Files, from: Path, to: Path, p: Path)
    requires Closed(fs) && to !in fs && to.parts != [] && |p.parts| == |from.parts| == |to.parts| && p != to
    requires !to.StartsWith(from) && !from.StartsWith(to)
    ensures p in Rename(fs, from, to) <==> p in fs && p != from
    ensures p in Rename(fs, from, to) ==> Rename(fs, from, to)[p] == fs[p]
  {
    RenameKeeps(fs, from, to);
    assert p.parts == p.parts[..|from.parts|];
    if p in fs && p != from {
      assert KeptAt(fs, Rename(fs, from, to), p);
    }
  }

  lemma StagingIsASibling(a: Answers, dest: Path)
    requires dest.parts != []
    ensures |a.Staging(dest).parts| == |dest.parts|
  {
  }

  /** Nothing a restore adds lands in the tree that was moved aside. */
  lemma MovedTreeStays(fs: Files, mid: Files, after: Files, dest: Path, aside: Path, staging: Path)
    requires IsAside(fs, dest, aside) && dest.parts != [] && dest in fs
    requires SameTree(fs, dest, mid, aside) && |staging.parts| == |dest.parts|
    requires forall p :: p in mid ==> KeptAt(mid, after, p)
    requires forall p :: p in after && p !in mid ==> p.StartsWith(dest) || p == staging
    ensures SameTree(fs, dest, after, aside)
  {
    AsideIsASibling(fs, dest, aside);
    assert Below(dest, []) == dest && Below(aside, []) == aside;
    forall rest: seq<string>
      ensures Below(dest, rest) in fs <==> Below(aside, rest) in after
      ensures Below(dest, rest) in fs ==> fs[Below(dest, rest)] == after[Below(aside, rest)]
    {
      BelowStarts(aside, rest);
      if Below(aside, rest) in mid {
        assert KeptAt(mid, after, Below(aside, rest));
      } else if Below(aside, rest) in after {
        ShortBelow(aside, rest, dest);
      }
    }
  }

  lemma ShortBelow(a: Path, rest: seq<string>, b: Path)
    requires |a.parts| == |b.parts|
    ensures Below(a, rest).StartsWith(b) ==> a == b
    ensures |Below(a, rest).parts| == |b.parts| ==> rest == []
  {
    if Below(a, rest).StartsWith(b) {
      assert a.parts == (a.parts + rest)[..|a.parts|];
    }
  }

  /** All suffixes before `counter` are taken; `seen` are the paths they make. */
  ghost predicate Searched(fs: Files, base: Path, counter: nat, seen: set<Path>) {
    && 1 <= counter <= U32_MAX && seen <= fs.Keys && |seen| == counter - 1 <= |fs|
    && (forall m :: 1 <= m < counter ==> SuffixedBroken(base, m) in fs)
    && (forall p :: p in seen ==> exists m :: 1 <= m < counter && p == SuffixedBroken(base, m))
  }

  lemma SearchedMore(fs: Files, base: Path, counter: nat, seen: set<Path>)
    requires |fs| < U32_MAX && Searched(fs, base, counter, seen) && SuffixedBroken(base, counter) in fs
    ensures |seen| < |fs|
    ensures Searched(fs, base, SaturatingAdd(counter, 1), seen + {SuffixedBroken(base, counter)})
  {
    NotSeenYet(seen, base, counter);
    SubsetIsSmaller(seen + {SuffixedBroken(base, counter)}, fs.Keys);
  }

  class Machine {
    var fs: Files
    var budget: nat
    ghost var command: seq<Arg>
    const answers: Answers

    constructor (fs: Files, budget: nat, answers: Answers)
      ensures this.fs == fs && this.budget == budget && this.answers == answers
    {
      this.fs, this.budget, this.command, this.answers := fs, budget, [], answers;
    }

    /** One port call: it works while the budget lasts. */
    method Call() returns (ok: bool)
      modifies `budget
      ensures ok == (old(budget) > 0)
      ensures budget == if ok then old(budget) - 1 else old(budget)
    {
      ok := budget > 0;
      budget := if ok then budget - 1 else budget;
    }

    method Exists(p: Path) returns (r: Option<bool>)
      modifies `budget
      ensures r == if old(budget) > 0 then Some(p in fs) else None
      ensures budget == if old(budget) > 0 then old(budget) - 1 else 0
    {
      var ok := Call();
      r := if ok then Some(p in fs) else None;
    }

    /** The first free move-aside path; a failed query ends the search. */
    method MoveAsideTarget(dest: Path) returns (r: Option<Path>)
      requires |fs| < U32_MAX
      modifies `budget
      ensures r.Some? ==> IsAside(fs, dest, r.value)
      ensures old(budget) >= |fs| + 2 ==> r.Some? && budget >= old(budget) - |fs| - 2
    {
      var base := BrokenPath(dest);
      var taken := Exists(base);
      if taken.None? {
        return None;
      }
      if !taken.value {
        return Some(base);
      }
      var counter: nat := 1;
      ghost var seen: set<Path> := {};
      SubsetIsSmaller({}, fs.Keys);
      while true
        invariant old(budget) > counter - 1 && budget == old(budget) - counter
        invariant fs == old(fs) && Searched(fs, base, counter, seen)
        decreases |fs| - |seen|
      {
        var candidate := SuffixedBroken(base, counter);
        taken := Exists(candidate);
        if taken.None? {
          return None;
        }
        if !taken.value {
          return Some(candidate);
        }
        SearchedMore(fs, base, counter, seen);
        seen := seen + {candidate};
        counter := SaturatingAdd(counter, 1);
      }
    }

    /** Restore never refuses a transfer for want of a parent; a duplicate uuid stops it. */
    method ChooseTransferBackParent() returns (r: Option<ParentSelection>)
      modifies `budget
      ensures r.Some? ==> UniqueUuids(answers.sendSide) && UniqueUuids(answers.receiveSide)
      ensures r.Some? ==> RightAnswer(Ok(r.value), answers.backup, answers.sendSide, answers.receiveSide, Yes)
      ensures old(budget) >= 2 && UniqueUuids(answers.sendSide) && UniqueUuids(answers.receiveSide) ==> r.Some?
      ensures old(budget) >= 2 ==> budget == old(budget) - 2
    {
      var listed := Call();
      if !listed {
        return None;
      }
      listed := Call();
      if !listed {
        return None;
      }
      var sendGraph := Build(answers.sendSide);
      if sendGraph.Err? {
        return None;
      }
      var receiveGraph := Build(answers.receiveSide);
      if receiveGraph.Err? {
        return None;
      }
      var selection := BestParent(answers.backup, sendGraph.value, receiveGraph.value, Yes);
      r := Some(selection.value);
    }

    /**
     The transfer port: a call that never gets to the adapter, or what the adapter does. A backup without
     a name is refused only after the pipeline has run. `command` is what the send was started with.
     */
    method SendReceive(path: Path, selection: ParentSelection) returns (ok: bool)
      modifies `fs, `budget, `command
      ensures command == if old(budget) == 0 then old(command) else SendArgs(answers.backup, selection)
      ensures (fs, ok) ==
        if old(budget) == 0 then (old(fs), false)
        else if answers.backup.path.FileName().None? then (Land(old(fs), path, answers.transfer), false)
        else Receive(old(fs), path, answers.transfer)
      ensures budget == if old(budget) > 0 then old(budget) - 1 else 0
    {
      var called := Call();
      if !called {
        return false;
      }
      var args := BuildSendArgs(answers.backup, selection);
      command := args;
      if answers.backup.path.FileName().None? {
        fs := Land(fs, path, answers.transfer);
        return false;
      }
      var (fs', r) := Receive(fs, path, answers.transfer);
      fs, ok := fs', r;
    }

    method Snapshot(source: Path, dest: Path) returns (r: Option<Node>)
      modifies `fs, `budget
      ensures (fs, r)
        == if old(budget) > 0 then MakeWritable(old(fs), source, dest, answers.snapshot) else (old(fs), None)
      ensures budget == if old(budget) > 0 then old(budget) - 1 else 0
    {
      var called := Call();
      if !called {
        return None;
      }
      var (fs', made) := MakeWritable(fs, source, dest, answers.snapshot);
      fs, r := fs', made;
    }

    method Delete(p: Path) returns (ok: bool)
      modifies `fs, `budget
      ensures ok == (old(budget) > 0) && fs == if ok then Remove(old(fs), p) else old(fs)
    {
      ok := Call();
      if ok {
        fs := Remove(fs, p);
      }
    }

    /** Rename fails on a path that contains the other. */
    method RenameAside(from: Path, to: Path) returns (ok: bool)
      modifies `fs, `budget
      ensures ok == (old(budget) > 0 && !to.StartsWith(from) && !from.StartsWith(to))
      ensures budget == if old(budget) > 0 then old(budget) - 1 else 0
      ensures fs == if ok then Rename(old(fs), from, to) else old(fs)
    {
      ok := Call();
      ok := ok && !to.StartsWith(from) && !from.StartsWith(to);
      if ok {
        fs := Rename(fs, from, to);
      }
    }

    /** Move an existing destination aside, whole. */
    method MoveAside(dest: Path, aside: Path) returns (ok: bool)
      requires Closed(fs) && dest in fs && IsAside(fs, dest, aside)
      modifies `fs, `budget
      ensures !ok ==> fs == old(fs)
      ensures dest.parts != [] && old(budget) > 0 ==> ok && budget == old(budget) - 1
      ensures ok ==>
        && dest.parts != [] && dest !in fs && Closed(fs) && SameTree(old(fs), dest, fs, aside)
        && (forall p :: p in old(fs) && !p.StartsWith(dest) ==> KeptAt(old(fs), fs, p))
        && (Endangered(old(fs), answers, dest) <==> answers.Inspects(dest) && Clobbers(fs, answers.Staging(dest)))
        && (answers.Staging(dest) != aside && answers.Staging(dest) !in old(fs) ==> answers.Staging(dest) !in fs)
    {
      MovableUnlessRoot(fs, dest, aside);
      ok := RenameAside(dest, aside);
      if ok {
        OnlyRootIsAbove(dest, aside);
        RenameKeeps(old(fs), dest, aside);
        RenameCloses(old(fs), dest, aside);
        EndangeredOne(old(fs), answers, dest, aside);
        StagingStaysFree(old(fs), answers, dest, aside);
        GoneFrom(old(fs), dest, aside);
      }
    }

    /** Transfer the backup to its staging path. */
    method TransferBack(dest: Path) returns (ok: bool)
      requires Closed(fs)
      modifies `fs, `budget, `command
      ensures command == old(command) || SentBack(answers, command)
      ensures ok ==> SentBack(answers, command)
      ensures
        var staging := answers.Staging(dest);
        && (!(answers.backup.path.FileName().Some? && Clobbers(old(fs), staging))
            ==> forall p :: p in old(fs) ==> KeptAt(old(fs), fs, p))
        && (forall p :: p in old(fs) && !p.StartsWith(staging) ==> KeptAt(old(fs), fs, p))
        && (forall p :: p in fs && p !in old(fs) ==> p == staging)
        && (ok ==> staging !in old(fs) && staging in fs && fs[staging].Volume? && fs[staging].readonly)
      ensures answers.Inspects(dest) && Clobbers(old(fs), answers.Staging(dest)) && old(budget) >= 3
        && answers.Resourceful()
        ==> answers.Staging(dest) !in fs
      ensures answers.TransferWorks(old(fs), dest) && old(budget) >= 3
        ==> ok && budget == old(budget) - 3
    {
      var staging := answers.Staging(dest);
      var selection := ChooseTransferBackParent();
      if selection.None? {
        return false;
      }
      ReceiveKeepsIff(fs, staging, answers.transfer);
      ok := SendReceive(staging, selection.value);
    }

    /**
     From the backup to a verified writable subvolume at `dest`, through a staging copy if the backup is
     on another filesystem. `staged` is the copy that was transferred.
     */
    method Produce(backup: Path, dest: Path, movedAside: Option<Path>)
      returns (r: Result<Node, RestoreError>, ghost staged: Option<Path>)
      requires Closed(fs) && dest !in fs
      modifies `fs, `budget, `command
      ensures command == old(command) || SentBack(answers, command)
      ensures staged.Some? ==> SentBack(answers, command)
      ensures
        var clobbered := answers.Inspects(dest) && Clobbers(old(fs), answers.Staging(dest));
        && (!clobbered ==> forall p :: p in old(fs) ==> KeptAt(old(fs), fs, p))
        && (forall p :: p in old(fs) && !p.StartsWith(answers.Staging(dest)) ==> KeptAt(old(fs), fs, p))
      ensures forall p :: p in fs && p !in old(fs) ==>
        p.StartsWith(dest) || (answers.IsRemote(dest) && p == answers.Staging(dest))
      ensures staged.Some?
        ==> answers.IsRemote(dest) && staged.value == answers.Staging(dest) && staged.value !in old(fs)
      ensures staged.Some? && staged.value !in fs ==> r.Ok?
      ensures r.Ok? ==> dest in fs && fs[dest] == r.value && r.value.IsClean() && (staged.Some? ==> staged.value !in fs)
      ensures r.Ok? ==> (staged.Some? <==> answers.IsRemote(dest))
      ensures r.Err? && r.error.NotCleanWritable? ==> r.error.movedAside == movedAside
      ensures answers.Inspects(dest) && Clobbers(old(fs), answers.Staging(dest)) && old(budget) >= 3
        && answers.Resourceful()
        ==> answers.Staging(dest) !in fs
      ensures answers.Works(old(fs), backup, dest) && old(budget) >= 5 ==> r.Ok?
      ensures answers.IsRemote(dest) && answers.Staging(dest) == dest ==> r.Err?
    {
      staged := None;
      ghost var before := fs;
      var source := backup;
      if answers.IsRemote(dest) {
        var received := TransferBack(dest);
        if !received {
          return Err(Port), None;
        }
        staged := Some(answers.Staging(dest));
        source := answers.Staging(dest);
      }
      MakeWritableAdds(fs, source, dest, answers.snapshot);
      var restored := Snapshot(source, dest);
      if restored.None? {
        return Err(Port), staged;
      }
      if !restored.value.IsClean() {
        return Err(NotCleanWritable(movedAside)), staged;
      }
      if answers.IsRemote(dest) {
        NothingStartsWith(before, source);
        StagingIsNotAbove(answers, dest);
        var deleted := Delete(source);
        if !deleted {
          return Err(Port), staged;
        }
      }
      r := Ok(restored.value);
    }

    /**
     The whole restore. `moved` is where an existing destination was moved to, `staged` the copy that
     was transferred back.
     */
    method Restore(backup: Path, dest: Path, force: bool, dryRun: bool)
      returns (r: Result<RestoreReport, RestoreError>, ghost moved: Option<Path>, ghost staged: Option<Path>)
      requires Closed(fs) && |fs| < U32_MAX
      modifies `fs, `budget, `command
      // A transfer back is sent relative to the right parent, if there is one.
      ensures command == old(command) || SentBack(answers, command)
      ensures staged.Some? ==> SentBack(answers, command)
      ensures dryRun || (dest in old(fs) && !force) ==> fs == old(fs)
      ensures dest in old(fs) && !force ==> r.Err? && (old(budget) >= 2 ==> r.error == DestinationExists)
      ensures r.Ok? ==>
        && r.value.dest == dest && r.value.dryRun == dryRun && r.value.transferredBack == answers.IsRemote(dest)
        && (r.value.movedAside.Some? <==> dest in old(fs))
        && (r.value.movedAside.Some? ==> IsAside(old(fs), dest, r.value.movedAside.value))
      ensures moved.Some? ==> dest in old(fs) && force && !dryRun && IsAside(old(fs), dest, moved.value)
      ensures r.Ok? && !dryRun ==>
        && r.value.movedAside == moved && dest in fs && r.value.restored == Some(fs[dest])
        && fs[dest].Volume? && !fs[dest].readonly && fs[dest].receivedUuid == None
        && (staged.Some? <==> answers.IsRemote(dest))
      ensures r.Err? && r.error.NotCleanWritable? ==> r.error.movedAside == moved
      ensures dest in old(fs) && moved.None? ==> fs == old(fs)
      // The original is at the destination or at the move-aside path, and everything else is untouched.
      ensures !Endangered(old(fs), answers, dest) ==>
        && (dest in old(fs) ==> SameTree(old(fs), dest, fs, if moved.Some? then moved.value else dest))
        && (forall p :: p in old(fs) && (moved.None? || !p.StartsWith(dest)) ==> KeptAt(old(fs), fs, p))
      // That condition is needed: whenever the restore gets that far, what was there is deleted.
      ensures Endangered(old(fs), answers, dest) && answers.Resourceful() && old(budget) >= |old(fs)| + 8
              && !dryRun && (dest in old(fs) ==> force && dest.parts != [])
        ==> answers.Staging(dest) !in fs
      // The staging copy goes only after a clean result.
      ensures staged.Some? ==> staged.value == answers.Staging(dest) && (staged.value in fs <==> r.Err?)
      ensures staged.Some? && staged.value !in fs ==> dest in fs && fs[dest].IsClean()
      // Onto a path with the backup's own name a transfer back is staged at the destination and fails for good.
      ensures !dryRun && answers.IsRemote(dest) && answers.Staging(dest) == dest ==> r.Err?
      // It succeeds when it may, nothing is in the way, and the ports work.
      ensures (dest in old(fs) ==> force) && old(budget) >= |old(fs)| + 10
              && (dryRun || (answers.Works(old(fs), backup, dest)
                             && (dest in old(fs) ==>
                                   dest.parts != [] && !backup.StartsWith(dest)
                                   && (answers.IsRemote(dest) ==> !IsAside(old(fs), dest, answers.Staging(dest))))))
        ==> r.Ok?
    {
      moved, staged := None, None;
      ghost var before := fs;
      var shown := Call();
      if !shown {
        return Err(Port), None, None;
      }
      var there := Exists(dest);
      if there.None? {
        return Err(Port), None, None;
      }
      var movedAside: Option<Path> := None;
      if there.value {
        if !force {
          return Err(DestinationExists), None, None;
        }
        movedAside := MoveAsideTarget(dest);
        if movedAside.None? {
          return Err(Port), None, None;
        }
      }
      if dryRun {
        return Ok(RestoreReport(dest, None, movedAside, answers.IsRemote(dest), true)), None, None;
      }
      if movedAside.Some? {
        var renamed := MoveAside(dest, movedAside.value);
        if !renamed {
          return Err(Port), None, None;
        }
        moved := movedAside;
      }
      ghost var mid := fs;
      var produced;
      produced, staged := Produce(backup, dest, movedAside);
      if moved.Some? && !Endangered(before, answers, dest) {
        StagingIsASibling(answers, dest);
        MovedTreeStays(before, mid, fs, dest, moved.value, answers.Staging(dest));
        KeptTwice(before, mid, fs, dest);
      }
      match produced {
        case Err(e) => r := Err(e);
        case Ok(node) => r := Ok(RestoreReport(dest, Some(node), movedAside, answers.IsRemote(dest), false));
      }
    }
  }

  lemma MovableUnlessRoot(fs: Files, dest: Path, aside: Path)
    requires IsAside(fs, dest, aside)
    ensures dest.parts != [] ==> !aside.StartsWith(dest) && !dest.StartsWith(aside)
  {
    if dest.parts != [] {
      AsideIsASibling(fs, dest, aside);
    }
  }

  /** Renaming a path with no components fails, because every move-aside path lies below it. */
  lemma OnlyRootIsAbove(dest: Path, aside: Path)
    requires (aside == BrokenPath(dest) || exists n :: aside == SuffixedBroken(BrokenPath(dest), n))
      && !aside.StartsWith(dest)
    ensures dest.parts != [] && aside.parts != []
  {
  }

  lemma GoneFrom(fs: Files, dest: Path, aside: Path)
    requires !aside.StartsWith(dest) && !dest.StartsWith(aside)
    ensures dest !in Rename(fs, dest, aside)
  {
    assert dest.StartsWith(dest);
  }

  lemma KeptTwice(fs: Files, mid: Files, after: Files, dest: Path)
    requires forall p :: p in fs && !p.StartsWith(dest) ==> KeptAt(fs, mid, p)
    requires forall p :: p in mid ==> KeptAt(mid, after, p)
    ensures forall p :: p in fs && !p.StartsWith(dest) ==> KeptAt(fs, after, p)
  {
  }

  /**
   The staging path lies in the destination's directory: it is not above the destination, and may be
   the destination only.
   */
  lemma StagingIsNotAbove(a: Answers, dest: Path)
    ensures dest.StartsWith(a.Staging(dest)) ==> dest == a.Staging(dest)
    ensures a.Staging(dest).parts != []
  {
    if dest.parts != [] {
      assert |a.Staging(dest).parts| == |dest.parts|;
    }
  }

  function SaturatingAdd(a: nat, b: nat): nat { if a + b > U32_MAX then U32_MAX else a + b }

  lemma NotSeenYet(seen: set<Path>, base: Path, counter: nat)
    requires forall p :: p in seen ==> exists m :: 1 <= m < counter && p == SuffixedBroken(base, m)
    ensures SuffixedBroken(base, counter) !in seen
  {
    if SuffixedBroken(base, counter) in seen {
      var m :| 1 <= m < counter && SuffixedBroken(base, counter) == SuffixedBroken(base, m);
      SuffixesDiffer(base, counter, m);
    }
  }

  lemma {:induction false} SubsetIsSmaller<T>(a: set<T>, b: set<T>)
    requires a <= b
    ensures |a| <= |b|
  {
    if x :| x in a {
      SubsetIsSmaller(a - {x}, b - {x});
    }
  }
}
