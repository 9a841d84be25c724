/**
 The backup orchestration: crates/application/src/backup.rs, prune.rs and retention.rs.

 `Host` is the machine behind the driven ports: the subvolumes of the source and of the target
 filesystem, and the answers the ports will give. A delete succeeds as long as `deletes` is not used
 up and then fails, so every point at which a delete loop can stop is some value of `deletes`. The
 `...Step` functions say what each operation does to the host; the methods are the Rust code.
 */
module Service {
  import opened Wrappers
  import opened Sequences
  import opened Calendar
  import opened Retention
  import opened Naming
  import opened Model
  import opened Parent
  import opened Safety
  import opened SendCommand

  datatype PortError = Command | Parse | Verification | Io

  datatype World = World(source: seq<Subvolume>, target: seq<Subvolume>)

  /** A directory on a mounted filesystem. */
  datatype Site = Site(mountpoint: Path, dir: seq<string>, fsUuid: Uuid) {
    function Directory(): Path { mountpoint.Join(Path(false, dir)) }

    function Entry(leaf: string): Path { Path(false, dir + [leaf]) }
  }

  /**
   The arguments of an operation, the configured mode, and the readings of the clock: for the name of a
   new snapshot, at the prune of the backups and at that of the snapshots. `sourceLeaf` is the name of
   the subvolume that is snapshotted.
   */
  datatype Job = Job(
    source: Site,
    target: Site,
    basename: string,
    sourceLeaf: string,
    now: Zoned,
    backupsNow: Zoned,
    snapshotsNow: Zoned,
    format: TimestampFormat,
    mode: Incremental,
    snapshotPolicy: RetentionPolicy,
    targetPolicy: RetentionPolicy
  ) {
    predicate Valid() {
      && ValidZoned(now) && ValidZoned(backupsNow) && ValidZoned(snapshotsNow)
      && snapshotPolicy.Valid() && targetPolicy.Valid()
    }
  }

  /** What the kernel assigns to a new subvolume. */
  datatype Assigned = Assigned(id: nat, uuid: Uuid, parentUuid: Option<Uuid>, generation: nat, cgen: nat)

  /** What a failed receive leaves at the target path. */
  datatype Leftover = Leftover(made: Assigned, receivedUuid: Option<Uuid>, readonly: bool)

  /**
   `Received`: the copy arrived whole, read-only, and with the parent link that the send calls for.
   `cleans` says whether the deletion of a garbled subvolume after a failure works.
   */
  datatype TransferAnswer = Received(backup: Assigned) | Broken(leftover: Option<Leftover>, cleans: bool)

  /** `Unconfirmed`: a snapshot was made, but its inspection failed or did not show it read-only. */
  datatype SnapshotAnswer = Created(made: Assigned) | Unconfirmed(made: Assigned, readonly: bool) | Refused

  datatype Ports = Ports(snapshot: SnapshotAnswer, transfer: TransferAnswer, deletes: nat)

  /** A transfer that was started, what it was sent relative to, and the command line of the send. */
  datatype Sent = Sent(snapshot: Subvolume, selection: ParentSelection, command: seq<Arg>)

  /** The host after an operation, the transfer it made, and the operation's result. */
  datatype Step<T> = Step(world: World, deletes: nat, sent: seq<Sent>, result: Result<T, PortError>)

  // ---------------------------------------------------------------------------
  // Dates from names
  // ---------------------------------------------------------------------------

  /** 1970-01-01, counted from 0001-01-01. */
  const UNIX_EPOCH: int := 719162 * SECONDS_PER_DAY

  lemma EpochIs1970()
    ensures Seconds(DateTime(1970, 0, 1, 0, 0, 0, 0)) == UNIX_EPOCH
  {
    FirstOf1970();
  }

  /** `dated_entry`: a foreign name gives nothing; long-iso names carry their own offset. */
  function DatedEntryOf(s: Subvolume, reference: int): (r: Option<DatedEntry<Subvolume>>)
    ensures r.Some? ==> ValidEntry(r.value) && r.value.payload == s && r.value.local.nanos == 0
    ensures r.Some? ==> Seconds(r.value.local) == r.value.instant + reference + UNIX_EPOCH
  {
    match s.path.FileName()
    case None => None
    case Some(leaf) =>
      match ParseName(leaf)
      case None => None
      case Some(parsed) =>
        match parsed.offset
        case Some(offset) =>
          var instant := Seconds(parsed.naive) - offset - UNIX_EPOCH;
          Some(DatedEntry(instant, FromSeconds(instant + reference + UNIX_EPOCH), parsed.hasExactTime, parsed.nn, s))
        case None =>
          Some(DatedEntry(Seconds(parsed.naive) - reference - UNIX_EPOCH, parsed.naive,
                          parsed.hasExactTime, parsed.nn, s))
  }

  /** The entry of one subvolume, as the zero or one items it adds to the list. */
  function OwnEntries(s: Subvolume, reference: int): (r: seq<DatedEntry<Subvolume>>)
    ensures |r| <= 1 && ValidEntries(r)
    ensures forall i :: 0 <= i < |r| ==> r[i].payload == s && DatedEntryOf(s, reference) == Some(r[i])
  {
    match DatedEntryOf(s, reference)
    case None => []
    case Some(e) => [e]
  }

  function DatedEntries(candidates: seq<Subvolume>, reference: int): (r: seq<DatedEntry<Subvolume>>)
    ensures ValidEntries(r)
    ensures forall i :: 0 <= i < |r| ==>
      r[i].payload in candidates && DatedEntryOf(r[i].payload, reference) == Some(r[i])
  {
    if candidates == [] then []
    else DatedEntries(candidates[..|candidates| - 1], reference) + OwnEntries(candidates[|candidates| - 1], reference)
  }

  // ---------------------------------------------------------------------------
  // What the operations do
  // ---------------------------------------------------------------------------

  function NotAt(path: Path): Subvolume -> bool { (s: Subvolume) => s.FullPath() != path }

  function DeletePath(w: World, path: Path): World {
    World(Filter(w.source, NotAt(path)), Filter(w.target, NotAt(path)))
  }

  /** The delete loop: stop at the first failure. */
  function DeleteSome(w: World, victims: seq<Subvolume>, deletes: nat): World
    decreases victims
  {
    if victims == [] || deletes == 0 then w
    else DeleteSome(DeletePath(w, victims[0].FullPath()), victims[1..], deletes - 1)
  }

  ghost function PruneSchedule(candidates: seq<Subvolume>, policy: RetentionPolicy, ctx: SafetyContext, now: Zoned)
    : Schedule<Subvolume>
    requires Valid(now.local)
  {
    var entries := DatedEntries(candidates, now.offset);
    SortKeepsValid(entries);
    Enforced(Verdict(SortEntries(entries), policy, now.local), ctx)
  }

  ghost function PruneStep(w: World, deletes: nat, candidates: seq<Subvolume>, policy: RetentionPolicy,
                           ctx: SafetyContext, now: Zoned): Step<Schedule<Subvolume>>
    requires Valid(now.local)
  {
    var s := PruneSchedule(candidates, policy, ctx, now);
    if |s.delete| <= deletes then Step(DeleteSome(w, s.delete, deletes), deletes - |s.delete|, [], Ok(s))
    else Step(DeleteSome(w, s.delete, deletes), 0, [], Err(Command))
  }

  datatype PruneReport = PruneReport(snapshotsPruned: Schedule<Subvolume>, backupsPruned: Schedule<Subvolume>)

  ghost function PruneBothStep(w: World, deletes: nat, job: Job, snapshots: seq<Subvolume>, backups: seq<Subvolume>,
                               snapshotPreserve: set<nat>, backupPreserve: set<nat>): Step<PruneReport>
    requires job.Valid()
  {
    if !UniqueUuids(backups) then Step(w, deletes, [], Err(Verification))
    else
      var pair := LatestCommon(snapshots, backups);
      var keepSnapshots := snapshotPreserve + if pair.Some? then {pair.value.id} else {};
      var keepBackups := backupPreserve + if pair.Some? then CopyIds(pair.value, backups) else {};
      var aborted := snapshots != [] && backups == [];
      var first := PruneStep(w, deletes, backups, job.targetPolicy, SafetyContext(keepBackups, false), job.backupsNow);
      if first.result.Err? then Step(first.world, first.deletes, [], Err(first.result.error))
      else
        var second := PruneStep(first.world, first.deletes, snapshots, job.snapshotPolicy,
                                SafetyContext(keepSnapshots, aborted), job.snapshotsNow);
        if second.result.Err? then Step(second.world, second.deletes, [], Err(second.result.error))
        else Step(second.world, second.deletes, [], Ok(PruneReport(second.result.value, first.result.value)))
  }

  function InDirectory(dir: Path): Subvolume -> bool {
    (s: Subvolume) => s.FullPath().Parent() == Some(dir)
  }

  function ExistingIn(subvols: seq<Subvolume>, dir: Path): seq<Subvolume> {
    Filter(subvols, InDirectory(dir))
  }

  /** On the host the subvolume's path is that of the directory and one name more. */
  ghost predicate LiesIn(s: Subvolume, dir: Path, name: string) {
    var parts := if s.path.absolute then s.path.parts else s.mountpoint.parts + s.path.parts;
    (s.path.absolute || s.mountpoint.absolute) == dir.absolute && parts == dir.parts + [name]
  }

  /** A listing of a directory has exactly the subvolumes that lie directly in it. */
  lemma ListsDirectory(subvols: seq<Subvolume>, dir: Path, s: Subvolume)
    ensures s in ExistingIn(subvols, dir) <==> s in subvols && exists name :: LiesIn(s, dir, name)
  {
    var full := s.FullPath();
    if full.parts != [] {
      assert full.parts == full.parts[..|full.parts| - 1] + [full.parts[|full.parts| - 1]];
      assert full.Parent() == Some(dir) ==> LiesIn(s, dir, full.parts[|full.parts| - 1]);
    }
    forall name | LiesIn(s, dir, name) ensures full.Parent() == Some(dir) {
      assert full.parts[..|full.parts| - 1] == dir.parts;
    }
  }

  /** The parent and clone sources of a send, or why it is refused. */
  ghost function ParentChoice(job: Job, snapshot: Subvolume, snapshots: seq<Subvolume>, backups: seq<Subvolume>)
    : Result<ParentSelection, PortError>
  {
    if !UniqueUuids(snapshots) || !UniqueUuids(backups) then Err(Verification)
    else match Choice(snapshot, snapshots, backups, job.mode)
      case Err(_) => Err(Verification)
      case Ok(selection) => Ok(selection)
  }

  /**
   A duplicate uuid or a strict refusal is an error; otherwise a full send if nothing may serve or the mode is
   `No`, else the best parent and all others as clone sources.
   */
  lemma ParentChoiceMeans(job: Job, snapshot: Subvolume, snapshots: seq<Subvolume>, backups: seq<Subvolume>)
    ensures
      var r := ParentChoice(job, snapshot, snapshots, backups);
      && (r.Err? <==>
            || !UniqueUuids(snapshots) || !UniqueUuids(backups)
            || (job.mode == Strict && !SomeServes(snapshot, snapshots, backups, Strict)))
      && (r.Err? ==> r.error == Verification)
      && (r.Ok? ==>
            if job.mode != No && SomeServes(snapshot, snapshots, backups, job.mode)
            then WellChosen(r.value, snapshot, snapshots, backups, job.mode)
            else r.value == ParentSelection(None, []))
  {
    ChoiceAnswers(snapshot, snapshots, backups, job.mode);
  }

  function Leaves(subvols: seq<Subvolume>): seq<string> {
    if subvols == [] then []
    else (match subvols[0].path.FileName() case None => [] case Some(leaf) => [leaf]) + Leaves(subvols[1..])
  }

  /** The name the next snapshot gets. */
  function SnapshotLeaf(w: World, job: Job): string
    requires job.Valid()
  {
    NextFreeName(MakeName(job.basename, job.now, job.format), Leaves(ExistingIn(w.source, job.source.Directory())))
  }

  function NewSubvolume(site: Site, leaf: string, a: Assigned, receivedUuid: Option<Uuid>, readonly: bool): Subvolume {
    Subvolume(a.id, Some(a.uuid), a.parentUuid, receivedUuid, a.generation, a.cgen, readonly, site.Entry(leaf),
              site.fsUuid, site.mountpoint)
  }

  predicate Taken(subvols: seq<Subvolume>, path: Path) {
    exists i :: 0 <= i < |subvols| && subvols[i].FullPath() == path
  }

  predicate TakenOnHost(w: World, path: Path) {
    Taken(w.source, path) || Taken(w.target, path)
  }

  /** A read-only subvolume of the source stands at `path`. */
  predicate SealedAt(w: World, path: Path) {
    exists i :: 0 <= i < |w.source| && w.source[i].FullPath() == path && w.source[i].readonly
  }

  /** Where `btrfs subvolume snapshot` puts the new subvolume: at a free path, else inside what is there. */
  function SnapshotParts(w: World, job: Job, leaf: string): seq<string> {
    if TakenOnHost(w, job.source.mountpoint.Join(job.source.Entry(leaf))) then job.source.dir + [leaf, job.sourceLeaf]
    else job.source.dir + [leaf]
  }

  /**
   `create_readonly`: snapshot, show the destination, refuse a writable result. A snapshot onto a path
   that is taken lands inside what is there, unless that is read-only or on the other filesystem; what
   is shown then is the occupant, so the call fails.
   */
  function CreateStep(w: World, job: Job, leaf: string, answer: SnapshotAnswer): (World, Result<Subvolume, PortError>) {
    var path := job.source.mountpoint.Join(job.source.Entry(leaf));
    var at := Path(false, SnapshotParts(w, job, leaf));
    if answer.Refused? || Taken(w.target, path) || SealedAt(w, path)
      || TakenOnHost(w, job.source.mountpoint.Join(at)) then
      (w, Err(Command))
    else
      var s := NewSubvolume(job.source, leaf, answer.made, None, answer.Created? || answer.readonly).(path := at);
      (w.(source := w.source + [s]), if answer.Created? && !Taken(w.source, path) then Ok(s) else Err(Verification))
  }

  function NotGarbledAt(path: Path): Subvolume -> bool {
    (s: Subvolume) => s.FullPath() != path || !s.IsGarbled()
  }

  /** What is garbled at `path` is deleted. */
  function ClearGarbled(w: World, path: Path): World {
    World(Filter(w.source, NotGarbledAt(path)), Filter(w.target, NotGarbledAt(path)))
  }

  /**
   Send and receive. A success is read-only and carries the source's uuid as `received_uuid`. A receive
   onto a path that is taken fails. After a failure whatever garbled subvolume is found at the path is
   deleted, if that deletion works.
   */
  function TransferStep(w: World, job: Job, snapshot: Subvolume, answer: TransferAnswer)
    : (World, Result<Subvolume, PortError>)
  {
    match snapshot.path.FileName()
    case None => (w, Err(Command))
    case Some(leaf) =>
      var path := job.target.mountpoint.Join(job.target.Entry(leaf));
      if TakenOnHost(w, path) then
        (if answer.Broken? && !answer.cleans then w else ClearGarbled(w, path), Err(Command))
      else match answer
        case Received(a) =>
          var b := NewSubvolume(job.target, leaf, a, snapshot.uuid, true);
          (w.(target := w.target + [b]), if snapshot.uuid.Some? then Ok(b) else Err(Verification))
        case Broken(None, _) => (w, Err(Command))
        case Broken(Some(l), cleans) =>
          var b := NewSubvolume(job.target, leaf, l.made, l.receivedUuid, l.readonly);
          (if b.IsGarbled() && cleans then w else w.(target := w.target + [b]), Err(Command))
  }

  /** `if !list.any(|x| x.id == s.id) { list.push(s) }` */
  function Including(subvols: seq<Subvolume>, s: Subvolume): seq<Subvolume> {
    if exists i :: 0 <= i < |subvols| && subvols[i].id == s.id then subvols else subvols + [s]
  }

  datatype RunReport = RunReport(snapshot: Subvolume, backup: Subvolume, pruned: PruneReport)

  /** Choose a parent, transfer, then prune both sides around what was just created. */
  ghost function SendAndPrune(w: World, ports: Ports, job: Job, snapshot: Subvolume, snapshots: seq<Subvolume>,
                              backups: seq<Subvolume>, snapshotPreserve: set<nat>): Step<RunReport>
    requires job.Valid()
  {
    var choice := ParentChoice(job, snapshot, snapshots, backups);
    if choice.Err? then Step(w, ports.deletes, [], Err(choice.error))
    else
      var sent := [Sent(snapshot, choice.value, SendArgs(snapshot, choice.value))];
      var (w', received) := TransferStep(w, job, snapshot, ports.transfer);
      if received.Err? then Step(w', ports.deletes, sent, Err(received.error))
      else
        var pruned := PruneBothStep(w', ports.deletes, job, snapshots, Including(backups, received.value),
                                    snapshotPreserve, {received.value.id});
        Step(pruned.world, pruned.deletes, sent,
             if pruned.result.Err? then Err(pruned.result.error)
             else Ok(RunReport(snapshot, received.value, pruned.result.value)))
  }

  ghost function RunStep(w: World, ports: Ports, job: Job): Step<RunReport>
    requires job.Valid()
  {
    var (w', created) := CreateStep(w, job, SnapshotLeaf(w, job), ports.snapshot);
    if created.Err? then Step(w', ports.deletes, [], Err(created.error))
    else
      var snapshot := created.value;
      SendAndPrune(w', ports, job, snapshot, Including(ExistingIn(w'.source, job.source.Directory()), snapshot),
                   ExistingIn(w'.target, job.target.Directory()), {snapshot.id})
  }

  function NameBasename(s: Subvolume): Option<string> {
    match s.path.FileName()
    case None => None
    case Some(leaf) => match ParseName(leaf) case None => None case Some(parsed) => Some(parsed.basename)
  }

  function NeedsCopy(basename: string, backups: seq<Subvolume>): Subvolume -> bool {
    (s: Subvolume) => NameBasename(s) == Some(basename) && Correlates(s, backups) == []
  }

  predicate StrictlyNewer(a: Subvolume, b: Subvolume) { !NewestFirst(b, a) }

  /** `max_by` over (generation, id): of equal elements the last one wins. */
  function Newest(s: seq<Subvolume>): (r: Option<Subvolume>)
    ensures r.Some? <==> s != []
    ensures r.Some? ==> r.value in s && forall x :: x in s ==> NoOlder(r.value, x)
  {
    if s == [] then None
    else
      var n := |s| - 1;
      assert s == s[..n] + [s[n]];
      assert forall x :: NewestFirst(s[n], x) <==> NoOlder(s[n], x);
      match Newest(s[..n])
      case None => Some(s[n])
      case Some(best) => if StrictlyNewer(best, s[n]) then Some(best) else Some(s[n])
  }

  /** The snapshot a resume sends. */
  function Due(snapshots: seq<Subvolume>, backups: seq<Subvolume>, basename: string): Option<Subvolume> {
    Newest(Filter(snapshots, NeedsCopy(basename, backups)))
  }

  datatype ResumeReport = ResumeReport(transferred: Option<Subvolume>, pruned: PruneReport)

  ghost function ResumeStep(w: World, ports: Ports, job: Job): Step<ResumeReport>
    requires job.Valid()
  {
    var snapshots := ExistingIn(w.source, job.source.Directory());
    var backups := ExistingIn(w.target, job.target.Directory());
    if !UniqueUuids(backups) then Step(w, ports.deletes, [], Err(Verification))
    else ResumeWith(w, ports, job, snapshots, backups, Due(snapshots, backups, job.basename))
  }

  /** Send what is due, or just prune. */
  ghost function ResumeWith(w: World, ports: Ports, job: Job, snapshots: seq<Subvolume>, backups: seq<Subvolume>,
                            due: Option<Subvolume>): Step<ResumeReport>
    requires job.Valid()
  {
    match due
    case None =>
      var pruned := PruneBothStep(w, ports.deletes, job, snapshots, backups, {}, {});
      Step(pruned.world, pruned.deletes, [],
           if pruned.result.Err? then Err(pruned.result.error) else Ok(ResumeReport(None, pruned.result.value)))
    case Some(snapshot) =>
      var run := SendAndPrune(w, ports, job, snapshot, snapshots, backups, {});
      Step(run.world, run.deletes, run.sent,
           if run.result.Err? then Err(run.result.error)
           else Ok(ResumeReport(Some(run.result.value.backup), run.result.value.pruned)))
  }

  ghost function PruneOnlyStep(w: World, deletes: nat, job: Job): Step<PruneReport>
    requires job.Valid()
  {
    PruneBothStep(w, deletes, job, ExistingIn(w.source, job.source.Directory()),
      ExistingIn(w.target, job.target.Directory()),
                  {}, {})
  }

  // ---------------------------------------------------------------------------
  // The ports
  // ---------------------------------------------------------------------------

  class Host {
    var world: World
    var ports: Ports
    ghost var sent: seq<Sent>

    constructor (world: World, ports: Ports)
      ensures this.world == world && this.ports == ports && sent == []
    {
      this.world, this.ports, this.sent := world, ports, [];
    }

    method CreateReadonly(job: Job, leaf: string) returns (r: Result<Subvolume, PortError>)
      modifies this`world
      ensures (world, r) == CreateStep(old(world), job, leaf, ports.snapshot)
    {
      var (w, answer) := CreateStep(world, job, leaf, ports.snapshot);
      world, r := w, answer;
    }

    method SendReceive(job: Job, snapshot: Subvolume, selection: ParentSelection)
      returns (r: Result<Subvolume, PortError>)
      modifies this`world, this`sent
      ensures (world, r) == TransferStep(old(world), job, snapshot, ports.transfer)
      ensures sent == old(sent) + [Sent(snapshot, selection, SendArgs(snapshot, selection))]
    {
      var command := BuildSendArgs(snapshot, selection);
      var (w, answer) := TransferStep(world, job, snapshot, ports.transfer);
      world, r := w, answer;
      sent := sent + [Sent(snapshot, selection, command)];
    }

    method Delete(path: Path) returns (ok: bool)
      modifies this`world, this`ports
      ensures ok == (old(ports).deletes > 0)
      ensures world == if ok then DeletePath(old(world), path) else old(world)
      ensures ports == if ok then old(ports).(deletes := old(ports).deletes - 1) else old(ports)
    {
      ok := ports.deletes > 0;
      if ok {
        world, ports := DeletePath(world, path), ports.(deletes := ports.deletes - 1);
      }
    }
  }

  // ---------------------------------------------------------------------------
  // The services
  // ---------------------------------------------------------------------------

  class RetentionService {
    const host: Host

    constructor (host: Host)
      ensures this.host == host
    {
      this.host := host;
    }

    method CollectEntries(candidates: seq<Subvolume>, now: Zoned) returns (entries: seq<DatedEntry<Subvolume>>)
      ensures entries == DatedEntries(candidates, now.offset)
    {
      entries := [];
      for i := 0 to |candidates|
        invariant entries == DatedEntries(candidates[..i], now.offset)
      {
        assert candidates[..i + 1][..i] == candidates[..i];
        entries := entries + OwnEntries(candidates[i], now.offset);
      }
      assert candidates[..|candidates|] == candidates;
    }

    /** Schedule, apply the anchors, delete fail-fast. `now` is what the clock says at this call. */
    method Prune(candidates: seq<Subvolume>, policy: RetentionPolicy, ctx: SafetyContext, now: Zoned)
      returns (r: Result<Schedule<Subvolume>, PortError>)
      requires Valid(now.local) && policy.Valid()
      modifies host`world, host`ports
      ensures
        var s := PruneStep(old(host.world), old(host.ports).deletes, candidates, policy, ctx, now);
        host.world == s.world && host.ports == old(host.ports).(deletes := s.deletes) && r == s.result
    {
      var entries := CollectEntries(candidates, now);
      var scheduled := ScheduleEntries(entries, policy, now.local);
      var safe := Enforce(scheduled, ctx);
      var ok := DeleteAll(safe.delete);
      r := if ok then Ok(safe) else Err(Command);
    }

    /** The delete loop: give up at the first failure. */
    method DeleteAll(victims: seq<Subvolume>) returns (ok: bool)
      modifies host`world, host`ports
      ensures ok <==> |victims| <= old(host.ports).deletes
      ensures host.world == DeleteSome(old(host.world), victims, old(host.ports).deletes)
      ensures host.ports == old(host.ports).(deletes := if ok then old(host.ports).deletes - |victims| else 0)
    {
      ghost var w, budget := host.world, host.ports.deletes;
      for i := 0 to |victims|
        invariant i <= budget && host.ports == old(host.ports).(deletes := budget - i)
        invariant DeleteSome(host.world, victims[i..], budget - i) == DeleteSome(w, victims, budget)
      {
        assert victims[i..][1..] == victims[i + 1..];
        var deleted := host.Delete(victims[i].FullPath());
        if !deleted {
          return false;
        }
      }
      ok := true;
    }
  }

  /** Builds the target graph and the two preserve sets around the latest common pair. */
  method Anchors(snapshots: seq<Subvolume>, backups: seq<Subvolume>, snapshotSeed: set<nat>, backupSeed: set<nat>)
    returns (r: Result<(set<nat>, set<nat>), PortError>)
    ensures
      var pair := LatestCommon(snapshots, backups);
      r == if !UniqueUuids(backups) then Err(Verification)
           else Ok((snapshotSeed + (if pair.Some? then {pair.value.id} else {}),
                    backupSeed + (if pair.Some? then CopyIds(pair.value, backups) else {})))
  {
    var graph := Build(backups);
    if graph.Err? {
      return Err(Verification);
    }
    var snapshotPreserve, backupPreserve := snapshotSeed, backupSeed;
    var pair := LatestCommonPair(snapshots, graph.value);
    if pair.Some? {
      snapshotPreserve := snapshotPreserve + {pair.value.snapshot.id};
      var ids := CollectIds(pair.value.backups);
      backupPreserve := backupPreserve + ids;
      assert ids == CopyIds(pair.value.snapshot, backups);
    }
    assert snapshotSeed + {} == snapshotSeed && backupSeed + {} == backupSeed;
    r := Ok((snapshotPreserve, backupPreserve));
  }

  class BackupService {
    const host: Host
    const job: Job
    const retention: RetentionService

    predicate Wired() { job.Valid() && retention.host == host }

    constructor (host: Host, job: Job, retention: RetentionService)
      requires job.Valid() && retention.host == host
      ensures this.host == host && this.job == job && Wired()
    {
      this.host, this.job, this.retention := host, job, retention;
    }

    method Snapshot() returns (r: Result<Subvolume, PortError>)
      requires Wired()
      modifies host`world
      ensures (host.world, r)
        == CreateStep(old(host.world), job, SnapshotLeaf(old(host.world), job), host.ports.snapshot)
    {
      var base := MakeName(job.basename, job.now, job.format);
      var existing := ExistingIn(host.world.source, job.source.Directory());
      var freeName := NextFreeName(base, Leaves(existing));
      r := host.CreateReadonly(job, freeName);
    }

    method ChooseParent(snapshot: Subvolume, snapshots: seq<Subvolume>, backups: seq<Subvolume>)
      returns (r: Result<ParentSelection, PortError>)
      requires Wired()
      ensures r == ParentChoice(job, snapshot, snapshots, backups)
    {
      var source := Build(snapshots);
      if source.Err? {
        return Err(Verification);
      }
      var target := Build(backups);
      if target.Err? {
        return Err(Verification);
      }
      var selection := BestParent(snapshot, source.value, target.value, job.mode);
      match selection {
        case Err(_) => return Err(Verification);
        case Ok(s) => return Ok(s);
      }
    }

    method PruneBoth(snapshots: seq<Subvolume>, backups: seq<Subvolume>, snapshotSeed: set<nat>, backupSeed: set<nat>)
      returns (r: Result<PruneReport, PortError>)
      requires Wired()
      modifies host`world, host`ports
      ensures
        var s := PruneBothStep(old(host.world), old(host.ports).deletes, job, snapshots, backups, snapshotSeed,
          backupSeed);
        host.world == s.world && host.ports == old(host.ports).(deletes := s.deletes) && r == s.result
    {
      var anchors := Anchors(snapshots, backups, snapshotSeed, backupSeed);
      if anchors.Err? {
        return Err(anchors.error);
      }
      var (snapshotPreserve, backupPreserve) := anchors.value;
      var targetAborted := snapshots != [] && backups == [];
      var backupsPruned := retention.Prune(backups, job.targetPolicy, SafetyContext(backupPreserve, false),
        job.backupsNow);
      if backupsPruned.Err? {
        return Err(backupsPruned.error);
      }
      var snapshotsPruned := retention.Prune(snapshots, job.snapshotPolicy,
        SafetyContext(snapshotPreserve, targetAborted), job.snapshotsNow);
      if snapshotsPruned.Err? {
        return Err(snapshotsPruned.error);
      }
      r := Ok(PruneReport(snapshotsPruned.value, backupsPruned.value));
    }

    /** The part `run` and `resume` share: choose a parent, transfer, prune. */
    method Send(snapshot: Subvolume, snapshots: seq<Subvolume>, backups: seq<Subvolume>, snapshotSeed: set<nat>)
      returns (r: Result<RunReport, PortError>)
      requires Wired()
      modifies host`world, host`ports, host`sent
      ensures
        var s := SendAndPrune(old(host.world), old(host.ports), job, snapshot, snapshots, backups, snapshotSeed);
        && host.world == s.world && host.ports == old(host.ports).(deletes := s.deletes)
        && host.sent == old(host.sent) + s.sent && r == s.result
    {
      var selection := ChooseParent(snapshot, snapshots, backups);
      if selection.Err? {
        return Err(selection.error);
      }
      var received := host.SendReceive(job, snapshot, selection.value);
      if received.Err? {
        return Err(received.error);
      }
      var pruned := PruneBoth(snapshots, Including(backups, received.value), snapshotSeed, {received.value.id});
      if pruned.Err? {
        return Err(pruned.error);
      }
      r := Ok(RunReport(snapshot, received.value, pruned.value));
    }

    /** The full cycle: snapshot, send, prune. */
    method Run() returns (r: Result<RunReport, PortError>)
      requires Wired()
      modifies host`world, host`ports, host`sent
      ensures
        var s := RunStep(old(host.world), old(host.ports), job);
        && host.world == s.world && host.ports == old(host.ports).(deletes := s.deletes)
        && host.sent == old(host.sent) + s.sent && r == s.result
    {
      var created := Snapshot();
      if created.Err? {
        return Err(created.error);
      }
      var snapshots := Including(ExistingIn(host.world.source, job.source.Directory()), created.value);
      var backups := ExistingIn(host.world.target, job.target.Directory());
      r := Send(created.value, snapshots, backups, {created.value.id});
    }

    /** The two filters of `resume`: the basename, and no copy on the target. */
    method NeedsSending(s: Subvolume, graph: RelationshipGraph) returns (ok: bool)
      requires graph.Valid()
      ensures ok == NeedsCopy(job.basename, graph.subvols)(s)
    {
      var copies := TargetCorrelates(s, graph);
      CopiesAgree(s, graph.subvols, copies);
      ok := NameBasename(s) == Some(job.basename) && copies == [];
    }

    /** The filter chain of `resume`. */
    method CollectWaiting(snapshots: seq<Subvolume>, graph: RelationshipGraph) returns (waiting: seq<Subvolume>)
      requires graph.Valid()
      ensures waiting == Filter(snapshots, NeedsCopy(job.basename, graph.subvols))
    {
      ghost var p := NeedsCopy(job.basename, graph.subvols);
      waiting := [];
      for i := 0 to |snapshots|
        invariant waiting == Filter(snapshots[..i], p)
      {
        ghost var before := waiting;
        var needed := NeedsSending(snapshots[i], graph);
        if needed {
          waiting := waiting + [snapshots[i]];
        }
        FilterPush(snapshots, i, p, before, needed, waiting);
      }
      assert snapshots[..|snapshots|] == snapshots;
    }

    /** The latest snapshot of the basename without a copy. */
    method FindDue(snapshots: seq<Subvolume>, graph: RelationshipGraph) returns (due: Option<Subvolume>)
      requires Wired() && graph.Valid()
      ensures due == Due(snapshots, graph.subvols, job.basename)
    {
      var waiting := CollectWaiting(snapshots, graph);
      due := Newest(waiting);
    }

    /** Send the latest uncopied snapshot, if any; then prune. */
    method Resume() returns (r: Result<ResumeReport, PortError>)
      requires Wired()
      modifies host`world, host`ports, host`sent
      ensures
        var s := ResumeStep(old(host.world), old(host.ports), job);
        && host.world == s.world && host.ports == old(host.ports).(deletes := s.deletes)
        && host.sent == old(host.sent) + s.sent && r == s.result
    {
      var snapshots := ExistingIn(host.world.source, job.source.Directory());
      var backups := ExistingIn(host.world.target, job.target.Directory());
      var graph := Build(backups);
      if graph.Err? {
        return Err(Verification);
      }
      var due := FindDue(snapshots, graph.value);
      r := ResumeListed(snapshots, backups, due);
    }

    /** The rest of `resume`, once the latest snapshot without a copy was looked up. */
    method ResumeListed(snapshots: seq<Subvolume>, backups: seq<Subvolume>, due: Option<Subvolume>)
      returns (r: Result<ResumeReport, PortError>)
      requires Wired()
      modifies host`world, host`ports, host`sent
      ensures
        var s := ResumeWith(old(host.world), old(host.ports), job, snapshots, backups, due);
        && host.world == s.world && host.ports == old(host.ports).(deletes := s.deletes)
        && host.sent == old(host.sent) + s.sent && r == s.result
    {
      if due.Some? {
        var run := Send(due.value, snapshots, backups, {});
        if run.Err? {
          return Err(run.error);
        }
        return Ok(ResumeReport(Some(run.value.backup), run.value.pruned));
      }
      var pruned := PruneBoth(snapshots, backups, {}, {});
      if pruned.Err? {
        return Err(pruned.error);
      }
      r := Ok(ResumeReport(None, pruned.value));
    }

    /** Standalone prune of both sides. */
    method Prune() returns (r: Result<PruneReport, PortError>)
      requires Wired()
      modifies host`world, host`ports
      ensures
        var s := PruneOnlyStep(old(host.world), old(host.ports).deletes, job);
        host.world == s.world && host.ports == old(host.ports).(deletes := s.deletes) && r == s.result
    {
      var snapshots := ExistingIn(host.world.source, job.source.Directory());
      var backups := ExistingIn(host.world.target, job.target.Directory());
      r := PruneBoth(snapshots, backups, {}, {});
    }
  }

  /** The second implementation of the anchored prune, crates/application/src/prune.rs. */
  class PruneService {
    const host: Host
    const job: Job
    const retention: RetentionService

    constructor (host: Host, job: Job, retention: RetentionService)
      ensures this.host == host && this.job == job && this.retention == retention
    {
      this.host, this.job, this.retention := host, job, retention;
    }

    method PreserveSets(snapshots: seq<Subvolume>, graph: RelationshipGraph)
      returns (snapshotPreserve: set<nat>, backupPreserve: set<nat>)
      requires graph.Valid()
      ensures
        var pair := LatestCommon(snapshots, graph.subvols);
        && snapshotPreserve == {} + (if pair.Some? then {pair.value.id} else {})
        && backupPreserve == {} + (if pair.Some? then CopyIds(pair.value, graph.subvols) else {})
    {
      snapshotPreserve, backupPreserve := {}, {};
      var pair := LatestCommonPair(snapshots, graph);
      if pair.Some? {
        snapshotPreserve := snapshotPreserve + {pair.value.snapshot.id};
        var ids := CollectIds(pair.value.backups);
        backupPreserve := backupPreserve + ids;
        assert ids == CopyIds(pair.value.snapshot, graph.subvols);
      }
    }

    method Prune() returns (r: Result<PruneReport, PortError>)
      requires job.Valid() && retention.host == host
      modifies host`world, host`ports
      ensures
        var s := PruneOnlyStep(old(host.world), old(host.ports).deletes, job);
        host.world == s.world && host.ports == old(host.ports).(deletes := s.deletes) && r == s.result
    {
      var snapshots := ExistingIn(host.world.source, job.source.Directory());
      var backups := ExistingIn(host.world.target, job.target.Directory());
      var graph := Build(backups);
      if graph.Err? {
        return Err(Verification);
      }
      var snapshotPreserve, backupPreserve := PreserveSets(snapshots, graph.value);
      var targetAborted := snapshots != [] && backups == [];
      var backupsPruned := retention.Prune(backups, job.targetPolicy, SafetyContext(backupPreserve, false),
        job.backupsNow);
      if backupsPruned.Err? {
        return Err(backupsPruned.error);
      }
      var snapshotsPruned := retention.Prune(snapshots, job.snapshotPolicy,
        SafetyContext(snapshotPreserve, targetAborted), job.snapshotsNow);
      if snapshotsPruned.Err? {
        return Err(snapshotsPruned.error);
      }
      r := Ok(PruneReport(snapshotsPruned.value, backupsPruned.value));
    }
  }
}
