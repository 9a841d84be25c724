/**
 Resuming drains the backlog: under keep-all policies every successful `resume` sends the newest
 snapshot of the basename that has no copy, until none is left.
 */
module ServiceDrain {
  import opened Wrappers
  import opened Sequences
  import opened Calendar
  import opened Retention
  import opened Naming
  import opened Model
  import opened Parent
  import opened Safety
  import opened Service
  import opened ServiceLaws
  import opened ServiceRuns

  function Snapshots(w: World, job: Job): seq<Subvolume> { ExistingIn(w.source, job.source.Directory()) }

  function Backups(w: World, job: Job): seq<Subvolume> { ExistingIn(w.target, job.target.Directory()) }

  /** The snapshots of the basename that have no copy, in listing order. */
  function Waiting(w: World, job: Job): seq<Subvolume> {
    Filter(Snapshots(w, job), NeedsCopy(job.basename, Backups(w, job)))
  }

  ghost predicate KeepsAll(job: Job) {
    job.Valid() && job.snapshotPolicy.preserveMin == KeepAll && job.targetPolicy.preserveMin == KeepAll
  }

  // ---------------------------------------------------------------------------
  // A keep-all prune does nothing
  // ---------------------------------------------------------------------------

  lemma KeepAllDeletesNothing(w: World, deletes: nat, candidates: seq<Subvolume>, policy: RetentionPolicy,
                              ctx: SafetyContext, now: Zoned)
    requires Valid(now.local) && policy.preserveMin == KeepAll
    ensures
      var r := PruneStep(w, deletes, candidates, policy, ctx, now);
      r.world == w && r.deletes == deletes && r.result.Ok?
  {
    var victims := PruneSchedule(candidates, policy, ctx, now).delete;
    if victims != [] {
      VictimsAreFair(candidates, policy, ctx, now, victims[0]);
    }
  }

  lemma KeepAllPrunesNothing(w: World, deletes: nat, job: Job, snapshots: seq<Subvolume>, backups: seq<Subvolume>,
                             sp: set<nat>, bp: set<nat>)
    requires KeepsAll(job)
    ensures
      var r := PruneBothStep(w, deletes, job, snapshots, backups, sp, bp);
      r.world == w && r.deletes == deletes && (r.result.Ok? <==> UniqueUuids(backups))
  {
    if UniqueUuids(backups) {
      var pair := LatestCommon(snapshots, backups);
      var keepSnapshots := sp + if pair.Some? then {pair.value.id} else {};
      var keepBackups := bp + if pair.Some? then CopyIds(pair.value, backups) else {};
      var aborted := snapshots != [] && backups == [];
      KeepAllDeletesNothing(w, deletes, backups, job.targetPolicy, SafetyContext(keepBackups, false), job.backupsNow);
      KeepAllDeletesNothing(w, deletes, snapshots, job.snapshotPolicy,
                            SafetyContext(keepSnapshots, aborted), job.snapshotsNow);
    }
  }

  // ---------------------------------------------------------------------------
  // One resume
  // ---------------------------------------------------------------------------

  /** With nothing due, a resume changes nothing and reports that nothing was transferred. */
  lemma NothingDue(w: World, ports: Ports, job: Job)
    requires KeepsAll(job) && Waiting(w, job) == []
    ensures
      var r := ResumeStep(w, ports, job);
      && r.world == w && r.deletes == ports.deletes && r.sent == []
      && (r.result.Ok? <==> UniqueUuids(Backups(w, job)))
      && (r.result.Ok? ==> r.result.value.transferred == None)
  {
    KeepAllPrunesNothing(w, ports.deletes, job, Snapshots(w, job), Backups(w, job), {}, {});
  }

  /** The backup a successful transfer of `snapshot` leaves. */
  function CopyOf(job: Job, snapshot: Subvolume, a: Assigned): Subvolume
    requires snapshot.path.FileName().Some?
  {
    NewSubvolume(job.target, snapshot.path.FileName().value, a, snapshot.uuid, true)
  }

  lemma TransferAddsCopy(w: World, job: Job, snapshot: Subvolume, answer: TransferAnswer)
    requires TransferStep(w, job, snapshot, answer).1.Ok?
    ensures answer.Received? && snapshot.path.FileName().Some?
    ensures
      var b := CopyOf(job, snapshot, answer.backup);
      TransferStep(w, job, snapshot, answer) == (w.(target := w.target + [b]), Ok(b))
  {
  }

  lemma SendAddsCopy(w: World, ports: Ports, job: Job, snapshot: Subvolume, snapshots: seq<Subvolume>,
                     backups: seq<Subvolume>)
    requires KeepsAll(job) && SendAndPrune(w, ports, job, snapshot, snapshots, backups, {}).result.Ok?
    ensures ports.transfer.Received? && snapshot.path.FileName().Some? && UniqueUuids(snapshots)
    ensures
      var r := SendAndPrune(w, ports, job, snapshot, snapshots, backups, {});
      var b := CopyOf(job, snapshot, ports.transfer.backup);
      && |r.sent| == 1 && r.sent[0].snapshot == snapshot
      && r.world == w.(target := w.target + [b]) && r.result.value.backup == b
  {
    var (w', received) := TransferStep(w, job, snapshot, ports.transfer);
    assert received.Ok?;
    TransferAddsCopy(w, job, snapshot, ports.transfer);
    KeepAllPrunesNothing(w', ports.deletes, job, snapshots, Including(backups, received.value), {},
      {received.value.id});
  }

  /** A resume with something due is a send of it. */
  lemma ResumeIsSend(w: World, ports: Ports, job: Job)
    requires job.Valid() && Waiting(w, job) != [] && ResumeStep(w, ports, job).result.Ok?
    ensures
      var r := ResumeStep(w, ports, job);
      var run := SendAndPrune(w, ports, job, Newest(Waiting(w, job)).value, Snapshots(w, job), Backups(w, job), {});
      && run.result.Ok? && r.world == run.world && r.sent == run.sent
      && r.result.value.transferred == Some(run.result.value.backup)
  {
    assert Due(Snapshots(w, job), Backups(w, job), job.basename) == Newest(Waiting(w, job));
  }

  /** A successful resume with something due has sent the newest waiting snapshot and changed nothing else. */
  lemma SendsNewest(w: World, ports: Ports, job: Job)
    requires KeepsAll(job) && Waiting(w, job) != [] && ResumeStep(w, ports, job).result.Ok?
    ensures Newest(Waiting(w, job)).value.path.FileName().Some? && ports.transfer.Received?
    ensures UniqueUuids(Snapshots(w, job))
    ensures
      var r := ResumeStep(w, ports, job);
      var due := Newest(Waiting(w, job)).value;
      var b := CopyOf(job, due, ports.transfer.backup);
      && |r.sent| == 1 && r.sent[0].snapshot == due
      && r.world == w.(target := w.target + [b])
      && r.result.value.transferred == Some(b)
  {
    ResumeIsSend(w, ports, job);
    SendAddsCopy(w, ports, job, Newest(Waiting(w, job)).value, Snapshots(w, job), Backups(w, job));
  }

  lemma UniqueWithFresh(backups: seq<Subvolume>, b: Subvolume)
    requires UniqueUuids(backups) && forall i :: 0 <= i < |backups| ==> backups[i].uuid != b.uuid
    ensures UniqueUuids(Including(backups, b))
  {
  }

  lemma NonStrictHasChoice(job: Job, snapshot: Subvolume, snapshots: seq<Subvolume>, backups: seq<Subvolume>)
    requires job.mode != Strict && UniqueUuids(snapshots) && UniqueUuids(backups)
    ensures ParentChoice(job, snapshot, snapshots, backups).Ok?
  {
  }

  /** Once a parent choice is made, a send under keep-all policies fails only with its transfer or its prune. */
  lemma SendResult(w: World, ports: Ports, job: Job, snapshot: Subvolume, snapshots: seq<Subvolume>,
                   backups: seq<Subvolume>)
    requires KeepsAll(job) && ParentChoice(job, snapshot, snapshots, backups).Ok?
    ensures
      var received := TransferStep(w, job, snapshot, ports.transfer).1;
      SendAndPrune(w, ports, job, snapshot, snapshots, backups, {}).result.Ok?
      <==> received.Ok? && UniqueUuids(Including(backups, received.value))
  {
    var (w', received) := TransferStep(w, job, snapshot, ports.transfer);
    if received.Ok? {
      KeepAllPrunesNothing(w', ports.deletes, job, snapshots, Including(backups, received.value), {},
        {received.value.id});
    }
  }

  lemma SendSucceeds(w: World, ports: Ports, job: Job, snapshot: Subvolume, snapshots: seq<Subvolume>,
                     backups: seq<Subvolume>)
    requires KeepsAll(job) && job.mode != Strict && UniqueUuids(snapshots) && UniqueUuids(backups)
    requires ports.transfer.Received? ==> FreshOn(backups, ports.transfer.backup)
    ensures SendAndPrune(w, ports, job, snapshot, snapshots, backups, {}).result.Ok?
       <==> TransferStep(w, job, snapshot, ports.transfer).1.Ok?
  {
    NonStrictHasChoice(job, snapshot, snapshots, backups);
    SendResult(w, ports, job, snapshot, snapshots, backups);
    var received := TransferStep(w, job, snapshot, ports.transfer).1;
    if received.Ok? {
      TransferAddsCopy(w, job, snapshot, ports.transfer);
      UniqueWithFresh(backups, received.value);
    }
  }

  /** Outside strict mode a resume succeeds if and only if its transfer does, or it has nothing to send. */
  lemma ResumeSucceeds(w: World, ports: Ports, job: Job)
    requires KeepsAll(job) && job.mode != Strict && UniqueUuids(Snapshots(w, job)) && UniqueUuids(Backups(w, job))
    requires ports.transfer.Received? ==> FreshOn(Backups(w, job), ports.transfer.backup)
    ensures ResumeStep(w, ports, job).result.Ok?
       <==> (Waiting(w, job) != [] ==> TransferStep(w, job, Newest(Waiting(w, job)).value, ports.transfer).1.Ok?)
  {
    if Waiting(w, job) == [] {
      NothingDue(w, ports, job);
    } else {
      var due := Newest(Waiting(w, job)).value;
      assert Due(Snapshots(w, job), Backups(w, job), job.basename) == Some(due);
      SendSucceeds(w, ports, job, due, Snapshots(w, job), Backups(w, job));
    }
  }

  lemma {:induction false} OneMoreCopy(s: Subvolume, backups: seq<Subvolume>, b: Subvolume)
    ensures Correlates(s, backups + [b]) == Correlates(s, backups) + Filter([b], CorrelatedWith(s))
  {
    FilterConcat(backups, [b], CorrelatedWith(s));
  }

  /** What still waits once `b` has arrived. */
  function Unserved(b: Subvolume): Subvolume -> bool {
    (s: Subvolume) => !IsCorrelated(s, b)
  }

  /** The backlog once one more backup has arrived: what it does not serve. */
  lemma BacklogWith(w: World, job: Job, b: Subvolume)
    requires InDirectory(job.target.Directory())(b)
    ensures Waiting(w.(target := w.target + [b]), job) == Filter(Waiting(w, job), Unserved(b))
  {
    FilterConcat(w.target, [b], InDirectory(job.target.Directory()));
    var backups := Backups(w, job);
    assert Backups(w.(target := w.target + [b]), job) == backups + [b];
    forall s | s in Snapshots(w, job)
      ensures NeedsCopy(job.basename, backups + [b])(s) == (NeedsCopy(job.basename, backups)(s) && Unserved(b)(s))
    {
      OneMoreCopy(s, backups, b);
    }
    FilterTwice(Snapshots(w, job), NeedsCopy(job.basename, backups), Unserved(b),
      NeedsCopy(job.basename, backups + [b]));
  }

  // ---------------------------------------------------------------------------
  // Draining
  // ---------------------------------------------------------------------------

  /** Each waiting snapshot can be copied on its own: read-only, with a uuid that no other one was received from. */
  predicate Independent(waiting: seq<Subvolume>) {
    && (forall i :: 0 <= i < |waiting| ==> waiting[i].readonly && waiting[i].uuid.Some?)
    && (forall i, j :: 0 <= i < |waiting| && 0 <= j < |waiting| ==> waiting[i].receivedUuid != waiting[j].uuid)
    && UniqueUuids(waiting)
  }

  /** The uuid the kernel gives the backup is not one a waiting snapshot was received from. */
  predicate FreshUuid(waiting: seq<Subvolume>, answer: TransferAnswer) {
    answer.Received? ==> forall i :: 0 <= i < |waiting| ==> waiting[i].receivedUuid != Some(answer.backup.uuid)
  }

  lemma {:induction false} FilterAllBut<T>(s: seq<T>, k: nat, p: T -> bool)
    requires k < |s| && forall i :: 0 <= i < |s| ==> (p(s[i]) <==> i != k)
    ensures Filter(s, p) == s[..k] + s[k + 1..]
  {
    if k > 0 {
      assert forall i :: 0 <= i < |s[1..]| ==> s[1..][i] == s[i + 1];
      FilterAllBut(s[1..], k - 1, p);
      assert s[..k] + s[k + 1..] == [s[0]] + (s[1..][..k - 1] + s[1..][k..]);
    } else {
      FilterAll(s[1..], p);
      assert s[..0] + s[1..] == s[1..];
    }
  }

  lemma OnlyItsOwn(waiting: seq<Subvolume>, k: nat, b: Subvolume)
    requires Independent(waiting) && k < |waiting|
    requires b.readonly && b.receivedUuid == waiting[k].uuid && b.uuid.Some?
    requires forall i :: 0 <= i < |waiting| ==> waiting[i].receivedUuid != b.uuid
    ensures Filter(waiting, Unserved(b)) == waiting[..k] + waiting[k + 1..]
  {
    forall i | 0 <= i < |waiting| ensures Unserved(b)(waiting[i]) <==> i != k {
      assert waiting[i].receivedUuid != waiting[k].uuid;
      if i != k {
        assert waiting[i].uuid != waiting[k].uuid;
      }
    }
    FilterAllBut(waiting, k, Unserved(b));
  }

  /** Exactly the snapshot that was sent leaves the backlog. */
  lemma OneIsServed(w: World, ports: Ports, job: Job, k: nat)
    requires KeepsAll(job) && Independent(Waiting(w, job)) && FreshUuid(Waiting(w, job), ports.transfer)
    requires k < |Waiting(w, job)| && Newest(Waiting(w, job)) == Some(Waiting(w, job)[k])
    requires ResumeStep(w, ports, job).result.Ok?
    ensures
      var waiting := Waiting(w, job);
      Waiting(ResumeStep(w, ports, job).world, job) == waiting[..k] + waiting[k + 1..]
  {
    SendsNewest(w, ports, job);
    var due := Waiting(w, job)[k];
    var b := CopyOf(job, due, ports.transfer.backup);
    NewIsInDirectory(job.target, due.path.FileName().value, ports.transfer.backup, due.uuid, true);
    BacklogWith(w, job, b);
    OnlyItsOwn(Waiting(w, job), k, b);
  }

  /** Successful resumes, one after the other, each given fresh answers. */
  ghost predicate AllSucceed(w: World, answers: seq<Ports>, job: Job)
    requires job.Valid()
    decreases answers
  {
    answers == []
    || (var r := ResumeStep(w, answers[0], job);
        r.result.Ok? && FreshUuid(Waiting(w, job), answers[0].transfer) && AllSucceed(r.world, answers[1..], job))
  }

  ghost function AfterResumes(w: World, answers: seq<Ports>, job: Job): World
    requires job.Valid()
    decreases answers
  {
    if answers == [] then w else AfterResumes(ResumeStep(w, answers[0], job).world, answers[1..], job)
  }

  ghost function AllSent(w: World, answers: seq<Ports>, job: Job): seq<Sent>
    requires job.Valid()
    decreases answers
  {
    if answers == [] then []
    else
      var r := ResumeStep(w, answers[0], job);
      r.sent + AllSent(r.world, answers[1..], job)
  }

  function SnapshotsOf(sent: seq<Sent>): (r: seq<Subvolume>)
    ensures |r| == |sent|
    ensures forall i :: 0 <= i < |sent| ==> r[i] == sent[i].snapshot
  {
    seq(|sent|, i requires 0 <= i < |sent| => sent[i].snapshot)
  }

  lemma RestIsIndependent(waiting: seq<Subvolume>, k: nat)
    requires k < |waiting| && Independent(waiting)
    ensures Independent(waiting[..k] + waiting[k + 1..])
  {
    var rest := waiting[..k] + waiting[k + 1..];
    assert forall i :: 0 <= i < |rest| ==> rest[i] == waiting[if i < k then i else i + 1];
    forall i, j | 0 <= i < j < |rest| ensures rest[i].uuid != rest[j].uuid {
      assert waiting[if i < k then i else i + 1].uuid != waiting[if j < k then j else j + 1].uuid;
    }
  }

  lemma RemoveOne<T>(s: seq<T>, k: nat)
    requires k < |s|
    ensures multiset([s[k]]) + multiset(s[..k] + s[k + 1..]) == multiset(s)
  {
    assert s == s[..k] + [s[k]] + s[k + 1..];
  }

  lemma SortedCons(x: Subvolume, tail: seq<Subvolume>, all: seq<Subvolume>)
    requires Sorted(tail, NoOlder)
    requires forall y :: y in all ==> NoOlder(x, y)
    requires multiset(tail) <= multiset(all)
    ensures Sorted([x] + tail, NoOlder)
  {
    forall j | 0 <= j < |tail| ensures NoOlder(x, tail[j]) {
      assert tail[j] in multiset(tail);
      assert tail[j] in multiset(all);
    }
  }

  /** The head of the drained list: the newest one, then the rest of the backlog. */
  lemma DrainedCons(waiting: seq<Subvolume>, k: nat, sent: seq<Sent>, tail: seq<Sent>)
    requires k < |waiting| && forall y :: y in waiting ==> NoOlder(waiting[k], y)
    requires |sent| == 1 && sent[0].snapshot == waiting[k]
    requires multiset(SnapshotsOf(tail)) == multiset(waiting[..k] + waiting[k + 1..])
      && Sorted(SnapshotsOf(tail), NoOlder)
    ensures multiset(SnapshotsOf(sent + tail)) == multiset(waiting) && Sorted(SnapshotsOf(sent + tail), NoOlder)
  {
    RemoveOne(waiting, k);
    assert SnapshotsOf(sent + tail) == [waiting[k]] + SnapshotsOf(tail);
    SortedCons(waiting[k], SnapshotsOf(tail), waiting);
  }

  /**
   As many successful resumes as there were uncopied snapshots send each of them exactly once, newest
   first, and leave nothing due.
   */
  lemma {:induction false} ResumeDrains(w: World, answers: seq<Ports>, job: Job)
    requires KeepsAll(job) && Independent(Waiting(w, job)) && AllSucceed(w, answers, job)
    requires |answers| == |Waiting(w, job)|
    ensures
      var sent := SnapshotsOf(AllSent(w, answers, job));
      multiset(sent) == multiset(Waiting(w, job)) && Sorted(sent, NoOlder)
    ensures Waiting(AfterResumes(w, answers, job), job) == []
    decreases answers
  {
    if answers != [] {
      var waiting := Waiting(w, job);
      var r := ResumeStep(w, answers[0], job);
      SendsNewest(w, answers[0], job);
      var k :| 0 <= k < |waiting| && waiting[k] == Newest(waiting).value;
      OneIsServed(w, answers[0], job, k);
      RestIsIndependent(waiting, k);
      ResumeDrains(r.world, answers[1..], job);
      DrainedCons(waiting, k, r.sent, AllSent(r.world, answers[1..], job));
    }
  }
}
