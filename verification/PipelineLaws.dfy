/** What the pipelines guarantee: they never deadlock, they end, they lose no byte, they name the root cause. */
module PipelineLaws {
  import opened Wrappers
  import opened Pipeline

  // ---------------------------------------------------------------------------
  // Runs
  // ---------------------------------------------------------------------------

  /** `steps` lead from `s` to `end`. */
  ghost predicate Leads(cfg: Config, s: State, steps: seq<Step>, end: State)
    decreases steps
  {
    if steps == [] then s == end
    else
      var front, last := steps[..|steps| - 1], steps[|steps| - 1];
      exists mid :: Leads(cfg, s, front, mid) && Enabled(cfg, mid, last) && end == Apply(cfg, mid, last)
  }

  ghost predicate Reachable(cfg: Config, s: State, end: State) {
    exists steps :: Leads(cfg, s, steps, end)
  }

  lemma {:induction false} LeadsKeeps(cfg: Config, s: State, steps: seq<Step>, end: State)
    requires Inv(cfg, s) && Leads(cfg, s, steps, end)
    ensures Inv(cfg, end)
    decreases steps
  {
    if steps != [] {
      var front, last := steps[..|steps| - 1], steps[|steps| - 1];
      var mid :| Leads(cfg, s, front, mid) && Enabled(cfg, mid, last) && end == Apply(cfg, mid, last);
      LeadsKeeps(cfg, s, front, mid);
      InvKept(cfg, mid, last);
    }
  }

  /** Everything a freshly spawned pipeline can get to keeps the invariant. */
  lemma ReachableIsOk(cfg: Config, bridges: seq<bool>, fuels: seq<nat>, end: State)
    requires |bridges| == |fuels| >= 2 && !bridges[0] && !bridges[|bridges| - 1]
    requires Reachable(cfg, Start(bridges, fuels), end)
    ensures Inv(cfg, end)
  {
    StartIsOk(cfg, bridges, fuels);
    var steps :| Leads(cfg, Start(bridges, fuels), steps, end);
    LeadsKeeps(cfg, Start(bridges, fuels), steps, end);
  }

  lemma Stay(cfg: Config, s: State)
    ensures Reachable(cfg, s, s)
  {
    assert Leads(cfg, s, [], s);
  }

  lemma Extend(cfg: Config, s: State, mid: State, step: Step)
    requires Reachable(cfg, s, mid) && Enabled(cfg, mid, step)
    ensures Reachable(cfg, s, Apply(cfg, mid, step))
  {
    var steps :| Leads(cfg, s, steps, mid);
    assert (steps + [step])[..|steps|] == steps;
    assert Leads(cfg, s, steps + [step], Apply(cfg, mid, step));
  }

  ghost predicate Stuck(cfg: Config, s: State) { forall step :: !Enabled(cfg, s, step) }

  // ---------------------------------------------------------------------------
  // Progress
  // ---------------------------------------------------------------------------

  lemma ConsumerIsDone(cfg: Config, s: State)
    requires Inv(cfg, s) && AsBuilt(cfg) && s.waited > 0
    ensures s.IsDone(s.Last())
  {
    assert s.stages[s.Last()].bridge || s.IsDone(s.Last());
  }

  /** While the consumer runs, the parent is still waiting for it. */
  lemma ParentIsThere(cfg: Config, s: State)
    requires Inv(cfg, s) && AsBuilt(cfg) && !s.IsDone(s.Last())
    ensures Awaited(cfg, s) == s.Last()
  {
    if s.waited > 0 {
      ConsumerIsDone(cfg, s);
    }
  }

  lemma WriterMoves(cfg: Config, s: State, j: nat) returns (step: Step)
    requires Inv(cfg, s) && AsBuilt(cfg) && s.outcome.None?
    requires j < |s.stages| && s.stages[j].task.Writing? && s.stages[j].task.left != []
    requires j < s.Last() ==> s.IsDone(j + 1) || s.stages[j].out.buffer == []
    ensures Enabled(cfg, s, step)
  {
    if j < s.Last() && s.IsDone(j + 1) {
      step := BreakPipe(j, false);
    } else if s.stages[j].out.buffer == [] {
      step := Write(j, 1, false);
    } else {
      ParentIsThere(cfg, s);
      step := DrainOut(1);
    }
  }

  lemma ComplainerMoves(cfg: Config, s: State, j: nat) returns (step: Step)
    requires Inv(cfg, s) && AsBuilt(cfg) && s.outcome.None?
    requires j < |s.stages| && s.stages[j].task.Complaining? && s.stages[j].task.left != []
    ensures Enabled(cfg, s, step)
  {
    if s.stages[j].err.buffer == [] {
      step := Complain(j, 1);
    } else {
      if j == s.Last() {
        ParentIsThere(cfg, s);
      }
      step := DrainErr(j, 1);
    }
  }

  /** A running stage whose output is not held up can move, or waits for one before it that can. */
  lemma {:induction false} StageMoves(cfg: Config, s: State, j: nat) returns (step: Step)
    requires Inv(cfg, s) && AsBuilt(cfg) && s.outcome.None?
    requires j < |s.stages| && !s.IsDone(j)
    requires j < s.Last() ==> s.IsDone(j + 1) || s.stages[j].out.buffer == []
    ensures Enabled(cfg, s, step)
    decreases j
  {
    assert StageOk(j, s.stages[j]);
    match s.stages[j].task {
      case Ready => step := Pick(j, Done(true));
      case Reading =>
        if s.stages[j - 1].out.buffer != [] {
          step := Read(j, 1);
        } else if s.IsDone(j - 1) {
          step := ReadEof(j);
        } else {
          step := StageMoves(cfg, s, j - 1);
        }
      case Writing(_, _) => step := WriterMoves(cfg, s, j);
      case Complaining(_) => step := ComplainerMoves(cfg, s, j);
      case Reporting => step := FinalReport(j);
    }
  }

  /** The last running stage, if any stage runs. */
  lemma {:induction false} LastRunning(s: State, n: nat) returns (j: int)
    requires n <= |s.stages| && forall i :: n <= i < |s.stages| ==> s.IsDone(i)
    ensures -1 <= j < |s.stages| && forall i :: j < i < |s.stages| ==> s.IsDone(i)
    ensures j >= 0 ==> !s.IsDone(j)
  {
    if n == 0 {
      j := -1;
    } else if !s.IsDone(n - 1) {
      j := n - 1;
    } else {
      j := LastRunning(s, n - 1);
    }
  }

  lemma ParentMoves(cfg: Config, s: State) returns (step: Step)
    requires Inv(cfg, s) && AsBuilt(cfg) && s.outcome.None? && forall i :: 0 <= i < |s.stages| ==> s.IsDone(i)
    ensures Enabled(cfg, s, step)
  {
    if s.waited < |s.stages| {
      var i := Awaited(cfg, s);
      if i == s.Last() && s.stages[i].out.buffer != [] {
        step := DrainOut(1);
      } else if i == s.Last() && s.stages[i].err.buffer != [] {
        step := DrainErr(i, 1);
      } else {
        step := Advance;
      }
    } else if i :| 0 <= i < s.Last() && s.stages[i].err.buffer != [] {
      step := DrainErr(i, 1);
    } else {
      step := Return;
    }
  }

  /** No deadlock: until the call has returned, some step is possible. */
  lemma Progress(cfg: Config, s: State)
    requires Inv(cfg, s) && AsBuilt(cfg) && s.outcome.None?
    ensures !Stuck(cfg, s)
  {
    var j := LastRunning(s, |s.stages|);
    var step: Step;
    if j >= 0 {
      step := StageMoves(cfg, s, j);
    } else {
      step := ParentMoves(cfg, s);
    }
    assert Enabled(cfg, s, step);
  }

  // ---------------------------------------------------------------------------
  // Every run ends
  // ---------------------------------------------------------------------------

  function Picks(st: Stage): nat { st.fuel + if st.task.Done? then 0 else 1 }

  function Phase(st: Stage): nat { if st.task.Reading? then 2 else if st.task.Reporting? then 1 else 0 }

  function Left(st: Stage): nat { if st.task.Writing? then |st.task.left| else 0 }

  function ErrLeft(st: Stage): nat { if st.task.Complaining? then |st.task.left| else 0 }

  /** The bytes a stage still moves; one that is `m` stages from the end weighs more the larger `m` is. */
  function Weight(m: nat, st: Stage): nat {
    m * (2 * Left(st) + 2 * |st.out.buffer|) + Left(st) + 2 * ErrLeft(st) + |st.err.buffer|
  }

  function AllPicks(stages: seq<Stage>): nat {
    if stages == [] then 0 else Picks(stages[0]) + AllPicks(stages[1..])
  }

  function AllWeight(stages: seq<Stage>): nat {
    if stages == [] then 0 else Weight(|stages|, stages[0]) + AllWeight(stages[1..])
  }

  function AllPhases(stages: seq<Stage>): nat {
    if stages == [] then 0 else Phase(stages[0]) + AllPhases(stages[1..])
  }

  lemma {:induction false} PutSums(stages: seq<Stage>, i: nat, st: Stage)
    requires i < |stages|
    ensures AllPicks(stages[i := st]) == AllPicks(stages) - Picks(stages[i]) + Picks(st)
    ensures AllWeight(stages[i := st]) == AllWeight(stages) - Weight(|stages| - i, stages[i]) + Weight(|stages| - i, st)
    ensures AllPhases(stages[i := st]) == AllPhases(stages) - Phase(stages[i]) + Phase(st)
  {
    if i > 0 {
      assert stages[i := st][1..] == stages[1..][i - 1 := st];
      PutSums(stages[1..], i - 1, st);
    } else {
      assert stages[0 := st][1..] == stages[1..];
    }
  }

  function Remaining(s: State): nat {
    AllPhases(s.stages) + (if s.waited <= |s.stages| then |s.stages| - s.waited else 0)
    + if s.outcome.None? then 1 else 0
  }

  ghost predicate Before(a: State, b: State) {
    || AllPicks(a.stages) < AllPicks(b.stages)
    || (AllPicks(a.stages) == AllPicks(b.stages)
        && (|| AllWeight(a.stages) < AllWeight(b.stages)
            || (AllWeight(a.stages) == AllWeight(b.stages) && Remaining(a) < Remaining(b))))
  }

  /** A step that changes one stage takes the state down if it takes that stage down. */
  lemma PutBefore(s: State, i: nat, st: Stage)
    requires i < |s.stages|
    requires
      var m, was := |s.stages| - i, s.stages[i];
      || Picks(st) < Picks(was)
      || (Picks(st) == Picks(was)
          && (Weight(m, st) < Weight(m, was) || (Weight(m, st) == Weight(m, was) && Phase(st) < Phase(was))))
    ensures Before(s.Put(i, st), s)
  {
    PutSums(s.stages, i, st);
  }

  /** A step that changes two neighbours, likewise. */
  lemma PutTwoBefore(s: State, i: nat, a: Stage, b: Stage)
    requires 0 < i < |s.stages| && Picks(a) == Picks(s.stages[i - 1]) && Picks(b) == Picks(s.stages[i])
    requires
      var m := |s.stages| - i;
      Weight(m + 1, a) + Weight(m, b) < Weight(m + 1, s.stages[i - 1]) + Weight(m, s.stages[i])
    ensures Before(s.Put(i - 1, a).Put(i, b), s)
  {
    var mid := s.stages[i - 1 := a];
    assert mid[i] == s.stages[i];
    PutSums(s.stages, i - 1, a);
    PutSums(mid, i, b);
  }

  lemma Distribute(m: nat, a: int, b: int)
    ensures m * (a + b) == m * a + m * b
  {
  }

  lemma Heavier(m: nat, a: nat, b: nat)
    requires m > 0 && a < b
    ensures m * a < m * b
  {
    Distribute(m, a, b - a);
  }

  lemma DropLeft(m: nat, left: nat, buffer: nat)
    requires left > 0
    ensures m * (2 * left + 2 * buffer) >= m * (2 * buffer)
  {
    Distribute(m, 2 * left, 2 * buffer);
  }

  /** Handing `k` bytes from a pipe to the next stage makes the total lighter, even if the stage passes them on. */
  lemma ReadWeighs(m: nat, k: nat, left: nat, buffer: nat, outBuffer: nat)
    requires m >= 2 && 0 < k <= buffer
    ensures m * (2 * left + 2 * (buffer - k)) + ((m - 1) * (2 * k + 2 * outBuffer) + k)
          < m * (2 * left + 2 * buffer) + (m - 1) * (2 * outBuffer)
    ensures m * (2 * left + 2 * (buffer - k)) < m * (2 * left + 2 * buffer)
  {
    Distribute(m, 2 * left + 2 * (buffer - k), 2 * k);
    Distribute(m - 1, 2 * k, 2 * outBuffer);
    assert m * (2 * k) == (m - 1) * (2 * k) + 2 * k;
    Heavier(m, 2 * left + 2 * (buffer - k), 2 * left + 2 * buffer);
  }

  /** The writer's and the reader's share of the weight, before and after a read. */
  lemma ReadLightens(m: nat, writer: Stage, st: Stage, k: nat)
    requires m >= 2 && 0 < k <= |writer.out.buffer| && st.task == Reading
    ensures
      var data := writer.out.buffer[..k];
      Weight(m, Drained(writer, k)) + Weight(m - 1, Loaded(st, data)) < Weight(m, writer) + Weight(m - 1, st)
  {
    ReadWeighs(m, k, Left(writer), |writer.out.buffer|, |st.out.buffer|);
  }

  lemma ReadShrinks(cfg: Config, s: State, i: nat, k: nat)
    requires Enabled(cfg, s, Read(i, k))
    ensures Before(Apply(cfg, s, Read(i, k)), s)
  {
    var writer, st := s.stages[i - 1], s.stages[i];
    var data := writer.out.buffer[..k];
    ReadLightens(|s.stages| - i + 1, writer, st, k);
    PutTwoBefore(s, i, Drained(writer, k), Loaded(st, data));
    assert Apply(cfg, s, Read(i, k)) == s.Put(i - 1, Drained(writer, k)).Put(i, Loaded(st, data));
  }

  lemma BreakShrinks(cfg: Config, s: State, i: nat, dies: bool)
    requires Inv(cfg, s) && Enabled(cfg, s, BreakPipe(i, dies))
    ensures Before(Apply(cfg, s, BreakPipe(i, dies)), s)
  {
    var st := s.stages[i];
    assert StageOk(i, st);
    PutSums(s.stages, i, st.(task := if st.bridge then Reporting else if dies then Done(false) else Ready));
    DropLeft(|s.stages| - i, Left(st), |st.out.buffer|);
  }

  lemma WriteLightens(m: nat, st: Stage, k: nat, tick: bool)
    requires st.task.Writing? && 0 < k <= |st.task.left|
    ensures Weight(m, Written(st, k, tick)) < Weight(m, st) && Picks(Written(st, k, tick)) == Picks(st)
  {
    assert 2 * Left(Written(st, k, tick)) + 2 * |Written(st, k, tick).out.buffer| == 2 * Left(st) + 2 * |st.out.buffer|;
  }

  lemma WriteShrinks(cfg: Config, s: State, i: nat, k: nat, tick: bool)
    requires Enabled(cfg, s, Write(i, k, tick))
    ensures Before(Apply(cfg, s, Write(i, k, tick)), s)
  {
    WriteLightens(|s.stages| - i, s.stages[i], k, tick);
    PutBefore(s, i, Written(s.stages[i], k, tick));
  }

  lemma DrainOutShrinks(cfg: Config, s: State, k: nat)
    requires Inv(cfg, s) && Enabled(cfg, s, DrainOut(k))
    ensures Before(Apply(cfg, s, DrainOut(k)), s)
  {
    var st := s.stages[s.Last()];
    PutSums(s.stages, s.Last(), st.(out := st.out.Take(k)));
    assert |s.stages| - s.Last() == 1;
    Lighter(st, k);
  }

  lemma Lighter(st: Stage, k: nat)
    requires 0 < k <= |st.out.buffer|
    ensures Weight(1, st.(out := st.out.Take(k))) < Weight(1, st)
  {
  }

  lemma OneStageShrinks(cfg: Config, s: State, step: Step, i: nat, st: Stage)
    requires Inv(cfg, s) && Enabled(cfg, s, step)
      && (step.Pick? || step.ReadEof? || step.FinalReport? || step.Complain? || step.DrainErr?)
    requires i == step.i && st == Apply(cfg, s, step).stages[i]
    ensures Before(Apply(cfg, s, step), s)
  {
    assert StageOk(i, s.stages[i]);
    if step.Pick? {
      assert Picks(st) < Picks(s.stages[i]);
    } else {
      assert Left(st) == Left(s.stages[i]) && st.out == s.stages[i].out;
    }
    PutBefore(s, i, st);
    assert Apply(cfg, s, step) == s.Put(i, st);
  }

  /** Every step brings the pipeline closer to its end. */
  lemma StepShrinks(cfg: Config, s: State, step: Step)
    requires Inv(cfg, s) && Enabled(cfg, s, step)
    ensures Before(Apply(cfg, s, step), s)
  {
    match step {
      case Read(i, k) => ReadShrinks(cfg, s, i, k);
      case Write(i, k, tick) => WriteShrinks(cfg, s, i, k, tick);
      case BreakPipe(i, dies) => BreakShrinks(cfg, s, i, dies);
      case DrainOut(k) => DrainOutShrinks(cfg, s, k);
      case Pick(i, _) => OneStageShrinks(cfg, s, step, i, Apply(cfg, s, step).stages[i]);
      case ReadEof(i) => OneStageShrinks(cfg, s, step, i, Apply(cfg, s, step).stages[i]);
      case Complain(i, _) => OneStageShrinks(cfg, s, step, i, Apply(cfg, s, step).stages[i]);
      case FinalReport(i) => OneStageShrinks(cfg, s, step, i, Apply(cfg, s, step).stages[i]);
      case DrainErr(i, _) => OneStageShrinks(cfg, s, step, i, Apply(cfg, s, step).stages[i]);
      case Advance =>
      case Return =>
    }
  }

  ghost predicate Follows(cfg: Config, a: State, b: State) {
    exists step :: Enabled(cfg, a, step) && b == Apply(cfg, a, step)
  }

  lemma NextIsCloser(cfg: Config, a: State, b: State)
    requires Inv(cfg, a) && Follows(cfg, a, b)
    ensures Inv(cfg, b) && Before(b, a)
  {
    var step :| Enabled(cfg, a, step) && b == Apply(cfg, a, step);
    InvKept(cfg, a, step);
    StepShrinks(cfg, a, step);
  }

  lemma ReturnedIsStuck(cfg: Config, s: State)
    requires Inv(cfg, s) && AsBuilt(cfg)
    ensures Stuck(cfg, s) <==> s.outcome.Some?
  {
    if s.outcome.None? {
      Progress(cfg, s);
    }
  }

  /** Steps that keep `inv` and make a triple of numbers smaller cannot go on for ever. */
  lemma {:induction false} RunsEnd<S(!new)>(run: nat -> S, from: nat, inv: S -> bool, next: (S, S) -> bool,
                                            r: S -> nat, t: S -> nat, u: S -> nat)
    returns (end: nat)
    requires inv(run(from))
    requires forall a, b :: inv(a) && next(a, b) ==>
      inv(b) && (r(b) < r(a) || (r(b) == r(a) && (t(b) < t(a) || (t(b) == t(a) && u(b) < u(a)))))
    ensures end >= from && inv(run(end)) && !next(run(end), run(end + 1))
    decreases r(run(from)), t(run(from)), u(run(from))
  {
    end := from;
    if next(run(from), run(from + 1)) {
      end := RunsEnd(run, from + 1, inv, next, r, t, u);
    }
  }

  lemma AllCloser(cfg: Config)
    ensures forall a, b :: Inv(cfg, a) && Follows(cfg, a, b) ==> Inv(cfg, b) && Before(b, a)
  {
    forall a, b | Inv(cfg, a) && Follows(cfg, a, b) ensures Inv(cfg, b) && Before(b, a) {
      NextIsCloser(cfg, a, b);
    }
  }

  lemma RunsLeave(cfg: Config, run: nat -> State, from: nat) returns (end: nat)
    requires Inv(cfg, run(from))
    ensures end >= from && Inv(cfg, run(end)) && !Follows(cfg, run(end), run(end + 1))
  {
    AllCloser(cfg);
    end := RunsEnd(run, from, s => Inv(cfg, s), (a, b) => Follows(cfg, a, b),
                   (s: State) => AllPicks(s.stages), (s: State) => AllWeight(s.stages), Remaining);
  }

  /**
   Every sequence of states stops following the steps somewhere, and as built it is stuck only where
   the call has returned.
   */
  lemma RunsReturn(cfg: Config, run: nat -> State, from: nat) returns (end: nat)
    requires Inv(cfg, run(from)) && AsBuilt(cfg)
    ensures end >= from && Inv(cfg, run(end)) && !Follows(cfg, run(end), run(end + 1))
    ensures Stuck(cfg, run(end)) <==> run(end).outcome.Some?
  {
    end := RunsLeave(cfg, run, from);
    ReturnedIsStuck(cfg, run(end));
  }

  // ---------------------------------------------------------------------------
  // Delivery
  // ---------------------------------------------------------------------------

  /** What a reader has taken is at all times an initial part of what was sent, in order. */
  lemma InOrder(cfg: Config, s: State, j: nat)
    requires Inv(cfg, s) && 0 < j < |s.stages|
    ensures s.stages[j - 1].out.taken <= s.stages[j - 1].out.sent
    ensures s.stages[j - 1].bridge && j > 1 ==> s.stages[j - 1].out.taken <= s.stages[j - 2].out.sent
  {
    assert StageOk(j - 1, s.stages[j - 1]);
    if s.stages[j - 1].bridge && j > 1 {
      assert StageOk(j - 2, s.stages[j - 2]);
      assert BridgeOk(s.stages[j - 2].out.taken, s.stages[j - 1], s.stages[j]);
    }
  }

  /** A stage that has read to end of file has read everything its writer sent. */
  lemma AllDelivered(cfg: Config, s: State, j: nat)
    requires Inv(cfg, s) && 0 < j < |s.stages| && s.stages[j].sawEof
    ensures s.IsDone(j - 1) && s.stages[j - 1].out.taken == s.stages[j - 1].out.sent
  {
    assert StageOk(j - 1, s.stages[j - 1]);
    assert LinkOk(s.stages[j - 1], s.stages[j]);
  }

  /**
   Behind a bridge: once the bridge's reader has seen end of file, it holds every byte the process
   before the bridge sent, and the bridge's final callback has happened and carried their number.
   */
  lemma BridgeDelivered(cfg: Config, s: State, j: nat)
    requires Inv(cfg, s) && 1 < j < |s.stages| && s.stages[j - 1].bridge && s.stages[j].sawEof
    ensures
      var bridge := s.stages[j - 1];
      && bridge.out.taken == s.stages[j - 2].out.sent
      && bridge.reports != [] && bridge.reports[|bridge.reports| - 1] == |bridge.out.taken|
  {
    AllDelivered(cfg, s, j);
    assert BridgeOk(s.stages[j - 2].out.taken, s.stages[j - 1], s.stages[j]);
    AllDelivered(cfg, s, j - 1);
  }

  /** Nobody writes into a pipe whose reader is gone; a process that dies of it has failed, the bridge has not. */
  lemma NothingBehindTheReader(cfg: Config, s: State, step: Step, i: nat)
    requires Inv(cfg, s) && Enabled(cfg, s, step) && i < s.Last() && s.IsDone(i + 1)
    ensures Apply(cfg, s, step).stages[i].out.sent == s.stages[i].out.sent
    ensures step == BreakPipe(i, true) ==> Apply(cfg, s, step).stages[i].task == Done(false)
    ensures step == BreakPipe(i, false) && s.stages[i].bridge ==> Apply(cfg, s, step).stages[i].task == Reporting
  {
  }

  /** A callback of the bridge carries the number of bytes it has passed on so far. */
  lemma ReportsTell(cfg: Config, s: State, i: nat, k: nat, tick: bool)
    requires Inv(cfg, s) && 0 < i < s.Last() && s.stages[i].bridge && Enabled(cfg, s, Write(i, k, tick))
    ensures
      var before, after := s.stages[i], Apply(cfg, s, Write(i, k, tick)).stages[i];
      after.reports == before.reports + if tick && k == |before.task.left| then [|after.out.sent|] else []
  {
    assert BridgeOk(s.stages[i - 1].out.taken, s.stages[i], s.stages[i + 1]);
  }

  // ---------------------------------------------------------------------------
  // The result
  // ---------------------------------------------------------------------------

  lemma {:induction false} FirstFailure(stages: seq<Stage>, i: nat)
    requires i <= |stages|
    ensures
      match Verdict(stages, i)
      case Success => forall k :: i <= k < |stages| ==> stages[k].bridge || stages[k].task == Done(true)
      case Failed(f, stderr) =>
        && i <= f < |stages| && !stages[f].bridge && stages[f].task != Done(true) && stderr == stages[f].err.taken
        && forall k :: i <= k < f ==> stages[k].bridge || stages[k].task == Done(true)
    decreases |stages| - i
  {
    if i < |stages| && (stages[i].bridge || stages[i].task == Done(true)) {
      FirstFailure(stages, i + 1);
    }
  }

  /**
   The call returns after every process; it succeeds iff all did, else it names the first that
   failed, with its whole stderr.
   */
  lemma RootCause(cfg: Config, s: State)
    requires Inv(cfg, s) && AsBuilt(cfg) && s.outcome.Some?
    ensures forall i :: 0 <= i < |s.stages| ==> s.stages[i].bridge || s.IsDone(i)
    ensures
      match s.outcome.value
      case Success => forall i :: 0 <= i < |s.stages| ==> s.stages[i].bridge || s.stages[i].task == Done(true)
      case Failed(f, stderr) =>
        && f < |s.stages| && !s.stages[f].bridge && s.stages[f].task == Done(false) && stderr == s.stages[f].err.sent
        && forall i :: 0 <= i < f ==> s.stages[i].bridge || s.stages[i].task == Done(true)
  {
    FirstFailure(s.stages, 0);
    if s.outcome.value.Failed? {
      var f := s.outcome.value.stage;
      assert StageOk(f, s.stages[f]);
    }
  }

  // ---------------------------------------------------------------------------
  // Why it is built this way
  // ---------------------------------------------------------------------------

  /** That many bytes. */
  function Filler(n: nat): (s: seq<byte>)
    ensures |s| == n
  {
    seq(n, _ => 7)
  }

  /** A stage that has done nothing but take up `task`, with `out` and `err` bytes held in its pipes. */
  function At(task: Task, out: seq<byte>, err: seq<byte>, fuel: nat): Stage {
    Stage(false, task, fuel, false, Pipe(out, out, []), Pipe(err, err, []), 0, [])
  }

  function Running(a: Stage, b: Stage): State { State([a, b], 0, None) }

  /** `Extend` for a step that changes one of two stages. */
  lemma MoveFirst(cfg: Config, s: State, a: Stage, b: Stage, step: Step, a': Stage)
    requires Reachable(cfg, s, Running(a, b)) && Enabled(cfg, Running(a, b), step)
    requires Apply(cfg, Running(a, b), step) == Running(a, b).Put(0, a')
    ensures Reachable(cfg, s, Running(a', b))
  {
    Extend(cfg, s, Running(a, b), step);
    assert Running(a, b).Put(0, a') == Running(a', b);
  }

  lemma MoveSecond(cfg: Config, s: State, a: Stage, b: Stage, step: Step, b': Stage)
    requires Reachable(cfg, s, Running(a, b)) && Enabled(cfg, Running(a, b), step)
    requires Apply(cfg, Running(a, b), step) == Running(a, b).Put(1, b')
    ensures Reachable(cfg, s, Running(a, b'))
  {
    Extend(cfg, s, Running(a, b), step);
    assert Running(a, b).Put(1, b') == Running(a, b');
  }

  const START_OF_TWO := Start([false, false], [2, 2])
  const IDLE := At(Ready, [], [], 2)

  lemma TwoStart(cfg: Config)
    ensures Reachable(cfg, START_OF_TWO, Running(IDLE, IDLE))
  {
    Stay(cfg, START_OF_TWO);
    assert START_OF_TWO == Running(IDLE, IDLE);
  }

  /** One byte more than a pipe holds: the pipe is full and the byte is left. */
  lemma OneTooMany(n: nat)
    ensures Filler(n + 1)[..n] == Filler(n) && Filler(n + 1)[n..] == Filler(1)
    ensures EMPTY.Put(Filler(n)) == Pipe(Filler(n), Filler(n), [])
  {
  }

  /** The producer fills its standard error pipe. */
  lemma ProducerComplains(cfg: Config)
    requires cfg.capacity > 0
    ensures Reachable(cfg, START_OF_TWO, Running(At(Complaining(Filler(1)), [], Filler(cfg.capacity), 1), IDLE))
  {
    var n := cfg.capacity;
    var started := At(Complaining(Filler(n + 1)), [], [], 1);
    TwoStart(cfg);
    MoveFirst(cfg, START_OF_TWO, IDLE, IDLE, Pick(0, Complaining(Filler(n + 1))), started);
    OneTooMany(n);
    MoveFirst(cfg, START_OF_TWO, started, IDLE, Complain(0, n), At(Complaining(Filler(1)), [], Filler(n), 1));
  }

  /** The producer fills the data pipe. */
  lemma ProducerWrites(cfg: Config)
    requires cfg.capacity > 0
    ensures Reachable(cfg, START_OF_TWO,
                      Running(At(Writing(Filler(1), cfg.capacity + 1), Filler(cfg.capacity), [], 1), IDLE))
  {
    var n := cfg.capacity;
    var started := At(Writing(Filler(n + 1), n + 1), [], [], 1);
    TwoStart(cfg);
    MoveFirst(cfg, START_OF_TWO, IDLE, IDLE, Pick(0, Writing(Filler(n + 1), n + 1)), started);
    OneTooMany(n);
    MoveFirst(cfg, START_OF_TWO, started, IDLE, Write(0, n, false), At(Writing(Filler(1), n + 1), Filler(n), [], 1));
  }

  /** The consumer fills its standard error pipe, whatever the producer is doing. */
  lemma ConsumerComplains(cfg: Config, a: Stage)
    requires cfg.capacity > 0 && Reachable(cfg, START_OF_TWO, Running(a, IDLE))
    ensures Reachable(cfg, START_OF_TWO, Running(a, At(Complaining(Filler(1)), [], Filler(cfg.capacity), 1)))
  {
    var n := cfg.capacity;
    var started := At(Complaining(Filler(n + 1)), [], [], 1);
    MoveSecond(cfg, START_OF_TWO, a, IDLE, Pick(1, Complaining(Filler(n + 1))), started);
    OneTooMany(n);
    MoveSecond(cfg, START_OF_TWO, a, started, Complain(1, n), At(Complaining(Filler(1)), [], Filler(n), 1));
  }

  /** A consumer that waits for data behind a producer whose errors nobody reads. */
  lemma HungOnErrors(cfg: Config, a: Stage, b: Stage)
    requires !cfg.drains && cfg.consumerFirst && !a.bridge && !b.bridge
    requires a.task.Complaining? && |a.err.buffer| == cfg.capacity && a.out.buffer == []
    requires b.task == Reading && b.out.buffer == [] && b.err.buffer == []
    ensures Stuck(cfg, Running(a, b))
  {
  }

  /** A producer whose data nobody takes, before a consumer whose errors nobody reads yet. */
  lemma HungOnData(cfg: Config, a: Stage, b: Stage)
    requires !cfg.consumerFirst && !a.bridge && !b.bridge
    requires a.task.Writing? && |a.out.buffer| == cfg.capacity && a.err.buffer == []
    requires b.task.Complaining? && |b.err.buffer| == cfg.capacity
    ensures Stuck(cfg, Running(a, b))
  {
  }

  /** Without drain threads a producer that writes more errors than a pipe holds hangs the call. */
  lemma NoDrainDeadlocks(capacity: nat)
    requires capacity > 0
    ensures
      var cfg := Config(capacity, false, true);
      exists s :: Reachable(cfg, START_OF_TWO, s) && s.outcome.None? && Stuck(cfg, s)
  {
    var cfg := Config(capacity, false, true);
    var a, b := At(Complaining(Filler(1)), [], Filler(capacity), 1), At(Reading, [], [], 1);
    ProducerComplains(cfg);
    MoveSecond(cfg, START_OF_TWO, a, IDLE, Pick(1, Reading), b);
    HungOnErrors(cfg, a, b);
  }

  /** Waiting for the producer first, a consumer that writes more errors than a pipe holds hangs the call. */
  lemma ProducerFirstDeadlocks(capacity: nat, drains: bool)
    requires capacity > 0
    ensures
      var cfg := Config(capacity, drains, false);
      exists s :: Reachable(cfg, START_OF_TWO, s) && s.outcome.None? && Stuck(cfg, s)
  {
    var cfg := Config(capacity, drains, false);
    var a := At(Writing(Filler(1), capacity + 1), Filler(capacity), [], 1);
    ProducerWrites(cfg);
    ConsumerComplains(cfg, a);
    HungOnData(cfg, a, At(Complaining(Filler(1)), [], Filler(capacity), 1));
  }

  const BRIDGED := Start([false, true, false], [2, 0, 2])
  const BRIDGE := Stage(true, Reading, 0, false, EMPTY, EMPTY, 0, [])
  const GONE := At(Done(true), [], [], 2)

  /** The processes stop at once; the parent passes the bridge by. */
  lemma BothStop(cfg: Config)
    ensures Reachable(cfg, BRIDGED, State([GONE, BRIDGE, GONE], 0, None))
  {
    Stay(cfg, BRIDGED);
    assert BRIDGED == State([IDLE, BRIDGE, IDLE], 0, None);
    Extend(cfg, BRIDGED, BRIDGED, Pick(0, Done(true)));
    var s := State([GONE, BRIDGE, IDLE], 0, None);
    assert Apply(cfg, BRIDGED, Pick(0, Done(true))) == s;
    Extend(cfg, BRIDGED, s, Pick(2, Done(true)));
    assert s.stages[2 := GONE] == [GONE, BRIDGE, GONE];
  }

  lemma Advances(cfg: Config, s: State)
    requires AsBuilt(cfg) && s.outcome.None? && s.waited < |s.stages| && Reachable(cfg, BRIDGED, s)
    requires forall i :: 0 <= i < |s.stages| ==> s.stages[i].bridge || s.IsDone(i)
    requires s.stages[s.Last()].out.buffer == [] && s.stages[s.Last()].err.buffer == []
    ensures Reachable(cfg, BRIDGED, s.(waited := s.waited + 1))
  {
    Extend(cfg, BRIDGED, s, Advance);
  }

  /** The parent waits for every process in turn. */
  lemma AllWaited(cfg: Config)
    requires AsBuilt(cfg)
    ensures Reachable(cfg, BRIDGED, State([GONE, BRIDGE, GONE], 3, None))
  {
    BothStop(cfg);
    Advances(cfg, State([GONE, BRIDGE, GONE], 0, None));
    Advances(cfg, State([GONE, BRIDGE, GONE], 1, None));
    Advances(cfg, State([GONE, BRIDGE, GONE], 2, None));
  }

  lemma Returns(cfg: Config, stages: seq<Stage>)
    requires AsBuilt(cfg) && Reachable(cfg, BRIDGED, State(stages, |stages|, None))
    requires forall i :: 0 <= i < |stages| - 1 ==> stages[i].err.buffer == []
    ensures Reachable(cfg, BRIDGED, State(stages, |stages|, Some(Verdict(stages, 0))))
  {
    Extend(cfg, BRIDGED, State(stages, |stages|, None), Return);
  }

  /** A consumer that does not read to end of file: the call can return before the final callback. */
  lemma EarlyExitSkipsTheReport(capacity: nat)
    requires capacity > 0
    ensures
      var cfg := Config(capacity, true, true);
      exists s :: Reachable(cfg, BRIDGED, s) && s.outcome == Some(Success) && |s.stages| == 3
        && s.stages[1].reports == []
  {
    var cfg := Config(capacity, true, true);
    AllWaited(cfg);
    Returns(cfg, [GONE, BRIDGE, GONE]);
    AllWell([GONE, BRIDGE, GONE]);
  }

  lemma AllWell(stages: seq<Stage>)
    requires forall i :: 0 <= i < |stages| ==> stages[i].bridge || stages[i].task == Done(true)
    ensures Verdict(stages, 0) == Success
  {
    FirstFailure(stages, 0);
  }
}
