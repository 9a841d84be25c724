/**
 The process pipelines `pipe` and `pipe3` of crates/adapters/src/command.rs, as a step system.

 A pipeline is a list of stages: the producer, the counting bridge if there is one, the middle process
 if there is one, and the consumer. A stage's `out` is the pipe it writes: the next stage reads it, and
 the consumer's own standard output is read by the parent. Every process also has a standard error
 pipe, drained by a thread of its own, or by the parent for the consumer. All pipes are bounded.

 A process is any program: whenever it is `Ready` it picks its next blocking operation, and it makes
 finitely many picks. The bridge is the copy loop of the source. The parent waits for the processes in
 a fixed order, joins the drain threads and reports.
 */
module Pipeline {
  import opened Wrappers

  type byte = n: int | 0 <= n < 256

  /** The copy buffer of the bridge. */
  const BRIDGE_BUFFER: nat := 65536

  /** A bounded FIFO with its history: every byte put in and every byte taken out. */
  datatype Pipe = Pipe(buffer: seq<byte>, sent: seq<byte>, taken: seq<byte>) {
    ghost predicate Valid() { sent == taken + buffer }

    function Put(data: seq<byte>): Pipe { Pipe(buffer + data, sent + data, taken) }

    function Take(k: nat): Pipe
      requires k <= |buffer|
    {
      Pipe(buffer[k..], sent, taken + buffer[..k])
    }
  }

  const EMPTY := Pipe([], [], [])

  /** What a stage is doing. `Writing` keeps the size of the whole chunk besides what is left of it. */
  datatype Task =
    | Ready
    | Reading
    | Writing(left: seq<byte>, size: nat)
    | Complaining(left: seq<byte>)
    | Reporting
    | Done(ok: bool)

  /** `fuel` is how many more picks the process will make; the counters are the bridge's. */
  datatype Stage = Stage(
    bridge: bool,
    task: Task,
    fuel: nat,
    sawEof: bool,
    out: Pipe,
    err: Pipe,
    total: nat,
    reports: seq<nat>
  )

  /** `Failed` names the failing stage and carries its standard error. */
  datatype Outcome = Success | Failed(stage: nat, stderr: seq<byte>)

  /** `waited` counts the finished waits of the parent. */
  datatype State = State(stages: seq<Stage>, waited: nat, outcome: Option<Outcome>) {
    function Last(): int { |stages| - 1 }

    predicate IsDone(i: nat)
      requires i < |stages|
    {
      stages[i].task.Done?
    }

    function Put(i: nat, stage: Stage): State
      requires i < |stages|
    {
      this.(stages := stages[i := stage])
    }
  }

  /** The source has drain threads and waits consumer-first; the alternatives are for comparison. */
  datatype Config = Config(capacity: nat, drains: bool, consumerFirst: bool)

  predicate AsBuilt(cfg: Config) { cfg.capacity > 0 && cfg.drains && cfg.consumerFirst }

  // ---------------------------------------------------------------------------
  // Steps
  // ---------------------------------------------------------------------------

  datatype Step =
    | Pick(i: nat, task: Task)
    | Write(i: nat, k: nat, tick: bool)
    | BreakPipe(i: nat, dies: bool)
    | Read(i: nat, k: nat)
    | ReadEof(i: nat)
    | Complain(i: nat, k: nat)
    | FinalReport(i: nat)
    | DrainErr(i: nat, k: nat)
    | DrainOut(k: nat)
    | Advance
    | Return

  /** The stage the parent waits for. */
  function Awaited(cfg: Config, s: State): int {
    if cfg.consumerFirst then s.Last() - s.waited else s.waited
  }

  /** Whether somebody reads the standard error of stage `i`. */
  predicate ErrIsRead(cfg: Config, s: State, i: nat) {
    if i == s.Last() then Awaited(cfg, s) == i else cfg.drains
  }

  predicate CanPick(i: nat, st: Stage, task: Task) {
    match task
    case Reading => i > 0 && st.fuel > 0
    case Writing(left, size) => left != [] && size == |left| && st.fuel > 0
    case Complaining(left) => left != [] && st.fuel > 0
    case Done(_) => true
    case _ => false
  }

  predicate Enabled(cfg: Config, s: State, step: Step) {
    s.outcome.None? &&
    match step
    case Pick(i, task) =>
      i < |s.stages| && !s.stages[i].bridge && s.stages[i].task == Ready && CanPick(i, s.stages[i], task)
    case Write(i, k, tick) =>
      && i < |s.stages| && s.stages[i].task.Writing? && 0 < k <= |s.stages[i].task.left|
      && |s.stages[i].out.buffer| + k <= cfg.capacity
      && (i == s.Last() || !s.IsDone(i + 1))
    case BreakPipe(i, dies) =>
      && i < s.Last() && s.stages[i].task.Writing? && s.IsDone(i + 1) && (s.stages[i].bridge ==> !dies)
    case Read(i, k) =>
      && 0 < i < |s.stages| && s.stages[i].task == Reading && 0 < k <= |s.stages[i - 1].out.buffer|
      && (s.stages[i].bridge ==> k <= BRIDGE_BUFFER)
    case ReadEof(i) =>
      0 < i < |s.stages| && s.stages[i].task == Reading && s.stages[i - 1].out.buffer == [] && s.IsDone(i - 1)
    case Complain(i, k) =>
      && i < |s.stages| && s.stages[i].task.Complaining? && 0 < k <= |s.stages[i].task.left|
      && |s.stages[i].err.buffer| + k <= cfg.capacity
    case FinalReport(i) => i < |s.stages| && s.stages[i].task == Reporting
    case DrainErr(i, k) => i < |s.stages| && ErrIsRead(cfg, s, i) && 0 < k <= |s.stages[i].err.buffer|
    case DrainOut(k) =>
      s.stages != [] && Awaited(cfg, s) == s.Last() && 0 < k <= |s.stages[s.Last()].out.buffer|
    case Advance =>
      var i := Awaited(cfg, s);
      && 0 <= i < |s.stages| && s.waited < |s.stages|
      && (s.stages[i].bridge || s.IsDone(i))
      && (i == s.Last() ==> s.stages[i].out.buffer == [] && s.stages[i].err.buffer == [])
    case Return => s.waited == |s.stages| && forall i :: 0 <= i < s.Last() ==> s.stages[i].err.buffer == []
  }

  /** The exit statuses, checked from the producer down. */
  function Verdict(stages: seq<Stage>, i: nat): Outcome
    requires i <= |stages|
    decreases |stages| - i
  {
    if i == |stages| then Success
    else if !stages[i].bridge && stages[i].task != Done(true) then Failed(i, stages[i].err.taken)
    else Verdict(stages, i + 1)
  }

  /** A finished chunk: a process picks again; the bridge counts it, perhaps reports, and reads on. */
  function Wrote(st: Stage, tick: bool): Stage
    requires st.task.Writing?
  {
    if st.bridge then
      var total := st.total + st.task.size;
      st.(task := Reading, total := total, reports := st.reports + if tick then [total] else [])
    else st.(task := Ready)
  }

  function Apply(cfg: Config, s: State, step: Step): State
    requires Enabled(cfg, s, step)
  {
    match step
    case Pick(i, task) =>
      var st := s.stages[i];
      s.Put(i, st.(task := task, fuel := if task.Done? then st.fuel else st.fuel - 1))
    case Write(i, k, tick) =>
      var st := s.stages[i];
      var st' := st.(out := st.out.Put(st.task.left[..k]));
      s.Put(i, if k == |st.task.left| then Wrote(st', tick) else st'.(task := Writing(st.task.left[k..], st.task.size)))
    case BreakPipe(i, dies) =>
      var st := s.stages[i];
      s.Put(i, st.(task := if st.bridge then Reporting else if dies then Done(false) else Ready))
    case Read(i, k) =>
      var st := s.stages[i];
      var data := s.stages[i - 1].out.buffer[..k];
      s.Put(i - 1, s.stages[i - 1].(out := s.stages[i - 1].out.Take(k)))
       .Put(i, st.(task := if st.bridge then Writing(data, |data|) else Ready))
    case ReadEof(i) =>
      var st := s.stages[i];
      s.Put(i, st.(task := if st.bridge then Reporting else Ready, sawEof := true))
    case Complain(i, k) =>
      var st := s.stages[i];
      var left := st.task.left;
      s.Put(i, st.(err := st.err.Put(left[..k]), task := if k == |left| then Ready else Complaining(left[k..])))
    case FinalReport(i) =>
      var st := s.stages[i];
      s.Put(i, st.(task := Done(true), reports := st.reports + [st.total]))
    case DrainErr(i, k) => s.Put(i, s.stages[i].(err := s.stages[i].err.Take(k)))
    case DrainOut(k) => s.Put(s.Last(), s.stages[s.Last()].(out := s.stages[s.Last()].out.Take(k)))
    case Advance => s.(waited := s.waited + 1)
    case Return => s.(outcome := Some(Verdict(s.stages, 0)))
  }

  // ---------------------------------------------------------------------------
  // The invariant
  // ---------------------------------------------------------------------------

  ghost predicate StageOk(i: nat, st: Stage) {
    && st.out.Valid() && st.err.Valid()
    && (st.task.Writing? ==> st.task.left != [] && |st.task.left| <= st.task.size)
    && (st.task.Complaining? ==> st.task.left != [])
    && (i == 0 ==> st.task != Reading && !st.sawEof && !st.bridge)
    && (if st.bridge then !st.task.Ready? && !st.task.Complaining? && st.task != Done(false) && st.err == EMPTY
        else st.task != Reporting)
  }

  /** The bridge against the bytes it has read: nothing lost, reordered or counted twice. */
  ghost predicate BridgeOk(read: seq<byte>, st: Stage, reader: Stage) {
    && (st.reports != [] ==> st.reports[|st.reports| - 1] <= st.total)
    && match st.task
       case Reading => read == st.out.sent && st.total == |st.out.sent| && !st.sawEof
       case Writing(left, size) => read == st.out.sent + left && st.total + size - |left| == |st.out.sent| && !st.sawEof
       case _ =>
         && (st.task.Done? ==> st.reports != [] && st.reports[|st.reports| - 1] == st.total)
         && (if st.sawEof then read == st.out.sent && st.total == |st.out.sent|
             else st.out.sent <= read && st.total <= |st.out.sent| && reader.task.Done? && !reader.sawEof)
  }

  /** End of file is seen only behind a finished writer and an empty pipe. */
  ghost predicate LinkOk(writer: Stage, reader: Stage) {
    reader.sawEof ==> writer.task.Done? && writer.out.buffer == []
  }

  ghost predicate ParentOk(cfg: Config, s: State) {
    && s.waited <= |s.stages|
    && (cfg.consumerFirst ==>
          (forall i :: 0 <= i < |s.stages| && i > s.Last() - s.waited ==> s.stages[i].bridge || s.IsDone(i))
          && (s.waited > 0 ==> s.stages[s.Last()].out.buffer == [] && s.stages[s.Last()].err.buffer == []))
    && (s.outcome.Some? ==> s.waited == |s.stages| && s.outcome.value == Verdict(s.stages, 0)
                            && forall i :: 0 <= i < s.Last() ==> s.stages[i].err.buffer == [])
  }

  ghost predicate StagesOk(s: State) {
    forall i :: 0 <= i < |s.stages| ==> StageOk(i, s.stages[i])
  }

  ghost predicate LinksOk(s: State) {
    forall i :: 0 < i < |s.stages| ==> LinkOk(s.stages[i - 1], s.stages[i])
  }

  ghost predicate BridgesOk(s: State) {
    forall i :: 0 < i < s.Last() && s.stages[i].bridge
      ==> BridgeOk(s.stages[i - 1].out.taken, s.stages[i], s.stages[i + 1])
  }

  ghost predicate Inv(cfg: Config, s: State) {
    |s.stages| >= 2 && !s.stages[s.Last()].bridge && StagesOk(s) && LinksOk(s) && BridgesOk(s) && ParentOk(cfg, s)
  }

  /** Freshly spawned: `fuels[i]` bounds process `i`; `bridges` says which stages are bridges. */
  function Start(bridges: seq<bool>, fuels: seq<nat>): State
    requires |bridges| == |fuels|
  {
    State(seq(|bridges|, i requires 0 <= i < |bridges| =>
            Stage(bridges[i], if bridges[i] then Reading else Ready, fuels[i], false, EMPTY, EMPTY, 0, [])), 0, None)
  }

  lemma StartIsOk(cfg: Config, bridges: seq<bool>, fuels: seq<nat>)
    requires |bridges| == |fuels| >= 2 && !bridges[0] && !bridges[|bridges| - 1]
    ensures Inv(cfg, Start(bridges, fuels))
  {
  }

  /** What the invariant says about stage `i` if it were `st`. */
  ghost predicate Fits(s: State, i: nat, st: Stage)
    requires i < |s.stages|
  {
    && StageOk(i, st)
    && (i > 0 ==> LinkOk(s.stages[i - 1], st))
    && (i < s.Last() ==> LinkOk(st, s.stages[i + 1]))
    && (0 < i < s.Last() && st.bridge ==> BridgeOk(s.stages[i - 1].out.taken, st, s.stages[i + 1]))
    && (i > 1 && s.stages[i - 1].bridge ==> BridgeOk(s.stages[i - 2].out.taken, s.stages[i - 1], st))
    && (i + 1 < s.Last() && s.stages[i + 1].bridge ==> BridgeOk(st.out.taken, s.stages[i + 1], s.stages[i + 2]))
  }

  /** The change is one the parent may have seen already. */
  predicate Settles(old_: Stage, st: Stage) {
    && st.bridge == old_.bridge
    && (old_.task.Done? ==> st.task == old_.task)
    && (old_.task.Done? && old_.out.buffer == [] ==> st.out.buffer == [])
    && (old_.task.Done? && old_.err.buffer == [] ==> st.err.buffer == [])
  }

  lemma Around(cfg: Config, s: State, i: nat)
    requires Inv(cfg, s) && i < |s.stages|
    ensures Fits(s, i, s.stages[i])
  {
  }

  lemma PutStages(s: State, i: nat, st: Stage)
    requires StagesOk(s) && i < |s.stages| && StageOk(i, st)
    ensures StagesOk(s.Put(i, st))
  {
  }

  lemma PutLinks(s: State, i: nat, st: Stage)
    requires LinksOk(s) && i < |s.stages| && Fits(s, i, st)
    ensures LinksOk(s.Put(i, st))
  {
    var s' := s.Put(i, st);
    forall j | 0 < j < |s'.stages| ensures LinkOk(s'.stages[j - 1], s'.stages[j]) {
      assert LinkOk(s.stages[j - 1], s.stages[j]);
    }
  }

  lemma PutBridges(s: State, i: nat, st: Stage)
    requires BridgesOk(s) && i < |s.stages| && Fits(s, i, st) && st.bridge == s.stages[i].bridge
    ensures BridgesOk(s.Put(i, st))
  {
    var s' := s.Put(i, st);
    forall j | 0 < j < s'.Last() && s'.stages[j].bridge
      ensures BridgeOk(s'.stages[j - 1].out.taken, s'.stages[j], s'.stages[j + 1])
    {
      if i != j && i != j + 1 && i != j - 1 {
        assert BridgeOk(s.stages[j - 1].out.taken, s.stages[j], s.stages[j + 1]);
      }
    }
  }

  lemma PutParent(cfg: Config, s: State, i: nat, st: Stage)
    requires ParentOk(cfg, s) && |s.stages| > 0 && !s.stages[s.Last()].bridge && s.outcome.None?
    requires i < |s.stages| && Settles(s.stages[i], st)
    ensures ParentOk(cfg, s.Put(i, st))
  {
    if cfg.consumerFirst && s.waited > 0 {
      assert s.stages[s.Last()].bridge || s.IsDone(s.Last());
    }
  }

  lemma PutKeeps(cfg: Config, s: State, i: nat, st: Stage)
    requires Inv(cfg, s) && i < |s.stages| && Fits(s, i, st) && Settles(s.stages[i], st) && s.outcome.None?
    ensures Inv(cfg, s.Put(i, st))
  {
    PutStages(s, i, st);
    PutLinks(s, i, st);
    PutBridges(s, i, st);
    PutParent(cfg, s, i, st);
  }

  // One lemma for each kind of step: the changed stage still fits.

  lemma PickFits(cfg: Config, s: State, i: nat, task: Task)
    requires Inv(cfg, s) && Enabled(cfg, s, Pick(i, task))
    ensures Inv(cfg, Apply(cfg, s, Pick(i, task)))
  {
    Around(cfg, s, i);
    var st := s.stages[i];
    PickLocal(s, i, task);
    PutKeeps(cfg, s, i, st.(task := task, fuel := if task.Done? then st.fuel else st.fuel - 1));
  }

  lemma PickLocal(s: State, i: nat, task: Task)
    requires i < |s.stages| && Fits(s, i, s.stages[i]) && s.stages[i].task == Ready && CanPick(i, s.stages[i], task)
    ensures var st := s.stages[i]; Fits(s, i, st.(task := task, fuel := if task.Done? then st.fuel else st.fuel - 1))
  {
  }

  lemma {:induction false} Regroup(sent: seq<byte>, taken: seq<byte>, buffer: seq<byte>, left: seq<byte>, k: nat)
    requires sent == taken + buffer && k <= |left|
    ensures sent + left[..k] == taken + (buffer + left[..k])
    ensures sent + left == sent + left[..k] + left[k..]
    ensures k == |left| ==> sent + left[..k] == sent + left
  {
    assert left == left[..k] + left[k..];
  }

  function Written(st: Stage, k: nat, tick: bool): Stage
    requires st.task.Writing? && k <= |st.task.left|
  {
    var st' := st.(out := st.out.Put(st.task.left[..k]));
    if k == |st.task.left| then Wrote(st', tick) else st'.(task := Writing(st.task.left[k..], st.task.size))
  }

  lemma WriteLocal(s: State, i: nat, k: nat, tick: bool)
    requires i < |s.stages| && Fits(s, i, s.stages[i]) && s.stages[i].task.Writing? && 0 < k <= |s.stages[i].task.left|
    ensures Fits(s, i, Written(s.stages[i], k, tick))
  {
    var st := s.stages[i];
    Regroup(st.out.sent, st.out.taken, st.out.buffer, st.task.left, k);
  }

  lemma WriteIsPut(cfg: Config, s: State, i: nat, k: nat, tick: bool)
    requires Enabled(cfg, s, Write(i, k, tick))
    ensures Apply(cfg, s, Write(i, k, tick)) == s.Put(i, Written(s.stages[i], k, tick))
  {
  }

  lemma WriteFits(cfg: Config, s: State, i: nat, k: nat, tick: bool)
    requires Inv(cfg, s) && Enabled(cfg, s, Write(i, k, tick))
    ensures Inv(cfg, Apply(cfg, s, Write(i, k, tick)))
  {
    Around(cfg, s, i);
    WriteLocal(s, i, k, tick);
    PutKeeps(cfg, s, i, Written(s.stages[i], k, tick));
    WriteIsPut(cfg, s, i, k, tick);
  }

  lemma BreakFits(cfg: Config, s: State, i: nat, dies: bool)
    requires Inv(cfg, s) && Enabled(cfg, s, BreakPipe(i, dies))
    ensures Inv(cfg, Apply(cfg, s, BreakPipe(i, dies)))
  {
    Around(cfg, s, i);
    var st := s.stages[i];
    BreakLocal(s, i, dies);
    PutKeeps(cfg, s, i, st.(task := if st.bridge then Reporting else if dies then Done(false) else Ready));
  }

  lemma BreakLocal(s: State, i: nat, dies: bool)
    requires i < s.Last() && Fits(s, i, s.stages[i]) && s.stages[i].task.Writing? && s.IsDone(i + 1)
    ensures
      var st := s.stages[i];
      Fits(s, i, st.(task := if st.bridge then Reporting else if dies then Done(false) else Ready))
  {
  }

  function Drained(st: Stage, k: nat): Stage
    requires k <= |st.out.buffer|
  {
    st.(out := st.out.Take(k))
  }

  function Loaded(st: Stage, data: seq<byte>): Stage {
    st.(task := if st.bridge then Writing(data, |data|) else Ready)
  }

  lemma TakeValid(p: Pipe, k: nat)
    requires p.Valid() && k <= |p.buffer|
    ensures p.Take(k).Valid()
  {
    assert p.buffer == p.buffer[..k] + p.buffer[k..];
    assert p.taken + p.buffer == p.taken + p.buffer[..k] + p.buffer[k..];
  }

  /** Reading hands the bytes over: the pipe loses what the reader now holds. */
  lemma ReadBridge(read: seq<byte>, data: seq<byte>, st: Stage, next: Stage)
    requires BridgeOk(read, st, next) && st.task == Reading && st.bridge
    ensures BridgeOk(read + data, Loaded(st, data), next)
  {
  }

  lemma ReadFits(cfg: Config, s: State, i: nat, k: nat)
    requires Inv(cfg, s) && Enabled(cfg, s, Read(i, k))
    ensures Inv(cfg, Apply(cfg, s, Read(i, k)))
  {
    var writer, st := s.stages[i - 1], s.stages[i];
    var data := writer.out.buffer[..k];
    var writer', st' := Drained(writer, k), Loaded(st, data);
    var mid := s.Put(i - 1, writer');
    var s' := mid.Put(i, st');
    assert s' == Apply(cfg, s, Read(i, k));
    TakeValid(writer.out, k);
    PutStages(s, i - 1, writer');
    PutStages(mid, i, st');
    ReadLinks(s, i, writer', st');
    ReadBridges(s, i, k);
    PutParent(cfg, s, i - 1, writer');
    PutParent(cfg, mid, i, st');
  }

  lemma ReadLinks(s: State, i: nat, writer: Stage, reader: Stage)
    requires LinksOk(s) && 0 < i < |s.stages|
    requires writer.task == s.stages[i - 1].task && writer.sawEof == s.stages[i - 1].sawEof
    requires s.stages[i - 1].out.buffer == [] ==> writer.out.buffer == []
    requires reader.sawEof == s.stages[i].sawEof && reader.out == s.stages[i].out
    requires s.IsDone(i) ==> reader.task.Done?
    ensures LinksOk(s.Put(i - 1, writer).Put(i, reader))
  {
    var s' := s.Put(i - 1, writer).Put(i, reader);
    forall j | 0 < j < |s'.stages| ensures LinkOk(s'.stages[j - 1], s'.stages[j]) {
      assert LinkOk(s.stages[j - 1], s.stages[j]);
    }
  }

  lemma ReadBridges(s: State, i: nat, k: nat)
    requires BridgesOk(s) && 0 < i < |s.stages| && k <= |s.stages[i - 1].out.buffer| && s.stages[i].task == Reading
    ensures
      var data := s.stages[i - 1].out.buffer[..k];
      BridgesOk(s.Put(i - 1, Drained(s.stages[i - 1], k)).Put(i, Loaded(s.stages[i], data)))
  {
    var data := s.stages[i - 1].out.buffer[..k];
    var s' := s.Put(i - 1, Drained(s.stages[i - 1], k)).Put(i, Loaded(s.stages[i], data));
    forall j | 0 < j < s'.Last() && s'.stages[j].bridge
      ensures BridgeOk(s'.stages[j - 1].out.taken, s'.stages[j], s'.stages[j + 1])
    {
      assert BridgeOk(s.stages[j - 1].out.taken, s.stages[j], s.stages[j + 1]);
      if j == i {
        ReadBridge(s.stages[i - 1].out.taken, data, s.stages[i], s.stages[i + 1]);
      }
    }
  }

  lemma EofFits(cfg: Config, s: State, i: nat)
    requires Inv(cfg, s) && Enabled(cfg, s, ReadEof(i))
    ensures Inv(cfg, Apply(cfg, s, ReadEof(i)))
  {
    Around(cfg, s, i);
    EofLocal(s, i);
    var st := s.stages[i];
    PutKeeps(cfg, s, i, st.(task := if st.bridge then Reporting else Ready, sawEof := true));
  }

  lemma EofLocal(s: State, i: nat)
    requires 0 < i < |s.stages| && Fits(s, i, s.stages[i]) && s.stages[i].task == Reading
    requires s.stages[i - 1].out.buffer == [] && s.IsDone(i - 1)
    requires i > 1 && s.stages[i - 1].bridge ==> s.stages[i - 1].sawEof || s.stages[i].task.Done?
    ensures var st := s.stages[i]; Fits(s, i, st.(task := if st.bridge then Reporting else Ready, sawEof := true))
  {
  }

  lemma ComplainFits(cfg: Config, s: State, i: nat, k: nat)
    requires Inv(cfg, s) && Enabled(cfg, s, Complain(i, k))
    ensures Inv(cfg, Apply(cfg, s, Complain(i, k)))
  {
    Around(cfg, s, i);
    var st := s.stages[i];
    var left := st.task.left;
    Regroup(st.err.sent, st.err.taken, st.err.buffer, left, k);
    PutKeeps(cfg, s, i,
      st.(err := st.err.Put(left[..k]), task := if k == |left| then Ready else Complaining(left[k..])));
  }

  lemma ReportFits(cfg: Config, s: State, i: nat)
    requires Inv(cfg, s) && Enabled(cfg, s, FinalReport(i))
    ensures Inv(cfg, Apply(cfg, s, FinalReport(i)))
  {
    Around(cfg, s, i);
    var st := s.stages[i];
    PutKeeps(cfg, s, i, st.(task := Done(true), reports := st.reports + [st.total]));
  }

  lemma DrainFits(cfg: Config, s: State, i: nat, k: nat)
    requires Inv(cfg, s) && Enabled(cfg, s, DrainErr(i, k))
    ensures Inv(cfg, Apply(cfg, s, DrainErr(i, k)))
  {
    Around(cfg, s, i);
    TakeValid(s.stages[i].err, k);
    PutKeeps(cfg, s, i, s.stages[i].(err := s.stages[i].err.Take(k)));
  }

  lemma DrainOutFits(cfg: Config, s: State, k: nat)
    requires Inv(cfg, s) && Enabled(cfg, s, DrainOut(k))
    ensures Inv(cfg, Apply(cfg, s, DrainOut(k)))
  {
    var i := s.Last();
    Around(cfg, s, i);
    TakeValid(s.stages[i].out, k);
    PutKeeps(cfg, s, i, s.stages[i].(out := s.stages[i].out.Take(k)));
  }

  lemma AdvanceFits(cfg: Config, s: State)
    requires Inv(cfg, s) && Enabled(cfg, s, Advance)
    ensures Inv(cfg, Apply(cfg, s, Advance))
  {
  }

  lemma ReturnFits(cfg: Config, s: State)
    requires Inv(cfg, s) && Enabled(cfg, s, Return)
    ensures Inv(cfg, Apply(cfg, s, Return))
  {
  }

  /** The steps in which one stage works on its own. */
  lemma InvKeptInStage(cfg: Config, s: State, step: Step)
    requires Inv(cfg, s) && Enabled(cfg, s, step)
    requires step.Pick? || step.Write? || step.BreakPipe? || step.ReadEof? || step.Complain? || step.FinalReport?
    ensures Inv(cfg, Apply(cfg, s, step))
  {
    match step {
      case Pick(i, task) => PickFits(cfg, s, i, task);
      case Write(i, k, tick) => WriteFits(cfg, s, i, k, tick);
      case BreakPipe(i, dies) => BreakFits(cfg, s, i, dies);
      case ReadEof(i) => EofFits(cfg, s, i);
      case Complain(i, k) => ComplainFits(cfg, s, i, k);
      case FinalReport(i) => ReportFits(cfg, s, i);
    }
  }

  /** Every step keeps the invariant. */
  lemma InvKept(cfg: Config, s: State, step: Step)
    requires Inv(cfg, s) && Enabled(cfg, s, step)
    ensures Inv(cfg, Apply(cfg, s, step))
  {
    match step {
      case Pick(_, _) => InvKeptInStage(cfg, s, step);
      case Write(_, _, _) => InvKeptInStage(cfg, s, step);
      case BreakPipe(_, _) => InvKeptInStage(cfg, s, step);
      case ReadEof(_) => InvKeptInStage(cfg, s, step);
      case Complain(_, _) => InvKeptInStage(cfg, s, step);
      case FinalReport(_) => InvKeptInStage(cfg, s, step);
      case Read(i, k) => ReadFits(cfg, s, i, k);
      case DrainErr(i, k) => DrainFits(cfg, s, i, k);
      case DrainOut(k) => DrainOutFits(cfg, s, k);
      case Advance => AdvanceFits(cfg, s);
      case Return => ReturnFits(cfg, s);
    }
  }
}
