/** `build_status` of the evidence planner: how far the planned outputs exist on disk. */
module EvidencePlan {
  import opened Text

  /** What stands at an output's path. */
  datatype File = Absent | NotAFile | Sized(size: int)

  datatype Output = Present | Missing | Empty | Unusable

  /** What a step covers: one gate, a list of gates with entries that may not be strings, or neither. */
  datatype Covers = OneGate(gate: string) | GateList(gates: seq<Option<string>>) | NoGates

  datatype Step = Step(id: string, commands: seq<string>, covers: Covers, outputs: seq<string>)
  datatype Stage = Stage(id: string, steps: seq<Step>)

  datatype Status = NotTracked | Complete | Partial | Pending | Invalid
  datatype Decision = Done | Blocked | Rejected

  type Disk = string -> File

  function Check(file: File): Output {
    match file
    case Absent => Missing
    case NotAFile => Unusable
    case Sized(n) => if n <= 0 then Empty else Present
  }

  function Outputs(step: Step, disk: Disk): (r: seq<Output>)
    ensures |r| == |step.outputs|
  {
    seq(|step.outputs|, i requires 0 <= i < |step.outputs| => Check(disk(step.outputs[i])))
  }

  function Gates(step: Step): set<string> {
    match step.covers
    case OneGate(g) => {g}
    case GateList(gates) => set g | g in gates && g.Some? :: g.value
    case NoGates => {}
  }

  // ----- one step

  datatype Counts = Counts(present: nat, missing: nat, empty: nat, invalid: nat)

  ghost function Count(outputs: seq<Output>, o: Output): nat {
    if outputs == [] then 0
    else Count(outputs[..|outputs| - 1], o) + if outputs[|outputs| - 1] == o then 1 else 0
  }

  ghost predicate Counted(c: Counts, outputs: seq<Output>) {
    && c.present == Count(outputs, Present) && c.missing == Count(outputs, Missing)
    && c.empty == Count(outputs, Empty) && c.invalid == Count(outputs, Unusable)
  }

  lemma {:induction false} CountPositive(outputs: seq<Output>, o: Output)
    ensures Count(outputs, o) > 0 <==> o in outputs
  {
    if outputs != [] {
      CountPositive(outputs[..|outputs| - 1], o);
      assert outputs == outputs[..|outputs| - 1] + [outputs[|outputs| - 1]];
    }
  }

  lemma {:induction false} CountsAddUp(outputs: seq<Output>)
    ensures Count(outputs, Present) + Count(outputs, Missing) + Count(outputs, Empty) + Count(outputs, Unusable) == |outputs|
  {
    if outputs != [] {
      CountsAddUp(outputs[..|outputs| - 1]);
    }
  }

  /** What a step's status says about its outputs. */
  ghost function StatusOf(outputs: seq<Output>): Status {
    if outputs == [] then NotTracked
    else if Unusable in outputs || Empty in outputs then Invalid
    else if Missing !in outputs then Complete
    else if Present in outputs then Partial
    else Pending
  }

  predicate Incomplete(s: Status) { s == Pending || s == Partial || s == Invalid }

  method CheckStep(step: Step, disk: Disk) returns (counts: Counts, status: Status)
    ensures Counted(counts, Outputs(step, disk))
    ensures status == StatusOf(Outputs(step, disk))
  {
    var outputs := Outputs(step, disk);
    counts := Counts(0, 0, 0, 0);
    for i := 0 to |outputs|
      invariant Counted(counts, outputs[..i])
    {
      assert outputs[..i + 1][..i] == outputs[..i];
      match outputs[i] {
        case Present => counts := counts.(present := counts.present + 1);
        case Missing => counts := counts.(missing := counts.missing + 1);
        case Empty => counts := counts.(empty := counts.empty + 1);
        case Unusable => counts := counts.(invalid := counts.invalid + 1);
      }
    }
    assert outputs[..|outputs|] == outputs;
    CountPositive(outputs, Present);
    CountPositive(outputs, Missing);
    CountPositive(outputs, Empty);
    CountPositive(outputs, Unusable);
    if outputs == [] {
      status := NotTracked;
    } else if counts.invalid > 0 || counts.empty > 0 {
      status := Invalid;
    } else if counts.missing > 0 {
      status := if counts.present == 0 then Pending else Partial;
    } else {
      status := Complete;
    }
  }

  ghost predicate Usable(file: File) { file.Sized? && file.size > 0 }

  ghost predicate Broken(file: File) { file.NotAFile? || (file.Sized? && file.size <= 0) }

  /** What a step's status says about the disk. */
  lemma StatusOnDisk(step: Step, disk: Disk)
    ensures var paths, status := step.outputs, StatusOf(Outputs(step, disk));
            && (status == Complete <==> paths != [] && forall p :: p in paths ==> Usable(disk(p)))
            && (status == Invalid <==> exists p :: p in paths && Broken(disk(p)))
            && (status == Pending <==> paths != [] && forall p :: p in paths ==> disk(p).Absent?)
            && (status == Partial <==>
                && (forall p :: p in paths ==> !Broken(disk(p)))
                && (exists p :: p in paths && Usable(disk(p))) && (exists p :: p in paths && disk(p).Absent?))
            && (status == NotTracked <==> paths == [])
  {
    hide Outputs;
    OutputOnDisk(step, disk, Present);
    OutputOnDisk(step, disk, Missing);
    OutputOnDisk(step, disk, Empty);
    OutputOnDisk(step, disk, Unusable);
    var paths := step.outputs;
    assert paths != [] ==> paths[0] in paths;
    forall p | p in paths ensures
      && (Usable(disk(p)) <==> Check(disk(p)) == Present) && (disk(p).Absent? <==> Check(disk(p)) == Missing)
      && (Broken(disk(p)) <==> Check(disk(p)) == Empty || Check(disk(p)) == Unusable)
    {
    }
    hide Check, Usable, Broken;
  }

  lemma OutputOnDisk(step: Step, disk: Disk, o: Output)
    ensures o in Outputs(step, disk) <==> exists p :: p in step.outputs && Check(disk(p)) == o
  {
    var r := Outputs(step, disk);
    if p :| p in step.outputs && Check(disk(p)) == o {
      var i :| 0 <= i < |step.outputs| && step.outputs[i] == p;
      assert r[i] == o;
    }
    if o in r {
      var i :| 0 <= i < |r| && r[i] == o;
      assert step.outputs[i] in step.outputs;
    }
  }

  // ----- the steps seen so far, over all stages

  datatype Placed = Placed(stage: string, step: Step)
  datatype NextStep = NextStep(stage: string, step: string, status: Status, commands: seq<string>)

  ghost function StepStatus(p: Placed, disk: Disk): Status { StatusOf(Outputs(p.step, disk)) }

  /** The number of planned outputs of these steps, and of those in one state. */
  ghost function Expected(steps: seq<Placed>): nat {
    if steps == [] then 0 else Expected(steps[..|steps| - 1]) + |steps[|steps| - 1].step.outputs|
  }

  ghost function Total(steps: seq<Placed>, disk: Disk, o: Output): nat {
    if steps == [] then 0 else Total(steps[..|steps| - 1], disk, o) + Count(Outputs(steps[|steps| - 1].step, disk), o)
  }

  datatype Totals = Totals(counts: Counts, expected: nat)

  ghost predicate Totalled(t: Totals, steps: seq<Placed>, disk: Disk) {
    && t.counts.present == Total(steps, disk, Present) && t.counts.missing == Total(steps, disk, Missing)
    && t.counts.empty == Total(steps, disk, Empty) && t.counts.invalid == Total(steps, disk, Unusable)
    && t.expected == Expected(steps)
  }

  /** `gates` is the union of the gates of incomplete steps. */
  ghost predicate PendingGates(gates: set<string>, steps: seq<Placed>, disk: Disk) {
    forall g :: g in gates <==> exists k :: 0 <= k < |steps| && Incomplete(StepStatus(steps[k], disk)) && g in Gates(steps[k].step)
  }

  ghost predicate FirstIncomplete(steps: seq<Placed>, disk: Disk, k: nat) {
    && k < |steps| && Incomplete(StepStatus(steps[k], disk))
    && forall j :: 0 <= j < k ==> !Incomplete(StepStatus(steps[j], disk))
  }

  ghost predicate AllComplete(steps: seq<Placed>, disk: Disk) {
    forall k :: 0 <= k < |steps| ==> !Incomplete(StepStatus(steps[k], disk))
  }

  ghost predicate Describes(next: NextStep, p: Placed, disk: Disk) {
    next == NextStep(p.stage, p.step.id, StepStatus(p, disk), p.step.commands)
  }

  /** `next` is the first incomplete step in order, if there is one. */
  ghost predicate NextIs(next: Option<NextStep>, steps: seq<Placed>, disk: Disk) {
    if next.None? then AllComplete(steps, disk)
    else exists k: nat :: FirstIncomplete(steps, disk, k) && Describes(next.value, steps[k], disk)
  }

  datatype Progress = Progress(totals: Totals, gates: set<string>, next: Option<NextStep>)

  ghost predicate Tracks(p: Progress, steps: seq<Placed>, disk: Disk) {
    Totalled(p.totals, steps, disk) && PendingGates(p.gates, steps, disk) && NextIs(p.next, steps, disk)
  }

  lemma NextStays(next: Option<NextStep>, steps: seq<Placed>, x: Placed, disk: Disk)
    requires NextIs(next, steps, disk)
    ensures next.Some? || !Incomplete(StepStatus(x, disk)) ==> NextIs(next, steps + [x], disk)
    ensures next.None? && Incomplete(StepStatus(x, disk)) ==>
      NextIs(Some(NextStep(x.stage, x.step.id, StepStatus(x, disk), x.step.commands)), steps + [x], disk)
  {
    hide StepStatus, Incomplete;
    var longer := steps + [x];
    assert forall k :: 0 <= k < |steps| ==> longer[k] == steps[k];
    if next.Some? {
      var k: nat :| FirstIncomplete(steps, disk, k) && Describes(next.value, steps[k], disk);
      assert FirstIncomplete(longer, disk, k) && Describes(next.value, longer[k], disk);
    } else if Incomplete(StepStatus(x, disk)) {
      assert longer[|steps|] == x && FirstIncomplete(longer, disk, |steps|);
    }
  }

  lemma GatesGrow(gates: set<string>, steps: seq<Placed>, x: Placed, disk: Disk)
    requires PendingGates(gates, steps, disk)
    ensures PendingGates(gates + if Incomplete(StepStatus(x, disk)) then Gates(x.step) else {}, steps + [x], disk)
  {
    hide StepStatus, Incomplete, Gates;
    var longer := steps + [x];
    var gates' := gates + if Incomplete(StepStatus(x, disk)) then Gates(x.step) else {};
    forall g ensures g in gates' <==>
      exists k :: 0 <= k < |longer| && Incomplete(StepStatus(longer[k], disk)) && g in Gates(longer[k].step)
    {
      if k :| 0 <= k < |steps| && Incomplete(StepStatus(steps[k], disk)) && g in Gates(steps[k].step) {
        assert longer[k] == steps[k];
      }
      assert longer[|steps|] == x;
    }
  }

  lemma TotalsGrow(t: Totals, steps: seq<Placed>, x: Placed, disk: Disk, c: Counts)
    requires Totalled(t, steps, disk) && Counted(c, Outputs(x.step, disk))
    ensures Totalled(AddCounts(t, c, |x.step.outputs|), steps + [x], disk)
  {
    hide Count;
    assert (steps + [x])[..|steps|] == steps;
  }

  function AddCounts(t: Totals, c: Counts, n: nat): Totals {
    Totals(Counts(t.counts.present + c.present, t.counts.missing + c.missing, t.counts.empty + c.empty,
                  t.counts.invalid + c.invalid), t.expected + n)
  }

  // ----- stages

  ghost function StagePlaced(stage: Stage, n: nat): (r: seq<Placed>)
    requires n <= |stage.steps|
    ensures |r| == n && forall k :: 0 <= k < n ==> r[k] == Placed(stage.id, stage.steps[k])
  {
    seq(n, k requires 0 <= k < n => Placed(stage.id, stage.steps[k]))
  }

  /** All steps of the first `n` stages in plan order. */
  ghost function AllPlaced(plan: seq<Stage>, n: nat): seq<Placed>
    requires n <= |plan|
  {
    if n == 0 then [] else AllPlaced(plan, n - 1) + StagePlaced(plan[n - 1], |plan[n - 1].steps|)
  }

  /** A stage's state, from its steps' statuses. */
  function StageState(s: seq<Status>): Status {
    if forall k :: 0 <= k < |s| ==> s[k] == NotTracked then NotTracked
    else if forall k :: 0 <= k < |s| ==> s[k] == NotTracked || s[k] == Complete then Complete
    else if Invalid in s then Invalid
    else if Complete in s || Partial in s then Partial
    else Pending
  }

  ghost predicate StatusesOf(statuses: seq<Status>, stage: Stage, disk: Disk, n: nat)
    requires n <= |stage.steps|
  {
    |statuses| == n && forall k :: 0 <= k < n ==> statuses[k] == StatusOf(Outputs(stage.steps[k], disk))
  }

  /** The inner loop, over one stage's steps. */
  method WalkStage(stage: Stage, disk: Disk, before: Progress, ghost steps: seq<Placed>)
    returns (after: Progress, statuses: seq<Status>)
    requires Tracks(before, steps, disk)
    ensures Tracks(after, steps + StagePlaced(stage, |stage.steps|), disk)
    ensures StatusesOf(statuses, stage, disk, |stage.steps|)
  {
    hide Totalled, PendingGates, NextIs, StatusOf, Gates, Outputs, Counted;
    after, statuses := before, [];
    assert steps + StagePlaced(stage, 0) == steps;
    for k := 0 to |stage.steps|
      invariant Tracks(after, steps + StagePlaced(stage, k), disk)
      invariant StatusesOf(statuses, stage, disk, k)
    {
      var step := stage.steps[k];
      ghost var sofar, x := steps + StagePlaced(stage, k), Placed(stage.id, step);
      assert steps + StagePlaced(stage, k + 1) == sofar + [x];
      var counts, status := CheckStep(step, disk);
      TotalsGrow(after.totals, sofar, x, disk, counts);
      GatesGrow(after.gates, sofar, x, disk);
      NextStays(after.next, sofar, x, disk);
      after := after.(totals := AddCounts(after.totals, counts, |step.outputs|));
      if Incomplete(status) {
        after := after.(gates := after.gates + Gates(step));
        if after.next.None? {
          after := after.(next := Some(NextStep(stage.id, step.id, status, step.commands)));
        }
      }
      assert after.gates + {} == after.gates;
      statuses := statuses + [status];
    }
  }

  datatype Report = Report(decision: Decision, totals: Totals, gates: set<string>, next: Option<NextStep>,
                           stages: seq<(string, Status)>)

  ghost predicate StageReports(stages: seq<(string, Status)>, plan: seq<Stage>, disk: Disk, n: nat) {
    |stages| == n <= |plan| && forall k :: 0 <= k < n ==> StageReported(stages[k], plan[k], disk)
  }

  ghost predicate StageReported(r: (string, Status), stage: Stage, disk: Disk) {
    r.0 == stage.id && exists s :: StatusesOf(s, stage, disk, |stage.steps|) && r.1 == StageState(s)
  }

  /** `build_status`: totals, gates and next step describe all steps in plan order; the
      decision is complete exactly when every tracked step is, which is when there is no
      next step, and a rejection exactly when some step, and some stage, is invalid. */
  method BuildStatus(plan: seq<Stage>, disk: Disk) returns (r: Report)
    ensures Tracks(Progress(r.totals, r.gates, r.next), AllPlaced(plan, |plan|), disk)
    ensures StageReports(r.stages, plan, disk, |plan|)
    ensures r.totals.counts.present + r.totals.counts.missing + r.totals.counts.empty + r.totals.counts.invalid == r.totals.expected
    ensures r.decision == Done <==> AllComplete(AllPlaced(plan, |plan|), disk)
    ensures r.decision == Done <==> r.next.None?
    ensures r.decision == Rejected <==> SomeStep(AllPlaced(plan, |plan|), disk, Invalid)
    ensures r.decision == Rejected <==> exists i :: 0 <= i < |plan| && r.stages[i].1 == Invalid
  {
    hide Tracks, StageReported, Decide, AllComplete, SomeStep;
    var p := Progress(Totals(Counts(0, 0, 0, 0), 0), {}, None);
    NothingTracked(p, disk);
    var stages: seq<(string, Status)> := [];
    for i := 0 to |plan|
      invariant Tracks(p, AllPlaced(plan, i), disk)
      invariant StageReports(stages, plan, disk, i)
    {
      var statuses;
      p, statuses := WalkStage(plan[i], disk, p, AllPlaced(plan, i));
      Reported(plan[i], disk, statuses);
      stages := stages + [(plan[i].id, StageState(statuses))];
    }
    ReportMeans(plan, disk, p, stages);
    return Report(Decide(p.totals), p.totals, p.gates, p.next, stages);
  }

  function Decide(t: Totals): Decision {
    if t.counts.invalid > 0 || t.counts.empty > 0 then Rejected else if t.counts.missing > 0 then Blocked else Done
  }

  lemma ReportMeans(plan: seq<Stage>, disk: Disk, p: Progress, stages: seq<(string, Status)>)
    requires Tracks(p, AllPlaced(plan, |plan|), disk) && StageReports(stages, plan, disk, |plan|)
    ensures p.totals.counts.present + p.totals.counts.missing + p.totals.counts.empty + p.totals.counts.invalid == p.totals.expected
    ensures Decide(p.totals) == Done <==> AllComplete(AllPlaced(plan, |plan|), disk)
    ensures Decide(p.totals) == Done <==> p.next.None?
    ensures Decide(p.totals) == Rejected <==> SomeStep(AllPlaced(plan, |plan|), disk, Invalid)
    ensures Decide(p.totals) == Rejected <==> exists i :: 0 <= i < |stages| && stages[i].1 == Invalid
  {
    hide Decide, Totalled, AllComplete, SomeStep, StageReports, AllPlaced, PendingGates, NextIs;
    CompleteMeansNoNextStep(p, AllPlaced(plan, |plan|), disk);
    DecisionMeans(p.totals, AllPlaced(plan, |plan|), disk);
    RejectionMeansInvalidStage(plan, disk, p.totals, stages);
  }

  lemma NothingTracked(p: Progress, disk: Disk)
    requires p == Progress(Totals(Counts(0, 0, 0, 0), 0), {}, None)
    ensures Tracks(p, [], disk)
  {
  }

  lemma Reported(stage: Stage, disk: Disk, statuses: seq<Status>)
    requires StatusesOf(statuses, stage, disk, |stage.steps|)
    ensures StageReported((stage.id, StageState(statuses)), stage, disk)
  {
  }

  // ----- what the report means

  /** The four totals sum to the number of expected outputs. */
  lemma {:induction false} TotalsAddUp(steps: seq<Placed>, disk: Disk)
    ensures Total(steps, disk, Present) + Total(steps, disk, Missing) + Total(steps, disk, Empty) + Total(steps, disk, Unusable)
         == Expected(steps)
  {
    if steps != [] {
      TotalsAddUp(steps[..|steps| - 1], disk);
      CountsAddUp(Outputs(steps[|steps| - 1].step, disk));
    }
  }

  lemma {:induction false} TotalPositive(steps: seq<Placed>, disk: Disk, o: Output)
    ensures Total(steps, disk, o) > 0 <==> exists k :: 0 <= k < |steps| && o in Outputs(steps[k].step, disk)
  {
    hide Outputs, Count;
    if steps != [] {
      var n := |steps| - 1;
      TotalPositive(steps[..n], disk, o);
      CountPositive(Outputs(steps[n].step, disk), o);
      assert forall k :: 0 <= k < n ==> steps[..n][k] == steps[k];
    }
  }

  ghost predicate SomeStep(steps: seq<Placed>, disk: Disk, s: Status) {
    exists k :: 0 <= k < |steps| && StepStatus(steps[k], disk) == s
  }

  /** The decision is complete exactly when no step is incomplete, and a rejection exactly
      when some step is invalid. */
  lemma DecisionMeans(t: Totals, steps: seq<Placed>, disk: Disk)
    requires Totalled(t, steps, disk)
    ensures Decide(t) == Done <==> AllComplete(steps, disk)
    ensures Decide(t) == Rejected <==> SomeStep(steps, disk, Invalid)
  {
    TotalPositive(steps, disk, Missing);
    TotalPositive(steps, disk, Empty);
    TotalPositive(steps, disk, Unusable);
    hide Total, Outputs, Expected;
    forall k | 0 <= k < |steps| ensures Incomplete(StepStatus(steps[k], disk)) <==>
      (var o := Outputs(steps[k].step, disk); Missing in o || Empty in o || Unusable in o)
    {
    }
  }

  /** Complete decisions are exactly those with no next step. */
  lemma CompleteMeansNoNextStep(p: Progress, steps: seq<Placed>, disk: Disk)
    requires Tracks(p, steps, disk)
    ensures Decide(p.totals) == Done <==> p.next.None?
    ensures p.totals.counts.present + p.totals.counts.missing + p.totals.counts.empty + p.totals.counts.invalid == p.totals.expected
  {
    hide StepStatus, Total, Expected, Incomplete, PendingGates, Decide;
    DecisionMeans(p.totals, steps, disk);
    TotalsAddUp(steps, disk);
  }

  ghost predicate StageHas(stage: Stage, disk: Disk, s: Status) {
    exists k :: 0 <= k < |stage.steps| && StatusOf(Outputs(stage.steps[k], disk)) == s
  }

  /** A stage is invalid exactly when one of its steps is. */
  lemma InvalidStageMeans(r: (string, Status), stage: Stage, disk: Disk)
    requires StageReported(r, stage, disk)
    ensures r.1 == Invalid <==> StageHas(stage, disk, Invalid)
  {
    hide StatusOf, Outputs;
    var s :| StatusesOf(s, stage, disk, |stage.steps|) && r.1 == StageState(s);
    if k :| 0 <= k < |stage.steps| && StatusOf(Outputs(stage.steps[k], disk)) == Invalid {
      assert s[k] == Invalid;
    }
  }

  lemma {:induction false} PlacedSteps(plan: seq<Stage>, n: nat, disk: Disk, s: Status)
    requires n <= |plan|
    ensures SomeStep(AllPlaced(plan, n), disk, s) <==>
            exists i :: 0 <= i < n && StageHas(plan[i], disk, s)
  {
    hide StatusOf, Outputs;
    if n > 0 {
      PlacedSteps(plan, n - 1, disk, s);
      var stage := plan[n - 1];
      var a, b := AllPlaced(plan, n - 1), StagePlaced(stage, |stage.steps|);
      SomeStepAppend(a, b, disk, s);
      if k :| 0 <= k < |b| && StepStatus(b[k], disk) == s {
        assert StatusOf(Outputs(stage.steps[k], disk)) == s;
      }
      if k :| 0 <= k < |stage.steps| && StatusOf(Outputs(stage.steps[k], disk)) == s {
        assert StepStatus(b[k], disk) == s;
      }
    }
  }

  lemma SomeStepAppend(a: seq<Placed>, b: seq<Placed>, disk: Disk, s: Status)
    ensures SomeStep(a + b, disk, s) <==> SomeStep(a, disk, s) || SomeStep(b, disk, s)
  {
    hide StepStatus;
    var c := a + b;
    if k :| 0 <= k < |a| && StepStatus(a[k], disk) == s {
      assert c[k] == a[k];
    }
    if k :| 0 <= k < |b| && StepStatus(b[k], disk) == s {
      assert c[|a| + k] == b[k];
    }
  }

  /** The decision is a rejection exactly when some stage is reported invalid. */
  lemma RejectionMeansInvalidStage(plan: seq<Stage>, disk: Disk, t: Totals, stages: seq<(string, Status)>)
    requires Totalled(t, AllPlaced(plan, |plan|), disk) && StageReports(stages, plan, disk, |plan|)
    ensures Decide(t) == Rejected <==> exists i :: 0 <= i < |stages| && stages[i].1 == Invalid
  {
    hide StageHas, Totalled, StageReported, AllPlaced, Decide, SomeStep;
    DecisionMeans(t, AllPlaced(plan, |plan|), disk);
    PlacedSteps(plan, |plan|, disk, Invalid);
    forall i | 0 <= i < |plan|
      ensures stages[i].1 == Invalid <==> StageHas(plan[i], disk, Invalid)
    {
      InvalidStageMeans(stages[i], plan[i], disk);
    }
  }
}
