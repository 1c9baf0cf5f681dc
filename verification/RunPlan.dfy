/** What one ScanOrchestrator.run_scan does to the step registry, as a list of registry operations,
    and why every planned step ends settled. */
module RunPlan {
  import opened Checkpoint
  import opened CheckpointProtocol
  import opened Collections
  import Log = StepLog

  datatype Plan = Plan(gitRepo: bool, collectMetadata: bool, scanners: seq<ScannerDef>)

  /** What _run_scanner tells the registry in the end. */
  datatype Outcome = Succeeded | FailedWith(message: string) | SkippedByFile(message: string)

  /** A call of BaseScanner on the registry, for a substep of the running scanner's own step. */
  datatype SubCall =
    | SubStarts(sub: string, message: string, kind: Log.SubStepType)
    | SubEnds(sub: string, failed: bool, message: string)
    | SubUpdates(sub: string, message: string)

  /** status.json after the tool ran: not there or not a JSON object, or its two fields. */
  datatype StatusFile = NoStatus | Status(status: string, message: Option<string>)

  /** How the execution of a scanner with a tools_key ends. */
  datatype Ending = NoClass | Raised(error: string) | Returned(success: bool, file: StatusFile)

  /** What one execution of a scanner does: the substeps it reports, the files of its directory it
      writes or removes, how it ends, and the version its tool reports afterwards. */
  datatype Attempt = Attempt(
    calls: seq<SubCall>, writes: seq<(string, Option<Bytes>)>, ending: Ending, version: string)

  /** A status file that says skipped overrides whatever the tool returned; an exception is a
      failure without a look at the file. */
  function OutcomeOf(sc: ScannerDef, ending: Ending): Outcome {
    if sc.toolsKey == "" then FailedWith("No tools_key in registry")
    else
      match ending
      case NoClass => FailedWith("No python_class on scanner")
      case Raised(error) => FailedWith(sc.name + " scan error: " + error)
      case Returned(success, file) =>
        if file.Status? && file.status == "skipped" then
          SkippedByFile(if file.message.Some? then file.message.value else sc.name + " skipped")
        else if success then Succeeded
        else FailedWith(sc.name + " scan failed")
  }

  /** The substeps reported: none if no tool is run. */
  function CallsOf(sc: ScannerDef, attempt: Attempt): seq<SubCall> {
    if sc.toolsKey == "" || attempt.ending.NoClass? then [] else attempt.calls
  }

  /** Texts that depend on the environment; `collected` has one for each kind of files collected, and
      with less than one for each kind, collecting the next one raised. */
  datatype Texts = Texts(
    cloneStart: string, cloneEnd: string, metadataEnd: string, collected: seq<string>, artifactsEnd: string,
    completionEnd: string)

  const CLONE := "Git Clone"
  const INITIALIZATION := "Initialization"
  const METADATA := "Metadata Collection"
  const ARTIFACTS := "Artifact Collection"
  const COMPLETION := "Completion"
  const COLLECTED := ["Collecting SARIF files...", "Collecting JSON reports...", "Collecting HTML reports...",
    "Collecting log files..."]

  // ----- the operations of a run, in order -----

  function BeforeNames(plan: Plan): seq<string> {
    (if plan.gitRepo then [CLONE] else []) + [INITIALIZATION] + (if plan.collectMetadata then [METADATA] else [])
  }

  function ScannerNames(scanners: seq<ScannerDef>): (r: seq<string>)
    ensures |r| == |scanners| && forall i :: 0 <= i < |r| ==> r[i] == scanners[i].name
  {
    seq(|scanners|, i requires 0 <= i < |scanners| => scanners[i].name)
  }

  function PlannedNames(plan: Plan): seq<string> {
    BeforeNames(plan) + ScannerNames(plan.scanners) + [ARTIFACTS, COMPLETION]
  }

  /** The concatenation of the segments 0..n-1. */
  function FlatN(seg: nat -> seq<Log.Op>, n: nat): seq<Log.Op> {
    if n == 0 then [] else FlatN(seg, n - 1) + seg(n - 1)
  }

  /** The registration of the i-th planned step. */
  function RegisterEntryOf(plan: Plan, i: nat): Log.Op
    requires i < |PlannedNames(plan)|
  {
    var b, name := |BeforeNames(plan)|, PlannedNames(plan)[i];
    if b <= i < b + |plan.scanners|
    then Log.Register(name, "Running " + name + " scan... (pending)", Some(plan.scanners[i - b].timeout))
    else Log.Register(name, name + "... (pending)", None)
  }

  function RegisterSeg(plan: Plan): nat -> seq<Log.Op> {
    (i: nat) => if i < |PlannedNames(plan)| then [RegisterEntryOf(plan, i)] else []
  }

  function DisableSeg(scanners: seq<ScannerDef>, now: Log.Time): nat -> seq<Log.Op> {
    (i: nat) =>
      if i < |scanners| && !scanners[i].AdminEnabled()
      then [Log.Skip(scanners[i].name, "Disabled in admin tool settings (DB override).", now)] else []
  }

  function PreRegisterOps(plan: Plan, now: Log.Time): seq<Log.Op> {
    FlatN(RegisterSeg(plan), |PlannedNames(plan)|) + FlatN(DisableSeg(plan.scanners, now), |plan.scanners|)
  }

  function CloneOps(plan: Plan, texts: Texts, now: Log.Time): seq<Log.Op> {
    if plan.gitRepo then [Log.Start(CLONE, texts.cloneStart, now), Log.Finish(CLONE, false, texts.cloneEnd, now)]
    else []
  }

  function InitializationOps(now: Log.Time): seq<Log.Op> {
    [Log.Start(INITIALIZATION, "Initializing scan...", now), Log.Finish(INITIALIZATION, false, "Scan initialized", now)]
  }

  function MetadataOps(plan: Plan, texts: Texts, now: Log.Time): seq<Log.Op> {
    if plan.collectMetadata
    then [Log.Start(METADATA, "Collecting scan metadata...", now), Log.Finish(METADATA, false, texts.metadataEnd, now)]
    else []
  }

  function BeforeOps(plan: Plan, texts: Texts, now: Log.Time): seq<Log.Op> {
    CloneOps(plan, texts, now) + InitializationOps(now) + MetadataOps(plan, texts, now)
  }

  function SyncOps(sc: ScannerDef, restored: bool, now: Log.Time): seq<Log.Op> {
    if !sc.AdminEnabled() then []
    else if restored then [Log.Restore(sc.name, "", now)]
    else [Log.SetPending(sc.name)]
  }

  function SyncSeg(scanners: seq<ScannerDef>, restored: set<string>, now: Log.Time): nat -> seq<Log.Op> {
    (i: nat) => if i < |scanners|
      then SyncOps(scanners[i], scanners[i].toolsKey != "" && scanners[i].name in restored, now) else []
  }

  function OutcomeOp(sc: ScannerDef, outcome: Outcome, now: Log.Time): Log.Op {
    match outcome
    case Succeeded => Log.Finish(sc.name, false, sc.name + " scan completed", now)
    case FailedWith(message) => Log.Finish(sc.name, true, message, now)
    case SkippedByFile(message) => Log.Skip(sc.name, message, now)
  }

  function CallOp(name: string, call: SubCall, now: Log.Time): (op: Log.Op)
    ensures op.name == name && (op.StartSub? || op.EndSub? || op.UpdateSub?)
  {
    match call
    case SubStarts(sub, message, kind) => Log.StartSub(name, sub, message, kind, now)
    case SubEnds(sub, failed, message) => Log.EndSub(name, sub, failed, message, now)
    case SubUpdates(sub, message) => Log.UpdateSub(name, sub, message)
  }

  function CallOps(name: string, calls: seq<SubCall>, now: Log.Time): (ops: seq<Log.Op>)
    ensures |ops| == |calls| && forall k :: 0 <= k < |ops| ==> ops[k] == CallOp(name, calls[k], now)
  {
    seq(|calls|, k requires 0 <= k < |calls| => CallOp(name, calls[k], now))
  }

  function StartOp(sc: ScannerDef, now: Log.Time): Log.Op {
    Log.Start(sc.name, "Running " + sc.name + " scan...", now)
  }

  /** The step is started, the tool reports its substeps, the step gets its outcome. */
  function ExecOps(sc: ScannerDef, restored: set<string>, attempt: Attempt, now: Log.Time): seq<Log.Op> {
    if sc.AdminEnabled() && (sc.toolsKey == "" || sc.name !in restored)
    then [StartOp(sc, now)] + CallOps(sc.name, CallsOf(sc, attempt), now) +
         [OutcomeOp(sc, OutcomeOf(sc, attempt.ending), now)]
    else []
  }

  function ExecSeg(scanners: seq<ScannerDef>, restored: set<string>, attempts: seq<Attempt>, now: Log.Time)
    : nat -> seq<Log.Op>
  {
    (i: nat) =>
      if i < |scanners| && i < |attempts| then ExecOps(scanners[i], restored, attempts[i], now) else []
  }

  const TailPendingOps := [Log.SetPending(ARTIFACTS), Log.SetPending(COMPLETION)]

  /** The completion of a kind, unless collecting it raised. */
  function KindEnd(texts: Texts, now: Log.Time, i: nat): seq<Log.Op>
    requires i < |COLLECTED|
  {
    if i < |texts.collected| then [Log.EndSub(COLLECTED[i], texts.collected[i], false, "", now)] else []
  }

  /** Each substep is started under its step, but completed under its own name as step name; an
      exception ends the collection. */
  function CollectSeg(texts: Texts, now: Log.Time): nat -> seq<Log.Op> {
    (i: nat) =>
      if i < |COLLECTED| && i <= |texts.collected|
      then [Log.StartSub(ARTIFACTS, COLLECTED[i], "action", Log.Action, now)] + KindEnd(texts, now, i)
      else []
  }

  function CollectOps(texts: Texts, now: Log.Time): seq<Log.Op> {
    FlatN(CollectSeg(texts, now), |COLLECTED|)
  }

  function ArtifactOps(texts: Texts, now: Log.Time): seq<Log.Op> {
    [Log.Start(ARTIFACTS, "Collecting scan artifacts...", now)] + CollectOps(texts, now) +
    [Log.Finish(ARTIFACTS, false, texts.artifactsEnd, now)]
  }

  function CompletionOps(texts: Texts, now: Log.Time): seq<Log.Op> {
    [Log.Start(COMPLETION, "Finalizing scan...", now), Log.Finish(COMPLETION, false, texts.completionEnd, now)]
  }

  function AfterOps(texts: Texts, now: Log.Time): seq<Log.Op> {
    ArtifactOps(texts, now) + CompletionOps(texts, now)
  }

  /** Everything after pre-registration. */
  function LaterOps(plan: Plan, texts: Texts, restored: set<string>, attempts: seq<Attempt>,
      now: Log.Time): seq<Log.Op> {
    BeforeOps(plan, texts, now) + FlatN(SyncSeg(plan.scanners, restored, now), |plan.scanners|) + TailPendingOps +
    FlatN(ExecSeg(plan.scanners, restored, attempts, now), |plan.scanners|) + AfterOps(texts, now)
  }

  function RunOps(plan: Plan, texts: Texts, restored: set<string>, attempts: seq<Attempt>, now: Log.Time): seq<Log.Op> {
    PreRegisterOps(plan, now) + LaterOps(plan, texts, restored, attempts, now)
  }

  function ApplyAll(w: Log.World, ops: seq<Log.Op>): Log.World {
    if ops == [] then w else Log.Apply(ApplyAll(w, ops[..|ops| - 1]), ops[|ops| - 1])
  }

  lemma {:induction false} ApplyAllAppend(w: Log.World, a: seq<Log.Op>, b: seq<Log.Op>)
    ensures ApplyAll(w, a + b) == ApplyAll(ApplyAll(w, a), b)
  {
    if b == [] {
      assert a + b == a;
    } else {
      assert (a + b)[..|a + b| - 1] == a + b[..|b| - 1];
      ApplyAllAppend(w, a, b[..|b| - 1]);
    }
  }

  // ----- the status of one step, seen alone -----

  function EffectOn(st: Log.StepStatus, op: Log.Op, x: string): Log.StepStatus {
    if op.name != x then st
    else
      match op
      case Start(_, _, _) => Log.Running
      case Finish(_, failed, _, _) => if failed then Log.Failed else Log.Completed
      case Skip(_, _, _) => Log.Skipped
      case SetPending(_) => if st == Log.Skipped then Log.Skipped else Log.Pending
      case Restore(_, _, _) => Log.Completed
      case _ => st
  }

  function StatusAfter(st: Log.StepStatus, ops: seq<Log.Op>, x: string): Log.StepStatus {
    if ops == [] then st else EffectOn(StatusAfter(st, ops[..|ops| - 1], x), ops[|ops| - 1], x)
  }

  lemma {:induction false} StatusAfterAppend(st: Log.StepStatus, a: seq<Log.Op>, b: seq<Log.Op>, x: string)
    ensures StatusAfter(st, a + b, x) == StatusAfter(StatusAfter(st, a, x), b, x)
  {
    if b == [] {
      assert a + b == a;
    } else {
      assert (a + b)[..|a + b| - 1] == a + b[..|b| - 1];
      StatusAfterAppend(st, a, b[..|b| - 1], x);
    }
  }

  /** Steps sit under their own names. */
  ghost predicate SelfNamed(w: Log.World) {
    forall n :: n in w.steps ==> w.steps[n].name == n
  }

  lemma WriteOnStep(w: Log.World, d: Log.StepData, x: string)
    requires x in w.steps && SelfNamed(w)
    ensures x in Log.Write(w, d).steps && Log.Write(w, d).steps[x] == if d.name == x then d else w.steps[x]
    ensures SelfNamed(Log.Write(w, d))
  {
  }

  lemma OtherStep(w: Log.World, op: Log.Op, x: string)
    requires x in w.steps && SelfNamed(w) && op.name != x
    ensures x in Log.Apply(w, op).steps && Log.Apply(w, op).steps[x] == w.steps[x]
    ensures SelfNamed(Log.Apply(w, op))
  {
    var name := op.name;
    if name !in w.steps && (op.Finish? || op.StartSub?) {
      var w1 := Log.EnsureStarted(w, name, if op.Finish? then op.message else "Running " + name + "...", op.now);
      WriteOnStep(w, w1.steps[name], x);
      WriteOnStep(w1, Log.Apply(w, op).steps[name], x);
    } else if Log.Apply(w, op) != w {
      WriteOnStep(w, Log.Apply(w, op).steps[name], x);
    }
  }

  lemma SameStep(w: Log.World, op: Log.Op)
    requires op.name in w.steps && SelfNamed(w)
    ensures
      var w' := Log.Apply(w, op);
      && op.name in w'.steps && SelfNamed(w')
      && w'.steps[op.name].number == w.steps[op.name].number
      && w'.steps[op.name].status == EffectOn(w.steps[op.name].status, op, op.name)
  {
    if Log.Apply(w, op) != w {
      WriteOnStep(w, Log.Apply(w, op).steps[op.name], op.name);
    }
  }

  /** Once a step is registered, an operation changes its status by this rule and keeps its number. */
  lemma ApplyOnStep(w: Log.World, op: Log.Op, x: string)
    requires x in w.steps && SelfNamed(w)
    ensures x in Log.Apply(w, op).steps && SelfNamed(Log.Apply(w, op))
    ensures Log.Apply(w, op).steps[x].number == w.steps[x].number
    ensures Log.Apply(w, op).steps[x].status == EffectOn(w.steps[x].status, op, x)
  {
    if op.name == x {
      SameStep(w, op);
    } else {
      OtherStep(w, op, x);
    }
  }

  lemma {:induction false} ApplyAllOnStep(w: Log.World, ops: seq<Log.Op>, x: string)
    requires x in w.steps && SelfNamed(w)
    ensures x in ApplyAll(w, ops).steps && SelfNamed(ApplyAll(w, ops))
    ensures ApplyAll(w, ops).steps[x].number == w.steps[x].number
    ensures ApplyAll(w, ops).steps[x].status == StatusAfter(w.steps[x].status, ops, x)
  {
    if ops != [] {
      ApplyAllOnStep(w, ops[..|ops| - 1], x);
      ApplyOnStep(ApplyAll(w, ops[..|ops| - 1]), ops[|ops| - 1], x);
    }
  }

  // ----- segments that each concern one step -----

  ghost predicate Owned(seg: nat -> seq<Log.Op>, names: seq<string>) {
    forall i, k :: 0 <= i < |names| && 0 <= k < |seg(i)| ==> seg(i)[k].name == names[i]
  }

  /** An operation that leaves the status of `x` alone. */
  predicate Inert(op: Log.Op, x: string) {
    op.name != x || op.Register? || op.StartSub? || op.EndSub? || op.UpdateSub?
  }

  lemma {:induction false} ForeignOps(st: Log.StepStatus, ops: seq<Log.Op>, x: string)
    requires forall k :: 0 <= k < |ops| ==> Inert(ops[k], x)
    ensures StatusAfter(st, ops, x) == st
  {
    if ops != [] {
      ForeignOps(st, ops[..|ops| - 1], x);
    }
  }

  lemma {:induction false} ForeignSegments(st: Log.StepStatus, seg: nat -> seq<Log.Op>, names: seq<string>, n: nat,
      x: string)
    requires Owned(seg, names) && n <= |names| && forall i :: 0 <= i < n ==> names[i] != x
    ensures StatusAfter(st, FlatN(seg, n), x) == st
  {
    if n > 0 {
      ForeignSegments(st, seg, names, n - 1, x);
      StatusAfterAppend(st, FlatN(seg, n - 1), seg(n - 1), x);
      ForeignOps(st, seg(n - 1), x);
    }
  }

  /** Of all segments only the step's own one matters to it. */
  lemma {:induction false} OwnSegment(st: Log.StepStatus, seg: nat -> seq<Log.Op>, names: seq<string>, n: nat, i: nat)
    requires Owned(seg, names) && i < n <= |names| && Distinct(names)
    ensures StatusAfter(st, FlatN(seg, n), names[i]) == StatusAfter(st, seg(i), names[i])
  {
    StatusAfterAppend(st, FlatN(seg, n - 1), seg(n - 1), names[i]);
    if i == n - 1 {
      ForeignSegments(st, seg, names, n - 1, names[i]);
    } else {
      OwnSegment(st, seg, names, n - 1, i);
      ForeignOps(StatusAfter(st, FlatN(seg, n - 1), names[i]), seg(n - 1), names[i]);
    }
  }

  // ----- every planned step is settled -----

  predicate Settled(st: Log.StepStatus) {
    st == Log.Completed || st == Log.Failed || st == Log.Skipped
  }

  /** Step names are unique, as keys of the two registries, and never empty. */
  ghost predicate WellNamed(plan: Plan) {
    Distinct(PlannedNames(plan)) && forall i :: 0 <= i < |PlannedNames(plan)| ==> PlannedNames(plan)[i] != ""
  }

  lemma DistinctConcat<T>(b: seq<T>, m: seq<T>, t: seq<T>)
    requires Distinct(b + m + t)
    ensures Distinct(m)
    ensures forall i, j :: 0 <= i < |m| && 0 <= j < |b| ==> m[i] != b[j]
    ensures forall i, j :: 0 <= i < |m| && 0 <= j < |t| ==> m[i] != t[j]
    ensures forall i, j :: 0 <= i < |b| && 0 <= j < |t| ==> b[i] != t[j]
    ensures Distinct(t) && Distinct(b)
  {
    var p := b + m + t;
    assert forall i :: 0 <= i < |b| ==> p[i] == b[i];
    assert forall i :: 0 <= i < |m| ==> p[|b| + i] == m[i];
    assert forall i :: 0 <= i < |t| ==> p[|b| + |m| + i] == t[i];
  }

  lemma WellNamedParts(plan: Plan)
    requires WellNamed(plan)
    ensures Distinct(ScannerNames(plan.scanners))
    ensures forall i, j :: 0 <= i < |plan.scanners| && 0 <= j < |BeforeNames(plan)| ==>
        plan.scanners[i].name != BeforeNames(plan)[j]
    ensures forall i :: 0 <= i < |plan.scanners| ==>
        plan.scanners[i].name != ARTIFACTS && plan.scanners[i].name != COMPLETION
  {
    var t := [ARTIFACTS, COMPLETION];
    DistinctConcat(BeforeNames(plan), ScannerNames(plan.scanners), t);
    forall i | 0 <= i < |plan.scanners|
      ensures plan.scanners[i].name != ARTIFACTS && plan.scanners[i].name != COMPLETION
    {
      assert ScannerNames(plan.scanners)[i] != t[0] && ScannerNames(plan.scanners)[i] != t[1];
    }
  }

  lemma ExecSegmentsAreOwned(scanners: seq<ScannerDef>, restored: set<string>, attempts: seq<Attempt>, now: Log.Time)
    ensures Owned(ExecSeg(scanners, restored, attempts, now), ScannerNames(scanners))
  {
    forall i, k | 0 <= i < |scanners| && 0 <= k < |ExecSeg(scanners, restored, attempts, now)(i)|
      ensures ExecSeg(scanners, restored, attempts, now)(i)[k].name == scanners[i].name
    {
      var ops := ExecOps(scanners[i], restored, attempts[i], now);
      assert ops[k] == ops[0] || ops[k] == ops[|ops| - 1]
             || ops[k] == CallOps(scanners[i].name, CallsOf(scanners[i], attempts[i]), now)[k - 1];
    }
  }

  lemma SegmentsAreOwned(plan: Plan, restored: set<string>, attempts: seq<Attempt>, now: Log.Time)
    ensures Owned(DisableSeg(plan.scanners, now), ScannerNames(plan.scanners))
    ensures Owned(SyncSeg(plan.scanners, restored, now), ScannerNames(plan.scanners))
    ensures Owned(ExecSeg(plan.scanners, restored, attempts, now), ScannerNames(plan.scanners))
  {
    ExecSegmentsAreOwned(plan.scanners, restored, attempts, now);
  }

  lemma BeforeOpsForeign(plan: Plan, texts: Texts, now: Log.Time, x: string, st: Log.StepStatus)
    requires forall j :: 0 <= j < |BeforeNames(plan)| ==> x != BeforeNames(plan)[j]
    ensures StatusAfter(st, BeforeOps(plan, texts, now), x) == st
  {
    var b := BeforeNames(plan);
    assert b[if plan.gitRepo then 1 else 0] == INITIALIZATION;
    assert plan.gitRepo ==> b[0] == CLONE;
    assert plan.collectMetadata ==> b[|b| - 1] == METADATA;
    ForeignOps(st, BeforeOps(plan, texts, now), x);
  }
}
