/** What a scan makes of each scanner: its final status, its place in the history and its record on
    disk, in terms of what the tool did. */
module ScanOutcome {
  import opened Collections
  import opened Checkpoint
  import opened CheckpointProtocol
  import opened ResumeDecision
  import opened RunPlan
  import opened RunCompletion
  import opened ScanTrace
  import opened StepFields
  import Log = StepLog

  // ----- what the tool did -----

  predicate SaysSkipped(file: StatusFile) {
    file.Status? && file.status == "skipped"
  }

  /** The tool ran, returned True and left no status file that says skipped. */
  predicate ToolSucceeded(sc: ScannerDef, ending: Ending) {
    sc.toolsKey != "" && ending.Returned? && ending.success && !SaysSkipped(ending.file)
  }

  /** The tool ran and left a status file that says skipped, whatever it returned. */
  predicate ToolSkipped(sc: ScannerDef, ending: Ending) {
    sc.toolsKey != "" && ending.Returned? && SaysSkipped(ending.file)
  }

  predicate NotDisabled(sc: ScannerDef) {
    sc.enabled != Some(false)
  }

  /** The scanner was restored from the checkpoint; one without a tools_key never is. */
  predicate TakenOver(sc: ScannerDef, restored: set<string>) {
    sc.toolsKey != "" && sc.name in restored
  }

  /** The tool succeeded in a turn in which the scanner was executed. */
  predicate SucceededInTurn(sc: ScannerDef, restored: set<string>, ending: Ending) {
    NotDisabled(sc) && !TakenOver(sc, restored) && ToolSucceeded(sc, ending)
  }

  // ----- the events -----

  ghost predicate Finishes(es: seq<Event>, ok: bool) {
    exists k :: 0 <= k < |es| && es[k].FinishExec? && es[k].ok == ok
  }

  /** A turn in which the scanner is executed reports a success if and only if the tool ran, returned
      True and did not leave a status file that says skipped; and it reports one result only. */
  lemma SuccessIsReportedIff(run: RunConfig, sc: ScannerDef, restored: set<string>, attempt: Attempt)
    requires NotDisabled(sc) && !TakenOver(sc, restored)
    ensures
      var es := ExecEvents(run, sc, restored, attempt);
      && (Finishes(es, true) <==> ToolSucceeded(sc, attempt.ending))
      && (Finishes(es, false) <==> !ToolSucceeded(sc, attempt.ending))
  {
    var writes := WriteEvents(sc.toolsKey, WritesOf(sc, attempt));
    var es := ExecEvents(run, sc, restored, attempt);
    var n := |writes| + 1;
    assert es == [StartExec] + (writes + ResultEvents(run, sc, Succeeds(sc, attempt), attempt.version));
    assert es[n].FinishExec? && es[n].ok == Succeeds(sc, attempt);
    assert forall k :: 0 < k < n ==> es[k] == writes[k - 1];
  }

  // ----- the status -----

  /** When run_scan returns, a disabled scanner is SKIPPED, a restored one COMPLETED, and one that was
      executed is COMPLETED, SKIPPED or FAILED by what the tool did, for all substep calls and
      whatever the registry held before. */
  lemma FinalScannerStatus(
    w: Log.World, plan: Plan, texts: Texts, restored: set<string>, attempts: seq<Attempt>, now: Log.Time, i: nat)
    requires SelfNamed(w) && WellNamed(plan) && |attempts| == |plan.scanners| && i < |plan.scanners|
    ensures
      var sc, ending := plan.scanners[i], attempts[i].ending;
      var end := ApplyAll(w, RunOps(plan, texts, restored, attempts, now));
      && sc.name in end.steps
      && end.steps[sc.name].status ==
         if !NotDisabled(sc) then Log.Skipped
         else if TakenOver(sc, restored) || ToolSucceeded(sc, ending) then Log.Completed
         else if ToolSkipped(sc, ending) then Log.Skipped
         else Log.Failed
  {
    var sc, w1 := plan.scanners[i], ApplyAll(w, Registrations(plan));
    RegisteredNames(w, plan);
    assert PlannedNames(plan)[|BeforeNames(plan)| + i] == sc.name;
    RunSplits(w, plan, texts, restored, attempts, now);
    ApplyAllOnStep(w1, AfterRegistration(plan, texts, restored, attempts, now), sc.name);
    OwnOpsDecide(w1.steps[sc.name].status, plan, texts, restored, attempts, now, i);
    OwnOpsStatus(w1.steps[sc.name].status, plan, restored, attempts, now, i);
  }

  lemma ExecStatus(st: Log.StepStatus, sc: ScannerDef, restored: set<string>, attempt: Attempt, now: Log.Time)
    requires NotDisabled(sc) && !TakenOver(sc, restored)
    ensures StatusAfter(st, ExecOps(sc, restored, attempt, now), sc.name) ==
            if ToolSucceeded(sc, attempt.ending) then Log.Completed
            else if ToolSkipped(sc, attempt.ending) then Log.Skipped
            else Log.Failed
  {
    var front := [StartOp(sc, now)] + CallOps(sc.name, CallsOf(sc, attempt), now);
    var last := OutcomeOp(sc, OutcomeOf(sc, attempt.ending), now);
    StatusAfterAppend(st, front, [last], sc.name);
    OneOpStatus(StatusAfter(st, front, sc.name), last, sc.name);
  }

  lemma OwnOpsStatus(st: Log.StepStatus, plan: Plan, restored: set<string>, attempts: seq<Attempt>, now: Log.Time,
                     i: nat)
    requires |attempts| == |plan.scanners| && i < |plan.scanners|
    ensures
      var sc, ending := plan.scanners[i], attempts[i].ending;
      var s1 := StatusAfter(st, DisableSeg(plan.scanners, now)(i), sc.name);
      var s3 := StatusAfter(s1, SyncSeg(plan.scanners, restored, now)(i), sc.name);
      StatusAfter(s3, ExecSeg(plan.scanners, restored, attempts, now)(i), sc.name) ==
      if !NotDisabled(sc) then Log.Skipped
      else if TakenOver(sc, restored) || ToolSucceeded(sc, ending) then Log.Completed
      else if ToolSkipped(sc, ending) then Log.Skipped
      else Log.Failed
  {
    var sc := plan.scanners[i];
    if !NotDisabled(sc) {
      OneOpStatus(st, DisableSeg(plan.scanners, now)(i)[0], sc.name);
    } else if TakenOver(sc, restored) {
      OneOpStatus(st, Log.Restore(sc.name, "", now), sc.name);
    } else {
      ExecStatus(StatusAfter(st, SyncSeg(plan.scanners, restored, now)(i), sc.name), sc, restored, attempts[i], now);
    }
  }

  // ----- the other fields of the step -----

  /** Another step, or only a substep of this one. */
  predicate SubstepsAtMost(op: Log.Op, x: string) {
    op.name != x || op.StartSub? || op.EndSub? || op.UpdateSub?
  }

  ghost predicate SameButSubsteps(w: Log.World, w': Log.World, x: string)
    requires x in w.steps
  {
    x in w'.steps && SelfNamed(w') && w'.steps[x].(substeps := w.steps[x].substeps) == w.steps[x]
  }

  lemma SubCallKeeps(w: Log.World, op: Log.Op, x: string)
    requires x in w.steps && SelfNamed(w) && SubstepsAtMost(op, x)
    ensures SameButSubsteps(w, Log.Apply(w, op), x)
  {
    ApplyOnStep(w, op, x);
    if op.name != x {
      OtherStep(w, op, x);
    }
  }

  lemma {:induction false} SubCallsKeep(w: Log.World, ops: seq<Log.Op>, x: string)
    requires x in w.steps && SelfNamed(w) && forall k :: 0 <= k < |ops| ==> SubstepsAtMost(ops[k], x)
    ensures SameButSubsteps(w, ApplyAll(w, ops), x)
  {
    if ops != [] {
      var n := |ops| - 1;
      SubCallsKeep(w, ops[..n], x);
      SubCallKeeps(ApplyAll(w, ops[..n]), ops[n], x);
    }
  }

  /** The last of the operations that do more than that is on its own. */
  lemma LastOwnOp(w: Log.World, a: seq<Log.Op>, op: Log.Op, b: seq<Log.Op>, x: string)
    requires x in w.steps && SelfNamed(w) && forall k :: 0 <= k < |b| ==> SubstepsAtMost(b[k], x)
    ensures
      var w1 := ApplyAll(w, a);
      && x in w1.steps && SelfNamed(w1) && x in Log.Apply(w1, op).steps
      && SameButSubsteps(Log.Apply(w1, op), ApplyAll(w, a + [op] + b), x)
  {
    ApplyAllOnStep(w, a, x);
    ApplyOnStep(ApplyAll(w, a), op, x);
    SubCallsKeep(Log.Apply(ApplyAll(w, a), op), b, x);
    AppliedInTurn(w, a, op, b);
  }

  /** The text the step ends with; an empty one in the status file leaves the text as it was. */
  function FinalText(sc: ScannerDef, ending: Ending): string {
    if ToolSucceeded(sc, ending) then sc.name + " scan completed"
    else if ToolSkipped(sc, ending) then
      if ending.file.message.Some? then ending.file.message.value else sc.name + " skipped"
    else if sc.toolsKey == "" then "No tools_key in registry"
    else if ending.NoClass? then "No python_class on scanner"
    else if ending.Raised? then sc.name + " scan error: " + ending.error
    else sc.name + " scan failed"
  }

  lemma FinalTextIsNotEmpty(sc: ScannerDef, ending: Ending)
    ensures !ToolSkipped(sc, ending) ==> FinalText(sc, ending) != ""
  {
    assert |" scan completed"| > 0 && |" scan error: "| > 0 && |" scan failed"| > 0;
  }

  ghost predicate EndsNow(d: Log.StepData, sc: ScannerDef, ending: Ending, now: Log.Time) {
    && d.startedAt == Some(now) && d.completedAt == Some(now)
    && (FinalText(sc, ending) != "" ==> d.message == FinalText(sc, ending))
  }

  lemma StartedInTurn(w: Log.World, a: seq<Log.Op>, sc: ScannerDef, calls: seq<Log.Op>, now: Log.Time)
    requires sc.name in w.steps && SelfNamed(w)
    requires forall k :: 0 <= k < |calls| ==> SubstepsAtMost(calls[k], sc.name)
    ensures
      var w1 := ApplyAll(w, a + [StartOp(sc, now)] + calls);
      sc.name in w1.steps && SelfNamed(w1) && w1.steps[sc.name].startedAt == Some(now)
  {
    LastOwnOp(w, a, StartOp(sc, now), calls, sc.name);
    StartDoes(ApplyAll(w, a), sc.name, "Running " + sc.name + " scan...", now);
  }

  lemma EndedInTurn(w: Log.World, front: seq<Log.Op>, sc: ScannerDef, ending: Ending, b: seq<Log.Op>, now: Log.Time)
    requires sc.name in w.steps && SelfNamed(w) && forall k :: 0 <= k < |b| ==> SubstepsAtMost(b[k], sc.name)
    requires
      var w1 := ApplyAll(w, front);
      sc.name in w1.steps && SelfNamed(w1) && w1.steps[sc.name].startedAt == Some(now)
    ensures
      var end := ApplyAll(w, front + [OutcomeOp(sc, OutcomeOf(sc, ending), now)] + b);
      sc.name in end.steps && EndsNow(end.steps[sc.name], sc, ending, now)
  {
    LastOwnOp(w, front, OutcomeOp(sc, OutcomeOf(sc, ending), now), b, sc.name);
    OutcomeDoes(ApplyAll(w, front), sc, ending, now);
  }

  lemma TurnEndsStep(w: Log.World, a: seq<Log.Op>, sc: ScannerDef, restored: set<string>, attempt: Attempt,
                     b: seq<Log.Op>, now: Log.Time)
    requires sc.name in w.steps && SelfNamed(w) && NotDisabled(sc) && !TakenOver(sc, restored)
    requires forall k :: 0 <= k < |b| ==> SubstepsAtMost(b[k], sc.name)
    ensures
      var end := ApplyAll(w, a + ExecOps(sc, restored, attempt, now) + b);
      sc.name in end.steps && EndsNow(end.steps[sc.name], sc, attempt.ending, now)
  {
    var calls := CallOps(sc.name, CallsOf(sc, attempt), now);
    TurnRegrouped(a, sc, restored, attempt, b, now);
    StartedInTurn(w, a, sc, calls, now);
    EndedInTurn(w, a + [StartOp(sc, now)] + calls, sc, attempt.ending, b, now);
  }

  lemma TurnRegrouped(a: seq<Log.Op>, sc: ScannerDef, restored: set<string>, attempt: Attempt, b: seq<Log.Op>,
                      now: Log.Time)
    requires NotDisabled(sc) && !TakenOver(sc, restored)
    ensures
      var calls := CallOps(sc.name, CallsOf(sc, attempt), now);
      a + ExecOps(sc, restored, attempt, now) + b ==
      (a + [StartOp(sc, now)] + calls) + [OutcomeOp(sc, OutcomeOf(sc, attempt.ending), now)] + b
  {
  }

  lemma OutcomeDoes(w: Log.World, sc: ScannerDef, ending: Ending, now: Log.Time)
    requires sc.name in w.steps && SelfNamed(w)
    ensures
      var w' := Log.Apply(w, OutcomeOp(sc, OutcomeOf(sc, ending), now));
      && sc.name in w'.steps && w'.steps[sc.name].startedAt == w.steps[sc.name].startedAt
      && w'.steps[sc.name].completedAt == Some(now)
      && (FinalText(sc, ending) != "" ==> w'.steps[sc.name].message == FinalText(sc, ending))
  {
    FinalTextIsNotEmpty(sc, ending);
    if ToolSkipped(sc, ending) {
      SkipDoes(w, sc.name, FinalText(sc, ending), now);
    } else {
      FinishDoes(w, sc.name, !ToolSucceeded(sc, ending), FinalText(sc, ending), now);
    }
  }

  lemma {:induction false} RowSplits(seg: nat -> seq<Log.Op>, names: seq<string>, i: nat, n: nat)
    returns (rest: seq<Log.Op>)
    requires i < n <= |names| && Owned(seg, names) && Distinct(names)
    ensures FlatN(seg, n) == FlatN(seg, i) + seg(i) + rest
    ensures forall k :: 0 <= k < |rest| ==> rest[k].name != names[i]
  {
    if i == n - 1 {
      rest := [];
    } else {
      var front := RowSplits(seg, names, i, n - 1);
      rest := front + seg(n - 1);
    }
  }

  lemma AfterOpsSpare(texts: Texts, now: Log.Time, x: string)
    requires x != ARTIFACTS && x != COMPLETION
    ensures forall k :: 0 <= k < |AfterOps(texts, now)| ==> SubstepsAtMost(AfterOps(texts, now)[k], x)
  {
    CollectIsInert(texts, now, |COLLECTED|);
  }

  /** An executed scanner's step ends with the times and the text of this run, whatever it held. */
  lemma FinalScannerStep(
    w: Log.World, plan: Plan, texts: Texts, restored: set<string>, attempts: seq<Attempt>, now: Log.Time, i: nat)
    requires SelfNamed(w) && WellNamed(plan) && |attempts| == |plan.scanners| && i < |plan.scanners|
    requires NotDisabled(plan.scanners[i]) && !TakenOver(plan.scanners[i], restored)
    ensures
      var sc, end := plan.scanners[i], ApplyAll(w, RunOps(plan, texts, restored, attempts, now));
      sc.name in end.steps && EndsNow(end.steps[sc.name], sc, attempts[i].ending, now)
  {
    var sc, w1 := plan.scanners[i], ApplyAll(w, Registrations(plan));
    RegisteredNames(w, plan);
    assert PlannedNames(plan)[|BeforeNames(plan)| + i] == sc.name;
    RunSplits(w, plan, texts, restored, attempts, now);
    var front, back := OwnTurnSplits(plan, texts, restored, attempts, now, i);
    TurnEndsStep(w1, front, sc, restored, attempts[i], back, now);
  }

  lemma OwnTurnSplits(plan: Plan, texts: Texts, restored: set<string>, attempts: seq<Attempt>, now: Log.Time, i: nat)
    returns (front: seq<Log.Op>, back: seq<Log.Op>)
    requires WellNamed(plan) && |attempts| == |plan.scanners| && i < |plan.scanners|
    ensures AfterRegistration(plan, texts, restored, attempts, now) ==
            front + ExecOps(plan.scanners[i], restored, attempts[i], now) + back
    ensures forall k :: 0 <= k < |back| ==> SubstepsAtMost(back[k], plan.scanners[i].name)
    ensures plan.scanners[i].name !in COLLECTED ==>
              forall k :: 0 <= k < |back| ==> back[k].name != plan.scanners[i].name
  {
    WellNamedParts(plan);
    AfterOpsNames(texts, now);
    SegmentsAreOwned(plan, restored, attempts, now);
    AfterOpsSpare(texts, now, plan.scanners[i].name);
    var seg := ExecSeg(plan.scanners, restored, attempts, now);
    var rest := RowSplits(seg, ScannerNames(plan.scanners), i, |plan.scanners|);
    var p := FlatN(DisableSeg(plan.scanners, now), |plan.scanners|);
    var q := BeforeOps(plan, texts, now) + FlatN(SyncSeg(plan.scanners, restored, now), |plan.scanners|)
      + TailPendingOps;
    front, back := p + q + FlatN(seg, i), rest + AfterOps(texts, now);
    FiveParts(p, q, FlatN(seg, i), seg(i), rest, AfterOps(texts, now));
  }

  /** Names of steps and substeps of no scanner. */
  predicate OfCollecting(ops: seq<Log.Op>) {
    forall k :: 0 <= k < |ops| ==> ops[k].name in {ARTIFACTS, COMPLETION} || ops[k].name in COLLECTED
  }

  lemma {:induction false} CollectNames(texts: Texts, now: Log.Time, n: nat)
    ensures OfCollecting(FlatN(CollectSeg(texts, now), n))
  {
    if n > 0 {
      CollectNames(texts, now, n - 1);
      assert n - 1 < |COLLECTED| ==> COLLECTED[n - 1] in COLLECTED;
      assert OfCollecting(CollectSeg(texts, now)(n - 1));
    }
  }

  lemma AfterOpsNames(texts: Texts, now: Log.Time)
    ensures OfCollecting(AfterOps(texts, now))
  {
    CollectNames(texts, now, |COLLECTED|);
    assert OfCollecting(CollectOps(texts, now));
    assert OfCollecting(ArtifactOps(texts, now));
    assert OfCollecting(CompletionOps(texts, now));
  }

  lemma FiveParts<T>(p: seq<T>, q: seq<T>, f: seq<T>, own: seq<T>, rest: seq<T>, e: seq<T>)
    ensures p + (q + (f + own + rest) + e) == (p + q + f) + own + (rest + e)
  {
  }

  lemma {:induction false} SilentRow(seg: nat -> seq<Log.Op>, names: seq<string>, n: nat, x: string)
    requires n <= |names| && Owned(seg, names) && forall i :: 0 <= i < n && names[i] == x ==> seg(i) == []
    ensures forall k :: 0 <= k < |FlatN(seg, n)| ==> FlatN(seg, n)[k].name != x
  {
    if n > 0 {
      SilentRow(seg, names, n - 1, x);
    }
  }

  lemma BeforeOpsSpare(plan: Plan, texts: Texts, now: Log.Time, x: string)
    requires forall j :: 0 <= j < |BeforeNames(plan)| ==> x != BeforeNames(plan)[j]
    ensures forall k :: 0 <= k < |BeforeOps(plan, texts, now)| ==> BeforeOps(plan, texts, now)[k].name != x
  {
    var b := BeforeNames(plan);
    assert b[if plan.gitRepo then 1 else 0] == INITIALIZATION;
    assert plan.gitRepo ==> b[0] == CLONE;
    assert plan.collectMetadata ==> b[|b| - 1] == METADATA;
  }

  predicate Executed(sc: ScannerDef, restored: set<string>) {
    NotDisabled(sc) && !TakenOver(sc, restored)
  }

  /** The one operation on the step of a scanner that is not executed. */
  function OnlyOp(sc: ScannerDef, now: Log.Time): Log.Op {
    if NotDisabled(sc) then Log.Restore(sc.name, "", now)
    else Log.Skip(sc.name, "Disabled in admin tool settings (DB override).", now)
  }

  predicate SparesStep(ops: seq<Log.Op>, x: string) {
    forall k :: 0 <= k < |ops| ==> SubstepsAtMost(ops[k], x)
  }

  lemma JoinSpares(a: seq<Log.Op>, b: seq<Log.Op>, x: string)
    requires SparesStep(a, x) && SparesStep(b, x)
    ensures SparesStep(a + b, x)
  {
  }

  /** The end of the synchronisation, the execution of the others and what follows. */
  function LateOps(plan: Plan, texts: Texts, restored: set<string>, attempts: seq<Attempt>, now: Log.Time)
    : seq<Log.Op>
  {
    TailPendingOps + FlatN(ExecSeg(plan.scanners, restored, attempts, now), |plan.scanners|) + AfterOps(texts, now)
  }

  lemma LateSpares(plan: Plan, texts: Texts, restored: set<string>, attempts: seq<Attempt>, now: Log.Time, i: nat)
    requires WellNamed(plan) && |attempts| == |plan.scanners| && i < |plan.scanners|
    requires !Executed(plan.scanners[i], restored)
    ensures SparesStep(LateOps(plan, texts, restored, attempts, now), plan.scanners[i].name)
  {
    var x, exec := plan.scanners[i].name, FlatN(ExecSeg(plan.scanners, restored, attempts, now), |plan.scanners|);
    WellNamedParts(plan);
    SegmentsAreOwned(plan, restored, attempts, now);
    AfterOpsSpare(texts, now, x);
    OneScannerOf(plan, i);
    SilentRow(ExecSeg(plan.scanners, restored, attempts, now), ScannerNames(plan.scanners), |plan.scanners|, x);
    JoinSpares(TailPendingOps, exec, x);
    JoinSpares(TailPendingOps + exec, AfterOps(texts, now), x);
  }

  lemma OneScannerOf(plan: Plan, i: nat)
    requires WellNamed(plan) && i < |plan.scanners|
    ensures forall j :: 0 <= j < |plan.scanners| && ScannerNames(plan.scanners)[j] == plan.scanners[i].name ==> j == i
  {
    WellNamedParts(plan);
    assert ScannerNames(plan.scanners)[i] == plan.scanners[i].name;
  }

  lemma RestoreSplits(plan: Plan, texts: Texts, restored: set<string>, attempts: seq<Attempt>, now: Log.Time, i: nat)
    returns (front: seq<Log.Op>, back: seq<Log.Op>)
    requires WellNamed(plan) && |attempts| == |plan.scanners| && i < |plan.scanners|
    requires NotDisabled(plan.scanners[i]) && TakenOver(plan.scanners[i], restored)
    ensures AfterRegistration(plan, texts, restored, attempts, now) == front + [OnlyOp(plan.scanners[i], now)] + back
    ensures SparesStep(back, plan.scanners[i].name)
  {
    var n, sync := |plan.scanners|, SyncSeg(plan.scanners, restored, now);
    var disable, before := FlatN(DisableSeg(plan.scanners, now), n), BeforeOps(plan, texts, now);
    var exec := FlatN(ExecSeg(plan.scanners, restored, attempts, now), n);
    WellNamedParts(plan);
    SegmentsAreOwned(plan, restored, attempts, now);
    var rest := RowSplits(sync, ScannerNames(plan.scanners), i, n);
    LateSpares(plan, texts, restored, attempts, now, i);
    front, back := disable + before + FlatN(sync, i), rest + LateOps(plan, texts, restored, attempts, now);
    JoinSpares(rest, LateOps(plan, texts, restored, attempts, now), plan.scanners[i].name);
    assert sync(i) == [OnlyOp(plan.scanners[i], now)];
    MiddleSplits(disable, before, FlatN(sync, i), sync(i), rest, TailPendingOps, exec, AfterOps(texts, now));
  }

  lemma DisableSplits(plan: Plan, texts: Texts, restored: set<string>, attempts: seq<Attempt>, now: Log.Time, i: nat)
    returns (front: seq<Log.Op>, back: seq<Log.Op>)
    requires WellNamed(plan) && |attempts| == |plan.scanners| && i < |plan.scanners|
    requires !NotDisabled(plan.scanners[i])
    ensures AfterRegistration(plan, texts, restored, attempts, now) == front + [OnlyOp(plan.scanners[i], now)] + back
    ensures SparesStep(back, plan.scanners[i].name)
  {
    var n, disable := |plan.scanners|, DisableSeg(plan.scanners, now);
    var exec := FlatN(ExecSeg(plan.scanners, restored, attempts, now), n);
    WellNamedParts(plan);
    SegmentsAreOwned(plan, restored, attempts, now);
    var rest := RowSplits(disable, ScannerNames(plan.scanners), i, n);
    var middle := MiddleSpares(plan, texts, restored, now, i);
    var late := LateOps(plan, texts, restored, attempts, now);
    LateSpares(plan, texts, restored, attempts, now, i);
    front, back := FlatN(disable, i), rest + (middle + late);
    JoinSpares(middle, late, plan.scanners[i].name);
    JoinSpares(rest, middle + late, plan.scanners[i].name);
    assert disable(i) == [OnlyOp(plan.scanners[i], now)];
    EarlySplits(FlatN(disable, i), disable(i), rest, BeforeOps(plan, texts, now),
                FlatN(SyncSeg(plan.scanners, restored, now), n), TailPendingOps, exec, AfterOps(texts, now));
  }

  lemma MiddleSpares(plan: Plan, texts: Texts, restored: set<string>, now: Log.Time, i: nat)
    returns (middle: seq<Log.Op>)
    requires WellNamed(plan) && i < |plan.scanners| && !NotDisabled(plan.scanners[i])
    ensures middle ==
            BeforeOps(plan, texts, now) + FlatN(SyncSeg(plan.scanners, restored, now), |plan.scanners|)
    ensures SparesStep(middle, plan.scanners[i].name)
  {
    var sync := SyncSeg(plan.scanners, restored, now);
    WellNamedParts(plan);
    SegmentsAreOwned(plan, restored, [], now);
    OneScannerOf(plan, i);
    SilentRow(sync, ScannerNames(plan.scanners), |plan.scanners|, plan.scanners[i].name);
    BeforeOpsSpare(plan, texts, now, plan.scanners[i].name);
    middle := BeforeOps(plan, texts, now) + FlatN(sync, |plan.scanners|);
    JoinSpares(BeforeOps(plan, texts, now), FlatN(sync, |plan.scanners|), plan.scanners[i].name);
  }

  lemma MiddleSplits<T>(d: seq<T>, b: seq<T>, s: seq<T>, own: seq<T>, rest: seq<T>, t: seq<T>, e: seq<T>, a: seq<T>)
    ensures d + (b + (s + own + rest) + t + e + a) == (d + b + s) + own + (rest + (t + e + a))
  {
  }

  lemma EarlySplits<T>(d: seq<T>, own: seq<T>, rest: seq<T>, b: seq<T>, s: seq<T>, t: seq<T>, e: seq<T>, a: seq<T>)
    ensures (d + own + rest) + (b + s + t + e + a) == d + own + (rest + (b + s + (t + e + a)))
  {
  }

  /** The step of a restored scanner has the times of this run and says that it was restored; that of a disabled one
      ends now and says that it is disabled. */
  lemma FinalUnexecutedStep(
    w: Log.World, plan: Plan, texts: Texts, restored: set<string>, attempts: seq<Attempt>, now: Log.Time, i: nat)
    requires SelfNamed(w) && WellNamed(plan) && |attempts| == |plan.scanners| && i < |plan.scanners|
    requires !Executed(plan.scanners[i], restored)
    ensures
      var sc, end := plan.scanners[i], ApplyAll(w, RunOps(plan, texts, restored, attempts, now));
      && sc.name in end.steps && end.steps[sc.name].completedAt == Some(now)
      && (NotDisabled(sc) ==>
            && end.steps[sc.name].startedAt == Some(now)
            && end.steps[sc.name].message == "Restored from checkpoint (artifact + config verified)")
      && (!NotDisabled(sc) ==> end.steps[sc.name].message == "Disabled in admin tool settings (DB override).")
  {
    var sc, w1 := plan.scanners[i], ApplyAll(w, Registrations(plan));
    RegisteredNames(w, plan);
    assert PlannedNames(plan)[|BeforeNames(plan)| + i] == sc.name;
    RunSplits(w, plan, texts, restored, attempts, now);
    var front, back;
    if NotDisabled(sc) {
      front, back := RestoreSplits(plan, texts, restored, attempts, now, i);
    } else {
      front, back := DisableSplits(plan, texts, restored, attempts, now, i);
    }
    LastOwnOp(w1, front, OnlyOp(sc, now), back, sc.name);
    OnlyOpDoes(ApplyAll(w1, front), sc, now);
  }

  lemma OnlyOpDoes(w: Log.World, sc: ScannerDef, now: Log.Time)
    requires sc.name in w.steps && SelfNamed(w)
    ensures
      var w' := Log.Apply(w, OnlyOp(sc, now));
      && sc.name in w'.steps && w'.steps[sc.name].completedAt == Some(now)
      && (NotDisabled(sc) ==>
            && w'.steps[sc.name].startedAt == Some(now)
            && w'.steps[sc.name].message == "Restored from checkpoint (artifact + config verified)")
      && (!NotDisabled(sc) ==> w'.steps[sc.name].message == "Disabled in admin tool settings (DB override).")
  {
    if NotDisabled(sc) {
      RestoreDoes(w, sc.name, "", now);
    } else {
      SkipDoes(w, sc.name, "Disabled in admin tool settings (DB override).", now);
    }
  }

  // ----- the substeps of the step -----

  predicate HasClass(sc: ScannerDef, ending: Ending) {
    sc.toolsKey != "" && !ending.NoClass?
  }

  /** The status of the substep after the turn, by the last call of the tool that starts or ends it. */
  lemma TurnEndsSubstep(w: Log.World, front: seq<Log.Op>, sc: ScannerDef, restored: set<string>, attempt: Attempt,
                        a: seq<SubCall>, call: SubCall, b: seq<SubCall>, now: Log.Time)
    requires sc.name in w.steps && SelfNamed(w)
    requires NotDisabled(sc) && !TakenOver(sc, restored) && HasClass(sc, attempt.ending)
    requires attempt.calls == a + [call] + b && !call.SubUpdates? && (call.SubStarts? || StartedIn(a, call.sub))
    requires forall k :: 0 <= k < |b| ==> !StartsOrEnds(b[k], call.sub)
    ensures
      var w' := ApplyAll(w, front + ExecOps(sc, restored, attempt, now));
      sc.name in w'.steps && SelfNamed(w') && SubStatus(w', sc.name, call.sub) == StatusBy(call, true)
  {
    var started, calls := front + [StartOp(sc, now)], CallOps(sc.name, attempt.calls, now);
    var w1 := ApplyAll(w, started);
    ApplyAllOnStep(w, started, sc.name);
    CallsDecide(w1, sc.name, a, call, b, now);
    OutcomeKeepsSubsteps(ApplyAll(w1, calls), sc, attempt.ending, now);
    TurnApplied(w, front, sc, restored, attempt, now);
  }

  lemma TurnApplied(w: Log.World, front: seq<Log.Op>, sc: ScannerDef, restored: set<string>, attempt: Attempt,
                    now: Log.Time)
    requires NotDisabled(sc) && !TakenOver(sc, restored) && HasClass(sc, attempt.ending)
    ensures
      var w2 := ApplyAll(ApplyAll(w, front + [StartOp(sc, now)]), CallOps(sc.name, attempt.calls, now));
      ApplyAll(w, front + ExecOps(sc, restored, attempt, now)) ==
      Log.Apply(w2, OutcomeOp(sc, OutcomeOf(sc, attempt.ending), now))
  {
    var start, last := StartOp(sc, now), OutcomeOp(sc, OutcomeOf(sc, attempt.ending), now);
    var calls := CallOps(sc.name, attempt.calls, now);
    assert ExecOps(sc, restored, attempt, now) == [start] + calls + [last];
    AppliedBetween(w, front, start, calls, last);
  }

  lemma AppliedBetween(w: Log.World, front: seq<Log.Op>, start: Log.Op, calls: seq<Log.Op>, last: Log.Op)
    ensures ApplyAll(w, front + ([start] + calls + [last])) ==
            Log.Apply(ApplyAll(ApplyAll(w, front + [start]), calls), last)
  {
    var early := front + [start] + calls;
    ApplyAllAppend(w, front + [start], calls);
    assert front + ([start] + calls + [last]) == early + [last];
    assert (early + [last])[..|early|] == early;
  }

  lemma CallsDecide(w: Log.World, name: string, a: seq<SubCall>, call: SubCall, b: seq<SubCall>, now: Log.Time)
    requires name in w.steps && SelfNamed(w) && !call.SubUpdates? && (call.SubStarts? || StartedIn(a, call.sub))
    requires forall k :: 0 <= k < |b| ==> !StartsOrEnds(b[k], call.sub)
    ensures
      var w' := ApplyAll(w, CallOps(name, a + [call] + b, now));
      name in w'.steps && SelfNamed(w') && SubStatus(w', name, call.sub) == StatusBy(call, true)
  {
    if StartedIn(a, call.sub) {
      StartedIsKnown(w, name, a, now, call.sub);
    }
    LastCallDecides(w, name, a, call, b, now, call.sub);
    ApplyAllOnStep(w, CallOps(name, a + [call] + b, now), name);
  }

  lemma OutcomeKeepsSubsteps(w: Log.World, sc: ScannerDef, ending: Ending, now: Log.Time)
    requires sc.name in w.steps && SelfNamed(w)
    ensures
      var w' := Log.Apply(w, OutcomeOp(sc, OutcomeOf(sc, ending), now));
      sc.name in w'.steps && SelfNamed(w') && w'.steps[sc.name].substeps == w.steps[sc.name].substeps
  {
    ApplyOnStep(w, OutcomeOp(sc, OutcomeOf(sc, ending), now), sc.name);
  }

  /** When the run is over, each substep that the tool started has the status of the last call that started or ended
      it. */
  lemma FinalSubstep(
    w: Log.World, plan: Plan, texts: Texts, restored: set<string>, attempts: seq<Attempt>, now: Log.Time, i: nat,
    a: seq<SubCall>, call: SubCall, b: seq<SubCall>)
    requires SelfNamed(w) && WellNamed(plan) && |attempts| == |plan.scanners| && i < |plan.scanners|
    requires NotDisabled(plan.scanners[i]) && !TakenOver(plan.scanners[i], restored)
    requires HasClass(plan.scanners[i], attempts[i].ending) && plan.scanners[i].name !in COLLECTED
    requires attempts[i].calls == a + [call] + b && !call.SubUpdates? && (call.SubStarts? || StartedIn(a, call.sub))
    requires forall k :: 0 <= k < |b| ==> !StartsOrEnds(b[k], call.sub)
    ensures
      var sc, end := plan.scanners[i], ApplyAll(w, RunOps(plan, texts, restored, attempts, now));
      sc.name in end.steps && SubStatus(end, sc.name, call.sub) == StatusBy(call, true)
  {
    var sc, w1 := plan.scanners[i], ApplyAll(w, Registrations(plan));
    RegisteredNames(w, plan);
    assert PlannedNames(plan)[|BeforeNames(plan)| + i] == sc.name;
    RunSplits(w, plan, texts, restored, attempts, now);
    var front, back := OwnTurnSplits(plan, texts, restored, attempts, now, i);
    TurnEndsSubstep(w1, front, sc, restored, attempts[i], a, call, b, now);
    OthersKeepSubstep(w1, front + ExecOps(sc, restored, attempts[i], now), back, sc.name, call.sub);
  }

  lemma OthersKeepSubstep(w: Log.World, ops: seq<Log.Op>, back: seq<Log.Op>, x: string, sub: string)
    requires
      var w' := ApplyAll(w, ops);
      x in w'.steps && SelfNamed(w') && forall k :: 0 <= k < |back| ==> back[k].name != x
    ensures
      var w', end := ApplyAll(w, ops), ApplyAll(w, ops + back);
      x in end.steps && SubStatus(end, x, sub) == SubStatus(w', x, sub)
  {
    ApplyAllAppend(w, ops, back);
    OthersLeaveStep(ApplyAll(w, ops), back, x);
  }

  // ----- the history -----

  /** What an execution of the scanner leaves in the history of run `run`. */
  function Entry(s: State, sc: ScannerDef, attempt: Attempt): Execution {
    var artifact := if sc.checkpoint.None? then None
                    else FileAt(Written(s.files, sc.toolsKey, WritesOf(sc, attempt)), sc.toolsKey,
                                sc.checkpoint.value.primaryArtifact);
    Execution(s.runs, sc.toolsKey, s.run.head, s.run.global, sc.Config(), sc.Reported(attempt.version), artifact)
  }

  lemma TurnHistory(formats: Formats, s: State, sc: ScannerDef, i: nat, attempt: Attempt)
    ensures
      var s' := AfterTurn(formats, s, sc, i, attempt);
      && s'.history ==
         s.history + (if SucceededInTurn(sc, s.restored, attempt.ending) then [Entry(s, sc, attempt)] else [])
      && s'.phase == Exec(i + 1) && s'.run == s.run && s'.restored == s.restored && s'.runs == s.runs
      && s'.resumedAny == s.resumedAny
  {
    assert s.history + [] == s.history;
  }

  /** The state between two turns of one scan. */
  ghost predicate InLoop(s0: State, s: State, n: nat) {
    && s.phase == Exec(n) && s.run == s0.run && s.restored == s0.restored && s.runs == s0.runs
    && s.resumedAny == s0.resumedAny
  }

  /** One turn, taken from the state before it. */
  lemma TurnStep(formats: Formats, s0: State, s: State, n: nat, attempt: Attempt)
    requires InLoop(s0, s, n) && n < |s0.run.scanners|
    ensures
      var es := ExecEvents(s0.run, s0.run.scanners[n], s0.restored, attempt);
      && Possible(formats, s, es) && Run(formats, s, es) == AfterTurn(formats, s, s0.run.scanners[n], n, attempt)
      && InLoop(s0, Run(formats, s, es), n + 1)
  {
    TurnDoes(formats, s, n, attempt);
    TurnHistory(formats, s, s0.run.scanners[n], n, attempt);
  }

  /** The state after the first `n` turns of the execution loop. */
  ghost function StateAfter(formats: Formats, s: State, attempts: seq<Attempt>, n: nat): State
    requires n <= |s.run.scanners| == |attempts|
  {
    if n == 0 then s
    else AfterTurn(formats, StateAfter(formats, s, attempts, n - 1), s.run.scanners[n - 1], n - 1, attempts[n - 1])
  }

  lemma {:induction false} StaysInLoop(formats: Formats, s: State, attempts: seq<Attempt>, n: nat)
    requires s.phase == Exec(0) && n <= |s.run.scanners| == |attempts|
    ensures InLoop(s, StateAfter(formats, s, attempts, n), n)
  {
    if n > 0 {
      StaysInLoop(formats, s, attempts, n - 1);
      TurnHistory(formats, StateAfter(formats, s, attempts, n - 1), s.run.scanners[n - 1], n - 1, attempts[n - 1]);
    }
  }

  /** The turns are possible whatever the tools do. */
  lemma {:induction false} TurnsAreTaken(formats: Formats, s: State, attempts: seq<Attempt>, n: nat)
    requires s.phase == Exec(0) && n <= |s.run.scanners| == |attempts|
    ensures Possible(formats, s, ExecTrace(s.run, s.restored, attempts, n))
    ensures Run(formats, s, ExecTrace(s.run, s.restored, attempts, n)) == StateAfter(formats, s, attempts, n)
  {
    if n > 0 {
      var front := ExecTrace(s.run, s.restored, attempts, n - 1);
      var last := ExecEvents(s.run, s.run.scanners[n - 1], s.restored, attempts[n - 1]);
      TurnsAreTaken(formats, s, attempts, n - 1);
      StaysInLoop(formats, s, attempts, n - 1);
      TurnStep(formats, s, StateAfter(formats, s, attempts, n - 1), n - 1, attempts[n - 1]);
      RunAppend(formats, s, front, last);
    }
  }

  ghost predicate HasKey(history: seq<Execution>, from: nat, toolsKey: string) {
    exists h :: from <= h < |history| && history[h].toolsKey == toolsKey
  }

  /** Among the first `n` scanners one with that tools_key was executed with success. */
  ghost predicate ExecutedAmong(run: RunConfig, restored: set<string>, attempts: seq<Attempt>, n: nat, toolsKey: string)
    requires n <= |run.scanners| == |attempts|
  {
    exists i :: 0 <= i < n && run.scanners[i].toolsKey == toolsKey
                && SucceededInTurn(run.scanners[i], restored, attempts[i].ending)
  }

  lemma {:induction false} TurnsHistory(formats: Formats, s: State, attempts: seq<Attempt>, n: nat, toolsKey: string)
    requires s.phase == Exec(0) && n <= |s.run.scanners| == |attempts|
    ensures
      var history := StateAfter(formats, s, attempts, n).history;
      && s.history <= history
      && (HasKey(history, |s.history|, toolsKey) <==> ExecutedAmong(s.run, s.restored, attempts, n, toolsKey))
  {
    if n > 0 {
      TurnsHistory(formats, s, attempts, n - 1, toolsKey);
      StaysInLoop(formats, s, attempts, n - 1);
      NextTurnHistory(formats, s, attempts, n, toolsKey);
    }
  }

  lemma NextTurnHistory(formats: Formats, s: State, attempts: seq<Attempt>, n: nat, toolsKey: string)
    requires 0 < n <= |s.run.scanners| == |attempts|
    requires
      var before := StateAfter(formats, s, attempts, n - 1);
      && InLoop(s, before, n - 1) && s.history <= before.history
      && (HasKey(before.history, |s.history|, toolsKey) <==>
          ExecutedAmong(s.run, s.restored, attempts, n - 1, toolsKey))
    ensures
      var history := StateAfter(formats, s, attempts, n).history;
      && s.history <= history
      && (HasKey(history, |s.history|, toolsKey) <==> ExecutedAmong(s.run, s.restored, attempts, n, toolsKey))
  {
    var sc, s1 := s.run.scanners[n - 1], StateAfter(formats, s, attempts, n - 1);
    TurnHistory(formats, s1, sc, n - 1, attempts[n - 1]);
    EntryAdded(s1.history, |s.history|, s1, sc, attempts[n - 1], toolsKey);
    OneMoreAmong(s.run, s.restored, attempts, n, toolsKey);
  }

  lemma OneMoreAmong(run: RunConfig, restored: set<string>, attempts: seq<Attempt>, n: nat, toolsKey: string)
    requires 0 < n <= |run.scanners| == |attempts|
    ensures ExecutedAmong(run, restored, attempts, n, toolsKey) <==>
            || ExecutedAmong(run, restored, attempts, n - 1, toolsKey)
            || (run.scanners[n - 1].toolsKey == toolsKey
                && SucceededInTurn(run.scanners[n - 1], restored, attempts[n - 1].ending))
  {
  }

  lemma EntryAdded(history: seq<Execution>, from: nat, s: State, sc: ScannerDef, attempt: Attempt, toolsKey: string)
    requires from <= |history|
    ensures HasKey(history + [Entry(s, sc, attempt)], from, toolsKey) <==>
            HasKey(history, from, toolsKey) || sc.toolsKey == toolsKey
    ensures HasKey(history + [], from, toolsKey) <==> HasKey(history, from, toolsKey)
  {
    var more := history + [Entry(s, sc, attempt)];
    assert more[|history|].toolsKey == sc.toolsKey;
    assert history + [] == history;
    if HasKey(history, from, toolsKey) {
      var h :| from <= h < |history| && history[h].toolsKey == toolsKey;
      assert more[h].toolsKey == toolsKey;
    }
  }

  // ----- the records on disk -----

  /** The primary artifact is there, not empty, and of the format the manifest names. */
  predicate ArtifactValid(formats: Formats, files: Files, toolsKey: string, cfg: CheckpointCfg) {
    var content, fmt := FileAt(files, toolsKey, cfg.primaryArtifact), LowerFormat(cfg.artifactFormat);
    && content.Some? && content.value != []
    && (fmt in {"json", "sarif"} ==> formats.isJson(content.value))
    && (fmt == "sarif" ==> formats.hasRuns(content.value))
  }

  lemma ValidIff(formats: Formats, files: Files, toolsKey: string, cfg: CheckpointCfg)
    ensures ValidatePrimaryArtifact(formats, files, toolsKey, cfg) ==
            (if ArtifactValid(formats, files, toolsKey, cfg)
             then Validation.Ok(Sha256(FileAt(files, toolsKey, cfg.primaryArtifact).value))
             else ValidatePrimaryArtifact(formats, files, toolsKey, cfg))
    ensures ValidatePrimaryArtifact(formats, files, toolsKey, cfg).Ok? <==> ArtifactValid(formats, files, toolsKey, cfg)
  {
  }

  function RecordAt(steps: map<string, Record>, key: string): Option<Record> {
    if key in steps then Some(steps[key]) else None
  }

  /** The checkpoint in memory is the one on disk. */
  ghost predicate InStep(s: State) {
    s.disk == Some(s.cp)
  }

  ghost predicate SameButRecords(cp: CheckpointData, cp': CheckpointData) {
    cp' == cp.(steps := cp'.steps)
  }

  /** A success is recorded when the plugin has a checkpoint block, HEAD is known and the artifact is valid. */
  predicate RecordMade(
    formats: Formats, run: RunConfig, restored: set<string>, files: Files, sc: ScannerDef, attempt: Attempt)
  {
    && SucceededInTurn(sc, restored, attempt.ending) && sc.checkpoint.Some? && run.head != ""
    && ArtifactValid(formats, files, sc.toolsKey, sc.checkpoint.value)
  }

  function NewRecord(run: RunConfig, files: Files, sc: ScannerDef, attempt: Attempt): Record
    requires sc.checkpoint.Some? && FileAt(files, sc.toolsKey, sc.checkpoint.value.primaryArtifact).Some?
  {
    Record("completed", if sc.checkpoint.value.hasVersionCommand then attempt.version else "",
           Sha256(ScannerConfig(sc.toolsKey, sc.timeout, sc.env, sc.enabled)), Sha256(run.global),
           Sha256(FileAt(files, sc.toolsKey, sc.checkpoint.value.primaryArtifact).value))
  }

  lemma TurnKeepsStep(formats: Formats, s: State, sc: ScannerDef, i: nat, attempt: Attempt)
    requires !s.run.disabled && InStep(s)
    ensures
      var s' := AfterTurn(formats, s, sc, i, attempt);
      InStep(s') && SameButRecords(s.cp, s'.cp)
  {
  }

  lemma TurnRecords(formats: Formats, s: State, sc: ScannerDef, i: nat, attempt: Attempt, key: string)
    requires !s.run.disabled && InStep(s)
    ensures
      var s' := AfterTurn(formats, s, sc, i, attempt);
      && InStep(s')
      && RecordAt(s'.disk.value.steps, key) ==
         if key == ScannerStepKey(sc.toolsKey) && RecordMade(formats, s.run, s.restored, s'.files, sc, attempt)
         then Some(NewRecord(s.run, s'.files, sc, attempt)) else RecordAt(s.disk.value.steps, key)
  {
    if sc.checkpoint.Some? {
      ValidIff(formats, AfterTurn(formats, s, sc, i, attempt).files, sc.toolsKey, sc.checkpoint.value);
    }
    TurnKeepsStep(formats, s, sc, i, attempt);
  }

  /** No other scanner shares the directory. */
  ghost predicate OwnDirectory(run: RunConfig, i: nat)
    requires i < |run.scanners|
  {
    forall j :: 0 <= j < |run.scanners| && j != i ==> run.scanners[j].toolsKey != run.scanners[i].toolsKey
  }

  lemma TurnLeavesDirectory(formats: Formats, s: State, sc: ScannerDef, i: nat, attempt: Attempt, toolsKey: string,
                            file: string)
    requires sc.toolsKey != toolsKey
    ensures FileAt(AfterTurn(formats, s, sc, i, attempt).files, toolsKey, file) == FileAt(s.files, toolsKey, file)
  {
    WritesStayInDirectory(s.files, sc.toolsKey, WritesOf(sc, attempt), toolsKey, file);
  }

  /** The record of scanner `i` once the loop has passed it. */
  ghost function RecordOf(formats: Formats, s: State, files: Files, i: nat, attempts: seq<Attempt>): Option<Record>
    requires i < |s.run.scanners| == |attempts| && s.disk.Some?
  {
    var sc := s.run.scanners[i];
    if RecordMade(formats, s.run, s.restored, files, sc, attempts[i])
      then Some(NewRecord(s.run, files, sc, attempts[i]))
    else RecordAt(s.disk.value.steps, ScannerStepKey(sc.toolsKey))
  }

  /** The turn of another scanner does not matter to it. */
  lemma RecordOfStays(formats: Formats, s: State, files: Files, files': Files, i: nat, attempts: seq<Attempt>)
    requires i < |s.run.scanners| == |attempts| && s.disk.Some?
    requires
      var sc := s.run.scanners[i];
      sc.checkpoint.Some? ==>
        var file := sc.checkpoint.value.primaryArtifact;
        FileAt(files', sc.toolsKey, file) == FileAt(files, sc.toolsKey, file)
    ensures RecordOf(formats, s, files', i, attempts) == RecordOf(formats, s, files, i, attempts)
  {
  }

  /** What is on disk for scanner `i` after `n` turns. */
  ghost predicate OnDisk(formats: Formats, s0: State, s: State, n: nat, i: nat, attempts: seq<Attempt>)
    requires i < |s0.run.scanners| == |attempts| && s0.disk.Some?
  {
    && InStep(s) && s.cp.resumed == s0.cp.resumed
    && RecordAt(s.disk.value.steps, ScannerStepKey(s0.run.scanners[i].toolsKey)) ==
       if i < n then RecordOf(formats, s0, s.files, i, attempts)
       else RecordAt(s0.disk.value.steps, ScannerStepKey(s0.run.scanners[i].toolsKey))
  }

  lemma OwnTurn(formats: Formats, s0: State, s: State, i: nat, attempts: seq<Attempt>)
    requires i < |s0.run.scanners| == |attempts| && s0.disk.Some? && !s0.run.disabled
    requires InLoop(s0, s, i) && OnDisk(formats, s0, s, i, i, attempts)
    ensures OnDisk(formats, s0, AfterTurn(formats, s, s0.run.scanners[i], i, attempts[i]), i + 1, i, attempts)
  {
    var sc := s0.run.scanners[i];
    TurnRecords(formats, s, sc, i, attempts[i], ScannerStepKey(sc.toolsKey));
    TurnKeepsStep(formats, s, sc, i, attempts[i]);
  }

  lemma OtherTurn(formats: Formats, s0: State, s: State, n: nat, i: nat, attempts: seq<Attempt>)
    requires i < |s0.run.scanners| == |attempts| && n < |attempts| && n != i && s0.disk.Some? && !s0.run.disabled
    requires InLoop(s0, s, n) && OnDisk(formats, s0, s, n, i, attempts) && OwnDirectory(s0.run, i)
    ensures OnDisk(formats, s0, AfterTurn(formats, s, s0.run.scanners[n], n, attempts[n]), n + 1, i, attempts)
  {
    var sc, own := s0.run.scanners[n], s0.run.scanners[i];
    TurnRecords(formats, s, sc, n, attempts[n], ScannerStepKey(own.toolsKey));
    TurnKeepsStep(formats, s, sc, n, attempts[n]);
    StepKeyIsInjective(sc.toolsKey, own.toolsKey);
    if own.checkpoint.Some? {
      TurnLeavesDirectory(formats, s, sc, n, attempts[n], own.toolsKey, own.checkpoint.value.primaryArtifact);
    }
    RecordOfStays(formats, s0, s.files, AfterTurn(formats, s, sc, n, attempts[n]).files, i, attempts);
  }

  lemma AnyTurn(formats: Formats, s0: State, s: State, n: nat, i: nat, attempts: seq<Attempt>)
    requires i < |s0.run.scanners| == |attempts| && n < |attempts| && s0.disk.Some? && !s0.run.disabled
    requires InLoop(s0, s, n) && OnDisk(formats, s0, s, n, i, attempts) && OwnDirectory(s0.run, i)
    ensures OnDisk(formats, s0, AfterTurn(formats, s, s0.run.scanners[n], n, attempts[n]), n + 1, i, attempts)
  {
    if i == n {
      OwnTurn(formats, s0, s, i, attempts);
    } else {
      OtherTurn(formats, s0, s, n, i, attempts);
    }
  }

  lemma {:induction false} TurnsRecord(formats: Formats, s: State, attempts: seq<Attempt>, n: nat, i: nat)
    requires s.phase == Exec(0) && i < |s.run.scanners| == |attempts| && n <= |attempts|
    requires !s.run.disabled && InStep(s) && OwnDirectory(s.run, i)
    ensures OnDisk(formats, s, StateAfter(formats, s, attempts, n), n, i, attempts)
  {
    if n > 0 {
      TurnsRecord(formats, s, attempts, n - 1, i);
      StaysInLoop(formats, s, attempts, n - 1);
      NextTurnRecords(formats, s, attempts, n, i);
    }
  }

  lemma NextTurnRecords(formats: Formats, s: State, attempts: seq<Attempt>, n: nat, i: nat)
    requires i < |s.run.scanners| == |attempts| && 0 < n <= |attempts|
    requires !s.run.disabled && s.disk.Some? && OwnDirectory(s.run, i)
    requires
      var before := StateAfter(formats, s, attempts, n - 1);
      InLoop(s, before, n - 1) && OnDisk(formats, s, before, n - 1, i, attempts)
    ensures OnDisk(formats, s, StateAfter(formats, s, attempts, n), n, i, attempts)
  {
    AnyTurn(formats, s, StateAfter(formats, s, attempts, n - 1), n - 1, i, attempts);
  }

  // ----- the whole scan -----

  /** The tools_keys of the scanners that have one, in order. */
  function ToolsKeys(scanners: seq<ScannerDef>): seq<string> {
    Filter((key: string) => key != "", MapSeq((sc: ScannerDef) => sc.toolsKey, scanners))
  }

  lemma {:induction false} PipelineOrderIs(scanners: seq<ScannerDef>)
    ensures PipelineOrder(scanners) == ToolsKeys(scanners)
  {
    if scanners != [] {
      var n, key := |scanners| - 1, (sc: ScannerDef) => sc.toolsKey;
      PipelineOrderIs(scanners[..n]);
      assert MapSeq(key, scanners)[..n] == MapSeq(key, scanners[..n]);
    }
  }

  /** The file carries the configuration and the order of this run, and its HEAD if that is known. */
  ghost predicate BelongsTo(cp: CheckpointData, run: RunConfig, was: CheckpointData) {
    && cp.scanConfigHash == Some(Sha256(run.global)) && cp.pipelineOrder == ToolsKeys(run.scanners)
    && cp.targetFingerprint == if run.head != "" then run.head else was.targetFingerprint
  }

  /** The memory and the disk agree from the opening on, and the flags say whether anything was restored. */
  ghost predicate Agrees(s: State, was: CheckpointData) {
    && (!s.run.disabled ==>
          InStep(s) && s.cp.resumed == (was.resumed || s.restored != {}) && BelongsTo(s.cp, s.run, was))
    && s.resumedAny == (s.restored != {})
  }

  lemma SyncStepAgrees(formats: Formats, s: State, version: string, was: CheckpointData)
    requires CheckpointProtocol.Enabled(s, SyncStep(version)) && Agrees(s, was)
    ensures
      var s' := Next(formats, s, SyncStep(version));
      Agrees(s', was) && s'.history == s.history && s'.runs == s.runs && (s.run.disabled ==> s'.disk == s.disk)
  {
    var sc := s.run.scanners[s.phase.i];
    if Considered(sc) && MaySkip(formats, s, sc, version) {
      assert sc.name in s.restored + {sc.name};
    }
  }

  lemma {:induction false} SyncAgrees(formats: Formats, s: State, versions: seq<string>, was: CheckpointData)
    requires s.phase.Sync? && s.phase.i < |s.run.scanners| == |versions| && Agrees(s, was)
    ensures Possible(formats, s, SyncEvents(versions[s.phase.i..]))
    ensures
      var s' := Run(formats, s, SyncEvents(versions[s.phase.i..]));
      Agrees(s', was) && s'.history == s.history && s'.runs == s.runs && (s.run.disabled ==> s'.disk == s.disk)
    decreases |versions| - s.phase.i
  {
    var i := s.phase.i;
    var e, s1 := SyncEvents(versions[i..]), Next(formats, s, SyncStep(versions[i]));
    SyncLoopRestores(formats, s, versions);
    OneTurn(formats, s, versions);
    SyncStepAgrees(formats, s, versions[i], was);
    assert e[1..] == SyncEvents(versions[i + 1..]);
    if i + 1 < |versions| {
      SyncAgrees(formats, s1, versions, was);
    } else {
      assert e[1..] == [];
    }
  }

  lemma OpeningAgrees(formats: Formats, s: State, run: RunConfig, versions: seq<string>)
    requires s.phase.Idle? && |versions| == |run.scanners|
    ensures Possible(formats, s, Opening(run, versions))
    ensures
      var s1 := Run(formats, s, Opening(run, versions));
      && Agrees(s1, Loaded(s.disk)) && s1.history == s.history && s1.runs == s.runs + 1
      && (run.disabled ==> s1.disk == s.disk)
  {
    OpeningRestores(formats, s, run, versions);
    PossibleOne(formats, s, Begin(run));
    PipelineOrderIs(run.scanners);
    if run.scanners == [] {
      assert Opening(run, versions) == [Begin(run)];
    } else {
      assert versions[0..] == versions;
      SyncAgrees(formats, Begun(s, run), versions, Loaded(s.disk));
      RunAppend(formats, s, [Begin(run)], SyncEvents(versions));
    }
  }

  lemma WholeScan(formats: Formats, s: State, run: RunConfig, versions: seq<string>, attempts: seq<Attempt>)
    requires s.phase.Idle? && |versions| == |run.scanners| == |attempts|
    ensures Possible(formats, s, Opening(run, versions))
    ensures
      var es := RunTrace(run, versions, RestoredBy(formats, s, run, versions), attempts);
      var s1 := Run(formats, s, Opening(run, versions));
      && s1.phase == Exec(0) && s1.run == run && s1.restored == RestoredBy(formats, s, run, versions)
      && CheckpointProtocol.Enabled(StateAfter(formats, s1, attempts, |attempts|), Finish)
      && Possible(formats, s, es)
      && Run(formats, s, es) == Next(formats, StateAfter(formats, s1, attempts, |attempts|), Finish)
  {
    OpeningRestores(formats, s, run, versions);
    var s1 := Run(formats, s, Opening(run, versions));
    var exec := ExecTrace(run, s1.restored, attempts, |attempts|);
    TurnsAreTaken(formats, s1, attempts, |attempts|);
    StaysInLoop(formats, s1, attempts, |attempts|);
    PossibleOne(formats, StateAfter(formats, s1, attempts, |attempts|), Finish);
    RunAppend(formats, s1, exec, [Finish]);
    RunAppend(formats, s, Opening(run, versions), exec + [Finish]);
  }

  /** The state in which run_scan leaves the results directory. */
  ghost function Scanned(formats: Formats, s: State, run: RunConfig, versions: seq<string>,
      attempts: seq<Attempt>): State
    requires s.phase.Idle? && |versions| == |run.scanners| == |attempts|
  {
    WholeScan(formats, s, run, versions, attempts);
    Run(formats, s, RunTrace(run, versions, RestoredBy(formats, s, run, versions), attempts))
  }

  /** A scan adds an execution of a tools_key to the history if and only if a scanner with that key was
      executed and its tool ran, returned True and did not say skipped. */
  lemma ScanHistoryIff(formats: Formats, s: State, run: RunConfig, versions: seq<string>, attempts: seq<Attempt>,
                       toolsKey: string)
    requires s.phase.Idle? && |versions| == |run.scanners| == |attempts|
    ensures
      var history := Scanned(formats, s, run, versions, attempts).history;
      && s.history <= history
      && (HasKey(history, |s.history|, toolsKey) <==>
          ExecutedAmong(run, RestoredBy(formats, s, run, versions), attempts, |attempts|, toolsKey))
  {
    WholeScan(formats, s, run, versions, attempts);
    OpeningAgrees(formats, s, run, versions);
    TurnsHistory(formats, Run(formats, s, Opening(run, versions)), attempts, |attempts|, toolsKey);
  }

  /** The checkpoint on disk belongs to this configuration and HEAD; an empty fingerprint is any. */
  predicate Current(disk: Option<CheckpointData>, run: RunConfig) {
    && disk.Some? && run.head != "" && disk.value.scanConfigHash == Some(Sha256(run.global))
    && (disk.value.targetFingerprint == "" || disk.value.targetFingerprint == run.head)
  }

  /** The scanner's record on disk before the scan, if the scan may use it. */
  function OldRecord(disk: Option<CheckpointData>, run: RunConfig, toolsKey: string): Option<Record> {
    if Current(disk, run) then RecordAt(disk.value.steps, "scanner:" + toolsKey) else None
  }

  lemma OpenedRecord(disk: Option<CheckpointData>, run: RunConfig, toolsKey: string)
    ensures RecordAt(Opened(Loaded(disk), run).steps, ScannerStepKey(toolsKey)) == OldRecord(disk, run, toolsKey)
  {
    assert STEP_PREFIX <= ScannerStepKey(toolsKey);
  }

  /** After a scan the record of a scanner is the one its success made, or else the one it had. */
  lemma ScanRecordIs(formats: Formats, s: State, run: RunConfig, versions: seq<string>, attempts: seq<Attempt>, i: nat)
    requires s.phase.Idle? && |versions| == |run.scanners| == |attempts| && !run.disabled
    requires i < |run.scanners| && OwnDirectory(run, i)
    ensures
      var s', sc := Scanned(formats, s, run, versions, attempts), run.scanners[i];
      var restored := RestoredBy(formats, s, run, versions);
      && s'.disk.Some?
      && RecordAt(s'.disk.value.steps, "scanner:" + sc.toolsKey) ==
         if RecordMade(formats, run, restored, s'.files, sc, attempts[i])
         then Some(NewRecord(run, s'.files, sc, attempts[i])) else OldRecord(s.disk, run, sc.toolsKey)
  {
    WholeScan(formats, s, run, versions, attempts);
    OpeningAgrees(formats, s, run, versions);
    OpeningRestores(formats, s, run, versions);
    OpenedRecord(s.disk, run, run.scanners[i].toolsKey);
    TurnsRecord(formats, Run(formats, s, Opening(run, versions)), attempts, |attempts|, i);
  }

  /** A tool that did not succeed leaves no trace: no execution in the history and no new record. */
  lemma FailureLeavesNoTrace(formats: Formats, s: State, run: RunConfig, versions: seq<string>, attempts: seq<Attempt>,
                             i: nat)
    requires s.phase.Idle? && |versions| == |run.scanners| == |attempts| && !run.disabled
    requires i < |run.scanners| && OwnDirectory(run, i) && !ToolSucceeded(run.scanners[i], attempts[i].ending)
    ensures
      var s', key := Scanned(formats, s, run, versions, attempts), run.scanners[i].toolsKey;
      && !HasKey(s'.history, |s.history|, key)
      && s'.disk.Some? && RecordAt(s'.disk.value.steps, "scanner:" + key) == OldRecord(s.disk, run, key)
  {
    ScanHistoryIff(formats, s, run, versions, attempts, run.scanners[i].toolsKey);
    ScanRecordIs(formats, s, run, versions, attempts, i);
  }

  lemma {:induction false} DisabledKeepsDisk(formats: Formats, s: State, attempts: seq<Attempt>, n: nat)
    requires s.phase == Exec(0) && n <= |s.run.scanners| == |attempts| && s.run.disabled
    ensures StateAfter(formats, s, attempts, n).disk == s.disk
  {
    if n > 0 {
      DisabledKeepsDisk(formats, s, attempts, n - 1);
      StaysInLoop(formats, s, attempts, n - 1);
    }
  }

  /** The file says completed, and resumed if this or an earlier run restored anything, and carries the
      configuration, order and HEAD of the run; without checkpoints it is not touched. */
  lemma ScanCloses(formats: Formats, s: State, run: RunConfig, versions: seq<string>, attempts: seq<Attempt>)
    requires s.phase.Idle? && |versions| == |run.scanners| == |attempts|
    ensures
      var s' := Scanned(formats, s, run, versions, attempts);
      && s'.phase.Idle?
      && (run.disabled ==> s'.disk == s.disk)
      && (!run.disabled ==>
            && s'.disk.Some? && s'.disk.value.status == "completed" && BelongsTo(s'.disk.value, run, Loaded(s.disk))
            && (s'.disk.value.resumed <==> Loaded(s.disk).resumed || RestoredBy(formats, s, run, versions) != {}))
  {
    WholeScan(formats, s, run, versions, attempts);
    OpeningAgrees(formats, s, run, versions);
    var s1 := Run(formats, s, Opening(run, versions));
    StaysInLoop(formats, s1, attempts, |attempts|);
    if run.disabled {
      DisabledKeepsDisk(formats, s1, attempts, |attempts|);
    } else {
      FlagsKept(formats, s1, attempts, |attempts|);
    }
  }

  lemma {:induction false} FlagsKept(formats: Formats, s: State, attempts: seq<Attempt>, n: nat)
    requires s.phase == Exec(0) && n <= |s.run.scanners| == |attempts| && !s.run.disabled && InStep(s)
    ensures InStep(StateAfter(formats, s, attempts, n))
        && SameButRecords(s.cp, StateAfter(formats, s, attempts, n).cp)
  {
    if n > 0 {
      FlagsKept(formats, s, attempts, n - 1);
      StaysInLoop(formats, s, attempts, n - 1);
      TurnKeepsStep(formats, StateAfter(formats, s, attempts, n - 1), s.run.scanners[n - 1], n - 1, attempts[n - 1]);
    }
  }

  // ----- when a scanner is restored -----

  /** A scanner is restored if and only if it takes part, checkpoints are on, HEAD is known, the file
      on disk belongs to this configuration and HEAD, and holds a completed record with the same
      hashes, the same version where versions are reported, and the hash of the artifact as it is. */
  lemma RestoredIff(formats: Formats, s: State, run: RunConfig, versions: seq<string>, i: nat)
    requires s.phase.Idle? && |versions| == |run.scanners| && UniqueNames(run.scanners) && i < |run.scanners|
    ensures
      var sc := run.scanners[i];
      sc.name in RestoredBy(formats, s, run, versions) <==>
      && NotDisabled(sc) && sc.toolsKey != "" && sc.checkpoint.Some? && !run.disabled
      && var cfg, r := sc.checkpoint.value, OldRecord(s.disk, run, sc.toolsKey);
      && r.Some? && r.value.status == "completed" && ArtifactValid(formats, s.files, sc.toolsKey, cfg)
      && r.value.globalConfigHash == Sha256(run.global)
      && r.value.configHash == Sha256(ScannerConfig(sc.toolsKey, sc.timeout, sc.env, sc.enabled))
      && (cfg.hasVersionCommand ==> r.value.toolVersion == versions[i])
      && r.value.artifactHash == Sha256(FileAt(s.files, sc.toolsKey, cfg.primaryArtifact).value)
  {
    AcceptableByName(formats, Begun(s, run), versions, i);
    OpenedRecord(s.disk, run, run.scanners[i].toolsKey);
    if run.scanners[i].checkpoint.Some? {
      ValidIff(formats, s.files, run.scanners[i].toolsKey, run.scanners[i].checkpoint.value);
    }
  }
}
