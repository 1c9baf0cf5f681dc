/** The substeps of Artifact Collection when a scan is over: _collect_artifacts of
    scanner/core/orchestrator.py completes each of them under the substep's own name as step name. */
module ArtifactCollection {
  import opened Collections
  import opened RunPlan
  import opened RunCompletion
  import Log = StepLog

  /** The first substep of that name, the one later calls work on, is running. */
  predicate Running(d: Log.StepData, sub: string) {
    var i := Log.FindSub(d.substeps, sub);
    i.Some? && d.substeps[i.value].status == Log.Running
  }

  ghost predicate SubRuns(w: Log.World, x: string, sub: string) {
    x in w.steps && SelfNamed(w) && Running(w.steps[x], sub)
  }

  /** The operation ends no substep of `x`. */
  predicate Spares(op: Log.Op, x: string) {
    op.name != x || op.Start? || op.Finish? || op.StartSub?
  }

  lemma FoundAt(substeps: seq<Log.SubStep>, sub: string, i: nat)
    requires i < |substeps| && substeps[i].name == sub && forall j :: 0 <= j < i ==> substeps[j].name != sub
    ensures Log.FindSub(substeps, sub) == Some(i)
  {
  }

  lemma StartingRuns(d: Log.StepData, sub: string, message: string, kind: Log.SubStepType, now: Log.Time)
    ensures Running(Log.SubStarted(d, sub, message, kind, now), sub)
  {
    var i := Log.FindSub(d.substeps, sub);
    FoundAt(Log.SubStarted(d, sub, message, kind, now).substeps, sub, if i.Some? then i.value else |d.substeps|);
  }

  lemma StartingKeepsRunning(
    d: Log.StepData, sub: string, other: string, message: string, kind: Log.SubStepType, now: Log.Time)
    requires Running(d, sub)
    ensures Running(Log.SubStarted(d, other, message, kind, now), sub)
  {
    FoundAt(Log.SubStarted(d, other, message, kind, now).substeps, sub, Log.FindSub(d.substeps, sub).value);
  }

  lemma SparedRuns(w: Log.World, op: Log.Op, x: string, sub: string)
    requires SubRuns(w, x, sub) && Spares(op, x)
    ensures SubRuns(Log.Apply(w, op), x, sub)
  {
    if op.name != x {
      OtherStep(w, op, x);
    } else {
      ApplyOnStep(w, op, x);
      if op.StartSub? {
        StartingKeepsRunning(w.steps[x], sub, op.sub, op.message, op.kind, op.now);
      }
    }
  }

  lemma {:induction false} AllSpare(w: Log.World, ops: seq<Log.Op>, x: string, sub: string)
    requires SubRuns(w, x, sub) && forall k :: 0 <= k < |ops| ==> Spares(ops[k], x)
    ensures SubRuns(ApplyAll(w, ops), x, sub)
  {
    if ops != [] {
      var n := |ops| - 1;
      AllSpare(w, ops[..n], x, sub);
      SparedRuns(ApplyAll(w, ops[..n]), ops[n], x, sub);
    }
  }

  lemma StartedRuns(w: Log.World, x: string, sub: string, message: string, kind: Log.SubStepType, now: Log.Time)
    requires x in w.steps && SelfNamed(w)
    ensures SubRuns(Log.Apply(w, Log.StartSub(x, sub, message, kind, now)), x, sub)
  {
    ApplyOnStep(w, Log.StartSub(x, sub, message, kind, now), x);
    StartingRuns(w.steps[x], sub, message, kind, now);
  }

  lemma KindSpares(texts: Texts, now: Log.Time, i: nat)
    ensures var ops := CollectSeg(texts, now)(i); forall k :: 0 <= k < |ops| ==> Spares(ops[k], ARTIFACTS)
  {
    assert i < |COLLECTED| ==> COLLECTED[i][0] != ARTIFACTS[0];
  }

  lemma KindRuns(w: Log.World, texts: Texts, now: Log.Time, i: nat)
    requires ARTIFACTS in w.steps && SelfNamed(w) && i < |COLLECTED| && i <= |texts.collected|
    ensures SubRuns(ApplyAll(w, CollectSeg(texts, now)(i)), ARTIFACTS, COLLECTED[i])
  {
    var start := Log.StartSub(ARTIFACTS, COLLECTED[i], "action", Log.Action, now);
    var ops := CollectSeg(texts, now)(i);
    var rest := ops[1..];
    assert ops == [start] + rest;
    ApplyAllAppend(w, [start], rest);
    assert [start][..0] == [];
    StartedRuns(w, ARTIFACTS, COLLECTED[i], "action", Log.Action, now);
    KindSpares(texts, now, i);
    AllSpare(ApplyAll(w, [start]), rest, ARTIFACTS, COLLECTED[i]);
  }

  ghost predicate AllSpared(ops: seq<Log.Op>, x: string) {
    forall k :: 0 <= k < |ops| ==> Spares(ops[k], x)
  }

  lemma {:induction false} SplitAt(seg: nat -> seq<Log.Op>, x: string, i: nat, n: nat) returns (rest: seq<Log.Op>)
    requires i < n && forall j: nat :: AllSpared(seg(j), x)
    ensures FlatN(seg, n) == FlatN(seg, i) + seg(i) + rest && AllSpared(rest, x)
  {
    if i == n - 1 {
      rest := [];
    } else {
      var front := SplitAt(seg, x, i, n - 1);
      assert AllSpared(seg(n - 1), x);
      rest := front + seg(n - 1);
    }
  }

  /** Every kind that was begun runs from its own turn on. */
  lemma KindsRun(w: Log.World, texts: Texts, now: Log.Time, i: nat)
    requires ARTIFACTS in w.steps && SelfNamed(w) && i < |COLLECTED| && i <= |texts.collected|
    ensures SubRuns(ApplyAll(w, CollectOps(texts, now)), ARTIFACTS, COLLECTED[i])
  {
    var seg := CollectSeg(texts, now);
    var front := FlatN(seg, i);
    forall j: nat ensures AllSpared(seg(j), ARTIFACTS) {
      KindSpares(texts, now, j);
    }
    var rest := SplitAt(seg, ARTIFACTS, i, |COLLECTED|);
    ApplyAllAppend(w, front + seg(i), rest);
    ApplyAllAppend(w, front, seg(i));
    ApplyAllOnStep(w, front, ARTIFACTS);
    KindRuns(ApplyAll(w, front), texts, now, i);
    AllSpare(ApplyAll(w, front + seg(i)), rest, ARTIFACTS, COLLECTED[i]);
  }

  /** Between a list that leaves the step and one that spares it. */
  lemma RunsInBetween(w: Log.World, a: seq<Log.Op>, texts: Texts, now: Log.Time, z: seq<Log.Op>, i: nat)
    requires ARTIFACTS in w.steps && SelfNamed(w) && i < |COLLECTED| && i <= |texts.collected|
    requires forall k :: 0 <= k < |z| ==> Spares(z[k], ARTIFACTS)
    ensures SubRuns(ApplyAll(w, (a + CollectOps(texts, now)) + z), ARTIFACTS, COLLECTED[i])
  {
    ApplyAllAppend(w, a + CollectOps(texts, now), z);
    ApplyAllAppend(w, a, CollectOps(texts, now));
    ApplyAllOnStep(w, a, ARTIFACTS);
    KindsRun(ApplyAll(w, a), texts, now, i);
    AllSpare(ApplyAll(w, a + CollectOps(texts, now)), z, ARTIFACTS, COLLECTED[i]);
  }

  function Front(plan: Plan, texts: Texts, restored: set<string>, attempts: seq<Attempt>, now: Log.Time): seq<Log.Op> {
    FlatN(DisableSeg(plan.scanners, now), |plan.scanners|) +
    (BeforeOps(plan, texts, now) + FlatN(SyncSeg(plan.scanners, restored, now), |plan.scanners|) + TailPendingOps +
     FlatN(ExecSeg(plan.scanners, restored, attempts, now), |plan.scanners|)) +
    [Log.Start(ARTIFACTS, "Collecting scan artifacts...", now)]
  }

  function Rear(texts: Texts, now: Log.Time): seq<Log.Op> {
    [Log.Finish(ARTIFACTS, false, texts.artifactsEnd, now)] + CompletionOps(texts, now)
  }

  lemma Regrouped<T>(x: seq<T>, b: seq<T>, s: seq<T>, c: seq<T>, f: seq<T>, e: seq<T>)
    ensures x + (b + ((s + c + f) + e)) == ((x + b + s) + c) + (f + e)
  {
  }

  lemma CollectionInBetween(plan: Plan, texts: Texts, restored: set<string>, attempts: seq<Attempt>, now: Log.Time)
    ensures AfterRegistration(plan, texts, restored, attempts, now) ==
            (Front(plan, texts, restored, attempts, now) + CollectOps(texts, now)) + Rear(texts, now)
  {
    var b := BeforeOps(plan, texts, now) + FlatN(SyncSeg(plan.scanners, restored, now), |plan.scanners|) +
             TailPendingOps + FlatN(ExecSeg(plan.scanners, restored, attempts, now), |plan.scanners|);
    Regrouped(FlatN(DisableSeg(plan.scanners, now), |plan.scanners|), b,
              [Log.Start(ARTIFACTS, "Collecting scan artifacts...", now)], CollectOps(texts, now),
              [Log.Finish(ARTIFACTS, false, texts.artifactsEnd, now)], CompletionOps(texts, now));
    assert LaterOps(plan, texts, restored, attempts, now) == b + AfterOps(texts, now);
  }

  lemma ArtifactsComplete(st: Log.StepStatus, front: seq<Log.Op>, texts: Texts, now: Log.Time)
    ensures StatusAfter(st, front + Rear(texts, now), ARTIFACTS) == Log.Completed
  {
    var finish := Log.Finish(ARTIFACTS, false, texts.artifactsEnd, now);
    StatusAfterAppend(st, front, Rear(texts, now), ARTIFACTS);
    StatusAfterAppend(StatusAfter(st, front, ARTIFACTS), [finish], CompletionOps(texts, now), ARTIFACTS);
    OneOpStatus(StatusAfter(st, front, ARTIFACTS), finish, ARTIFACTS);
    PairStatus(Log.Completed, Log.Start(COMPLETION, "Finalizing scan...", now),
      Log.Finish(COMPLETION, false, texts.completionEnd, now), ARTIFACTS);
  }

  lemma CollectedAndCompleted(w: Log.World, front: seq<Log.Op>, texts: Texts, now: Log.Time, i: nat)
    requires ARTIFACTS in w.steps && SelfNamed(w) && i < |COLLECTED| && i <= |texts.collected|
    ensures
      var end := ApplyAll(w, (front + CollectOps(texts, now)) + Rear(texts, now));
      SubRuns(end, ARTIFACTS, COLLECTED[i]) && end.steps[ARTIFACTS].status == Log.Completed
  {
    RunsInBetween(w, front, texts, now, Rear(texts, now), i);
    ApplyAllOnStep(w, (front + CollectOps(texts, now)) + Rear(texts, now), ARTIFACTS);
    ArtifactsComplete(w.steps[ARTIFACTS].status, front + CollectOps(texts, now), texts, now);
  }

  lemma ArtifactsRegistered(w: Log.World, plan: Plan)
    requires SelfNamed(w)
    ensures SelfNamed(ApplyAll(w, Registrations(plan))) && ARTIFACTS in ApplyAll(w, Registrations(plan)).steps
  {
    RegisteredNames(w, plan);
    FixedNamesArePlanned(plan);
  }

  /** When run_scan returns, Artifact Collection is completed and every substep it began is still
      running, whether the collection went through or raised. */
  lemma CollectingSubstepsStayRunning(
    w: Log.World, plan: Plan, texts: Texts, restored: set<string>, attempts: seq<Attempt>, now: Log.Time, i: nat)
    requires SelfNamed(w) && i < |COLLECTED| && i <= |texts.collected|
    ensures
      var end := ApplyAll(w, RunOps(plan, texts, restored, attempts, now));
      SubRuns(end, ARTIFACTS, COLLECTED[i]) && end.steps[ARTIFACTS].status == Log.Completed
  {
    ArtifactsRegistered(w, plan);
    RunSplits(w, plan, texts, restored, attempts, now);
    CollectionInBetween(plan, texts, restored, attempts, now);
    CollectedAndCompleted(ApplyAll(w, Registrations(plan)), Front(plan, texts, restored, attempts, now), texts, now, i);
  }
}
