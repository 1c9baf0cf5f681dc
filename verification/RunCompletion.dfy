/** What a whole run leaves in the registry: every planned step settled, a constant total, progress
    in range, and steps started in the order of their numbers. */
module RunCompletion {
  import opened Collections
  import opened CheckpointProtocol
  import opened RunPlan
  import Log = StepLog

  // ----- pre-registration -----

  /** Segment i registers the i-th name and does nothing else. */
  ghost predicate RegistersInOrder(seg: nat -> seq<Log.Op>, p: seq<string>) {
    forall i :: 0 <= i < |p| ==> |seg(i)| == 1 && seg(i)[0].Register? && seg(i)[0].name == p[i]
  }

  lemma FlatNext(w: Log.World, seg: nat -> seq<Log.Op>, n: nat)
    requires n > 0 && |seg(n - 1)| == 1
    ensures ApplyAll(w, FlatN(seg, n)) == Log.Apply(ApplyAll(w, FlatN(seg, n - 1)), seg(n - 1)[0])
  {
    assert FlatN(seg, n) == FlatN(seg, n - 1) + seg(n - 1);
    assert FlatN(seg, n)[..|FlatN(seg, n)| - 1] == FlatN(seg, n - 1);
  }

  lemma RegisteringAdds(w: Log.World, op: Log.Op)
    requires SelfNamed(w) && op.Register?
    ensures SelfNamed(Log.Apply(w, op)) && Log.Apply(w, op).steps.Keys == w.steps.Keys + {op.name}
  {
  }

  lemma {:induction false} RegisteredKeys(w: Log.World, seg: nat -> seq<Log.Op>, p: seq<string>, n: nat)
    requires SelfNamed(w) && n <= |p| && RegistersInOrder(seg, p)
    ensures SelfNamed(ApplyAll(w, FlatN(seg, n)))
    ensures forall i :: 0 <= i < n ==> p[i] in ApplyAll(w, FlatN(seg, n)).steps
  {
    if n > 0 {
      RegisteredKeys(w, seg, p, n - 1);
      FlatNext(w, seg, n);
      NextKey(ApplyAll(w, FlatN(seg, n - 1)), ApplyAll(w, FlatN(seg, n)), seg(n - 1)[0], p, n - 1);
    }
  }

  lemma NextKey(w: Log.World, w': Log.World, op: Log.Op, p: seq<string>, n: nat)
    requires SelfNamed(w) && op.Register? && w' == Log.Apply(w, op) && n < |p| && op.name == p[n]
    requires forall i :: 0 <= i < n ==> p[i] in w.steps
    ensures SelfNamed(w') && forall i :: 0 <= i < n + 1 ==> p[i] in w'.steps
  {
    RegisteringAdds(w, op);
  }

  lemma RegisteredNames(w: Log.World, plan: Plan)
    requires SelfNamed(w)
    ensures SelfNamed(ApplyAll(w, Registrations(plan)))
    ensures forall i :: 0 <= i < |PlannedNames(plan)| ==>
        PlannedNames(plan)[i] in ApplyAll(w, Registrations(plan)).steps
  {
    RegisteredKeys(w, RegisterSeg(plan), PlannedNames(plan), |PlannedNames(plan)|);
  }

  // ----- settled at the end -----

  function Registrations(plan: Plan): seq<Log.Op> {
    FlatN(RegisterSeg(plan), |PlannedNames(plan)|)
  }

  function AfterRegistration(plan: Plan, texts: Texts, restored: set<string>, attempts: seq<Attempt>,
      now: Log.Time): seq<Log.Op> {
    FlatN(DisableSeg(plan.scanners, now), |plan.scanners|) + LaterOps(plan, texts, restored, attempts, now)
  }


  lemma {:induction false} CollectIsInert(texts: Texts, now: Log.Time, n: nat)
    ensures forall k :: 0 <= k < |FlatN(CollectSeg(texts, now), n)| ==>
        FlatN(CollectSeg(texts, now), n)[k].StartSub? || FlatN(CollectSeg(texts, now), n)[k].EndSub?
  {
    if n > 0 {
      CollectIsInert(texts, now, n - 1);
    }
  }

  lemma OneOpStatus(st: Log.StepStatus, op: Log.Op, x: string)
    ensures StatusAfter(st, [op], x) == EffectOn(st, op, x)
  {
    assert [op][..0] == [];
  }

  lemma PairStatus(st: Log.StepStatus, a: Log.Op, b: Log.Op, x: string)
    ensures StatusAfter(st, [a, b], x) == EffectOn(EffectOn(st, a, x), b, x)
  {
    assert [a, b][..1] == [a];
    OneOpStatus(st, a, x);
  }

  lemma ArtifactOpsStatus(st: Log.StepStatus, texts: Texts, now: Log.Time, x: string)
    ensures x != ARTIFACTS ==> StatusAfter(st, ArtifactOps(texts, now), x) == st
    ensures x == ARTIFACTS ==> StatusAfter(st, ArtifactOps(texts, now), x) == Log.Completed
  {
    var a := [Log.Start(ARTIFACTS, "Collecting scan artifacts...", now)];
    var c := FlatN(CollectSeg(texts, now), |COLLECTED|);
    var f := [Log.Finish(ARTIFACTS, false, texts.artifactsEnd, now)];
    CollectIsInert(texts, now, |COLLECTED|);
    StatusAfterAppend(st, a + c, f, x);
    StatusAfterAppend(st, a, c, x);
    OneOpStatus(st, a[0], x);
    ForeignOps(StatusAfter(st, a, x), c, x);
    OneOpStatus(StatusAfter(st, a + c, x), f[0], x);
  }

  lemma AfterOpsStatus(st: Log.StepStatus, texts: Texts, now: Log.Time, x: string)
    ensures x != ARTIFACTS && x != COMPLETION ==> StatusAfter(st, AfterOps(texts, now), x) == st
    ensures x == ARTIFACTS || x == COMPLETION ==> StatusAfter(st, AfterOps(texts, now), x) == Log.Completed
  {
    var s := StatusAfter(st, ArtifactOps(texts, now), x);
    ArtifactOpsStatus(st, texts, now, x);
    StatusAfterAppend(st, ArtifactOps(texts, now), CompletionOps(texts, now), x);
    PairStatus(s, Log.Start(COMPLETION, "Finalizing scan...", now),
      Log.Finish(COMPLETION, false, texts.completionEnd, now), x);
  }

  /** Whatever substeps the tool reports, the outcome settles the step. */
  lemma ExecSettles(st: Log.StepStatus, sc: ScannerDef, restored: set<string>, attempt: Attempt, now: Log.Time)
    requires sc.AdminEnabled() && (sc.toolsKey == "" || sc.name !in restored)
    ensures Settled(StatusAfter(st, ExecOps(sc, restored, attempt, now), sc.name))
  {
    var front := [StartOp(sc, now)] + CallOps(sc.name, CallsOf(sc, attempt), now);
    var last := OutcomeOp(sc, OutcomeOf(sc, attempt.ending), now);
    StatusAfterAppend(st, front, [last], sc.name);
    OneOpStatus(StatusAfter(st, front, sc.name), last, sc.name);
  }

  /** The operations never change the status of `x`. */
  ghost predicate Leaves(ops: seq<Log.Op>, x: string) {
    forall st :: StatusAfter(st, ops, x) == st
  }

  lemma SixParts(st: Log.StepStatus, a: seq<Log.Op>, b: seq<Log.Op>, c: seq<Log.Op>, t: seq<Log.Op>, d: seq<Log.Op>,
      e: seq<Log.Op>, x: string)
    ensures StatusAfter(st, a + (b + c + t + d + e), x) ==
            StatusAfter(StatusAfter(StatusAfter(StatusAfter(StatusAfter(StatusAfter(st, a, x), b, x), c, x), t, x), d,
              x), e, x)
  {
    var s1 := StatusAfter(st, a, x);
    StatusAfterAppend(st, a, b + c + t + d + e, x);
    StatusAfterAppend(s1, b + c + t + d, e, x);
    StatusAfterAppend(s1, b + c + t, d, x);
    StatusAfterAppend(s1, b + c, t, x);
    StatusAfterAppend(s1, b, c, x);
  }

  /** With three rows of segments and foreign operations between them, only the three own segments
      of a name matter to it. */
  lemma OwnSegmentsDecide(st: Log.StepStatus, names: seq<string>, i: nat,
                          a: nat -> seq<Log.Op>, b: seq<Log.Op>, c: nat -> seq<Log.Op>, t: seq<Log.Op>,
                          d: nat -> seq<Log.Op>, e: seq<Log.Op>)
    requires i < |names| && Distinct(names) && Owned(a, names) && Owned(c, names) && Owned(d, names)
    requires Leaves(b, names[i]) && Leaves(t, names[i]) && Leaves(e, names[i])
    ensures StatusAfter(st, FlatN(a, |names|) + (b + FlatN(c, |names|) + t + FlatN(d, |names|) + e), names[i]) ==
            StatusAfter(StatusAfter(StatusAfter(st, a(i), names[i]), c(i), names[i]), d(i), names[i])
  {
    var n, x := |names|, names[i];
    SixParts(st, FlatN(a, n), b, FlatN(c, n), t, FlatN(d, n), e, x);
    OwnSegment(st, a, names, n, i);
    var s1 := StatusAfter(st, a(i), x);
    OwnSegment(s1, c, names, n, i);
    OwnSegment(StatusAfter(s1, c(i), x), d, names, n, i);
  }

  /** Between those rows a foreign name is completed by the operations `b`, and `e` keeps it so. */
  lemma ForeignNameSettles(st: Log.StepStatus, names: seq<string>, x: string,
                           a: nat -> seq<Log.Op>, b: seq<Log.Op>, c: nat -> seq<Log.Op>, t: seq<Log.Op>,
                           d: nat -> seq<Log.Op>, e: seq<Log.Op>)
    requires Owned(a, names) && Owned(c, names) && Owned(d, names) && x !in names
    requires (forall s :: StatusAfter(s, b, x) == Log.Completed) && Leaves(t, x) && Leaves(e, x)
    ensures StatusAfter(st, FlatN(a, |names|) + (b + FlatN(c, |names|) + t + FlatN(d, |names|) + e), x) == Log.Completed
  {
    var n := |names|;
    SixParts(st, FlatN(a, n), b, FlatN(c, n), t, FlatN(d, n), e, x);
    var s2 := StatusAfter(StatusAfter(st, FlatN(a, n), x), b, x);
    ForeignSegments(s2, c, names, n, x);
    ForeignSegments(s2, d, names, n, x);
  }

  lemma FixedOpsLeave(plan: Plan, texts: Texts, now: Log.Time, x: string)
    requires x != ARTIFACTS && x != COMPLETION
    ensures Leaves(TailPendingOps, x) && Leaves(AfterOps(texts, now), x)
    ensures (forall j :: 0 <= j < |BeforeNames(plan)| ==> x != BeforeNames(plan)[j]) ==>
        Leaves(BeforeOps(plan, texts, now), x)
  {
    forall st: Log.StepStatus
      ensures StatusAfter(st, TailPendingOps, x) == st && StatusAfter(st, AfterOps(texts, now), x) == st
      ensures (forall j :: 0 <= j < |BeforeNames(plan)| ==> x != BeforeNames(plan)[j]) ==>
          StatusAfter(st, BeforeOps(plan, texts, now), x) == st
    {
      ForeignOps(st, TailPendingOps, x);
      AfterOpsStatus(st, texts, now, x);
      if forall j :: 0 <= j < |BeforeNames(plan)| ==> x != BeforeNames(plan)[j] {
        BeforeOpsForeign(plan, texts, now, x, st);
      }
    }
  }

  /** Of the whole run only the scanner's own operations matter to its status. */
  lemma OwnOpsDecide(st: Log.StepStatus, plan: Plan, texts: Texts, restored: set<string>, attempts: seq<Attempt>,
      now: Log.Time, i: nat)
    requires WellNamed(plan) && i < |plan.scanners| && |attempts| == |plan.scanners|
    ensures
      var x := plan.scanners[i].name;
      var s1 := StatusAfter(st, DisableSeg(plan.scanners, now)(i), x);
      var s3 := StatusAfter(s1, SyncSeg(plan.scanners, restored, now)(i), x);
      StatusAfter(st, AfterRegistration(plan, texts, restored, attempts, now), x)
      == StatusAfter(s3, ExecSeg(plan.scanners, restored, attempts, now)(i), x)
  {
    WellNamedParts(plan);
    SegmentsAreOwned(plan, restored, attempts, now);
    FixedOpsLeave(plan, texts, now, plan.scanners[i].name);
    OwnSegmentsDecide(st, ScannerNames(plan.scanners), i, DisableSeg(plan.scanners, now), BeforeOps(plan, texts, now),
                      SyncSeg(plan.scanners, restored, now), TailPendingOps,
                      ExecSeg(plan.scanners, restored, attempts, now), AfterOps(texts, now));
  }

  /** Whatever its status was, a scanner's own operations settle it. */
  lemma ScannerSettles(st: Log.StepStatus, plan: Plan, texts: Texts, restored: set<string>, attempts: seq<Attempt>,
      now: Log.Time, i: nat)
    requires WellNamed(plan) && i < |plan.scanners| && |attempts| == |plan.scanners|
    ensures Settled(StatusAfter(st, AfterRegistration(plan, texts, restored, attempts, now), plan.scanners[i].name))
  {
    OwnOpsDecide(st, plan, texts, restored, attempts, now, i);
    OwnOpsSettle(st, plan, restored, attempts, now, i);
  }

  lemma OwnOpsSettle(st: Log.StepStatus, plan: Plan, restored: set<string>, attempts: seq<Attempt>, now: Log.Time,
      i: nat)
    requires i < |plan.scanners| && |attempts| == |plan.scanners|
    ensures
      var x := plan.scanners[i].name;
      var s1 := StatusAfter(st, DisableSeg(plan.scanners, now)(i), x);
      var s3 := StatusAfter(s1, SyncSeg(plan.scanners, restored, now)(i), x);
      Settled(StatusAfter(s3, ExecSeg(plan.scanners, restored, attempts, now)(i), x))
  {
    var sc := plan.scanners[i];
    if !sc.AdminEnabled() {
      OneOpStatus(st, DisableSeg(plan.scanners, now)(i)[0], sc.name);
    } else if sc.toolsKey == "" || sc.name !in restored {
      var s3 := StatusAfter(st, SyncSeg(plan.scanners, restored, now)(i), sc.name);
      ExecSettles(s3, sc, restored, attempts[i], now);
    } else {
      OneOpStatus(st, Log.Restore(sc.name, "", now), sc.name);
    }
  }

  lemma BeforeSettles(st: Log.StepStatus, plan: Plan, texts: Texts, now: Log.Time, j: nat)
    requires j < |BeforeNames(plan)|
    ensures StatusAfter(st, BeforeOps(plan, texts, now), BeforeNames(plan)[j]) == Log.Completed
  {
    var x := BeforeNames(plan)[j];
    var c, d, e := CloneOps(plan, texts, now), InitializationOps(now), MetadataOps(plan, texts, now);
    StatusAfterAppend(st, c + d, e, x);
    StatusAfterAppend(st, c, d, x);
    if plan.gitRepo {
      PairStatus(st, c[0], c[1], x);
    }
    PairStatus(StatusAfter(st, c, x), d[0], d[1], x);
    if plan.collectMetadata {
      PairStatus(StatusAfter(st, c + d, x), e[0], e[1], x);
    }
  }

  lemma BeforeDefinitionSettles(st: Log.StepStatus, plan: Plan, texts: Texts, restored: set<string>,
      attempts: seq<Attempt>, now: Log.Time, j: nat)
    requires WellNamed(plan) && j < |BeforeNames(plan)|
    ensures StatusAfter(st, AfterRegistration(plan, texts, restored, attempts, now), BeforeNames(plan)[j])
            == Log.Completed
  {
    var x := BeforeNames(plan)[j];
    WellNamedParts(plan);
    BeforeIsNotAfter(plan, j);
    SegmentsAreOwned(plan, restored, attempts, now);
    FixedOpsLeave(plan, texts, now, x);
    forall s ensures StatusAfter(s, BeforeOps(plan, texts, now), x) == Log.Completed {
      BeforeSettles(s, plan, texts, now, j);
    }
    ForeignNameSettles(st, ScannerNames(plan.scanners), x, DisableSeg(plan.scanners, now), BeforeOps(plan, texts, now),
                       SyncSeg(plan.scanners, restored, now), TailPendingOps,
                       ExecSeg(plan.scanners, restored, attempts, now), AfterOps(texts, now));
  }

  lemma BeforeIsNotAfter(plan: Plan, j: nat)
    requires WellNamed(plan) && j < |BeforeNames(plan)|
    ensures BeforeNames(plan)[j] != ARTIFACTS && BeforeNames(plan)[j] != COMPLETION
  {
    var t := [ARTIFACTS, COMPLETION];
    DistinctConcat(BeforeNames(plan), ScannerNames(plan.scanners), t);
    assert BeforeNames(plan)[j] != t[0] && BeforeNames(plan)[j] != t[1];
  }

  lemma LastOpsSettle(st: Log.StepStatus, front: seq<Log.Op>, texts: Texts, now: Log.Time, x: string)
    requires x == ARTIFACTS || x == COMPLETION
    ensures StatusAfter(st, front + AfterOps(texts, now), x) == Log.Completed
  {
    StatusAfterAppend(st, front, AfterOps(texts, now), x);
    AfterOpsStatus(StatusAfter(st, front, x), texts, now, x);
  }

  lemma AfterDefinitionSettles(st: Log.StepStatus, plan: Plan, texts: Texts, restored: set<string>,
      attempts: seq<Attempt>, now: Log.Time, x: string)
    requires x == ARTIFACTS || x == COMPLETION
    ensures StatusAfter(st, AfterRegistration(plan, texts, restored, attempts, now), x) == Log.Completed
  {
    var n := |plan.scanners|;
    var a := FlatN(DisableSeg(plan.scanners, now), n);
    var front := BeforeOps(plan, texts, now) + FlatN(SyncSeg(plan.scanners, restored, now), n) + TailPendingOps
                 + FlatN(ExecSeg(plan.scanners, restored, attempts, now), n);
    assert a + (front + AfterOps(texts, now)) == (a + front) + AfterOps(texts, now);
    LastOpsSettle(st, a + front, texts, now, x);
  }

  lemma RunSplits(w: Log.World, plan: Plan, texts: Texts, restored: set<string>, attempts: seq<Attempt>, now: Log.Time)
    ensures ApplyAll(w, RunOps(plan, texts, restored, attempts, now))
            == ApplyAll(ApplyAll(w, Registrations(plan)), AfterRegistration(plan, texts, restored, attempts, now))
  {
    RunIsRegistrationAndRest(plan, texts, restored, attempts, now);
    ApplyAllAppend(w, Registrations(plan), AfterRegistration(plan, texts, restored, attempts, now));
  }

  /** The steps that are no scanner's. */
  predicate FixedStep(plan: Plan, k: nat) {
    k < |BeforeNames(plan)| || k >= |BeforeNames(plan)| + |plan.scanners|
  }

  lemma PlannedSettles(st: Log.StepStatus, plan: Plan, texts: Texts, restored: set<string>, attempts: seq<Attempt>,
      now: Log.Time, k: nat)
    requires WellNamed(plan) && |attempts| == |plan.scanners| && k < |PlannedNames(plan)|
    ensures
      var end := StatusAfter(st, AfterRegistration(plan, texts, restored, attempts, now), PlannedNames(plan)[k]);
      Settled(end) && (FixedStep(plan, k) ==> end == Log.Completed)
  {
    var x, b := PlannedNames(plan)[k], |BeforeNames(plan)|;
    if b <= k < b + |plan.scanners| {
      assert x == plan.scanners[k - b].name;
      ScannerSettles(st, plan, texts, restored, attempts, now, k - b);
    } else if k < b {
      assert x == BeforeNames(plan)[k];
      BeforeDefinitionSettles(st, plan, texts, restored, attempts, now, k);
    } else {
      AfterDefinitionSettles(st, plan, texts, restored, attempts, now, x);
    }
  }

  /** For every outcome of every scanner, when run_scan returns each planned step is completed,
      failed or skipped, whatever the registry held before; the steps of no scanner are completed. */
  lemma EveryPlannedStepIsSettled(
    w: Log.World, plan: Plan, texts: Texts, restored: set<string>, attempts: seq<Attempt>, now: Log.Time, k: nat)
    requires SelfNamed(w) && WellNamed(plan) && |attempts| == |plan.scanners| && k < |PlannedNames(plan)|
    ensures
      var end := ApplyAll(w, RunOps(plan, texts, restored, attempts, now));
      var x := PlannedNames(plan)[k];
      && x in end.steps && Settled(end.steps[x].status)
      && (FixedStep(plan, k) ==> end.steps[x].status == Log.Completed)
  {
    var x := PlannedNames(plan)[k];
    var w1 := ApplyAll(w, Registrations(plan));
    RunSplits(w, plan, texts, restored, attempts, now);
    RegisteredNames(w, plan);
    ApplyAllOnStep(w1, AfterRegistration(plan, texts, restored, attempts, now), x);
    PlannedSettles(w1.steps[x].status, plan, texts, restored, attempts, now, k);
  }

  // ----- the total never changes after registration -----

  /** The operation cannot create a step. */
  predicate CreatesNothing(steps: set<string>, op: Log.Op) {
    op.name in steps || op.EndSub? || op.UpdateSub? || op.SetPending? || op.Restore?
  }

  /** An operation adds a step, and raises the total, exactly when it cannot be seen to create none;
      a substep started under an unknown name is one such operation. */
  lemma TotalStaysIff(w: Log.World, op: Log.Op)
    requires SelfNamed(w)
    ensures Log.Apply(w, op).counter == w.counter <==> CreatesNothing(w.steps.Keys, op)
    ensures Log.Apply(w, op).counter == w.counter ==> Log.Apply(w, op).steps.Keys == w.steps.Keys
  {
    if CreatesNothing(w.steps.Keys, op) {
      OneStays(w, op);
    }
  }

  lemma {:induction false} TotalStays(w: Log.World, ops: seq<Log.Op>)
    requires SelfNamed(w) && forall k :: 0 <= k < |ops| ==> CreatesNothing(w.steps.Keys, ops[k])
    ensures ApplyAll(w, ops).counter == w.counter && ApplyAll(w, ops).steps.Keys == w.steps.Keys
        && SelfNamed(ApplyAll(w, ops))
  {
    if ops != [] {
      TotalStays(w, ops[..|ops| - 1]);
      OneStays(ApplyAll(w, ops[..|ops| - 1]), ops[|ops| - 1]);
    }
  }

  lemma OneStays(w: Log.World, op: Log.Op)
    requires SelfNamed(w) && CreatesNothing(w.steps.Keys, op)
    ensures Log.Apply(w, op).counter == w.counter && Log.Apply(w, op).steps.Keys == w.steps.Keys
        && SelfNamed(Log.Apply(w, op))
  {
    if op.name in w.steps {
      if Log.Apply(w, op) != w {
        WriteOnStep(w, Log.Apply(w, op).steps[op.name], op.name);
      }
    }
  }

  /** The operations name planned steps, but for the ends of the collecting substeps. */
  ghost predicate Planned(plan: Plan, ops: seq<Log.Op>) {
    forall k :: 0 <= k < |ops| ==> ops[k].name in PlannedNames(plan) || (ops[k].EndSub? && ops[k].name in COLLECTED)
  }

  lemma PlannedAppend(plan: Plan, a: seq<Log.Op>, b: seq<Log.Op>)
    requires Planned(plan, a) && Planned(plan, b)
    ensures Planned(plan, a + b)
  {
  }

  lemma {:induction false} ScannerSegmentsArePlanned(plan: Plan, seg: nat -> seq<Log.Op>, n: nat)
    requires n <= |plan.scanners| && Owned(seg, ScannerNames(plan.scanners))
    ensures Planned(plan, FlatN(seg, n))
  {
    if n > 0 {
      ScannerSegmentsArePlanned(plan, seg, n - 1);
      var p, b := PlannedNames(plan), |BeforeNames(plan)|;
      assert p[b + n - 1] == ScannerNames(plan.scanners)[n - 1];
      PlannedAppend(plan, FlatN(seg, n - 1), seg(n - 1));
    }
  }

  lemma {:induction false} CollectIsPlanned(plan: Plan, texts: Texts, now: Log.Time, n: nat)
    ensures Planned(plan, FlatN(CollectSeg(texts, now), n))
  {
    if n > 0 {
      CollectIsPlanned(plan, texts, now, n - 1);
      FixedNamesArePlanned(plan);
      PlannedAppend(plan, FlatN(CollectSeg(texts, now), n - 1), CollectSeg(texts, now)(n - 1));
    }
  }

  lemma FixedNamesArePlanned(plan: Plan)
    ensures ARTIFACTS in PlannedNames(plan) && COMPLETION in PlannedNames(plan) && INITIALIZATION in PlannedNames(plan)
    ensures plan.gitRepo ==> CLONE in PlannedNames(plan)
    ensures plan.collectMetadata ==> METADATA in PlannedNames(plan)
  {
    var p, b, n := PlannedNames(plan), BeforeNames(plan), |plan.scanners|;
    assert p[|b| + n] == ARTIFACTS && p[|b| + n + 1] == COMPLETION;
    assert p[if plan.gitRepo then 1 else 0] == INITIALIZATION;
    assert plan.gitRepo ==> p[0] == CLONE;
    assert plan.collectMetadata ==> p[|b| - 1] == METADATA;
  }

  lemma FixedOpsArePlanned(plan: Plan, texts: Texts, now: Log.Time)
    ensures Planned(plan, BeforeOps(plan, texts, now)) && Planned(plan, TailPendingOps)
        && Planned(plan, AfterOps(texts, now))
  {
    FixedNamesArePlanned(plan);
    PlannedAppend(plan, CloneOps(plan, texts, now), InitializationOps(now));
    PlannedAppend(plan, CloneOps(plan, texts, now) + InitializationOps(now), MetadataOps(plan, texts, now));
    ArtifactsArePlanned(plan, texts, now);
    PlannedAppend(plan, ArtifactOps(texts, now), CompletionOps(texts, now));
  }

  lemma ArtifactsArePlanned(plan: Plan, texts: Texts, now: Log.Time)
    ensures Planned(plan, ArtifactOps(texts, now))
  {
    FixedNamesArePlanned(plan);
    CollectIsPlanned(plan, texts, now, |COLLECTED|);
    var a, c := [Log.Start(ARTIFACTS, "Collecting scan artifacts...", now)], FlatN(CollectSeg(texts, now), |COLLECTED|);
    PlannedAppend(plan, a, c);
    PlannedAppend(plan, a + c, [Log.Finish(ARTIFACTS, false, texts.artifactsEnd, now)]);
  }

  lemma RunIsPlanned(plan: Plan, texts: Texts, restored: set<string>, attempts: seq<Attempt>, now: Log.Time)
    ensures Planned(plan, AfterRegistration(plan, texts, restored, attempts, now))
  {
    SegmentsAreOwned(plan, restored, attempts, now);
    FixedOpsArePlanned(plan, texts, now);
    var n := |plan.scanners|;
    ScannerSegmentsArePlanned(plan, DisableSeg(plan.scanners, now), n);
    ScannerSegmentsArePlanned(plan, SyncSeg(plan.scanners, restored, now), n);
    ScannerSegmentsArePlanned(plan, ExecSeg(plan.scanners, restored, attempts, now), n);
    JoinPlanned(plan, FlatN(DisableSeg(plan.scanners, now), n), BeforeOps(plan, texts, now),
                FlatN(SyncSeg(plan.scanners, restored, now), n), TailPendingOps,
                FlatN(ExecSeg(plan.scanners, restored, attempts, now), n), AfterOps(texts, now));
  }

  lemma JoinPlanned(plan: Plan, a: seq<Log.Op>, b: seq<Log.Op>, c: seq<Log.Op>, t: seq<Log.Op>, d: seq<Log.Op>,
      e: seq<Log.Op>)
    requires Planned(plan, a) && Planned(plan, b) && Planned(plan, c) && Planned(plan, t) && Planned(plan, d)
        && Planned(plan, e)
    ensures Planned(plan, a + (b + c + t + d + e))
  {
    PlannedAppend(plan, b, c);
    PlannedAppend(plan, b + c, t);
    PlannedAppend(plan, b + c + t, d);
    PlannedAppend(plan, b + c + t + d, e);
    PlannedAppend(plan, a, b + c + t + d + e);
  }

  lemma RestCreatesNothing(
    w: Log.World, plan: Plan, texts: Texts, restored: set<string>, attempts: seq<Attempt>, now: Log.Time)
    requires SelfNamed(w)
    ensures
      var ops, steps := AfterRegistration(plan, texts, restored, attempts, now),
        ApplyAll(w, Registrations(plan)).steps.Keys;
      forall k :: 0 <= k < |ops| ==> CreatesNothing(steps, ops[k])
  {
    var ops := AfterRegistration(plan, texts, restored, attempts, now);
    RegisteredNames(w, plan);
    RunIsPlanned(plan, texts, restored, attempts, now);
    forall k | 0 <= k < |ops| ensures CreatesNothing(ApplyAll(w, Registrations(plan)).steps.Keys, ops[k]) {
      if ops[k].name in PlannedNames(plan) {
        var i :| 0 <= i < |PlannedNames(plan)| && PlannedNames(plan)[i] == ops[k].name;
      }
    }
  }

  /** After pre-registration the step total stays the same at every moment of the run. */
  lemma TotalIsConstant(
    w: Log.World, plan: Plan, texts: Texts, restored: set<string>, attempts: seq<Attempt>, now: Log.Time, m: nat)
    requires SelfNamed(w) && m <= |AfterRegistration(plan, texts, restored, attempts, now)|
    ensures
      var w1 := ApplyAll(w, Registrations(plan));
      ApplyAll(w1, AfterRegistration(plan, texts, restored, attempts, now)[..m]).counter == w1.counter
  {
    var ops := AfterRegistration(plan, texts, restored, attempts, now);
    RegisteredNames(w, plan);
    RestCreatesNothing(w, plan, texts, restored, attempts, now);
    assert forall k :: 0 <= k < m ==> ops[..m][k] == ops[k];
    TotalStays(ApplyAll(w, Registrations(plan)), ops[..m]);
  }

  // ----- progress -----

  function WithStatus(w: Log.World, st: Log.StepStatus): set<string> {
    set n | n in w.steps && w.steps[n].status == st
  }

  function StatusCount(w: Log.World, st: Log.StepStatus): nat {
    |WithStatus(w, st)|
  }

  /** Python's round() of num / den: to the nearest integer, halves to the even one. */
  function RoundHalfEven(num: nat, den: nat): nat
    requires den > 0
  {
    var q, r := num / den, num % den;
    if 2 * r < den || (2 * r == den && q % 2 == 0) then q else q + 1
  }

  /** round((completed + failed + running / 2) / total * 100), over a common denominator. */
  function Progress(w: Log.World): nat {
    if w.counter == 0 then 0
    else RoundHalfEven((2 * StatusCount(w, Log.Completed) + 2 * StatusCount(w, Log.Failed)
      + StatusCount(w, Log.Running)) * 50, w.counter)
  }

  lemma {:induction false} NumberedStepsAreFew(names: set<string>, steps: map<string, Log.StepData>, counter: nat)
    requires names <= steps.Keys
    requires forall n :: n in names ==> 1 <= steps[n].number <= counter
    requires forall n, n' :: n in names && n' in names && steps[n].number == steps[n'].number ==> n == n'
    ensures |names| <= counter
    decreases counter
  {
    if counter == 0 {
      assert forall n :: n in names ==> n !in names;
      assert names == {};
    } else if exists n :: n in names && steps[n].number == counter {
      var n :| n in names && steps[n].number == counter;
      NumberedStepsAreFew(names - {n}, steps, counter - 1);
    } else {
      NumberedStepsAreFew(names, steps, counter - 1);
    }
  }

  lemma DisjointStatuses(w: Log.World)
    ensures StatusCount(w, Log.Completed) + StatusCount(w, Log.Failed) + StatusCount(w, Log.Running) <= |w.steps.Keys|
  {
    ThreeDisjoint(w.steps.Keys, WithStatus(w, Log.Completed), WithStatus(w, Log.Failed), WithStatus(w, Log.Running));
  }

  lemma ThreeDisjoint<T>(all: set<T>, a: set<T>, b: set<T>, c: set<T>)
    requires a <= all && b <= all && c <= all && a !! b && (a + b) !! c
    ensures |a| + |b| + |c| <= |all|
  {
    assert |a + b + c| == |a| + |b| + |c|;
    assert all == (a + b + c) + (all - (a + b + c));
  }

  /** In every reachable registry the progress lies in 0..100. */
  lemma ProgressInRange(w: Log.World)
    requires Log.Numbering(Log.Memory(w.steps, w.counter))
    ensures 0 <= Progress(w) <= 100
  {
    DisjointStatuses(w);
    NumberedStepsAreFew(w.steps.Keys, w.steps, w.counter);
    if w.counter > 0 {
      var num := (2 * StatusCount(w, Log.Completed) + 2 * StatusCount(w, Log.Failed)
        + StatusCount(w, Log.Running)) * 50;
      assert num <= 100 * w.counter;
      RoundBelow(num, w.counter);
    }
  }

  lemma {:induction false} OpsKeepIdentity(w: Log.World, ops: seq<Log.Op>)
    requires Log.Identity(w) && w.running && forall k :: 0 <= k < |ops| ==> ops[k].name != ""
    ensures Log.Identity(ApplyAll(w, ops)) && ApplyAll(w, ops).running
  {
    if ops != [] {
      OpsKeepIdentity(w, ops[..|ops| - 1]);
      Log.ApplyKeepsIdentity(ApplyAll(w, ops[..|ops| - 1]), ops[|ops| - 1]);
    }
  }

  ghost predicate AllNamed(ops: seq<Log.Op>) {
    forall k :: 0 <= k < |ops| ==> ops[k].name != ""
  }

  lemma {:induction false} RegistrationsAreNamed(seg: nat -> seq<Log.Op>, p: seq<string>, n: nat)
    requires RegistersInOrder(seg, p) && n <= |p| && forall i :: 0 <= i < |p| ==> p[i] != ""
    ensures AllNamed(FlatN(seg, n))
  {
    if n > 0 {
      RegistrationsAreNamed(seg, p, n - 1);
    }
  }

  lemma PlannedIsNamed(plan: Plan, ops: seq<Log.Op>)
    requires WellNamed(plan) && Planned(plan, ops)
    ensures AllNamed(ops)
  {
  }

  /** Every operation of a run carries a name. */
  lemma RunIsNamed(plan: Plan, texts: Texts, restored: set<string>, attempts: seq<Attempt>, now: Log.Time)
    requires WellNamed(plan)
    ensures AllNamed(RunOps(plan, texts, restored, attempts, now))
  {
    RegistrationsAreNamed(RegisterSeg(plan), PlannedNames(plan), |PlannedNames(plan)|);
    RunIsPlanned(plan, texts, restored, attempts, now);
    PlannedIsNamed(plan, AfterRegistration(plan, texts, restored, attempts, now));
    RunIsRegistrationAndRest(plan, texts, restored, attempts, now);
  }

  lemma RunIsRegistrationAndRest(plan: Plan, texts: Texts, restored: set<string>, attempts: seq<Attempt>, now: Log.Time)
    ensures RunOps(plan, texts, restored, attempts, now) ==
            Registrations(plan) + AfterRegistration(plan, texts, restored, attempts, now)
  {
    var a, b := FlatN(DisableSeg(plan.scanners, now), |plan.scanners|), LaterOps(plan, texts, restored, attempts, now);
    assert (Registrations(plan) + a) + b == Registrations(plan) + (a + b);
  }

  /** Whatever the registry held before, progress lies in 0..100 at every moment of a run. */
  lemma ProgressThroughoutRun(
    w: Log.World, plan: Plan, texts: Texts, restored: set<string>, attempts: seq<Attempt>, now: Log.Time, m: nat)
    requires Log.Identity(w) && w.running && WellNamed(plan) && m <= |RunOps(plan, texts, restored, attempts, now)|
    ensures 0 <= Progress(ApplyAll(w, RunOps(plan, texts, restored, attempts, now)[..m])) <= 100
  {
    var ops := RunOps(plan, texts, restored, attempts, now)[..m];
    RunIsNamed(plan, texts, restored, attempts, now);
    OpsKeepIdentity(w, ops);
    Log.RunningNumbering(ApplyAll(w, ops));
    ProgressInRange(ApplyAll(w, ops));
  }

  lemma RoundBelow(num: nat, den: nat)
    requires den > 0 && num <= 100 * den
    ensures RoundHalfEven(num, den) <= 100
  {
    var q, r := num / den, num % den;
    assert num == q * den + r;
    if q >= 100 {
      assert q * den >= 100 * den;
      assert r == 0 && q * den == 100 * den;
      assert q == 100;
    }
  }

  // ----- the order of starting -----

  function StartNames(ops: seq<Log.Op>): seq<string> {
    if ops == [] then []
    else StartNames(ops[..|ops| - 1]) + if ops[|ops| - 1].Start? then [ops[|ops| - 1].name] else []
  }

  lemma {:induction false} StartNamesAppend(a: seq<Log.Op>, b: seq<Log.Op>)
    ensures StartNames(a + b) == StartNames(a) + StartNames(b)
  {
    if b == [] {
      assert a + b == a;
    } else {
      assert (a + b)[..|a + b| - 1] == a + b[..|b| - 1];
      StartNamesAppend(a, b[..|b| - 1]);
    }
  }

  lemma {:induction false} NoStarts(ops: seq<Log.Op>)
    requires forall k :: 0 <= k < |ops| ==> !ops[k].Start?
    ensures StartNames(ops) == []
  {
    if ops != [] {
      NoStarts(ops[..|ops| - 1]);
    }
  }

  /** `names` are entries lo..hi of `all`, each at most once and in order. */
  ghost predicate InOrder(all: seq<string>, names: seq<string>, lo: nat, hi: nat)
    decreases |names|
  {
    if names == [] then lo <= hi <= |all|
    else exists k :: lo <= k < hi <= |all| && all[k] == names[|names| - 1] && InOrder(all, names[..|names| - 1], lo, k)
  }

  lemma InOrderSnoc(all: seq<string>, names: seq<string>, lo: nat, k: nat, hi: nat)
    requires InOrder(all, names, lo, k) && lo <= k < hi <= |all|
    ensures InOrder(all, names + [all[k]], lo, hi)
  {
    assert (names + [all[k]])[..|names|] == names;
  }

  lemma {:induction false} InOrderWiden(all: seq<string>, names: seq<string>, lo: nat, hi: nat, hi': nat)
    requires InOrder(all, names, lo, hi) && hi <= hi' <= |all|
    ensures InOrder(all, names, lo, hi')
  {
    if names != [] {
      var k :| lo <= k < hi <= |all| && all[k] == names[|names| - 1] && InOrder(all, names[..|names| - 1], lo, k);
    }
  }

  lemma ExecOpsStart(sc: ScannerDef, restored: set<string>, attempt: Attempt, now: Log.Time)
    ensures var ops := ExecOps(sc, restored, attempt, now); StartNames(ops) == if ops == [] then [] else [sc.name]
  {
    var a, c := [StartOp(sc, now)], CallOps(sc.name, CallsOf(sc, attempt), now);
    var z := [OutcomeOp(sc, OutcomeOf(sc, attempt.ending), now)];
    StartNamesAppend(a + c, z);
    StartNamesAppend(a, c);
    NoStarts(c);
    NoStarts(z);
    assert a[..0] == [];
  }

  lemma AtMostOneMore(all: seq<string>, front: seq<string>, more: seq<string>, k: nat)
    requires InOrder(all, front, 0, k) && k < |all| && (more == [] || more == [all[k]])
    ensures InOrder(all, front + more, 0, k + 1)
  {
    if more == [] {
      assert front + more == front;
      InOrderWiden(all, front, 0, k, k + 1);
    } else {
      InOrderSnoc(all, front, 0, k, k + 1);
    }
  }

  type Ordered = (seq<string>, nat) -> bool

  /** Segment i keeps the starts in order, moving on by one place. */
  ghost predicate KeepsOrder(ordered: Ordered, seg: nat -> seq<Log.Op>, i: nat) {
    forall front :: ordered(front, i) ==> ordered(front + StartNames(seg(i)), i + 1)
  }

  lemma {:induction false} SegmentsInOrder(ordered: Ordered, seg: nat -> seq<Log.Op>, before: seq<string>, n: nat)
    requires ordered(before, 0)
    requires forall i :: 0 <= i < n ==> KeepsOrder(ordered, seg, i)
    ensures ordered(before + StartNames(FlatN(seg, n)), n)
  {
    if n == 0 {
      assert before + [] == before;
    } else {
      SegmentsInOrder(ordered, seg, before, n - 1);
      assert KeepsOrder(ordered, seg, n - 1);
      StartNamesAppend(FlatN(seg, n - 1), seg(n - 1));
      var middle, last := StartNames(FlatN(seg, n - 1)), StartNames(seg(n - 1));
      assert before + middle + last == before + (middle + last);
    }
  }

  /** Segment i starts nothing, or entry i of `names` alone. */
  ghost predicate StartsItsOwn(seg: nat -> seq<Log.Op>, names: seq<string>, i: nat)
    requires i < |names|
  {
    StartNames(seg(i)) == [] || StartNames(seg(i)) == [names[i]]
  }

  /** Being in order among the first b + i entries. */
  ghost function UpTo(p: seq<string>, b: nat): Ordered {
    (names, i: nat) => InOrder(p, names, 0, b + i)
  }

  lemma OwnStartKeepsOrder(p: seq<string>, b: nat, seg: nat -> seq<Log.Op>, names: seq<string>, i: nat)
    requires i < |names| && b + i < |p| && p[b + i] == names[i] && StartsItsOwn(seg, names, i)
    ensures KeepsOrder(UpTo(p, b), seg, i)
  {
    forall front | UpTo(p, b)(front, i) ensures UpTo(p, b)(front + StartNames(seg(i)), i + 1) {
      AtMostOneMore(p, front, StartNames(seg(i)), b + i);
    }
  }

  /** Segments that start their own entries of a stretch of `p` extend what came before in order. */
  lemma OwnStartsInOrder(p: seq<string>, b: nat, seg: nat -> seq<Log.Op>, names: seq<string>, before: seq<string>)
    requires b + |names| <= |p| && forall i :: 0 <= i < |names| ==> p[b + i] == names[i]
    requires forall i :: 0 <= i < |names| ==> StartsItsOwn(seg, names, i)
    requires InOrder(p, before, 0, b)
    ensures InOrder(p, before + StartNames(FlatN(seg, |names|)), 0, b + |names|)
  {
    forall i | 0 <= i < |names| ensures KeepsOrder(UpTo(p, b), seg, i) {
      OwnStartKeepsOrder(p, b, seg, names, i);
    }
    assert UpTo(p, b)(before, 0);
    SegmentsInOrder(UpTo(p, b), seg, before, |names|);
    assert UpTo(p, b)(before + StartNames(FlatN(seg, |names|)), |names|);
  }

  lemma ExecStartsItsOwn(scanners: seq<ScannerDef>, restored: set<string>, attempts: seq<Attempt>, now: Log.Time,
      i: nat)
    requires i < |scanners| == |attempts|
    ensures StartsItsOwn(ExecSeg(scanners, restored, attempts, now), ScannerNames(scanners), i)
  {
    ExecOpsStart(scanners[i], restored, attempts[i], now);
  }

  lemma ScannersInPlan(plan: Plan)
    ensures |BeforeNames(plan)| + |plan.scanners| <= |PlannedNames(plan)|
    ensures forall i :: 0 <= i < |plan.scanners| ==>
                          PlannedNames(plan)[|BeforeNames(plan)| + i] == ScannerNames(plan.scanners)[i]
  {
  }

  lemma ExecStartsInOrder(plan: Plan, restored: set<string>, attempts: seq<Attempt>, now: Log.Time, before: seq<string>)
    requires |attempts| == |plan.scanners|
    requires InOrder(PlannedNames(plan), before, 0, |BeforeNames(plan)|)
    ensures InOrder(PlannedNames(plan),
                    before + StartNames(FlatN(ExecSeg(plan.scanners, restored, attempts, now), |plan.scanners|)),
                    0, |BeforeNames(plan)| + |plan.scanners|)
  {
    var seg, names := ExecSeg(plan.scanners, restored, attempts, now), ScannerNames(plan.scanners);
    forall i | 0 <= i < |names| ensures StartsItsOwn(seg, names, i) {
      ExecStartsItsOwn(plan.scanners, restored, attempts, now, i);
    }
    ScannersInPlan(plan);
    OwnStartsInOrder(PlannedNames(plan), |BeforeNames(plan)|, seg, names, before);
  }

  lemma StartsOfPair(a: Log.Op, b: Log.Op)
    requires a.Start? && !b.Start?
    ensures StartNames([a, b]) == [a.name]
  {
    assert [a, b][..1] == [a] && [a][..0] == [];
    assert StartNames([a]) == [a.name];
  }

  lemma StartsBefore(plan: Plan, texts: Texts, now: Log.Time)
    ensures StartNames(BeforeOps(plan, texts, now)) == BeforeNames(plan)
  {
    var c, d, e := CloneOps(plan, texts, now), InitializationOps(now), MetadataOps(plan, texts, now);
    StartNamesAppend(c + d, e);
    StartNamesAppend(c, d);
    StartsOfPair(d[0], d[1]);
    if plan.gitRepo {
      StartsOfPair(c[0], c[1]);
    }
    if plan.collectMetadata {
      StartsOfPair(e[0], e[1]);
    }
  }

  lemma StartsAfter(texts: Texts, now: Log.Time)
    ensures StartNames(AfterOps(texts, now)) == [ARTIFACTS, COMPLETION]
  {
    var a := [Log.Start(ARTIFACTS, "Collecting scan artifacts...", now)];
    var c := FlatN(CollectSeg(texts, now), |COLLECTED|);
    var f := [Log.Finish(ARTIFACTS, false, texts.artifactsEnd, now)];
    var e := [Log.Start(COMPLETION, "Finalizing scan...", now),
      Log.Finish(COMPLETION, false, texts.completionEnd, now)];
    assert AfterOps(texts, now) == a + c + (f + e);
    CollectIsInert(texts, now, |COLLECTED|);
    NoStarts(c);
    NoStarts(f);
    StartsOfPair(e[0], e[1]);
    StartNamesAppend(a + c, f + e);
    StartNamesAppend(a, c);
    StartNamesAppend(f, e);
    assert a[..0] == [];
    assert StartNames(a) == [ARTIFACTS];
  }

  lemma {:induction false} SegmentsWithoutStarts(seg: nat -> seq<Log.Op>, n: nat)
    requires forall i, k :: 0 <= i < n && 0 <= k < |seg(i)| ==> !seg(i)[k].Start?
    ensures StartNames(FlatN(seg, n)) == []
  {
    if n > 0 {
      SegmentsWithoutStarts(seg, n - 1);
      StartNamesAppend(FlatN(seg, n - 1), seg(n - 1));
      NoStarts(seg(n - 1));
    }
  }

  lemma OnlySomeStart(a: seq<Log.Op>, z: seq<Log.Op>, b: seq<Log.Op>, c: seq<Log.Op>, t: seq<Log.Op>, d: seq<Log.Op>,
      e: seq<Log.Op>)
    requires StartNames(a) == [] && StartNames(z) == [] && StartNames(c) == [] && StartNames(t) == []
    ensures StartNames(a + z + (b + c + t + d + e)) == StartNames(b) + StartNames(d) + StartNames(e)
  {
    JoinStarts(a, z, b, c, t, d, e);
  }

  lemma RegisteringIsQuiet(plan: Plan, n: nat)
    ensures StartNames(FlatN(RegisterSeg(plan), n)) == []
  {
    SegmentsWithoutStarts(RegisterSeg(plan), n);
  }

  lemma DisablingIsQuiet(scanners: seq<ScannerDef>, now: Log.Time, n: nat)
    ensures StartNames(FlatN(DisableSeg(scanners, now), n)) == []
  {
    SegmentsWithoutStarts(DisableSeg(scanners, now), n);
  }

  lemma SyncIsQuiet(scanners: seq<ScannerDef>, restored: set<string>, now: Log.Time, n: nat)
    ensures StartNames(FlatN(SyncSeg(scanners, restored, now), n)) == []
  {
    SegmentsWithoutStarts(SyncSeg(scanners, restored, now), n);
  }

  /** The started steps of a run: the definitions before, the executed scanners, the two after. */
  lemma StartsOfRun(plan: Plan, texts: Texts, restored: set<string>, attempts: seq<Attempt>, now: Log.Time)
    ensures StartNames(RunOps(plan, texts, restored, attempts, now)) ==
            StartNames(BeforeOps(plan, texts, now))
              + StartNames(FlatN(ExecSeg(plan.scanners, restored, attempts, now), |plan.scanners|))
            + StartNames(AfterOps(texts, now))
  {
    var n, r := |plan.scanners|, |PlannedNames(plan)|;
    RegisteringIsQuiet(plan, r);
    DisablingIsQuiet(plan.scanners, now, n);
    SyncIsQuiet(plan.scanners, restored, now, n);
    NoStarts(TailPendingOps);
    OnlySomeStart(FlatN(RegisterSeg(plan), r), FlatN(DisableSeg(plan.scanners, now), n), BeforeOps(plan, texts, now),
                  FlatN(SyncSeg(plan.scanners, restored, now), n), TailPendingOps,
                  FlatN(ExecSeg(plan.scanners, restored, attempts, now), n), AfterOps(texts, now));
  }

  lemma JoinStarts(a: seq<Log.Op>, z: seq<Log.Op>, b: seq<Log.Op>, c: seq<Log.Op>, t: seq<Log.Op>, d: seq<Log.Op>,
      e: seq<Log.Op>)
    ensures StartNames(a + z + (b + c + t + d + e)) ==
            StartNames(a) + StartNames(z)
              + (StartNames(b) + StartNames(c) + StartNames(t) + StartNames(d) + StartNames(e))
  {
    StartNamesAppend(a + z, b + c + t + d + e);
    StartNamesAppend(a, z);
    StartNamesAppend(b + c + t + d, e);
    StartNamesAppend(b + c + t, d);
    StartNamesAppend(b + c, t);
    StartNamesAppend(b, c);
  }

  lemma {:induction false} PrefixInOrder(all: seq<string>, n: nat)
    requires n <= |all|
    ensures InOrder(all, all[..n], 0, n)
  {
    if n > 0 {
      PrefixInOrder(all, n - 1);
      InOrderSnoc(all, all[..n - 1], 0, n - 1, n);
      assert all[..n - 1] + [all[n - 1]] == all[..n];
    }
  }

  lemma TailInOrder(all: seq<string>, front: seq<string>, tail: seq<string>, n: nat)
    requires |tail| == 2 && |all| == n + 2 && all[n] == tail[0] && all[n + 1] == tail[1]
    requires InOrder(all, front, 0, n)
    ensures InOrder(all, front + tail, 0, n + 2)
  {
    InOrderSnoc(all, front, 0, n, n + 1);
    InOrderSnoc(all, front + [tail[0]], 0, n + 1, n + 2);
    assert front + [tail[0]] + [tail[1]] == front + tail;
  }

  lemma PlanEndsWith(plan: Plan)
    ensures
      var p, n := PlannedNames(plan), |BeforeNames(plan)| + |plan.scanners|;
      |p| == n + 2 && p[n] == ARTIFACTS && p[n + 1] == COMPLETION
  {
  }

  lemma StartsUpToScanners(plan: Plan, texts: Texts, restored: set<string>, attempts: seq<Attempt>, now: Log.Time)
    requires |attempts| == |plan.scanners|
    ensures InOrder(PlannedNames(plan), StartNames(BeforeOps(plan, texts, now)) +
                                        StartNames(FlatN(ExecSeg(plan.scanners, restored, attempts, now),
                                          |plan.scanners|)),
                    0, |BeforeNames(plan)| + |plan.scanners|)
  {
    var p, b := PlannedNames(plan), |BeforeNames(plan)|;
    StartsBefore(plan, texts, now);
    PrefixInOrder(p, b);
    assert p[..b] == BeforeNames(plan);
    ExecStartsInOrder(plan, restored, attempts, now, BeforeNames(plan));
  }

  lemma RunStartsInOrder(plan: Plan, texts: Texts, restored: set<string>, attempts: seq<Attempt>, now: Log.Time)
    requires |attempts| == |plan.scanners|
    ensures InOrder(PlannedNames(plan), StartNames(RunOps(plan, texts, restored, attempts, now)), 0,
        |PlannedNames(plan)|)
  {
    StartsOfRun(plan, texts, restored, attempts, now);
    StartsUpToScanners(plan, texts, restored, attempts, now);
    StartsAfter(texts, now);
    PlanEndsWith(plan);
    TailInOrder(PlannedNames(plan),
                StartNames(BeforeOps(plan, texts, now))
                  + StartNames(FlatN(ExecSeg(plan.scanners, restored, attempts, now), |plan.scanners|)),
                StartNames(AfterOps(texts, now)), |BeforeNames(plan)| + |plan.scanners|);
  }

  /** The first `n` planned steps, and none of the later ones, are registered under the numbers 1..n. */
  ghost predicate NumberedInOrder(w: Log.World, p: seq<string>, n: nat)
    requires n <= |p|
  {
    && SelfNamed(w) && w.counter == n
    && (forall i :: n <= i < |p| ==> p[i] !in w.steps)
    && forall i :: 0 <= i < n ==> p[i] in w.steps && w.steps[p[i]].number == i + 1
  }

  lemma NumberNext(w: Log.World, w': Log.World, op: Log.Op, p: seq<string>, n: nat)
    requires n < |p| && Distinct(p) && NumberedInOrder(w, p, n) && op.Register? && op.name == p[n]
        && w' == Log.Apply(w, op)
    ensures NumberedInOrder(w', p, n + 1)
  {
  }

  lemma NextSegmentNumbers(w: Log.World, seg: nat -> seq<Log.Op>, p: seq<string>, n: nat)
    requires Distinct(p) && RegistersInOrder(seg, p) && 0 < n <= |p|
    requires NumberedInOrder(ApplyAll(w, FlatN(seg, n - 1)), p, n - 1)
    ensures NumberedInOrder(ApplyAll(w, FlatN(seg, n)), p, n)
  {
    FlatNext(w, seg, n);
    NumberNext(ApplyAll(w, FlatN(seg, n - 1)), ApplyAll(w, FlatN(seg, n)), seg(n - 1)[0], p, n - 1);
  }

  /** On a fresh directory the planned steps are numbered in plan order. */
  lemma {:induction false} FreshNumbers(w: Log.World, seg: nat -> seq<Log.Op>, p: seq<string>, n: nat)
    requires SelfNamed(w) && w.steps == map[] && w.counter == 0 && Distinct(p) && RegistersInOrder(seg, p) && n <= |p|
    ensures NumberedInOrder(ApplyAll(w, FlatN(seg, n)), p, n)
  {
    if n > 0 {
      FreshNumbers(w, seg, p, n - 1);
      NextSegmentNumbers(w, seg, p, n);
    }
  }

  /** The operation calls start_step: it is one, or it works on an unknown step and starts it first. */
  predicate Enters(w: Log.World, op: Log.Op) {
    op.Start? || ((op.Finish? || op.StartSub?) && op.name !in w.steps)
  }

  /** The steps that enter RUNNING, one entry for each call of start_step. */
  function Entered(w: Log.World, ops: seq<Log.Op>): seq<string> {
    if ops == [] then []
    else
      var front, op := ops[..|ops| - 1], ops[|ops| - 1];
      Entered(w, front) + if Enters(ApplyAll(w, front), op) then [op.name] else []
  }

  lemma {:induction false} EnteredAppend(w: Log.World, a: seq<Log.Op>, b: seq<Log.Op>)
    ensures Entered(w, a + b) == Entered(w, a) + Entered(ApplyAll(w, a), b)
  {
    if b == [] {
      assert a + b == a;
    } else {
      assert (a + b)[..|a + b| - 1] == a + b[..|b| - 1];
      EnteredAppend(w, a, b[..|b| - 1]);
      ApplyAllAppend(w, a, b[..|b| - 1]);
    }
  }

  /** While no operation creates a step, exactly the explicit starts enter RUNNING. */
  lemma {:induction false} EnteredAreStarts(w: Log.World, ops: seq<Log.Op>)
    requires SelfNamed(w) && forall k :: 0 <= k < |ops| ==> CreatesNothing(w.steps.Keys, ops[k])
    ensures Entered(w, ops) == StartNames(ops)
  {
    if ops != [] {
      EnteredAreStarts(w, ops[..|ops| - 1]);
      TotalStays(w, ops[..|ops| - 1]);
    }
  }

  lemma {:induction false} RegisteringEntersNothing(w: Log.World, seg: nat -> seq<Log.Op>, p: seq<string>, n: nat)
    requires RegistersInOrder(seg, p) && n <= |p|
    ensures Entered(w, FlatN(seg, n)) == [] == StartNames(FlatN(seg, n))
  {
    if n > 0 {
      RegisteringEntersNothing(w, seg, p, n - 1);
      EnteredAppend(w, FlatN(seg, n - 1), seg(n - 1));
      StartNamesAppend(FlatN(seg, n - 1), seg(n - 1));
      assert seg(n - 1)[..0] == [];
    }
  }

  /** In a run a step enters RUNNING by its own start alone, whatever substeps the tools report. */
  lemma RunEntersByStarting(
    w: Log.World, plan: Plan, texts: Texts, restored: set<string>, attempts: seq<Attempt>, now: Log.Time)
    requires SelfNamed(w)
    ensures Entered(w, RunOps(plan, texts, restored, attempts, now)) ==
            StartNames(RunOps(plan, texts, restored, attempts, now))
  {
    var rest := AfterRegistration(plan, texts, restored, attempts, now);
    RunIsRegistrationAndRest(plan, texts, restored, attempts, now);
    RegisteringEntersNothing(w, RegisterSeg(plan), PlannedNames(plan), |PlannedNames(plan)|);
    EnteredAppend(w, Registrations(plan), rest);
    StartNamesAppend(Registrations(plan), rest);
    RestCreatesNothing(w, plan, texts, restored, attempts, now);
    RegisteredNames(w, plan);
    EnteredAreStarts(ApplyAll(w, Registrations(plan)), rest);
  }

  lemma {:induction false} InOrderAscends(all: seq<string>, names: seq<string>, lo: nat, hi: nat, number: string -> int)
    requires InOrder(all, names, lo, hi)
    requires forall i :: 0 <= i < |all| ==> number(all[i]) == i + 1
    ensures forall i :: 0 <= i < |names| ==> lo < number(names[i]) <= hi
    ensures forall i, j :: 0 <= i < j < |names| ==> number(names[i]) < number(names[j])
  {
    if names != [] {
      var k :| lo <= k < hi <= |all| && all[k] == names[|names| - 1] && InOrder(all, names[..|names| - 1], lo, k);
      InOrderAscends(all, names[..|names| - 1], lo, k, number);
      forall i | 0 <= i < |names|
        ensures lo < number(names[i]) <= hi && (i < |names| - 1 ==> number(names[i]) < number(names[|names| - 1]))
      {
        if i < |names| - 1 {
          assert names[..|names| - 1][i] == names[i];
        }
      }
      forall i, j | 0 <= i < j < |names| ensures number(names[i]) < number(names[j]) {
        if j < |names| - 1 {
          assert names[..|names| - 1][i] == names[i] && names[..|names| - 1][j] == names[j];
        }
      }
    }
  }

  function NumberIn(w: Log.World): string -> int {
    x => if x in w.steps then w.steps[x].number else 0
  }

  /** On a fresh results directory, steps enter RUNNING in increasing number order. */
  lemma StartsAscend(w: Log.World, plan: Plan, texts: Texts, restored: set<string>, attempts: seq<Attempt>,
      now: Log.Time)
    requires SelfNamed(w) && w.steps == map[] && w.counter == 0 && WellNamed(plan) && |attempts| == |plan.scanners|
    ensures
      var ops := RunOps(plan, texts, restored, attempts, now);
      var entered, number := Entered(w, ops), NumberIn(ApplyAll(w, ops));
      forall i, j :: 0 <= i < j < |entered| ==> 1 <= number(entered[i]) < number(entered[j])
  {
    var p := PlannedNames(plan);
    var ops := RunOps(plan, texts, restored, attempts, now);
    RunEntersByStarting(w, plan, texts, restored, attempts, now);
    RunNumbersPlan(w, plan, texts, restored, attempts, now);
    RunStartsInOrder(plan, texts, restored, attempts, now);
    InOrderAscends(p, StartNames(ops), 0, |p|, NumberIn(ApplyAll(w, ops)));
  }

  lemma PlanIsNumbered(w: Log.World, plan: Plan)
    requires SelfNamed(w) && w.steps == map[] && w.counter == 0 && WellNamed(plan)
    ensures NumberedInOrder(ApplyAll(w, Registrations(plan)), PlannedNames(plan), |PlannedNames(plan)|)
  {
    FreshNumbers(w, RegisterSeg(plan), PlannedNames(plan), |PlannedNames(plan)|);
  }

  lemma NumbersStay(w: Log.World, ops: seq<Log.Op>, p: seq<string>)
    requires NumberedInOrder(w, p, |p|)
    ensures forall i :: 0 <= i < |p| ==> NumberIn(ApplyAll(w, ops))(p[i]) == i + 1
  {
    forall i | 0 <= i < |p| ensures NumberIn(ApplyAll(w, ops))(p[i]) == i + 1 {
      ApplyAllOnStep(w, ops, p[i]);
    }
  }

  lemma RunNumbersPlan(w: Log.World, plan: Plan, texts: Texts, restored: set<string>, attempts: seq<Attempt>,
      now: Log.Time)
    requires SelfNamed(w) && w.steps == map[] && w.counter == 0 && WellNamed(plan)
    ensures
      var end := ApplyAll(w, RunOps(plan, texts, restored, attempts, now));
      forall i :: 0 <= i < |PlannedNames(plan)| ==> NumberIn(end)(PlannedNames(plan)[i]) == i + 1
  {
    PlanIsNumbered(w, plan);
    RunSplits(w, plan, texts, restored, attempts, now);
    NumbersStay(ApplyAll(w, Registrations(plan)), AfterRegistration(plan, texts, restored, attempts, now),
      PlannedNames(plan));
  }
}
