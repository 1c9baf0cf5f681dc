/** The progress that get_progress_percentage of scanner/core/step_registry.py reports, and what it says
    when a scan is over. */
module RunProgress {
  import opened CheckpointProtocol
  import opened Collections
  import opened RunPlan
  import opened RunCompletion
  import opened StepFields
  import Log = StepLog

  /** The nearest whole number, of two equally near ones the even one. */
  predicate Nearest(r: int, num: int, den: int) {
    && 2 * num - den <= 2 * r * den <= 2 * num + den
    && (2 * r * den == 2 * num - den || 2 * r * den == 2 * num + den ==> r % 2 == 0)
  }

  lemma RoundsToNearest(num: nat, den: nat)
    requires den > 0
    ensures Nearest(RoundHalfEven(num, den), num, den)
  {
    var q, r := num / den, num % den;
    assert num == q * den + r;
    assert (q + 1) * den == q * den + den;
    assert 2 * q * den == 2 * (q * den) && 2 * (q + 1) * den == 2 * (q * den) + 2 * den;
  }

  /** A step that ended, by itself or by a failure, counts 100, a running one 50, any other nothing; the progress is
      the mean over all steps, rounded. */
  lemma ProgressIs(w: Log.World)
    ensures w.counter == 0 ==> Progress(w) == 0
    ensures w.counter > 0 ==>
              Nearest(Progress(w),
                      100 * |set n | n in w.steps && w.steps[n].status in {Log.Completed, Log.Failed}| +
                      50 * |set n | n in w.steps && w.steps[n].status == Log.Running|, w.counter)
  {
    var completed, failed := WithStatus(w, Log.Completed), WithStatus(w, Log.Failed);
    assert (set n | n in w.steps && w.steps[n].status in {Log.Completed, Log.Failed}) == completed + failed;
    if w.counter > 0 {
      RoundsToNearest((2 * |completed| + 2 * |failed| + StatusCount(w, Log.Running)) * 50, w.counter);
    }
  }

  // ----- at the end of a scan -----

  ghost function NamesOf(p: seq<string>, n: nat): (names: set<string>)
    requires n <= |p|
    ensures forall x :: x in names ==> x in p
  {
    if n == 0 then {} else NamesOf(p, n - 1) + {p[n - 1]}
  }

  lemma {:induction false} NamesCount(p: seq<string>, n: nat)
    requires n <= |p| && Distinct(p)
    ensures |NamesOf(p, n)| == n && forall i :: n <= i < |p| ==> p[i] !in NamesOf(p, n)
  {
    if n > 0 {
      NamesCount(p, n - 1);
    }
  }

  /** On a fresh directory the registered steps are those of the plan. */
  lemma {:induction false} FreshSteps(w: Log.World, seg: nat -> seq<Log.Op>, p: seq<string>, n: nat)
    requires SelfNamed(w) && w.steps == map[] && RegistersInOrder(seg, p) && n <= |p|
    ensures ApplyAll(w, FlatN(seg, n)).steps.Keys == NamesOf(p, n)
  {
    if n > 0 {
      FreshSteps(w, seg, p, n - 1);
      RegisteredKeys(w, seg, p, n - 1);
      NextSegmentAdds(w, seg, p, n);
    }
  }

  lemma NextSegmentAdds(w: Log.World, seg: nat -> seq<Log.Op>, p: seq<string>, n: nat)
    requires RegistersInOrder(seg, p) && 0 < n <= |p|
    requires SelfNamed(ApplyAll(w, FlatN(seg, n - 1)))
    requires ApplyAll(w, FlatN(seg, n - 1)).steps.Keys == NamesOf(p, n - 1)
    ensures ApplyAll(w, FlatN(seg, n)).steps.Keys == NamesOf(p, n)
  {
    FlatNext(w, seg, n);
    OneMoreStep(ApplyAll(w, FlatN(seg, n - 1)), ApplyAll(w, FlatN(seg, n)), seg(n - 1)[0], p, n);
  }

  lemma OneMoreStep(w: Log.World, w': Log.World, op: Log.Op, p: seq<string>, n: nat)
    requires SelfNamed(w) && op.Register? && w' == Log.Apply(w, op) && 0 < n <= |p| && op.name == p[n - 1]
    requires w.steps.Keys == NamesOf(p, n - 1)
    ensures w'.steps.Keys == NamesOf(p, n)
  {
    RegisteringAdds(w, op);
  }

  /** The step as it was registered. */
  ghost predicate RegisteredBy(w: Log.World, op: Log.Op, number: nat) {
    && op.Register? && op.name in w.steps
    && w.steps[op.name] == Log.StepData(number, op.name, Log.Pending, op.message, None, None, [], op.timeoutSeconds)
  }

  ghost predicate AllRegistered(w: Log.World, seg: nat -> seq<Log.Op>, n: nat) {
    forall i :: 0 <= i < n ==> |seg(i)| == 1 && RegisteredBy(w, seg(i)[0], i + 1)
  }

  lemma {:induction false} FreshRegistered(w: Log.World, seg: nat -> seq<Log.Op>, p: seq<string>, n: nat)
    requires SelfNamed(w) && w.steps == map[] && w.counter == 0 && Distinct(p) && RegistersInOrder(seg, p) && n <= |p|
    ensures AllRegistered(ApplyAll(w, FlatN(seg, n)), seg, n)
  {
    if n > 0 {
      FreshRegistered(w, seg, p, n - 1);
      FreshNumbers(w, seg, p, n - 1);
      FlatNext(w, seg, n);
      NextRegistered(ApplyAll(w, FlatN(seg, n - 1)), ApplyAll(w, FlatN(seg, n)), seg, p, n);
    }
  }

  lemma NextRegistered(w: Log.World, w': Log.World, seg: nat -> seq<Log.Op>, p: seq<string>, n: nat)
    requires 0 < n <= |p| && Distinct(p) && RegistersInOrder(seg, p)
    requires AllRegistered(w, seg, n - 1) && NumberedInOrder(w, p, n - 1) && w' == Log.Apply(w, seg(n - 1)[0])
    ensures AllRegistered(w', seg, n)
  {
    UnknownStepDoes(w, seg(n - 1)[0]);
    forall i | 0 <= i < n - 1 ensures RegisteredBy(w', seg(i)[0], i + 1) {
      assert RegisteredBy(w, seg(i)[0], i + 1);
    }
  }

  /** On a fresh directory the planned steps are registered under their numbers, those of scanners with the timeout of
      the scanner, the others without one. */
  lemma PlanIsRegistered(w: Log.World, plan: Plan, i: nat)
    requires SelfNamed(w) && w.steps == map[] && w.counter == 0 && WellNamed(plan) && i < |PlannedNames(plan)|
    ensures
      var end, x := ApplyAll(w, Registrations(plan)), PlannedNames(plan)[i];
      && x in end.steps && end.steps[x].number == i + 1 && end.steps[x].status == Log.Pending
      && (FixedStep(plan, i) ==> end.steps[x].timeoutSeconds == None && end.steps[x].message == x + "... (pending)")
      && (!FixedStep(plan, i) ==>
            && end.steps[x].timeoutSeconds == Some(plan.scanners[i - |BeforeNames(plan)|].timeout)
            && end.steps[x].message == "Running " + x + " scan... (pending)")
  {
    var p, seg := PlannedNames(plan), RegisterSeg(plan);
    FreshRegistered(w, seg, p, |p|);
    assert RegisteredBy(ApplyAll(w, Registrations(plan)), seg(i)[0], i + 1);
  }

  /** The steps that a scan skipped. */
  function SkippedSteps(w: Log.World): set<string> {
    WithStatus(w, Log.Skipped)
  }

  /** When a scan of a fresh directory is over, the progress is the share of the steps that were not skipped: 100 if
      and only if at most one step in two hundred was. */
  lemma FinalProgress(
    w: Log.World, plan: Plan, texts: Texts, restored: set<string>, attempts: seq<Attempt>, now: Log.Time)
    requires SelfNamed(w) && w.steps == map[] && w.counter == 0 && WellNamed(plan) && |attempts| == |plan.scanners|
    ensures
      var end, total := ApplyAll(w, RunOps(plan, texts, restored, attempts, now)), |PlannedNames(plan)|;
      && end.counter == total
      && Nearest(Progress(end), 100 * (total - |SkippedSteps(end)|), total)
      && (Progress(end) == 100 <==> 200 * |SkippedSteps(end)| <= total)
  {
    var p, end := PlannedNames(plan), ApplyAll(w, RunOps(plan, texts, restored, attempts, now));
    EndSteps(w, plan, texts, restored, attempts, now);
    NamesCount(p, |p|);
    forall n | n in end.steps ensures Settled(end.steps[n].status) {
      var k :| 0 <= k < |p| && p[k] == n;
      EveryPlannedStepIsSettled(w, plan, texts, restored, attempts, now, k);
    }
    SettledProgress(end);
  }

  /** The progress once every step is settled. */
  lemma SettledProgress(w: Log.World)
    requires |w.steps.Keys| == w.counter > 0 && forall n :: n in w.steps ==> Settled(w.steps[n].status)
    ensures Nearest(Progress(w), 100 * (w.counter - |SkippedSteps(w)|), w.counter)
    ensures Progress(w) == 100 <==> 200 * |SkippedSteps(w)| <= w.counter
  {
    var ended := set n | n in w.steps && w.steps[n].status in {Log.Completed, Log.Failed};
    var running := set n | n in w.steps && w.steps[n].status == Log.Running;
    NoneRuns(w);
    ProgressIs(w);
    NearestHundred(Progress(w), |SkippedSteps(w)|, w.counter);
  }

  lemma NoneRuns(w: Log.World)
    requires forall n :: n in w.steps ==> Settled(w.steps[n].status)
    ensures (set n | n in w.steps && w.steps[n].status == Log.Running) == {}
    ensures |set n | n in w.steps && w.steps[n].status in {Log.Completed, Log.Failed}| ==
            |w.steps.Keys| - |SkippedSteps(w)|
  {
    forall n | n in w.steps
      ensures w.steps[n].status in {Log.Completed, Log.Failed} <==> w.steps[n].status != Log.Skipped
    {
    }
    assert (set n | n in w.steps && w.steps[n].status in {Log.Completed, Log.Failed}) ==
           w.steps.Keys - SkippedSteps(w);
    WithoutPart(w.steps.Keys, SkippedSteps(w));
  }

  lemma WithoutPart<T>(all: set<T>, part: set<T>)
    requires part <= all
    ensures |all - part| == |all| - |part|
  {
  }

  lemma NearestHundred(r: int, k: nat, total: nat)
    requires k <= total && total > 0 && Nearest(r, 100 * (total - k), total)
    ensures r == 100 <==> 200 * k <= total
  {
    if r <= 99 {
      Grows(r, 99, total);
      HundredMissed(r, r * total, k, total);
    } else if r > 100 {
      Grows(101, r, total);
      HundredMissed(r, r * total, k, total);
    }
  }

  lemma HundredMissed(r: int, x: int, k: nat, total: nat)
    requires total > 0 && 200 * (total - k) - total <= 2 * x <= 200 * (total - k) + total
    requires 2 * x == 200 * (total - k) - total ==> r % 2 == 0
    requires x == r * total && (if r <= 99 then x <= 99 * total else x >= 101 * total)
    ensures 200 * k > total
  {
    if x == 99 * total && r <= 99 {
      OnlyNinetyNine(r, total);
    }
  }

  lemma OnlyNinetyNine(r: int, total: nat)
    requires total > 0 && r * total == 99 * total && r <= 99
    ensures r == 99
  {
    if r <= 98 {
      Grows(r, 98, total);
    }
  }

  lemma Grows(a: int, b: int, c: nat)
    ensures a <= b ==> a * c <= b * c
  {
  }

  lemma EndSteps(w: Log.World, plan: Plan, texts: Texts, restored: set<string>, attempts: seq<Attempt>, now: Log.Time)
    requires SelfNamed(w) && w.steps == map[] && w.counter == 0 && WellNamed(plan)
    ensures
      var end, p := ApplyAll(w, RunOps(plan, texts, restored, attempts, now)), PlannedNames(plan);
      end.counter == |p| && end.steps.Keys == NamesOf(p, |p|)
  {
    var p, ops := PlannedNames(plan), AfterRegistration(plan, texts, restored, attempts, now);
    FreshNumbers(w, RegisterSeg(plan), p, |p|);
    FreshSteps(w, RegisterSeg(plan), p, |p|);
    RunSplits(w, plan, texts, restored, attempts, now);
    RegisteredNames(w, plan);
    RestCreatesNothing(w, plan, texts, restored, attempts, now);
    TotalStays(ApplyAll(w, Registrations(plan)), ops);
  }
}
