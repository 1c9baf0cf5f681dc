/** What the registry operations do to the fields of a step and its substeps, one operation at a time
    and over lists of them. */
module StepFields {
  import opened Collections
  import opened RunPlan
  import Log = StepLog

  // ----- substeps -----

  /** `i` is the first substep of that name, the one all calls work on. */
  ghost predicate FirstNamed(substeps: seq<Log.SubStep>, sub: string, i: nat) {
    i < |substeps| && substeps[i].name == sub && forall j :: 0 <= j < i ==> substeps[j].name != sub
  }

  ghost predicate Named(substeps: seq<Log.SubStep>, sub: string) {
    exists i :: 0 <= i < |substeps| && substeps[i].name == sub
  }

  /** The operation changes one step and nothing but its substeps. */
  ghost predicate OnlySubsteps(w: Log.World, w': Log.World, name: string)
    requires name in w.steps
  {
    && w'.steps.Keys == w.steps.Keys && w'.counter == w.counter
    && (forall n :: n in w.steps && n != name ==> w'.steps[n] == w.steps[n])
    && w'.steps[name] == w.steps[name].(substeps := w'.steps[name].substeps)
  }

  ghost predicate OnlyAt(before: seq<Log.SubStep>, after: seq<Log.SubStep>, i: nat) {
    |after| == |before| && forall j :: 0 <= j < |before| && j != i ==> after[j] == before[j]
  }

  /** Ending a substep: the first one of that name is COMPLETED, or FAILED if that is what is reported,
      at the time of the call, with the message if there is one; all else stays. */
  lemma EndSubDoes(w: Log.World, name: string, sub: string, failed: bool, message: string, now: Log.Time, i: nat)
    requires name in w.steps && SelfNamed(w) && FirstNamed(w.steps[name].substeps, sub, i)
    ensures
      var w' := Log.Apply(w, Log.EndSub(name, sub, failed, message, now));
      && OnlySubsteps(w, w', name)
      && var before, after := w.steps[name].substeps, w'.steps[name].substeps;
      && OnlyAt(before, after, i)
      && after[i].status == (if failed then Log.Failed else Log.Completed)
      && after[i].completedAt == Some(now) && after[i].startedAt == before[i].startedAt
      && after[i].message == (if message == "" then before[i].message else message)
      && after[i].name == sub && after[i].kind == before[i].kind
  {
    assert Log.FindSub(w.steps[name].substeps, sub) == Some(i);
  }

  /** Ending or updating a substep that is not there changes no step. */
  lemma UnknownSubstep(w: Log.World, name: string, sub: string, failed: bool, message: string, now: Log.Time)
    requires SelfNamed(w) && (name in w.steps ==> !Named(w.steps[name].substeps, sub))
    ensures Log.Apply(w, Log.EndSub(name, sub, failed, message, now)).steps == w.steps
    ensures Log.Apply(w, Log.UpdateSub(name, sub, message)).steps == w.steps
  {
    if name in w.steps {
      assert Log.FindSub(w.steps[name].substeps, sub) == None;
    }
  }

  lemma UpdateSubDoes(w: Log.World, name: string, sub: string, message: string, i: nat)
    requires name in w.steps && SelfNamed(w) && FirstNamed(w.steps[name].substeps, sub, i)
    ensures
      var w' := Log.Apply(w, Log.UpdateSub(name, sub, message));
      && OnlySubsteps(w, w', name)
      && var before, after := w.steps[name].substeps, w'.steps[name].substeps;
      && OnlyAt(before, after, i)
      && after[i] == before[i].(message := if message == "" then before[i].message else message)
  {
    assert Log.FindSub(w.steps[name].substeps, sub) == Some(i);
  }

  /** Starting a substep that is there: it is RUNNING from now on, with the kind given. */
  lemma RestartSubDoes(
    w: Log.World, name: string, sub: string, message: string, kind: Log.SubStepType, now: Log.Time, i: nat)
    requires name in w.steps && SelfNamed(w) && FirstNamed(w.steps[name].substeps, sub, i)
    ensures
      var w' := Log.Apply(w, Log.StartSub(name, sub, message, kind, now));
      && OnlySubsteps(w, w', name)
      && var before, after := w.steps[name].substeps, w'.steps[name].substeps;
      && OnlyAt(before, after, i)
      && after[i].status == Log.Running && after[i].startedAt == Some(now) && after[i].kind == kind
      && after[i].completedAt == before[i].completedAt && after[i].name == sub
      && after[i].message == (if message == "" then before[i].message else message)
  {
    assert Log.FindSub(w.steps[name].substeps, sub) == Some(i);
  }

  /** Starting a new one: it is added at the end. */
  lemma NewSubDoes(w: Log.World, name: string, sub: string, message: string, kind: Log.SubStepType, now: Log.Time)
    requires name in w.steps && SelfNamed(w) && !Named(w.steps[name].substeps, sub)
    ensures
      var w' := Log.Apply(w, Log.StartSub(name, sub, message, kind, now));
      && OnlySubsteps(w, w', name)
      && var text := if message == "" then "Running " + sub + "..." else message;
      w'.steps[name].substeps ==
      w.steps[name].substeps + [Log.SubStep(sub, Log.Running, text, Some(now), None, kind)]
  {
    assert Log.FindSub(w.steps[name].substeps, sub) == None;
  }

  // ----- the status of a substep over the calls of a tool -----

  /** The status of the first substep of that name. */
  ghost function SubStatus(w: Log.World, name: string, sub: string): Option<Log.StepStatus>
    requires name in w.steps
  {
    var i := Log.FindSub(w.steps[name].substeps, sub);
    if i.Some? then Some(w.steps[name].substeps[i.value].status) else None
  }

  predicate StartsOrEnds(call: SubCall, sub: string) {
    (call.SubStarts? || call.SubEnds?) && call.sub == sub
  }

  /** What one such call makes of the status: a start always counts, an end only for a known substep. */
  function StatusBy(call: SubCall, known: bool): Option<Log.StepStatus>
    requires call.SubStarts? || call.SubEnds?
  {
    if call.SubStarts? then Some(Log.Running)
    else if !known then None
    else Some(if call.failed then Log.Failed else Log.Completed)
  }

  lemma FindIs(substeps: seq<Log.SubStep>, sub: string, i: nat)
    requires FirstNamed(substeps, sub, i)
    ensures Log.FindSub(substeps, sub) == Some(i)
  {
  }

  lemma NewSubStatus(w: Log.World, name: string, call: SubCall, now: Log.Time, sub: string)
    requires name in w.steps && SelfNamed(w) && call.SubStarts? && !Named(w.steps[name].substeps, call.sub)
    ensures
      var w' := Log.Apply(w, CallOp(name, call, now));
      && name in w'.steps
      && SubStatus(w', name, sub) == if call.sub == sub then Some(Log.Running) else SubStatus(w, name, sub)
  {
    NewSubDoes(w, name, call.sub, call.message, call.kind, now);
    var added := Log.SubStep(call.sub, Log.Running, Log.Or(call.message, "Running " + call.sub + "..."), Some(now),
      None,
                             call.kind);
    FoundAfterAdding(w.steps[name].substeps, added, sub);
    if call.sub == sub {
      assert Log.FindSub(w.steps[name].substeps, sub) == None;
    }
  }

  lemma {:induction false} FoundAfterAdding(before: seq<Log.SubStep>, added: Log.SubStep, sub: string)
    ensures Log.FindSub(before + [added], sub) ==
            if Log.FindSub(before, sub).Some? then Log.FindSub(before, sub)
            else if added.name == sub then Some(|before|) else None
  {
    if before == [] {
      assert before + [added] == [added] && [added][1..] == [];
    } else {
      assert (before + [added])[1..] == before[1..] + [added];
      FoundAfterAdding(before[1..], added, sub);
    }
  }

  lemma KnownSubStatus(w: Log.World, name: string, call: SubCall, now: Log.Time, sub: string, i: nat)
    requires name in w.steps && SelfNamed(w) && FirstNamed(w.steps[name].substeps, call.sub, i)
    ensures
      var w' := Log.Apply(w, CallOp(name, call, now));
      && name in w'.steps
      && SubStatus(w', name, sub) ==
         if StartsOrEnds(call, sub) then StatusBy(call, true) else SubStatus(w, name, sub)
  {
    KnownCallChanges(w, name, call, now, i);
    FindIs(w.steps[name].substeps, call.sub, i);
    SameNames(w.steps[name].substeps, Log.Apply(w, CallOp(name, call, now)).steps[name].substeps, sub);
  }

  lemma SameNames(before: seq<Log.SubStep>, after: seq<Log.SubStep>, sub: string)
    requires |after| == |before| && forall j :: 0 <= j < |before| ==> after[j].name == before[j].name
    ensures Log.FindSub(after, sub) == Log.FindSub(before, sub)
  {
    var own := Log.FindSub(before, sub);
    if own.Some? {
      FindIs(after, sub, own.value);
    } else {
      assert Log.FindSub(after, sub) == None;
    }
  }

  lemma CallChangesStatus(w: Log.World, name: string, call: SubCall, now: Log.Time, sub: string)
    requires name in w.steps && SelfNamed(w)
    ensures
      var w' := Log.Apply(w, CallOp(name, call, now));
      && name in w'.steps && SelfNamed(w')
      && SubStatus(w', name, sub) ==
         if StartsOrEnds(call, sub) then StatusBy(call, SubStatus(w, name, sub).Some?) else SubStatus(w, name, sub)
  {
    var i := Log.FindSub(w.steps[name].substeps, call.sub);
    SameStep(w, CallOp(name, call, now));
    if i.Some? {
      KnownSubStatus(w, name, call, now, sub, i.value);
    } else if call.SubStarts? {
      NewSubStatus(w, name, call, now, sub);
    } else {
      UnknownSubstep(w, name, call.sub, call.SubEnds? && call.failed, call.message, now);
    }
  }

  lemma KnownCallChanges(w: Log.World, name: string, call: SubCall, now: Log.Time, i: nat)
    requires name in w.steps && SelfNamed(w) && FirstNamed(w.steps[name].substeps, call.sub, i)
    ensures
      var w' := Log.Apply(w, CallOp(name, call, now));
      && name in w'.steps && OnlyAt(w.steps[name].substeps, w'.steps[name].substeps, i)
      && w'.steps[name].substeps[i].name == call.sub
      && w'.steps[name].substeps[i].status ==
         if call.SubUpdates? then w.steps[name].substeps[i].status else StatusBy(call, true).value
  {
    match call {
      case SubStarts(sub, message, kind) => RestartSubDoes(w, name, sub, message, kind, now, i);
      case SubEnds(sub, failed, message) => EndSubDoes(w, name, sub, failed, message, now, i);
      case SubUpdates(sub, message) => UpdateSubDoes(w, name, sub, message, i);
    }
  }

  lemma {:induction false} OtherCallsKeepStatus(w: Log.World, name: string, calls: seq<SubCall>, now: Log.Time,
      sub: string)
    requires name in w.steps && SelfNamed(w) && forall k :: 0 <= k < |calls| ==> !StartsOrEnds(calls[k], sub)
    ensures
      var w' := ApplyAll(w, CallOps(name, calls, now));
      name in w'.steps && SelfNamed(w') && SubStatus(w', name, sub) == SubStatus(w, name, sub)
  {
    if calls != [] {
      var n := |calls| - 1;
      OtherCallsKeepStatus(w, name, calls[..n], now, sub);
      assert CallOps(name, calls, now)[..n] == CallOps(name, calls[..n], now);
      CallChangesStatus(ApplyAll(w, CallOps(name, calls[..n], now)), name, calls[n], now, sub);
    }
  }

  lemma AppliedInTurn(w: Log.World, a: seq<Log.Op>, op: Log.Op, b: seq<Log.Op>)
    ensures ApplyAll(w, a + [op] + b) == ApplyAll(Log.Apply(ApplyAll(w, a), op), b)
  {
    ApplyAllAppend(w, a + [op], b);
    assert (a + [op])[..|a|] == a;
  }

  /** Over all calls of a tool the status of a substep is fixed by the last call that starts or ends it:
      RUNNING after a start, COMPLETED or FAILED after an end of a substep that was there. */
  lemma LastCallDecides(w: Log.World, name: string, a: seq<SubCall>, call: SubCall, b: seq<SubCall>, now: Log.Time,
                        sub: string)
    requires name in w.steps && SelfNamed(w) && StartsOrEnds(call, sub)
    requires forall k :: 0 <= k < |b| ==> !StartsOrEnds(b[k], sub)
    ensures
      var w1, w' := ApplyAll(w, CallOps(name, a, now)), ApplyAll(w, CallOps(name, a + [call] + b, now));
      && name in w1.steps && name in w'.steps
      && SubStatus(w', name, sub) == StatusBy(call, SubStatus(w1, name, sub).Some?)
  {
    ApplyAllOnStep(w, CallOps(name, a, now), name);
    var w1 := ApplyAll(w, CallOps(name, a, now));
    CallChangesStatus(w1, name, call, now, sub);
    OtherCallsKeepStatus(Log.Apply(w1, CallOp(name, call, now)), name, b, now, sub);
    CallsInTurn(w, name, a, call, b, now);
  }

  predicate StartedIn(calls: seq<SubCall>, sub: string) {
    exists k :: 0 <= k < |calls| && calls[k].SubStarts? && calls[k].sub == sub
  }

  lemma KnownAfterCall(w: Log.World, name: string, call: SubCall, now: Log.Time, sub: string)
    requires name in w.steps && SelfNamed(w)
    requires (call.SubStarts? && call.sub == sub) || SubStatus(w, name, sub).Some?
    ensures
      var w' := Log.Apply(w, CallOp(name, call, now));
      name in w'.steps && SubStatus(w', name, sub).Some?
  {
    CallChangesStatus(w, name, call, now, sub);
  }

  lemma StartedBefore(calls: seq<SubCall>, sub: string)
    requires calls != [] && StartedIn(calls, sub)
    ensures
      var last := calls[|calls| - 1];
      (last.SubStarts? && last.sub == sub) || StartedIn(calls[..|calls| - 1], sub)
  {
    var k :| 0 <= k < |calls| && calls[k].SubStarts? && calls[k].sub == sub;
    assert k < |calls| - 1 ==> calls[..|calls| - 1][k] == calls[k];
  }

  /** A substep that a call started is there when the calls are over. */
  lemma {:induction false} StartedIsKnown(w: Log.World, name: string, calls: seq<SubCall>, now: Log.Time, sub: string)
    requires name in w.steps && SelfNamed(w) && StartedIn(calls, sub)
    ensures
      var w' := ApplyAll(w, CallOps(name, calls, now));
      name in w'.steps && SelfNamed(w') && SubStatus(w', name, sub).Some?
  {
    var n := |calls| - 1;
    assert CallOps(name, calls, now)[..n] == CallOps(name, calls[..n], now);
    StartedBefore(calls, sub);
    if StartedIn(calls[..n], sub) {
      StartedIsKnown(w, name, calls[..n], now, sub);
    }
    ApplyAllOnStep(w, CallOps(name, calls, now), name);
    ApplyAllOnStep(w, CallOps(name, calls[..n], now), name);
    KnownAfterCall(ApplyAll(w, CallOps(name, calls[..n], now)), name, calls[n], now, sub);
  }

  lemma CallsInTurn(w: Log.World, name: string, a: seq<SubCall>, call: SubCall, b: seq<SubCall>, now: Log.Time)
    ensures ApplyAll(w, CallOps(name, a + [call] + b, now)) ==
            ApplyAll(Log.Apply(ApplyAll(w, CallOps(name, a, now)), CallOp(name, call, now)), CallOps(name, b, now))
  {
    var op := CallOp(name, call, now);
    assert CallOps(name, a + [call] + b, now) == CallOps(name, a, now) + [op] + CallOps(name, b, now);
    AppliedInTurn(w, CallOps(name, a, now), op, CallOps(name, b, now));
  }

  // ----- steps -----

  /** Registering a known step again leaves it as it is. */
  lemma RegisterAgain(w: Log.World, name: string, message: string, timeout: Option<int>)
    requires name in w.steps
    ensures Log.Apply(w, Log.Register(name, message, timeout)) == w
  {
  }

  /** The operation changes this step and no other. */
  ghost predicate OnlyStep(w: Log.World, w': Log.World, name: string)
    requires name in w.steps
  {
    && w'.steps.Keys == w.steps.Keys && w'.counter == w.counter
    && (forall n :: n in w.steps && n != name ==> w'.steps[n] == w.steps[n])
    && w'.steps[name].number == w.steps[name].number && w'.steps[name].name == w.steps[name].name
    && w'.steps[name].timeoutSeconds == w.steps[name].timeoutSeconds
  }

  lemma StartDoes(w: Log.World, name: string, message: string, now: Log.Time)
    requires name in w.steps && SelfNamed(w)
    ensures
      var w' := Log.Apply(w, Log.Start(name, message, now));
      && OnlyStep(w, w', name)
      && var d, d' := w.steps[name], w'.steps[name];
      && d'.status == Log.Running && d'.startedAt == Some(now) && d'.completedAt == d.completedAt
      && d'.message == d.message && d'.substeps == d.substeps
  {
  }

  lemma FinishDoes(w: Log.World, name: string, failed: bool, message: string, now: Log.Time)
    requires name in w.steps && SelfNamed(w)
    ensures
      var w' := Log.Apply(w, Log.Finish(name, failed, message, now));
      && OnlyStep(w, w', name)
      && var d, d' := w.steps[name], w'.steps[name];
      && d'.status == (if failed then Log.Failed else Log.Completed)
      && d'.completedAt == Some(now) && d'.startedAt == d.startedAt && d'.substeps == d.substeps
      && d'.message == (if message == "" then d.message else message)
  {
  }

  lemma SkipDoes(w: Log.World, name: string, reason: string, now: Log.Time)
    requires name in w.steps && SelfNamed(w)
    ensures
      var w' := Log.Apply(w, Log.Skip(name, reason, now));
      && OnlyStep(w, w', name)
      && var d, d' := w.steps[name], w'.steps[name];
      && d'.status == Log.Skipped && d'.completedAt == Some(now) && d'.startedAt == d.startedAt
      && d'.substeps == d.substeps && d'.message == (if reason == "" then d.message else reason)
  {
  }

  /** Only a skipped step does not go back to PENDING. */
  lemma SetPendingDoes(w: Log.World, name: string)
    requires name in w.steps && SelfNamed(w)
    ensures
      var w' := Log.Apply(w, Log.SetPending(name));
      && OnlyStep(w, w', name)
      && var d, d' := w.steps[name], w'.steps[name];
      && (d.status == Log.Skipped ==> d' == d)
      && (d.status != Log.Skipped ==>
            && d'.status == Log.Pending && d'.startedAt == None && d'.completedAt == None
            && d'.substeps == [] && d'.message == name + "... (pending)")
  {
  }

  lemma RestoreDoes(w: Log.World, name: string, reason: string, now: Log.Time)
    requires name in w.steps && SelfNamed(w)
    ensures
      var w' := Log.Apply(w, Log.Restore(name, reason, now));
      && OnlyStep(w, w', name)
      && var d' := w'.steps[name];
      && d'.status == Log.Completed && d'.startedAt == Some(now) && d'.completedAt == Some(now) && d'.substeps == []
      && d'.message == "Restored from checkpoint (artifact + config verified)" +
                       if reason == "" || reason == "ok" then "" else " (" + reason + ")"
  {
  }

  /** On an unknown name, exactly registering, starting, finishing, skipping and starting a substep
      create the step, under the next number. */
  lemma UnknownStepDoes(w: Log.World, op: Log.Op)
    requires SelfNamed(w) && op.name !in w.steps
    ensures
      var w' := Log.Apply(w, op);
      && (op.SetPending? || op.Restore? || op.EndSub? || op.UpdateSub? ==> w' == w)
      && (op.Register? || op.Start? || op.Finish? || op.Skip? || op.StartSub? ==>
            && w'.steps.Keys == w.steps.Keys + {op.name} && w'.counter == w.counter + 1
            && (forall n :: n in w.steps ==> w'.steps[n] == w.steps[n])
            && var d := w'.steps[op.name];
            && d.number == w.counter + 1 && d.name == op.name
            && (op.Register? ==>
                  d.status == Log.Pending && d.startedAt == None && d.timeoutSeconds == op.timeoutSeconds
                  && d.message == op.message)
            && (op.Start? || op.StartSub? ==> d.status == Log.Running && d.startedAt == Some(op.now))
            && (op.Finish? ==> d.status == (if op.failed then Log.Failed else Log.Completed))
            && (op.Skip? ==> d.status == Log.Skipped)
            && (op.Finish? || op.Skip? ==> d.startedAt == Some(op.now) && d.completedAt == Some(op.now)))
  {
  }

  // ----- the last operation on a step -----

  lemma {:induction false} OthersLeaveStep(w: Log.World, ops: seq<Log.Op>, x: string)
    requires x in w.steps && SelfNamed(w) && forall k :: 0 <= k < |ops| ==> ops[k].name != x
    ensures x in ApplyAll(w, ops).steps && ApplyAll(w, ops).steps[x] == w.steps[x] && SelfNamed(ApplyAll(w, ops))
  {
    if ops != [] {
      var n := |ops| - 1;
      OthersLeaveStep(w, ops[..n], x);
      OtherStep(ApplyAll(w, ops[..n]), ops[n], x);
    }
  }

  /** The state of a step is that after the last operation on it. */
  lemma LastOpDecides(w: Log.World, a: seq<Log.Op>, op: Log.Op, b: seq<Log.Op>, x: string)
    requires x in w.steps && SelfNamed(w) && forall k :: 0 <= k < |b| ==> b[k].name != x
    ensures
      var w1 := ApplyAll(w, a);
      && x in w1.steps && SelfNamed(w1) && x in Log.Apply(w1, op).steps
      && x in ApplyAll(w, a + [op] + b).steps
      && ApplyAll(w, a + [op] + b).steps[x] == Log.Apply(w1, op).steps[x]
  {
    ApplyAllOnStep(w, a, x);
    ApplyOnStep(ApplyAll(w, a), op, x);
    OthersLeaveStep(Log.Apply(ApplyAll(w, a), op), b, x);
    AppliedInTurn(w, a, op, b);
  }

  // ----- reload -----

  /** A readable line of the step; lines without a number or a name are skipped. */
  predicate LineOf(line: Log.LogLine, x: string) {
    line.Logged? && line.step.number != 0 && line.step.name == x && x != ""
  }

  ghost predicate FirstLine(log: seq<Log.LogLine>, i: nat, x: string) {
    i < |log| && LineOf(log[i], x) && forall k :: 0 <= k < i ==> !LineOf(log[k], x)
  }

  ghost predicate LastLine(log: seq<Log.LogLine>, j: nat, x: string) {
    j < |log| && LineOf(log[j], x) && forall k :: j < k < |log| ==> !LineOf(log[k], x)
  }

  /** A reloaded step is its first line with the substeps of its last one. */
  lemma {:induction false} LoadIs(log: seq<Log.LogLine>, x: string, i: nat, j: nat)
    requires FirstLine(log, i, x) && LastLine(log, j, x)
    ensures x in Log.Load(log).steps
    ensures Log.Load(log).steps[x] == log[i].step.(substeps := log[j].step.substeps)
  {
    var n := |log| - 1;
    var front := log[..n];
    if j == n {
      if i == n {
        NotLoaded(front, x);
      } else {
        var k := LastBefore(front, x, i);
        LoadIs(front, x, i, k);
      }
    } else {
      LoadIs(front, x, i, j);
    }
  }

  lemma {:induction false} NotLoaded(log: seq<Log.LogLine>, x: string)
    requires forall k :: 0 <= k < |log| ==> !LineOf(log[k], x)
    ensures x !in Log.Load(log).steps
  {
    if log != [] {
      NotLoaded(log[..|log| - 1], x);
    }
  }

  lemma LastBefore(log: seq<Log.LogLine>, x: string, i: nat) returns (j: nat)
    requires FirstLine(log, i, x)
    ensures LastLine(log, j, x)
  {
    j := |log| - 1;
    while !LineOf(log[j], x)
      invariant i <= j < |log| && forall k :: j < k < |log| ==> !LineOf(log[k], x)
      decreases j
    {
      j := j - 1;
    }
  }
}
