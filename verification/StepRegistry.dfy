/** The registry object of scanner/core/step_registry.py: a dictionary of shared, mutable steps.
    Every method is proved against the machine of module StepLog. */
module StepRegistry {
  import opened Collections
  import opened StepLog

  class Step {
    const number: nat
    const name: string
    var status: StepStatus
    var message: string
    var startedAt: Option<Time>
    var completedAt: Option<Time>
    var substeps: seq<SubStep>
    const timeoutSeconds: Option<int>

    constructor (d: StepData)
      ensures Data() == d
    {
      number, name, status, message := d.number, d.name, d.status, d.message;
      startedAt, completedAt, substeps, timeoutSeconds := d.startedAt, d.completedAt, d.substeps, d.timeoutSeconds;
    }

    method Finish(failed: bool, message: string, now: Time)
      modifies this
      ensures Data() == Finished(old(Data()), failed, message, now)
    {
      status := if failed then Failed else Completed;
      completedAt := Some(now);
      if message != "" {
        this.message := message;
      }
    }

    /** The search loop over the substeps. */
    method IndexOfSubstep(sub: string) returns (index: Option<nat>)
      ensures index == FindSub(substeps, sub)
    {
      for i := 0 to |substeps|
        invariant forall j :: 0 <= j < i ==> substeps[j].name != sub
      {
        if substeps[i].name == sub {
          return Some(i);
        }
      }
      index := None;
    }

    method StartSubstep(sub: string, message: string, kind: SubStepType, now: Time)
      modifies this
      ensures Data() == SubStarted(old(Data()), sub, message, kind, now)
    {
      var i := IndexOfSubstep(sub);
      if i.Some? {
        var s := substeps[i.value];
        s := s.(status := Running, startedAt := Some(now), kind := kind);
        if message != "" {
          s := s.(message := message);
        }
        substeps := substeps[i.value := s];
      } else {
        substeps := substeps + [SubStep(sub, Running, Or(message, "Running " + sub + "..."), Some(now), None, kind)];
      }
    }

    method EndSubstep(sub: string, failed: bool, message: string, now: Time)
      modifies this
      ensures Data() == SubEnded(old(Data()), sub, failed, message, now)
    {
      var i := IndexOfSubstep(sub);
      if i.Some? {
        var s := substeps[i.value].(status := if failed then Failed else Completed, completedAt := Some(now));
        if message != "" {
          s := s.(message := message);
        }
        substeps := substeps[i.value := s];
      }
    }

    method UpdateSubstep(sub: string, message: string)
      modifies this
      ensures Data() == SubUpdated(old(Data()), sub, message)
    {
      var i := IndexOfSubstep(sub);
      if i.Some? && message != "" {
        substeps := substeps[i.value := substeps[i.value].(message := message)];
      }
    }

    function Data(): (d: StepData)
      reads this
      ensures d.number == number && d.name == name
    {
      StepData(number, name, status, message, startedAt, completedAt, substeps, timeoutSeconds)
    }
  }

  class StepRegistry {
    var steps: map<string, Step>
    var stepCounter: nat
    /** Scheduled upserts hold the step object itself. */
    var tasks: seq<Step>
    var stepsLog: seq<LogLine>
    var rows: map<nat, Row>
    ghost var touched: set<string>
    ghost var seen: map<nat, seq<StepData>>

    /** Steps sit under their own names, so different names are different objects. */
    ghost predicate Valid()
      reads this, steps.Values
    {
      && (forall n :: n in steps ==> steps[n].name == n)
      && (forall i :: 0 <= i < |tasks| ==> tasks[i].name in steps && steps[tasks[i].name] == tasks[i])
    }

    ghost function Names(): seq<string>
      reads this
    {
      seq(|tasks|, i requires 0 <= i < |tasks| reads this => tasks[i].name)
    }

    ghost function View(): World
      reads this, steps.Values
    {
      World(true, map n | n in steps :: steps[n].Data(), stepCounter, Names(), touched, stepsLog, rows, seen)
    }

    /** A fresh process over an existing log and database. */
    constructor (log: seq<LogLine>, database: map<nat, Row>, ghost history: map<nat, seq<StepData>>)
      requires Numbering(Load(log))
      ensures Valid() && fresh(steps.Values)
      ensures View() == Next(FreshWorld.(log := log, rows := database, seen := history), Boot)
    {
      steps, stepCounter, tasks := map[], 0, [];
      stepsLog, rows, touched, seen := log, database, {}, history;
      new;
      if log == [] {
        stepsLog := [Init];
      } else {
        for i := 0 to |log|
          modifies this, steps.Values
          invariant Valid() && fresh(steps.Values) && tasks == [] && touched == {}
          invariant stepsLog == log && rows == database && seen == history
          invariant Memory(View().steps, stepCounter) == Load(log[..i])
        {
          LoadSnoc(log[..i], log[i]);
          assert log[..i + 1] == log[..i] + [log[i]];
          LoadLogLine(log[i]);
        }
        assert log[..|log|] == log;
      }
    }

    method LoadLogLine(line: LogLine)
      requires Valid() && tasks == []
      modifies this, steps.Values
      ensures Valid() && tasks == [] && fresh(steps.Values - old(steps.Values))
      ensures touched == old(touched) && stepsLog == old(stepsLog) && rows == old(rows) && seen == old(seen)
      ensures Memory(View().steps, stepCounter) == LoadLine(old(Memory(View().steps, stepCounter)), line)
    {
      if !line.Logged? || line.step.number == 0 || line.step.name == "" {
        return;
      }
      var d := line.step;
      if d.name !in steps {
        var step := new Step(d);
        steps := steps[d.name := step];
        if d.number > stepCounter {
          stepCounter := d.number;
        }
      } else {
        steps[d.name].substeps := d.substeps;
      }
      ghost var m := LoadLine(old(Memory(View().steps, stepCounter)), line);
      assert View().steps == m.steps;
    }

    /** _write_to_log: one line, then one scheduled upsert that keeps a reference to the step. */
    method WriteToLog(step: Step)
      requires Valid() && step.name in steps && steps[step.name] == step
      modifies this
      ensures Valid() && steps == old(steps) && stepCounter == old(stepCounter)
      ensures View() == old(View()).(log := old(stepsLog) + [Logged(step.Data())], tasks := old(Names()) + [step.name],
                                     touched := old(touched) + {step.name})
    {
      stepsLog := stepsLog + [Logged(step.Data())];
      tasks := tasks + [step];
      touched := touched + {step.name};
      assert Names() == old(Names()) + [step.name];
    }

    /** Publishes a step whose fields have just changed: all else is as in `before`. */
    method Publish(step: Step, ghost before: World)
      requires Valid() && step.name in steps && steps[step.name] == step
      requires before == View().(steps := before.steps) && before.steps.Keys == steps.Keys
      requires forall n :: n in steps && n != step.name ==> before.steps[n] == steps[n].Data()
      modifies this
      ensures Valid() && steps == old(steps)
      ensures View() == Write(before, step.Data())
    {
      assert View().steps == before.steps[step.name := step.Data()];
      WriteToLog(step);
    }

    /** A new step under the next number. */
    method Add(d: StepData) returns (step: Step)
      requires Valid() && d.name !in steps && d.number == stepCounter + 1
      modifies this
      ensures Valid() && fresh(step) && steps == old(steps)[d.name := step]
      ensures step.name == d.name && step.Data() == d
      ensures View() == old(View()).(steps := old(View()).steps[d.name := d], counter := d.number)
    {
      stepCounter := stepCounter + 1;
      step := new Step(d);
      steps := steps[d.name := step];
      assert View().steps == old(View()).steps[d.name := d];
      assert Names() == old(Names());
    }

    /** A new step and its first log line. */
    method Create(d: StepData)
      requires Valid() && d.name !in steps && d.number == stepCounter + 1
      modifies this
      ensures Valid() && steps.Keys == old(steps.Keys) + {d.name} && fresh(steps.Values - old(steps.Values))
      ensures View() == Write(old(View()), d)
    {
      var step := Add(d);
      WriteToLog(step);
    }

    method RegisterStep(name: string, message: string, timeoutSeconds: Option<int>)
      requires Valid()
      modifies this, steps.Values
      ensures Valid() && fresh(steps.Values - old(steps.Values))
      ensures View() == AfterRegister(old(View()), name, message, timeoutSeconds)
    {
      if name !in steps {
        Create(StepData(stepCounter + 1, name, Pending, message, None, None, [], timeoutSeconds));
      }
    }

    method StartStep(name: string, message: string, now: Time) returns (number: nat)
      requires Valid()
      modifies this, steps.Values
      ensures Valid() && fresh(steps.Values - old(steps.Values))
      ensures View() == AfterStart(old(View()), name, message, now)
      ensures name in steps && number == steps[name].number
    {
      if name !in steps {
        Create(StepData(stepCounter + 1, name, Running, Or(message, "Running " + name + "..."), Some(now), None, [],
          None));
        return steps[name].number;
      }
      var step := steps[name];
      step.status := Running;
      step.startedAt := Some(now);
      Publish(step, old(View()));
      number := step.number;
    }

    /** Operations on an unknown step start it first. */
    method EnsureStep(name: string, message: string, now: Time)
      requires Valid()
      modifies this, steps.Values
      ensures Valid() && fresh(steps.Values - old(steps.Values))
      ensures View() == EnsureStarted(old(View()), name, message, now) && name in steps
    {
      if name !in steps {
        var _ := StartStep(name, message, now);
      }
    }

    method FinishStep(name: string, failed: bool, message: string, now: Time)
      requires Valid()
      modifies this, steps.Values
      ensures Valid() && fresh(steps.Values - old(steps.Values))
      ensures View() == AfterFinish(old(View()), name, failed, message, now)
    {
      EnsureStep(name, message, now);
      ghost var before := View();
      var step := steps[name];
      step.Finish(failed, message, now);
      assert step.Data() == Finished(before.steps[name], failed, message, now);
      Publish(step, before);
    }

    method CompleteStep(name: string, message: string, now: Time)
      requires Valid()
      modifies this, steps.Values
      ensures Valid() && fresh(steps.Values - old(steps.Values))
      ensures View() == AfterFinish(old(View()), name, false, message, now)
    {
      FinishStep(name, false, message, now);
    }

    method FailStep(name: string, message: string, now: Time)
      requires Valid()
      modifies this, steps.Values
      ensures Valid() && fresh(steps.Values - old(steps.Values))
      ensures View() == AfterFinish(old(View()), name, true, message, now)
    {
      FinishStep(name, true, message, now);
    }

    method SkipStep(name: string, reason: string, now: Time)
      requires Valid()
      modifies this, steps.Values
      ensures Valid() && fresh(steps.Values - old(steps.Values))
      ensures View() == AfterSkip(old(View()), name, reason, now)
    {
      if name !in steps {
        Create(StepData(stepCounter + 1, name, Skipped, Or(reason, name + " skipped"), Some(now), Some(now), [], None));
      } else {
        var step := steps[name];
        step.status := Skipped;
        step.completedAt := Some(now);
        if reason != "" {
          step.message := reason;
        }
        Publish(step, old(View()));
      }
    }

    method SetStepPendingForRun(name: string)
      requires Valid()
      modifies this, steps.Values
      ensures Valid() && fresh(steps.Values - old(steps.Values))
      ensures View() == AfterSetPending(old(View()), name)
    {
      if name !in steps || steps[name].status == Skipped {
        return;
      }
      var step := steps[name];
      step.status := Pending;
      step.message := name + "... (pending)";
      step.startedAt, step.completedAt, step.substeps := None, None, [];
      Publish(step, old(View()));
    }

    method ApplyCheckpointRestoredStep(name: string, reason: string, now: Time)
      requires Valid()
      modifies this, steps.Values
      ensures Valid() && fresh(steps.Values - old(steps.Values))
      ensures View() == AfterRestore(old(View()), name, reason, now)
    {
      if name !in steps {
        return;
      }
      ghost var before := View();
      var step := steps[name];
      step.status := Completed;
      step.startedAt, step.completedAt, step.substeps := Some(now), Some(now), [];
      step.message := RestoredMessage(reason);
      assert step.Data() == Restored(before.steps[name], reason, now);
      Publish(step, before);
    }

    method StartSubstep(name: string, sub: string, message: string, kind: SubStepType, now: Time)
      requires Valid()
      modifies this, steps.Values
      ensures Valid() && fresh(steps.Values - old(steps.Values))
      ensures View() == AfterStartSub(old(View()), name, sub, message, kind, now)
    {
      EnsureStep(name, "Running " + name + "...", now);
      ghost var before := View();
      var step := steps[name];
      step.StartSubstep(sub, message, kind, now);
      assert step.Data() == SubStarted(before.steps[name], sub, message, kind, now);
      Publish(step, before);
    }

    method EndSubstep(name: string, sub: string, failed: bool, message: string, now: Time)
      requires Valid()
      modifies this, steps.Values
      ensures Valid() && fresh(steps.Values - old(steps.Values))
      ensures View() == AfterEndSub(old(View()), name, sub, failed, message, now)
    {
      if name !in steps {
        return;
      }
      ghost var before := View();
      var step := steps[name];
      step.EndSubstep(sub, failed, message, now);
      assert step.Data() == SubEnded(before.steps[name], sub, failed, message, now);
      Publish(step, before);
    }

    method UpdateSubstep(name: string, sub: string, message: string)
      requires Valid()
      modifies this, steps.Values
      ensures Valid() && fresh(steps.Values - old(steps.Values))
      ensures View() == AfterUpdateSub(old(View()), name, sub, message)
    {
      if name !in steps {
        return;
      }
      ghost var before := View();
      var step := steps[name];
      step.UpdateSubstep(sub, message);
      assert step.Data() == SubUpdated(before.steps[name], sub, message);
      Publish(step, before);
    }

    /** _upsert_step_db: the row takes what the step object holds when the task runs. */
    method RunUpsert(i: nat)
      requires Valid() && i < |tasks|
      modifies this
      ensures Valid() && steps == old(steps)
      ensures Enabled(old(View()), Upsert(i)) && View() == Next(old(View()), Upsert(i))
    {
      var step := tasks[i];
      var prior := if step.number in rows then rows[step.number] else Row("", Pending, "", None, None);
      rows := rows[step.number := Row(step.name, step.status, step.message,
                                      Coalesce(step.startedAt, prior.startedAt),
                                      Coalesce(step.completedAt, prior.completedAt))];
      seen := seen[step.number := ReadsOf(old(View()), step.number) + [step.Data()]];
      tasks := tasks[..i] + tasks[i + 1..];
      assert Names() == old(Names())[..i] + old(Names())[i + 1..];
      assert View().steps == old(View()).steps;
    }
  }
}
