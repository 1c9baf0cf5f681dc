/** Whole scans in a steady environment: they are steady runs of the protocol, the first one records
    every resumable scanner, and the next one executes none of them. */
module SteadyScan {
  import opened Collections
  import opened Checkpoint
  import opened CheckpointProtocol
  import opened CheckpointRework
  import opened ResumeDecision
  import opened RunPlan
  import opened ScanTrace

  /** The tools report the versions of the environment. */
  ghost predicate SteadyVersions(env: Setting, versions: seq<string>) {
    && |versions| == |env.c.scanners|
    && forall i :: 0 <= i < |versions| ==> versions[i] == env.versionOf(env.c.scanners[i].toolsKey)
  }

  /** A resumable scanner succeeds and leaves a valid artifact among its files. */
  ghost predicate SteadyAttempt(env: Setting, files: Files, sc: ScannerDef, attempt: Attempt) {
    Eligible(sc) ==>
      && Succeeds(sc, attempt) && attempt.version == env.versionOf(sc.toolsKey)
      && var after := Written(files, sc.toolsKey, WritesOf(sc, attempt));
      ValidatePrimaryArtifact(env.formats, after, sc.toolsKey, sc.checkpoint.value).Ok?
  }

  /** So do all that are not restored. */
  ghost predicate SteadyAttempts(env: Setting, files: Files, restored: set<string>, attempts: seq<Attempt>) {
    && |attempts| == |env.c.scanners|
    && forall i :: 0 <= i < |attempts| && env.c.scanners[i].name !in restored ==>
                     SteadyAttempt(env, files, env.c.scanners[i], attempts[i])
  }

  // ----- composing steady runs -----

  lemma {:induction false} SteadyAppend(env: Setting, s: State, a: seq<Event>, b: seq<Event>)
    requires SteadyRun(env, s, a) && Possible(env.formats, s, a) && SteadyRun(env, Run(env.formats, s, a), b)
    ensures SteadyRun(env, s, a + b)
    decreases |a|
  {
    if a == [] {
      assert a + b == b;
    } else {
      assert (a + b)[1..] == a[1..] + b;
      SteadyAppend(env, Next(env.formats, s, a[0]), a[1..], b);
    }
  }

  lemma SteadyOne(env: Setting, s: State, e: Event)
    requires Enabled(s, e) && Steady(env, s, e)
    ensures SteadyRun(env, s, [e])
  {
    assert [e][1..] == [];
  }

  lemma {:induction false} SyncIsSteady(env: Setting, s: State, versions: seq<string>)
    requires SteadyVersions(env, versions) && s.run == env.c && s.phase.Sync? && s.phase.i < |versions|
    ensures SteadyRun(env, s, SyncEvents(versions[s.phase.i..]))
    decreases |versions| - s.phase.i
  {
    var i := s.phase.i;
    var e, s1 := SyncEvents(versions[i..]), Next(env.formats, s, SyncStep(versions[i]));
    OneTurn(env.formats, s, versions);
    assert e[1..] == SyncEvents(versions[i + 1..]);
    if i + 1 < |versions| {
      SyncIsSteady(env, s1, versions);
    } else {
      assert e[1..] == [];
    }
  }

  lemma OpeningIsSteady(env: Setting, s: State, versions: seq<string>)
    requires SteadyVersions(env, versions) && s.phase.Idle?
    ensures SteadyRun(env, s, Opening(env.c, versions))
  {
    SteadyOne(env, s, Begin(env.c));
    PossibleOne(env.formats, s, Begin(env.c));
    if versions == [] {
      assert Opening(env.c, versions) == [Begin(env.c)];
    } else {
      assert versions[0..] == versions;
      SyncIsSteady(env, Begun(s, env.c), versions);
      SteadyAppend(env, s, [Begin(env.c)], SyncEvents(versions));
    }
  }

  lemma {:induction false} WritesAreSteady(
    env: Setting, s: State, i: nat, writes: seq<(string, Option<Bytes>)>)
    requires s.phase == Running(i) && i < |s.run.scanners|
    ensures SteadyRun(env, s, WriteEvents(s.run.scanners[i].toolsKey, writes))
  {
    if writes != [] {
      var n, key := |writes| - 1, s.run.scanners[i].toolsKey;
      var last := WriteFile(key, writes[n].0, writes[n].1);
      WritesAreSteady(env, s, i, writes[..n]);
      WritesDo(env.formats, s, key, writes[..n]);
      SteadyOne(env, Run(env.formats, s, WriteEvents(key, writes[..n])), last);
      SteadyAppend(env, s, WriteEvents(key, writes[..n]), [last]);
      assert WriteEvents(key, writes) == WriteEvents(key, writes[..n]) + [last];
    }
  }

  lemma ResultIsSteady(env: Setting, s: State, ok: bool, version: string)
    requires Enabled(s, FinishExec(ok, version)) && Steady(env, s, FinishExec(ok, version))
    ensures SteadyRun(env, s, ResultEvents(s.run, s.run.scanners[s.phase.i], ok, version))
  {
    var sc, s1 := s.run.scanners[s.phase.i], Next(env.formats, s, FinishExec(ok, version));
    SteadyOne(env, s, FinishExec(ok, version));
    PossibleOne(env.formats, s, FinishExec(ok, version));
    if ok && sc.checkpoint.Some? && !s.run.disabled {
      SteadyOne(env, s1, Save);
      SteadyAppend(env, s, [FinishExec(ok, version)], [Save]);
    } else {
      assert ResultEvents(s.run, sc, ok, version) == [FinishExec(ok, version)];
    }
  }

  lemma AttemptIsSteady(env: Setting, s: State, i: nat, attempt: Attempt)
    requires s.phase == Running(i) && i < |s.run.scanners| && SteadyAttempt(env, s.files, s.run.scanners[i], attempt)
    ensures SteadyRun(env, s, AttemptEvents(s.run, s.run.scanners[i], attempt))
  {
    var sc := s.run.scanners[i];
    var s1 := s.(files := Written(s.files, sc.toolsKey, WritesOf(sc, attempt)));
    WritesAreSteady(env, s, i, WritesOf(sc, attempt));
    WritesDo(env.formats, s, sc.toolsKey, WritesOf(sc, attempt));
    ResultIsSteady(env, s1, Succeeds(sc, attempt), attempt.version);
    SteadyAppend(env, s, WriteEvents(sc.toolsKey, WritesOf(sc, attempt)),
                 ResultEvents(s.run, sc, Succeeds(sc, attempt), attempt.version));
  }

  lemma TurnIsSteady(env: Setting, s: State, i: nat, attempt: Attempt)
    requires s.phase == Exec(i) && i < |s.run.scanners|
    requires s.run.scanners[i].name !in s.restored ==> SteadyAttempt(env, s.files, s.run.scanners[i], attempt)
    ensures SteadyRun(env, s, ExecEvents(s.run, s.run.scanners[i], s.restored, attempt))
  {
    var sc, s1 := s.run.scanners[i], Next(env.formats, s, StartExec);
    SteadyOne(env, s, StartExec);
    PossibleOne(env.formats, s, StartExec);
    if ToRun(s, sc) {
      AttemptIsSteady(env, s1, i, attempt);
      SteadyAppend(env, s, [StartExec], AttemptEvents(s.run, sc, attempt));
    } else {
      assert ExecEvents(s.run, sc, s.restored, attempt) == [StartExec];
    }
  }

  // ----- what one scanner writes does not concern the others -----

  ghost predicate SameDirectory(files: Files, files': Files, toolsKey: string) {
    forall file :: FileAt(files', toolsKey, file) == FileAt(files, toolsKey, file)
  }

  lemma {:induction false} WritesAlike(
    files: Files, files': Files, toolsKey: string, writes: seq<(string, Option<Bytes>)>)
    requires SameDirectory(files, files', toolsKey)
    ensures SameDirectory(Written(files, toolsKey, writes), Written(files', toolsKey, writes), toolsKey)
  {
    if writes != [] {
      var n := |writes| - 1;
      WritesAlike(files, files', toolsKey, writes[..n]);
      var a, b := Written(files, toolsKey, writes[..n]), Written(files', toolsKey, writes[..n]);
      forall file
        ensures FileAt(Written(files', toolsKey, writes), toolsKey, file) ==
                FileAt(Written(files, toolsKey, writes), toolsKey, file)
      {
        assert FileAt(b, toolsKey, file) == FileAt(a, toolsKey, file);
      }
    }
  }

  lemma AttemptAlike(env: Setting, files: Files, files': Files, sc: ScannerDef, attempt: Attempt)
    requires SameDirectory(files, files', sc.toolsKey) && SteadyAttempt(env, files, sc, attempt)
    ensures SteadyAttempt(env, files', sc, attempt)
  {
    if Eligible(sc) {
      WritesAlike(files, files', sc.toolsKey, WritesOf(sc, attempt));
      var a := Written(files, sc.toolsKey, WritesOf(sc, attempt));
      var b := Written(files', sc.toolsKey, WritesOf(sc, attempt));
      var name := sc.checkpoint.value.primaryArtifact;
      assert FileAt(b, sc.toolsKey, name) == FileAt(a, sc.toolsKey, name);
    }
  }

  /** The scanners from `n` on still find their directories as they were in `files`. */
  ghost predicate Untouched(env: Setting, files: Files, files': Files, n: nat) {
    forall j :: n <= j < |env.c.scanners| && env.c.scanners[j].toolsKey != "" ==>
                  SameDirectory(files, files', env.c.scanners[j].toolsKey)
  }

  lemma TurnKeepsOthers(env: Setting, s: State, i: nat, attempt: Attempt, files: Files)
    requires Resumable(env.c) && s.phase == Exec(i) && i < |env.c.scanners| && s.run == env.c
    requires Untouched(env, files, s.files, i)
    ensures
      var s' := AfterTurn(env.formats, s, env.c.scanners[i], i, attempt);
      s'.phase == Exec(i + 1) && s'.run == env.c && s'.restored == s.restored && Untouched(env, files, s'.files, i + 1)
  {
    var sc := env.c.scanners[i];
    var s' := AfterTurn(env.formats, s, sc, i, attempt);
    forall j | i + 1 <= j < |env.c.scanners| && env.c.scanners[j].toolsKey != ""
      ensures SameDirectory(files, s'.files, env.c.scanners[j].toolsKey)
    {
      forall file ensures FileAt(s'.files, env.c.scanners[j].toolsKey, file) ==
                          FileAt(files, env.c.scanners[j].toolsKey, file)
      {
        assert SameDirectory(files, s.files, env.c.scanners[j].toolsKey);
        WritesStayInDirectory(s.files, sc.toolsKey, WritesOf(sc, attempt), env.c.scanners[j].toolsKey, file);
      }
    }
  }

  /** The state after the first turns of the execution loop. */
  ghost predicate Executing(env: Setting, s0: State, s: State, n: nat) {
    && s.phase == Exec(n) && s.run == env.c && s.restored == s0.restored && Untouched(env, s0.files, s.files, n)
  }

  lemma TurnAfterSteady(env: Setting, s0: State, s: State, attempts: seq<Attempt>, n: nat)
    requires Resumable(env.c) && SteadyAttempts(env, s0.files, s0.restored, attempts)
    requires n < |attempts| && Executing(env, s0, s, n)
    ensures
      var es := ExecEvents(env.c, env.c.scanners[n], s0.restored, attempts[n]);
      && SteadyRun(env, s, es) && Possible(env.formats, s, es)
      && Run(env.formats, s, es) == AfterTurn(env.formats, s, env.c.scanners[n], n, attempts[n])
      && Executing(env, s0, Run(env.formats, s, es), n + 1)
  {
    var sc := env.c.scanners[n];
    if sc.name !in s.restored && sc.toolsKey != "" {
      AttemptAlike(env, s0.files, s.files, sc, attempts[n]);
    }
    TurnIsSteady(env, s, n, attempts[n]);
    TurnDoes(env.formats, s, n, attempts[n]);
    TurnKeepsOthers(env, s, n, attempts[n], s0.files);
  }

  lemma {:induction false} ExecIsSteady(env: Setting, s: State, attempts: seq<Attempt>, n: nat)
    requires Resumable(env.c) && SteadyAttempts(env, s.files, s.restored, attempts) && n <= |attempts|
    requires s.phase == Exec(0) && s.run == env.c
    ensures
      var es := ExecTrace(env.c, s.restored, attempts, n);
      SteadyRun(env, s, es) && Possible(env.formats, s, es) && Executing(env, s, Run(env.formats, s, es), n)
  {
    if n > 0 {
      var front := ExecTrace(env.c, s.restored, attempts, n - 1);
      var last := ExecEvents(env.c, env.c.scanners[n - 1], s.restored, attempts[n - 1]);
      ExecIsSteady(env, s, attempts, n - 1);
      TurnAfterSteady(env, s, Run(env.formats, s, front), attempts, n - 1);
      SteadyAppend(env, s, front, last);
      RunAppend(env.formats, s, front, last);
    }
  }

  lemma ClosingIsSteady(env: Setting, s: State, attempts: seq<Attempt>)
    requires Resumable(env.c) && SteadyAttempts(env, s.files, s.restored, attempts)
    requires s.phase == Exec(0) && s.run == env.c
    ensures SteadyRun(env, s, ExecTrace(env.c, s.restored, attempts, |attempts|) + [Finish])
  {
    var front := ExecTrace(env.c, s.restored, attempts, |attempts|);
    ExecIsSteady(env, s, attempts, |attempts|);
    SteadyOne(env, Run(env.formats, s, front), Finish);
    SteadyAppend(env, s, front, [Finish]);
  }

  /** The scan begins in `s`, the environment is steady, and the scanners it does not restore succeed. */
  ghost predicate SteadyConditions(env: Setting, s: State, versions: seq<string>, attempts: seq<Attempt>) {
    && Resumable(env.c) && s.phase.Idle? && SteadyVersions(env, versions)
    && SteadyAttempts(env, s.files, RestoredBy(env.formats, s, env.c, versions), attempts)
  }

  ghost function ScanOf(env: Setting, s: State, versions: seq<string>, attempts: seq<Attempt>): seq<Event>
    requires SteadyConditions(env, s, versions, attempts)
  {
    RunTrace(env.c, versions, RestoredBy(env.formats, s, env.c, versions), attempts)
  }

  /** A whole scan in a steady environment is a steady run, so bounded rework is about it. */
  lemma ScanIsSteadyRun(env: Setting, s: State, versions: seq<string>, attempts: seq<Attempt>)
    requires SteadyConditions(env, s, versions, attempts)
    ensures SteadyRun(env, s, ScanOf(env, s, versions, attempts))
  {
    OpeningRestores(env.formats, s, env.c, versions);
    var s1 := Run(env.formats, s, Opening(env.c, versions));
    OpeningIsSteady(env, s, versions);
    ClosingIsSteady(env, s1, attempts);
    SteadyAppend(env, s, Opening(env.c, versions),
                 ExecTrace(env.c, s1.restored, attempts, |attempts|) + [Finish]);
  }

  // ----- what a steady scan leaves on disk -----

  lemma {:induction false} SteadyRunKeepsInv(env: Setting, s: State, es: seq<Event>)
    requires Resumable(env.c) && Inv(env, s) && SteadyRun(env, s, es) && Possible(env.formats, s, es)
    ensures Inv(env, Run(env.formats, s, es))
    ensures Loaded(s.disk).steps.Keys <= Loaded(Run(env.formats, s, es).disk).steps.Keys
    decreases |es|
  {
    if es != [] {
      EventKeepsInv(env, s, es[0]);
      EventKeepsRecords(env, s, es[0]);
      SteadyRunKeepsInv(env, Next(env.formats, s, es[0]), es[1..]);
    }
  }

  ghost predicate Recorded(s: State, sc: ScannerDef) {
    Covered(Loaded(s.disk).steps, sc)
  }

  /** The resumable scanners before `n`, and all that were restored, have a record on disk. */
  ghost predicate RecordedBefore(env: Setting, s: State, n: nat) {
    forall j :: 0 <= j < |env.c.scanners| && Eligible(env.c.scanners[j]) ==>
                  j < n || env.c.scanners[j].name in s.restored ==> Recorded(s, env.c.scanners[j])
  }

  /** A resumable scanner that runs is recorded in its turn. */
  lemma TurnRecords(env: Setting, s: State, i: nat, attempt: Attempt)
    requires Resumable(env.c) && s.phase == Exec(i) && i < |env.c.scanners| && s.run == env.c
    requires Eligible(env.c.scanners[i]) && ToRun(s, env.c.scanners[i])
    requires SteadyAttempt(env, s.files, env.c.scanners[i], attempt)
    ensures Recorded(AfterTurn(env.formats, s, env.c.scanners[i], i, attempt), env.c.scanners[i])
  {
  }

  lemma TurnKeepsRecorded(env: Setting, s0: State, s: State, attempts: seq<Attempt>, n: nat)
    requires Resumable(env.c) && SteadyAttempts(env, s0.files, s0.restored, attempts)
    requires n < |attempts| && Executing(env, s0, s, n) && Inv(env, s) && RecordedBefore(env, s, n)
    ensures RecordedBefore(env, AfterTurn(env.formats, s, env.c.scanners[n], n, attempts[n]), n + 1)
  {
    var sc := env.c.scanners[n];
    var s' := AfterTurn(env.formats, s, sc, n, attempts[n]);
    TurnAfterSteady(env, s0, s, attempts, n);
    SteadyRunKeepsInv(env, s, ExecEvents(env.c, sc, s0.restored, attempts[n]));
    if Eligible(sc) && sc.name !in s.restored {
      AttemptAlike(env, s0.files, s.files, sc, attempts[n]);
      TurnRecords(env, s, n, attempts[n]);
    }
    forall j | 0 <= j < |env.c.scanners| && Eligible(env.c.scanners[j])
               && (j < n + 1 || env.c.scanners[j].name in s'.restored)
      ensures Recorded(s', env.c.scanners[j])
    {
      if j != n || sc.name in s.restored {
        assert Recorded(s, env.c.scanners[j]);
      }
    }
  }

  lemma {:induction false} ExecRecords(env: Setting, s: State, attempts: seq<Attempt>, n: nat)
    requires Resumable(env.c) && SteadyAttempts(env, s.files, s.restored, attempts) && n <= |attempts|
    requires s.phase == Exec(0) && s.run == env.c && Inv(env, s) && RecordedBefore(env, s, 0)
    ensures Possible(env.formats, s, ExecTrace(env.c, s.restored, attempts, n))
    ensures
      var s' := Run(env.formats, s, ExecTrace(env.c, s.restored, attempts, n));
      Inv(env, s') && RecordedBefore(env, s', n) && Executing(env, s, s', n)
  {
    ExecIsSteady(env, s, attempts, n);
    SteadyRunKeepsInv(env, s, ExecTrace(env.c, s.restored, attempts, n));
    if n > 0 {
      var front := ExecTrace(env.c, s.restored, attempts, n - 1);
      ExecRecords(env, s, attempts, n - 1);
      var s1 := Run(env.formats, s, front);
      TurnAfterSteady(env, s, s1, attempts, n - 1);
      TurnKeepsRecorded(env, s, s1, attempts, n - 1);
      RunAppend(env.formats, s, front, ExecEvents(env.c, env.c.scanners[n - 1], s.restored, attempts[n - 1]));
    }
  }

  /** What is restored has a record. */
  lemma RestoredAreRecorded(env: Setting, s: State, versions: seq<string>)
    requires Resumable(env.c) && Inv(env, s) && s.phase.Idle? && SteadyVersions(env, versions)
    ensures Possible(env.formats, s, Opening(env.c, versions))
    ensures
      var s1 := Run(env.formats, s, Opening(env.c, versions));
      s1.phase == Exec(0) && s1.run == env.c && Inv(env, s1) && RecordedBefore(env, s1, 0)
  {
    OpeningRestores(env.formats, s, env.c, versions);
    OpeningIsSteady(env, s, versions);
    SteadyRunKeepsInv(env, s, Opening(env.c, versions));
    var s0, s1 := Begun(s, env.c), Run(env.formats, s, Opening(env.c, versions));
    forall j | 0 <= j < |env.c.scanners| && Eligible(env.c.scanners[j]) && env.c.scanners[j].name in s1.restored
      ensures Recorded(s1, env.c.scanners[j])
    {
      AcceptableByName(env.formats, s0, versions, j);
      assert Covered(s0.cp.steps, env.c.scanners[j]);
    }
  }

  ghost predicate AllRecorded(env: Setting, s: State) {
    forall j :: 0 <= j < |env.c.scanners| && Eligible(env.c.scanners[j]) ==> Recorded(s, env.c.scanners[j])
  }

  /** One complete scan in a steady environment leaves a record of every resumable scanner. */
  lemma ScanRecordsAll(env: Setting, s: State, versions: seq<string>, attempts: seq<Attempt>)
    requires SteadyConditions(env, s, versions, attempts) && Inv(env, s)
    ensures Possible(env.formats, s, ScanOf(env, s, versions, attempts))
    ensures
      var s' := Run(env.formats, s, ScanOf(env, s, versions, attempts));
      s'.phase.Idle? && Inv(env, s') && AllRecorded(env, s')
  {
    var opening := Opening(env.c, versions);
    OpeningRestores(env.formats, s, env.c, versions);
    RestoredAreRecorded(env, s, versions);
    var s1 := Run(env.formats, s, opening);
    var exec := ExecTrace(env.c, s1.restored, attempts, |attempts|);
    ExecRecords(env, s1, attempts, |attempts|);
    var s2 := Run(env.formats, s1, exec);
    PossibleOne(env.formats, s2, Finish);
    EventKeepsInv(env, s2, Finish);
    RunAppend(env.formats, s1, exec, [Finish]);
    RunAppend(env.formats, s, opening, exec + [Finish]);
  }

  /** With all records on disk, every resumable scanner is restored. */
  lemma RecordedAreRestored(env: Setting, s: State, versions: seq<string>, i: nat)
    requires Resumable(env.c) && Inv(env, s) && s.phase.Idle? && SteadyVersions(env, versions)
    requires i < |env.c.scanners| && Eligible(env.c.scanners[i]) && Recorded(s, env.c.scanners[i])
    ensures env.c.scanners[i].name in RestoredBy(env.formats, s, env.c, versions)
  {
    var s0 := Begun(s, env.c);
    BeginKeepsInv(env, s);
    TurnRestores(env, s0, env.c.scanners[i], i);
    assert Acceptable(env.formats, s0, versions, i);
  }

  /** The next scan after a complete one restores every resumable scanner and executes none of them,
      whatever its tools would have done. */
  lemma NextScanExecutesNothing(
    env: Setting, s: State, versions: seq<string>, attempts: seq<Attempt>, attempts': seq<Attempt>, i: nat)
    requires SteadyConditions(env, s, versions, attempts) && Inv(env, s) && |attempts'| == |env.c.scanners|
    requires i < |env.c.scanners| && Eligible(env.c.scanners[i])
    ensures Possible(env.formats, s, ScanOf(env, s, versions, attempts))
    ensures
      var s1 := Run(env.formats, s, ScanOf(env, s, versions, attempts));
      var key := env.c.scanners[i].toolsKey;
      && SteadyConditions(env, s1, versions, attempts')
      && env.c.scanners[i].name in RestoredBy(env.formats, s1, env.c, versions)
      && Possible(env.formats, s1, ScanOf(env, s1, versions, attempts'))
      && CountIn(Run(env.formats, s1, ScanOf(env, s1, versions, attempts')).starts, {key}) == CountIn(s1.starts, {key})
  {
    ScanRecordsAll(env, s, versions, attempts);
    var s1 := Run(env.formats, s, ScanOf(env, s, versions, attempts));
    forall j | 0 <= j < |env.c.scanners| && Eligible(env.c.scanners[j])
      ensures env.c.scanners[j].name in RestoredBy(env.formats, s1, env.c, versions)
    {
      RecordedAreRestored(env, s1, versions, j);
    }
    ScanIsSteadyRun(env, s1, versions, attempts');
    RecordedNeverRunsAgain(env, s1, ScanOf(env, s1, versions, attempts'), i);
  }

  /** A scanner that takes part without a checkpoint block stands before a resumable one. */
  ghost predicate ResumableBehindOther(scanners: seq<ScannerDef>) {
    exists k, j :: 0 <= k < j < |scanners| && Considered(scanners[k]) && scanners[k].checkpoint.None?
                   && Eligible(scanners[j])
  }

  /** That is exactly when the next scan does not restore in pipeline order. */
  lemma NextScanInOrderIff(env: Setting, s: State, versions: seq<string>, attempts: seq<Attempt>)
    requires SteadyConditions(env, s, versions, attempts) && Inv(env, s)
    ensures Possible(env.formats, s, ScanOf(env, s, versions, attempts))
    ensures
      var s1 := Run(env.formats, s, ScanOf(env, s, versions, attempts));
      && s1.phase.Idle?
      && (InPipelineOrder(env.c.scanners, RestoredBy(env.formats, s1, env.c, versions)) <==>
          !ResumableBehindOther(env.c.scanners))
  {
    ScanRecordsAll(env, s, versions, attempts);
    var s1 := Run(env.formats, s, ScanOf(env, s, versions, attempts));
    var s0, restored := Begun(s1, env.c), RestoredBy(env.formats, s1, env.c, versions);
    forall j | 0 <= j < |env.c.scanners| ensures env.c.scanners[j].name in restored <==> Eligible(env.c.scanners[j]) {
      AcceptableByName(env.formats, s0, versions, j);
      if Eligible(env.c.scanners[j]) {
        RecordedAreRestored(env, s1, versions, j);
      }
    }
  }

  /** The artifact of scanner `k` is removed between two scans. */
  function Removal(c: RunConfig, k: nat): Event
    requires k < |c.scanners| && c.scanners[k].checkpoint.Some?
  {
    WriteFile(c.scanners[k].toolsKey, c.scanners[k].checkpoint.value.primaryArtifact, None)
  }

  lemma RemovalDecides(env: Setting, s: State, versions: seq<string>, k: nat, j: nat)
    requires Resumable(env.c) && s.phase.Idle? && SteadyVersions(env, versions)
    requires k < j < |env.c.scanners| && Eligible(env.c.scanners[k]) && Eligible(env.c.scanners[j])
    ensures
      var s0, s2 := Begun(s, env.c), Begun(Next(env.formats, s, Removal(env.c, k)), env.c);
      && !Acceptable(env.formats, s2, versions, k)
      && (Acceptable(env.formats, s0, versions, j) ==> Acceptable(env.formats, s2, versions, j))
  {
    assert env.c.scanners[k].toolsKey != env.c.scanners[j].toolsKey;
  }

  /** With checkpoint blocks everywhere the order still fails: after a complete scan the artifact of
      one scanner is lost, and the next scan restores a later one but not that one. */
  lemma LostArtifactBreaksOrder(
    env: Setting, s: State, versions: seq<string>, attempts: seq<Attempt>, k: nat, j: nat)
    requires SteadyConditions(env, s, versions, attempts) && Inv(env, s)
    requires k < j < |env.c.scanners| && Eligible(env.c.scanners[k]) && Eligible(env.c.scanners[j])
    ensures Possible(env.formats, s, ScanOf(env, s, versions, attempts))
    ensures
      var s1 := Run(env.formats, s, ScanOf(env, s, versions, attempts));
      var s2 := Next(env.formats, s1, Removal(env.c, k));
      && s2.phase.Idle?
      && var restored := RestoredBy(env.formats, s2, env.c, versions);
      && env.c.scanners[k].name !in restored && env.c.scanners[j].name in restored
      && !InPipelineOrder(env.c.scanners, restored)
  {
    ScanRecordsAll(env, s, versions, attempts);
    var s1 := Run(env.formats, s, ScanOf(env, s, versions, attempts));
    var s2 := Next(env.formats, s1, Removal(env.c, k));
    RecordedAreRestored(env, s1, versions, j);
    AcceptableByName(env.formats, Begun(s1, env.c), versions, j);
    RemovalDecides(env, s1, versions, k, j);
    AcceptableByName(env.formats, Begun(s2, env.c), versions, j);
    AcceptableByName(env.formats, Begun(s2, env.c), versions, k);
  }

  function Plugin(name: string): ScannerDef {
    ScannerDef(name, name, 600, map[], None, Some(CheckpointCfg("report.json", "json", false)))
  }

  lemma PluginSucceeds(env: Setting, name: string, content: Bytes)
    requires name != "" && env.formats.isJson(content) && content != [] && env.versionOf(name) == ""
    ensures
      SteadyAttempt(env, map[], Plugin(name),
                    Attempt([], [("report.json", Some(content))], Returned(true, NoStatus), ""))
  {
    var writes: seq<(string, Option<Bytes>)> := [("report.json", Some(content))];
    assert writes[..0] == [];
    assert Written(map[], name, writes) == map[(name, "report.json") := content];
    assert LowerFormat("json") == "json";
  }

  /** An input: two scanners, scanned for the first time. */
  lemma TwoScanners() returns (env: Setting, versions: seq<string>, attempts: seq<Attempt>)
    ensures SteadyConditions(env, Initial, versions, attempts) && Inv(env, Initial)
    ensures |env.c.scanners| == 2 && Eligible(env.c.scanners[0]) && Eligible(env.c.scanners[1])
  {
    var content: Bytes := [123, 125];
    var global := GlobalConfig(multiset{"code"}, "git", true, {}, "");
    env := Setting(Formats((_: Bytes) => true, (_: Bytes) => true),
      RunConfig("4b825dc", global, false, [Plugin("semgrep"), Plugin("trivy")]), (_: string) => "");
    versions := ["", ""];
    var attempt := Attempt([], [("report.json", Some(content))], Returned(true, NoStatus), "");
    attempts := [attempt, attempt];
    PluginSucceeds(env, "semgrep", content);
    PluginSucceeds(env, "trivy", content);
    assert "semgrep"[0] != "trivy"[0];
  }
}
