/** Checkpoint and resume over many runs of one scan: ScanOrchestrator.run_scan of
    scanner/core/orchestrator.py as a transition system over disk, memory and environment. */
module CheckpointProtocol {
  import opened Collections
  import opened Checkpoint

  /** A scanner as this run sees it, its admin overrides merged in; a missing tools_key is "". */
  datatype ScannerDef = ScannerDef(
    name: string, toolsKey: string, timeout: int, env: map<string, string>, enabled: Option<bool>,
    checkpoint: Option<CheckpointCfg>)
  {
    predicate AdminEnabled() { enabled != Some(false) }

    function Config(): ScannerConfig { ScannerConfig(toolsKey, timeout, env, enabled) }

    /** What run_tool_version returns: nothing without a version command. */
    function Reported(version: string): string {
      if checkpoint.Some? && checkpoint.value.hasVersionCommand then version else ""
    }
  }

  /** What is fixed at the start of one run; an unknown git HEAD is "". */
  datatype RunConfig = RunConfig(head: string, global: GlobalConfig, disabled: bool, scanners: seq<ScannerDef>)

  /** A call of _run_scanner that returned True, with what it left behind. */
  datatype Execution = Execution(
    run: nat, toolsKey: string, head: string, global: GlobalConfig, config: ScannerConfig, version: string,
    artifact: Option<Bytes>)

  /** A scanner restored from the checkpoint; `before` executions had happened by then. */
  datatype Restoration = Restoration(
    run: nat, before: nat, toolsKey: string, head: string, global: GlobalConfig, config: ScannerConfig,
    versionEnforced: bool, version: string, artifact: Bytes)

  datatype Phase = Idle | Sync(i: nat) | Exec(i: nat) | Running(i: nat) | Saving(i: nat)

  datatype State = State(
    phase: Phase, run: RunConfig, cp: CheckpointData, restored: set<string>, resumedAny: bool,
    disk: Option<CheckpointData>, files: Files,
    runs: nat, crashes: nat, starts: seq<string>, history: seq<Execution>, restores: seq<Restoration>)

  /** `version` is what the tool would report at that moment; `ok` is the result of _run_scanner.
      WriteFile and LoseCheckpoint are the environment, or a running scanner, at any time. */
  datatype Event =
    | Begin(run: RunConfig)
    | SyncStep(version: string)
    | StartExec
    | FinishExec(ok: bool, version: string)
    | Save
    | Finish
    | Crash
    | WriteFile(toolsKey: string, file: string, content: Option<Bytes>)
    | LoseCheckpoint

  const NO_RUN := RunConfig("", GlobalConfig(multiset{}, "", false, {}, ""), true, [])
  const Initial := State(Idle, NO_RUN, EMPTY_CHECKPOINT, {}, false, None, map[], 0, 0, [], [], [])

  // ----- the steps -----

  function Loaded(disk: Option<CheckpointData>): CheckpointData {
    if disk.Some? then disk.value else EMPTY_CHECKPOINT
  }

  function PipelineOrder(scanners: seq<ScannerDef>): seq<string> {
    if scanners == [] then []
    else PipelineOrder(scanners[..|scanners| - 1]) +
         (if scanners[|scanners| - 1].toolsKey != "" then [scanners[|scanners| - 1].toolsKey] else [])
  }

  /** The checkpoint a run works on: a changed configuration or HEAD, or an unknown HEAD, drops
      every scanner record. */
  function Opened(cp: CheckpointData, run: RunConfig): CheckpointData {
    var cp1 := if cp.scanConfigHash != Some(Sha256(run.global)) then Invalidated(cp) else cp;
    var cp2 := cp1.(scanConfigHash := Some(Sha256(run.global)), pipelineOrder := PipelineOrder(run.scanners));
    var cp3 := if run.head != "" && cp2.targetFingerprint != "" && cp2.targetFingerprint != run.head
      then Invalidated(cp2) else cp2;
    if run.head != "" then cp3.(targetFingerprint := run.head) else Invalidated(cp3)
  }

  function MaySkip(formats: Formats, s: State, sc: ScannerDef, version: string): bool {
    && !s.run.disabled && s.run.head != "" && sc.checkpoint.Some?
    && SkipRefusal(formats, s.cp, sc.toolsKey, sc.checkpoint, s.files, Sha256(sc.Config()), Sha256(s.run.global),
       sc.Reported(version)).None?
  }

  predicate Considered(sc: ScannerDef) {
    sc.AdminEnabled() && sc.toolsKey != ""
  }

  /** In the execution loop: everything enabled that was not restored; a scanner without a
      tools_key runs (and fails) in any case. */
  predicate ToRun(s: State, sc: ScannerDef) {
    sc.AdminEnabled() && (sc.toolsKey == "" || sc.name !in s.restored)
  }

  function AfterSync(s: State): State
    requires s.phase.Sync?
  {
    s.(phase := if s.phase.i + 1 < |s.run.scanners| then Sync(s.phase.i + 1) else Exec(0))
  }

  predicate Enabled(s: State, e: Event) {
    match e
    case Begin(_) => s.phase.Idle?
    case SyncStep(_) => s.phase.Sync? && s.phase.i < |s.run.scanners|
    case StartExec => s.phase.Exec? && s.phase.i < |s.run.scanners|
    case FinishExec(ok, _) => s.phase.Running? && s.phase.i < |s.run.scanners|
      && (ok ==> s.run.scanners[s.phase.i].toolsKey != "")
    case Save => s.phase.Saving?
    case Finish => s.phase.Exec? && s.phase.i == |s.run.scanners|
    case Crash => !s.phase.Idle?
    case WriteFile(_, _, _) => true
    case LoseCheckpoint => true
  }

  function Begun(s: State, run: RunConfig): State {
    var cp := if run.disabled then Loaded(s.disk) else Opened(Loaded(s.disk), run);
    s.(phase := if run.scanners == [] then Exec(0) else Sync(0), run := run, cp := cp, restored := {},
      resumedAny := false,
       disk := if run.disabled then s.disk else Some(cp), runs := s.runs + 1)
  }

  function Restored(formats: Formats, s: State, sc: ScannerDef, version: string): State
    requires MaySkip(formats, s, sc, version)
  {
    var cp := s.cp.(resumed := true);
    s.(cp := cp, disk := Some(cp), restored := s.restored + {sc.name}, resumedAny := true,
       restores := s.restores + [Restoration(s.runs, |s.history|, sc.toolsKey, s.run.head, s.run.global, sc.Config(),
                                             sc.checkpoint.value.hasVersionCommand, sc.Reported(version),
                                             s.files[(sc.toolsKey, sc.checkpoint.value.primaryArtifact)])])
  }

  function ArtifactOf(s: State, sc: ScannerDef): Option<Bytes> {
    if sc.checkpoint.Some? && (sc.toolsKey, sc.checkpoint.value.primaryArtifact) in s.files
    then Some(s.files[(sc.toolsKey, sc.checkpoint.value.primaryArtifact)]) else None
  }

  function Executed(formats: Formats, s: State, sc: ScannerDef, version: string): State
    requires s.phase.Running?
  {
    var s1 := s.(history := s.history
      + [Execution(s.runs, sc.toolsKey, s.run.head, s.run.global, sc.Config(), sc.Reported(version),
        ArtifactOf(s, sc))]);
    if sc.checkpoint.None? || s.run.disabled then s1.(phase := Exec(s.phase.i + 1))
    else s1.(phase := Saving(s.phase.i),
             cp := Recorded(formats, s.cp, sc.toolsKey, sc.checkpoint.value, s.files, Sha256(sc.Config()),
               Sha256(s.run.global),
                            sc.Reported(version), s.run.head != ""))
  }

  function Next(formats: Formats, s: State, e: Event): State
    requires Enabled(s, e)
  {
    match e
    case Begin(run) => Begun(s, run)
    case SyncStep(version) =>
      var sc := s.run.scanners[s.phase.i];
      AfterSync(if Considered(sc) && MaySkip(formats, s, sc, version) then Restored(formats, s, sc, version) else s)
    case StartExec =>
      var sc := s.run.scanners[s.phase.i];
      if ToRun(s, sc) then s.(phase := Running(s.phase.i), starts := s.starts + [sc.toolsKey])
      else s.(phase := Exec(s.phase.i + 1))
    case FinishExec(ok, version) =>
      if ok then Executed(formats, s, s.run.scanners[s.phase.i], version) else s.(phase := Exec(s.phase.i + 1))
    case Save => s.(phase := Exec(s.phase.i + 1), disk := Some(s.cp))
    case Finish =>
      var done := Loaded(s.disk);
      s.(phase := Idle, disk := if s.run.disabled then s.disk
        else Some(done.(status := "completed", resumed := done.resumed || s.resumedAny)))
    case Crash => s.(phase := Idle, crashes := s.crashes + 1)
    case WriteFile(key, file, content) =>
      s.(files := if content.Some? then s.files[(key, file) := content.value] else s.files - {(key, file)})
    case LoseCheckpoint => s.(disk := None)
  }

  ghost predicate Possible(formats: Formats, s: State, es: seq<Event>)
    decreases |es|
  {
    es == [] || (Enabled(s, es[0]) && Possible(formats, Next(formats, s, es[0]), es[1..]))
  }

  ghost function Run(formats: Formats, s: State, es: seq<Event>): State
    requires Possible(formats, s, es)
    decreases |es|
  {
    if es == [] then s else Run(formats, Next(formats, s, es[0]), es[1..])
  }

  lemma {:induction false} RunAppend(formats: Formats, s: State, a: seq<Event>, b: seq<Event>)
    requires Possible(formats, s, a) && Possible(formats, Run(formats, s, a), b)
    ensures Possible(formats, s, a + b) && Run(formats, s, a + b) == Run(formats, Run(formats, s, a), b)
    decreases |a|
  {
    if a == [] {
      assert a + b == b;
    } else {
      assert (a + b)[1..] == a[1..] + b;
      RunAppend(formats, Next(formats, s, a[0]), a[1..], b);
    }
  }

  // ----- soundness of restoring -----

  /** Execution `x` is why a record under `key` of a checkpoint for `fingerprint` may exist. */
  ghost predicate Explains(x: Execution, fingerprint: string, key: string, r: Record) {
    && key == ScannerStepKey(x.toolsKey) && x.head == fingerprint && fingerprint != ""
    && r.globalConfigHash == Sha256(x.global) && r.configHash == Sha256(x.config) && r.toolVersion == x.version
    && x.artifact == Some(r.artifactHash.preimage)
  }

  /** Every scanner record of `cp` is explained by an execution of a run before `bound`. */
  ghost predicate Explained(cp: CheckpointData, history: seq<Execution>, bound: nat) {
    forall key :: key in cp.steps && STEP_PREFIX <= key ==>
                    exists i :: 0 <= i < |history| && history[i].run < bound
                      && Explains(history[i], cp.targetFingerprint, key, cp.steps[key])
  }

  ghost predicate Justified(r: Restoration, history: seq<Execution>) {
    exists i :: 0 <= i < |history| && i < r.before && JustifiedBy(r, history[i])
  }

  /** The same scanner, HEAD, configuration and tool version, in an earlier run, with the same bytes. */
  ghost predicate JustifiedBy(r: Restoration, x: Execution) {
    && x.run < r.run && x.toolsKey == r.toolsKey && x.head == r.head && x.head != "" && x.global == r.global
       && x.config == r.config
    && (r.versionEnforced ==> x.version == r.version)
    && x.artifact == Some(r.artifact)
  }

  ghost predicate Sound(s: State) {
    && (s.disk.Some? ==> Explained(s.disk.value, s.history, s.runs + 1))
    && (!s.phase.Idle? ==> Explained(s.cp, s.history, if s.phase.Sync? then s.runs else s.runs + 1))
    && (!s.phase.Idle? && !s.run.disabled && s.run.head != "" ==> s.cp.targetFingerprint == s.run.head)
    && (forall i :: 0 <= i < |s.history| ==> s.history[i].run <= s.runs)
    && (forall i :: 0 <= i < |s.restores| ==> Justified(s.restores[i], s.history))
  }

  lemma ExplainedLater(cp: CheckpointData, history: seq<Execution>, bound: nat, history': seq<Execution>, bound': nat)
    requires Explained(cp, history, bound) && history <= history' && bound <= bound'
    ensures Explained(cp, history', bound')
  {
    forall key | key in cp.steps && STEP_PREFIX <= key
      ensures exists i ::
                0 <= i < |history'| && history'[i].run < bound'
                && Explains(history'[i], cp.targetFingerprint, key, cp.steps[key])
    {
      var i :| 0 <= i < |history| && history[i].run < bound
        && Explains(history[i], cp.targetFingerprint, key, cp.steps[key]);
      assert history'[i] == history[i];
    }
  }

  lemma JustifiedLater(r: Restoration, history: seq<Execution>, history': seq<Execution>)
    requires Justified(r, history) && history <= history'
    ensures Justified(r, history')
  {
    var i :| 0 <= i < |history| && i < r.before && JustifiedBy(r, history[i]);
    assert history'[i] == history[i];
  }

  /** Opening keeps a record only when the stored fingerprint is the present HEAD. */
  lemma OpeningKeepsExplained(cp: CheckpointData, run: RunConfig, history: seq<Execution>, bound: nat)
    requires Explained(cp, history, bound)
    ensures Explained(Opened(cp, run), history, bound)
    ensures run.head != "" ==> Opened(cp, run).targetFingerprint == run.head
  {
    var cp' := Opened(cp, run);
    forall key | key in cp'.steps && STEP_PREFIX <= key
      ensures exists i ::
                0 <= i < |history| && history[i].run < bound
                && Explains(history[i], cp'.targetFingerprint, key, cp'.steps[key])
    {
      assert key in cp.steps && cp.steps[key] == cp'.steps[key];
      var i :| 0 <= i < |history| && history[i].run < bound
        && Explains(history[i], cp.targetFingerprint, key, cp.steps[key]);
      assert cp'.targetFingerprint == cp.targetFingerprint;
    }
  }

  lemma RestoringIsJustified(formats: Formats, s: State, sc: ScannerDef, version: string)
    requires Sound(s) && s.phase.Sync? && MaySkip(formats, s, sc, version)
    ensures
      var r := Restored(formats, s, sc, version).restores[|s.restores|];
      Justified(r, s.history)
  {
    var key := ScannerStepKey(sc.toolsKey);
    var r := Restored(formats, s, sc, version).restores[|s.restores|];
    assert STEP_PREFIX <= key;
    var i :| 0 <= i < |s.history| && s.history[i].run < s.runs
      && Explains(s.history[i], s.cp.targetFingerprint, key, s.cp.steps[key]);
    StepKeyIsInjective(sc.toolsKey, s.history[i].toolsKey);
    assert JustifiedBy(r, s.history[i]);
  }

  lemma RestoringKeepsSound(formats: Formats, s: State, sc: ScannerDef, version: string)
    requires Sound(s) && s.phase.Sync? && MaySkip(formats, s, sc, version)
    ensures Sound(Restored(formats, s, sc, version))
  {
    var s1 := Restored(formats, s, sc, version);
    RestoringIsJustified(formats, s, sc, version);
    assert Explained(s1.cp, s.history, s.runs);
    ExplainedLater(s1.cp, s.history, s.runs, s.history, s.runs + 1);
  }

  lemma AfterSyncKeepsSound(s: State)
    requires Sound(s) && s.phase.Sync?
    ensures Sound(AfterSync(s))
  {
    ExplainedLater(s.cp, s.history, s.runs, s.history, s.runs + 1);
  }

  lemma SyncKeepsSound(formats: Formats, s: State, version: string)
    requires Sound(s) && Enabled(s, SyncStep(version))
    ensures Sound(Next(formats, s, SyncStep(version)))
  {
    var sc := s.run.scanners[s.phase.i];
    var s1 := s;
    if Considered(sc) && MaySkip(formats, s, sc, version) {
      s1 := Restored(formats, s, sc, version);
      RestoringKeepsSound(formats, s, sc, version);
    }
    AfterSyncKeepsSound(s1);
    assert Next(formats, s, SyncStep(version)) == AfterSync(s1);
  }

  lemma ExecutionKeepsExplained(formats: Formats, s: State, sc: ScannerDef, version: string)
    requires Sound(s) && s.phase.Running?
    ensures Explained(Executed(formats, s, sc, version).cp, Executed(formats, s, sc, version).history, s.runs + 1)
  {
    var s' := Executed(formats, s, sc, version);
    ExplainedLater(s.cp, s.history, s.runs + 1, s'.history, s.runs + 1);
    if s'.cp != s.cp {
      var x := s'.history[|s.history|];
      var key := ScannerStepKey(sc.toolsKey);
      assert Explains(x, s'.cp.targetFingerprint, key, s'.cp.steps[key]);
      forall k | k in s'.cp.steps && STEP_PREFIX <= k
        ensures exists i :: 0 <= i < |s'.history| && s'.history[i].run < s.runs + 1
                            && Explains(s'.history[i], s'.cp.targetFingerprint, k, s'.cp.steps[k])
      {
        if k != key {
          var i :| 0 <= i < |s'.history| && s'.history[i].run < s.runs + 1
            && Explains(s'.history[i], s.cp.targetFingerprint, k, s.cp.steps[k]);
        }
      }
    }
  }

  lemma ExecKeepsSound(formats: Formats, s: State, ok: bool, version: string)
    requires Sound(s) && Enabled(s, FinishExec(ok, version))
    ensures Sound(Next(formats, s, FinishExec(ok, version)))
  {
    if ok {
      var sc := s.run.scanners[s.phase.i];
      var s' := Executed(formats, s, sc, version);
      ExecutionKeepsExplained(formats, s, sc, version);
      if s.disk.Some? {
        ExplainedLater(s.disk.value, s.history, s.runs + 1, s'.history, s.runs + 1);
      }
      forall i | 0 <= i < |s'.restores| ensures Justified(s'.restores[i], s'.history) {
        JustifiedLater(s.restores[i], s.history, s'.history);
      }
    }
  }

  lemma BeginKeepsSound(formats: Formats, s: State, run: RunConfig)
    requires Sound(s) && s.phase.Idle?
    ensures Sound(Begun(s, run))
  {
    var s' := Begun(s, run);
    assert Explained(Loaded(s.disk), s.history, s.runs + 1);
    if run.disabled {
      if s.disk.Some? {
        ExplainedLater(s.disk.value, s.history, s.runs + 1, s.history, s.runs + 2);
      }
    } else {
      OpeningKeepsExplained(Loaded(s.disk), run, s.history, s.runs + 1);
    }
    ExplainedLater(s'.cp, s.history, s.runs + 1, s.history, s.runs + 2);
  }

  lemma EventKeepsSound(formats: Formats, s: State, e: Event)
    requires Sound(s) && Enabled(s, e)
    ensures Sound(Next(formats, s, e))
  {
    match e {
      case Begin(run) => BeginKeepsSound(formats, s, run);
      case SyncStep(version) => SyncKeepsSound(formats, s, version);
      case FinishExec(ok, version) => ExecKeepsSound(formats, s, ok, version);
      case Finish => assert Explained(Loaded(s.disk), s.history, s.runs + 1);
      case _ =>
    }
  }

  lemma {:induction false} RunKeepsSound(formats: Formats, s: State, es: seq<Event>)
    requires Sound(s) && Possible(formats, s, es)
    ensures Sound(Run(formats, s, es))
    decreases |es|
  {
    if es != [] {
      EventKeepsSound(formats, s, es[0]);
      RunKeepsSound(formats, Next(formats, s, es[0]), es[1..]);
    }
  }

  /** Over any number of runs, crashes and changes of HEAD, configuration, tool versions, artifacts
      and checkpoint file: every restored scanner is justified by a real execution of an earlier run. */
  lemma RestoredScannersAreJustified(formats: Formats, es: seq<Event>, i: nat)
    requires Possible(formats, Initial, es) && i < |Run(formats, Initial, es).restores|
    ensures Justified(Run(formats, Initial, es).restores[i], Run(formats, Initial, es).history)
  {
    RunKeepsSound(formats, Initial, es);
  }
}
