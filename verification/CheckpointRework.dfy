/** Bounded rework: in a steady environment a recorded scanner is never executed again. */
module CheckpointRework {
  import opened Collections
  import opened Checkpoint
  import opened CheckpointProtocol

  /** A scanner that takes part in resuming. */
  predicate Eligible(sc: ScannerDef) {
    Considered(sc) && sc.checkpoint.Some?
  }

  /** The fixed run configuration: resuming is possible, and names and tools keys are unique. */
  ghost predicate Resumable(c: RunConfig) {
    && !c.disabled && c.head != ""
    && (forall i, j :: 0 <= i < j < |c.scanners| ==> c.scanners[i].name != c.scanners[j].name)
    && (forall i, j :: 0 <= i < j < |c.scanners| && c.scanners[i].toolsKey == c.scanners[j].toolsKey ==>
       c.scanners[i].toolsKey == "")
  }

  datatype Setting = Setting(formats: Formats, c: RunConfig, versionOf: string -> string)

  /** Nothing changes between runs: same configuration, HEAD and versions, no lost checkpoint, and
      only a running scanner writes, into its own directory.  An execution of an eligible scanner
      that is not cut off succeeds and leaves a valid artifact. */
  ghost predicate Steady(env: Setting, s: State, e: Event) {
    match e
    case Begin(run) => run == env.c
    case SyncStep(version) => s.phase.Sync? && s.phase.i < |s.run.scanners|
      && version == env.versionOf(s.run.scanners[s.phase.i].toolsKey)
    case FinishExec(ok, version) =>
      && s.phase.Running? && s.phase.i < |s.run.scanners|
      && var sc := s.run.scanners[s.phase.i];
      (Eligible(sc) ==> ok && version == env.versionOf(sc.toolsKey)
                        && ValidatePrimaryArtifact(env.formats, s.files, sc.toolsKey, sc.checkpoint.value).Ok?)
    case WriteFile(key, _, _) => s.phase.Running? && s.phase.i < |s.run.scanners|
      && key == s.run.scanners[s.phase.i].toolsKey
    case LoseCheckpoint => false
    case _ => true
  }

  ghost predicate SteadyRun(env: Setting, s: State, es: seq<Event>)
    decreases |es|
  {
    es == [] || (Enabled(s, es[0]) && Steady(env, s, es[0]) && SteadyRun(env, Next(env.formats, s, es[0]), es[1..]))
  }

  lemma {:induction false} SteadyRunIsPossible(env: Setting, s: State, es: seq<Event>)
    requires SteadyRun(env, s, es)
    ensures Possible(env.formats, s, es)
    decreases |es|
  {
    if es != [] {
      SteadyRunIsPossible(env, Next(env.formats, s, es[0]), es[1..]);
    }
  }

  // ----- the invariant -----

  predicate Covered(steps: map<string, Record>, sc: ScannerDef) {
    ScannerStepKey(sc.toolsKey) in steps
  }

  /** The record of `sc` would be accepted now. */
  ghost predicate Accepted(env: Setting, cp: CheckpointData, files: Files, sc: ScannerDef) {
    SkipRefusal(env.formats, cp, sc.toolsKey, sc.checkpoint, files, Sha256(sc.Config()), Sha256(env.c.global),
                sc.Reported(env.versionOf(sc.toolsKey))).None?
  }

  ghost predicate Good(env: Setting, cp: CheckpointData, files: Files) {
    && cp.scanConfigHash == Some(Sha256(env.c.global)) && cp.targetFingerprint == env.c.head
    && (forall k :: k in cp.steps ==> exists i :: 0 <= i < |env.c.scanners| && IsKeyOf(env.c.scanners[i], k))
    && forall i :: 0 <= i < |env.c.scanners| && Eligible(env.c.scanners[i]) && Covered(cp.steps, env.c.scanners[i]) ==>
                     Accepted(env, cp, files, env.c.scanners[i])
  }

  ghost predicate IsKeyOf(sc: ScannerDef, key: string) {
    Eligible(sc) && key == ScannerStepKey(sc.toolsKey)
  }

  /** Every covered scanner from `from` on has been restored in this run. */
  ghost predicate RestoredFrom(env: Setting, s: State, from: nat) {
    forall j ::
      from <= j < |env.c.scanners| && Eligible(env.c.scanners[j]) && Covered(s.cp.steps, env.c.scanners[j]) ==>
        env.c.scanners[j].name in s.restored
  }

  ghost predicate RestoredUpTo(env: Setting, s: State, to: nat) {
    forall j ::
      0 <= j < to && j < |env.c.scanners| && Eligible(env.c.scanners[j]) && Covered(s.cp.steps, env.c.scanners[j]) ==>
        env.c.scanners[j].name in s.restored
  }

  ghost predicate PhaseInv(env: Setting, s: State) {
    && s.run == env.c && s.disk.Some? && Good(env, s.cp, s.files)
    && (!s.phase.Saving? ==> s.cp.steps == s.disk.value.steps)
    && match s.phase
       case Idle => false
       case Sync(i) => i < |env.c.scanners| && RestoredUpTo(env, s, i)
       case Exec(i) => i <= |env.c.scanners| && RestoredFrom(env, s, i)
       case Running(i) => i < |env.c.scanners| && env.c.scanners[i].AdminEnabled() && RestoredFrom(env, s, i + 1)
                          && (Eligible(env.c.scanners[i]) ==> !Covered(s.cp.steps, env.c.scanners[i]))
       case Saving(i) =>
         && i < |env.c.scanners| && RestoredFrom(env, s, i + 1) && Eligible(env.c.scanners[i])
         && Covered(s.cp.steps, env.c.scanners[i])
         && s.disk.value.steps == s.cp.steps - {ScannerStepKey(env.c.scanners[i].toolsKey)}
  }

  ghost predicate Inv(env: Setting, s: State) {
    && (s.disk.Some? ==> Good(env, s.disk.value, s.files))
    && (!s.phase.Idle? ==> PhaseInv(env, s))
  }

  lemma BeginKeepsInv(env: Setting, s: State)
    requires Resumable(env.c) && Inv(env, s) && s.phase.Idle?
    ensures Inv(env, Begun(s, env.c))
    ensures Begun(s, env.c).disk.value.steps == Loaded(s.disk).steps
  {
    var cp := Loaded(s.disk);
    var s' := Begun(s, env.c);
    if s.disk.None? {
      assert Invalidated(cp) == cp;
    }
    assert s'.cp.steps == cp.steps;
    GoodDependsOnSteps(env, if s.disk.Some? then cp else s'.cp, s'.cp, s.files);
  }

  /** Only the records and the two top-level hashes matter. */
  lemma GoodDependsOnSteps(env: Setting, cp: CheckpointData, cp': CheckpointData, files: Files)
    requires Good(env, cp, files) || cp.steps == map[]
    requires cp'.steps == cp.steps && cp'.scanConfigHash == Some(Sha256(env.c.global))
        && cp'.targetFingerprint == env.c.head
    ensures Good(env, cp', files)
  {
    forall i | 0 <= i < |env.c.scanners| && Eligible(env.c.scanners[i]) && Covered(cp'.steps, env.c.scanners[i])
      ensures Accepted(env, cp', files, env.c.scanners[i])
    {
      assert Accepted(env, cp, files, env.c.scanners[i]);
    }
  }

  /** The state of the scanner after its turn in the sync loop. */
  function Turned(env: Setting, s: State, sc: ScannerDef, version: string): State {
    if Considered(sc) && MaySkip(env.formats, s, sc, version) then Restored(env.formats, s, sc, version) else s
  }

  lemma TurnKeeps(env: Setting, s: State, sc: ScannerDef, version: string)
    ensures
      var s1 := Turned(env, s, sc, version);
      && s1.run == s.run && s1.phase == s.phase && s1.files == s.files && s.restored <= s1.restored
      && s1.cp.steps == s.cp.steps && s1.cp.scanConfigHash == s.cp.scanConfigHash
         && s1.cp.targetFingerprint == s.cp.targetFingerprint
      && (s1 == s || s1.disk == Some(s1.cp))
      && (Considered(sc) && MaySkip(env.formats, s, sc, version) ==> sc.name in s1.restored)
  {
  }

  /** A covered scanner is restored in its turn. */
  lemma TurnRestores(env: Setting, s: State, sc: ScannerDef, i: nat)
    requires Good(env, s.cp, s.files) && s.run == env.c && Resumable(env.c)
    requires i < |env.c.scanners| && sc == env.c.scanners[i] && Eligible(sc) && Covered(s.cp.steps, sc)
    ensures MaySkip(env.formats, s, sc, env.versionOf(sc.toolsKey))
  {
    assert Accepted(env, s.cp, s.files, env.c.scanners[i]);
  }

  lemma TurnKeepsGood(env: Setting, s: State, i: nat, version: string)
    requires Resumable(env.c) && Inv(env, s) && s.phase == Sync(i)
        && version == env.versionOf(env.c.scanners[i].toolsKey)
    ensures
      var s1 := Turned(env, s, env.c.scanners[i], version);
      && Good(env, s1.cp, s1.files) && RestoredUpTo(env, s1, i + 1)
      && s1.disk.Some? && s1.cp.steps == s1.disk.value.steps == s.disk.value.steps && Good(env, s1.disk.value, s1.files)
  {
    var sc := env.c.scanners[i];
    var s1 := Turned(env, s, sc, version);
    TurnKeeps(env, s, sc, version);
    if Eligible(sc) && Covered(s.cp.steps, sc) {
      TurnRestores(env, s, sc, i);
    }
    GoodDependsOnSteps(env, s.cp, s1.cp, s.files);
  }

  lemma AdvanceKeepsInv(env: Setting, s: State, i: nat)
    requires s.phase == Sync(i) && i < |env.c.scanners| && s.run == env.c && RestoredUpTo(env, s, i + 1)
    requires Good(env, s.cp, s.files) && s.disk.Some? && s.cp.steps == s.disk.value.steps
        && Good(env, s.disk.value, s.files)
    ensures Inv(env, AfterSync(s))
  {
  }

  lemma SyncKeepsInv(env: Setting, s: State, version: string)
    requires Resumable(env.c) && Inv(env, s) && Enabled(s, SyncStep(version)) && Steady(env, s, SyncStep(version))
    ensures Inv(env, Next(env.formats, s, SyncStep(version)))
    ensures Next(env.formats, s, SyncStep(version)).disk.value.steps == s.disk.value.steps
  {
    var s1 := Turned(env, s, env.c.scanners[s.phase.i], version);
    TurnKeeps(env, s, env.c.scanners[s.phase.i], version);
    TurnKeepsGood(env, s, s.phase.i, version);
    AdvanceKeepsInv(env, s1, s.phase.i);
    assert Next(env.formats, s, SyncStep(version)) == AfterSync(s1);
  }

  lemma StartKeepsInv(env: Setting, s: State)
    requires Resumable(env.c) && Inv(env, s) && Enabled(s, StartExec)
    ensures Inv(env, Next(env.formats, s, StartExec))
  {
    var sc := env.c.scanners[s.phase.i];
    if Eligible(sc) && Covered(s.cp.steps, sc) {
      assert sc.name in s.restored;
    }
  }

  /** Writing into the directory of an unrecorded scanner spoils no record. */
  lemma StillAccepted(env: Setting, cp: CheckpointData, files: Files, files': Files, sc: ScannerDef)
    requires sc.checkpoint.Some? && Accepted(env, cp, files, sc)
    requires
      var at := (sc.toolsKey, sc.checkpoint.value.primaryArtifact);
      (at in files' <==> at in files) && (at in files ==> files'[at] == files[at])
    ensures Accepted(env, cp, files', sc)
  {
  }

  lemma WriteKeepsGood(env: Setting, cp: CheckpointData, files: Files, files': Files, i: nat)
    requires Resumable(env.c) && Good(env, cp, files) && i < |env.c.scanners|
    requires Eligible(env.c.scanners[i]) ==> !Covered(cp.steps, env.c.scanners[i])
    requires forall k, f :: k != env.c.scanners[i].toolsKey ==>
                              ((k, f) in files' <==> (k, f) in files)
                                && ((k, f) in files ==> files'[(k, f)] == files[(k, f)])
    ensures Good(env, cp, files')
  {
    forall j | 0 <= j < |env.c.scanners| && Eligible(env.c.scanners[j]) && Covered(cp.steps, env.c.scanners[j])
      ensures Accepted(env, cp, files', env.c.scanners[j])
    {
      var sc := env.c.scanners[j];
      assert Accepted(env, cp, files, sc);
      assert sc.toolsKey != env.c.scanners[i].toolsKey;
      var at := (sc.toolsKey, sc.checkpoint.value.primaryArtifact);
      assert (at in files' <==> at in files) && (at in files ==> files'[at] == files[at]);
      StillAccepted(env, cp, files, files', sc);
    }
  }

  lemma WriteFileKeepsInv(env: Setting, s: State, e: Event)
    requires Resumable(env.c) && Inv(env, s) && e.WriteFile? && Steady(env, s, e)
    ensures Inv(env, Next(env.formats, s, e))
  {
    var s' := Next(env.formats, s, e);
    WriteKeepsGood(env, s.cp, s.files, s'.files, s.phase.i);
    WriteKeepsGood(env, s.disk.value, s.files, s'.files, s.phase.i);
  }

  function WithRecord(env: Setting, cp: CheckpointData, files: Files, sc: ScannerDef): CheckpointData
    requires sc.checkpoint.Some?
  {
    Recorded(env.formats, cp, sc.toolsKey, sc.checkpoint.value, files, Sha256(sc.Config()), Sha256(env.c.global),
             sc.Reported(env.versionOf(sc.toolsKey)), true)
  }

  lemma RecordShape(env: Setting, cp: CheckpointData, files: Files, sc: ScannerDef)
    requires Eligible(sc) && ValidatePrimaryArtifact(env.formats, files, sc.toolsKey, sc.checkpoint.value).Ok?
    ensures
      var cp' := WithRecord(env, cp, files, sc);
      && Accepted(env, cp', files, sc) && Covered(cp'.steps, sc)
      && cp'.scanConfigHash == cp.scanConfigHash && cp'.targetFingerprint == cp.targetFingerprint
      && cp'.steps.Keys == cp.steps.Keys + {ScannerStepKey(sc.toolsKey)}
      && cp'.steps - {ScannerStepKey(sc.toolsKey)} == cp.steps - {ScannerStepKey(sc.toolsKey)}
  {
  }

  lemma RecordKeepsOthers(env: Setting, cp: CheckpointData, files: Files, sc: ScannerDef, other: ScannerDef)
    requires Eligible(sc) && ValidatePrimaryArtifact(env.formats, files, sc.toolsKey, sc.checkpoint.value).Ok?
    requires other.toolsKey != sc.toolsKey
    ensures Covered(WithRecord(env, cp, files, sc).steps, other) <==> Covered(cp.steps, other)
    ensures Accepted(env, cp, files, other) ==> Accepted(env, WithRecord(env, cp, files, sc), files, other)
  {
    StepKeyIsInjective(other.toolsKey, sc.toolsKey);
  }

  /** The record just made is accepted, and the others are as before. */
  lemma RecordKeepsGood(env: Setting, cp: CheckpointData, files: Files, i: nat)
    requires Resumable(env.c) && Good(env, cp, files) && i < |env.c.scanners| && Eligible(env.c.scanners[i])
    requires ValidatePrimaryArtifact(env.formats, files, env.c.scanners[i].toolsKey,
        env.c.scanners[i].checkpoint.value).Ok?
    ensures Good(env, WithRecord(env, cp, files, env.c.scanners[i]), files)
  {
    var sc := env.c.scanners[i];
    var cp' := WithRecord(env, cp, files, sc);
    RecordShape(env, cp, files, sc);
    forall k | k in cp'.steps ensures exists j :: 0 <= j < |env.c.scanners| && IsKeyOf(env.c.scanners[j], k) {
      if k == ScannerStepKey(sc.toolsKey) {
        assert IsKeyOf(env.c.scanners[i], k);
      } else {
        assert k in cp.steps;
      }
    }
    forall j | 0 <= j < |env.c.scanners| && Eligible(env.c.scanners[j]) && Covered(cp'.steps, env.c.scanners[j])
      ensures Accepted(env, cp', files, env.c.scanners[j])
    {
      if j != i {
        RecordKeepsOthers(env, cp, files, sc, env.c.scanners[j]);
      }
    }
  }

  lemma StillRestored(env: Setting, s: State, s': State, i: nat)
    requires Resumable(env.c) && i < |env.c.scanners| && Eligible(env.c.scanners[i]) && RestoredFrom(env, s, i + 1)
    requires ValidatePrimaryArtifact(env.formats, s.files, env.c.scanners[i].toolsKey,
        env.c.scanners[i].checkpoint.value).Ok?
    requires s'.cp == WithRecord(env, s.cp, s.files, env.c.scanners[i]) && s'.restored == s.restored
    ensures RestoredFrom(env, s', i + 1)
  {
    forall j | i + 1 <= j < |env.c.scanners| && Eligible(env.c.scanners[j]) && Covered(s'.cp.steps, env.c.scanners[j])
      ensures env.c.scanners[j].name in s.restored
    {
      RecordKeepsOthers(env, s.cp, s.files, env.c.scanners[i], env.c.scanners[j]);
      assert Covered(s.cp.steps, env.c.scanners[j]);
    }
  }

  lemma RecordIsPending(env: Setting, s: State, s': State, i: nat)
    requires Resumable(env.c) && PhaseInv(env, s) && s.phase == Running(i) && Eligible(env.c.scanners[i])
    requires ValidatePrimaryArtifact(env.formats, s.files, env.c.scanners[i].toolsKey,
        env.c.scanners[i].checkpoint.value).Ok?
    requires s' == s.(phase := Saving(i), cp := s'.cp, history := s'.history)
    requires s'.cp == WithRecord(env, s.cp, s.files, env.c.scanners[i])
    ensures PhaseInv(env, s')
  {
    RecordKeepsGood(env, s.cp, s.files, i);
    RecordShape(env, s.cp, s.files, env.c.scanners[i]);
    StillRestored(env, s, s', i);
    assert s.cp.steps - {ScannerStepKey(env.c.scanners[i].toolsKey)} == s.cp.steps;
  }

  lemma FinishEligible(env: Setting, s: State, e: Event)
    requires Resumable(env.c) && Inv(env, s) && e.FinishExec? && Enabled(s, e) && Steady(env, s, e)
    requires Eligible(env.c.scanners[s.phase.i])
    ensures PhaseInv(env, Next(env.formats, s, e)) && Next(env.formats, s, e).phase == Saving(s.phase.i)
  {
    EligibleOutcome(env, s, e);
    RecordIsPending(env, s, Next(env.formats, s, e), s.phase.i);
  }

  lemma EligibleOutcome(env: Setting, s: State, e: Event)
    requires Resumable(env.c) && Inv(env, s) && e.FinishExec? && Enabled(s, e) && Steady(env, s, e)
    requires Eligible(env.c.scanners[s.phase.i])
    ensures
      var s' := Next(env.formats, s, e);
      && s' == s.(phase := Saving(s.phase.i), cp := s'.cp, history := s'.history)
      && s'.cp == WithRecord(env, s.cp, s.files, env.c.scanners[s.phase.i])
  {
  }

  lemma FinishOther(env: Setting, s: State, e: Event)
    requires Resumable(env.c) && Inv(env, s) && e.FinishExec? && Enabled(s, e)
    requires !Eligible(env.c.scanners[s.phase.i])
    ensures PhaseInv(env, Next(env.formats, s, e)) && Next(env.formats, s, e).phase == Exec(s.phase.i + 1)
  {
  }

  lemma FinishExecKeepsInv(env: Setting, s: State, e: Event)
    requires Resumable(env.c) && Inv(env, s) && e.FinishExec? && Enabled(s, e) && Steady(env, s, e)
    ensures Inv(env, Next(env.formats, s, e))
  {
    if Eligible(env.c.scanners[s.phase.i]) {
      FinishEligible(env, s, e);
    } else {
      FinishOther(env, s, e);
    }
    assert Next(env.formats, s, e).disk == s.disk && Next(env.formats, s, e).files == s.files;
  }

  lemma EventKeepsInv(env: Setting, s: State, e: Event)
    requires Resumable(env.c) && Inv(env, s) && Enabled(s, e) && Steady(env, s, e)
    ensures Inv(env, Next(env.formats, s, e))
  {
    match e {
      case Begin(_) => BeginKeepsInv(env, s);
      case SyncStep(version) => SyncKeepsInv(env, s, version);
      case StartExec => StartKeepsInv(env, s);
      case FinishExec(_, _) => FinishExecKeepsInv(env, s, e);
      case WriteFile(_, _, _) => WriteFileKeepsInv(env, s, e);
      case Finish => GoodDependsOnSteps(env, s.disk.value, Next(env.formats, s, e).disk.value, s.files);
      case Save =>
      case Crash =>
      case LoseCheckpoint =>
    }
  }

  // ----- counting -----

  ghost function EligibleKeys(c: RunConfig): set<string> {
    set i | 0 <= i < |c.scanners| && Eligible(c.scanners[i]) :: c.scanners[i].toolsKey
  }

  function CountIn(starts: seq<string>, keys: set<string>): nat {
    if starts == [] then 0 else CountIn(starts[..|starts| - 1], keys) + if starts[|starts| - 1] in keys then 1 else 0
  }

  lemma CountSnoc(starts: seq<string>, key: string, keys: set<string>)
    ensures CountIn(starts + [key], keys) == CountIn(starts, keys) + if key in keys then 1 else 0
  {
    assert (starts + [key])[..|starts|] == starts;
  }

  /** An eligible execution is under way, or done and not yet saved. */
  predicate Unsaved(env: Setting, s: State) {
    (s.phase.Running? || s.phase.Saving?) && s.phase.i < |env.c.scanners| && Eligible(env.c.scanners[s.phase.i])
  }

  ghost predicate Budget(env: Setting, s: State) {
    CountIn(s.starts, EligibleKeys(env.c)) <= |Loaded(s.disk).steps.Keys| + s.crashes + if Unsaved(env, s) then 1 else 0
  }

  lemma IneligibleKey(env: Setting, i: nat)
    requires Resumable(env.c) && i < |env.c.scanners| && env.c.scanners[i].AdminEnabled()
    ensures env.c.scanners[i].toolsKey in EligibleKeys(env.c) <==> Eligible(env.c.scanners[i])
  {
    if env.c.scanners[i].toolsKey in EligibleKeys(env.c) {
      var j :| 0 <= j < |env.c.scanners| && Eligible(env.c.scanners[j])
        && env.c.scanners[j].toolsKey == env.c.scanners[i].toolsKey;
      assert j == i;
    }
  }

  lemma OneMoreKey<K, V>(more: map<K, V>, fewer: map<K, V>, key: K)
    requires key in more && fewer == more - {key}
    ensures |more.Keys| == |fewer.Keys| + 1
  {
    assert more.Keys == fewer.Keys + {key};
  }

  lemma SaveAddsOne(env: Setting, s: State)
    requires Inv(env, s) && s.phase.Saving?
    ensures |Next(env.formats, s, Save).disk.value.steps.Keys| == |s.disk.value.steps.Keys| + 1
  {
    var key := ScannerStepKey(env.c.scanners[s.phase.i].toolsKey);
    assert PhaseInv(env, s);
    OneMoreKey(s.cp.steps, s.disk.value.steps, key);
  }

  lemma StartKeepsBudget(env: Setting, s: State)
    requires Resumable(env.c) && Inv(env, s) && Budget(env, s) && Enabled(s, StartExec)
    ensures Budget(env, Next(env.formats, s, StartExec)) && Next(env.formats, s, StartExec).disk == s.disk
  {
    var sc := env.c.scanners[s.phase.i];
    if ToRun(s, sc) {
      CountSnoc(s.starts, sc.toolsKey, EligibleKeys(env.c));
      IneligibleKey(env, s.phase.i);
    }
  }

  lemma FinishExecKeepsBudget(env: Setting, s: State, e: Event)
    requires Resumable(env.c) && Inv(env, s) && Budget(env, s) && e.FinishExec? && Enabled(s, e) && Steady(env, s, e)
    ensures Budget(env, Next(env.formats, s, e)) && Next(env.formats, s, e).disk == s.disk
  {
    if Eligible(env.c.scanners[s.phase.i]) {
      FinishEligible(env, s, e);
    } else {
      FinishOther(env, s, e);
    }
  }

  lemma EventKeepsBudget(env: Setting, s: State, e: Event)
    requires Resumable(env.c) && Inv(env, s) && Budget(env, s) && Enabled(s, e) && Steady(env, s, e)
    ensures Budget(env, Next(env.formats, s, e))
  {
    match e {
      case Begin(_) => BeginKeepsInv(env, s);
      case SyncStep(version) => SyncKeepsInv(env, s, version);
      case StartExec => StartKeepsBudget(env, s);
      case FinishExec(_, _) => FinishExecKeepsBudget(env, s, e);
      case Save => SaveAddsOne(env, s);
      case _ =>
    }
  }

  /** In a steady environment no saved record is lost. */
  lemma EventKeepsRecords(env: Setting, s: State, e: Event)
    requires Resumable(env.c) && Inv(env, s) && Enabled(s, e) && Steady(env, s, e)
    ensures Loaded(s.disk).steps.Keys <= Loaded(Next(env.formats, s, e).disk).steps.Keys
  {
    match e {
      case Begin(_) => BeginKeepsInv(env, s);
      case SyncStep(version) => SyncKeepsInv(env, s, version);
      case _ =>
    }
  }

  lemma {:induction false} RunKeepsBudget(env: Setting, s: State, es: seq<Event>)
    requires Resumable(env.c) && Inv(env, s) && Budget(env, s) && SteadyRun(env, s, es)
    ensures Possible(env.formats, s, es)
    ensures Inv(env, Run(env.formats, s, es)) && Budget(env, Run(env.formats, s, es))
    decreases |es|
  {
    SteadyRunIsPossible(env, s, es);
    if es != [] {
      EventKeepsInv(env, s, es[0]);
      EventKeepsBudget(env, s, es[0]);
      RunKeepsBudget(env, Next(env.formats, s, es[0]), es[1..]);
    }
  }

  lemma {:induction false} KeysAreFew(steps: map<string, Record>, scanners: seq<ScannerDef>)
    requires forall k :: k in steps ==> exists i :: 0 <= i < |scanners| && IsKeyOf(scanners[i], k)
    ensures |steps.Keys| <= |scanners|
  {
    if scanners == [] {
      assert steps.Keys == {};
    } else {
      var n := |scanners| - 1;
      var key := ScannerStepKey(scanners[n].toolsKey);
      var rest := steps - {key};
      forall k | k in rest ensures exists i :: 0 <= i < n && IsKeyOf(scanners[..n][i], k) {
        var i :| 0 <= i < |scanners| && IsKeyOf(scanners[i], k);
        assert IsKeyOf(scanners[..n][i], k);
      }
      KeysAreFew(rest, scanners[..n]);
      assert steps.Keys <= rest.Keys + {key};
      assert |rest.Keys + {key}| <= |rest.Keys| + 1;
      SubsetSize(steps.Keys, rest.Keys + {key});
    }
  }

  /** In a steady environment, over any sequence of crashed and restarted runs, resumable scanners
      are executed at most (number of scanners) + (number of crashes) times. */
  lemma BoundedRework(env: Setting, es: seq<Event>)
    requires Resumable(env.c) && SteadyRun(env, Initial, es)
    ensures Possible(env.formats, Initial, es)
    ensures
      var s := Run(env.formats, Initial, es);
      CountIn(s.starts, EligibleKeys(env.c)) <= |env.c.scanners| + s.crashes + if s.phase.Idle? then 0 else 1
  {
    RunKeepsBudget(env, Initial, es);
    var s := Run(env.formats, Initial, es);
    if s.disk.Some? {
      KeysAreFew(s.disk.value.steps, env.c.scanners);
    }
  }

  lemma RecordedIsNotToRun(env: Setting, s: State, i: nat)
    requires Resumable(env.c) && Inv(env, s) && s.phase.Exec? && s.phase.i < |env.c.scanners|
    requires i < |env.c.scanners| && Eligible(env.c.scanners[i]) && Covered(Loaded(s.disk).steps, env.c.scanners[i])
    requires env.c.scanners[s.phase.i].toolsKey == env.c.scanners[i].toolsKey
    ensures s.phase.i == i && !ToRun(s, env.c.scanners[i])
  {
    assert Covered(s.cp.steps, env.c.scanners[i]);
  }

  lemma OnlyStartStarts(formats: Formats, s: State, e: Event)
    requires Enabled(s, e) && (e.StartExec? ==> !ToRun(s, s.run.scanners[s.phase.i]))
    ensures Next(formats, s, e).starts == s.starts
  {
  }

  lemma RecordedIsNotStarted(env: Setting, s: State, e: Event, i: nat)
    requires Resumable(env.c) && Inv(env, s) && Enabled(s, e)
    requires i < |env.c.scanners| && Eligible(env.c.scanners[i]) && Covered(Loaded(s.disk).steps, env.c.scanners[i])
    ensures CountIn(Next(env.formats, s, e).starts, {env.c.scanners[i].toolsKey}) ==
        CountIn(s.starts, {env.c.scanners[i].toolsKey})
  {
    if e.StartExec? && ToRun(s, s.run.scanners[s.phase.i]) {
      var key := s.run.scanners[s.phase.i].toolsKey;
      if key == env.c.scanners[i].toolsKey {
        RecordedIsNotToRun(env, s, i);
      }
      CountSnoc(s.starts, key, {env.c.scanners[i].toolsKey});
    } else {
      OnlyStartStarts(env.formats, s, e);
    }
  }

  /** From any state of a steady run, a scanner with a saved record is never executed again. */
  lemma {:induction false} RecordedNeverRunsAgain(env: Setting, s: State, es: seq<Event>, i: nat)
    requires Resumable(env.c) && Inv(env, s) && SteadyRun(env, s, es)
    requires i < |env.c.scanners| && Eligible(env.c.scanners[i])
    requires Covered(Loaded(s.disk).steps, env.c.scanners[i])
    ensures Possible(env.formats, s, es)
    ensures CountIn(Run(env.formats, s, es).starts, {env.c.scanners[i].toolsKey}) ==
            CountIn(s.starts, {env.c.scanners[i].toolsKey})
    decreases |es|
  {
    SteadyRunIsPossible(env, s, es);
    if es != [] {
      var s' := Next(env.formats, s, es[0]);
      EventKeepsInv(env, s, es[0]);
      EventKeepsRecords(env, s, es[0]);
      RecordedIsNotStarted(env, s, es[0], i);
      RecordedNeverRunsAgain(env, s', es[1..], i);
    }
  }

  lemma {:induction false} SteadySplits(env: Setting, s: State, a: seq<Event>, b: seq<Event>)
    requires Resumable(env.c) && Inv(env, s) && SteadyRun(env, s, a + b)
    ensures SteadyRun(env, s, a) && Possible(env.formats, s, a) && Inv(env, Run(env.formats, s, a))
    ensures SteadyRun(env, Run(env.formats, s, a), b)
    decreases |a|
  {
    if a == [] {
      assert a + b == b;
    } else {
      assert (a + b)[1..] == a[1..] + b;
      EventKeepsInv(env, s, a[0]);
      SteadySplits(env, Next(env.formats, s, a[0]), a[1..], b);
    }
  }

  /** Over any steady history from an empty directory: once the record of a scanner is on disk, the
      scanner is not executed any more, whatever crashes and restarts follow. */
  lemma NoRerunAfterRecord(env: Setting, a: seq<Event>, b: seq<Event>, i: nat)
    requires Resumable(env.c) && SteadyRun(env, Initial, a + b)
    requires i < |env.c.scanners| && Eligible(env.c.scanners[i]) && Possible(env.formats, Initial, a)
    requires Covered(Loaded(Run(env.formats, Initial, a).disk).steps, env.c.scanners[i])
    ensures Possible(env.formats, Initial, a + b)
    ensures CountIn(Run(env.formats, Initial, a + b).starts, {env.c.scanners[i].toolsKey}) ==
            CountIn(Run(env.formats, Initial, a).starts, {env.c.scanners[i].toolsKey})
  {
    SteadySplits(env, Initial, a, b);
    RecordedNeverRunsAgain(env, Run(env.formats, Initial, a), b, i);
    RunAppend(env.formats, Initial, a, b);
  }
}
