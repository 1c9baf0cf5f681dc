/** ScanOrchestrator.run_scan of scanner/core/orchestrator.py as the sequential code it is: one run
    over the results directory and the step registry.  It is proved to be a run of the checkpoint
    protocol and to perform exactly the planned registry operations. */
module Orchestrator {
  import opened Collections
  import opened Checkpoint
  import opened CheckpointProtocol
  import opened RunPlan
  import opened RunCompletion
  import opened ResumeDecision
  import opened ScanTrace
  import opened StepRegistry
  import Log = StepLog

  lemma ApplyOne(w: Log.World, op: Log.Op)
    ensures ApplyAll(w, [op]) == Log.Apply(w, op)
  {
    assert [op][..0] == [];
  }

  lemma ApplyTwo(w: Log.World, a: Log.Op, b: Log.Op)
    ensures ApplyAll(w, [a, b]) == Log.Apply(Log.Apply(w, a), b)
  {
    ApplyOne(w, a);
    assert [a, b][..1] == [a];
  }

  lemma ApplySegment(w: Log.World, seg: nat -> seq<Log.Op>, i: nat)
    ensures ApplyAll(w, FlatN(seg, i + 1)) == ApplyAll(ApplyAll(w, FlatN(seg, i)), seg(i))
  {
    ApplyAllAppend(w, FlatN(seg, i), seg(i));
  }

  lemma ApplyPrefix(w: Log.World, ops: seq<Log.Op>, k: nat)
    requires k < |ops|
    ensures ApplyAll(w, ops[..k + 1]) == ApplyAll(ApplyAll(w, ops[..k]), [ops[k]])
  {
    assert ops[..k + 1] == ops[..k] + [ops[k]];
    ApplyAllAppend(w, ops[..k], [ops[k]]);
  }

  lemma ApplyThree(w: Log.World, a: seq<Log.Op>, b: seq<Log.Op>, c: seq<Log.Op>)
    ensures ApplyAll(w, a + b + c) == ApplyAll(ApplyAll(ApplyAll(w, a), b), c)
  {
    ApplyAllAppend(w, a + b, c);
    ApplyAllAppend(w, a, b);
  }

  /** A segment list depends only on the segments in it. */
  lemma {:induction false} FlatSame(a: nat -> seq<Log.Op>, b: nat -> seq<Log.Op>, n: nat)
    requires forall i :: 0 <= i < n ==> a(i) == b(i)
    ensures FlatN(a, n) == FlatN(b, n)
  {
    if n > 0 {
      FlatSame(a, b, n - 1);
    }
  }

  // ----- protocol traces of an uninterrupted run -----

  predicate Undisturbed(e: Event) {
    !e.Crash? && !e.LoseCheckpoint?
  }

  /** The events lead from one state to the other, without a crash. */
  ghost predicate Traced(formats: Formats, s: State, es: seq<Event>, s': State) {
    && (forall i :: 0 <= i < |es| ==> Undisturbed(es[i]))
    && Possible(formats, s, es) && Run(formats, s, es) == s'
  }

  lemma TracedOne(formats: Formats, s: State, e: Event)
    requires Enabled(s, e) && Undisturbed(e)
    ensures Traced(formats, s, [e], Next(formats, s, e))
  {
    assert [e][1..] == [];
  }

  lemma TracedAppend(formats: Formats, s: State, a: seq<Event>, s1: State, b: seq<Event>, s2: State)
    requires Traced(formats, s, a, s1) && Traced(formats, s1, b, s2)
    ensures Traced(formats, s, a + b, s2)
  {
    RunAppend(formats, s, a, b);
  }

  lemma TracedSnoc(formats: Formats, s: State, a: seq<Event>, s1: State, e: Event)
    requires Traced(formats, s, a, s1) && Enabled(s1, e) && Undisturbed(e)
    ensures Traced(formats, s, a + [e], Next(formats, s1, e))
  {
    TracedOne(formats, s1, e);
    TracedAppend(formats, s, a, s1, [e], Next(formats, s1, e));
  }

  // ----- what the two loops keep -----

  /** A loop invariant over the trace so far, the protocol state, the registry and the index. */
  type LoopInv = (seq<Event>, State, Log.World, nat) -> bool

  /** Scanner i has taken its turn in the sync loop. */
  ghost predicate SyncedTo(formats: Formats, scanners: seq<ScannerDef>, now: Log.Time, i: nat, s: State, w: Log.World,
                           version: string, s': State, w': Log.World)
  {
    && i < |scanners| && Traced(formats, s, [SyncStep(version)], s')
    && (s'.restored == s.restored || s'.restored == s.restored + {scanners[i].name})
    && w' == ApplyAll(w, SyncSeg(scanners, s'.restored, now)(i))
  }

  ghost predicate SyncTurn(inv: LoopInv, formats: Formats, scanners: seq<ScannerDef>, now: Log.Time) {
    && (forall es, s, w, i: nat {:trigger inv(es, s, w, i)} ::
          i < |scanners| && inv(es, s, w, i) ==> scanners[i].name !in s.restored)
    && (forall es, s, w, i: nat, version, s', w'
          {:trigger inv(es, s, w, i), SyncedTo(formats, scanners, now, i, s, w, version, s', w')} ::
          inv(es, s, w, i) && SyncedTo(formats, scanners, now, i, s, w, version, s', w') ==>
            inv(es + [SyncStep(version)], s', w', i + 1))
  }

  ghost function SyncInv(formats: Formats, s0: State, w0: Log.World, scanners: seq<ScannerDef>,
      now: Log.Time): LoopInv {
    (es, s, w, i: nat) =>
      && Traced(formats, s0, es, s) && RestoredBelow(scanners, s.restored, i)
      && w == ApplyAll(w0, FlatN(SyncSeg(scanners, s.restored, now), i))
  }

  /** The restored scanners are among the first `i`. */
  ghost predicate RestoredBelow(scanners: seq<ScannerDef>, restored: set<string>, i: nat) {
    forall n :: n in restored ==> exists j :: 0 <= j < i && j < |scanners| && scanners[j].name == n
  }

  lemma NotYetSynced(scanners: seq<ScannerDef>, restored: set<string>, i: nat)
    requires Distinct(ScannerNames(scanners)) && i < |scanners| && RestoredBelow(scanners, restored, i)
    ensures scanners[i].name !in restored
  {
    var names := ScannerNames(scanners);
    forall j | 0 <= j < i ensures scanners[j].name != scanners[i].name {
      assert names[j] != names[i];
    }
  }

  /** Restoring a later scanner does not change what was done for the earlier ones. */
  lemma SyncedSegments(scanners: seq<ScannerDef>, before: set<string>, after: set<string>, now: Log.Time, i: nat)
    requires Distinct(ScannerNames(scanners)) && i < |scanners|
    requires after == before || after == before + {scanners[i].name}
    ensures FlatN(SyncSeg(scanners, before, now), i) == FlatN(SyncSeg(scanners, after, now), i)
  {
    assert ScannerNames(scanners)[i] == scanners[i].name;
    forall j | 0 <= j < i ensures SyncSeg(scanners, before, now)(j) == SyncSeg(scanners, after, now)(j) {
      assert ScannerNames(scanners)[j] == scanners[j].name != scanners[i].name;
      assert scanners[j].name in before <==> scanners[j].name in after;
    }
    FlatSame(SyncSeg(scanners, before, now), SyncSeg(scanners, after, now), i);
  }

  lemma SyncInvStarts(formats: Formats, s0: State, w0: Log.World, scanners: seq<ScannerDef>, now: Log.Time)
    requires s0.restored == {}
    ensures SyncInv(formats, s0, w0, scanners, now)([], s0, w0, 0)
  {
    assert Traced(formats, s0, [], s0);
    assert RestoredBelow(scanners, s0.restored, 0);
    assert ApplyAll(w0, FlatN(SyncSeg(scanners, s0.restored, now), 0)) == w0;
  }

  lemma SyncInvTurn(formats: Formats, s0: State, w0: Log.World, scanners: seq<ScannerDef>, now: Log.Time,
                    es: seq<Event>, s: State, w: Log.World, i: nat, version: string, s': State, w': Log.World)
    requires Distinct(ScannerNames(scanners)) && SyncInv(formats, s0, w0, scanners, now)(es, s, w, i)
    requires SyncedTo(formats, scanners, now, i, s, w, version, s', w')
    ensures SyncInv(formats, s0, w0, scanners, now)(es + [SyncStep(version)], s', w', i + 1)
  {
    TracedAppend(formats, s0, es, s, [SyncStep(version)], s');
    RestoredGrows(scanners, s.restored, s'.restored, i);
    assert w' == ApplyAll(w0, FlatN(SyncSeg(scanners, s'.restored, now), i + 1)) by {
      SyncedSegments(scanners, s.restored, s'.restored, now, i);
      ApplySegment(w0, SyncSeg(scanners, s'.restored, now), i);
    }
  }

  lemma RestoredGrows(scanners: seq<ScannerDef>, before: set<string>, after: set<string>, i: nat)
    requires i < |scanners| && RestoredBelow(scanners, before, i)
    requires after == before || after == before + {scanners[i].name}
    ensures RestoredBelow(scanners, after, i + 1)
  {
  }

  lemma SyncInvTurns(formats: Formats, s0: State, w0: Log.World, scanners: seq<ScannerDef>, now: Log.Time)
    requires Distinct(ScannerNames(scanners))
    ensures SyncTurn(SyncInv(formats, s0, w0, scanners, now), formats, scanners, now)
  {
    var inv := SyncInv(formats, s0, w0, scanners, now);
    forall es, s, w, i: nat | i < |scanners| && inv(es, s, w, i) ensures scanners[i].name !in s.restored {
      NotYetSynced(scanners, s.restored, i);
    }
    forall es, s, w, i: nat, version, s', w' | inv(es, s, w, i)
      && SyncedTo(formats, scanners, now, i, s, w, version, s', w')
      ensures inv(es + [SyncStep(version)], s', w', i + 1)
    {
      SyncInvTurn(formats, s0, w0, scanners, now, es, s, w, i, version, s', w');
    }
  }

  /** Scanner i has taken its turn in the execution loop. */
  ghost predicate ExecutedTo(formats: Formats, ops: seq<Log.Op>, s: State, w: Log.World, e: seq<Event>, s': State,
      w': Log.World) {
    Traced(formats, s, e, s') && w' == ApplyAll(w, ops)
  }

  ghost predicate ExecTurn(inv: LoopInv, formats: Formats, scanners: seq<ScannerDef>, restored: set<string>,
                           attempts: seq<Attempt>, now: Log.Time)
  {
    forall es, s, w, i: nat, e, s', w'
      {:trigger inv(es, s, w, i),
        ExecutedTo(formats, ExecOps(scanners[i], restored, attempts[i], now), s, w, e, s', w')} ::
      i < |scanners| && i < |attempts| && inv(es, s, w, i)
      && ExecutedTo(formats, ExecOps(scanners[i], restored, attempts[i], now), s, w, e, s', w') ==>
        inv(es + e, s', w', i + 1)
  }

  ghost function ExecInv(formats: Formats, s0: State, w0: Log.World, seg: nat -> seq<Log.Op>): LoopInv {
    (es, s, w, i: nat) => Traced(formats, s0, es, s) && w == ApplyAll(w0, FlatN(seg, i))
  }

  lemma ExecInvStarts(formats: Formats, s0: State, w0: Log.World, seg: nat -> seq<Log.Op>)
    ensures ExecInv(formats, s0, w0, seg)([], s0, w0, 0)
  {
    assert ApplyAll(w0, FlatN(seg, 0)) == w0;
  }

  lemma ExecInvTurn(formats: Formats, s0: State, w0: Log.World, seg: nat -> seq<Log.Op>, es: seq<Event>,
                    s: State, w: Log.World, i: nat, e: seq<Event>, s': State, w': Log.World)
    requires ExecInv(formats, s0, w0, seg)(es, s, w, i) && ExecutedTo(formats, seg(i), s, w, e, s', w')
    ensures ExecInv(formats, s0, w0, seg)(es + e, s', w', i + 1)
  {
    TracedAppend(formats, s0, es, s, e, s');
    ApplySegment(w0, seg, i);
  }

  lemma ExecInvTurns(formats: Formats, s0: State, w0: Log.World, scanners: seq<ScannerDef>, restored: set<string>,
                     attempts: seq<Attempt>, now: Log.Time)
    ensures ExecTurn(ExecInv(formats, s0, w0, ExecSeg(scanners, restored, attempts, now)),
                     formats, scanners, restored, attempts, now)
  {
    var seg := ExecSeg(scanners, restored, attempts, now);
    var inv := ExecInv(formats, s0, w0, seg);
    forall es, s, w, i: nat, e, s', w' |
      i < |scanners| && i < |attempts| && inv(es, s, w, i)
      && ExecutedTo(formats, ExecOps(scanners[i], restored, attempts[i], now), s, w, e, s', w')
      ensures inv(es + e, s', w', i + 1)
    {
      ExecInvTurn(formats, s0, w0, seg, es, s, w, i, e, s', w');
    }
  }

  lemma Regroup<T>(a: seq<T>, b: seq<T>, c: seq<T>, t: seq<T>, d: seq<T>, e: seq<T>)
    ensures (a + b) + (c + t) + (d + e) == a + (b + c + t + d + e)
  {
    assert (b + c + t) + (d + e) == b + c + t + d + e;
    assert (a + b) + (c + t) == a + (b + c + t) by {
      assert b + (c + t) == b + c + t;
    }
    assert (a + (b + c + t)) + (d + e) == a + ((b + c + t) + (d + e));
  }

  class ScanOrchestrator {
    const registry: StepRegistry
    const formats: Formats
    /** results/{scan_id}: the checkpoint file and the artifacts. */
    var disk: Option<CheckpointData>
    var files: Files
    var cp: CheckpointData
    var restored: set<string>
    var resumedAny: bool
    ghost var state: State

    constructor (registry: StepRegistry, formats: Formats, disk: Option<CheckpointData>, files: Files,
        ghost before: State)
      requires registry.Valid() && before.phase.Idle? && before.disk == disk && before.files == files
      ensures Valid() && this.registry == registry && this.formats == formats
      ensures state.phase.Idle? && state.disk == disk && state.files == files
      ensures state.history == before.history && state.restores == before.restores
    {
      this.registry, this.formats, this.disk, this.files := registry, formats, disk, files;
      cp, restored, resumedAny := EMPTY_CHECKPOINT, {}, false;
      state := before.(cp := EMPTY_CHECKPOINT, restored := {}, resumedAny := false);
    }

    ghost predicate Valid()
      reads this, registry, registry.steps.Values
    {
      && registry.Valid()
      && state.disk == disk && state.files == files
      && state.cp == cp && state.restored == restored && state.resumedAny == resumedAny
    }

    // ----- the registry side -----

    method RegisterEntry(entry: Log.Op)
      requires registry.Valid() && entry.Register?
      modifies registry, registry.steps.Values
      ensures registry.Valid() && fresh(registry.steps.Values - old(registry.steps.Values))
      ensures registry.View() == ApplyAll(old(registry.View()), [entry])
    {
      ApplyOne(registry.View(), entry);
      registry.RegisterStep(entry.name, entry.message, entry.timeoutSeconds);
    }

    /** Registering the planned steps one after the other. */
    method RegisterEntries(entries: seq<Log.Op>, ghost seg: nat -> seq<Log.Op>)
      requires registry.Valid() && forall i :: 0 <= i < |entries| ==> entries[i].Register? && seg(i) == [entries[i]]
      modifies registry, registry.steps.Values
      ensures registry.Valid() && fresh(registry.steps.Values - old(registry.steps.Values))
      ensures registry.View() == ApplyAll(old(registry.View()), FlatN(seg, |entries|))
    {
      ghost var w := registry.View();
      for i := 0 to |entries|
        modifies registry, registry.steps.Values
        invariant registry.Valid() && fresh(registry.steps.Values - old(registry.steps.Values))
        invariant registry.View() == ApplyAll(w, FlatN(seg, i))
      {
        RegisterEntry(entries[i]);
        ApplySegment(w, seg, i);
      }
    }

    method RegisterAll(plan: Plan)
      requires registry.Valid()
      modifies registry, registry.steps.Values
      ensures registry.Valid() && fresh(registry.steps.Values - old(registry.steps.Values))
      ensures registry.View() == ApplyAll(old(registry.View()), FlatN(RegisterSeg(plan), |PlannedNames(plan)|))
    {
      var names := PlannedNames(plan);
      var entries := seq(|names|, i requires 0 <= i < |names| => RegisterEntryOf(plan, i));
      RegisterEntries(entries, RegisterSeg(plan));
    }

    method SkipIfDisabled(scanners: seq<ScannerDef>, i: nat, now: Log.Time)
      requires registry.Valid() && i < |scanners|
      modifies registry, registry.steps.Values
      ensures registry.Valid() && fresh(registry.steps.Values - old(registry.steps.Values))
      ensures registry.View() == ApplyAll(old(registry.View()), DisableSeg(scanners, now)(i))
    {
      if !scanners[i].AdminEnabled() {
        ApplyOne(registry.View(), Log.Skip(scanners[i].name, "Disabled in admin tool settings (DB override).", now));
        registry.SkipStep(scanners[i].name, "Disabled in admin tool settings (DB override).", now);
      }
    }

    method SkipDisabled(scanners: seq<ScannerDef>, now: Log.Time)
      requires registry.Valid()
      modifies registry, registry.steps.Values
      ensures registry.Valid() && fresh(registry.steps.Values - old(registry.steps.Values))
      ensures registry.View() == ApplyAll(old(registry.View()), FlatN(DisableSeg(scanners, now), |scanners|))
    {
      ghost var w := registry.View();
      for i := 0 to |scanners|
        modifies registry, registry.steps.Values
        invariant registry.Valid() && fresh(registry.steps.Values - old(registry.steps.Values))
        invariant registry.View() == ApplyAll(w, FlatN(DisableSeg(scanners, now), i))
      {
        SkipIfDisabled(scanners, i, now);
        ApplySegment(w, DisableSeg(scanners, now), i);
      }
    }

    /** A step that is started and completed at once. */
    method Definition(name: string, starting: string, ending: string, now: Log.Time)
      requires registry.Valid()
      modifies registry, registry.steps.Values
      ensures registry.Valid() && fresh(registry.steps.Values - old(registry.steps.Values))
      ensures registry.View() ==
          ApplyAll(old(registry.View()), [Log.Start(name, starting, now), Log.Finish(name, false, ending, now)])
    {
      ApplyTwo(registry.View(), Log.Start(name, starting, now), Log.Finish(name, false, ending, now));
      var _ := registry.StartStep(name, starting, now);
      registry.CompleteStep(name, ending, now);
    }

    method RunGitClone(plan: Plan, texts: Texts, now: Log.Time)
      requires registry.Valid()
      modifies registry, registry.steps.Values
      ensures registry.Valid() && fresh(registry.steps.Values - old(registry.steps.Values))
      ensures registry.View() == ApplyAll(old(registry.View()), CloneOps(plan, texts, now))
    {
      if plan.gitRepo {
        Definition(CLONE, texts.cloneStart, texts.cloneEnd, now);
      }
    }

    method CollectMetadata(plan: Plan, texts: Texts, now: Log.Time)
      requires registry.Valid()
      modifies registry, registry.steps.Values
      ensures registry.Valid() && fresh(registry.steps.Values - old(registry.steps.Values))
      ensures registry.View() == ApplyAll(old(registry.View()), MetadataOps(plan, texts, now))
    {
      if plan.collectMetadata {
        Definition(METADATA, "Collecting scan metadata...", texts.metadataEnd, now);
      }
    }

    method RunDefinitions(plan: Plan, texts: Texts, now: Log.Time)
      requires registry.Valid()
      modifies registry, registry.steps.Values
      ensures registry.Valid() && fresh(registry.steps.Values - old(registry.steps.Values))
      ensures registry.View() == ApplyAll(old(registry.View()), BeforeOps(plan, texts, now))
    {
      ApplyThree(registry.View(), CloneOps(plan, texts, now), InitializationOps(now), MetadataOps(plan, texts, now));
      RunGitClone(plan, texts, now);
      Definition(INITIALIZATION, "Initializing scan...", "Scan initialized", now);
      CollectMetadata(plan, texts, now);
    }

    method CollectArtifacts(texts: Texts, now: Log.Time)
      requires registry.Valid()
      modifies registry, registry.steps.Values
      ensures registry.Valid() && fresh(registry.steps.Values - old(registry.steps.Values))
      ensures registry.View() == ApplyAll(old(registry.View()), ArtifactOps(texts, now))
    {
      ghost var w := registry.View();
      StartAndCollect(texts, now);
      ghost var w1 := registry.View();
      FinishArtifacts(texts, now);
      ArtifactOpsSplit(w, w1, registry.View(), texts, now);
    }

    method StartAndCollect(texts: Texts, now: Log.Time)
      requires registry.Valid()
      modifies registry, registry.steps.Values
      ensures registry.Valid() && fresh(registry.steps.Values - old(registry.steps.Values))
      ensures registry.View() ==
              ApplyAll(old(registry.View()),
                [Log.Start(ARTIFACTS, "Collecting scan artifacts...", now)] + CollectOps(texts, now))
    {
      ApplyAllAppend(registry.View(), [Log.Start(ARTIFACTS, "Collecting scan artifacts...", now)],
        CollectOps(texts, now));
      StartArtifacts(now);
      CollectFiles(texts, now);
    }

    static lemma ArtifactOpsSplit(w: Log.World, w1: Log.World, w2: Log.World, texts: Texts, now: Log.Time)
      requires w1 == ApplyAll(w, [Log.Start(ARTIFACTS, "Collecting scan artifacts...", now)] + CollectOps(texts, now))
      requires w2 == ApplyAll(w1, [Log.Finish(ARTIFACTS, false, texts.artifactsEnd, now)])
      ensures w2 == ApplyAll(w, ArtifactOps(texts, now))
    {
      ApplyAllAppend(w, [Log.Start(ARTIFACTS, "Collecting scan artifacts...", now)] + CollectOps(texts, now),
                     [Log.Finish(ARTIFACTS, false, texts.artifactsEnd, now)]);
    }

    method StartArtifacts(now: Log.Time)
      requires registry.Valid()
      modifies registry, registry.steps.Values
      ensures registry.Valid() && fresh(registry.steps.Values - old(registry.steps.Values))
      ensures registry.View() ==
          ApplyAll(old(registry.View()), [Log.Start(ARTIFACTS, "Collecting scan artifacts...", now)])
    {
      ApplyOne(registry.View(), Log.Start(ARTIFACTS, "Collecting scan artifacts...", now));
      var _ := registry.StartStep(ARTIFACTS, "Collecting scan artifacts...", now);
    }

    method FinishArtifacts(texts: Texts, now: Log.Time)
      requires registry.Valid()
      modifies registry, registry.steps.Values
      ensures registry.Valid() && fresh(registry.steps.Values - old(registry.steps.Values))
      ensures registry.View() == ApplyAll(old(registry.View()), [Log.Finish(ARTIFACTS, false, texts.artifactsEnd, now)])
    {
      ApplyOne(registry.View(), Log.Finish(ARTIFACTS, false, texts.artifactsEnd, now));
      registry.CompleteStep(ARTIFACTS, texts.artifactsEnd, now);
    }

    /** One kind of files: its completion names the substep where the step name belongs. */
    method CollectKind(texts: Texts, now: Log.Time, i: nat)
      requires registry.Valid() && i < |COLLECTED|
      modifies registry, registry.steps.Values
      ensures registry.Valid() && fresh(registry.steps.Values - old(registry.steps.Values))
      ensures registry.View() == ApplyAll(old(registry.View()), CollectSeg(texts, now)(i))
    {
      if i <= |texts.collected| {
        ApplyAllAppend(registry.View(), [Log.StartSub(ARTIFACTS, COLLECTED[i], "action", Log.Action, now)],
                       KindEnd(texts, now, i));
        BeginKind(now, i);
        EndKind(texts, now, i);
      }
    }

    method BeginKind(now: Log.Time, i: nat)
      requires registry.Valid() && i < |COLLECTED|
      modifies registry, registry.steps.Values
      ensures registry.Valid() && fresh(registry.steps.Values - old(registry.steps.Values))
      ensures registry.View() ==
          ApplyAll(old(registry.View()), [Log.StartSub(ARTIFACTS, COLLECTED[i], "action", Log.Action, now)])
    {
      ApplyOne(registry.View(), Log.StartSub(ARTIFACTS, COLLECTED[i], "action", Log.Action, now));
      registry.StartSubstep(ARTIFACTS, COLLECTED[i], "action", Log.Action, now);
    }

    method EndKind(texts: Texts, now: Log.Time, i: nat)
      requires registry.Valid() && i < |COLLECTED|
      modifies registry, registry.steps.Values
      ensures registry.Valid() && fresh(registry.steps.Values - old(registry.steps.Values))
      ensures registry.View() == ApplyAll(old(registry.View()), KindEnd(texts, now, i))
    {
      if i < |texts.collected| {
        ApplyOne(registry.View(), Log.EndSub(COLLECTED[i], texts.collected[i], false, "", now));
        registry.EndSubstep(COLLECTED[i], texts.collected[i], false, "", now);
      }
    }

    method CollectFiles(texts: Texts, now: Log.Time)
      requires registry.Valid()
      modifies registry, registry.steps.Values
      ensures registry.Valid() && fresh(registry.steps.Values - old(registry.steps.Values))
      ensures registry.View() == ApplyAll(old(registry.View()), CollectOps(texts, now))
    {
      ghost var w := registry.View();
      for i := 0 to |COLLECTED|
        modifies registry, registry.steps.Values
        invariant registry.Valid() && fresh(registry.steps.Values - old(registry.steps.Values))
        invariant registry.View() == ApplyAll(w, FlatN(CollectSeg(texts, now), i))
      {
        CollectKind(texts, now, i);
        ApplySegment(w, CollectSeg(texts, now), i);
      }
    }

    // ----- the checkpoint side -----

    /** Drops what the configuration or HEAD invalidates, and stamps the rest. */
    method UpdateCheckpoint(loaded: CheckpointData, run: RunConfig) returns (updated: CheckpointData)
      ensures updated == Opened(loaded, run)
    {
      updated := loaded;
      if updated.scanConfigHash != Some(Sha256(run.global)) {
        updated := InvalidateScannerSteps(updated);
      }
      updated := updated.(scanConfigHash := Some(Sha256(run.global)), pipelineOrder := PipelineOrder(run.scanners));
      if run.head != "" && updated.targetFingerprint != "" && updated.targetFingerprint != run.head {
        updated := InvalidateScannerSteps(updated);
      }
      if run.head != "" {
        updated := updated.(targetFingerprint := run.head);
      } else {
        updated := InvalidateScannerSteps(updated);
      }
    }

    /** Loading the checkpoint, dropping what the configuration or HEAD invalidates, saving. */
    method OpenCheckpoint(run: RunConfig)
      requires Valid() && state.phase.Idle?
      modifies this
      ensures Valid() && state == Next(formats, old(state), Begin(run))
    {
      cp := Loaded(disk);
      if !run.disabled {
        cp := UpdateCheckpoint(cp, run);
        disk := Some(cp);
      }
      restored, resumedAny := {}, false;
      state := Next(formats, state, Begin(run));
    }

    method ShowSynced(sc: ScannerDef, skip: bool, now: Log.Time)
      requires registry.Valid()
      modifies registry, registry.steps.Values
      ensures registry.Valid() && fresh(registry.steps.Values - old(registry.steps.Values))
      ensures registry.View() == ApplyAll(old(registry.View()), SyncOps(sc, skip, now))
    {
      if sc.AdminEnabled() {
        if skip {
          ApplyOne(registry.View(), Log.Restore(sc.name, "", now));
          registry.ApplyCheckpointRestoredStep(sc.name, "", now);
        } else {
          ApplyOne(registry.View(), Log.SetPending(sc.name));
          registry.SetStepPendingForRun(sc.name);
        }
      }
    }

    /** The skip decision for one scanner, and its record in memory and on disk. */
    method DecideSkip(run: RunConfig, i: nat, version: string) returns (skip: bool)
      requires Valid() && state.phase == Sync(i) && i < |run.scanners| && state.run == run
      modifies this
      ensures Valid() && state == Next(formats, old(state), SyncStep(version))
      ensures skip ==> run.scanners[i].toolsKey != ""
      ensures restored == if skip then old(restored) + {run.scanners[i].name} else old(restored)
    {
      var sc := run.scanners[i];
      skip := false;
      if sc.AdminEnabled() && sc.toolsKey != "" && !run.disabled && run.head != "" && sc.checkpoint.Some? {
        var refusal := SkipRefusal(formats, cp, sc.toolsKey, sc.checkpoint, files, Sha256(sc.Config()),
          Sha256(run.global), sc.Reported(version));
        if refusal.None? {
          skip := true;
          cp := cp.(resumed := true);
          disk, restored, resumedAny := Some(cp), restored + {sc.name}, true;
        }
      }
      state := Next(formats, state, SyncStep(version));
    }

    static lemma SyncMoves(formats: Formats, s: State, version: string)
      requires Enabled(s, SyncStep(version))
      ensures Traced(formats, s, [SyncStep(version)], Next(formats, s, SyncStep(version)))
      ensures
        var s' := Next(formats, s, SyncStep(version));
        && s'.run == s.run
        && s'.phase == if s.phase.i + 1 < |s.run.scanners| then Sync(s.phase.i + 1) else Exec(0)
    {
      TracedOne(formats, s, SyncStep(version));
    }

    /** One step of the loop that sets every scanner to restored or pending. */
    method SyncScanner(run: RunConfig, i: nat, version: string, now: Log.Time)
      requires Valid() && state.phase == Sync(i) && i < |run.scanners| && state.run == run
          && run.scanners[i].name !in restored
      modifies this, registry, registry.steps.Values
      ensures Valid() && fresh(registry.steps.Values - old(registry.steps.Values))
      ensures state.run == run && state.phase == if i + 1 < |run.scanners| then Sync(i + 1) else Exec(0)
      ensures Traced(formats, old(state), [SyncStep(version)], state)
      ensures restored == old(restored) || restored == old(restored) + {run.scanners[i].name}
      ensures registry.View() == ApplyAll(old(registry.View()), SyncSeg(run.scanners, restored, now)(i))
    {
      SyncMoves(formats, state, version);
      var skip := DecideSkip(run, i, version);
      ShowSynced(run.scanners[i], skip, now);
    }

    /** The sync loop: each scanner is restored or set pending. */
    method SyncEach(run: RunConfig, versions: seq<string>, now: Log.Time, ghost inv: LoopInv)
      returns (ghost es: seq<Event>)
      requires Valid() && state.run == run && |versions| == |run.scanners|
      requires state.phase == if run.scanners == [] then Exec(0) else Sync(0)
      requires SyncTurn(inv, formats, run.scanners, now) && inv([], state, registry.View(), 0)
      modifies this, registry, registry.steps.Values
      ensures Valid() && fresh(registry.steps.Values - old(registry.steps.Values))
      ensures state.run == run && state.phase == Exec(0) && inv(es, state, registry.View(), |run.scanners|)
      ensures es == SyncEvents(versions)
    {
      es := [];
      for i := 0 to |run.scanners|
        modifies this, registry, registry.steps.Values
        invariant Valid() && fresh(registry.steps.Values - old(registry.steps.Values))
        invariant state.run == run && state.phase == if i < |run.scanners| then Sync(i) else Exec(0)
        invariant inv(es, state, registry.View(), i) && es == SyncEvents(versions[..i])
      {
        SyncNth(run, i, versions[i], now, inv, es);
        es := es + [SyncStep(versions[i])];
        assert SyncEvents(versions[..i + 1]) == es;
      }
      assert versions[..|versions|] == versions;
    }

    method SyncNth(run: RunConfig, i: nat, version: string, now: Log.Time, ghost inv: LoopInv, ghost es: seq<Event>)
      requires Valid() && state.phase == Sync(i) && i < |run.scanners| && state.run == run
      requires SyncTurn(inv, formats, run.scanners, now) && inv(es, state, registry.View(), i)
      modifies this, registry, registry.steps.Values
      ensures Valid() && fresh(registry.steps.Values - old(registry.steps.Values))
      ensures state.run == run && state.phase == if i + 1 < |run.scanners| then Sync(i + 1) else Exec(0)
      ensures inv(es + [SyncStep(version)], state, registry.View(), i + 1)
    {
      ghost var s, w := state, registry.View();
      SyncScanner(run, i, version, now);
      assert SyncedTo(formats, run.scanners, now, i, s, w, version, state, registry.View());
    }

    method SyncScanners(run: RunConfig, versions: seq<string>, now: Log.Time) returns (ghost es: seq<Event>)
      requires Valid() && state.run == run && restored == {} && |versions| == |run.scanners|
      requires Distinct(ScannerNames(run.scanners)) && state.phase == if run.scanners == [] then Exec(0) else Sync(0)
      modifies this, registry, registry.steps.Values
      ensures Valid() && fresh(registry.steps.Values - old(registry.steps.Values))
      ensures state.run == run && state.phase == Exec(0) && Traced(formats, old(state), es, state)
      ensures es == SyncEvents(versions)
      ensures registry.View() ==
          ApplyAll(old(registry.View()), FlatN(SyncSeg(run.scanners, restored, now), |run.scanners|))
    {
      SyncInvTurns(formats, state, registry.View(), run.scanners, now);
      SyncInvStarts(formats, state, registry.View(), run.scanners, now);
      es := SyncEach(run, versions, now, SyncInv(formats, state, registry.View(), run.scanners, now));
    }

    method SetTailPending()
      requires registry.Valid()
      modifies registry, registry.steps.Values
      ensures registry.Valid() && fresh(registry.steps.Values - old(registry.steps.Values))
      ensures registry.View() == ApplyAll(old(registry.View()), TailPendingOps)
    {
      ApplyTwo(registry.View(), Log.SetPending(ARTIFACTS), Log.SetPending(COMPLETION));
      registry.SetStepPendingForRun(ARTIFACTS);
      registry.SetStepPendingForRun(COMPLETION);
    }

    // ----- executing -----

    method ShowStarted(sc: ScannerDef, now: Log.Time)
      requires registry.Valid()
      modifies registry, registry.steps.Values
      ensures registry.Valid() && fresh(registry.steps.Values - old(registry.steps.Values))
      ensures registry.View() == ApplyAll(old(registry.View()), [StartOp(sc, now)])
    {
      ApplyOne(registry.View(), StartOp(sc, now));
      var _ := registry.StartStep(sc.name, "Running " + sc.name + " scan...", now);
    }

    /** One call of BaseScanner on the shared registry. */
    method ReportSubstep(name: string, call: SubCall, now: Log.Time)
      requires registry.Valid()
      modifies registry, registry.steps.Values
      ensures registry.Valid() && fresh(registry.steps.Values - old(registry.steps.Values))
      ensures registry.View() == ApplyAll(old(registry.View()), [CallOp(name, call, now)])
    {
      ApplyOne(registry.View(), CallOp(name, call, now));
      match call {
        case SubStarts(sub, message, kind) => registry.StartSubstep(name, sub, message, kind, now);
        case SubEnds(sub, failed, message) => registry.EndSubstep(name, sub, failed, message, now);
        case SubUpdates(sub, message) => registry.UpdateSubstep(name, sub, message);
      }
    }

    /** What the tool tells the registry while it runs. */
    method ReportSubsteps(name: string, calls: seq<SubCall>, now: Log.Time)
      requires registry.Valid()
      modifies registry, registry.steps.Values
      ensures registry.Valid() && fresh(registry.steps.Values - old(registry.steps.Values))
      ensures registry.View() == ApplyAll(old(registry.View()), CallOps(name, calls, now))
    {
      ghost var w, ops := registry.View(), CallOps(name, calls, now);
      for k := 0 to |calls|
        modifies registry, registry.steps.Values
        invariant registry.Valid() && fresh(registry.steps.Values - old(registry.steps.Values))
        invariant registry.View() == ApplyAll(w, ops[..k])
      {
        ReportSubstep(name, calls[k], now);
        ApplyPrefix(w, ops, k);
      }
      assert ops[..|calls|] == ops;
    }

    method ShowOutcome(sc: ScannerDef, outcome: Outcome, now: Log.Time)
      requires registry.Valid()
      modifies registry, registry.steps.Values
      ensures registry.Valid() && fresh(registry.steps.Values - old(registry.steps.Values))
      ensures registry.View() == ApplyAll(old(registry.View()), [OutcomeOp(sc, outcome, now)])
    {
      ApplyOne(registry.View(), OutcomeOp(sc, outcome, now));
      match outcome {
        case Succeeded => registry.CompleteStep(sc.name, sc.name + " scan completed", now);
        case FailedWith(message) => registry.FailStep(sc.name, message, now);
        case SkippedByFile(message) => registry.SkipStep(sc.name, message, now);
      }
    }

    /** What the tool does to its result directory. */
    method WriteResults(sc: ScannerDef, writes: seq<(string, Option<Bytes>)>) returns (ghost es: seq<Event>)
      requires Valid()
      modifies this
      ensures Valid() && Traced(formats, old(state), es, state) && es == WriteEvents(sc.toolsKey, writes)
      ensures state == old(state).(files := files) && files == Written(old(files), sc.toolsKey, writes)
    {
      ghost var s0 := state;
      es := [];
      for k := 0 to |writes|
        invariant Valid() && Traced(formats, s0, es, state) && es == WriteEvents(sc.toolsKey, writes[..k])
        invariant state == s0.(files := files)
      {
        var (file, content) := writes[k];
        TracedSnoc(formats, s0, es, state, WriteFile(sc.toolsKey, file, content));
        es := es + [WriteFile(sc.toolsKey, file, content)];
        files := if content.Some? then files[(sc.toolsKey, file) := content.value] else files - {(sc.toolsKey, file)};
        state := state.(files := files);
        assert WriteEvents(sc.toolsKey, writes[..k + 1]) == es;
      }
      assert writes[..|writes|] == writes;
      WritesDo(formats, s0, sc.toolsKey, writes);
    }

    /** After _run_scanner returned: a success is recorded and the checkpoint saved. */
    method RecordResult(run: RunConfig, i: nat, ok: bool, version: string) returns (ghost es: seq<Event>)
      requires Valid() && state.phase == Running(i) && i < |run.scanners| && state.run == run
      requires ok ==> run.scanners[i].toolsKey != ""
      modifies this
      ensures Valid() && Traced(formats, old(state), es, state) && es == ResultEvents(run, run.scanners[i], ok, version)
      ensures state.phase == Exec(i + 1) && state.run == run && restored == old(restored)
    {
      ghost var s0 := state;
      var sc := run.scanners[i];
      es := [FinishExec(ok, version)];
      TracedOne(formats, s0, FinishExec(ok, version));
      state := Next(formats, state, FinishExec(ok, version));
      if ok && sc.checkpoint.Some? && !run.disabled {
        cp := Recorded(formats, cp, sc.toolsKey, sc.checkpoint.value, files, Sha256(sc.Config()), Sha256(run.global),
                       sc.Reported(version), run.head != "");
        disk := Some(cp);
        TracedSnoc(formats, s0, es, state, Save);
        es := es + [Save];
        state := Next(formats, state, Save);
      }
    }

    static lemma ExecutedSegment(w: Log.World, sc: ScannerDef, restored: set<string>, attempt: Attempt, now: Log.Time)
      requires sc.AdminEnabled() && (sc.toolsKey == "" || sc.name !in restored)
      ensures ApplyAll(w, ExecOps(sc, restored, attempt, now)) ==
              ApplyAll(ApplyAll(w, [StartOp(sc, now)] + CallOps(sc.name, CallsOf(sc, attempt), now)),
                       [OutcomeOp(sc, OutcomeOf(sc, attempt.ending), now)])
    {
      ApplyAllAppend(w, [StartOp(sc, now)] + CallOps(sc.name, CallsOf(sc, attempt), now),
                     [OutcomeOp(sc, OutcomeOf(sc, attempt.ending), now)]);
    }

    static lemma StartMoves(formats: Formats, s: State)
      requires Enabled(s, StartExec)
      ensures
        var s' := Next(formats, s, StartExec);
        && Traced(formats, s, [StartExec], s') && s'.run == s.run && s'.restored == s.restored && s'.cp == s.cp
        && s'.disk == s.disk && s'.files == s.files && s'.resumedAny == s.resumedAny
        && s'.phase == if ToRun(s, s.run.scanners[s.phase.i]) then Running(s.phase.i) else Exec(s.phase.i + 1)
    {
      TracedOne(formats, s, StartExec);
    }

    method StartAndReport(sc: ScannerDef, calls: seq<SubCall>, now: Log.Time)
      requires registry.Valid()
      modifies registry, registry.steps.Values
      ensures registry.Valid() && fresh(registry.steps.Values - old(registry.steps.Values))
      ensures registry.View() == ApplyAll(old(registry.View()), [StartOp(sc, now)] + CallOps(sc.name, calls, now))
    {
      ApplyAllAppend(registry.View(), [StartOp(sc, now)], CallOps(sc.name, calls, now));
      ShowStarted(sc, now);
      ReportSubsteps(sc.name, calls, now);
    }

    /** _run_scanner up to the end of the tool: the step is started, the tool reports its substeps
        and writes its files. */
    method RunTool(run: RunConfig, i: nat, attempt: Attempt, now: Log.Time) returns (ghost e: seq<Event>)
      requires Valid() && state.phase == Running(i) && i < |run.scanners| && state.run == run
      modifies this, registry, registry.steps.Values
      ensures Valid() && fresh(registry.steps.Values - old(registry.steps.Values))
      ensures state.run == run && state.phase == Running(i) && restored == old(restored)
      ensures Traced(formats, old(state), e, state)
      ensures
        var sc := run.scanners[i];
        && e == WriteEvents(sc.toolsKey, WritesOf(sc, attempt))
        && files == Written(old(files), sc.toolsKey, WritesOf(sc, attempt))
      ensures
        var sc := run.scanners[i];
        registry.View() ==
        ApplyAll(old(registry.View()), [StartOp(sc, now)] + CallOps(sc.name, CallsOf(sc, attempt), now))
    {
      StartAndReport(run.scanners[i], CallsOf(run.scanners[i], attempt), now);
      e := [];
      if run.scanners[i].toolsKey != "" && !attempt.ending.NoClass? {
        e := WriteResults(run.scanners[i], attempt.writes);
      }
    }

    /** The result of _run_scanner, shown and, on success, recorded. */
    method SettleScanner(run: RunConfig, i: nat, attempt: Attempt, now: Log.Time) returns (ghost e: seq<Event>)
      requires Valid() && state.phase == Running(i) && i < |run.scanners| && state.run == run
      modifies this, registry, registry.steps.Values
      ensures Valid() && fresh(registry.steps.Values - old(registry.steps.Values))
      ensures state.run == run && state.phase == Exec(i + 1) && restored == old(restored)
      ensures Traced(formats, old(state), e, state)
      ensures e == ResultEvents(run, run.scanners[i], Succeeds(run.scanners[i], attempt), attempt.version)
      ensures registry.View() == ApplyAll(old(registry.View()),
                                          [OutcomeOp(run.scanners[i], OutcomeOf(run.scanners[i], attempt.ending), now)])
    {
      var outcome := OutcomeOf(run.scanners[i], attempt.ending);
      ShowOutcome(run.scanners[i], outcome, now);
      e := RecordResult(run, i, outcome.Succeeded?, attempt.version);
    }

    /** _run_scanner and what follows it, for a scanner that is enabled and was not restored. */
    method ExecuteScanner(run: RunConfig, i: nat, attempt: Attempt, now: Log.Time) returns (ghost e: seq<Event>)
      requires Valid() && state.phase == Running(i) && i < |run.scanners| && state.run == run
      requires ToRun(state, run.scanners[i])
      modifies this, registry, registry.steps.Values
      ensures Valid() && fresh(registry.steps.Values - old(registry.steps.Values))
      ensures state.run == run && state.phase == Exec(i + 1) && restored == old(restored)
      ensures Traced(formats, old(state), e, state) && e == AttemptEvents(run, run.scanners[i], attempt)
      ensures registry.View() == ApplyAll(old(registry.View()), ExecOps(run.scanners[i], restored, attempt, now))
    {
      ghost var s0 := state;
      ExecutedSegment(registry.View(), run.scanners[i], restored, attempt, now);
      ghost var e1 := RunTool(run, i, attempt, now);
      ghost var s1 := state;
      ghost var e2 := SettleScanner(run, i, attempt, now);
      TracedAppend(formats, s0, e1, s1, e2, state);
      e := e1 + e2;
    }

    static lemma TurnTraced(formats: Formats, s: State, s1: State, s2: State, e1: seq<Event>) returns (e: seq<Event>)
      requires Traced(formats, s, [StartExec], s1) && Traced(formats, s1, e1, s2)
      ensures Traced(formats, s, e, s2) && e == [StartExec] + e1
    {
      e := [StartExec] + e1;
      TracedAppend(formats, s, [StartExec], s1, e1, s2);
    }

    ghost method BeginTurn(run: RunConfig, i: nat)
      requires Valid() && state.phase == Exec(i) && i < |run.scanners| && state.run == run
      modifies this`state
      ensures Valid() && Traced(formats, old(state), [StartExec], state) && state.run == run
      ensures state.phase == if ToRun(old(state), run.scanners[i]) then Running(i) else Exec(i + 1)
      ensures state.restored == old(state.restored)
    {
      StartMoves(formats, state);
      state := Next(formats, state, StartExec);
    }

    method RunTurn(run: RunConfig, i: nat, attempt: Attempt, now: Log.Time) returns (ghost e: seq<Event>)
      requires Valid() && state.phase == Exec(i) && i < |run.scanners| && state.run == run
      requires ToRun(state, run.scanners[i])
      modifies this, registry, registry.steps.Values
      ensures Valid() && fresh(registry.steps.Values - old(registry.steps.Values))
      ensures state.run == run && state.phase == Exec(i + 1) && restored == old(restored)
      ensures Traced(formats, old(state), e, state) && e == [StartExec] + AttemptEvents(run, run.scanners[i], attempt)
      ensures registry.View() == ApplyAll(old(registry.View()), ExecOps(run.scanners[i], restored, attempt, now))
    {
      ghost var s0, w := state, registry.View();
      BeginTurn(run, i);
      ghost var s1 := state;
      assert registry.View() == w && s1.restored == restored == s0.restored;
      e := ExecuteScanner(run, i, attempt, now);
      assert registry.View() == ApplyAll(w, ExecOps(run.scanners[i], restored, attempt, now));
      e := TurnTraced(formats, s0, s1, state, e);
    }

    /** One step of the execution loop. */
    method ExecScanner(run: RunConfig, i: nat, attempt: Attempt, now: Log.Time) returns (ghost e: seq<Event>)
      requires Valid() && state.phase == Exec(i) && i < |run.scanners| && state.run == run
      modifies this, registry, registry.steps.Values
      ensures Valid() && fresh(registry.steps.Values - old(registry.steps.Values))
      ensures state.run == run && state.phase == Exec(i + 1) && restored == old(restored)
      ensures Traced(formats, old(state), e, state) && e == ExecEvents(run, run.scanners[i], restored, attempt)
      ensures registry.View() == ApplyAll(old(registry.View()), ExecOps(run.scanners[i], restored, attempt, now))
    {
      if run.scanners[i].AdminEnabled() && (run.scanners[i].toolsKey == "" || run.scanners[i].name !in restored) {
        e := RunTurn(run, i, attempt, now);
      } else {
        BeginTurn(run, i);
        e := [StartExec];
      }
    }

    /** The execution loop. */
    method ExecEach(run: RunConfig, attempts: seq<Attempt>, now: Log.Time, ghost skipped: set<string>,
        ghost inv: LoopInv)
      returns (ghost es: seq<Event>)
      requires Valid() && state.phase == Exec(0) && |run.scanners| == |attempts| && state.run == run
      requires restored == skipped && ExecTurn(inv, formats, run.scanners, skipped, attempts, now)
      requires inv([], state, registry.View(), 0)
      modifies this, registry, registry.steps.Values
      ensures Valid() && fresh(registry.steps.Values - old(registry.steps.Values))
      ensures state.run == run && state.phase == Exec(|run.scanners|) && restored == skipped
      ensures inv(es, state, registry.View(), |run.scanners|) && es == ExecTrace(run, skipped, attempts, |run.scanners|)
    {
      es := [];
      for i := 0 to |run.scanners|
        modifies this, registry, registry.steps.Values
        invariant Valid() && fresh(registry.steps.Values - old(registry.steps.Values))
        invariant state.run == run && state.phase == Exec(i) && restored == skipped
        invariant inv(es, state, registry.View(), i) && es == ExecTrace(run, skipped, attempts, i)
      {
        es := ExecNth(run, i, attempts, now, skipped, inv, es);
      }
    }

    method ExecNth(run: RunConfig, i: nat, attempts: seq<Attempt>, now: Log.Time, ghost skipped: set<string>,
                   ghost inv: LoopInv, ghost front: seq<Event>)
      returns (ghost es: seq<Event>)
      requires Valid() && state.phase == Exec(i) && i < |run.scanners| == |attempts| && state.run == run
      requires restored == skipped && ExecTurn(inv, formats, run.scanners, skipped, attempts, now)
      requires inv(front, state, registry.View(), i)
      modifies this, registry, registry.steps.Values
      ensures Valid() && fresh(registry.steps.Values - old(registry.steps.Values))
      ensures state.run == run && state.phase == Exec(i + 1) && restored == skipped
      ensures inv(es, state, registry.View(), i + 1)
      ensures es == front + ExecEvents(run, run.scanners[i], skipped, attempts[i])
    {
      ghost var s, w := state, registry.View();
      ghost var e := ExecScanner(run, i, attempts[i], now);
      assert ExecutedTo(formats, ExecOps(run.scanners[i], skipped, attempts[i], now), s, w, e, state, registry.View());
      es := front + e;
    }

    method ExecScanners(run: RunConfig, attempts: seq<Attempt>, now: Log.Time) returns (ghost es: seq<Event>)
      requires Valid() && state.phase == Exec(0) && |run.scanners| == |attempts| && state.run == run
      modifies this, registry, registry.steps.Values
      ensures Valid() && fresh(registry.steps.Values - old(registry.steps.Values))
      ensures state.run == run && state.phase == Exec(|run.scanners|) && restored == old(restored)
      ensures Traced(formats, old(state), es, state) && es == ExecTrace(run, restored, attempts, |run.scanners|)
      ensures registry.View() ==
              ApplyAll(old(registry.View()), FlatN(ExecSeg(run.scanners, restored, attempts, now), |run.scanners|))
    {
      ExecInvTurns(formats, state, registry.View(), run.scanners, restored, attempts, now);
      ExecInvStarts(formats, state, registry.View(), ExecSeg(run.scanners, restored, attempts, now));
      es := ExecEach(run, attempts, now, restored,
                     ExecInv(formats, state, registry.View(), ExecSeg(run.scanners, restored, attempts, now)));
    }

    // ----- the end of the run -----

    /** Marking the checkpoint file completed, re-reading it first. */
    method CloseCheckpoint(run: RunConfig)
      requires Valid() && state.phase == Exec(|run.scanners|) && state.run == run
      modifies this
      ensures Valid() && state == Next(formats, old(state), Finish) && restored == old(restored)
    {
      if !run.disabled {
        var done := Loaded(disk);
        disk := Some(done.(status := "completed", resumed := done.resumed || resumedAny));
      }
      state := Next(formats, state, Finish);
    }

    method Complete(run: RunConfig, texts: Texts, now: Log.Time)
      requires Valid() && state.phase == Exec(|run.scanners|) && state.run == run
      modifies this, registry, registry.steps.Values
      ensures Valid() && fresh(registry.steps.Values - old(registry.steps.Values))
      ensures state == Next(formats, old(state), Finish) && restored == old(restored)
      ensures registry.View() == ApplyAll(old(registry.View()), CompletionOps(texts, now))
    {
      ApplyTwo(registry.View(), Log.Start(COMPLETION, "Finalizing scan...", now),
        Log.Finish(COMPLETION, false, texts.completionEnd, now));
      StartClosing(run, now);
      registry.CompleteStep(COMPLETION, texts.completionEnd, now);
    }

    method StartClosing(run: RunConfig, now: Log.Time)
      requires Valid() && state.phase == Exec(|run.scanners|) && state.run == run
      modifies this, registry, registry.steps.Values
      ensures Valid() && fresh(registry.steps.Values - old(registry.steps.Values))
      ensures state == Next(formats, old(state), Finish) && restored == old(restored)
      ensures registry.View() == Log.Apply(old(registry.View()), Log.Start(COMPLETION, "Finalizing scan...", now))
    {
      var _ := registry.StartStep(COMPLETION, "Finalizing scan...", now);
      CloseCheckpoint(run);
    }

    /** Registration and the steps before the scanners; the checkpoint is not touched. */
    method Prepare(plan: Plan, texts: Texts, now: Log.Time)
      requires registry.Valid()
      modifies registry, registry.steps.Values
      ensures registry.Valid() && fresh(registry.steps.Values - old(registry.steps.Values))
      ensures registry.View() == ApplyAll(old(registry.View()), PreRegisterOps(plan, now) + BeforeOps(plan, texts, now))
    {
      ghost var w := registry.View();
      RegisterAll(plan);
      SkipDisabled(plan.scanners, now);
      RunDefinitions(plan, texts, now);
      ApplyThree(w, FlatN(RegisterSeg(plan), |PlannedNames(plan)|),
        FlatN(DisableSeg(plan.scanners, now), |plan.scanners|),
                 BeforeOps(plan, texts, now));
    }

    static lemma BeginMoves(formats: Formats, s: State, run: RunConfig)
      requires s.phase.Idle?
      ensures
        var s' := Next(formats, s, Begin(run));
        && Traced(formats, s, [Begin(run)], s') && s'.run == run && s'.restored == {}
        && s'.phase == if run.scanners == [] then Exec(0) else Sync(0)
    {
      TracedOne(formats, s, Begin(run));
    }

    static lemma OpeningTraced(formats: Formats, s: State, s1: State, s2: State, run: RunConfig, versions: seq<string>)
      requires s.phase.Idle? && |versions| == |run.scanners| && Traced(formats, s, [Begin(run)], s1)
      requires Traced(formats, s1, SyncEvents(versions), s2)
      ensures Traced(formats, s, Opening(run, versions), s2) && s2.restored == RestoredBy(formats, s, run, versions)
    {
      TracedAppend(formats, s, [Begin(run)], s1, SyncEvents(versions), s2);
      OpeningRestores(formats, s, run, versions);
    }

    method Open(run: RunConfig)
      requires Valid() && state.phase.Idle?
      modifies this
      ensures Valid() && Traced(formats, old(state), [Begin(run)], state)
      ensures state.run == run && restored == {}
      ensures state.phase == if run.scanners == [] then Exec(0) else Sync(0)
    {
      BeginMoves(formats, state, run);
      OpenCheckpoint(run);
    }

    /** Opening the checkpoint and bringing every scanner into its state for this run. */
    method OpenAndSync(run: RunConfig, versions: seq<string>, now: Log.Time) returns (ghost es: seq<Event>)
      requires Valid() && state.phase.Idle? && |versions| == |run.scanners| && Distinct(ScannerNames(run.scanners))
      modifies this, registry, registry.steps.Values
      ensures Valid() && fresh(registry.steps.Values - old(registry.steps.Values))
      ensures state.run == run && state.phase == Exec(0) && Traced(formats, old(state), es, state)
      ensures es == Opening(run, versions) && restored == RestoredBy(formats, old(state), run, versions)
      ensures registry.View() ==
          ApplyAll(old(registry.View()), FlatN(SyncSeg(run.scanners, restored, now), |run.scanners|))
    {
      ghost var s0 := state;
      Open(run);
      ghost var s1 := state;
      ghost var e := SyncScanners(run, versions, now);
      es := [Begin(run)] + e;
      OpeningTraced(formats, s0, s1, state, run, versions);
    }

    method Synchronize(run: RunConfig, versions: seq<string>, now: Log.Time) returns (ghost es: seq<Event>)
      requires Valid() && state.phase.Idle? && |versions| == |run.scanners| && Distinct(ScannerNames(run.scanners))
      modifies this, registry, registry.steps.Values
      ensures Valid() && fresh(registry.steps.Values - old(registry.steps.Values))
      ensures state.run == run && state.phase == Exec(0) && Traced(formats, old(state), es, state)
      ensures es == Opening(run, versions) && restored == RestoredBy(formats, old(state), run, versions)
      ensures registry.View() ==
              ApplyAll(old(registry.View()),
                FlatN(SyncSeg(run.scanners, restored, now), |run.scanners|) + TailPendingOps)
    {
      ghost var w := registry.View();
      es := OpenAndSync(run, versions, now);
      SetTailPending();
      ApplyAllAppend(w, FlatN(SyncSeg(run.scanners, restored, now), |run.scanners|), TailPendingOps);
    }

    /** Artifact collection and completion. */
    method Conclude(run: RunConfig, texts: Texts, now: Log.Time)
      requires Valid() && state.phase == Exec(|run.scanners|) && state.run == run
      modifies this, registry, registry.steps.Values
      ensures Valid() && fresh(registry.steps.Values - old(registry.steps.Values))
      ensures state == Next(formats, old(state), Finish) && restored == old(restored)
      ensures registry.View() == ApplyAll(old(registry.View()), AfterOps(texts, now))
    {
      ApplyAllAppend(registry.View(), ArtifactOps(texts, now), CompletionOps(texts, now));
      CollectArtifacts(texts, now);
      Complete(run, texts, now);
    }

    static lemma FinishMoves(formats: Formats, s: State)
      requires Enabled(s, Finish)
      ensures Traced(formats, s, [Finish], Next(formats, s, Finish)) && Next(formats, s, Finish).phase.Idle?
    {
      TracedOne(formats, s, Finish);
    }

    /** The execution loop, artifact collection and completion. */
    method ExecuteAndComplete(run: RunConfig, texts: Texts, attempts: seq<Attempt>, now: Log.Time)
      returns (ghost es: seq<Event>)
      requires Valid() && state.phase == Exec(0) && |run.scanners| == |attempts| && state.run == run
      modifies this, registry, registry.steps.Values
      ensures Valid() && fresh(registry.steps.Values - old(registry.steps.Values))
      ensures state.phase.Idle? && restored == old(restored) && Traced(formats, old(state), es, state)
      ensures es == ExecTrace(run, restored, attempts, |attempts|) + [Finish]
      ensures registry.View() ==
              ApplyAll(old(registry.View()),
                FlatN(ExecSeg(run.scanners, restored, attempts, now), |run.scanners|) + AfterOps(texts, now))
    {
      ghost var w, s0 := registry.View(), state;
      es := ExecScanners(run, attempts, now);
      ghost var s1 := state;
      FinishMoves(formats, s1);
      Conclude(run, texts, now);
      TracedAppend(formats, s0, es, s1, [Finish], state);
      es := es + [Finish];
      ApplyAllAppend(w, FlatN(ExecSeg(run.scanners, restored, attempts, now), |run.scanners|), AfterOps(texts, now));
    }

    /** Everything before the first scanner is executed. */
    method PrepareAndSynchronize(plan: Plan, run: RunConfig, texts: Texts, versions: seq<string>, now: Log.Time)
      returns (ghost es: seq<Event>)
      requires Valid() && state.phase.Idle? && WellNamed(plan) && run.scanners == plan.scanners
          && |versions| == |run.scanners|
      modifies this, registry, registry.steps.Values
      ensures Valid() && fresh(registry.steps.Values - old(registry.steps.Values))
      ensures state.run == run && state.phase == Exec(0) && Traced(formats, old(state), es, state)
      ensures es == Opening(run, versions) && restored == RestoredBy(formats, old(state), run, versions)
      ensures registry.View() ==
              ApplyAll(ApplyAll(old(registry.View()), PreRegisterOps(plan, now) + BeforeOps(plan, texts, now)),
                       FlatN(SyncSeg(plan.scanners, restored, now), |plan.scanners|) + TailPendingOps)
    {
      WellNamedParts(plan);
      Prepare(plan, texts, now);
      es := Synchronize(run, versions, now);
    }

    static lemma JoinRun(w: Log.World, a: seq<Log.Op>, b: seq<Log.Op>, c: seq<Log.Op>, t: seq<Log.Op>, d: seq<Log.Op>,
        e: seq<Log.Op>)
      ensures ApplyAll(ApplyAll(ApplyAll(w, a + b), c + t), d + e) == ApplyAll(w, a + (b + c + t + d + e))
    {
      ApplyThree(w, a + b, c + t, d + e);
      Regroup(a, b, c, t, d, e);
    }

    static lemma JoinedRun(w: Log.World, plan: Plan, texts: Texts, restored: set<string>, attempts: seq<Attempt>,
        now: Log.Time)
      ensures
        ApplyAll(ApplyAll(ApplyAll(w, PreRegisterOps(plan, now) + BeforeOps(plan, texts, now)),
                          FlatN(SyncSeg(plan.scanners, restored, now), |plan.scanners|) + TailPendingOps),
                 FlatN(ExecSeg(plan.scanners, restored, attempts, now), |plan.scanners|) + AfterOps(texts, now))
        == ApplyAll(w, RunOps(plan, texts, restored, attempts, now))
    {
      JoinRun(w, PreRegisterOps(plan, now), BeforeOps(plan, texts, now),
              FlatN(SyncSeg(plan.scanners, restored, now), |plan.scanners|), TailPendingOps,
              FlatN(ExecSeg(plan.scanners, restored, attempts, now), |plan.scanners|), AfterOps(texts, now));
    }

    static lemma PhasesTraced(formats: Formats, s: State, s1: State, s2: State, run: RunConfig, versions: seq<string>,
                              restored: set<string>, attempts: seq<Attempt>)
      requires |run.scanners| == |attempts| && Traced(formats, s, Opening(run, versions), s1)
      requires Traced(formats, s1, ExecTrace(run, restored, attempts, |attempts|) + [Finish], s2)
      ensures Traced(formats, s, RunTrace(run, versions, restored, attempts), s2)
    {
      TracedAppend(formats, s, Opening(run, versions), s1,
                   ExecTrace(run, restored, attempts, |attempts|) + [Finish], s2);
    }

    /** The three phases in a row. */
    method RunPhases(plan: Plan, run: RunConfig, texts: Texts, versions: seq<string>, attempts: seq<Attempt>,
        now: Log.Time)
      requires Valid() && state.phase.Idle? && WellNamed(plan) && run.scanners == plan.scanners
      requires |versions| == |attempts| == |run.scanners|
      modifies this, registry, registry.steps.Values
      ensures Valid() && fresh(registry.steps.Values - old(registry.steps.Values))
      ensures state.phase.Idle? && restored == RestoredBy(formats, old(state), run, versions)
      ensures Traced(formats, old(state), RunTrace(run, versions, restored, attempts), state)
      ensures
        registry.View() ==
        ApplyAll(ApplyAll(ApplyAll(old(registry.View()), PreRegisterOps(plan, now) + BeforeOps(plan, texts, now)),
                          FlatN(SyncSeg(plan.scanners, restored, now), |plan.scanners|) + TailPendingOps),
                 FlatN(ExecSeg(plan.scanners, restored, attempts, now), |plan.scanners|) + AfterOps(texts, now))
    {
      ghost var s0 := state;
      ghost var e1 := PrepareAndSynchronize(plan, run, texts, versions, now);
      ghost var s1 := state;
      ghost var e2 := ExecuteAndComplete(run, texts, attempts, now);
      PhasesTraced(formats, s0, s1, state, run, versions, restored, attempts);
    }

    /** They perform the registry operations of the plan. */
    method RunPlanned(plan: Plan, run: RunConfig, texts: Texts, versions: seq<string>, attempts: seq<Attempt>,
        now: Log.Time)
      requires Valid() && state.phase.Idle? && WellNamed(plan) && run.scanners == plan.scanners
      requires |versions| == |attempts| == |run.scanners|
      modifies this, registry, registry.steps.Values
      ensures Valid() && fresh(registry.steps.Values - old(registry.steps.Values))
      ensures state.phase.Idle? && restored == RestoredBy(formats, old(state), run, versions)
      ensures Traced(formats, old(state), RunTrace(run, versions, restored, attempts), state)
      ensures registry.View() == ApplyAll(old(registry.View()), RunOps(plan, texts, restored, attempts, now))
    {
      ghost var w := registry.View();
      RunPhases(plan, run, texts, versions, attempts, now);
      JoinedRun(w, plan, texts, restored, attempts, now);
    }

    ghost predicate PlanSettled(plan: Plan)
      reads this, registry, registry.steps.Values
      requires registry.Valid()
    {
      forall k :: 0 <= k < |PlannedNames(plan)| ==>
                    PlannedNames(plan)[k] in registry.steps && Settled(registry.steps[PlannedNames(plan)[k]].status)
    }

    /** run_scan.  What it does to the results directory is the run of the checkpoint protocol that
        the versions and attempts prescribe, so a sound state stays sound and every scanner it
        restores is justified by an execution of an earlier run; it performs the operations of the
        plan, so every planned step is settled when it returns. */
    method RunScan(plan: Plan, run: RunConfig, texts: Texts, versions: seq<string>, attempts: seq<Attempt>,
        now: Log.Time)
      requires Valid() && state.phase.Idle? && WellNamed(plan) && run.scanners == plan.scanners
      requires |versions| == |attempts| == |run.scanners|
      modifies this, registry, registry.steps.Values
      ensures Valid() && fresh(registry.steps.Values - old(registry.steps.Values))
      ensures state.phase.Idle? && restored == RestoredBy(formats, old(state), run, versions)
      ensures Traced(formats, old(state), RunTrace(run, versions, restored, attempts), state)
      ensures registry.View() == ApplyAll(old(registry.View()), RunOps(plan, texts, restored, attempts, now))
      ensures PlanSettled(plan)
      ensures Sound(old(state)) ==> Sound(state)
    {
      ghost var w, s0 := registry.View(), state;
      RunPlanned(plan, run, texts, versions, attempts, now);
      if Sound(s0) {
        RunKeepsSound(formats, s0, RunTrace(run, versions, restored, attempts));
      }
      forall k | 0 <= k < |PlannedNames(plan)|
        ensures PlannedNames(plan)[k] in registry.steps && Settled(registry.steps[PlannedNames(plan)[k]].status)
      {
        EveryPlannedStepIsSettled(w, plan, texts, restored, attempts, now, k);
      }
    }
  }
}
