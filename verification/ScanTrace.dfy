/** The protocol events of one uninterrupted run_scan, and what one turn of its execution loop does. */
module ScanTrace {
  import opened Collections
  import opened Checkpoint
  import opened CheckpointProtocol
  import opened ResumeDecision
  import opened RunPlan

  // ----- the events of a scan -----

  /** The files a tool writes: none if it is not run. */
  function WritesOf(sc: ScannerDef, attempt: Attempt): seq<(string, Option<Bytes>)> {
    if sc.toolsKey == "" || attempt.ending.NoClass? then [] else attempt.writes
  }

  function WriteEvents(toolsKey: string, writes: seq<(string, Option<Bytes>)>): (es: seq<Event>)
    ensures |es| == |writes|
    ensures forall k :: 0 <= k < |es| ==> es[k] == WriteFile(toolsKey, writes[k].0, writes[k].1)
  {
    seq(|writes|, k requires 0 <= k < |writes| => WriteFile(toolsKey, writes[k].0, writes[k].1))
  }

  function Succeeds(sc: ScannerDef, attempt: Attempt): bool {
    OutcomeOf(sc, attempt.ending).Succeeded?
  }

  /** A success of a plugin with a checkpoint block is saved, whether a record was made or not. */
  function ResultEvents(run: RunConfig, sc: ScannerDef, ok: bool, version: string): seq<Event> {
    [FinishExec(ok, version)] + if ok && sc.checkpoint.Some? && !run.disabled then [Save] else []
  }

  predicate Runs(sc: ScannerDef, restored: set<string>) {
    sc.AdminEnabled() && (sc.toolsKey == "" || sc.name !in restored)
  }

  function AttemptEvents(run: RunConfig, sc: ScannerDef, attempt: Attempt): seq<Event> {
    WriteEvents(sc.toolsKey, WritesOf(sc, attempt)) + ResultEvents(run, sc, Succeeds(sc, attempt), attempt.version)
  }

  function ExecEvents(run: RunConfig, sc: ScannerDef, restored: set<string>, attempt: Attempt): seq<Event> {
    [StartExec] + if Runs(sc, restored) then AttemptEvents(run, sc, attempt) else []
  }

  /** The first `n` turns of the execution loop. */
  function ExecTrace(run: RunConfig, restored: set<string>, attempts: seq<Attempt>, n: nat): seq<Event>
    requires n <= |run.scanners| == |attempts|
  {
    if n == 0 then []
    else ExecTrace(run, restored, attempts, n - 1) + ExecEvents(run, run.scanners[n - 1], restored, attempts[n - 1])
  }

  function Opening(run: RunConfig, versions: seq<string>): seq<Event> {
    [Begin(run)] + SyncEvents(versions)
  }

  function RunTrace(run: RunConfig, versions: seq<string>, restored: set<string>, attempts: seq<Attempt>): seq<Event>
    requires |run.scanners| == |attempts|
  {
    Opening(run, versions) + (ExecTrace(run, restored, attempts, |attempts|) + [Finish])
  }

  /** The scanners a scan that begins in `s` restores. */
  ghost function RestoredBy(formats: Formats, s: State, run: RunConfig, versions: seq<string>): set<string>
    requires s.phase.Idle? && |versions| == |run.scanners|
  {
    AcceptableNames(formats, Begun(s, run), versions, 0)
  }

  lemma PossibleOne(formats: Formats, s: State, e: Event)
    requires Enabled(s, e)
    ensures Possible(formats, s, [e]) && Run(formats, s, [e]) == Next(formats, s, e)
  {
    assert [e][1..] == [];
  }

  lemma OpeningRestores(formats: Formats, s: State, run: RunConfig, versions: seq<string>)
    requires s.phase.Idle? && |versions| == |run.scanners|
    ensures Possible(formats, s, Opening(run, versions))
    ensures
      var s' := Run(formats, s, Opening(run, versions));
      && s'.phase == Exec(0) && DecidesAlike(Begun(s, run), s')
      && s'.restored == RestoredBy(formats, s, run, versions)
  {
    PossibleOne(formats, s, Begin(run));
    var s1 := Begun(s, run);
    if run.scanners == [] {
      assert Opening(run, versions) == [Begin(run)];
    } else {
      assert versions[0..] == versions;
      SyncLoopRestores(formats, s1, versions);
      RunAppend(formats, s, [Begin(run)], SyncEvents(versions));
    }
  }

  // ----- one turn of the execution loop -----

  function Written(files: Files, toolsKey: string, writes: seq<(string, Option<Bytes>)>): Files {
    if writes == [] then files
    else
      var n := |writes| - 1;
      var front, (file, content) := Written(files, toolsKey, writes[..n]), writes[n];
      if content.Some? then front[(toolsKey, file) := content.value] else front - {(toolsKey, file)}
  }

  lemma {:induction false} WritesDo(formats: Formats, s: State, toolsKey: string, writes: seq<(string, Option<Bytes>)>)
    ensures Possible(formats, s, WriteEvents(toolsKey, writes))
    ensures Run(formats, s, WriteEvents(toolsKey, writes)) == s.(files := Written(s.files, toolsKey, writes))
  {
    if writes != [] {
      var n := |writes| - 1;
      var last := WriteFile(toolsKey, writes[n].0, writes[n].1);
      WritesDo(formats, s, toolsKey, writes[..n]);
      PossibleOne(formats, Run(formats, s, WriteEvents(toolsKey, writes[..n])), last);
      RunAppend(formats, s, WriteEvents(toolsKey, writes[..n]), [last]);
      assert WriteEvents(toolsKey, writes) == WriteEvents(toolsKey, writes[..n]) + [last];
    }
  }

  function FileAt(files: Files, toolsKey: string, file: string): Option<Bytes> {
    if (toolsKey, file) in files then Some(files[(toolsKey, file)]) else None
  }

  /** A tool writes into its own directory only. */
  lemma {:induction false} WritesStayInDirectory(
    files: Files, toolsKey: string, writes: seq<(string, Option<Bytes>)>, other: string, file: string)
    requires other != toolsKey
    ensures FileAt(Written(files, toolsKey, writes), other, file) == FileAt(files, other, file)
  {
    if writes != [] {
      WritesStayInDirectory(files, toolsKey, writes[..|writes| - 1], other, file);
    }
  }

  /** A finished execution, its record saved. */
  function AfterResult(formats: Formats, s: State, sc: ScannerDef, ok: bool, version: string): State
    requires s.phase.Running?
  {
    if !ok then s.(phase := Exec(s.phase.i + 1))
    else
      var s1 := Executed(formats, s, sc, version);
      s1.(phase := Exec(s.phase.i + 1), disk := if sc.checkpoint.Some? && !s.run.disabled then Some(s1.cp) else s.disk)
  }

  lemma ResultDoes(formats: Formats, s: State, ok: bool, version: string)
    requires Enabled(s, FinishExec(ok, version))
    ensures
      var es := ResultEvents(s.run, s.run.scanners[s.phase.i], ok, version);
      && Possible(formats, s, es)
      && Run(formats, s, es) == AfterResult(formats, s, s.run.scanners[s.phase.i], ok, version)
  {
    var sc, s1 := s.run.scanners[s.phase.i], Next(formats, s, FinishExec(ok, version));
    PossibleOne(formats, s, FinishExec(ok, version));
    if ok && sc.checkpoint.Some? && !s.run.disabled {
      PossibleOne(formats, s1, Save);
      RunAppend(formats, s, [FinishExec(ok, version)], [Save]);
    } else {
      assert ResultEvents(s.run, sc, ok, version) == [FinishExec(ok, version)];
    }
  }

  /** The state of the running scanner after its tool wrote. */
  function ToolDone(s: State, sc: ScannerDef, i: nat, attempt: Attempt): State {
    s.(phase := Running(i), starts := s.starts + [sc.toolsKey],
       files := Written(s.files, sc.toolsKey, WritesOf(sc, attempt)))
  }

  function AfterTurn(formats: Formats, s: State, sc: ScannerDef, i: nat, attempt: Attempt): State {
    if !ToRun(s, sc) then s.(phase := Exec(i + 1))
    else AfterResult(formats, ToolDone(s, sc, i, attempt), sc, Succeeds(sc, attempt), attempt.version)
  }

  lemma AttemptDoes(formats: Formats, s: State, i: nat, attempt: Attempt)
    requires s.phase == Running(i) && i < |s.run.scanners|
    ensures
      var sc := s.run.scanners[i];
      var es, s1 := AttemptEvents(s.run, sc, attempt),
        s.(files := Written(s.files, sc.toolsKey, WritesOf(sc, attempt)));
      Possible(formats, s, es)
        && Run(formats, s, es) == AfterResult(formats, s1, sc, Succeeds(sc, attempt), attempt.version)
  {
    var sc := s.run.scanners[i];
    var s1 := s.(files := Written(s.files, sc.toolsKey, WritesOf(sc, attempt)));
    WritesDo(formats, s, sc.toolsKey, WritesOf(sc, attempt));
    ResultDoes(formats, s1, Succeeds(sc, attempt), attempt.version);
    RunAppend(formats, s, WriteEvents(sc.toolsKey, WritesOf(sc, attempt)),
              ResultEvents(s.run, sc, Succeeds(sc, attempt), attempt.version));
  }

  lemma TurnDoes(formats: Formats, s: State, i: nat, attempt: Attempt)
    requires s.phase == Exec(i) && i < |s.run.scanners|
    ensures
      var sc := s.run.scanners[i];
      var es := ExecEvents(s.run, sc, s.restored, attempt);
      Possible(formats, s, es) && Run(formats, s, es) == AfterTurn(formats, s, sc, i, attempt)
  {
    var sc, s1 := s.run.scanners[i], Next(formats, s, StartExec);
    PossibleOne(formats, s, StartExec);
    if ToRun(s, sc) {
      AttemptDoes(formats, s1, i, attempt);
      RunAppend(formats, s, [StartExec], AttemptEvents(s.run, sc, attempt));
    } else {
      assert ExecEvents(s.run, sc, s.restored, attempt) == [StartExec];
    }
  }
}
