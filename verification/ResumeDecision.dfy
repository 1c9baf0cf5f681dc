/** Which scanners the sync loop of run_scan restores, and when that follows the pipeline order. */
module ResumeDecision {
  import opened Collections
  import opened Checkpoint
  import opened CheckpointProtocol

  function SyncEvents(versions: seq<string>): (es: seq<Event>)
    ensures |es| == |versions| && forall i :: 0 <= i < |es| ==> es[i] == SyncStep(versions[i])
  {
    seq(|versions|, i requires 0 <= i < |versions| => SyncStep(versions[i]))
  }

  /** The record of scanner `j` is acceptable in `s`. */
  predicate Acceptable(formats: Formats, s: State, versions: seq<string>, j: nat)
    requires |versions| == |s.run.scanners| && j < |versions|
  {
    Considered(s.run.scanners[j]) && MaySkip(formats, s, s.run.scanners[j], versions[j])
  }

  /** The names of the scanners from `i` on whose records are acceptable. */
  ghost function AcceptableNames(formats: Formats, s: State, versions: seq<string>, i: nat): set<string>
    requires |versions| == |s.run.scanners|
  {
    set j: nat | i <= j < |versions| && Acceptable(formats, s, versions, j) :: s.run.scanners[j].name
  }

  /** What the decision reads. */
  ghost predicate DecidesAlike(s: State, s': State) {
    s'.run == s.run && s'.files == s.files && s'.cp.steps == s.cp.steps
  }

  lemma AlikeAcceptable(formats: Formats, s: State, s': State, versions: seq<string>, j: nat)
    requires DecidesAlike(s, s') && |versions| == |s.run.scanners| && j < |versions|
    ensures Acceptable(formats, s', versions, j) <==> Acceptable(formats, s, versions, j)
  {
  }

  lemma AlikeNames(formats: Formats, s: State, s': State, versions: seq<string>, i: nat)
    requires DecidesAlike(s, s') && |versions| == |s.run.scanners|
    ensures AcceptableNames(formats, s', versions, i) == AcceptableNames(formats, s, versions, i)
  {
    forall j: nat | i <= j < |versions|
      ensures Acceptable(formats, s', versions, j) <==> Acceptable(formats, s, versions, j)
    {
      AlikeAcceptable(formats, s, s', versions, j);
    }
  }

  lemma OneTurn(formats: Formats, s: State, versions: seq<string>)
    requires s.phase.Sync? && s.phase.i < |s.run.scanners| == |versions|
    ensures
      var i, s' := s.phase.i, Next(formats, s, SyncStep(versions[s.phase.i]));
      && DecidesAlike(s, s') && s'.phase == (if i + 1 < |versions| then Sync(i + 1) else Exec(0))
      && s'.restored == s.restored +
                        if Acceptable(formats, s, versions, i) then {s.run.scanners[i].name} else {}
  {
  }

  /** The sync loop restores exactly the scanners whose records are acceptable when it begins: what
      it writes into the checkpoint on the way changes no later decision. */
  lemma {:induction false} SyncLoopRestores(formats: Formats, s: State, versions: seq<string>)
    requires s.phase.Sync? && s.phase.i < |s.run.scanners| == |versions|
    ensures Possible(formats, s, SyncEvents(versions[s.phase.i..]))
    ensures
      var s' := Run(formats, s, SyncEvents(versions[s.phase.i..]));
      && s'.phase == Exec(0) && DecidesAlike(s, s')
      && s'.restored == s.restored + AcceptableNames(formats, s, versions, s.phase.i)
    decreases |versions| - s.phase.i
  {
    var i := s.phase.i;
    var e, s1 := SyncEvents(versions[i..]), Next(formats, s, SyncStep(versions[i]));
    OneTurn(formats, s, versions);
    assert e[1..] == SyncEvents(versions[i + 1..]);
    assert AcceptableNames(formats, s, versions, i) ==
           (if Acceptable(formats, s, versions, i) then {s.run.scanners[i].name} else {}) +
           AcceptableNames(formats, s, versions, i + 1);
    if i + 1 < |versions| {
      SyncLoopRestores(formats, s1, versions);
      AlikeNames(formats, s, s1, versions, i + 1);
    } else {
      assert e[1..] == [];
      assert AcceptableNames(formats, s, versions, i + 1) == {};
    }
  }

  // ----- the pipeline order -----

  /** A restored scanner has only restored ones before it, of those that take part. */
  ghost predicate InPipelineOrder(scanners: seq<ScannerDef>, restored: set<string>) {
    forall k, j :: 0 <= k < j < |scanners| && Considered(scanners[k]) && scanners[j].name in restored ==>
                     scanners[k].name in restored
  }

  ghost predicate UniqueNames(scanners: seq<ScannerDef>) {
    forall k, j :: 0 <= k < j < |scanners| ==> scanners[k].name != scanners[j].name
  }

  lemma AcceptableByName(formats: Formats, s: State, versions: seq<string>, j: nat)
    requires |versions| == |s.run.scanners| && UniqueNames(s.run.scanners) && j < |versions|
    ensures s.run.scanners[j].name in AcceptableNames(formats, s, versions, 0) <==> Acceptable(formats, s, versions, j)
  {
  }

  /** A scanner whose record is acceptable stands behind one whose record is not. */
  ghost predicate AcceptableBehindRefused(formats: Formats, s: State, versions: seq<string>)
    requires |versions| == |s.run.scanners|
  {
    exists k, j :: 0 <= k < j < |versions| && Considered(s.run.scanners[k]) && !Acceptable(formats, s, versions, k)
                   && Acceptable(formats, s, versions, j)
  }

  /** The loop restores in pipeline order exactly if no acceptable record stands behind a refused one:
      the loop itself enforces no order. */
  lemma OrderKeptIff(formats: Formats, s: State, versions: seq<string>)
    requires s.phase == Sync(0) && 0 < |s.run.scanners| == |versions| && s.restored == {}
    requires UniqueNames(s.run.scanners)
    ensures Possible(formats, s, SyncEvents(versions))
    ensures InPipelineOrder(s.run.scanners, Run(formats, s, SyncEvents(versions)).restored) <==>
            !AcceptableBehindRefused(formats, s, versions)
  {
    assert versions[0..] == versions;
    SyncLoopRestores(formats, s, versions);
    forall j: nat | j < |versions|
      ensures s.run.scanners[j].name in AcceptableNames(formats, s, versions, 0) <==>
              Acceptable(formats, s, versions, j)
    {
      AcceptableByName(formats, s, versions, j);
    }
  }
}
