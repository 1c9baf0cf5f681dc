/** The step registry of scanner/core/step_registry.py as a machine on values: the in-memory steps,
    the append-only log, the asynchronous mirror in the database, crashes and restarts. */
module StepLog {
  import opened Collections

  datatype StepStatus = Pending | Running | Completed | Failed | Skipped

  datatype SubStepType = Phase | Action | Output

  type Time = int

  datatype SubStep = SubStep(
    name: string, status: StepStatus, message: string,
    startedAt: Option<Time>, completedAt: Option<Time>, kind: SubStepType)

  datatype StepData = StepData(
    number: nat, name: string, status: StepStatus, message: string,
    startedAt: Option<Time>, completedAt: Option<Time>, substeps: seq<SubStep>, timeoutSeconds: Option<int>)

  /** A line of steps.log; `Unreadable` stands for every line the loader skips as invalid JSON. */
  datatype LogLine = Init | Logged(step: StepData) | Unreadable

  datatype Row = Row(stepName: string, status: StepStatus, message: string, startedAt: Option<Time>,
      completedAt: Option<Time>)

  /** `tasks` names the steps whose upserts are scheduled; an upsert reads its step when it runs.
      `touched` collects the steps written by this process and `seen` what the upserts of a row
      have read so far. */
  datatype World = World(
    running: bool, steps: map<string, StepData>, counter: nat, tasks: seq<string>, touched: set<string>,
    log: seq<LogLine>, rows: map<nat, Row>, seen: map<nat, seq<StepData>>)

  const FreshWorld := World(false, map[], 0, [], {}, [], map[], map[])

  datatype Op =
    | Register(name: string, message: string, timeoutSeconds: Option<int>)
    | Start(name: string, message: string, now: Time)
    | Finish(name: string, failed: bool, message: string, now: Time)
    | Skip(name: string, message: string, now: Time)
    | SetPending(name: string)
    | Restore(name: string, reason: string, now: Time)
    | StartSub(name: string, sub: string, message: string, kind: SubStepType, now: Time)
    | EndSub(name: string, sub: string, failed: bool, message: string, now: Time)
    | UpdateSub(name: string, sub: string, message: string)

  function Or(message: string, default: string): string {
    if message != "" then message else default
  }

  // ----- the registry operations -----

  /** _write_to_log: one line appended, then one upsert scheduled. */
  function Write(w: World, d: StepData): World {
    w.(steps := w.steps[d.name := d],
       counter := if d.name in w.steps then w.counter else w.counter + 1,
       log := w.log + [Logged(d)],
       tasks := w.tasks + [d.name],
       touched := w.touched + {d.name})
  }

  function NewStep(w: World, name: string, status: StepStatus, message: string, started: Option<Time>,
      completed: Option<Time>, timeout: Option<int>): StepData {
    StepData(w.counter + 1, name, status, message, started, completed, [], timeout)
  }

  function Finished(d: StepData, failed: bool, message: string, now: Time): StepData {
    d.(status := if failed then Failed else Completed, completedAt := Some(now), message := Or(message, d.message))
  }

  function FindSub(substeps: seq<SubStep>, sub: string): (r: Option<nat>)
    ensures r.Some? ==> r.value < |substeps| && substeps[r.value].name == sub
    ensures r.Some? ==> forall i :: 0 <= i < r.value ==> substeps[i].name != sub
    ensures r.None? ==> forall i :: 0 <= i < |substeps| ==> substeps[i].name != sub
  {
    if substeps == [] then None
    else if substeps[0].name == sub then Some(0)
    else
      match FindSub(substeps[1..], sub)
      case Some(i) => Some(i + 1)
      case None => None
  }

  function SubStarted(d: StepData, sub: string, message: string, kind: SubStepType, now: Time): StepData {
    match FindSub(d.substeps, sub)
    case Some(i) =>
      var s := d.substeps[i];
      d.(substeps := d.substeps[i :=
        s.(status := Running, startedAt := Some(now), kind := kind, message := Or(message, s.message))])
    case None =>
      d.(substeps := d.substeps + [SubStep(sub, Running, Or(message, "Running " + sub + "..."), Some(now), None, kind)])
  }

  function SubEnded(d: StepData, sub: string, failed: bool, message: string, now: Time): StepData {
    match FindSub(d.substeps, sub)
    case Some(i) =>
      var s := d.substeps[i];
      d.(substeps := d.substeps[i :=
        s.(status := if failed then Failed else Completed, completedAt := Some(now),
          message := Or(message, s.message))])
    case None => d
  }

  function SubUpdated(d: StepData, sub: string, message: string): StepData {
    match FindSub(d.substeps, sub)
    case Some(i) => d.(substeps := d.substeps[i := d.substeps[i].(message := Or(message, d.substeps[i].message))])
    case None => d
  }

  const RESTORED := "Restored from checkpoint (artifact + config verified)"

  function RestoredMessage(reason: string): string {
    if reason != "" && reason != "ok" then RESTORED + " (" + reason + ")" else RESTORED
  }

  function Restored(d: StepData, reason: string, now: Time): StepData {
    d.(status := Completed, startedAt := Some(now), completedAt := Some(now), substeps := [],
      message := RestoredMessage(reason))
  }

  function AfterRegister(w: World, name: string, message: string, timeout: Option<int>): World {
    if name in w.steps then w else Write(w, NewStep(w, name, Pending, message, None, None, timeout))
  }

  function AfterStart(w: World, name: string, message: string, now: Time): World {
    Write(w, if name in w.steps then w.steps[name].(status := Running, startedAt := Some(now))
             else NewStep(w, name, Running, Or(message, "Running " + name + "..."), Some(now), None, None))
  }

  /** A step that was never started is started first, with its own line and upsert. */
  function EnsureStarted(w: World, name: string, message: string, now: Time): World {
    if name in w.steps then w else AfterStart(w, name, message, now)
  }

  function AfterFinish(w: World, name: string, failed: bool, message: string, now: Time): World {
    var w1 := EnsureStarted(w, name, message, now);
    Write(w1, Finished(w1.steps[name], failed, message, now))
  }

  function AfterSkip(w: World, name: string, reason: string, now: Time): World {
    Write(w, if name in w.steps
             then w.steps[name].(status := Skipped, completedAt := Some(now),
               message := Or(reason, w.steps[name].message))
             else NewStep(w, name, Skipped, Or(reason, name + " skipped"), Some(now), Some(now), None))
  }

  function AfterSetPending(w: World, name: string): World {
    if name !in w.steps || w.steps[name].status == Skipped then w
    else Write(w, w.steps[name].(status := Pending, message := name + "... (pending)", startedAt := None,
      completedAt := None, substeps := []))
  }

  function AfterRestore(w: World, name: string, reason: string, now: Time): World {
    if name in w.steps then Write(w, Restored(w.steps[name], reason, now)) else w
  }

  function AfterStartSub(w: World, name: string, sub: string, message: string, kind: SubStepType, now: Time): World {
    var w1 := EnsureStarted(w, name, "Running " + name + "...", now);
    Write(w1, SubStarted(w1.steps[name], sub, message, kind, now))
  }

  function AfterEndSub(w: World, name: string, sub: string, failed: bool, message: string, now: Time): World {
    if name in w.steps then Write(w, SubEnded(w.steps[name], sub, failed, message, now)) else w
  }

  function AfterUpdateSub(w: World, name: string, sub: string, message: string): World {
    if name in w.steps then Write(w, SubUpdated(w.steps[name], sub, message)) else w
  }

  function Apply(w: World, op: Op): World {
    match op
    case Register(name, message, timeout) => AfterRegister(w, name, message, timeout)
    case Start(name, message, now) => AfterStart(w, name, message, now)
    case Finish(name, failed, message, now) => AfterFinish(w, name, failed, message, now)
    case Skip(name, reason, now) => AfterSkip(w, name, reason, now)
    case SetPending(name) => AfterSetPending(w, name)
    case Restore(name, reason, now) => AfterRestore(w, name, reason, now)
    case StartSub(name, sub, message, kind, now) => AfterStartSub(w, name, sub, message, kind, now)
    case EndSub(name, sub, failed, message, now) => AfterEndSub(w, name, sub, failed, message, now)
    case UpdateSub(name, sub, message) => AfterUpdateSub(w, name, sub, message)
  }

  // ----- reload -----

  datatype Memory = Memory(steps: map<string, StepData>, counter: nat)

  /** One line of _load_existing_steps: the first line of a name registers it, later ones replace
      its substeps only. */
  function LoadLine(m: Memory, line: LogLine): Memory {
    if !line.Logged? || line.step.number == 0 || line.step.name == "" then m
    else
      var d := line.step;
      if d.name !in m.steps
      then Memory(m.steps[d.name := d], if d.number > m.counter then d.number else m.counter)
      else m.(steps := m.steps[d.name := m.steps[d.name].(substeps := d.substeps)])
  }

  function Load(log: seq<LogLine>): Memory {
    if log == [] then Memory(map[], 0) else LoadLine(Load(log[..|log| - 1]), log[|log| - 1])
  }

  // ----- the database mirror -----

  function Coalesce<T>(a: Option<T>, b: Option<T>): Option<T> {
    if a.Some? then a else b
  }

  /** One upsert: it reads the shared step now, not when it was scheduled. */
  function Upserted(w: World, i: nat): World
    requires i < |w.tasks| && w.tasks[i] in w.steps
  {
    var d := w.steps[w.tasks[i]];
    var prior := if d.number in w.rows then w.rows[d.number] else Row("", Pending, "", None, None);
    var row := Row(d.name, d.status, d.message, Coalesce(d.startedAt, prior.startedAt),
      Coalesce(d.completedAt, prior.completedAt));
    w.(tasks := w.tasks[..i] + w.tasks[i + 1..],
       rows := w.rows[d.number := row],
       seen := w.seen[d.number := ReadsOf(w, d.number) + [d]])
  }

  function ReadsOf(w: World, number: nat): seq<StepData> {
    if number in w.seen then w.seen[number] else []
  }

  // ----- events -----

  /** Tasks run in any order; a crash loses memory and tasks; Boot is the constructor. */
  datatype Event = Do(op: Op) | Upsert(i: nat) | Crash | Boot

  predicate Enabled(w: World, e: Event) {
    match e
    case Do(_) => w.running
    case Upsert(i) => w.running && i < |w.tasks| && w.tasks[i] in w.steps
    case Crash => w.running
    case Boot => !w.running
  }

  function Next(w: World, e: Event): World
    requires Enabled(w, e)
  {
    match e
    case Do(op) => Apply(w, op)
    case Upsert(i) => Upserted(w, i)
    case Crash => w.(running := false, steps := map[], counter := 0, tasks := [], touched := {})
    case Boot =>
      var m := Load(w.log);
      w.(running := true, steps := m.steps, counter := m.counter, log := if w.log == [] then [Init] else w.log)
  }

  ghost predicate Possible(w: World, es: seq<Event>)
    decreases |es|
  {
    es == [] || (Enabled(w, es[0]) && Possible(Next(w, es[0]), es[1..]))
  }

  ghost function Run(w: World, es: seq<Event>): World
    requires Possible(w, es)
    decreases |es|
  {
    if es == [] then w else Run(Next(w, es[0]), es[1..])
  }

  /** Steps have names; nothing else is asked of the callers. */
  ghost predicate Named(es: seq<Event>) {
    forall i :: 0 <= i < |es| && es[i].Do? ==> es[i].op.name != ""
  }

  // ----- step identity -----

  ghost predicate InUse(steps: map<string, StepData>, number: nat) {
    exists n :: n in steps && steps[n].number == number
  }

  /** The numbers in use are exactly 1..counter, and name to number is one-to-one. */
  ghost predicate Numbering(m: Memory) {
    && (forall n :: n in m.steps ==> m.steps[n].name == n && n != "" && 1 <= m.steps[n].number <= m.counter)
    && (forall n, n' :: n in m.steps && n' in m.steps && m.steps[n].number == m.steps[n'].number ==> n == n')
    && (forall k :: 1 <= k <= m.counter ==> InUse(m.steps, k))
  }

  /** Equal names, numbers and substeps: what the log preserves. */
  ghost predicate SameIdentity(a: Memory, b: Memory) {
    && a.counter == b.counter && a.steps.Keys == b.steps.Keys
    && forall n :: n in a.steps ==>
                     a.steps[n].number == b.steps[n].number && a.steps[n].name == b.steps[n].name
                     && a.steps[n].substeps == b.steps[n].substeps
  }

  ghost predicate Identity(w: World) {
    && Numbering(Load(w.log))
    && (w.running ==> SameIdentity(Memory(w.steps, w.counter), Load(w.log)))
    && (!w.running ==> w.tasks == [] && w.touched == {})
    && (forall n :: n in w.tasks ==> n in w.steps)
    && (forall n :: n in w.touched ==> n in w.steps)
    && (forall k :: k in w.rows ==>
                      RowName(w, k) in Load(w.log).steps && Load(w.log).steps[RowName(w, k)].number == k)
  }

  function RowName(w: World, k: nat): string
    requires k in w.rows
  {
    w.rows[k].stepName
  }

  /** What later states keep of earlier ones: no name loses or changes its number, and no row of
      the database changes the step it is about. */
  ghost predicate Keeps(w: World, w': World) {
    && (forall n :: n in Load(w.log).steps ==>
                      n in Load(w'.log).steps && Load(w'.log).steps[n].number == Load(w.log).steps[n].number)
    && (forall k :: k in w.rows ==> k in w'.rows && w'.rows[k].stepName == w.rows[k].stepName)
  }

  lemma LoadSnoc(log: seq<LogLine>, line: LogLine)
    ensures Load(log + [line]) == LoadLine(Load(log), line)
  {
    assert (log + [line])[..|log + [line]| - 1] == log;
  }

  /** The number a line must carry: the step's own, or the next free one. */
  ghost predicate NumberedFor(m: Memory, d: StepData) {
    d.name != "" && d.number == if d.name in m.steps then m.steps[d.name].number else m.counter + 1
  }

  lemma LineShape(m: Memory, d: StepData)
    requires Numbering(m) && NumberedFor(m, d)
    ensures
      LoadLine(m, Logged(d)) ==
      if d.name in m.steps then m.(steps := m.steps[d.name := m.steps[d.name].(substeps := d.substeps)])
      else Memory(m.steps[d.name := d], m.counter + 1)
  {
  }

  lemma LineKeepsInUse(m: Memory, d: StepData, k: nat)
    requires Numbering(m) && NumberedFor(m, d) && 1 <= k <= LoadLine(m, Logged(d)).counter
    ensures InUse(LoadLine(m, Logged(d)).steps, k)
  {
    var m' := LoadLine(m, Logged(d));
    LineShape(m, d);
    if k <= m.counter {
      assert InUse(m.steps, k);
      var n :| n in m.steps && m.steps[n].number == k;
      assert n in m'.steps && m'.steps[n].number == k;
    } else {
      assert d.name in m'.steps && m'.steps[d.name].number == k;
    }
  }

  /** One more line under such a number keeps the numbering. */
  lemma LineKeepsNumbering(m: Memory, d: StepData)
    requires Numbering(m) && NumberedFor(m, d)
    ensures Numbering(LoadLine(m, Logged(d)))
  {
    LineShape(m, d);
    var m' := LoadLine(m, Logged(d));
    forall k | 1 <= k <= m'.counter ensures InUse(m'.steps, k) {
      LineKeepsInUse(m, d, k);
    }
    forall n | n in m'.steps
      ensures m'.steps[n].name == n && n != "" && 1 <= m'.steps[n].number <= m'.counter
      ensures m'.steps[n].number == if n in m.steps then m.steps[n].number else m.counter + 1
    {
    }
  }

  /** So a write keeps the whole identity. */
  lemma WriteKeepsIdentity(w: World, d: StepData)
    requires Identity(w) && w.running && d.name != ""
    requires d.number == if d.name in w.steps then w.steps[d.name].number else w.counter + 1
    ensures Identity(Write(w, d)) && Keeps(w, Write(w, d)) && Write(w, d).running
  {
    var m, w' := Load(w.log), Write(w, d);
    LoadSnoc(w.log, Logged(d));
    LineShape(m, d);
    LineKeepsNumbering(m, d);
    assert Load(w'.log) == LoadLine(m, Logged(d));
    WriteKeepsMemory(w, d);
    RowsStayNamed(w, d);
  }

  lemma RowsStayNamed(w: World, d: StepData)
    requires Identity(w) && NumberedFor(Load(w.log), d)
    ensures
      var w', m' := Write(w, d), LoadLine(Load(w.log), Logged(d));
      forall k :: k in w'.rows ==> RowName(w', k) in m'.steps && m'.steps[RowName(w', k)].number == k
  {
    LineShape(Load(w.log), d);
    forall k | k in w.rows ensures RowName(Write(w, d), k) == RowName(w, k) {
    }
  }

  lemma WriteKeepsMemory(w: World, d: StepData)
    requires Identity(w) && w.running && NumberedFor(Load(w.log), d)
    ensures SameIdentity(Memory(Write(w, d).steps, Write(w, d).counter), LoadLine(Load(w.log), Logged(d)))
  {
    LineShape(Load(w.log), d);
  }

  lemma KeepsTransitive(a: World, b: World, c: World)
    requires Keeps(a, b) && Keeps(b, c)
    ensures Keeps(a, c)
  {
  }

  lemma ApplyKeepsIdentity(w: World, op: Op)
    requires Identity(w) && w.running && op.name != ""
    ensures Identity(Apply(w, op)) && Keeps(w, Apply(w, op)) && Apply(w, op).running
  {
    var name := op.name;
    if name in w.steps {
      assert w.steps[name].name == name by {
        assert Load(w.log).steps[name].name == name;
      }
      if Apply(w, op) != w {
        assert Apply(w, op) == Write(w, Apply(w, op).steps[name]);
        WriteKeepsIdentity(w, Apply(w, op).steps[name]);
      }
    } else if op.Finish? || op.StartSub? {
      var w1 := AfterStart(w, name, if op.Finish? then op.message else "Running " + name + "...", op.now);
      WriteKeepsIdentity(w, w1.steps[name]);
      WriteKeepsIdentity(w1, Apply(w, op).steps[name]);
      KeepsTransitive(w, w1, Apply(w, op));
    } else if Apply(w, op) != w {
      assert Apply(w, op) == Write(w, Apply(w, op).steps[name]);
      WriteKeepsIdentity(w, Apply(w, op).steps[name]);
    }
  }

  lemma UpsertKeepsIdentity(w: World, i: nat)
    requires Identity(w) && Enabled(w, Upsert(i))
    ensures Identity(Upserted(w, i)) && Keeps(w, Upserted(w, i))
  {
    var w' := Upserted(w, i);
    var name := w.tasks[i];
    assert Load(w.log).steps[name].name == name;
    forall k | k in w'.rows
      ensures RowName(w', k) in Load(w.log).steps && Load(w.log).steps[RowName(w', k)].number == k
    {
      if k != w.steps[name].number {
        assert k in w.rows && RowName(w', k) == RowName(w, k);
      }
    }
    forall k | k in w.rows ensures k in w'.rows && w'.rows[k].stepName == w.rows[k].stepName {
      if k == w.steps[name].number {
        assert RowName(w, k) in Load(w.log).steps;
      }
    }
  }

  lemma EventKeepsIdentity(w: World, e: Event)
    requires Identity(w) && Enabled(w, e) && (e.Do? ==> e.op.name != "")
    ensures Identity(Next(w, e)) && Keeps(w, Next(w, e))
  {
    match e {
      case Do(op) => ApplyKeepsIdentity(w, op);
      case Upsert(i) => UpsertKeepsIdentity(w, i);
      case Crash =>
      case Boot =>
        if w.log == [] {
          LoadSnoc([], Init);
          assert [] + [Init] == [Init];
        }
    }
  }

  /** Over any sequence of operations, upserts, crashes and restarts: the numbers in use are
      1..counter, name to number is a bijection that never changes, and a database row never
      changes its step. */
  lemma {:induction false} IdentityOverRuns(w: World, es: seq<Event>)
    requires Identity(w) && Possible(w, es) && Named(es)
    ensures Identity(Run(w, es)) && Keeps(w, Run(w, es))
    decreases |es|
  {
    if es != [] {
      var w1 := Next(w, es[0]);
      EventKeepsIdentity(w, es[0]);
      IdentityOverRuns(w1, es[1..]);
      KeepsTransitive(w, w1, Run(w1, es[1..]));
    }
  }

  lemma FreshWorldHasIdentity()
    ensures Identity(FreshWorld)
  {
  }

  /** A running process numbers its steps as the log does. */
  lemma RunningNumbering(w: World)
    requires Identity(w) && w.running
    ensures Numbering(Memory(w.steps, w.counter))
  {
    var m, loaded := Memory(w.steps, w.counter), Load(w.log);
    forall k | 1 <= k <= m.counter ensures InUse(m.steps, k) {
      assert InUse(loaded.steps, k);
      var n :| n in loaded.steps && loaded.steps[n].number == k;
      assert n in m.steps && m.steps[n].number == k;
    }
  }

  /** A crash followed by a restart gives back every name, number and list of substeps. */
  lemma RestartRestoresIdentity(es: seq<Event>)
    requires Possible(FreshWorld, es) && Named(es) && Run(FreshWorld, es).running
    ensures
      var before := Run(FreshWorld, es);
      var after := Next(Next(before, Crash), Boot);
      && SameIdentity(Memory(after.steps, after.counter), Memory(before.steps, before.counter))
      && Numbering(Memory(before.steps, before.counter))
      && after.log == before.log
  {
    FreshWorldHasIdentity();
    IdentityOverRuns(FreshWorld, es);
    var before := Run(FreshWorld, es);
    RunningNumbering(before);
    RunningLogIsNotEmpty(FreshWorld, es);
  }

  lemma {:induction false} RunningLogIsNotEmpty(w: World, es: seq<Event>)
    requires Possible(w, es) && (w.running ==> w.log != [])
    ensures Run(w, es).running ==> Run(w, es).log != []
    decreases |es|
  {
    if es != [] {
      RunningLogIsNotEmpty(Next(w, es[0]), es[1..]);
    }
  }

  /** Without the naming rule identity is lost, from every state of a running process, whatever
      upserts are scheduled: the loader skips a step called "", so after a restart its number is
      handed out again and its database row changes name. */
  lemma UnnamedStepLosesItsNumber(w: World, name: string)
    requires Identity(w) && w.running && w.log != []
    requires name != "" && name !in w.steps
    ensures
      var unnamed := Apply(w, Start("", "m", 1));
      var mirrored := Upserted(unnamed, |w.tasks|);
      var restarted := Next(Next(mirrored, Crash), Boot);
      var renamed := Upserted(Apply(restarted, Start(name, "m", 2)), 0);
      var k := w.counter + 1;
      && k in mirrored.rows && mirrored.rows[k].stepName == ""
      && k in renamed.rows && renamed.rows[k].stepName == name
  {
    var unnamed := Apply(w, Start("", "m", 1));
    assert "" !in w.steps by {
      assert "" !in Load(w.log).steps;
    }
    LoadSnoc(w.log, Logged(unnamed.steps[""]));
    assert Load(unnamed.log) == Load(w.log);
    var restarted := Next(Next(Upserted(unnamed, |w.tasks|), Crash), Boot);
    assert restarted.counter == w.counter && name !in restarted.steps;
  }

  // ----- the mirror converges -----

  /** The latest non-null value among the steps read for one row. */
  function Latest(seen: seq<StepData>, field: StepData -> Option<Time>): Option<Time> {
    if seen == [] then None
    else Coalesce(field(seen[|seen| - 1]), Latest(seen[..|seen| - 1], field))
  }

  function StartedOf(d: StepData): Option<Time> { d.startedAt }
  function CompletedOf(d: StepData): Option<Time> { d.completedAt }

  /** A step written by this process either has an upsert still to come, or its row is current. */
  ghost predicate Fresh(w: World, n: string)
    requires n in w.steps
  {
    || n in w.tasks
    || (var d := w.steps[n];
        d.number in w.rows && w.rows[d.number].status == d.status && w.rows[d.number].message == d.message)
  }

  ghost predicate Mirrored(w: World) {
    && (forall n :: n in w.touched ==> n in w.steps && Fresh(w, n))
    && w.rows.Keys == w.seen.Keys
    && (forall k :: k in w.rows ==>
                      && w.rows[k].startedAt == Latest(w.seen[k], StartedOf)
                      && w.rows[k].completedAt == Latest(w.seen[k], CompletedOf))
  }

  lemma WriteKeepsMirror(w: World, d: StepData)
    requires Mirrored(w)
    ensures Mirrored(Write(w, d))
  {
    var w' := Write(w, d);
    forall n | n in w'.touched ensures n in w'.steps && Fresh(w', n) {
      if n == d.name {
        assert w'.tasks[|w.tasks|] == n;
      } else {
        assert n in w.touched && Fresh(w, n);
        if n in w.tasks {
          assert n in w'.tasks;
        }
      }
    }
  }

  lemma UpsertKeepsFresh(w: World, i: nat, n: string)
    requires Identity(w) && Enabled(w, Upsert(i)) && n in w.touched && Fresh(w, n)
    ensures Fresh(Upserted(w, i), n)
  {
    var w' := Upserted(w, i);
    var name := w.tasks[i];
    if n != name {
      assert Load(w.log).steps[n].number == w.steps[n].number && Load(w.log).steps[name].number == w.steps[name].number;
      if n in w.tasks {
        var j :| 0 <= j < |w.tasks| && w.tasks[j] == n;
        assert w'.tasks[if j < i then j else j - 1] == n;
      }
    }
  }

  lemma UpsertKeepsMirror(w: World, i: nat)
    requires Identity(w) && Mirrored(w) && Enabled(w, Upsert(i))
    ensures Mirrored(Upserted(w, i))
  {
    var w' := Upserted(w, i);
    var name := w.tasks[i];
    var d := w.steps[name];
    forall n | n in w'.touched ensures Fresh(w', n) {
      UpsertKeepsFresh(w, i, n);
    }
    var seen := ReadsOf(w, d.number);
    assert (seen + [d])[..|seen|] == seen;
  }

  lemma EventKeepsMirror(w: World, e: Event)
    requires Identity(w) && Mirrored(w) && Enabled(w, e)
    ensures Mirrored(Next(w, e))
  {
    match e {
      case Upsert(i) => UpsertKeepsMirror(w, i);
      case Do(op) =>
        if op.name !in w.steps && (op.Finish? || op.StartSub?) {
          var w1 := AfterStart(w, op.name, if op.Finish? then op.message else "Running " + op.name + "...", op.now);
          WriteKeepsMirror(w, w1.steps[op.name]);
          OneMoreWrite(w1, Apply(w, op));
        } else {
          OneMoreWrite(w, Apply(w, op));
        }
      case Crash =>
      case Boot =>
    }
  }

  /** Every operation ends in at most one more write. */
  lemma OneMoreWrite(w: World, w': World)
    requires Mirrored(w) && (w' == w || exists d :: w' == Write(w, d))
    ensures Mirrored(w')
  {
    if w' != w {
      var d :| w' == Write(w, d);
      WriteKeepsMirror(w, d);
    }
  }

  lemma {:induction false} MirrorOverRuns(w: World, es: seq<Event>)
    requires Identity(w) && Mirrored(w) && Possible(w, es) && Named(es)
    ensures Mirrored(Run(w, es))
    decreases |es|
  {
    if es != [] {
      EventKeepsMirror(w, es[0]);
      EventKeepsIdentity(w, es[0]);
      MirrorOverRuns(Next(w, es[0]), es[1..]);
    }
  }

  /** Once every scheduled upsert has run, the row of each step this process wrote has the status
      and message in memory, and the latest non-null times any upsert read. */
  lemma MirrorConverges(es: seq<Event>, n: string)
    requires Possible(FreshWorld, es) && Named(es)
    requires Run(FreshWorld, es).tasks == [] && n in Run(FreshWorld, es).touched
    ensures
      var w := Run(FreshWorld, es);
      && n in w.steps
      && var k := w.steps[n].number;
      && k in w.rows && k in w.seen
      && w.rows[k] == Row(n, w.steps[n].status, w.steps[n].message,
                          Latest(w.seen[k], StartedOf), Latest(w.seen[k], CompletedOf))
  {
    FreshWorldHasIdentity();
    MirrorOverRuns(FreshWorld, es);
    IdentityOverRuns(FreshWorld, es);
    var w := Run(FreshWorld, es);
    var k := w.steps[n].number;
    assert Fresh(w, n);
    var m := Load(w.log);
    assert m.steps[n].number == k && m.steps[RowName(w, k)].number == k;
  }
}
