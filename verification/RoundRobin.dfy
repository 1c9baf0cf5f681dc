/** The round_robin queue strategy of backend/worker/main.py: jobs are pushed at the left of a Redis
    list, the worker serves the owner whose last run is oldest and stamps the owner afterwards. */
module RoundRobin {
  import opened Collections

  /** scan_metadata.session_id: not there, null, or a text. */
  datatype Session = Absent | Null | Id(id: string)

  /** A decoded queue message; the empty object is falsy in the source. */
  datatype Message = EmptyObject | Job(userId: Option<string>, session: Session, scanId: Option<string>,
      id: Option<string>)
  {
    predicate Identified() { Job? && userId.Some? && userId.value != "" }

    function SessionKey(): string {
      if EmptyObject? || session.Absent? then "session:"
      else if session.Null? then "session:None"
      else "session:" + session.id
    }

    /** The key under which the last run of the owner is looked up. */
    function Owner(): string {
      if Identified() then userId.value
      else if SessionKey() == "session:" then "guest"
      else SessionKey()
    }

    /** The key under which the run is stamped after service. */
    function StampKey(): Option<string> {
      if Identified() then userId
      else if Job? && session.Id? && session.id != "" then Some("session:" + session.id)
      else None
    }

    /** scan_id, or else id. */
    function JobId(): Option<string> {
      if EmptyObject? then None
      else if scanId.Some? && scanId.value != "" then scanId
      else id
    }
  }

  type Parser = string -> Option<Message>
  type LastRun = map<string, real>

  const LIFETIME := 86400.0

  /** A stamp expires; an absent one counts as 0.0. */
  function Recency(lastRun: LastRun, now: real, key: string): real {
    if key in lastRun && now < lastRun[key] + LIFETIME then lastRun[key] else 0.0
  }

  /** A stamp is made under the key that is looked up. */
  lemma StampsTheOwner(m: Message)
    ensures m.StampKey().Some? ==> m.StampKey() == Some(m.Owner())
  {
    if m.Job? && m.session.Id? && m.session.id != "" {
      assert |"session:" + m.session.id| > |"session:"|;
    }
  }

  // ----- owners -----

  /** A job belongs to its user, or else to its session; without both it is a guest's. */
  lemma OwnerIs(m: Message)
    ensures m.EmptyObject? ==> m.Owner() == "guest" && m.StampKey() == None
    ensures m.Job? && m.userId.Some? && m.userId.value != "" ==>
              m.Owner() == m.userId.value && m.StampKey() == Some(m.userId.value)
    ensures m.Job? && (m.userId.None? || m.userId.value == "") ==>
              match m.session
              case Absent => m.Owner() == "guest" && m.StampKey() == None
              case Null => m.Owner() == "session:None" && m.StampKey() == None
              case Id(id) =>
                if id == "" then m.Owner() == "guest" && m.StampKey() == None
                else m.Owner() == "session:" + id && m.StampKey() == Some("session:" + id)
  {
    if m.Job? && m.session.Id? {
      assert |"session:" + m.session.id| == |"session:"| + |m.session.id|;
    }
  }

  /** A stamp counts for a day. */
  lemma RecencyIs(lastRun: LastRun, now: real, key: string)
    ensures key !in lastRun || now - lastRun[key] >= 86400.0 ==> Recency(lastRun, now, key) == 0.0
    ensures key in lastRun && now - lastRun[key] < 86400.0 ==> Recency(lastRun, now, key) == lastRun[key]
  {
  }

  /** A job goes by its scan_id, and by its id if that is missing or empty. */
  lemma JobIdIs(m: Message)
    ensures m.Job? && m.scanId.Some? && m.scanId.value != "" ==> m.JobId() == m.scanId
    ensures m.Job? && (m.scanId.None? || m.scanId.value == "") ==> m.JobId() == m.id
    ensures m.EmptyObject? ==> m.JobId() == None
  {
  }

  // ----- choosing -----

  /** The decodable messages, with their positions in the list. */
  function Decoded(parse: Parser, items: seq<string>): seq<Message> {
    if items == [] then []
    else
      var front := Decoded(parse, items[..|items| - 1]);
      var last := parse(items[|items| - 1]);
      if last.Some? then front + [last.value] else front
  }

  /** The first position of the least score among the first `n`. */
  function Best(messages: seq<Message>, score: Message -> real, n: nat): (b: nat)
    requires 0 < n <= |messages|
    ensures b < n
    ensures forall i :: 0 <= i < n ==> score(messages[b]) <= score(messages[i])
    ensures forall i :: 0 <= i < b ==> score(messages[b]) < score(messages[i])
  {
    if n == 1 then 0
    else
      var b := Best(messages, score, n - 1);
      if score(messages[n - 1]) < score(messages[b]) then n - 1 else b
  }

  function Score(lastRun: LastRun, now: real): Message -> real {
    (m: Message) => Recency(lastRun, now, m.Owner())
  }

  /** A falsy best message is replaced by the first one. */
  function Choice(messages: seq<Message>, score: Message -> real): (m: Message)
    requires messages != []
    ensures m in messages
  {
    var best := messages[Best(messages, score, |messages|)];
    if best.EmptyObject? then messages[0] else best
  }

  predicate HasId(parse: Parser, item: string, id: Option<string>) {
    parse(item).Some? && parse(item).value.JobId() == id
  }

  /** The list without its first item carrying that job id. */
  function Without(parse: Parser, items: seq<string>, id: Option<string>): seq<string> {
    if items == [] then []
    else if HasId(parse, items[0], id) then items[1..]
    else [items[0]] + Without(parse, items[1..], id)
  }

  /** lrem(key, 1, item). */
  function RemoveOne(items: seq<string>, item: string): seq<string> {
    if items == [] then []
    else if items[0] == item then items[1..]
    else [items[0]] + RemoveOne(items[1..], item)
  }

  /** Removing an item by value removes the first one with its id, if there is none before it. */
  lemma {:induction false} RemovesFirstWithId(parse: Parser, items: seq<string>, id: Option<string>, k: nat)
    requires k < |items| && HasId(parse, items[k], id) && forall j :: 0 <= j < k ==> !HasId(parse, items[j], id)
    ensures RemoveOne(items, items[k]) == Without(parse, items, id) == items[..k] + items[k + 1..]
  {
    if k == 0 {
      assert items[..0] + items[1..] == items[1..];
    } else {
      RemovesFirstWithId(parse, items[1..], id, k - 1);
      assert items[1..][k - 1] == items[k];
      assert [items[0]] + (items[1..][..k - 1] + items[1..][k..]) == items[..k] + items[k + 1..];
    }
  }

  lemma {:induction false} NothingToRemove(parse: Parser, items: seq<string>, id: Option<string>)
    requires forall j :: 0 <= j < |items| ==> !HasId(parse, items[j], id)
    ensures Without(parse, items, id) == items
  {
    if items != [] {
      NothingToRemove(parse, items[1..], id);
    }
  }

  lemma {:induction false} DecodedComesFrom(parse: Parser, items: seq<string>, m: Message)
    ensures m in Decoded(parse, items) <==> exists i :: 0 <= i < |items| && parse(items[i]) == Some(m)
  {
    if items != [] {
      var front := items[..|items| - 1];
      DecodedComesFrom(parse, front, m);
      assert forall i :: 0 <= i < |front| ==> front[i] == items[i];
    }
  }

  // ----- the worker -----

  class ScannerWorker {
    const parse: Parser
    var queue: seq<string>
    var lastRun: LastRun

    constructor (parse: Parser, queue: seq<string>, lastRun: LastRun)
      ensures this.parse == parse && this.queue == queue && this.lastRun == lastRun
    {
      this.parse, this.queue, this.lastRun := parse, queue, lastRun;
    }

    method Decode(items: seq<string>) returns (messages: seq<Message>)
      ensures messages == Decoded(parse, items)
    {
      messages := [];
      for i := 0 to |items|
        invariant messages == Decoded(parse, items[..i])
      {
        assert items[..i + 1][..i] == items[..i];
        match parse(items[i])
        case Some(m) => messages := messages + [m];
        case None =>
      }
      assert items[..|items|] == items;
    }

    /** The selection loop; the infinite initial timestamp is None. */
    method Select(messages: seq<Message>, now: real) returns (best: Message)
      requires messages != []
      ensures best == Choice(messages, Score(lastRun, now))
    {
      var found, bestTs: Option<real> := 0, None;
      for i := 0 to |messages|
        invariant bestTs.None? <==> i == 0
        invariant i > 0 ==> found == Best(messages, Score(lastRun, now), i)
        invariant i > 0 ==> bestTs == Some(Score(lastRun, now)(messages[found]))
      {
        var ts := Recency(lastRun, now, messages[i].Owner());
        if bestTs.None? || ts < bestTs.value {
          found, bestTs := i, Some(ts);
        }
      }
      best := if messages[found].EmptyObject? then messages[0] else messages[found];
    }

    /** _get_next_job, round_robin branch. */
    method GetNextJob(now: real) returns (job: Option<Message>)
      modifies this`queue
      ensures (job, queue) == Picked(parse, old(queue), lastRun, now)
    {
      var items := queue;
      var messages := Decode(items);
      if messages == [] {
        return None;
      }
      var best := Select(messages, now);
      RemoveFirst(items, best.JobId());
      return Some(best);
    }

    /** The removal loop over the items read before. */
    method RemoveFirst(items: seq<string>, id: Option<string>)
      requires items == queue
      modifies this`queue
      ensures queue == Without(parse, old(queue), id)
    {
      var k := 0;
      while k < |items| && !HasId(parse, items[k], id)
        invariant k <= |items|
        invariant forall j :: 0 <= j < k ==> !HasId(parse, items[j], id)
      {
        k := k + 1;
      }
      if k < |items| {
        RemovesFirstWithId(parse, items, id, k);
        queue := RemoveOne(queue, items[k]);
      } else {
        NothingToRemove(parse, items, id);
      }
    }

    /** One turn of _process_jobs: pick, execute, stamp. */
    method ProcessJob(picked: real, finished: real) returns (job: Option<Message>)
      modifies this
      ensures (job, queue) == Picked(parse, old(queue), old(lastRun), picked)
      ensures lastRun == if job.Some? then Stamped(old(lastRun), job.value, finished) else old(lastRun)
    {
      job := GetNextJob(picked);
      if job.Some? && !job.value.EmptyObject? {
        if job.value.Identified() {
          lastRun := lastRun[job.value.userId.value := finished];
        }
        if job.value.session.Id? && job.value.session.id != "" && !job.value.Identified() {
          lastRun := lastRun["session:" + job.value.session.id := finished];
        }
      }
    }
  }

  function Picked(parse: Parser, queue: seq<string>, lastRun: LastRun, now: real): (Option<Message>, seq<string>) {
    var messages := Decoded(parse, queue);
    if messages == [] then (None, queue)
    else
      var m := Choice(messages, Score(lastRun, now));
      (Some(m), Without(parse, queue, m.JobId()))
  }

  function Stamped(lastRun: LastRun, m: Message, now: real): LastRun {
    if m.StampKey().Some? then lastRun[m.StampKey().value := now] else lastRun
  }

  // ----- what one pick does -----

  /** No two decodable items carry the same job id. */
  ghost predicate DistinctIds(parse: Parser, queue: seq<string>) {
    forall i, j :: 0 <= i < j < |queue| && parse(queue[i]).Some? ==>
      !HasId(parse, queue[j], parse(queue[i]).value.JobId())
  }

  ghost predicate Queued(parse: Parser, queue: seq<string>, m: Message) {
    exists i :: 0 <= i < |queue| && parse(queue[i]) == Some(m)
  }

  ghost predicate RemovedAt(queue: seq<string>, after: seq<string>, k: nat) {
    k < |queue| && after == queue[..k] + queue[k + 1..]
  }

  /** A pick returns a queued message and removes the first item with its id; with distinct ids
      that is the message itself. */
  lemma PickRemovesOneItem(parse: Parser, queue: seq<string>, lastRun: LastRun, now: real)
    requires Picked(parse, queue, lastRun, now).0.Some?
    ensures
      var (job, after) := Picked(parse, queue, lastRun, now);
      && Queued(parse, queue, job.value)
      && exists k: nat :: RemovedAt(queue, after, k) && HasId(parse, queue[k], job.value.JobId())
                     && (DistinctIds(parse, queue) ==> parse(queue[k]) == job)
  {
    var m := Picked(parse, queue, lastRun, now).0.value;
    DecodedComesFrom(parse, queue, m);
    var i :| 0 <= i < |queue| && parse(queue[i]) == Some(m);
    var k := RemovalTakesTheFirst(parse, queue, m, i);
    assert RemovedAt(queue, Picked(parse, queue, lastRun, now).1, k);
  }

  lemma RemovalTakesTheFirst(parse: Parser, queue: seq<string>, m: Message, i: nat) returns (k: nat)
    requires i < |queue| && parse(queue[i]) == Some(m)
    ensures RemovedAt(queue, Without(parse, queue, m.JobId()), k) && HasId(parse, queue[k], m.JobId())
    ensures DistinctIds(parse, queue) ==> k == i
  {
    k := FirstWithId(parse, queue, m.JobId(), i);
    RemovesFirstWithId(parse, queue, m.JobId(), k);
  }

  lemma {:induction false} FirstWithId(parse: Parser, queue: seq<string>, id: Option<string>, i: nat) returns (k: nat)
    requires i < |queue| && HasId(parse, queue[i], id)
    ensures k <= i && HasId(parse, queue[k], id) && forall j :: 0 <= j < k ==> !HasId(parse, queue[j], id)
  {
    k := 0;
    while !HasId(parse, queue[k], id)
      invariant k <= i && forall j :: 0 <= j < k ==> !HasId(parse, queue[j], id)
      decreases i - k
    {
      k := k + 1;
    }
  }

  /** Without empty objects in the queue the owner served has the oldest last run of all owners
      with a queued job. */
  lemma PickIsLeastRecent(parse: Parser, queue: seq<string>, lastRun: LastRun, now: real, m: Message)
    requires Picked(parse, queue, lastRun, now).0.Some? && !Queued(parse, queue, EmptyObject) && Queued(parse, queue, m)
    ensures
      var job := Picked(parse, queue, lastRun, now).0.value;
      job.Job? && Recency(lastRun, now, job.Owner()) <= Recency(lastRun, now, m.Owner())
  {
    DecodedComesFrom(parse, queue, m);
    DecodedComesFrom(parse, queue, EmptyObject);
    var messages, score := Decoded(parse, queue), Score(lastRun, now);
    var b := Best(messages, score, |messages|);
    var i :| 0 <= i < |messages| && messages[i] == m;
    assert score(messages[b]) <= score(messages[i]);
    assert messages[b] in messages;
  }

  /** New jobs are pushed at the left, so of the jobs of one owner the newest is served first: no
      message further left has the owner of the one that is picked. */
  lemma NewestOfItsOwner(parse: Parser, queue: seq<string>, lastRun: LastRun, now: real)
    requires Picked(parse, queue, lastRun, now).0.Some? && !Queued(parse, queue, EmptyObject)
    ensures
      var messages, job := Decoded(parse, queue), Picked(parse, queue, lastRun, now).0.value;
      exists b :: 0 <= b < |messages| && messages[b] == job
        && forall j :: 0 <= j < b ==> messages[j].Owner() != job.Owner()
  {
    DecodedComesFrom(parse, queue, EmptyObject);
    var messages, score := Decoded(parse, queue), Score(lastRun, now);
    var b := Best(messages, score, |messages|);
    assert messages[b] in messages;
    forall j | 0 <= j < b ensures messages[j].Owner() != messages[b].Owner() {
      assert score(messages[b]) < score(messages[j]);
    }
  }

  // ----- empty objects -----

  function FirstEmpty(messages: seq<Message>): (e: Option<nat>)
    ensures e.Some? ==> e.value < |messages| && messages[e.value].EmptyObject?
    ensures e.Some? ==> forall j :: 0 <= j < e.value ==> messages[j].Job?
    ensures e.None? ==> forall j :: 0 <= j < |messages| ==> messages[j].Job?
  {
    if messages == [] then None
    else if messages[0].EmptyObject? then Some(0)
    else
      match FirstEmpty(messages[1..])
      case Some(e) => Some(e + 1)
      case None => None
  }

  /** Stamps are not negative and no guest has one, as after every run of the worker. */
  ghost predicate GuestsUnstamped(lastRun: LastRun, now: real) {
    Recency(lastRun, now, "guest") == 0.0 && forall k :: k in lastRun ==> 0.0 <= lastRun[k]
  }

  /** Some of the first `n` messages has an owner without a live stamp. */
  ghost predicate UnstampedBefore(messages: seq<Message>, lastRun: LastRun, now: real, n: nat) {
    exists j :: 0 <= j < n && j < |messages| && Recency(lastRun, now, messages[j].Owner()) == 0.0
  }

  /** The first empty object stops the search for the least recent owner: if every owner before it
      has a live stamp, the leftmost message is picked whoever owns it, and otherwise the first one
      without a live stamp. */
  lemma EmptyObjectPick(parse: Parser, queue: seq<string>, lastRun: LastRun, now: real)
    requires GuestsUnstamped(lastRun, now) && FirstEmpty(Decoded(parse, queue)).Some?
    ensures
      var messages, job := Decoded(parse, queue), Picked(parse, queue, lastRun, now).0;
      var e := FirstEmpty(messages).value;
      && job.Some?
      && (UnstampedBefore(messages, lastRun, now, e) ==>
         Recency(lastRun, now, job.value.Owner()) == 0.0 && job.value.Job?)
      && (!UnstampedBefore(messages, lastRun, now, e) ==> job.value == messages[0])
  {
    var messages, score := Decoded(parse, queue), Score(lastRun, now);
    var e, b := FirstEmpty(messages).value, Best(messages, score, |messages|);
    assert score(messages[e]) == 0.0;
    assert score(messages[b]) <= score(messages[e]);
    if UnstampedBefore(messages, lastRun, now, e) {
      var j :| 0 <= j < e && score(messages[j]) == 0.0;
      assert b <= j;
    } else {
      assert b == e;
    }
  }

  /** The pick has the oldest last run of all queued messages. */
  ghost predicate Fair(parse: Parser, queue: seq<string>, lastRun: LastRun, now: real) {
    var job := Picked(parse, queue, lastRun, now).0;
    job.Some? ==> forall m :: m in Decoded(parse, queue) ==>
                                Recency(lastRun, now, job.value.Owner()) <= Recency(lastRun, now, m.Owner())
  }

  /** The strategy is fair exactly if no empty object is queued, or it is the leftmost message, or a
      job of an owner without a live stamp lies before it. */
  lemma FairIff(parse: Parser, queue: seq<string>, lastRun: LastRun, now: real)
    requires GuestsUnstamped(lastRun, now)
    ensures
      var messages := Decoded(parse, queue);
      var e := FirstEmpty(messages);
      Fair(parse, queue, lastRun, now) <==>
      e.None? || e.value == 0 || UnstampedBefore(messages, lastRun, now, e.value)
  {
    var messages, score := Decoded(parse, queue), Score(lastRun, now);
    if messages != [] {
      var e, b := FirstEmpty(messages), Best(messages, score, |messages|);
      forall m | m in messages ensures score(messages[b]) <= score(m) {
        var i :| 0 <= i < |messages| && messages[i] == m;
        assert score(messages[b]) <= score(messages[i]);
      }
      if e.Some? {
        EmptyObjectPick(parse, queue, lastRun, now);
        assert score(messages[e.value]) == 0.0 && messages[e.value] in messages;
        if e.value > 0 && !UnstampedBefore(messages, lastRun, now, e.value) {
          assert score(messages[0]) != 0.0;
        }
      }
    }
  }

  /** In the terms of the messages: the owner of the picked job has no stamp younger than a day, or the oldest one of
      all owners that wait, and every owner that waits has such a stamp. */
  lemma PickIsOldest(parse: Parser, queue: seq<string>, lastRun: LastRun, now: real, m: Message)
    requires Picked(parse, queue, lastRun, now).0.Some? && !Queued(parse, queue, EmptyObject) && Queued(parse, queue, m)
    requires forall k :: k in lastRun ==> 0.0 < lastRun[k]
    ensures
      var owner := Picked(parse, queue, lastRun, now).0.value.Owner();
      StampedWithinDay(lastRun, now, owner) ==>
        StampedWithinDay(lastRun, now, m.Owner()) && lastRun[owner] <= lastRun[m.Owner()]
  {
    PickIsLeastRecent(parse, queue, lastRun, now, m);
    RecencyIs(lastRun, now, Picked(parse, queue, lastRun, now).0.value.Owner());
    RecencyIs(lastRun, now, m.Owner());
  }

  predicate StampedWithinDay(lastRun: LastRun, now: real, key: string) {
    key in lastRun && now - lastRun[key] < 86400.0
  }

  /** After a turn the user, or else the session, of the job has the time of the turn, and nobody else has a new one. */
  lemma StampedIs(lastRun: LastRun, m: Message, now: real, key: string)
    ensures
      var user := m.Job? && m.userId.Some? && m.userId.value != "";
      var session := m.Job? && m.session.Id? && m.session.id != "";
      var own := || (user && key == m.userId.value) || (!user && session && key == "session:" + m.session.id);
      var after := Stamped(lastRun, m, now);
      && (own ==> key in after && after[key] == now)
      && (!own ==> (key in after <==> key in lastRun) && (key in lastRun ==> after[key] == lastRun[key]))
  {
    OwnerIs(m);
  }

  // ----- runs of the worker -----

  /** `busy` is the job between its pick and its stamp. */
  datatype State = State(queue: seq<string>, lastRun: LastRun, busy: Option<Message>, clock: real)

  /** Jobs may be pushed at any time; a pick or a stamp happens at a moment of the clock. */
  datatype Event = Push(item: string) | Pick(now: real) | Stamp(now: real)

  predicate Enabled(s: State, e: Event) {
    match e
    case Push(_) => true
    case Pick(now) => s.busy.None? && s.clock <= now
    case Stamp(now) => s.busy.Some? && s.clock < now
  }

  function Next(parse: Parser, s: State, e: Event): State
    requires Enabled(s, e)
  {
    match e
    case Push(item) => s.(queue := [item] + s.queue)
    case Pick(now) =>
      var (job, queue) := Picked(parse, s.queue, s.lastRun, now);
      s.(queue := queue, busy := if job == Some(EmptyObject) then None else job, clock := now)
    case Stamp(now) => s.(lastRun := Stamped(s.lastRun, s.busy.value, now), busy := None, clock := now)
  }

  /** A turn of the worker is a pick, followed by a stamp if there was a job. */
  lemma TurnIsPickAndStamp(parse: Parser, s: State, picked: real, finished: real)
    requires s.busy.None? && s.clock <= picked < finished
    ensures
      var (job, queue) := Picked(parse, s.queue, s.lastRun, picked);
      var s1 := Next(parse, s, Pick(picked));
      var s2 := if s1.busy.Some? then Next(parse, s1, Stamp(finished)) else s1;
      s2.queue == queue && s2.lastRun == if job.Some? then Stamped(s.lastRun, job.value, finished) else s.lastRun
  {
  }

  /** The run is possible; at every pick a job of `owner` is queued and no empty object is; and it
      stays within the lifetime of the stamps made since `start`. */
  ghost predicate Waiting(parse: Parser, s: State, es: seq<Event>, owner: string, start: real)
    decreases |es|
  {
    es == [] ||
    (&& Enabled(s, es[0])
     && (es[0].Pick? ==>
           OwnerQueued(parse, s.queue, owner) && !Queued(parse, s.queue, EmptyObject) && es[0].now < start + LIFETIME)
     && Waiting(parse, Next(parse, s, es[0]), es[1..], owner, start))
  }

  ghost predicate OwnerQueued(parse: Parser, queue: seq<string>, owner: string) {
    exists m: Message :: Queued(parse, queue, m) && m.Owner() == owner
  }

  /** The jobs picked in a run, in order. */
  ghost function Services(parse: Parser, s: State, es: seq<Event>, owner: string, start: real): seq<Message>
    requires Waiting(parse, s, es, owner, start)
    decreases |es|
  {
    if es == [] then []
    else
      var s' := Next(parse, s, es[0]);
      (if es[0].Pick? && s'.busy.Some? then [s'.busy.value] else []) + Services(parse, s', es[1..], owner, start)
  }

  ghost predicate Unserved(jobs: seq<Message>, owner: string) {
    forall i :: 0 <= i < |jobs| ==> jobs[i].Owner() != owner
  }

  /** Stamps come from the past. */
  ghost predicate PastStamps(s: State) {
    0.0 <= s.clock && forall k :: k in s.lastRun ==> s.lastRun[k] <= s.clock
  }

  /** The key that the job in service will be stamped under. */
  function BusyKey(s: State): set<string> {
    if s.busy.Some? && s.busy.value.StampKey().Some? then {s.busy.value.Owner()} else {}
  }

  /** While `owner` waits with a stamp not after `start`, the other `keys` were stamped after it or
      are about to be. */
  ghost predicate Overtook(s: State, owner: string, start: real, keys: set<string>) {
    && 0.0 <= start <= s.clock
    && (owner in s.lastRun ==> s.lastRun[owner] <= start)
    && (forall k :: k in keys ==> k in BusyKey(s) || (k in s.lastRun && start < s.lastRun[k]))
    && (s.busy.Some? ==> s.busy.value.Owner() != owner)
  }

  /** An owner stamped since `start` is not picked before the waiting one. */
  lemma OvertakersWait(parse: Parser, s: State, now: real, owner: string, start: real, keys: set<string>)
    requires Enabled(s, Pick(now)) && now < start + LIFETIME && Overtook(s, owner, start, keys)
    requires OwnerQueued(parse, s.queue, owner) && !Queued(parse, s.queue, EmptyObject)
    ensures var s' := Next(parse, s, Pick(now)); s'.busy.Some? && s'.busy.value.Owner() !in keys
  {
    var m :| Queued(parse, s.queue, m) && m.Owner() == owner;
    DecodedComesFrom(parse, s.queue, m);
    PickIsLeastRecent(parse, s.queue, s.lastRun, now, m);
    assert Recency(s.lastRun, now, owner) <= start;
  }

  lemma OvertookNext(parse: Parser, s: State, e: Event, owner: string, start: real, keys: set<string>)
    requires Enabled(s, e) && Overtook(s, owner, start, keys)
    requires e.Pick? && Next(parse, s, e).busy.Some? ==> Next(parse, s, e).busy.value.Owner() != owner
    ensures Overtook(Next(parse, s, e), owner, start, keys)
  {
    if s.busy.Some? {
      StampsTheOwner(s.busy.value);
    }
  }

  lemma ServicesStep(parse: Parser, s: State, es: seq<Event>, owner: string, start: real)
    requires es != [] && Waiting(parse, s, es, owner, start)
    ensures
      var s' := Next(parse, s, es[0]);
      && Waiting(parse, s', es[1..], owner, start)
      && var jobs, rest := Services(parse, s, es, owner, start), Services(parse, s', es[1..], owner, start);
      && (es[0].Pick? && s'.busy.Some? ==> jobs == [s'.busy.value] + rest)
      && (!(es[0].Pick? && s'.busy.Some?) ==> jobs == rest)
      && (Unserved(jobs, owner) ==> Unserved(rest, owner))
      && (Unserved(jobs, owner) && es[0].Pick? && s'.busy.Some? ==> s'.busy.value.Owner() != owner)
  {
    var s' := Next(parse, s, es[0]);
    var jobs, rest := Services(parse, s, es, owner, start), Services(parse, s', es[1..], owner, start);
    if es[0].Pick? && s'.busy.Some? {
      assert jobs == [s'.busy.value] + rest;
      assert jobs[0] == s'.busy.value;
      assert forall i :: 0 <= i < |rest| ==> rest[i] == jobs[i + 1];
    }
  }

  /** Until the waiting owner is served, none of `keys` is. */
  lemma {:induction false} OvertakersAreNotServed(parse: Parser, s: State, es: seq<Event>, owner: string, start: real,
      keys: set<string>)
    requires Waiting(parse, s, es, owner, start) && Overtook(s, owner, start, keys)
    requires Unserved(Services(parse, s, es, owner, start), owner)
    ensures var jobs := Services(parse, s, es, owner, start); forall i :: 0 <= i < |jobs| ==> jobs[i].Owner() !in keys
    decreases |es|
  {
    if es != [] {
      ServicesStep(parse, s, es, owner, start);
      if es[0].Pick? {
        OvertakersWait(parse, s, es[0].now, owner, start, keys);
      }
      OvertookNext(parse, s, es[0], owner, start, keys);
      OvertakersAreNotServed(parse, Next(parse, s, es[0]), es[1..], owner, start, keys);
    }
  }

  /** No stamped owner occurs a second time. */
  ghost predicate OvertakeOnce(jobs: seq<Message>) {
    forall i, j :: 0 <= i < j < |jobs| && jobs[i].StampKey().Some? ==> jobs[i].Owner() != jobs[j].Owner()
  }

  lemma OvertakeOnceCons(m: Message, rest: seq<Message>)
    requires OvertakeOnce(rest) && (m.StampKey().Some? ==> forall i :: 0 <= i < |rest| ==> rest[i].Owner() != m.Owner())
    ensures OvertakeOnce([m] + rest)
  {
  }

  /** Until the waiting owner is served, every stamped owner is served at most once. */
  lemma {:induction false} EachOvertakesOnce(parse: Parser, s: State, es: seq<Event>, owner: string, start: real)
    requires Waiting(parse, s, es, owner, start) && Overtook(s, owner, start, {})
    requires Unserved(Services(parse, s, es, owner, start), owner)
    ensures OvertakeOnce(Services(parse, s, es, owner, start))
    decreases |es|
  {
    if es != [] {
      var s' := Next(parse, s, es[0]);
      ServicesStep(parse, s, es, owner, start);
      OvertookNext(parse, s, es[0], owner, start, {});
      EachOvertakesOnce(parse, s', es[1..], owner, start);
      if es[0].Pick? && s'.busy.Some? {
        OvertakersAreNotServed(parse, s', es[1..], owner, start, BusyKey(s'));
        OvertakeOnceCons(s'.busy.value, Services(parse, s', es[1..], owner, start));
      }
    }
  }

  /** Bounded overtaking: between two services of a stamped owner, every other owner that has a job
      queued throughout is served.  The run starts with the first service and ends with the second. */
  lemma BoundedOvertaking(parse: Parser, s: State, es: seq<Event>, owner: string)
    requires s.busy.None? && PastStamps(s) && Waiting(parse, s, es, owner, s.clock)
    requires
      var jobs := Services(parse, s, es, owner, s.clock);
      |jobs| >= 2 && jobs[0].StampKey().Some? && jobs[0].Owner() == jobs[|jobs| - 1].Owner() != owner
    ensures
      var jobs := Services(parse, s, es, owner, s.clock);
      exists k :: 0 < k < |jobs| - 1 && jobs[k].Owner() == owner
  {
    var jobs := Services(parse, s, es, owner, s.clock);
    if Unserved(jobs, owner) {
      EachOvertakesOnce(parse, s, es, owner, s.clock);
    }
    ServedBetween(jobs, owner);
  }

  lemma ServedBetween(jobs: seq<Message>, owner: string)
    requires |jobs| >= 2 && jobs[0].StampKey().Some? && jobs[0].Owner() == jobs[|jobs| - 1].Owner() != owner
    requires Unserved(jobs, owner) ==> OvertakeOnce(jobs)
    ensures exists k :: 0 < k < |jobs| - 1 && jobs[k].Owner() == owner
  {
    if Unserved(jobs, owner) {
      assert false;
    } else {
      var k :| 0 <= k < |jobs| && jobs[k].Owner() == owner;
      assert 0 < k < |jobs| - 1;
    }
  }

  lemma {:induction false} DistinctFit(names: seq<string>, owners: set<string>)
    requires Distinct(names) && forall i :: 0 <= i < |names| ==> names[i] in owners
    ensures |names| <= |owners|
  {
    if names != [] {
      var last, front := names[|names| - 1], names[..|names| - 1];
      assert forall i :: 0 <= i < |front| ==> front[i] == names[i];
      DistinctFit(front, owners - {last});
    }
  }

  /** No starvation among stamped owners: while an owner waits, at most one job of each other owner
      is served. */
  lemma WaitIsBounded(parse: Parser, s: State, es: seq<Event>, owner: string, owners: set<string>)
    requires s.busy.None? && PastStamps(s) && Waiting(parse, s, es, owner, s.clock)
    requires
      var jobs := Services(parse, s, es, owner, s.clock);
      && Unserved(jobs, owner)
      && forall i :: 0 <= i < |jobs| ==> jobs[i].StampKey().Some? && jobs[i].Owner() in owners
    ensures |Services(parse, s, es, owner, s.clock)| <= |owners|
  {
    var jobs := Services(parse, s, es, owner, s.clock);
    EachOvertakesOnce(parse, s, es, owner, s.clock);
    var names := seq(|jobs|, i requires 0 <= i < |jobs| => jobs[i].Owner());
    DistinctFit(names, owners);
  }

  /** A job whose owner has no stamp goes before every owner with a live one; as guests are never
      stamped, an owner that ran today waits until no guest is queued. */
  lemma UnstampedGoFirst(parse: Parser, queue: seq<string>, lastRun: LastRun, now: real, m: Message)
    requires !Queued(parse, queue, EmptyObject) && Queued(parse, queue, m) && m.Owner() !in lastRun
    requires forall k :: k in lastRun ==> 0.0 < lastRun[k]
    ensures
      var job := Picked(parse, queue, lastRun, now).0;
      job.Some? && (job.value.Owner() !in lastRun || lastRun[job.value.Owner()] + LIFETIME <= now)
  {
    DecodedComesFrom(parse, queue, m);
    PickIsLeastRecent(parse, queue, lastRun, now, m);
  }

  // ----- owners without stamps -----

  lemma {:induction false} DecodedCons(parse: Parser, item: string, items: seq<string>)
    ensures Decoded(parse, [item] + items) ==
            (if parse(item).Some? then [parse(item).value] else []) + Decoded(parse, items)
  {
    var all := [item] + items;
    if items == [] {
      assert all[..0] == [];
    } else {
      assert all[..|all| - 1] == [item] + items[..|items| - 1];
      DecodedCons(parse, item, items[..|items| - 1]);
    }
  }

  ghost predicate NoEmptyObject(parse: Parser, queue: seq<string>) {
    forall i :: 0 <= i < |queue| ==> parse(queue[i]) != Some(EmptyObject)
  }

  /** Idle within the lifetime of the stamps, with a job of `owner` queued and no empty object. */
  ghost predicate Idling(parse: Parser, s: State, owner: string, start: real) {
    && s.busy.None? && s.clock < start + LIFETIME && OwnerQueued(parse, s.queue, owner)
    && NoEmptyObject(parse, s.queue) && forall k :: k in s.lastRun ==> 0.0 < s.lastRun[k]
  }

  /** A job that leaves no stamp, of an owner who has none. */
  predicate Traceless(parse: Parser, lastRun: LastRun, item: string) {
    && parse(item).Some? && parse(item).value.Job? && parse(item).value.StampKey().None?
    && parse(item).value.Owner() !in lastRun
  }

  /** The moment between the clock and the end of the stamps' lifetime. */
  function Later(s: State, start: real): State {
    s.(clock := (s.clock + start + LIFETIME) / 2.0)
  }

  /** The job is pushed, picked and finished. */
  function PassBy(item: string, s: State, start: real): seq<Event> {
    [Push(item), Pick(s.clock), Stamp(Later(s, start).clock)]
  }

  lemma TracelessIsPicked(parse: Parser, queue: seq<string>, lastRun: LastRun, now: real, item: string)
    requires Traceless(parse, lastRun, item) && forall k :: k in lastRun ==> 0.0 < lastRun[k]
    ensures Picked(parse, [item] + queue, lastRun, now) == (parse(item), queue)
  {
    DecodedCons(parse, item, queue);
    var messages, score := Decoded(parse, [item] + queue), Score(lastRun, now);
    var b := Best(messages, score, |messages|);
    assert score(messages[0]) == 0.0 <= score(messages[b]);
    assert b == 0;
    assert ([item] + queue)[1..] == queue;
  }

  lemma QueuedLater(parse: Parser, queue: seq<string>, item: string, owner: string)
    requires OwnerQueued(parse, queue, owner)
    ensures OwnerQueued(parse, [item] + queue, owner)
  {
    var m: Message :| Queued(parse, queue, m) && m.Owner() == owner;
    var i :| 0 <= i < |queue| && parse(queue[i]) == Some(m);
    assert ([item] + queue)[i + 1] == queue[i];
    assert Queued(parse, [item] + queue, m);
  }

  /** Serving it changes nothing but the time. */
  lemma PassingByStates(parse: Parser, s: State, item: string, owner: string, start: real)
    requires Idling(parse, s, owner, start) && Traceless(parse, s.lastRun, item)
    ensures
      var e, s1, s2 := PassBy(item, s, start), s.(queue := [item] + s.queue), s.(busy := parse(item));
      && Enabled(s, e[0]) && Next(parse, s, e[0]) == s1
      && Enabled(s1, e[1]) && Next(parse, s1, e[1]) == s2
      && Enabled(s2, e[2]) && Next(parse, s2, e[2]) == Later(s, start)
      && OwnerQueued(parse, s1.queue, owner) && !Queued(parse, s1.queue, EmptyObject)
  {
    QueuedLater(parse, s.queue, item, owner);
    TracelessIsPicked(parse, s.queue, s.lastRun, s.clock, item);
  }

  lemma WaitingCons(parse: Parser, s: State, e: Event, s': State, es: seq<Event>, owner: string, start: real)
    requires Enabled(s, e) && s' == Next(parse, s, e) && Waiting(parse, s', es, owner, start)
    requires e.Pick? ==>
      OwnerQueued(parse, s.queue, owner) && !Queued(parse, s.queue, EmptyObject) && e.now < start + LIFETIME
    ensures Waiting(parse, s, [e] + es, owner, start)
    ensures Services(parse, s, [e] + es, owner, start) ==
            (if e.Pick? && s'.busy.Some? then [s'.busy.value] else []) + Services(parse, s', es, owner, start)
  {
    assert ([e] + es)[1..] == es;
  }

  /** A run in which exactly these jobs are served while `owner` waits. */
  ghost predicate Follows(parse: Parser, s: State, es: seq<Event>, owner: string, start: real, jobs: seq<Message>) {
    Waiting(parse, s, es, owner, start) && Services(parse, s, es, owner, start) == jobs
  }

  lemma PassingBy(parse: Parser, s: State, item: string, owner: string, start: real, rest: seq<Event>,
                  jobs: seq<Message>)
    requires Idling(parse, s, owner, start) && Traceless(parse, s.lastRun, item)
    requires Follows(parse, Later(s, start), rest, owner, start, jobs)
    ensures Follows(parse, s, PassBy(item, s, start) + rest, owner, start, [parse(item).value] + jobs)
  {
    var e, s1, s2 := PassBy(item, s, start), s.(queue := [item] + s.queue), s.(busy := parse(item));
    var r2 := [e[2]] + rest;
    var r1 := [e[1]] + r2;
    assert PassBy(item, s, start) + rest == [e[0]] + r1;
    assert Follows(parse, s2, r2, owner, start, jobs) by {
      PassingByStates(parse, s, item, owner, start);
      WaitingCons(parse, s2, e[2], Later(s, start), rest, owner, start);
    }
    assert Follows(parse, s1, r1, owner, start, [parse(item).value] + jobs) by {
      PassingByStates(parse, s, item, owner, start);
      WaitingCons(parse, s1, e[1], s2, r2, owner, start);
    }
    PassingByStates(parse, s, item, owner, start);
    WaitingCons(parse, s, e[0], s1, r1, owner, start);
  }

  /** Owners without stamps overtake without bound: any number of their jobs, one after the other,
      goes before a job that is queued all the time. */
  lemma {:induction false} UnstampedOvertakeWithoutBound(
    parse: Parser, s: State, items: seq<string>, owner: string, start: real) returns (es: seq<Event>)
    requires Idling(parse, s, owner, start)
    requires forall i :: 0 <= i < |items| ==> Traceless(parse, s.lastRun, items[i])
    ensures Follows(parse, s, es, owner, start, Decoded(parse, items))
    decreases |items|
  {
    if items == [] {
      es := [];
    } else {
      assert Traceless(parse, s.lastRun, items[0]);
      var rest := UnstampedOvertakeWithoutBound(parse, Later(s, start), items[1..], owner, start);
      PassingBy(parse, s, items[0], owner, start, rest, Decoded(parse, items[1..]));
      DecodedCons(parse, items[0], items[1..]);
      assert items == [items[0]] + items[1..];
      es := PassBy(items[0], s, start) + rest;
    }
  }

  function Times(jobs: seq<Message>, m: Message): nat {
    if jobs == [] then 0 else (if jobs[0] == m then 1 else 0) + Times(jobs[1..], m)
  }

  /** While `owner` waits, no run from `s` serves `m` more than `n` times. */
  ghost predicate OvertakesAtMost(parse: Parser, s: State, owner: string, m: Message, n: nat) {
    forall es :: Waiting(parse, s, es, owner, s.clock) && Unserved(Services(parse, s, es, owner, s.clock), owner) ==>
                   Times(Services(parse, s, es, owner, s.clock), m) <= n
  }

  lemma {:induction false} OnceAtMost(jobs: seq<Message>, m: Message)
    requires OvertakeOnce(jobs) && m.StampKey().Some?
    ensures Times(jobs, m) <= 1
    ensures m !in jobs ==> Times(jobs, m) == 0
  {
    if jobs != [] {
      var rest := jobs[1..];
      assert forall i :: 0 <= i < |rest| ==> rest[i] == jobs[i + 1];
      OnceAtMost(rest, m);
      assert jobs[0] == m ==> forall j :: 0 <= j < |rest| ==> rest[j].Owner() != m.Owner();
    }
  }

  lemma {:induction false} TimesOfCopies(parse: Parser, item: string, n: nat)
    requires parse(item).Some?
    ensures Times(Decoded(parse, seq(n, _ => item)), parse(item).value) == n
  {
    var items := seq(n, _ => item);
    if n > 0 {
      var rest := seq(n - 1, _ => item);
      assert items == [item] + rest;
      DecodedCons(parse, item, rest);
      TimesOfCopies(parse, item, n - 1);
      assert Decoded(parse, items)[1..] == Decoded(parse, rest);
    }
  }

  lemma UnstampedExceeds(parse: Parser, s: State, owner: string, item: string, n: nat)
    requires Idling(parse, s, owner, s.clock) && Traceless(parse, s.lastRun, item)
    requires parse(item).value.Owner() != owner
    ensures !OvertakesAtMost(parse, s, owner, parse(item).value, n)
  {
    var items := seq(n + 1, _ => item);
    var es := UnstampedOvertakeWithoutBound(parse, s, items, owner, s.clock);
    forall m | m in Decoded(parse, items) ensures m.Owner() != owner {
      DecodedComesFrom(parse, items, m);
    }
    assert Unserved(Services(parse, s, es, owner, s.clock), owner);
    TimesOfCopies(parse, item, n + 1);
  }

  /** Overtaking is bounded exactly for jobs that leave a stamp, and then by one. */
  lemma OvertakingIsBoundedIff(parse: Parser, s: State, owner: string, item: string, n: nat)
    requires PastStamps(s) && Idling(parse, s, owner, s.clock) && n > 0
    requires
      && parse(item).Some? && parse(item).value.Job?
      && parse(item).value.Owner() != owner && parse(item).value.Owner() !in s.lastRun
    ensures OvertakesAtMost(parse, s, owner, parse(item).value, n) <==> parse(item).value.StampKey().Some?
  {
    var m := parse(item).value;
    if m.StampKey().Some? {
      forall es | Waiting(parse, s, es, owner, s.clock) && Unserved(Services(parse, s, es, owner, s.clock), owner)
        ensures Times(Services(parse, s, es, owner, s.clock), m) <= n
      {
        EachOvertakesOnce(parse, s, es, owner, s.clock);
        OnceAtMost(Services(parse, s, es, owner, s.clock), m);
      }
    } else {
      UnstampedExceeds(parse, s, owner, item, n);
    }
  }

  ghost predicate Possible(parse: Parser, s: State, es: seq<Event>)
    decreases |es|
  {
    es == [] || (Enabled(s, es[0]) && Possible(parse, Next(parse, s, es[0]), es[1..]))
  }

  ghost function Run(parse: Parser, s: State, es: seq<Event>): State
    requires Possible(parse, s, es)
    decreases |es|
  {
    if es == [] then s else Run(parse, Next(parse, s, es[0]), es[1..])
  }

  /** Stamps stay in the past and positive over any run, as the theorems above take them to be. */
  lemma {:induction false} RunsKeepPastStamps(parse: Parser, s: State, es: seq<Event>)
    requires Possible(parse, s, es) && PastStamps(s) && forall k :: k in s.lastRun ==> 0.0 < s.lastRun[k]
    ensures PastStamps(Run(parse, s, es))
    ensures forall k :: k in Run(parse, s, es).lastRun ==> 0.0 < Run(parse, s, es).lastRun[k]
    decreases |es|
  {
    if es != [] {
      RunsKeepPastStamps(parse, Next(parse, s, es[0]), es[1..]);
    }
  }
}
