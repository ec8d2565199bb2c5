/** updateUserMSI and cleanUpAllAssignedIdentitiesOnNode for all hosts at once, as a state machine whose steps
    interleave freely: the main loop of each host, the goroutines it starts, and the semaphores between them. */
module Protocol {
  import opened Text
  import opened Records
  import opened CloudUpdate
  import opened ScaleSets
  import opened Plan
  import opened Safety

  /** A goroutine: a create or update, an Assigned write, an Unassigned write, the deletion that follows it. */
  datatype Task = Write(i: nat) | Mark(i: nat) | Retire(i: nat) | Drop(i: nat)

  /** Where the main function of a host is. Recovering and Pruning are its error path, with the identities found by
      GET. */
  datatype Stage =
    | Writing
    | Calling
    | Marking
    | Deleting
    | Recovering(found: set<string>)
    | Pruning(found: set<string>)
    | Cleaning
    | Stopped

  /** `next` is the loop index, `flight` the running goroutines, `permits` what the semaphore has left, and
      `wrote` the creates and updates that need no write or whose write succeeded. */
  datatype Proc = Proc(track: Track, stage: Stage, next: nat, flight: set<Task>, permits: int, wrote: set<nat>)

  /** createDeleteBatch, the node lookups and the desired records. */
  datatype Config = Config(batch: int, lookup: NodeLookup, desired: AssignedMap)

  datatype World = World(store: AssignedMap, cloud: map<HostKey, set<string>>, procs: map<HostKey, Proc>)

  /** One step of a host; `ok` is whether the request of the step reports success. A write that reports an error may
      still have taken effect: `took` says so, and in the sequential loops only the effect matters. */
  datatype Move =
    | Spawn
    | Finish(task: Task, ok: bool, took: bool)
    | Barrier
    | Call(ok: bool, after: set<string>, listed: bool)
    | Recover(took: bool)
    | Prune(took: bool)
    | Clean(took: bool)

  /** createOrUpdateList. */
  function Jobs(t: Track): seq<AssignedID> {
    t.create + t.update
  }

  function Items(p: Proc): seq<AssignedID> {
    if p.stage.Writing? || p.stage.Marking? || p.stage.Recovering? then Jobs(p.track) else p.track.delete
  }

  predicate IsLoop(s: Stage) {
    s.Writing? || s.Marking? || s.Deleting?
  }

  function TaskFor(s: Stage, i: nat): Task {
    if s.Writing? then Write(i) else if s.Marking? then Mark(i) else Retire(i)
  }

  predicate TaskInRange(t: Track, task: Task) {
    if task.Write? || task.Mark? then task.i < |Jobs(t)| else task.i < |t.delete|
  }

  // ------------------------------------------------------------- the steps

  predicate OnHost(r: AssignedID, ids: set<string>) {
    Lower(r.identity.resourceID) in ids
  }

  predicate InUse(c: Config, r: AssignedID) {
    exists k :: k in c.desired && UsedBy(c.lookup, r, c.desired[k])
  }

  /** Whether the write of job `i` can succeed: creates need the name free, updates need it taken. */
  predicate WriteFits(t: Track, i: nat, store: AssignedMap)
    requires i < |Jobs(t)|
  {
    var r := Jobs(t)[i];
    r.status == NoState ==> (r.name in store <==> i >= |t.create|)
  }

  predicate CanMove(c: Config, p: Proc, ids: set<string>, store: AssignedMap, mv: Move) {
    match mv
    case Spawn => IsLoop(p.stage) && p.next < |Items(p)| && p.permits >= 1
    case Finish(task, ok, took) =>
      && task in p.flight && TaskInRange(p.track, task) && (ok ==> took)
      && (took && task.Write? ==> WriteFits(p.track, task.i, store))
      && (took && task.Mark? ==> Jobs(p.track)[task.i].name in store)
      && (took && task.Retire? ==> p.track.delete[task.i].name in store)
    case Barrier => IsLoop(p.stage) && p.next == |Items(p)| && p.permits >= c.batch
    case Call(ok, after, listed) =>
      p.stage.Calling? && UpdateOutcome(Elements(p.track.add), Elements(p.track.remove), ids, after, ok)
    case Recover(took) =>
      && p.stage.Recovering?
      && (took && p.next < |Jobs(p.track)| ==> Jobs(p.track)[p.next].name in store)
    case Prune(_) => p.stage.Pruning?
    case Clean(_) => p.stage.Cleaning?
  }

  /** A new semaphore and loop. */
  function Enter(c: Config, p: Proc, s: Stage): Proc {
    p.(stage := s, next := 0, permits := c.batch)
  }

  function MoveProc(c: Config, p: Proc, mv: Move): Proc
    requires mv.Finish? ==> TaskInRange(p.track, mv.task)
  {
    match mv
    case Spawn => p.(next := p.next + 1, flight := p.flight + {TaskFor(p.stage, p.next)}, permits := p.permits - 1)
    case Finish(task, ok, _) =>
      if task.Retire? && ok then p.(flight := p.flight - {task} + {Drop(task.i)})
      else
        var q := p.(flight := p.flight - {task}, permits := p.permits + 1);
        if task.Write? && (ok || Jobs(p.track)[task.i].status != NoState) then q.(wrote := p.wrote + {task.i}) else q
    case Barrier =>
      if p.stage.Writing? then p.(stage := Calling, permits := p.permits - c.batch)
      else if p.stage.Marking? then Enter(c, p, Deleting)
      else p.(stage := Stopped)
    case Call(ok, after, listed) =>
      if ok then Enter(c, p, Marking) else p.(stage := if listed then Recovering(after) else Stopped, next := 0)
    case Recover(_) =>
      if p.stage.Recovering? && p.next >= |Jobs(p.track)| then p.(stage := Pruning(p.stage.found), next := 0)
      else p.(next := p.next + 1)
    case Prune(_) =>
      if p.next >= |p.track.delete| then p.(stage := Stopped) else p.(next := p.next + 1)
    case Clean(_) =>
      if p.next >= |p.track.delete| then p.(stage := Stopped) else p.(next := p.next + 1)
  }

  function MoveCloud(ids: set<string>, mv: Move): set<string> {
    if mv.Call? then mv.after else ids
  }

  function SetStatus(store: AssignedMap, n: string, s: Status): AssignedMap {
    if n in store then store[n := store[n].(status := s)] else store
  }

  function MoveStore(c: Config, p: Proc, store: AssignedMap, mv: Move): AssignedMap
    requires mv.Finish? ==> TaskInRange(p.track, mv.task)
  {
    match mv
    case Finish(Write(i), _, true) =>
      var r := Jobs(p.track)[i];
      if r.status == NoState then store[r.name := r.(status := Created)] else store
    case Finish(Mark(i), _, true) => SetStatus(store, Jobs(p.track)[i].name, Assigned)
    case Finish(Retire(i), _, true) => SetStatus(store, p.track.delete[i].name, Unassigned)
    case Finish(Drop(i), _, true) => store - {p.track.delete[i].name}
    case Recover(true) =>
      if p.stage.Recovering? && p.next < |Jobs(p.track)| then
        var r := Jobs(p.track)[p.next];
        if r.IsMSI() && !OnHost(r, p.stage.found) then store else SetStatus(store, r.name, Assigned)
      else store
    case Prune(true) =>
      if p.stage.Pruning? && p.next < |p.track.delete| then
        var r := p.track.delete[p.next];
        if r.IsMSI() && !InUse(c, r) && OnHost(r, p.stage.found) then store else store - {r.name}
      else store
    case Clean(true) =>
      if p.next < |p.track.delete| then store - {p.track.delete[p.next].name} else store
    case _ => store
  }

  ghost predicate Enabled(c: Config, w: World, h: HostKey, mv: Move) {
    h in w.procs && h in w.cloud && CanMove(c, w.procs[h], w.cloud[h], w.store, mv)
  }

  ghost function Step(c: Config, w: World, h: HostKey, mv: Move): World
    requires Enabled(c, w, h, mv)
  {
    World(
      MoveStore(c, w.procs[h], w.store, mv),
      w.cloud[h := MoveCloud(w.cloud[h], mv)],
      w.procs[h := MoveProc(c, w.procs[h], mv)])
  }

  /** The goroutines of a cycle just after they were started. */
  ghost predicate Initial(c: Config, w: World, hosts: map<HostKey, Track>) {
    && w.procs.Keys == hosts.Keys && w.procs.Keys <= w.cloud.Keys
    && forall h :: h in hosts ==>
         w.procs[h] == Proc(hosts[h], if h.Gone? then Cleaning else Writing, 0, {}, c.batch, {})
  }

  datatype Event = Event(host: HostKey, move: Move)

  /** Names a position of a run; mentioning it is what brings the step at that position into a proof. */
  predicate At(i: int) {
    true
  }

  /** A run: the worlds it passes through and the steps between them, in any interleaving. */
  ghost predicate Run(c: Config, ws: seq<World>, es: seq<Event>) {
    && |ws| == |es| + 1
    && forall i {:trigger At(i)} :: 0 <= i < |es| && At(i) ==>
         Enabled(c, ws[i], es[i].host, es[i].move) && ws[i + 1] == Step(c, ws[i], es[i].host, es[i].move)
  }

  // -------------------------------------------------- semaphores and barriers

  /** Goroutines in flight belong to the current loop, were started by it, and each holds one permit. */
  ghost predicate Disciplined(c: Config, p: Proc) {
    && (IsLoop(p.stage) ==> p.permits + |p.flight| == c.batch && p.permits >= 0 && p.next <= |Items(p)|)
    && (!IsLoop(p.stage) ==> p.flight == {})
    && (p.stage.Recovering? ==> p.next <= |Jobs(p.track)|)
    && (p.stage.Pruning? || p.stage.Cleaning? ==> p.next <= |p.track.delete|)
    && (forall t :: t in p.flight ==> t.i < p.next && TaskInRange(p.track, t) && BelongsTo(t, p.stage))
    && (forall t :: t in p.flight && t.Drop? ==> Retire(t.i) !in p.flight)
  }

  predicate BelongsTo(t: Task, s: Stage) {
    match t
    case Write(_) => s.Writing?
    case Mark(_) => s.Marking?
    case Retire(_) => s.Deleting?
    case Drop(_) => s.Deleting?
  }

  lemma SpawnDisciplined(c: Config, p: Proc)
    requires Disciplined(c, p) && IsLoop(p.stage) && p.next < |Items(p)| && p.permits >= 1
    ensures Disciplined(c, MoveProc(c, p, Spawn))
  {
    var t := TaskFor(p.stage, p.next);
    assert t !in p.flight;
    assert |p.flight + {t}| == |p.flight| + 1;
  }

  lemma FinishDisciplined(c: Config, p: Proc, task: Task, ok: bool, took: bool)
    requires Disciplined(c, p) && task in p.flight
    ensures TaskInRange(p.track, task) && Disciplined(c, MoveProc(c, p, Finish(task, ok, took)))
  {
    var left := p.flight - {task};
    assert |left| == |p.flight| - 1;
    if task.Retire? && ok {
      assert Drop(task.i) !in left;
      assert |left + {Drop(task.i)}| == |left| + 1;
    }
  }

  /** Acquiring the whole semaphore means that no goroutine of the loop is left. */
  lemma BarrierDisciplined(c: Config, p: Proc)
    requires c.batch >= 0 && Disciplined(c, p) && IsLoop(p.stage) && p.next == |Items(p)| && p.permits >= c.batch
    ensures p.flight == {} && Disciplined(c, MoveProc(c, p, Barrier))
  {
    assert |p.flight| == 0;
  }

  lemma MoveDisciplined(c: Config, p: Proc, ids: set<string>, store: AssignedMap, mv: Move)
    requires c.batch >= 0 && Disciplined(c, p) && CanMove(c, p, ids, store, mv)
    ensures Disciplined(c, MoveProc(c, p, mv)) && MoveProc(c, p, mv).track == p.track
  {
    match mv {
      case Spawn => SpawnDisciplined(c, p);
      case Finish(task, ok, took) => FinishDisciplined(c, p, task, ok, took);
      case Barrier => BarrierDisciplined(c, p);
      case _ =>
    }
  }

  // ---------------------------------------------------------- whole runs

  ghost predicate Tracks(w: World, hosts: map<HostKey, Track>) {
    && w.procs.Keys == hosts.Keys && w.procs.Keys <= w.cloud.Keys
    && forall h :: h in hosts ==> w.procs[h].track == hosts[h]
  }

  ghost predicate AllDisciplined(c: Config, w: World) {
    forall h :: h in w.procs ==> Disciplined(c, w.procs[h])
  }

  lemma StepDisciplined(c: Config, hosts: map<HostKey, Track>, w: World, g: HostKey, mv: Move)
    requires c.batch >= 0 && Tracks(w, hosts) && AllDisciplined(c, w) && Enabled(c, w, g, mv)
    ensures Tracks(Step(c, w, g, mv), hosts) && AllDisciplined(c, Step(c, w, g, mv))
  {
    MoveDisciplined(c, w.procs[g], w.cloud[g], w.store, mv);
  }

  /** At every point of every run, every host keeps its track list and its semaphore discipline. */
  lemma {:induction false} RunDisciplined(c: Config, hosts: map<HostKey, Track>, ws: seq<World>, es: seq<Event>, i: nat)
    requires c.batch >= 0 && Run(c, ws, es) && Initial(c, ws[0], hosts) && i < |ws|
    ensures Tracks(ws[i], hosts) && AllDisciplined(c, ws[i])
  {
    if i > 0 {
      RunDisciplined(c, hosts, ws, es, i - 1);
      assert At(i - 1);
      StepDisciplined(c, hosts, ws[i - 1], es[i - 1].host, es[i - 1].move);
    }
  }

  /** Step `i` of a run, as host `h` sees it. */
  lemma StepAt(c: Config, hosts: map<HostKey, Track>, ws: seq<World>, es: seq<Event>, i: nat, h: HostKey)
    requires c.batch >= 0 && Run(c, ws, es) && Initial(c, ws[0], hosts) && i < |es| && h in hosts
    ensures Tracks(ws[i], hosts) && Tracks(ws[i + 1], hosts) && Disciplined(c, ws[i].procs[h])
    ensures es[i].host != h ==> ws[i + 1].procs[h] == ws[i].procs[h]
    ensures es[i].host == h ==>
      && CanMove(c, ws[i].procs[h], ws[i].cloud[h], ws[i].store, es[i].move)
      && ws[i + 1].procs[h] == MoveProc(c, ws[i].procs[h], es[i].move)
  {
    RunDisciplined(c, hosts, ws, es, i);
    RunDisciplined(c, hosts, ws, es, i + 1);
    assert At(i);
    assert Enabled(c, ws[i], es[i].host, es[i].move) && ws[i + 1] == Step(c, ws[i], es[i].host, es[i].move);
  }

  /** At most createDeleteBatch requests of a host are ever in flight. */
  lemma InFlightBounded(c: Config, hosts: map<HostKey, Track>, ws: seq<World>, es: seq<Event>, i: nat, h: HostKey)
    requires c.batch >= 0 && Run(c, ws, es) && Initial(c, ws[0], hosts) && i < |ws| && h in hosts
    ensures h in ws[i].procs && |ws[i].procs[h].flight| <= c.batch
  {
    RunDisciplined(c, hosts, ws, es, i);
    assert Disciplined(c, ws[i].procs[h]);
  }

  function StageRank(s: Stage): nat {
    match s
    case Writing => 0
    case Calling => 1
    case Marking => 2
    case Recovering(_) => 2
    case Deleting => 3
    case Pruning(_) => 3
    case Cleaning => 3
    case Stopped => 4
  }

  /** Moves that call the API server or Azure. */
  predicate IsRequest(mv: Move) {
    !mv.Spawn? && !mv.Barrier?
  }

  /** Creates and updates, then the cloud call, then Assigned writes, then Unassigned writes and deletes. */
  function RequestRank(mv: Move): nat {
    match mv
    case Finish(Write(_), _, _) => 0
    case Call(_, _, _) => 1
    case Finish(Mark(_), _, _) => 2
    case Recover(_) => 2
    case _ => 3
  }

  lemma MoveRank(c: Config, p: Proc, ids: set<string>, store: AssignedMap, mv: Move)
    requires Disciplined(c, p) && CanMove(c, p, ids, store, mv)
    ensures StageRank(p.stage) <= StageRank(MoveProc(c, p, mv).stage)
    ensures IsRequest(mv) ==> RequestRank(mv) == StageRank(p.stage)
  {
  }

  lemma {:induction false} StagesAdvance(c: Config, hosts: map<HostKey, Track>, ws: seq<World>, es: seq<Event>, i: nat,
                                         j: nat, h: HostKey)
    requires c.batch >= 0 && Run(c, ws, es) && Initial(c, ws[0], hosts) && i <= j < |ws| && h in hosts
    ensures h in ws[i].procs && h in ws[j].procs
    ensures StageRank(ws[i].procs[h].stage) <= StageRank(ws[j].procs[h].stage)
    decreases j - i
  {
    if i < j {
      StagesAdvance(c, hosts, ws, es, i, j - 1, h);
      StepAt(c, hosts, ws, es, j - 1, h);
      if es[j - 1].host == h {
        MoveRank(c, ws[j - 1].procs[h], ws[j - 1].cloud[h], ws[j - 1].store, es[j - 1].move);
      }
    } else {
      RunDisciplined(c, hosts, ws, es, i);
    }
  }

  /** In every interleaving, the requests of a host come in the order of their phases. */
  lemma PhasesInOrder(c: Config, hosts: map<HostKey, Track>, ws: seq<World>, es: seq<Event>, i: nat, j: nat)
    requires c.batch >= 0 && Run(c, ws, es) && Initial(c, ws[0], hosts) && i < j < |es|
    requires es[i].host == es[j].host && IsRequest(es[i].move) && IsRequest(es[j].move)
    ensures RequestRank(es[i].move) <= RequestRank(es[j].move)
  {
    var h := es[i].host;
    assert h in hosts by {
      RunDisciplined(c, hosts, ws, es, i);
      assert At(i);
    }
    StepAt(c, hosts, ws, es, i, h);
    StepAt(c, hosts, ws, es, j, h);
    StagesAdvance(c, hosts, ws, es, i, j, h);
    MoveRank(c, ws[i].procs[h], ws[i].cloud[h], ws[i].store, es[i].move);
    MoveRank(c, ws[j].procs[h], ws[j].cloud[h], ws[j].store, es[j].move);
  }

  /** How many create and update goroutines (or Assigned goroutines) of `h` have finished. */
  ghost function CountFinished(es: seq<Event>, h: HostKey, marks: bool): nat {
    if es == [] then 0
    else
      var e := es[|es| - 1];
      CountFinished(es[..|es| - 1], h, marks) + (if e.host == h then Counts(e.move, marks) else 0)
  }

  function Counts(mv: Move, marks: bool): nat {
    if mv.Finish? && (if marks then mv.task.Mark? else mv.task.Write?) then 1 else 0
  }

  lemma CountNext(es: seq<Event>, i: nat, h: HostKey, marks: bool)
    requires i < |es|
    ensures CountFinished(es[..i + 1], h, marks)
         == CountFinished(es[..i], h, marks) + (if es[i].host == h then Counts(es[i].move, marks) else 0)
  {
    assert es[..i + 1][..i] == es[..i];
  }

  /** What the counters are before and on the success path. */
  function Expected(p: Proc, marks: bool): int {
    match p.stage
    case Writing => if marks then 0 else p.next - |p.flight|
    case Calling => if marks then 0 else |Jobs(p.track)|
    case Marking => if marks then p.next - |p.flight| else |Jobs(p.track)|
    case _ => |Jobs(p.track)|
  }

  predicate OnSuccessPath(s: Stage) {
    s.Writing? || s.Calling? || s.Marking? || s.Deleting?
  }

  lemma MoveCounted(c: Config, p: Proc, ids: set<string>, store: AssignedMap, mv: Move, marks: bool)
    requires c.batch >= 0 && Disciplined(c, p) && CanMove(c, p, ids, store, mv)
    requires OnSuccessPath(MoveProc(c, p, mv).stage)
    ensures OnSuccessPath(p.stage) && Expected(MoveProc(c, p, mv), marks) == Expected(p, marks) + Counts(mv, marks)
  {
    match mv {
      case Spawn =>
        var t := TaskFor(p.stage, p.next);
        assert t !in p.flight;
        assert |p.flight + {t}| == |p.flight| + 1;
      case Finish(task, _, _) =>
        assert |p.flight - {task}| == |p.flight| - 1;
      case Barrier => BarrierDisciplined(c, p);
      case _ =>
    }
  }

  ghost predicate CountsAgree(p: Proc, count: int, marks: bool) {
    OnSuccessPath(p.stage) ==> count == Expected(p, marks)
  }

  lemma CountsAgreeNext(c: Config, p: Proc, ids: set<string>, store: AssignedMap, mv: Move, count: int, marks: bool)
    requires c.batch >= 0 && Disciplined(c, p) && CanMove(c, p, ids, store, mv) && CountsAgree(p, count, marks)
    ensures CountsAgree(MoveProc(c, p, mv), count + Counts(mv, marks), marks)
  {
    if OnSuccessPath(MoveProc(c, p, mv).stage) {
      MoveCounted(c, p, ids, store, mv, marks);
    }
  }

  lemma CountedNext(c: Config, hosts: map<HostKey, Track>, ws: seq<World>, es: seq<Event>, i: nat, h: HostKey,
                    marks: bool)
    requires c.batch >= 0 && Run(c, ws, es) && Initial(c, ws[0], hosts) && i < |es| && h in hosts && h in ws[i].procs
    requires CountsAgree(ws[i].procs[h], CountFinished(es[..i], h, marks), marks)
    ensures h in ws[i + 1].procs && CountsAgree(ws[i + 1].procs[h], CountFinished(es[..i + 1], h, marks), marks)
  {
    StepAt(c, hosts, ws, es, i, h);
    CountNext(es, i, h, marks);
    if es[i].host == h {
      CountsAgreeNext(c, ws[i].procs[h], ws[i].cloud[h], ws[i].store, es[i].move, CountFinished(es[..i], h, marks),
                      marks);
    }
  }

  lemma {:induction false} RunCounted(c: Config, hosts: map<HostKey, Track>, ws: seq<World>, es: seq<Event>, i: nat,
                                      h: HostKey, marks: bool)
    requires c.batch >= 0 && Run(c, ws, es) && Initial(c, ws[0], hosts) && i < |ws| && h in hosts
    ensures h in ws[i].procs && CountsAgree(ws[i].procs[h], CountFinished(es[..i], h, marks), marks)
  {
    if i > 0 {
      RunCounted(c, hosts, ws, es, i - 1, h, marks);
      CountedNext(c, hosts, ws, es, i - 1, h, marks);
    }
  }

  /** When the cloud is called every create and update has finished, and when the first record is about to be marked
      Unassigned on the success path, so before any is marked or deleted, every Assigned write has. */
  lemma BarriersHold(c: Config, hosts: map<HostKey, Track>, ws: seq<World>, es: seq<Event>, i: nat)
    requires c.batch >= 0 && Run(c, ws, es) && Initial(c, ws[0], hosts) && i < |es|
    requires es[i].host in hosts && es[i].host in ws[i].procs
    ensures es[i].move.Call? ==> CountFinished(es[..i], es[i].host, false) == |Jobs(hosts[es[i].host])|
    ensures es[i].move.Spawn? && ws[i].procs[es[i].host].stage.Deleting? ==>
              CountFinished(es[..i], es[i].host, true) == |Jobs(hosts[es[i].host])|
    ensures es[i].move.Finish? && (es[i].move.task.Retire? || es[i].move.task.Drop?) ==>
              CountFinished(es[..i], es[i].host, true) == |Jobs(hosts[es[i].host])|
  {
    StepAt(c, hosts, ws, es, i, es[i].host);
    RunCounted(c, hosts, ws, es, i, es[i].host, false);
    RunCounted(c, hosts, ws, es, i, es[i].host, true);
  }

  // ------------------------------------------------------- who writes what

  /** The record a move may write or delete. */
  function Target(p: Proc, mv: Move): Option<string>
    requires mv.Finish? ==> TaskInRange(p.track, mv.task)
  {
    match mv
    case Finish(task, _, _) =>
      Some(if task.Write? || task.Mark? then Jobs(p.track)[task.i].name else p.track.delete[task.i].name)
    case Recover(_) => if p.next < |Jobs(p.track)| then Some(Jobs(p.track)[p.next].name) else None
    case Prune(_) => if p.next < |p.track.delete| then Some(p.track.delete[p.next].name) else None
    case Clean(_) => if p.next < |p.track.delete| then Some(p.track.delete[p.next].name) else None
    case _ => None
  }

  /** Two stores agree on record `n`. */
  predicate SameAt(a: AssignedMap, b: AssignedMap, n: string) {
    (n in a <==> n in b) && (n in a ==> a[n] == b[n])
  }

  lemma OnlyTargetChanges(c: Config, p: Proc, store: AssignedMap, mv: Move, n: string)
    requires mv.Finish? ==> TaskInRange(p.track, mv.task)
    requires Target(p, mv) != Some(n)
    ensures SameAt(store, MoveStore(c, p, store, mv), n)
  {
  }

  ghost predicate IsJob(hosts: map<HostKey, Track>, h: HostKey, i: nat, n: string) {
    h in hosts && i < |Jobs(hosts[h])| && Jobs(hosts[h])[i].name == n
  }

  ghost predicate IsDeletion(hosts: map<HostKey, Track>, h: HostKey, i: nat, n: string) {
    h in hosts && i < |hosts[h].delete| && hosts[h].delete[i].name == n
  }

  /** Every record is worked on by one job or deletion of one host. */
  ghost predicate NamesOwned(hosts: map<HostKey, Track>) {
    && (forall h, g, i: nat, j: nat, n :: IsJob(hosts, h, i, n) && IsJob(hosts, g, j, n) ==> h == g && i == j)
    && (forall h, g, i: nat, j: nat, n :: IsDeletion(hosts, h, i, n) && IsDeletion(hosts, g, j, n) ==> h == g && i == j)
    && (forall h, g, i: nat, j: nat, n :: IsJob(hosts, h, i, n) ==> !IsDeletion(hosts, g, j, n))
  }

  predicate WorksOnJob(mv: Move) {
    mv.Recover? || (mv.Finish? && (mv.task.Write? || mv.task.Mark?))
  }

  function TargetIndex(p: Proc, mv: Move): nat {
    if mv.Finish? then mv.task.i else p.next
  }

  lemma TargetIsOwned(hosts: map<HostKey, Track>, p: Proc, g: HostKey, mv: Move, n: string)
    requires g in hosts && p.track == hosts[g] && (mv.Finish? ==> TaskInRange(p.track, mv.task))
    requires Target(p, mv) == Some(n)
    ensures WorksOnJob(mv) ==> IsJob(hosts, g, TargetIndex(p, mv), n)
    ensures !WorksOnJob(mv) ==> IsDeletion(hosts, g, TargetIndex(p, mv), n)
  {
  }

  /** What job `i` of host `h` works on is touched by no other host, and by this one only in moves about job `i`. */
  lemma TargetOwner(c: Config, hosts: map<HostKey, Track>, p: Proc, g: HostKey, mv: Move, h: HostKey, i: nat)
    requires NamesOwned(hosts) && g in hosts && p.track == hosts[g] && h in hosts && i < |Jobs(hosts[h])|
    requires mv.Finish? ==> TaskInRange(p.track, mv.task)
    requires Target(p, mv) == Some(Jobs(hosts[h])[i].name)
    ensures g == h
    ensures (mv.Finish? && (mv.task == Write(i) || mv.task == Mark(i))) || (mv.Recover? && p.next == i)
  {
    assert IsJob(hosts, h, i, Jobs(hosts[h])[i].name);
    TargetIsOwned(hosts, p, g, mv, Jobs(hosts[h])[i].name);
  }

  // ------------------------------------------------------ marking soundness

  /** What planning guarantees about a track list: jobs are new or unfinished, and the identities of MSI jobs are to be
      added. */
  ghost predicate TrackSound(t: Track) {
    && (forall r :: r in Jobs(t) ==> r.status == NoState || r.status == Created)
    && (forall r :: r in Jobs(t) && r.IsMSI() ==> r.identity.resourceID in t.add)
  }

  /** The identities to add. */
  function Added(t: Track): set<string> {
    Fold(Elements(t.add))
  }

  /** The identity of the record is not to be removed under another spelling. */
  predicate Undisputed(t: Track, r: AssignedID) {
    Lower(r.identity.resourceID) !in Doomed(t)
  }

  ghost predicate AllOn(t: Track, ids: set<string>) {
    forall r :: r in Jobs(t) && r.IsMSI() && Undisputed(t, r) ==> OnHost(r, ids)
  }

  /** After a successful cloud call every undisputed identity of a job is on the host and every doomed one off it; on
      the error path the list of identities found is accurate. */
  ghost predicate StageSound(p: Proc, ids: set<string>) {
    && (p.stage.Marking? || p.stage.Deleting? ==> AllOn(p.track, ids) && Doomed(p.track) - Added(p.track) !! ids)
    && (p.stage.Recovering? || p.stage.Pruning? ==> p.stage.found == ids)
  }

  /** The job needs no write, or its own write succeeded. */
  predicate Written(p: Proc, i: nat)
    requires i < |Jobs(p.track)|
  {
    i in p.wrote || Jobs(p.track)[i].status == Created
  }

  /** The store holds the job's record; it is Assigned only if its identity, unless disputed, is on the host. */
  predicate RecordSound(t: Track, s: Stage, ids: set<string>, store: AssignedMap, r: AssignedID) {
    && r.name in store && store[r.name] == r.(status := store[r.name].status)
    && (store[r.name].status == Created || (store[r.name].status == Assigned && StageRank(s) >= 2))
    && (store[r.name].status == Assigned && r.IsMSI() && Undisputed(t, r) ==> OnHost(r, ids))
  }

  lemma CallSettles(t: Track, before: set<string>, after: set<string>)
    requires TrackSound(t) && UpdateOutcome(Elements(t.add), Elements(t.remove), before, after, true)
    ensures AllOn(t, after) && Doomed(t) - Added(t) !! after
  {
    forall r | r in Jobs(t) && r.IsMSI() && Undisputed(t, r)
      ensures OnHost(r, after)
    {
      assert r.identity.resourceID in Elements(t.add);
    }
  }

  lemma MoveStageSound(c: Config, p: Proc, ids: set<string>, store: AssignedMap, mv: Move)
    requires StageSound(p, ids) && TrackSound(p.track) && CanMove(c, p, ids, store, mv)
    ensures StageSound(MoveProc(c, p, mv), MoveCloud(ids, mv))
  {
    if mv.Call? && mv.ok {
      CallSettles(p.track, ids, mv.after);
    }
  }

  /** A move that does not work on job `i` leaves its record sound. */
  lemma OtherMoveKeepsRecord(c: Config, p: Proc, ids: set<string>, store: AssignedMap, store': AssignedMap, mv: Move,
                             r: AssignedID)
    requires Disciplined(c, p) && CanMove(c, p, ids, store, mv)
    requires RecordSound(p.track, p.stage, ids, store, r) && SameAt(store, store', r.name)
    ensures RecordSound(p.track, MoveProc(c, p, mv).stage, MoveCloud(ids, mv), store', r)
  {
    MoveRank(c, p, ids, store, mv);
  }

  /** The moves that work on job `i`. */
  lemma JobMoveKeepsRecord(c: Config, p: Proc, ids: set<string>, store: AssignedMap, mv: Move, i: nat)
    requires Disciplined(c, p) && CanMove(c, p, ids, store, mv) && StageSound(p, ids) && TrackSound(p.track)
    requires i < |Jobs(p.track)|
    requires (mv.Finish? && (mv.task == Write(i) || mv.task == Mark(i))) || (mv.Recover? && p.next == i)
    requires Written(p, i) ==> RecordSound(p.track, p.stage, ids, store, Jobs(p.track)[i])
    ensures var q := MoveProc(c, p, mv);
      Written(q, i) ==> RecordSound(p.track, q.stage, MoveCloud(ids, mv), MoveStore(c, p, store, mv), Jobs(p.track)[i])
  {
    var r := Jobs(p.track)[i];
    assert r in Jobs(p.track);
    MoveRank(c, p, ids, store, mv);
  }

  /** What a cycle starts from: sound track lists, and unfinished records as they are stored. */
  ghost predicate Prepared(hosts: map<HostKey, Track>, store: AssignedMap) {
    && NamesOwned(hosts)
    && (forall h :: h in hosts ==> TrackSound(hosts[h]))
    && (forall h, i: nat, n :: IsJob(hosts, h, i, n) && Jobs(hosts[h])[i].status == Created
          ==> n in store && store[n] == Jobs(hosts[h])[i])
  }

  lemma StepKeepsStageSound(c: Config, hosts: map<HostKey, Track>, w: World, g: HostKey, mv: Move, h: HostKey)
    requires Tracks(w, hosts) && h in hosts && TrackSound(hosts[h])
    requires Enabled(c, w, g, mv) && StageSound(w.procs[h], w.cloud[h])
    ensures var w' := Step(c, w, g, mv); h in w'.procs && h in w'.cloud && StageSound(w'.procs[h], w'.cloud[h])
  {
    if g == h {
      MoveStageSound(c, w.procs[h], w.cloud[h], w.store, mv);
    }
  }

  lemma {:induction false} RunStageSound(c: Config, hosts: map<HostKey, Track>, ws: seq<World>, es: seq<Event>, i: nat,
                                         h: HostKey)
    requires c.batch >= 0 && Run(c, ws, es) && Initial(c, ws[0], hosts) && i < |ws| && h in hosts
    requires TrackSound(hosts[h])
    ensures h in ws[i].procs && h in ws[i].cloud && StageSound(ws[i].procs[h], ws[i].cloud[h])
  {
    if i > 0 {
      RunStageSound(c, hosts, ws, es, i - 1, h);
      RunDisciplined(c, hosts, ws, es, i - 1);
      assert At(i - 1);
      StepKeepsStageSound(c, hosts, ws[i - 1], es[i - 1].host, es[i - 1].move, h);
    }
  }

  /** The record of job `j` of host `h` in world `w`. */
  ghost predicate JobSound(hosts: map<HostKey, Track>, w: World, h: HostKey, j: nat)
    requires Tracks(w, hosts) && h in hosts && j < |Jobs(hosts[h])|
  {
    Written(w.procs[h], j) ==> RecordSound(hosts[h], w.procs[h].stage, w.cloud[h], w.store, Jobs(hosts[h])[j])
  }

  lemma OtherMoveKeepsJobSound(c: Config, hosts: map<HostKey, Track>, w: World, g: HostKey, mv: Move, h: HostKey,
                               j: nat)
    requires Tracks(w, hosts) && h in hosts && j < |Jobs(hosts[h])| && g in hosts && Enabled(c, w, g, mv)
    requires Disciplined(c, w.procs[h]) && Target(w.procs[g], mv) != Some(Jobs(hosts[h])[j].name)
    requires Tracks(Step(c, w, g, mv), hosts) && JobSound(hosts, w, h, j)
    ensures JobSound(hosts, Step(c, w, g, mv), h, j)
  {
    var p, r := w.procs[g], Jobs(hosts[h])[j];
    var store' := MoveStore(c, p, w.store, mv);
    OnlyTargetChanges(c, p, w.store, mv, r.name);
    if g == h && Written(MoveProc(c, p, mv), j) {
      assert Written(p, j);
      OtherMoveKeepsRecord(c, p, w.cloud[h], w.store, store', mv, r);
    }
  }

  lemma StepKeepsJobSound(c: Config, hosts: map<HostKey, Track>, w: World, g: HostKey, mv: Move, h: HostKey, j: nat)
    requires Tracks(w, hosts) && NamesOwned(hosts) && h in hosts && j < |Jobs(hosts[h])| && TrackSound(hosts[h])
    requires g in hosts && Enabled(c, w, g, mv) && Disciplined(c, w.procs[h]) && StageSound(w.procs[h], w.cloud[h])
    requires Tracks(Step(c, w, g, mv), hosts) && JobSound(hosts, w, h, j)
    ensures JobSound(hosts, Step(c, w, g, mv), h, j)
  {
    var p, r := w.procs[g], Jobs(hosts[h])[j];
    if Target(p, mv) == Some(r.name) {
      TargetOwner(c, hosts, p, g, mv, h, j);
      JobMoveKeepsRecord(c, p, w.cloud[h], w.store, mv, j);
    } else {
      OtherMoveKeepsJobSound(c, hosts, w, g, mv, h, j);
    }
  }

  ghost predicate JobSoundIn(hosts: map<HostKey, Track>, w: World, h: HostKey, j: nat) {
    Tracks(w, hosts) && h in hosts && j < |Jobs(hosts[h])| && JobSound(hosts, w, h, j)
  }

  lemma JobSoundAtStart(c: Config, hosts: map<HostKey, Track>, w: World, h: HostKey, j: nat)
    requires Initial(c, w, hosts) && Prepared(hosts, w.store) && h in hosts && j < |Jobs(hosts[h])|
    ensures JobSoundIn(hosts, w, h, j)
  {
    assert IsJob(hosts, h, j, Jobs(hosts[h])[j].name);
  }

  lemma JobSoundNext(c: Config, hosts: map<HostKey, Track>, ws: seq<World>, es: seq<Event>, i: nat, h: HostKey, j: nat)
    requires c.batch >= 0 && Run(c, ws, es) && Initial(c, ws[0], hosts) && NamesOwned(hosts)
    requires i < |es| && JobSoundIn(hosts, ws[i], h, j) && TrackSound(hosts[h])
    ensures JobSoundIn(hosts, ws[i + 1], h, j)
  {
    RunStageSound(c, hosts, ws, es, i, h);
    RunDisciplined(c, hosts, ws, es, i);
    RunDisciplined(c, hosts, ws, es, i + 1);
    assert At(i);
    StepKeepsJobSound(c, hosts, ws[i], es[i].host, es[i].move, h, j);
  }

  lemma {:induction false} RunJobSound(c: Config, hosts: map<HostKey, Track>, ws: seq<World>, es: seq<Event>, i: nat,
                                       h: HostKey, j: nat)
    requires c.batch >= 0 && Run(c, ws, es) && Initial(c, ws[0], hosts) && NamesOwned(hosts)
    requires i < |ws| && JobSoundIn(hosts, ws[0], h, j) && TrackSound(hosts[h])
    ensures JobSoundIn(hosts, ws[i], h, j)
  {
    if i > 0 {
      RunJobSound(c, hosts, ws, es, i - 1, h, j);
      JobSoundNext(c, hosts, ws, es, i - 1, h, j);
    }
  }

  /** Marking soundness: at every point of every run, whatever fails, a record that this cycle wrote and that is
      marked Assigned is the one that was to be written, and its identity, unless disputed, is on its host. */
  lemma MarkedIsAssigned(c: Config, hosts: map<HostKey, Track>, ws: seq<World>, es: seq<Event>, i: nat, h: HostKey,
                         j: nat)
    requires c.batch >= 0 && Run(c, ws, es) && Initial(c, ws[0], hosts) && Prepared(hosts, ws[0].store)
    requires i < |ws| && h in hosts && j < |Jobs(hosts[h])| && h in ws[i].procs && h in ws[i].cloud
    requires ws[i].procs[h].track == hosts[h] && Written(ws[i].procs[h], j)
    ensures var r := Jobs(hosts[h])[j];
      && r.name in ws[i].store && ws[i].store[r.name] == r.(status := ws[i].store[r.name].status)
      && (ws[i].store[r.name].status == Assigned && r.IsMSI() && Undisputed(hosts[h], r) ==> OnHost(r, ws[i].cloud[h]))
  {
    JobSoundAtStart(c, hosts, ws[0], h, j);
    RunJobSound(c, hosts, ws, es, i, h, j);
  }

  /** Record `j` of the delete list leaves the store in this step. */
  ghost predicate Deletes(p: Proc, mv: Move, j: nat) {
    (mv.Finish? && mv.task == Drop(j)) || (mv.Prune? && p.next == j)
  }

  /** On either path a record to be deleted goes only when its identity is off the host, unless it is still in use or
      was not to be removed or was to be added: on the success path the doomed identities are gone, and on the error
      path the identity of a deleted record is gone or in use. */
  lemma DeletedIdentityIsGone(c: Config, hosts: map<HostKey, Track>, ws: seq<World>, es: seq<Event>, i: nat, j: nat)
    requires c.batch >= 0 && Run(c, ws, es) && Initial(c, ws[0], hosts) && i < |es| && es[i].host in hosts
    requires TrackSound(hosts[es[i].host]) && j < |hosts[es[i].host].delete| && es[i].host in ws[i].procs
    requires es[i].host in ws[i].cloud
    requires Deletes(ws[i].procs[es[i].host], es[i].move, j)
    requires hosts[es[i].host].delete[j].name in ws[i].store && hosts[es[i].host].delete[j].name !in ws[i + 1].store
    ensures var (h, r) := (es[i].host, hosts[es[i].host].delete[j]);
      var rid := r.identity.resourceID;
      if es[i].move.Prune? then r.IsMSI() ==> InUse(c, r) || !OnHost(r, ws[i].cloud[h])
      else rid in hosts[h].remove && Lower(rid) !in Added(hosts[h]) ==> !OnHost(r, ws[i].cloud[h])
  {
    var h := es[i].host;
    var r := hosts[h].delete[j];
    StepAt(c, hosts, ws, es, i, h);
    RunStageSound(c, hosts, ws, es, i, h);
    assert At(i);
    if r.identity.resourceID in hosts[h].remove && Lower(r.identity.resourceID) !in Added(hosts[h]) {
      assert r.identity.resourceID !in Elements(hosts[h].add);
      assert r.identity.resourceID in Elements(hosts[h].remove) - Elements(hosts[h].add);
      assert Lower(r.identity.resourceID) in Doomed(hosts[h]);
    }
  }

  /** The record is gone, or nobody is told that it is in use. */
  predicate GoneOrUnassigned(store: AssignedMap, n: string) {
    n in store ==> store[n].status == Unassigned
  }

  lemma DeletionStaysUnassigned(c: Config, hosts: map<HostKey, Track>, w: World, g: HostKey, mv: Move, h: HostKey,
                                j: nat)
    requires NamesOwned(hosts) && Tracks(w, hosts) && h in hosts && j < |hosts[h].delete| && Enabled(c, w, g, mv)
    requires || GoneOrUnassigned(w.store, hosts[h].delete[j].name)
             || (g == h && mv.Finish? && mv.task == Retire(j) && mv.took)
    ensures GoneOrUnassigned(Step(c, w, g, mv).store, hosts[h].delete[j].name)
  {
    var p, n := w.procs[g], hosts[h].delete[j].name;
    if Target(p, mv) == Some(n) {
      DeletionOwner(c, hosts, p, g, mv, h, j);
    } else {
      OnlyTargetChanges(c, p, w.store, mv, n);
    }
  }

  lemma UnassignedNext(c: Config, hosts: map<HostKey, Track>, ws: seq<World>, es: seq<Event>, i: nat, h: HostKey,
                       j: nat)
    requires c.batch >= 0 && Run(c, ws, es) && Initial(c, ws[0], hosts) && NamesOwned(hosts) && i < |es|
    requires h in hosts && j < |hosts[h].delete|
    requires || GoneOrUnassigned(ws[i].store, hosts[h].delete[j].name)
             || (es[i].host == h && es[i].move.Finish? && es[i].move.task == Retire(j) && es[i].move.took)
    ensures GoneOrUnassigned(ws[i + 1].store, hosts[h].delete[j].name)
  {
    RunDisciplined(c, hosts, ws, es, i);
    assert At(i);
    DeletionStaysUnassigned(c, hosts, ws[i], es[i].host, es[i].move, h, j);
  }

  lemma RetiresDeletion(c: Config, hosts: map<HostKey, Track>, ws: seq<World>, es: seq<Event>, i: nat)
    requires c.batch >= 0 && Run(c, ws, es) && Initial(c, ws[0], hosts) && i < |es|
    requires es[i].move.Finish? && es[i].move.task.Retire?
    ensures es[i].host in hosts && es[i].move.task.i < |hosts[es[i].host].delete|
  {
    RunDisciplined(c, hosts, ws, es, i);
    assert At(i);
  }

  /** Once an Unassigned write has taken effect, its record is never anything but Unassigned until it is gone, whatever
      becomes of the deletion that follows. */
  lemma {:induction false} RetiredStaysUnassigned(c: Config, hosts: map<HostKey, Track>, ws: seq<World>, es: seq<Event>,
                                                  t: nat, i: nat, h: HostKey, j: nat, ok: bool)
    requires c.batch >= 0 && Run(c, ws, es) && Initial(c, ws[0], hosts) && NamesOwned(hosts)
    requires t < i < |ws| && es[t] == Event(h, Finish(Retire(j), ok, true))
    ensures h in hosts && j < |hosts[h].delete|
    ensures hosts[h].delete[j].name in ws[i].store ==> ws[i].store[hosts[h].delete[j].name].status == Unassigned
    decreases i
  {
    RetiresDeletion(c, hosts, ws, es, t);
    if i - 1 > t {
      RetiredStaysUnassigned(c, hosts, ws, es, t, i - 1, h, j, ok);
    }
    UnassignedNext(c, hosts, ws, es, i - 1, h, j);
  }

  ghost predicate DropsUnassigned(hosts: map<HostKey, Track>, w: World, h: HostKey) {
    h in hosts && h in w.procs && w.procs[h].track == hosts[h]
    && forall j :: 0 <= j < |hosts[h].delete| && Drop(j) in w.procs[h].flight ==>
         GoneOrUnassigned(w.store, hosts[h].delete[j].name)
  }

  /** A deletion is only started by a successful Unassigned write. */
  lemma MoveStartsDrop(c: Config, p: Proc, ids: set<string>, store: AssignedMap, mv: Move, j: nat)
    requires CanMove(c, p, ids, store, mv) && Drop(j) in MoveProc(c, p, mv).flight
    ensures Drop(j) in p.flight || (mv.Finish? && mv.task == Retire(j) && mv.took)
  {
  }

  lemma StepKeepsDrops(c: Config, hosts: map<HostKey, Track>, w: World, g: HostKey, mv: Move, h: HostKey)
    requires NamesOwned(hosts) && Tracks(w, hosts) && Enabled(c, w, g, mv) && DropsUnassigned(hosts, w, h)
    ensures Tracks(Step(c, w, g, mv), hosts) ==> DropsUnassigned(hosts, Step(c, w, g, mv), h)
  {
    var w' := Step(c, w, g, mv);
    if Tracks(w', hosts) {
      forall j | 0 <= j < |hosts[h].delete| && Drop(j) in w'.procs[h].flight
        ensures GoneOrUnassigned(w'.store, hosts[h].delete[j].name)
      {
        if g == h {
          MoveStartsDrop(c, w.procs[h], w.cloud[h], w.store, mv, j);
        }
        DeletionStaysUnassigned(c, hosts, w, g, mv, h, j);
      }
    }
  }

  lemma DropsNext(c: Config, hosts: map<HostKey, Track>, ws: seq<World>, es: seq<Event>, i: nat, h: HostKey)
    requires c.batch >= 0 && Run(c, ws, es) && Initial(c, ws[0], hosts) && NamesOwned(hosts) && i < |es|
    requires DropsUnassigned(hosts, ws[i], h)
    ensures DropsUnassigned(hosts, ws[i + 1], h)
  {
    RunDisciplined(c, hosts, ws, es, i);
    RunDisciplined(c, hosts, ws, es, i + 1);
    assert At(i);
    StepKeepsDrops(c, hosts, ws[i], es[i].host, es[i].move, h);
  }

  lemma {:induction false} RunKeepsDrops(c: Config, hosts: map<HostKey, Track>, ws: seq<World>, es: seq<Event>, i: nat,
                                         h: HostKey)
    requires c.batch >= 0 && Run(c, ws, es) && Initial(c, ws[0], hosts) && NamesOwned(hosts) && i < |ws| && h in hosts
    ensures DropsUnassigned(hosts, ws[i], h)
  {
    if i > 0 {
      RunKeepsDrops(c, hosts, ws, es, i - 1, h);
      DropsNext(c, hosts, ws, es, i - 1, h);
    }
  }

  /** On the success path no record is Assigned, or in any state but Unassigned, while its deletion runs or when it
      ends. */
  lemma DroppedIsUnassigned(c: Config, hosts: map<HostKey, Track>, ws: seq<World>, es: seq<Event>, i: nat, h: HostKey,
                            j: nat)
    requires c.batch >= 0 && Run(c, ws, es) && Initial(c, ws[0], hosts) && NamesOwned(hosts) && i < |ws| && h in hosts
    requires h in ws[i].procs && Drop(j) in ws[i].procs[h].flight
    ensures j < |hosts[h].delete|
    ensures hosts[h].delete[j].name in ws[i].store ==> ws[i].store[hosts[h].delete[j].name].status == Unassigned
  {
    RunDisciplined(c, hosts, ws, es, i);
    assert Disciplined(c, ws[i].procs[h]) && TaskInRange(hosts[h], Drop(j));
    RunKeepsDrops(c, hosts, ws, es, i, h);
  }

  /** The error path deletes a record exactly if it is no MSI, its identity is off the host, or a desired record of a
      pod of another name needs it: one with its client ID, on its node or in its scale set. */
  lemma PruningGoesByIdentity(c: Config, hosts: map<HostKey, Track>, ws: seq<World>, es: seq<Event>, i: nat, h: HostKey,
                              j: nat)
    requires c.batch >= 0 && Run(c, ws, es) && Initial(c, ws[0], hosts) && i < |es|
    requires h in hosts && TrackSound(hosts[h]) && j < |hosts[h].delete| && es[i] == Event(h, Prune(true))
    requires h in ws[i].procs && ws[i].procs[h].next == j
    ensures h in ws[i].cloud && h in ws[i + 1].cloud && ws[i + 1].cloud[h] == ws[i].cloud[h]
    ensures var (r, on) := (hosts[h].delete[j], c.lookup);
      var needed := exists k :: (
        && k in c.desired && r.pod != c.desired[k].pod && r.identity.clientID == c.desired[k].identity.clientID
        && (r.node == c.desired[k].node || (on(r.node).InScaleSet? && on(r.node) == on(c.desired[k].node))));
      ws[i + 1].store ==
        if r.identity.kind == UserAssignedMSI && Lower(r.identity.resourceID) in ws[i].cloud[h] && !needed
        then ws[i].store else ws[i].store - {r.name}
  {
    StepAt(c, hosts, ws, es, i, h);
    RunStageSound(c, hosts, ws, es, i, h);
    assert At(i);
    var r := hosts[h].delete[j];
    assert r.IsMSI() ==> (InUse(c, r) <==> exists k :: k in c.desired && UsedBy(c.lookup, r, c.desired[k]));
  }

  /** The error path came to job (or deletion) `j` before position `i`. */
  ghost predicate CameTo(ws: seq<World>, es: seq<Event>, i: int, h: HostKey, j: nat, pruning: bool) {
    exists k :: 0 <= k < i && k < |es| && k < |ws| && es[k].host == h && h in ws[k].procs && ws[k].procs[h].next == j
      && (if pruning then es[k].move.Prune? else es[k].move.Recover?)
  }

  /** The loops of the error path leave nothing out. */
  ghost predicate ErrorPathSoFar(ws: seq<World>, es: seq<Event>, i: nat, h: HostKey, p: Proc) {
    && (p.stage.Recovering? ==> forall j: nat :: j < p.next ==> CameTo(ws, es, i, h, j, false))
    && (p.stage.Pruning? ==>
          && (forall j: nat :: j < |Jobs(p.track)| ==> CameTo(ws, es, i, h, j, false))
          && (forall j: nat :: j < p.next ==> CameTo(ws, es, i, h, j, true)))
  }

  ghost predicate ErrorPathDone(ws: seq<World>, es: seq<Event>, i: nat, h: HostKey, t: Track) {
    && (forall j: nat :: j < |Jobs(t)| ==> CameTo(ws, es, i, h, j, false))
    && (forall j: nat :: j < |t.delete| ==> CameTo(ws, es, i, h, j, true))
  }

  lemma CameToStill(ws: seq<World>, es: seq<Event>, i: int, next: int, h: HostKey)
    requires next == i + 1
    ensures forall j: nat, pruning {:trigger CameTo(ws, es, next, h, j, pruning)} ::
      CameTo(ws, es, i, h, j, pruning) ==> CameTo(ws, es, next, h, j, pruning)
  {
  }

  lemma CameToNow(ws: seq<World>, es: seq<Event>, i: nat, h: HostKey)
    requires i < |es| && i < |ws| && es[i].host == h && h in ws[i].procs
    ensures es[i].move.Recover? ==> CameTo(ws, es, i + 1, h, ws[i].procs[h].next, false)
    ensures es[i].move.Prune? ==> CameTo(ws, es, i + 1, h, ws[i].procs[h].next, true)
  {
  }

  /** How the loops of the error path advance. */
  lemma MoveErrorPath(c: Config, p: Proc, ids: set<string>, store: AssignedMap, mv: Move)
    requires Disciplined(c, p) && CanMove(c, p, ids, store, mv)
    ensures var q := MoveProc(c, p, mv);
      && q.track == p.track
      && (p.stage.Recovering? ==> mv.Recover?)
      && (p.stage.Recovering? ==> ((q.stage.Recovering? && q.next == p.next + 1)
              || (q.stage.Pruning? && q.next == 0 && p.next == |Jobs(p.track)|)))
      && (p.stage.Pruning? ==> mv.Prune?)
      && (p.stage.Pruning? ==> ((q.stage.Pruning? && q.next == p.next + 1)
              || (q.stage.Stopped? && p.next == |p.track.delete|)))
      && (q.stage.Recovering? ==> p.stage.Recovering? || q.next == 0)
      && (q.stage.Pruning? ==> p.stage.Recovering? || p.stage.Pruning?)
  {
  }

  lemma ErrorPathStep(c: Config, ws: seq<World>, es: seq<Event>, i: nat, h: HostKey, p: Proc, ids: set<string>,
                      store: AssignedMap)
    requires i < |es| && i < |ws| && es[i].host == h && h in ws[i].procs && ws[i].procs[h] == p
    requires Disciplined(c, p) && CanMove(c, p, ids, store, es[i].move) && ErrorPathSoFar(ws, es, i, h, p)
    ensures var q := MoveProc(c, p, es[i].move);
      && ErrorPathSoFar(ws, es, i + 1, h, q)
      && (p.stage.Recovering? || p.stage.Pruning? ==>
            q.stage.Recovering? || q.stage.Pruning? || (q.stage.Stopped? && ErrorPathDone(ws, es, i + 1, h, p.track)))
  {
    MoveErrorPath(c, p, ids, store, es[i].move);
    CameToNow(ws, es, i, h);
    CameToStill(ws, es, i, i + 1, h);
  }

  lemma ErrorPathNext(c: Config, hosts: map<HostKey, Track>, ws: seq<World>, es: seq<Event>, i: nat, h: HostKey)
    requires c.batch >= 0 && Run(c, ws, es) && Initial(c, ws[0], hosts) && i < |es| && h in hosts && h in ws[i].procs
    requires ErrorPathSoFar(ws, es, i, h, ws[i].procs[h])
    ensures h in ws[i + 1].procs && ErrorPathSoFar(ws, es, i + 1, h, ws[i + 1].procs[h])
    ensures var (p, q) := (ws[i].procs[h], ws[i + 1].procs[h]);
      p.stage.Recovering? || p.stage.Pruning? ==>
        q.stage.Recovering? || q.stage.Pruning? || (q.stage.Stopped? && ErrorPathDone(ws, es, i + 1, h, hosts[h]))
  {
    StepAt(c, hosts, ws, es, i, h);
    CameToStill(ws, es, i, i + 1, h);
    if es[i].host == h {
      ErrorPathStep(c, ws, es, i, h, ws[i].procs[h], ws[i].cloud[h], ws[i].store);
    }
  }

  lemma {:induction false} RunErrorPath(c: Config, hosts: map<HostKey, Track>, ws: seq<World>, es: seq<Event>, i: nat,
                                        h: HostKey)
    requires c.batch >= 0 && Run(c, ws, es) && Initial(c, ws[0], hosts) && i < |ws| && h in hosts
    ensures h in ws[i].procs && ErrorPathSoFar(ws, es, i, h, ws[i].procs[h])
  {
    if i > 0 {
      RunErrorPath(c, hosts, ws, es, i - 1, h);
      ErrorPathNext(c, hosts, ws, es, i - 1, h);
    }
  }

  lemma {:induction false} ErrorPathStays(c: Config, hosts: map<HostKey, Track>, ws: seq<World>, es: seq<Event>, t: nat,
                                          i: nat, h: HostKey)
    requires c.batch >= 0 && Run(c, ws, es) && Initial(c, ws[0], hosts) && t <= i < |ws| && h in hosts
    requires h in ws[t].procs && ws[t].procs[h].stage.Recovering?
    ensures h in ws[i].procs
    ensures var s := ws[i].procs[h].stage;
      s.Recovering? || s.Pruning? || (s.Stopped? && ErrorPathDone(ws, es, i, h, hosts[h]))
    decreases i
  {
    if i > t {
      ErrorPathStays(c, hosts, ws, es, t, i - 1, h);
      RunErrorPath(c, hosts, ws, es, i - 1, h);
      ErrorPathNext(c, hosts, ws, es, i - 1, h);
      if ws[i - 1].procs[h].stage.Stopped? {
        StoppedStays(c, hosts, ws, es, i - 1, h);
        ErrorPathStaysDone(ws, es, i - 1, h, hosts[h]);
      }
    }
  }

  lemma StoppedStays(c: Config, hosts: map<HostKey, Track>, ws: seq<World>, es: seq<Event>, i: nat, h: HostKey)
    requires c.batch >= 0 && Run(c, ws, es) && Initial(c, ws[0], hosts) && i < |es| && h in hosts
    requires h in ws[i].procs && ws[i].procs[h].stage.Stopped?
    ensures h in ws[i + 1].procs && ws[i + 1].procs[h].stage.Stopped?
  {
    StepAt(c, hosts, ws, es, i, h);
  }

  lemma ErrorPathStaysDone(ws: seq<World>, es: seq<Event>, i: nat, h: HostKey, t: Track)
    requires ErrorPathDone(ws, es, i, h, t)
    ensures ErrorPathDone(ws, es, i + 1, h, t)
  {
    CameToStill(ws, es, i, i + 1, h);
  }

  /** A host that took the error path and has stopped came to every job and to every deletion. */
  lemma ErrorPathIsComplete(c: Config, hosts: map<HostKey, Track>, ws: seq<World>, es: seq<Event>, t: nat, i: nat,
                            h: HostKey)
    requires c.batch >= 0 && Run(c, ws, es) && Initial(c, ws[0], hosts) && t <= i < |ws| && h in hosts
    requires h in ws[t].procs && ws[t].procs[h].stage.Recovering? && h in ws[i].procs && ws[i].procs[h].stage.Stopped?
    ensures forall j: nat :: j < |Jobs(hosts[h])| ==> CameTo(ws, es, i, h, j, false)
    ensures forall j: nat :: j < |hosts[h].delete| ==> CameTo(ws, es, i, h, j, true)
  {
    ErrorPathStays(c, hosts, ws, es, t, i, h);
  }

  // --------------------------------------------------------- removal safety

  /** The cloud set of a host is untouched before its call, and afterwards lacks at most what was doomed. */
  ghost predicate Kept(p: Proc, start: set<string>, ids: set<string>) {
    && start - Doomed(p.track) <= ids
    && (p.stage.Writing? || p.stage.Calling? || p.stage.Cleaning? ==> ids == start)
  }

  lemma MoveKeeps(c: Config, p: Proc, start: set<string>, ids: set<string>, store: AssignedMap, mv: Move)
    requires Kept(p, start, ids) && Disciplined(c, p) && CanMove(c, p, ids, store, mv)
    ensures Kept(MoveProc(c, p, mv), start, MoveCloud(ids, mv))
  {
  }

  lemma StepKeeps(c: Config, hosts: map<HostKey, Track>, w: World, g: HostKey, mv: Move, h: HostKey, start: set<string>)
    requires Tracks(w, hosts) && h in hosts && AllDisciplined(c, w) && Enabled(c, w, g, mv)
    requires Kept(w.procs[h], start, w.cloud[h])
    ensures var w' := Step(c, w, g, mv); h in w'.procs && h in w'.cloud && Kept(w'.procs[h], start, w'.cloud[h])
  {
    if g == h {
      MoveKeeps(c, w.procs[h], start, w.cloud[h], w.store, mv);
    }
  }

  lemma KeptNext(c: Config, hosts: map<HostKey, Track>, ws: seq<World>, es: seq<Event>, i: nat, h: HostKey,
                 start: set<string>)
    requires c.batch >= 0 && Run(c, ws, es) && Initial(c, ws[0], hosts) && i < |es| && h in hosts
    requires h in ws[i].procs && h in ws[i].cloud && Kept(ws[i].procs[h], start, ws[i].cloud[h])
    ensures h in ws[i + 1].procs && h in ws[i + 1].cloud && Kept(ws[i + 1].procs[h], start, ws[i + 1].cloud[h])
  {
    RunDisciplined(c, hosts, ws, es, i);
    assert At(i);
    StepKeeps(c, hosts, ws[i], es[i].host, es[i].move, h, start);
  }

  /** Removal safety: under any failures and interleavings, a host only loses identities that its track list dooms. */
  lemma {:induction false} OnlyDoomedIsRemoved(c: Config, hosts: map<HostKey, Track>, ws: seq<World>, es: seq<Event>,
                                               i: nat, h: HostKey)
    requires c.batch >= 0 && Run(c, ws, es) && Initial(c, ws[0], hosts) && i < |ws| && h in hosts
    ensures h in ws[0].cloud && h in ws[i].procs && h in ws[i].cloud
    ensures Kept(ws[i].procs[h], ws[0].cloud[h], ws[i].cloud[h])
  {
    if i > 0 {
      OnlyDoomedIsRemoved(c, hosts, ws, es, i - 1, h);
      KeptNext(c, hosts, ws, es, i - 1, h, ws[0].cloud[h]);
    }
  }

  /** What a successful call may leave: exactly what was asked for, but for disputed identities. */
  ghost predicate AsAsked(t: Track, start: set<string>, ids: set<string>) {
    start - Doomed(t) + (Added(t) - Doomed(t)) <= ids <= start - (Doomed(t) - Added(t)) + Added(t)
  }

  lemma AsAskedExact(t: Track, start: set<string>, ids: set<string>)
    requires AsAsked(t, start, ids) && Compatible(Elements(t.add), Elements(t.remove))
    ensures ids == start - Doomed(t) + Added(t)
  {
    OutcomeExact(Elements(t.add), Elements(t.remove), start, ids);
  }

  /** The cloud set of a host after its call, whether that succeeded or failed. */
  ghost predicate Called(p: Proc, start: set<string>, ids: set<string>) {
    && (p.stage.Marking? || p.stage.Deleting? ==> AsAsked(p.track, start, ids))
    && ids <= start + Added(p.track)
  }

  lemma MoveCalled(c: Config, p: Proc, start: set<string>, ids: set<string>, store: AssignedMap, mv: Move)
    requires Kept(p, start, ids) && Called(p, start, ids) && CanMove(c, p, ids, store, mv)
    ensures Called(MoveProc(c, p, mv), start, MoveCloud(ids, mv))
  {
  }

  lemma CalledNext(c: Config, hosts: map<HostKey, Track>, ws: seq<World>, es: seq<Event>, i: nat, h: HostKey,
                   start: set<string>)
    requires c.batch >= 0 && Run(c, ws, es) && Initial(c, ws[0], hosts) && i < |es| && h in hosts
    requires h in ws[i].procs && h in ws[i].cloud && Kept(ws[i].procs[h], start, ws[i].cloud[h])
    requires Called(ws[i].procs[h], start, ws[i].cloud[h])
    ensures h in ws[i + 1].procs && h in ws[i + 1].cloud && Called(ws[i + 1].procs[h], start, ws[i + 1].cloud[h])
  {
    StepAt(c, hosts, ws, es, i, h);
    assert At(i);
    if es[i].host == h {
      MoveCalled(c, ws[i].procs[h], start, ws[i].cloud[h], ws[i].store, es[i].move);
    }
  }

  lemma {:induction false} RunCalled(c: Config, hosts: map<HostKey, Track>, ws: seq<World>, es: seq<Event>, i: nat,
                                     h: HostKey)
    requires c.batch >= 0 && Run(c, ws, es) && Initial(c, ws[0], hosts) && i < |ws| && h in hosts
    ensures h in ws[0].cloud && h in ws[i].procs && h in ws[i].cloud
    ensures Called(ws[i].procs[h], ws[0].cloud[h], ws[i].cloud[h])
  {
    if i > 0 {
      RunCalled(c, hosts, ws, es, i - 1, h);
      OnlyDoomedIsRemoved(c, hosts, ws, es, i - 1, h);
      CalledNext(c, hosts, ws, es, i - 1, h, ws[0].cloud[h]);
    }
  }

  /** The status write goes by name, so it marks whatever record is stored there, also when the job's own write failed.
      That record's identity, unless disputed, is then on its host if and only if the cycle added it, or it was there
      and not doomed. */
  lemma MarkingGoesByName(c: Config, hosts: map<HostKey, Track>, ws: seq<World>, es: seq<Event>, i: nat, h: HostKey,
                          j: nat)
    requires c.batch >= 0 && Run(c, ws, es) && Initial(c, ws[0], hosts) && i < |es|
    requires h in hosts && j < |Jobs(hosts[h])| && es[i] == Event(h, Finish(Mark(j), true, true))
    ensures h in ws[0].cloud && h in ws[i + 1].cloud
    ensures var n := Jobs(hosts[h])[j].name;
      && n in ws[i].store && n in ws[i + 1].store && ws[i + 1].store[n] == ws[i].store[n].(status := Assigned)
      && var id := Lower(ws[i].store[n].identity.resourceID);
        !(id in Added(hosts[h]) && id in Doomed(hosts[h])) ==>
          (OnHost(ws[i + 1].store[n], ws[i + 1].cloud[h])
           <==> id in Added(hosts[h]) || (id in ws[0].cloud[h] && id !in Doomed(hosts[h])))
  {
    StepAt(c, hosts, ws, es, i, h);
    RunCalled(c, hosts, ws, es, i, h);
    assert At(i);
  }

  /** The error path marks by name too, exactly if the job is no MSI or its identity was found on the host. The record
      stored there may be another one, if the job's write failed; what is sure about its identity is what a failed call
      leaves sure. */
  lemma RecoveryGoesByName(c: Config, hosts: map<HostKey, Track>, ws: seq<World>, es: seq<Event>, i: nat, h: HostKey,
                           j: nat)
    requires c.batch >= 0 && Run(c, ws, es) && Initial(c, ws[0], hosts) && i < |es|
    requires h in hosts && TrackSound(hosts[h]) && j < |Jobs(hosts[h])| && es[i] == Event(h, Recover(true))
    requires h in ws[i].procs && ws[i].procs[h].next == j
    ensures h in ws[0].cloud && h in ws[i].cloud && h in ws[i + 1].cloud && ws[i + 1].cloud[h] == ws[i].cloud[h]
    ensures var r := Jobs(hosts[h])[j];
      && r.name in ws[i].store
      && ws[i + 1].store == (if r.IsMSI() && !OnHost(r, ws[i].cloud[h]) then ws[i].store
                             else SetStatus(ws[i].store, r.name, Assigned))
      && var id := Lower(ws[i].store[r.name].identity.resourceID);
        && (id in ws[0].cloud[h] && id !in Doomed(hosts[h]) ==> id in ws[i + 1].cloud[h])
        && (id !in ws[0].cloud[h] && id !in Added(hosts[h]) ==> id !in ws[i + 1].cloud[h])
  {
    StepAt(c, hosts, ws, es, i, h);
    RunStageSound(c, hosts, ws, es, i, h);
    RunCalled(c, hosts, ws, es, i, h);
    OnlyDoomedIsRemoved(c, hosts, ws, es, i, h);
    assert At(i);
  }

  /** Hosts without work are never touched. */
  lemma {:induction false} IdleHostsUntouched(c: Config, hosts: map<HostKey, Track>, ws: seq<World>, es: seq<Event>,
                                              i: nat, h: HostKey)
    requires c.batch >= 0 && Run(c, ws, es) && Initial(c, ws[0], hosts) && i < |ws| && h !in hosts && h in ws[0].cloud
    ensures h in ws[i].cloud && ws[i].cloud[h] == ws[0].cloud[h]
  {
    if i > 0 {
      IdleHostsUntouched(c, hosts, ws, es, i - 1, h);
      RunDisciplined(c, hosts, ws, es, i - 1);
      assert At(i - 1);
    }
  }

  /** Nor are the hosts of missing nodes, whose records are only cleaned up. */
  lemma {:induction false} GoneHostsUntouched(c: Config, hosts: map<HostKey, Track>, ws: seq<World>, es: seq<Event>,
                                              i: nat, h: HostKey)
    requires c.batch >= 0 && Run(c, ws, es) && Initial(c, ws[0], hosts) && i < |ws| && h in hosts && h.Gone?
    ensures h in ws[0].cloud && h in ws[i].cloud && ws[i].cloud[h] == ws[0].cloud[h]
    ensures h in ws[i].procs && (ws[i].procs[h].stage.Cleaning? || ws[i].procs[h].stage.Stopped?)
  {
    if i > 0 {
      GoneHostsUntouched(c, hosts, ws, es, i - 1, h);
      GoneNext(c, hosts, ws, es, i - 1, h);
    }
  }

  lemma GoneNext(c: Config, hosts: map<HostKey, Track>, ws: seq<World>, es: seq<Event>, i: nat, h: HostKey)
    requires c.batch >= 0 && Run(c, ws, es) && Initial(c, ws[0], hosts) && i < |es| && h in hosts
    requires h in ws[i].cloud && h in ws[i].procs
    requires ws[i].procs[h].stage.Cleaning? || ws[i].procs[h].stage.Stopped?
    ensures h in ws[i + 1].cloud && ws[i + 1].cloud[h] == ws[i].cloud[h] && h in ws[i + 1].procs
    ensures ws[i + 1].procs[h].stage.Cleaning? || ws[i + 1].procs[h].stage.Stopped?
  {
    StepAt(c, hosts, ws, es, i, h);
    assert At(i);
    if es[i].host == h {
      MoveGone(c, ws[i].procs[h], ws[i].cloud[h], ws[i].store, es[i].move);
    }
  }

  lemma MoveGone(c: Config, p: Proc, ids: set<string>, store: AssignedMap, mv: Move)
    requires Disciplined(c, p) && CanMove(c, p, ids, store, mv) && (p.stage.Cleaning? || p.stage.Stopped?)
    ensures MoveCloud(ids, mv) == ids
    ensures MoveProc(c, p, mv).stage.Cleaning? || MoveProc(c, p, mv).stage.Stopped?
  {
  }

  // ------------------------------------------------- runs without failures

  predicate Succeeds(mv: Move) {
    match mv
    case Finish(_, ok, _) => ok
    case Call(ok, _, _) => ok
    case Recover(took) => took
    case Prune(took) => took
    case Clean(took) => took
    case _ => true
  }

  ghost predicate NoFailures(es: seq<Event>) {
    forall i :: 0 <= i < |es| ==> Succeeds(es[i].move)
  }

  /** The error path is never entered. */
  predicate Clear(s: Stage) {
    !s.Recovering? && !s.Pruning?
  }

  /** How far job `j` is: 0 not written, 1 written, 2 marked. */
  function JobPhase(p: Proc, j: nat): nat {
    match p.stage
    case Writing => if j < p.next && Write(j) !in p.flight then 1 else 0
    case Calling => 1
    case Marking => if j < p.next && Mark(j) !in p.flight then 2 else 1
    case _ => 2
  }

  predicate JobStored(start: AssignedMap, store: AssignedMap, r: AssignedID, phase: nat) {
    if phase == 0 then SameAt(start, store, r.name)
    else r.name in store && store[r.name] == r.(status := if phase == 1 then Created else Assigned)
  }

  lemma MoveJobPhase(c: Config, p: Proc, ids: set<string>, store: AssignedMap, mv: Move, j: nat)
    requires c.batch >= 0 && Disciplined(c, p) && CanMove(c, p, ids, store, mv) && Succeeds(mv)
    requires Clear(p.stage) && j < |Jobs(p.track)|
    ensures Clear(MoveProc(c, p, mv).stage)
    ensures var a, b := JobPhase(p, j), JobPhase(MoveProc(c, p, mv), j);
      b == if mv.Finish? && (mv.task == Write(j) || mv.task == Mark(j)) then a + 1 else a
    ensures mv.Finish? && mv.task == Write(j) ==> JobPhase(p, j) == 0
    ensures mv.Finish? && mv.task == Mark(j) ==> JobPhase(p, j) == 1
  {
    if mv.Barrier? {
      BarrierDisciplined(c, p);
    }
  }

  /** The store at job `j` of host `h`, as far as the job is. */
  ghost predicate JobOnTrack(hosts: map<HostKey, Track>, start: AssignedMap, w: World, h: HostKey, j: nat)
    requires h in hosts && j < |Jobs(hosts[h])|
  {
    && h in w.procs && h in w.cloud && w.procs[h].track == hosts[h] && Clear(w.procs[h].stage)
    && JobStored(start, w.store, Jobs(hosts[h])[j], JobPhase(w.procs[h], j))
  }

  /** A successful move about job `j` brings its record one phase further. */
  lemma JobMoveStores(c: Config, start: AssignedMap, p: Proc, ids: set<string>, store: AssignedMap, mv: Move, j: nat)
    requires c.batch >= 0 && Disciplined(c, p) && CanMove(c, p, ids, store, mv) && Succeeds(mv)
    requires Clear(p.stage) && j < |Jobs(p.track)| && mv.Finish? && (mv.task == Write(j) || mv.task == Mark(j))
    requires var r := Jobs(p.track)[j];
      r.status == NoState || (r.status == Created && r.name in start && start[r.name] == r)
    requires JobStored(start, store, Jobs(p.track)[j], JobPhase(p, j))
    ensures Clear(MoveProc(c, p, mv).stage)
    ensures JobStored(start, MoveStore(c, p, store, mv), Jobs(p.track)[j], JobPhase(MoveProc(c, p, mv), j))
  {
    MoveJobPhase(c, p, ids, store, mv, j);
  }

  lemma OtherMoveKeepsJobOnTrack(c: Config, hosts: map<HostKey, Track>, start: AssignedMap, w: World, g: HostKey,
                                 mv: Move, h: HostKey, j: nat)
    requires c.batch >= 0 && Tracks(w, hosts) && h in hosts && j < |Jobs(hosts[h])|
    requires g in hosts && Enabled(c, w, g, mv) && Succeeds(mv) && Disciplined(c, w.procs[h])
    requires JobOnTrack(hosts, start, w, h, j) && Target(w.procs[g], mv) != Some(Jobs(hosts[h])[j].name)
    ensures JobOnTrack(hosts, start, Step(c, w, g, mv), h, j)
  {
    OnlyTargetChanges(c, w.procs[g], w.store, mv, Jobs(hosts[h])[j].name);
    if g == h {
      MoveJobPhase(c, w.procs[g], w.cloud[h], w.store, mv, j);
    }
  }

  lemma StepKeepsJobOnTrack(c: Config, hosts: map<HostKey, Track>, start: AssignedMap, w: World, g: HostKey, mv: Move,
                            h: HostKey, j: nat)
    requires c.batch >= 0 && Tracks(w, hosts) && Prepared(hosts, start) && h in hosts && j < |Jobs(hosts[h])|
    requires g in hosts && Enabled(c, w, g, mv) && Succeeds(mv) && Disciplined(c, w.procs[h])
    requires JobOnTrack(hosts, start, w, h, j)
    ensures JobOnTrack(hosts, start, Step(c, w, g, mv), h, j)
  {
    var p, r := w.procs[g], Jobs(hosts[h])[j];
    if Target(p, mv) == Some(r.name) {
      assert r in Jobs(hosts[h]) && IsJob(hosts, h, j, r.name);
      TargetOwner(c, hosts, p, g, mv, h, j);
      JobMoveStores(c, start, p, w.cloud[h], w.store, mv, j);
    } else {
      OtherMoveKeepsJobOnTrack(c, hosts, start, w, g, mv, h, j);
    }
  }

  lemma JobOnTrackNext(c: Config, hosts: map<HostKey, Track>, ws: seq<World>, es: seq<Event>, i: nat, h: HostKey,
                       j: nat)
    requires c.batch >= 0 && Run(c, ws, es) && Initial(c, ws[0], hosts) && Prepared(hosts, ws[0].store)
    requires NoFailures(es)
    requires i < |es| && h in hosts && j < |Jobs(hosts[h])| && JobOnTrack(hosts, ws[0].store, ws[i], h, j)
    ensures JobOnTrack(hosts, ws[0].store, ws[i + 1], h, j)
  {
    RunDisciplined(c, hosts, ws, es, i);
    assert At(i);
    StepKeepsJobOnTrack(c, hosts, ws[0].store, ws[i], es[i].host, es[i].move, h, j);
  }

  lemma {:induction false} RunJobOnTrack(c: Config, hosts: map<HostKey, Track>, ws: seq<World>, es: seq<Event>, i: nat,
                                         h: HostKey, j: nat)
    requires c.batch >= 0 && Run(c, ws, es) && Initial(c, ws[0], hosts) && Prepared(hosts, ws[0].store)
    requires NoFailures(es)
    requires i < |ws| && h in hosts && !h.Gone? && j < |Jobs(hosts[h])|
    ensures JobOnTrack(hosts, ws[0].store, ws[i], h, j)
  {
    if i > 0 {
      RunJobOnTrack(c, hosts, ws, es, i - 1, h, j);
      JobOnTrackNext(c, hosts, ws, es, i - 1, h, j);
    }
  }

  /** Whether deletion `j` is done. */
  predicate Deleted(p: Proc, j: nat) {
    match p.stage
    case Deleting => j < p.next && Retire(j) !in p.flight && Drop(j) !in p.flight
    case Cleaning => j < p.next
    case Stopped => true
    case _ => false
  }

  lemma MoveDeleted(c: Config, p: Proc, ids: set<string>, store: AssignedMap, mv: Move, j: nat)
    requires c.batch >= 0 && Disciplined(c, p) && CanMove(c, p, ids, store, mv) && Succeeds(mv)
    requires Clear(p.stage) && j < |p.track.delete|
    ensures Clear(MoveProc(c, p, mv).stage)
    ensures Deleted(MoveProc(c, p, mv), j) <==>
            Deleted(p, j) || (mv.Finish? && mv.task == Drop(j)) || (mv.Clean? && p.next == j)
  {
    match mv {
      case Barrier => BarrierDisciplined(c, p);
      case Finish(task, ok, took) => FinishDeleted(c, p, task, j);
      case _ =>
    }
  }

  lemma FinishDeleted(c: Config, p: Proc, task: Task, j: nat)
    requires Disciplined(c, p) && task in p.flight && j < |p.track.delete|
    ensures TaskInRange(p.track, task)
    ensures Deleted(MoveProc(c, p, Finish(task, true, true)), j) <==> Deleted(p, j) || task == Drop(j)
  {
    assert BelongsTo(task, p.stage) && task.i < p.next;
  }

  lemma DeletionOwner(c: Config, hosts: map<HostKey, Track>, p: Proc, g: HostKey, mv: Move, h: HostKey, j: nat)
    requires NamesOwned(hosts) && g in hosts && p.track == hosts[g] && h in hosts && j < |hosts[h].delete|
    requires mv.Finish? ==> TaskInRange(p.track, mv.task)
    requires Target(p, mv) == Some(hosts[h].delete[j].name)
    ensures g == h
    ensures (mv.Finish? && (mv.task == Retire(j) || mv.task == Drop(j))) || ((mv.Prune? || mv.Clean?) && p.next == j)
  {
    assert IsDeletion(hosts, h, j, hosts[h].delete[j].name);
    TargetIsOwned(hosts, p, g, mv, hosts[h].delete[j].name);
  }

  ghost predicate DeletionOnTrack(hosts: map<HostKey, Track>, w: World, h: HostKey, j: nat)
    requires h in hosts && j < |hosts[h].delete|
  {
    && h in w.procs && h in w.cloud && w.procs[h].track == hosts[h] && Clear(w.procs[h].stage)
    && (hosts[h].delete[j].name in w.store <==> !Deleted(w.procs[h], j))
  }

  lemma StepKeepsDeletionOnTrack(c: Config, hosts: map<HostKey, Track>, w: World, g: HostKey, mv: Move, h: HostKey,
                                 j: nat)
    requires c.batch >= 0 && Tracks(w, hosts) && NamesOwned(hosts) && h in hosts && j < |hosts[h].delete|
    requires g in hosts && Enabled(c, w, g, mv) && Succeeds(mv) && Disciplined(c, w.procs[h])
    requires DeletionOnTrack(hosts, w, h, j)
    ensures DeletionOnTrack(hosts, Step(c, w, g, mv), h, j)
  {
    var p, n := w.procs[g], hosts[h].delete[j].name;
    if Target(p, mv) == Some(n) {
      DeletionOwner(c, hosts, p, g, mv, h, j);
      MoveDeleted(c, p, w.cloud[h], w.store, mv, j);
    } else {
      OnlyTargetChanges(c, p, w.store, mv, n);
      if g == h {
        MoveDeleted(c, p, w.cloud[h], w.store, mv, j);
      }
    }
  }

  lemma DeletionOnTrackNext(c: Config, hosts: map<HostKey, Track>, ws: seq<World>, es: seq<Event>, i: nat, h: HostKey,
                            j: nat)
    requires c.batch >= 0 && Run(c, ws, es) && Initial(c, ws[0], hosts) && NamesOwned(hosts) && NoFailures(es)
    requires i < |es| && h in hosts && j < |hosts[h].delete| && DeletionOnTrack(hosts, ws[i], h, j)
    ensures DeletionOnTrack(hosts, ws[i + 1], h, j)
  {
    RunDisciplined(c, hosts, ws, es, i);
    assert At(i);
    StepKeepsDeletionOnTrack(c, hosts, ws[i], es[i].host, es[i].move, h, j);
  }

  lemma {:induction false} RunDeletionOnTrack(c: Config, hosts: map<HostKey, Track>, ws: seq<World>, es: seq<Event>,
                                              i: nat, h: HostKey, j: nat)
    requires c.batch >= 0 && Run(c, ws, es) && Initial(c, ws[0], hosts) && NamesOwned(hosts) && NoFailures(es)
    requires i < |ws| && h in hosts && j < |hosts[h].delete| && hosts[h].delete[j].name in ws[0].store
    ensures DeletionOnTrack(hosts, ws[i], h, j)
  {
    if i > 0 {
      RunDeletionOnTrack(c, hosts, ws, es, i - 1, h, j);
      DeletionOnTrackNext(c, hosts, ws, es, i - 1, h, j);
    }
  }

  ghost predicate AllStopped(w: World) {
    forall h :: h in w.procs ==> w.procs[h].stage.Stopped?
  }

  /** After a run without failures every job's record is stored and Assigned. */
  lemma FinishedJobIsAssigned(c: Config, hosts: map<HostKey, Track>, ws: seq<World>, es: seq<Event>, h: HostKey, j: nat)
    requires c.batch >= 0 && Run(c, ws, es) && Initial(c, ws[0], hosts) && Prepared(hosts, ws[0].store)
    requires NoFailures(es)
    requires AllStopped(ws[|es|]) && h in hosts && !h.Gone? && j < |Jobs(hosts[h])|
    ensures var r := Jobs(hosts[h])[j]; r.name in ws[|es|].store && ws[|es|].store[r.name] == r.(status := Assigned)
  {
    RunJobOnTrack(c, hosts, ws, es, |es|, h, j);
  }

  lemma FinishedDeletionIsGone(c: Config, hosts: map<HostKey, Track>, ws: seq<World>, es: seq<Event>, h: HostKey,
                               j: nat)
    requires c.batch >= 0 && Run(c, ws, es) && Initial(c, ws[0], hosts) && NamesOwned(hosts) && NoFailures(es)
    requires AllStopped(ws[|es|]) && h in hosts && j < |hosts[h].delete| && hosts[h].delete[j].name in ws[0].store
    ensures hosts[h].delete[j].name !in ws[|es|].store
  {
    RunDeletionOnTrack(c, hosts, ws, es, |es|, h, j);
  }

  /** No host works on record `n`. */
  ghost predicate Unowned(hosts: map<HostKey, Track>, n: string) {
    forall h, i: nat :: !IsJob(hosts, h, i, n) && !IsDeletion(hosts, h, i, n)
  }

  lemma {:induction false} RunUnowned(c: Config, hosts: map<HostKey, Track>, ws: seq<World>, es: seq<Event>, i: nat,
                                      n: string)
    requires c.batch >= 0 && Run(c, ws, es) && Initial(c, ws[0], hosts) && i < |ws| && Unowned(hosts, n)
    ensures SameAt(ws[0].store, ws[i].store, n)
  {
    if i > 0 {
      RunUnowned(c, hosts, ws, es, i - 1, n);
      RunDisciplined(c, hosts, ws, es, i - 1);
      assert At(i - 1);
      UntargetedStep(c, hosts, ws[i - 1], es[i - 1].host, es[i - 1].move, n);
    }
  }

  lemma UntargetedStep(c: Config, hosts: map<HostKey, Track>, w: World, g: HostKey, mv: Move, n: string)
    requires Tracks(w, hosts) && Enabled(c, w, g, mv) && Unowned(hosts, n)
    ensures SameAt(w.store, Step(c, w, g, mv).store, n)
  {
    var p := w.procs[g];
    if Target(p, mv) == Some(n) {
      TargetIsOwned(hosts, p, g, mv, n);
      assert false;
    }
    OnlyTargetChanges(c, p, w.store, mv, n);
  }

  // ------------------------------------------------ progress and termination

  /** A host that has not stopped can always move, if the batch size is positive. */
  lemma HostCanMove(c: Config, p: Proc, ids: set<string>, store: AssignedMap) returns (mv: Move)
    requires c.batch >= 1 && Disciplined(c, p) && !p.stage.Stopped?
    ensures CanMove(c, p, ids, store, mv)
  {
    if IsLoop(p.stage) {
      if p.flight != {} {
        var t :| t in p.flight;
        mv := Finish(t, false, false);
      } else if p.next < |Items(p)| {
        mv := Spawn;
      } else {
        mv := Barrier;
      }
    } else if p.stage.Calling? {
      mv := Call(false, ids, false);
    } else if p.stage.Recovering? {
      mv := Recover(false);
    } else if p.stage.Pruning? {
      mv := Prune(false);
    } else {
      mv := Clean(false);
    }
  }

  /** No reachable world of a cycle is stuck before all its hosts have stopped. */
  lemma NeverStuck(c: Config, hosts: map<HostKey, Track>, ws: seq<World>, es: seq<Event>, i: nat, h: HostKey)
    requires c.batch >= 1 && Run(c, ws, es) && Initial(c, ws[0], hosts) && i < |ws| && h in hosts
    ensures h in ws[i].procs && (ws[i].procs[h].stage.Stopped? || exists mv :: Enabled(c, ws[i], h, mv))
  {
    RunDisciplined(c, hosts, ws, es, i);
    if !ws[i].procs[h].stage.Stopped? {
      var mv := HostCanMove(c, ws[i].procs[h], ws[i].cloud[h], ws[i].store);
      assert Enabled(c, ws[i], h, mv);
    }
  }

  /** A host with records to write gets started exactly when createDeleteBatch is at least 1. */
  lemma StartsIff(c: Config, t: Track, ids: set<string>, store: AssignedMap)
    requires Jobs(t) != []
    ensures (exists mv :: CanMove(c, Proc(t, Writing, 0, {}, c.batch, {}), ids, store, mv)) <==> c.batch >= 1
  {
    var p := Proc(t, Writing, 0, {}, c.batch, {});
    if c.batch >= 1 {
      assert CanMove(c, p, ids, store, Spawn);
    }
  }

  /** Creates are of new names, updates and deletions of stored ones. */
  ghost predicate Fits(hosts: map<HostKey, Track>, start: AssignedMap) {
    && (forall h, i: nat, n :: IsJob(hosts, h, i, n) && Jobs(hosts[h])[i].status == NoState ==>
          (n in start <==> i >= |hosts[h].create|))
    && (forall h, i: nat, n :: IsDeletion(hosts, h, i, n) ==> n in start)
  }

  ghost predicate OnCleanPath(h: HostKey, s: Stage) {
    Clear(s) && (h.Gone? ==> s.Cleaning? || s.Stopped?) && (s.Cleaning? ==> h.Gone?)
  }

  lemma StaysClearNext(c: Config, hosts: map<HostKey, Track>, ws: seq<World>, es: seq<Event>, i: nat, h: HostKey)
    requires c.batch >= 0 && Run(c, ws, es) && Initial(c, ws[0], hosts) && i < |es| && h in hosts
    requires Succeeds(es[i].move) && h in ws[i].procs && OnCleanPath(h, ws[i].procs[h].stage)
    ensures h in ws[i + 1].procs && OnCleanPath(h, ws[i + 1].procs[h].stage)
  {
    StepAt(c, hosts, ws, es, i, h);
    if es[i].host == h {
      MoveStaysClear(c, ws[i].procs[h], ws[i].cloud[h], ws[i].store, es[i].move);
    }
  }

  lemma MoveStaysClear(c: Config, p: Proc, ids: set<string>, store: AssignedMap, mv: Move)
    requires CanMove(c, p, ids, store, mv) && Disciplined(c, p) && Succeeds(mv) && Clear(p.stage)
    ensures var q := MoveProc(c, p, mv).stage;
      && Clear(q) && (p.stage.Cleaning? || p.stage.Stopped? ==> q.Cleaning? || q.Stopped?)
      && (q.Cleaning? ==> p.stage.Cleaning?)
  {
  }

  /** Without failures the error path is never taken, and missing nodes are only cleaned up. */
  lemma {:induction false} RunStaysClear(c: Config, hosts: map<HostKey, Track>, ws: seq<World>, es: seq<Event>, i: nat,
                                         h: HostKey)
    requires c.batch >= 0 && Run(c, ws, es) && Initial(c, ws[0], hosts) && NoFailures(es) && i < |ws| && h in hosts
    ensures h in ws[i].procs && OnCleanPath(h, ws[i].procs[h].stage)
  {
    if i == 0 {
      assert ws[0].procs[h].stage == if h.Gone? then Cleaning else Writing;
    } else {
      RunStaysClear(c, hosts, ws, es, i - 1, h);
      StaysClearNext(c, hosts, ws, es, i - 1, h);
    }
  }

  /** A task in flight can succeed when the store is as far as its job or deletion is. */
  predicate TaskReady(p: Proc, store: AssignedMap, t: Task) {
    && TaskInRange(p.track, t)
    && (t.Write? ==> WriteFits(p.track, t.i, store))
    && (t.Mark? ==> Jobs(p.track)[t.i].name in store)
    && (t.Retire? ==> p.track.delete[t.i].name in store)
  }

  lemma JobTaskReady(c: Config, hosts: map<HostKey, Track>, start: AssignedMap, w: World, h: HostKey, t: Task)
    requires Fits(hosts, start) && h in hosts && (t.Write? || t.Mark?) && t.i < |Jobs(hosts[h])|
    requires JobOnTrack(hosts, start, w, h, t.i) && t in w.procs[h].flight && Disciplined(c, w.procs[h])
    ensures TaskReady(w.procs[h], w.store, t)
  {
    assert IsJob(hosts, h, t.i, Jobs(hosts[h])[t.i].name);
  }

  lemma DeletionTaskReady(c: Config, hosts: map<HostKey, Track>, w: World, h: HostKey, t: Task)
    requires h in hosts && (t.Retire? || t.Drop?) && t.i < |hosts[h].delete|
    requires DeletionOnTrack(hosts, w, h, t.i) && t in w.procs[h].flight && Disciplined(c, w.procs[h])
    ensures TaskReady(w.procs[h], w.store, t)
  {
  }

  lemma RunTaskReady(c: Config, hosts: map<HostKey, Track>, ws: seq<World>, es: seq<Event>, i: nat, h: HostKey, t: Task)
    requires c.batch >= 0 && Run(c, ws, es) && Initial(c, ws[0], hosts) && NoFailures(es) && i < |ws| && h in hosts
    requires Prepared(hosts, ws[0].store) && Fits(hosts, ws[0].store)
    requires h in ws[i].procs && t in ws[i].procs[h].flight
    ensures TaskReady(ws[i].procs[h], ws[i].store, t)
  {
    RunDisciplined(c, hosts, ws, es, i);
    RunStaysClear(c, hosts, ws, es, i, h);
    var p := ws[i].procs[h];
    assert Disciplined(c, p) && BelongsTo(t, p.stage) && TaskInRange(p.track, t);
    if t.Write? || t.Mark? {
      RunJobOnTrack(c, hosts, ws, es, i, h, t.i);
      JobTaskReady(c, hosts, ws[0].store, ws[i], h, t);
    } else {
      assert IsDeletion(hosts, h, t.i, hosts[h].delete[t.i].name);
      RunDeletionOnTrack(c, hosts, ws, es, i, h, t.i);
      DeletionTaskReady(c, hosts, ws[i], h, t);
    }
  }

  /** A cloud call may always succeed, and then take every doomed identity. */
  function Asked(t: Track, ids: set<string>): set<string> {
    ids - Doomed(t) + (Added(t) - Doomed(t))
  }

  /** The cloud call of the step, if it is one, takes every doomed identity. */
  predicate TakesDoomed(p: Proc, ids: set<string>, mv: Move) {
    mv.Call? ==> mv.after == Asked(p.track, ids)
  }

  lemma HostSucceeds(c: Config, p: Proc, ids: set<string>, store: AssignedMap) returns (mv: Move)
    requires c.batch >= 1 && Disciplined(c, p) && Clear(p.stage) && !p.stage.Stopped?
    requires forall t :: t in p.flight ==> TaskReady(p, store, t)
    ensures CanMove(c, p, ids, store, mv) && Succeeds(mv) && TakesDoomed(p, ids, mv)
  {
    if IsLoop(p.stage) {
      if p.flight != {} {
        var t :| t in p.flight;
        mv := Finish(t, true, true);
      } else {
        mv := if p.next < |Items(p)| then Spawn else Barrier;
      }
    } else if p.stage.Calling? {
      mv := Call(true, Asked(p.track, ids), false);
    } else {
      mv := Clean(true);
    }
  }

  /** As long as nothing has failed, every host that has not stopped has a step that does not fail either. */
  lemma SuccessPossible(c: Config, hosts: map<HostKey, Track>, ws: seq<World>, es: seq<Event>, i: nat, h: HostKey)
    returns (mv: Move)
    requires c.batch >= 1 && Run(c, ws, es) && Initial(c, ws[0], hosts) && NoFailures(es) && i < |ws| && h in hosts
    requires Prepared(hosts, ws[0].store) && Fits(hosts, ws[0].store)
    requires h in ws[i].procs && !ws[i].procs[h].stage.Stopped?
    ensures Enabled(c, ws[i], h, mv) && Succeeds(mv) && TakesDoomed(ws[i].procs[h], ws[i].cloud[h], mv)
  {
    RunDisciplined(c, hosts, ws, es, i);
    RunStaysClear(c, hosts, ws, es, i, h);
    forall t | t in ws[i].procs[h].flight
      ensures TaskReady(ws[i].procs[h], ws[i].store, t)
    {
      RunTaskReady(c, hosts, ws, es, i, h, t);
    }
    mv := HostSucceeds(c, ws[i].procs[h], ws[i].cloud[h], ws[i].store);
  }

  function Retires(p: Proc): set<Task> {
    set t | t in p.flight && t.Retire?
  }

  /** An upper bound on the steps a host still takes. */
  function Remaining(p: Proc): int {
    var jobs, dels := |Jobs(p.track)|, |p.track.delete|;
    match p.stage
    case Writing => 2 * (jobs - p.next) + |p.flight| + 2 * jobs + 3 * dels + 4
    case Calling => 2 * jobs + 3 * dels + 3
    case Marking => 2 * (jobs - p.next) + |p.flight| + 3 * dels + 2
    case Deleting => 3 * (dels - p.next) + |p.flight| + |Retires(p)| + 1
    case Recovering(_) => jobs - p.next + dels + 2
    case Pruning(_) => dels - p.next + 1
    case Cleaning => dels - p.next + 1
    case Stopped => 0
  }

  lemma SpawnShrinks(c: Config, p: Proc)
    requires Disciplined(c, p) && IsLoop(p.stage) && p.next < |Items(p)|
    ensures Remaining(MoveProc(c, p, Spawn)) < Remaining(p)
  {
    var t, q := TaskFor(p.stage, p.next), MoveProc(c, p, Spawn);
    assert t !in p.flight;
    assert |p.flight + {t}| == |p.flight| + 1;
    if p.stage.Deleting? {
      assert Retires(q) == Retires(p) + {t} && t !in Retires(p);
    }
  }

  /** A finished goroutine leaves, or goes on from marking to deleting. */
  lemma FinishLeaves(p: Proc, t: Task)
    requires t in p.flight && (forall u :: u in p.flight && u.Drop? ==> Retire(u.i) !in p.flight)
    ensures |p.flight - {t}| == |p.flight| - 1
    ensures t.Retire? ==> Retires(p) - {t} < Retires(p) && |Retires(p) - {t}| == |Retires(p)| - 1
    ensures t.Retire? ==> |p.flight - {t} + {Drop(t.i)}| == |p.flight|
  {
    if t.Retire? {
      assert t in Retires(p);
      assert Drop(t.i) !in p.flight - {t};
    }
  }

  lemma RetiresAfter(c: Config, p: Proc, t: Task, ok: bool, took: bool)
    requires t in p.flight && TaskInRange(p.track, t)
    ensures Retires(MoveProc(c, p, Finish(t, ok, took))) == Retires(p) - {t}
    ensures !t.Retire? ==> Retires(p) - {t} == Retires(p)
  {
    var flight := MoveProc(c, p, Finish(t, ok, took)).flight;
    assert forall u: Task :: u.Retire? ==> (u in flight <==> u in p.flight && u != t);
  }

  lemma FinishShrinks(c: Config, p: Proc, t: Task, ok: bool, took: bool)
    requires Disciplined(c, p) && t in p.flight
    ensures TaskInRange(p.track, t) && Remaining(MoveProc(c, p, Finish(t, ok, took))) < Remaining(p)
  {
    assert BelongsTo(t, p.stage) && TaskInRange(p.track, t);
    FinishLeaves(p, t);
    RetiresAfter(c, p, t, ok, took);
    var q := MoveProc(c, p, Finish(t, ok, took));
    assert q.stage == p.stage && q.next == p.next && q.track == p.track;
    assert if t.Retire? && ok then |q.flight| == |p.flight| else |q.flight| == |p.flight| - 1;
  }

  lemma MoveShrinks(c: Config, p: Proc, ids: set<string>, store: AssignedMap, mv: Move)
    requires c.batch >= 0 && Disciplined(c, p) && CanMove(c, p, ids, store, mv)
    ensures Remaining(MoveProc(c, p, mv)) < Remaining(p)
  {
    match mv {
      case Spawn => SpawnShrinks(c, p);
      case Finish(t, ok, took) => FinishShrinks(c, p, t, ok, took);
      case Barrier =>
        BarrierDisciplined(c, p);
        assert Retires(MoveProc(c, p, Barrier)) == {};
      case Call(_, _, _) =>
        assert p.flight == {};
      case _ =>
    }
  }

  ghost function StepsOf(es: seq<Event>, h: HostKey): nat {
    if es == [] then 0 else StepsOf(es[..|es| - 1], h) + (if es[|es| - 1].host == h then 1 else 0)
  }

  /** Every run of a cycle ends: a host takes at most so many steps, whatever fails. */
  lemma {:induction false} StepsBounded(c: Config, hosts: map<HostKey, Track>, ws: seq<World>, es: seq<Event>, i: nat,
                                        h: HostKey)
    requires c.batch >= 0 && Run(c, ws, es) && Initial(c, ws[0], hosts) && i < |ws| && h in hosts
    ensures h in ws[i].procs && Remaining(ws[i].procs[h]) >= 0
    ensures StepsOf(es[..i], h) + Remaining(ws[i].procs[h]) <= 4 * |Jobs(hosts[h])| + 3 * |hosts[h].delete| + 4
  {
    if i == 0 {
      RemainingAtLeastZero(c, hosts, ws, es, 0, h);
    } else {
      StepsBounded(c, hosts, ws, es, i - 1, h);
      RemainingAtLeastZero(c, hosts, ws, es, i, h);
      StepShrinks(c, hosts, ws, es, i - 1, h);
      assert es[..i][..i - 1] == es[..i - 1];
    }
  }

  lemma RemainingAtLeastZero(c: Config, hosts: map<HostKey, Track>, ws: seq<World>, es: seq<Event>, i: nat, h: HostKey)
    requires c.batch >= 0 && Run(c, ws, es) && Initial(c, ws[0], hosts) && i < |ws| && h in hosts
    ensures h in ws[i].procs && Remaining(ws[i].procs[h]) >= 0
  {
    RunDisciplined(c, hosts, ws, es, i);
    assert Disciplined(c, ws[i].procs[h]);
  }

  lemma StepShrinks(c: Config, hosts: map<HostKey, Track>, ws: seq<World>, es: seq<Event>, i: nat, h: HostKey)
    requires c.batch >= 0 && Run(c, ws, es) && Initial(c, ws[0], hosts) && i < |es| && h in hosts
    ensures h in ws[i].procs && h in ws[i + 1].procs
    ensures Remaining(ws[i + 1].procs[h]) + (if es[i].host == h then 1 else 0) <= Remaining(ws[i].procs[h])
  {
    RunDisciplined(c, hosts, ws, es, i);
    assert At(i);
    if es[i].host == h {
      MoveShrinks(c, ws[i].procs[h], ws[i].cloud[h], ws[i].store, es[i].move);
    }
  }

  // -------------------------------------------------- a run without failures exists

  /** The cloud set of a host of a run without failures whose calls take every doomed identity. */
  predicate CloudTaken(h: HostKey, p: Proc, start: set<string>, ids: set<string>) {
    var called := p.stage.Marking? || p.stage.Deleting? || (p.stage.Stopped? && !h.Gone?);
    ids == if called then Asked(p.track, start) else start
  }

  lemma MoveTaken(c: Config, h: HostKey, p: Proc, start: set<string>, ids: set<string>, store: AssignedMap, mv: Move)
    requires CloudTaken(h, p, start, ids) && OnCleanPath(h, p.stage) && Disciplined(c, p)
    requires CanMove(c, p, ids, store, mv) && Succeeds(mv) && TakesDoomed(p, ids, mv)
    ensures CloudTaken(h, MoveProc(c, p, mv), start, MoveCloud(ids, mv))
  {
  }

  ghost predicate AllTaken(start: World, w: World) {
    forall h :: h in w.procs ==>
      h in start.cloud && h in w.cloud && CloudTaken(h, w.procs[h], start.cloud[h], w.cloud[h])
  }

  /** A run of the cycle that starts in `w`, has not failed yet and takes every doomed identity. */
  ghost predicate CleanSoFar(c: Config, hosts: map<HostKey, Track>, w: World, ws: seq<World>, es: seq<Event>) {
    Run(c, ws, es) && ws[0] == w && Initial(c, w, hosts) && NoFailures(es) && AllTaken(w, ws[|es|])
  }

  lemma RunExtended(c: Config, ws: seq<World>, es: seq<Event>, h: HostKey, mv: Move)
    requires Run(c, ws, es) && Enabled(c, ws[|es|], h, mv)
    ensures Run(c, ws + [Step(c, ws[|es|], h, mv)], es + [Event(h, mv)])
  {
    var ws', es' := ws + [Step(c, ws[|es|], h, mv)], es + [Event(h, mv)];
    forall i {:trigger At(i)} | 0 <= i < |es'| && At(i)
      ensures Enabled(c, ws'[i], es'[i].host, es'[i].move) && ws'[i + 1] == Step(c, ws'[i], es'[i].host, es'[i].move)
    {
      if i < |es| {
        assert At(i) && ws'[i] == ws[i] && ws'[i + 1] == ws[i + 1] && es'[i] == es[i];
      }
    }
  }

  ghost predicate SameBut(w: World, w': World, h: HostKey) {
    w'.procs.Keys == w.procs.Keys && forall g :: g in w.procs && g != h ==> w'.procs[g] == w.procs[g]
  }

  ghost predicate StoppedBut(w: World, todo: set<HostKey>) {
    todo <= w.procs.Keys && forall h :: h in w.procs && h !in todo ==> w.procs[h].stage.Stopped?
  }

  lemma StoppedMore(w: World, w': World, todo: set<HostKey>, h: HostKey)
    requires StoppedBut(w, todo) && SameBut(w, w', h) && h in todo && h in w'.procs && w'.procs[h].stage.Stopped?
    ensures StoppedBut(w', todo - {h})
  {
  }

  lemma HostStepShrinks(c: Config, hosts: map<HostKey, Track>, w: World, h: HostKey, mv: Move)
    requires c.batch >= 0 && Tracks(w, hosts) && AllDisciplined(c, w) && Enabled(c, w, h, mv)
    ensures var w' := Step(c, w, h, mv); SameBut(w, w', h) && Remaining(w'.procs[h]) < Remaining(w.procs[h])
  {
    MoveShrinks(c, w.procs[h], w.cloud[h], w.store, mv);
  }

  lemma StepTakes(c: Config, start: World, w: World, h: HostKey, mv: Move)
    requires AllTaken(start, w) && Enabled(c, w, h, mv) && Succeeds(mv) && OnCleanPath(h, w.procs[h].stage)
    requires Disciplined(c, w.procs[h]) && TakesDoomed(w.procs[h], w.cloud[h], mv)
    ensures AllTaken(start, Step(c, w, h, mv))
  {
    MoveTaken(c, h, w.procs[h], start.cloud[h], w.cloud[h], w.store, mv);
  }

  lemma LastWorld(c: Config, hosts: map<HostKey, Track>, ws: seq<World>, es: seq<Event>, h: HostKey)
    requires c.batch >= 0 && Run(c, ws, es) && Initial(c, ws[0], hosts) && NoFailures(es) && h in hosts
    ensures Tracks(ws[|es|], hosts) && AllDisciplined(c, ws[|es|]) && OnCleanPath(h, ws[|es|].procs[h].stage)
  {
    RunDisciplined(c, hosts, ws, es, |es|);
    RunStaysClear(c, hosts, ws, es, |es|, h);
  }

  lemma CleanExtended(c: Config, hosts: map<HostKey, Track>, w: World, ws: seq<World>, es: seq<Event>, h: HostKey,
                      mv: Move)
    requires CleanSoFar(c, hosts, w, ws, es) && Enabled(c, ws[|es|], h, mv) && Succeeds(mv)
    requires Disciplined(c, ws[|es|].procs[h]) && OnCleanPath(h, ws[|es|].procs[h].stage)
    requires TakesDoomed(ws[|es|].procs[h], ws[|es|].cloud[h], mv)
    ensures CleanSoFar(c, hosts, w, ws + [Step(c, ws[|es|], h, mv)], es + [Event(h, mv)])
  {
    RunExtended(c, ws, es, h, mv);
    StepTakes(c, w, ws[|es|], h, mv);
    var es' := es + [Event(h, mv)];
    forall i | 0 <= i < |es'|
      ensures Succeeds(es'[i].move)
    {
      assert i < |es| ==> es'[i] == es[i];
    }
  }

  lemma StepTaken(c: Config, hosts: map<HostKey, Track>, w: World, ws: seq<World>, es: seq<Event>, h: HostKey, mv: Move)
    returns (ws': seq<World>, es': seq<Event>)
    requires c.batch >= 0 && CleanSoFar(c, hosts, w, ws, es) && h in hosts
    requires Enabled(c, ws[|es|], h, mv) && Succeeds(mv) && TakesDoomed(ws[|es|].procs[h], ws[|es|].cloud[h], mv)
    ensures CleanSoFar(c, hosts, w, ws', es') && SameBut(ws[|es|], ws'[|es'|], h)
    ensures 0 <= Remaining(ws'[|es'|].procs[h]) < Remaining(ws[|es|].procs[h])
  {
    ws', es' := ws + [Step(c, ws[|es|], h, mv)], es + [Event(h, mv)];
    LastWorld(c, hosts, ws, es, h);
    CleanExtended(c, hosts, w, ws, es, h, mv);
    HostStepShrinks(c, hosts, ws[|es|], h, mv);
    RemainingAtLeastZero(c, hosts, ws', es', |es'|, h);
  }

  /** One more step of host `h`. */
  lemma RunHostOnce(c: Config, hosts: map<HostKey, Track>, w: World, ws: seq<World>, es: seq<Event>, h: HostKey)
    returns (ws': seq<World>, es': seq<Event>)
    requires c.batch >= 1 && CleanSoFar(c, hosts, w, ws, es) && Prepared(hosts, w.store) && Fits(hosts, w.store)
    requires h in hosts && h in ws[|es|].procs && !ws[|es|].procs[h].stage.Stopped?
    ensures CleanSoFar(c, hosts, w, ws', es') && SameBut(ws[|es|], ws'[|es'|], h)
    ensures 0 <= Remaining(ws'[|es'|].procs[h]) < Remaining(ws[|es|].procs[h])
  {
    var mv := SuccessPossible(c, hosts, ws, es, |es|, h);
    ws', es' := StepTaken(c, hosts, w, ws, es, h, mv);
  }

  /** Running host `h` alone to its end. */
  lemma {:induction false} RunHost(c: Config, hosts: map<HostKey, Track>, w: World, ws: seq<World>, es: seq<Event>,
                                   h: HostKey) returns (ws': seq<World>, es': seq<Event>)
    requires c.batch >= 1 && CleanSoFar(c, hosts, w, ws, es) && Prepared(hosts, w.store) && Fits(hosts, w.store)
    requires h in hosts && h in ws[|es|].procs
    ensures CleanSoFar(c, hosts, w, ws', es') && h in ws'[|es'|].procs && ws'[|es'|].procs[h].stage.Stopped?
    ensures SameBut(ws[|es|], ws'[|es'|], h)
    decreases Remaining(ws[|es|].procs[h])
  {
    if ws[|es|].procs[h].stage.Stopped? {
      ws', es' := ws, es;
    } else {
      var ws1, es1 := RunHostOnce(c, hosts, w, ws, es, h);
      ws', es' := RunHost(c, hosts, w, ws1, es1, h);
    }
  }

  /** Running the hosts of `todo` to their ends, one after the other. */
  lemma {:induction false} RunHosts(c: Config, hosts: map<HostKey, Track>, w: World, ws: seq<World>, es: seq<Event>,
                                    todo: set<HostKey>) returns (ws': seq<World>, es': seq<Event>)
    requires c.batch >= 1 && CleanSoFar(c, hosts, w, ws, es) && Prepared(hosts, w.store) && Fits(hosts, w.store)
    requires todo <= hosts.Keys && StoppedBut(ws[|es|], todo)
    ensures CleanSoFar(c, hosts, w, ws', es') && AllStopped(ws'[|es'|])
    decreases todo
  {
    if todo == {} {
      ws', es' := ws, es;
    } else {
      var h :| h in todo;
      var ws1, es1 := RunHost(c, hosts, w, ws, es, h);
      StoppedMore(ws[|es|], ws1[|es1|], todo, h);
      ws', es' := RunHosts(c, hosts, w, ws1, es1, todo - {h});
    }
  }

  /** From every start of a prepared cycle there is a run in which nothing fails, every host stops, and everything
      doomed has been taken. */
  lemma CleanRunExists(c: Config, hosts: map<HostKey, Track>, w: World) returns (ws: seq<World>, es: seq<Event>)
    requires c.batch >= 1 && Initial(c, w, hosts) && Prepared(hosts, w.store) && Fits(hosts, w.store)
    ensures CleanSoFar(c, hosts, w, ws, es) && AllStopped(ws[|es|])
    ensures forall h :: h in hosts && !h.Gone? ==>
      h in ws[|es|].cloud && h in w.cloud && ws[|es|].cloud[h] == Asked(hosts[h], w.cloud[h])
  {
    ws, es := RunHosts(c, hosts, w, [w], [], hosts.Keys);
    RunDisciplined(c, hosts, ws, es, |es|);
  }

  /** World `v` occurs in the run at position `i`. */
  ghost predicate Passes(c: Config, w: World, v: World, ws: seq<World>, es: seq<Event>, i: int) {
    Run(c, ws, es) && ws[0] == w && 0 <= i < |ws| && ws[i] == v
  }

  /** Some run from `w` reaches world `v`. */
  ghost predicate Reaches(c: Config, w: World, v: World) {
    exists ws: seq<World>, es: seq<Event>, i: int :: Passes(c, w, v, ws, es, i)
  }

  /** In every run from `w`, at every point, identity `id` is on host `h`. */
  ghost predicate AlwaysOn(c: Config, w: World, h: HostKey, id: string) {
    forall v :: Reaches(c, w, v) ==> h in v.cloud && id in v.cloud[h]
  }

  /** Removal safety, exactly: an identity of a host stays through every run if and only if it is not doomed. */
  lemma StaysIffNotDoomed(c: Config, hosts: map<HostKey, Track>, w: World, h: HostKey, id: string)
    requires c.batch >= 1 && Initial(c, w, hosts) && Prepared(hosts, w.store) && Fits(hosts, w.store)
    requires h in hosts && !h.Gone? && h in w.cloud && id in w.cloud[h]
    ensures AlwaysOn(c, w, h, id) <==> id !in Doomed(hosts[h])
  {
    if id in Doomed(hosts[h]) {
      var ws, es := CleanRunExists(c, hosts, w);
      assert Passes(c, w, ws[|es|], ws, es, |es|);
      assert id !in ws[|es|].cloud[h];
    } else {
      forall v | Reaches(c, w, v)
        ensures h in v.cloud && id in v.cloud[h]
      {
        var ws: seq<World>, es: seq<Event>, i: int :| Passes(c, w, v, ws, es, i);
        OnlyDoomedIsRemoved(c, hosts, ws, es, i, h);
        RunDisciplined(c, hosts, ws, es, i);
      }
    }
  }

  /** Without failures, a job that has left its write behind has written its record. */
  ghost predicate WriteCounted(p: Proc, j: nat) {
    j < |Jobs(p.track)| && (JobPhase(p, j) >= 1 ==> Written(p, j))
  }

  lemma MoveWriteCounted(c: Config, p: Proc, ids: set<string>, store: AssignedMap, mv: Move, j: nat)
    requires c.batch >= 0 && Disciplined(c, p) && CanMove(c, p, ids, store, mv) && Succeeds(mv)
    requires Clear(p.stage) && WriteCounted(p, j)
    ensures WriteCounted(MoveProc(c, p, mv), j)
  {
    MoveJobPhase(c, p, ids, store, mv, j);
  }

  lemma WriteCountedNext(c: Config, hosts: map<HostKey, Track>, ws: seq<World>, es: seq<Event>, i: nat, h: HostKey,
                         j: nat)
    requires c.batch >= 0 && Run(c, ws, es) && Initial(c, ws[0], hosts) && NoFailures(es) && i < |es| && h in hosts
    requires h in ws[i].procs && WriteCounted(ws[i].procs[h], j)
    ensures h in ws[i + 1].procs && WriteCounted(ws[i + 1].procs[h], j)
  {
    StepAt(c, hosts, ws, es, i, h);
    RunStaysClear(c, hosts, ws, es, i, h);
    if es[i].host == h {
      MoveWriteCounted(c, ws[i].procs[h], ws[i].cloud[h], ws[i].store, es[i].move, j);
    }
  }

  lemma {:induction false} RunWriteCounted(c: Config, hosts: map<HostKey, Track>, ws: seq<World>, es: seq<Event>,
                                           i: nat,
                                           h: HostKey, j: nat)
    requires c.batch >= 0 && Run(c, ws, es) && Initial(c, ws[0], hosts) && NoFailures(es) && i < |ws|
    requires h in hosts && !h.Gone? && j < |Jobs(hosts[h])|
    ensures h in ws[i].procs && WriteCounted(ws[i].procs[h], j)
  {
    if i > 0 {
      RunWriteCounted(c, hosts, ws, es, i - 1, h, j);
      WriteCountedNext(c, hosts, ws, es, i - 1, h, j);
    }
  }

  /** World `w` does not have the record of job `j` written by this cycle and Assigned without its identity. */
  ghost predicate MarkedRight(w: World, h: HostKey, j: nat) {
    h in w.procs && h in w.cloud && j < |Jobs(w.procs[h].track)| && Written(w.procs[h], j) ==>
      var r := Jobs(w.procs[h].track)[j];
      r.name in w.store && w.store[r.name].status == Assigned ==> OnHost(r, w.cloud[h])
  }

  ghost predicate AlwaysMarkedRight(c: Config, w: World, h: HostKey, j: nat) {
    forall v :: Reaches(c, w, v) ==> MarkedRight(v, h, j)
  }

  /** Marking soundness, exactly: no run marks the record of an MSI job wrongly if and only if its identity is
      undisputed. */
  lemma MarkedRightIff(c: Config, hosts: map<HostKey, Track>, w: World, h: HostKey, j: nat)
    requires c.batch >= 1 && Initial(c, w, hosts) && Prepared(hosts, w.store) && Fits(hosts, w.store)
    requires h in hosts && !h.Gone? && j < |Jobs(hosts[h])| && Jobs(hosts[h])[j].IsMSI()
    ensures AlwaysMarkedRight(c, w, h, j) <==> Undisputed(hosts[h], Jobs(hosts[h])[j])
  {
    if Undisputed(hosts[h], Jobs(hosts[h])[j]) {
      forall v | Reaches(c, w, v)
        ensures MarkedRight(v, h, j)
      {
        var ws: seq<World>, es: seq<Event>, i: int :| Passes(c, w, v, ws, es, i);
        UndisputedMarkedRight(c, hosts, ws, es, i, h, j);
      }
    } else {
      var v := DisputedMarkedWrong(c, hosts, w, h, j);
    }
  }

  lemma DisputedMarkedWrong(c: Config, hosts: map<HostKey, Track>, w: World, h: HostKey, j: nat) returns (v: World)
    requires c.batch >= 1 && Initial(c, w, hosts) && Prepared(hosts, w.store) && Fits(hosts, w.store)
    requires h in hosts && !h.Gone? && j < |Jobs(hosts[h])| && !Undisputed(hosts[h], Jobs(hosts[h])[j])
    ensures Reaches(c, w, v) && !MarkedRight(v, h, j)
  {
    var ws, es := CleanRunExists(c, hosts, w);
    v := ws[|es|];
    assert Passes(c, w, v, ws, es, |es|);
    CleanRunWrites(c, hosts, ws, es, h, j);
  }

  /** What a clean run leaves of a job. */
  lemma CleanRunWrites(c: Config, hosts: map<HostKey, Track>, ws: seq<World>, es: seq<Event>, h: HostKey, j: nat)
    requires c.batch >= 0 && Run(c, ws, es) && Initial(c, ws[0], hosts) && Prepared(hosts, ws[0].store)
    requires NoFailures(es) && AllStopped(ws[|es|]) && h in hosts && !h.Gone? && j < |Jobs(hosts[h])|
    ensures var (v, r) := (ws[|es|], Jobs(hosts[h])[j]);
      && h in v.procs && v.procs[h].track == hosts[h] && Written(v.procs[h], j)
      && r.name in v.store && v.store[r.name].status == Assigned
  {
    FinishedJobIsAssigned(c, hosts, ws, es, h, j);
    RunWriteCounted(c, hosts, ws, es, |es|, h, j);
    RunDisciplined(c, hosts, ws, es, |es|);
  }

  lemma UndisputedMarkedRight(c: Config, hosts: map<HostKey, Track>, ws: seq<World>, es: seq<Event>, i: nat, h: HostKey,
                              j: nat)
    requires c.batch >= 0 && Run(c, ws, es) && Initial(c, ws[0], hosts) && Prepared(hosts, ws[0].store) && i < |ws|
    requires h in hosts && j < |Jobs(hosts[h])| && Jobs(hosts[h])[j].IsMSI() && Undisputed(hosts[h], Jobs(hosts[h])[j])
    ensures MarkedRight(ws[i], h, j)
  {
    RunDisciplined(c, hosts, ws, es, i);
    if Written(ws[i].procs[h], j) {
      MarkedIsAssigned(c, hosts, ws, es, i, h, j);
    }
  }

  // ------------------------------------------- the cloud after a run without failures

  /** Without failures, the cloud set of an existing host is untouched before its call and as asked afterwards. */
  ghost predicate CleanCloud(h: HostKey, p: Proc, start: set<string>, ids: set<string>) {
    if p.stage.Marking? || p.stage.Deleting? || (p.stage.Stopped? && !h.Gone?) then AsAsked(p.track, start, ids)
    else ids == start
  }

  lemma MoveCleanCloud(c: Config, h: HostKey, p: Proc, start: set<string>, ids: set<string>, store: AssignedMap,
                       mv: Move)
    requires CleanCloud(h, p, start, ids) && OnCleanPath(h, p.stage) && Disciplined(c, p)
    requires CanMove(c, p, ids, store, mv) && Succeeds(mv)
    ensures CleanCloud(h, MoveProc(c, p, mv), start, MoveCloud(ids, mv))
  {
  }

  lemma CleanCloudNext(c: Config, hosts: map<HostKey, Track>, ws: seq<World>, es: seq<Event>, i: nat, h: HostKey,
                       start: set<string>)
    requires c.batch >= 0 && Run(c, ws, es) && Initial(c, ws[0], hosts) && NoFailures(es) && i < |es| && h in hosts
    requires h in ws[i].procs && h in ws[i].cloud && CleanCloud(h, ws[i].procs[h], start, ws[i].cloud[h])
    ensures h in ws[i + 1].procs && h in ws[i + 1].cloud && CleanCloud(h, ws[i + 1].procs[h], start, ws[i + 1].cloud[h])
  {
    StepAt(c, hosts, ws, es, i, h);
    RunStaysClear(c, hosts, ws, es, i, h);
    assert At(i);
    if es[i].host == h {
      MoveCleanCloud(c, h, ws[i].procs[h], start, ws[i].cloud[h], ws[i].store, es[i].move);
    }
  }

  lemma {:induction false} RunCleanCloud(c: Config, hosts: map<HostKey, Track>, ws: seq<World>, es: seq<Event>, i: nat,
                                         h: HostKey)
    requires c.batch >= 0 && Run(c, ws, es) && Initial(c, ws[0], hosts) && NoFailures(es) && i < |ws| && h in hosts
    ensures h in ws[0].cloud && h in ws[i].procs && h in ws[i].cloud
    ensures CleanCloud(h, ws[i].procs[h], ws[0].cloud[h], ws[i].cloud[h])
  {
    if i > 0 {
      RunCleanCloud(c, hosts, ws, es, i - 1, h);
      CleanCloudNext(c, hosts, ws, es, i - 1, h, ws[0].cloud[h]);
    }
  }

  /** After every run without failures, an existing host has exactly the identities it is to have, but for disputed
      ones. */
  lemma FinishedCloud(c: Config, hosts: map<HostKey, Track>, ws: seq<World>, es: seq<Event>, h: HostKey)
    requires c.batch >= 0 && Run(c, ws, es) && Initial(c, ws[0], hosts) && NoFailures(es) && AllStopped(ws[|es|])
    requires h in hosts && !h.Gone?
    ensures h in ws[0].cloud && h in ws[|es|].cloud && AsAsked(hosts[h], ws[0].cloud[h], ws[|es|].cloud[h])
    ensures Compatible(Elements(hosts[h].add), Elements(hosts[h].remove)) ==>
      ws[|es|].cloud[h] == ws[0].cloud[h] - Doomed(hosts[h]) + Added(hosts[h])
  {
    RunCleanCloud(c, hosts, ws, es, |es|, h);
    RunDisciplined(c, hosts, ws, es, |es|);
    if Compatible(Elements(hosts[h].add), Elements(hosts[h].remove)) {
      AsAskedExact(hosts[h], ws[0].cloud[h], ws[|es|].cloud[h]);
    }
  }
}
