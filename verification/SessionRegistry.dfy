/**
  The registry of running and deleting chat sessions. Each section under the lock is one step;
  deletions, interrupts and cancel_all span several steps, between which any other actor may run.
*/
module SessionRegistry {
  import opened Outcomes

  type Session = string
  type RequestId = string
  type TaskId = nat

  datatype Attached = Attached(request: RequestId, task: TaskId)

  datatype Registry = Registry(running: map<Session, RequestId>, tasks: map<Session, Attached>, deleting: set<Session>)

  predicate Busy(g: Registry, s: Session) { s in g.running || s in g.deleting }

  // None: the session is already running or being deleted.
  function Start(g: Registry, s: Session, r: RequestId): Option<Registry> {
    if Busy(g, s) then None else Some(g.(running := g.running[s := r]))
  }

  // The existence callback runs under the lock; the flag says whether a run was started.
  function StartIfExists(g: Registry, s: Session, r: RequestId, present: bool): Option<(Registry, bool)> {
    if Busy(g, s) then None
    else if !present then Some((g, false))
    else Some((g.(running := g.running[s := r]), true))
  }

  // Without a request id whatever runs is finished; with one, only that run.
  function Finish(g: Registry, s: Session, r: Option<RequestId>): Registry {
    if s !in g.running || (r.Some? && g.running[s] != r.value) then g
    else g.(running := g.running - {s}, tasks := g.tasks - {s})
  }

  function Attach(g: Registry, s: Session, r: RequestId, t: TaskId): Registry {
    if s in g.running && g.running[s] == r then g.(tasks := g.tasks[s := Attached(r, t)]) else g
  }

  function BeginDelete(g: Registry, s: Session): Option<Registry> {
    if Busy(g, s) then None else Some(g.(deleting := g.deleting + {s}))
  }

  function EndDelete(g: Registry, s: Session): Registry { g.(deleting := g.deleting - {s}) }

  // ---- the actors ----

  datatype Entry = Entry(session: Session, request: RequestId, task: TaskId)

  // What an actor still has to do outside the lock: a delete callback, a task to cancel, or the
  // entries whose tasks cancel_all has stopped and whose runs it will finish.
  datatype Errand = DeleteCallback(session: Session) | CancelTask(entry: Entry) | FinishEntries(entries: seq<Entry>)

  datatype World = World(registry: Registry, errands: map<nat, Errand>, canceled: set<TaskId>, used: set<RequestId>,
      spawned: set<TaskId>)

  datatype Step =
    | StartStep(session: Session, request: RequestId)
    | StartIfExistsStep(session: Session, request: RequestId, present: bool)
    | FinishStep(session: Session, done: Option<RequestId>)
    | AttachStep(session: Session, request: RequestId, task: TaskId)
    | BeginDeleteStep(actor: nat, session: Session)
    | EndDeleteStep(actor: nat)
    | LookUpStep(actor: nat, session: Session)
    | CancelStep(actor: nat)
    | SnapshotStep(actor: nat, sessions: seq<Session>)
    | FinishNextStep(actor: nat)

  // cancel_all lists each attached session once.
  ghost predicate ListsTasks(g: Registry, sessions: seq<Session>) {
    && (forall s :: s in sessions <==> s in g.tasks)
    && (forall i, j :: 0 <= i < j < |sessions| ==> sessions[i] != sessions[j])
  }

  // Request ids and tasks are fresh; an actor runs one errand at a time.
  ghost predicate Enabled(w: World, step: Step) {
    match step
    case StartStep(_, r) => r !in w.used
    case StartIfExistsStep(_, r, _) => r !in w.used
    case FinishStep(_, _) => true
    case AttachStep(_, r, t) => t !in w.spawned
    case BeginDeleteStep(a, _) => a !in w.errands
    case EndDeleteStep(a) => a in w.errands && w.errands[a].DeleteCallback?
    case LookUpStep(a, _) => a !in w.errands
    case CancelStep(a) => a in w.errands && w.errands[a].CancelTask?
    case SnapshotStep(a, sessions) => a !in w.errands && ListsTasks(w.registry, sessions)
    case FinishNextStep(a) => a in w.errands && w.errands[a].FinishEntries?
  }

  function EntryOf(g: Registry, s: Session): Entry
    requires s in g.tasks
  {
    Entry(s, g.tasks[s].request, g.tasks[s].task)
  }

  function EntriesOf(g: Registry, sessions: seq<Session>): seq<Entry>
    requires forall i :: 0 <= i < |sessions| ==> sessions[i] in g.tasks
  {
    seq(|sessions|, i requires 0 <= i < |sessions| => EntryOf(g, sessions[i]))
  }

  function TasksOf(entries: seq<Entry>): set<TaskId> { set e | e in entries :: e.task }

  ghost function Next(w: World, step: Step): World
    requires Enabled(w, step)
  {
    var g := w.registry;
    match step
    case StartStep(s, r) =>
      var started := Start(g, s, r);
      if started.None? then w.(used := w.used + {r}) else w.(registry := started.value, used := w.used + {r})
    case StartIfExistsStep(s, r, present) =>
      var started := StartIfExists(g, s, r, present);
      if started.None? then w.(used := w.used + {r}) else w.(registry := started.value.0, used := w.used + {r})
    case FinishStep(s, r) => w.(registry := Finish(g, s, r))
    case AttachStep(s, r, t) => w.(registry := Attach(g, s, r, t), spawned := w.spawned + {t})
    case BeginDeleteStep(a, s) =>
      var begun := BeginDelete(g, s);
      if begun.None? then w else w.(registry := begun.value, errands := w.errands[a := DeleteCallback(s)])
    case EndDeleteStep(a) => w.(registry := EndDelete(g, w.errands[a].session), errands := w.errands - {a})
    case LookUpStep(a, s) => if s !in g.tasks then w else w.(errands := w.errands[a := CancelTask(EntryOf(g, s))])
    case CancelStep(a) => w.(canceled := w.canceled + {w.errands[a].entry.task}, errands := w.errands - {a})
    case SnapshotStep(a, sessions) =>
      var entries := EntriesOf(g, sessions);
      w.(errands := w.errands[a := FinishEntries(entries)], canceled := w.canceled + TasksOf(entries))
    case FinishNextStep(a) =>
      var entries := w.errands[a].entries;
      if entries == [] then w.(errands := w.errands - {a})
      else w.(registry := Finish(g, entries[0].session, Some(entries[0].request)),
          errands := w.errands[a := FinishEntries(entries[1..])])
  }

  // ---- the invariant ----

  predicate Consistent(g: Registry) {
    && (forall s :: s in g.running ==> s !in g.deleting)
    && (forall s :: s in g.tasks ==> s in g.running && g.tasks[s].request == g.running[s])
  }

  // A session is being deleted exactly while some callback for it runs, and then by one only.
  ghost predicate DeletesTracked(w: World) {
    && (forall a :: a in w.errands && w.errands[a].DeleteCallback? ==> w.errands[a].session in w.registry.deleting)
    && (forall s :: s in w.registry.deleting ==> Deleter(w, s))
    && (forall a, b :: (a in w.errands && b in w.errands && w.errands[a].DeleteCallback? && w.errands[b].DeleteCallback?
                        && w.errands[a].session == w.errands[b].session) ==> a == b)
  }

  ghost predicate Deleter(w: World, s: Session) {
    exists a :: a in w.errands && w.errands[a] == DeleteCallback(s)
  }

  ghost predicate RequestsUsed(w: World) {
    && (forall s :: s in w.registry.running ==> w.registry.running[s] in w.used)
    && (forall s, t :: s in w.registry.running && t in w.registry.running && w.registry.running[s] == w.registry.running[t] ==> s == t)
    && (forall s :: s in w.registry.tasks ==> w.registry.tasks[s].task in w.spawned)
    && (forall a :: a in w.errands && w.errands[a].CancelTask? ==>
        w.errands[a].entry.task in w.spawned && w.errands[a].entry.request in w.used)
    && (forall a :: a in w.errands && w.errands[a].FinishEntries? ==>
          forall e :: e in w.errands[a].entries ==> e.task in w.spawned && e.request in w.used)
    && w.canceled <= w.spawned
  }

  ghost predicate WorldOk(w: World) { Consistent(w.registry) && DeletesTracked(w) && RequestsUsed(w) }

  predicate RegistryStep(step: Step) {
    step.StartStep? || step.StartIfExistsStep? || step.FinishStep? || step.AttachStep?
  }

  lemma RegistryStepKeepsDeletes(w: World, step: Step)
    requires WorldOk(w) && Enabled(w, step) && RegistryStep(step)
    ensures Consistent(Next(w, step).registry) && DeletesTracked(Next(w, step))
  {
    var after := Next(w, step);
    assert after.errands == w.errands && after.registry.deleting == w.registry.deleting;
    forall s | s in after.registry.deleting ensures Deleter(after, s) {
      assert Deleter(w, s);
    }
  }

  lemma RegistryStepKeepsUsed(w: World, step: Step)
    requires WorldOk(w) && Enabled(w, step) && RegistryStep(step)
    ensures RequestsUsed(Next(w, step))
  {
  }

  lemma DeleteStepKeepsOk(w: World, step: Step)
    requires WorldOk(w) && Enabled(w, step) && (step.BeginDeleteStep? || step.EndDeleteStep?)
    ensures WorldOk(Next(w, step))
  {
    var after := Next(w, step);
    forall s | s in after.registry.deleting ensures Deleter(after, s) {
      if s in w.registry.deleting {
        assert Deleter(w, s);
        var a :| a in w.errands && w.errands[a] == DeleteCallback(s);
        assert a in after.errands && after.errands[a] == DeleteCallback(s);
      } else {
        assert after.errands[step.actor] == DeleteCallback(s);
      }
    }
  }

  predicate ErrandStep(step: Step) {
    step.LookUpStep? || step.CancelStep? || step.SnapshotStep? || step.FinishNextStep?
  }

  lemma {:induction false} ErrandStepKeepsDeletes(w: World, step: Step)
    requires WorldOk(w) && Enabled(w, step) && ErrandStep(step)
    ensures Consistent(Next(w, step).registry) && DeletesTracked(Next(w, step))
  {
    var after := Next(w, step);
    forall s | s in after.registry.deleting ensures Deleter(after, s) {
      assert Deleter(w, s);
      var a :| a in w.errands && w.errands[a] == DeleteCallback(s);
      assert a in after.errands && after.errands[a] == DeleteCallback(s);
    }
  }

  lemma {:induction false} ErrandStepKeepsUsed(w: World, step: Step)
    requires Consistent(w.registry) && RequestsUsed(w) && Enabled(w, step) && ErrandStep(step)
    ensures RequestsUsed(Next(w, step))
  {
  }

  // Every step keeps running and deleting apart and tasks with their current run.
  lemma StepKeepsWorldOk(w: World, step: Step)
    requires WorldOk(w) && Enabled(w, step)
    ensures WorldOk(Next(w, step))
  {
    if RegistryStep(step) {
      RegistryStepKeepsDeletes(w, step);
      RegistryStepKeepsUsed(w, step);
    } else if step.BeginDeleteStep? || step.EndDeleteStep? {
      DeleteStepKeepsOk(w, step);
    } else {
      ErrandStepKeepsDeletes(w, step);
      ErrandStepKeepsUsed(w, step);
    }
  }

  // ---- what it gives ----

  const EMPTY_WORLD := World(Registry(map[], map[], {}), map[], {}, {}, {})

  ghost predicate StepAt(worlds: seq<World>, steps: seq<Step>, k: nat)
    requires |worlds| == |steps| + 1 && k < |steps|
  {
    Enabled(worlds[k], steps[k]) && worlds[k + 1] == Next(worlds[k], steps[k])
  }

  ghost predicate Schedule(worlds: seq<World>, steps: seq<Step>) {
    && |worlds| == |steps| + 1 && worlds[0] == EMPTY_WORLD
    && forall k :: 0 <= k < |steps| ==> StepAt(worlds, steps, k)
  }

  lemma {:induction false} OkInEverySchedule(worlds: seq<World>, steps: seq<Step>, k: nat)
    requires Schedule(worlds, steps) && k <= |steps|
    ensures WorldOk(worlds[k])
  {
    if k > 0 {
      OkInEverySchedule(worlds, steps, k - 1);
      assert StepAt(worlds, steps, k - 1);
      StepKeepsWorldOk(worlds[k - 1], steps[k - 1]);
    }
  }

  /**
    From the step that begins a deletion to the one that ends it, whatever other actors do, the
    session stays marked and does not run.
  */
  lemma {:induction false} NoRunDuringDelete(worlds: seq<World>, steps: seq<Step>, a: nat, s: Session, i: nat, n: nat)
    requires Schedule(worlds, steps) && i < n <= |steps|
    requires steps[i] == BeginDeleteStep(a, s) && !Busy(worlds[i].registry, s)
    requires forall k :: i < k < n ==> steps[k] != EndDeleteStep(a)
    ensures a in worlds[n].errands && worlds[n].errands[a] == DeleteCallback(s)
    ensures s in worlds[n].registry.deleting && s !in worlds[n].registry.running
    decreases n
  {
    OkInEverySchedule(worlds, steps, n);
    assert StepAt(worlds, steps, n - 1);
    if i < n - 1 {
      NoRunDuringDelete(worlds, steps, a, s, i, n - 1);
    }
  }

  // A finish of exactly this run: by its request or by none, or by a cancel_all that listed it.
  predicate FinishesRun(w: World, step: Step, s: Session, r: RequestId) {
    || (step.FinishStep? && step.session == s && (step.done.None? || step.done.value == r))
    || (step.FinishNextStep? && step.actor in w.errands && w.errands[step.actor].FinishEntries?
        && w.errands[step.actor].entries != []
        && w.errands[step.actor].entries[0].session == s && w.errands[step.actor].entries[0].request == r)
  }

  lemma OnlyOwnFinishRemoves(w: World, step: Step, s: Session)
    requires WorldOk(w) && Enabled(w, step) && s in w.registry.running
        && !FinishesRun(w, step, s, w.registry.running[s])
    ensures s in Next(w, step).registry.running && Next(w, step).registry.running[s] == w.registry.running[s]
  {
  }

  /**
    A run that has left the registry, or was replaced by a newer one, was finished under its own
    request in between: a stale finish never removes it.
  */
  lemma {:induction false} RemovedByOwnFinish(worlds: seq<World>, steps: seq<Step>, s: Session, r: RequestId, k: nat,
      n: nat) returns (i: nat)
    requires Schedule(worlds, steps) && k <= n <= |steps|
    requires s in worlds[k].registry.running && worlds[k].registry.running[s] == r
    requires s !in worlds[n].registry.running || worlds[n].registry.running[s] != r
    ensures k <= i < n && FinishesRun(worlds[i], steps[i], s, r)
    decreases n
  {
    var w := worlds[n - 1];
    OkInEverySchedule(worlds, steps, n - 1);
    assert StepAt(worlds, steps, n - 1);
    if s in w.registry.running && w.registry.running[s] == r {
      if !FinishesRun(w, steps[n - 1], s, r) {
        OnlyOwnFinishRemoves(w, steps[n - 1], s);
      }
      i := n - 1;
    } else {
      i := RemovedByOwnFinish(worlds, steps, s, r, k, n - 1);
    }
  }

  // ---- what one step changes ----

  predicate Idle(w: World, s: Session) { s !in w.registry.running && s !in w.registry.deleting }

  predicate RunsAs(w: World, s: Session, r: RequestId) { s in w.registry.running && w.registry.running[s] == r }

  predicate HasTask(w: World, s: Session, r: RequestId, t: TaskId) {
    s in w.registry.tasks && w.registry.tasks[s] == Attached(r, t)
  }

  predicate AsksToRun(step: Step, s: Session, r: RequestId) {
    step == StartStep(s, r) || step == StartIfExistsStep(s, r, true)
  }

  predicate EndsDeletion(w: World, step: Step, s: Session) {
    step.EndDeleteStep? && step.actor in w.errands && w.errands[step.actor] == DeleteCallback(s)
  }

  predicate AttachesTask(w: World, step: Step, s: Session) {
    step.AttachStep? && step.session == s && RunsAs(w, s, step.request)
  }

  /**
    A session runs after a step exactly when the step starts it while it is idle, or it ran before
    and the step does not finish it.
  */
  lemma {:induction false} RunDecides(w: World, step: Step, s: Session, r: RequestId)
    requires WorldOk(w) && Enabled(w, step)
    ensures RunsAs(Next(w, step), s, r) <==>
        (RunsAs(w, s, r) && !FinishesRun(w, step, s, r)) || (Idle(w, s) && AsksToRun(step, s, r))
  {
  }

  /** It is marked exactly from a deletion begun while it is idle to the end of that deletion. */
  lemma {:induction false} MarkDecides(w: World, step: Step, s: Session)
    requires WorldOk(w) && Enabled(w, step)
    ensures s in Next(w, step).registry.deleting <==>
      || (s in w.registry.deleting && !EndsDeletion(w, step, s))
      || (Idle(w, s) && step.BeginDeleteStep? && step.session == s)
  {
  }

  /** Its task is the last one attached to the run it has. */
  lemma {:induction false} TaskDecides(w: World, step: Step, s: Session, r: RequestId, t: TaskId)
    requires WorldOk(w) && Enabled(w, step)
    ensures HasTask(Next(w, step), s, r, t) <==>
      || (HasTask(w, s, r, t) && !FinishesRun(w, step, s, r) && !AttachesTask(w, step, s))
      || (step == AttachStep(s, r, t) && RunsAs(w, s, r))
  {
    assert HasTask(w, s, r, t) ==> RunsAs(w, s, r);
  }

  // The step cancels a task it looked up before, or those attached now.
  predicate Cancels(w: World, step: Step, t: TaskId) {
    || (step.CancelStep? && step.actor in w.errands && w.errands[step.actor].CancelTask?
        && w.errands[step.actor].entry.task == t)
    || (step.SnapshotStep? && exists s :: s in w.registry.tasks && w.registry.tasks[s].task == t)
  }

  /** A task is canceled by an interrupt that looked it up, or by a cancel_all while it is attached. */
  lemma {:induction false} CancelDecides(w: World, step: Step, t: TaskId)
    requires WorldOk(w) && Enabled(w, step)
    ensures t in Next(w, step).canceled <==> t in w.canceled || Cancels(w, step, t)
  {
    if step.SnapshotStep? {
      var entries := EntriesOf(w.registry, step.sessions);
      if exists s :: s in w.registry.tasks && w.registry.tasks[s].task == t {
        var s :| s in w.registry.tasks && w.registry.tasks[s].task == t;
        var i :| 0 <= i < |step.sessions| && step.sessions[i] == s;
        assert entries[i] in entries && entries[i].task == t;
      }
    }
  }

  // What an interrupt finds, and what a cancel_all lists: the tasks attached at that moment.
  lemma {:induction false} LookUpDecides(w: World, step: Step, a: nat, s: Session)
    requires Enabled(w, step) && LooksUp(step, a)
    ensures var after := Next(w, step).errands;
      && (step == LookUpStep(a, s) ==>
           if s in w.registry.tasks then
             a in after && after[a] == CancelTask(Entry(s, w.registry.tasks[s].request, w.registry.tasks[s].task))
           else after == w.errands)
      && (step.SnapshotStep? ==>
           && a in after && after[a].FinishEntries? && |after[a].entries| == |step.sessions|
           && forall i :: 0 <= i < |step.sessions| ==>
                var task := w.registry.tasks[step.sessions[i]];
                after[a].entries[i] == Entry(step.sessions[i], task.request, task.task))
  {
  }

  predicate StartsRun(step: Step, r: RequestId) {
    (step.StartStep? || step.StartIfExistsStep?) && step.request == r
  }

  predicate LooksUp(step: Step, a: nat) { (step.LookUpStep? || step.SnapshotStep?) && step.actor == a }

  predicate NamesRequest(errand: Errand, r: RequestId) {
    match errand
    case DeleteCallback(_) => false
    case CancelTask(entry) => entry.request == r
    case FinishEntries(entries) => exists i :: 0 <= i < |entries| && entries[i].request == r
  }

  lemma NotNamedBeforeStart(w: World, step: Step, r: RequestId, a: nat)
    requires WorldOk(w) && Enabled(w, step) && StartsRun(step, r) && a in w.errands
    ensures !NamesRequest(w.errands[a], r)
  {
    if w.errands[a].FinishEntries? {
      var entries := w.errands[a].entries;
      forall i | 0 <= i < |entries| ensures entries[i].request != r { assert entries[i] in entries; }
    }
  }

  lemma NamedByLookUp(w: World, step: Step, r: RequestId, a: nat)
    requires Enabled(w, step) && a in Next(w, step).errands && NamesRequest(Next(w, step).errands[a], r)
    ensures LooksUp(step, a) || (a in w.errands && NamesRequest(w.errands[a], r))
  {
    if step.FinishNextStep? && step.actor == a {
      var before, after := w.errands[a].entries, Next(w, step).errands[a].entries;
      var i :| 0 <= i < |after| && after[i].request == r;
      assert before[i + 1].request == r;
    }
  }

  /**
    Whatever a cancel_all or an interrupt still has to do to a run, it decided by looking at the
    registry after that run was started: an older snapshot never reaches a newer run.
  */
  lemma {:induction false} LookedUpAfterStart(worlds: seq<World>, steps: seq<Step>, r: RequestId, a: nat, i: nat,
      n: nat) returns (j: nat)
    requires Schedule(worlds, steps) && i < n <= |steps| && StartsRun(steps[i], r)
    requires a in worlds[n].errands && NamesRequest(worlds[n].errands[a], r)
    ensures i < j < n && LooksUp(steps[j], a)
    decreases n
  {
    OkInEverySchedule(worlds, steps, n - 1);
    assert StepAt(worlds, steps, n - 1);
    if n - 1 == i {
      assert worlds[n].errands == worlds[i].errands;
      NotNamedBeforeStart(worlds[i], steps[i], r, a);
      assert false;
    } else {
      NamedByLookUp(worlds[n - 1], steps[n - 1], r, a);
      if LooksUp(steps[n - 1], a) {
        j := n - 1;
      } else {
        j := LookedUpAfterStart(worlds, steps, r, a, i, n - 1);
      }
    }
  }

  // ---- the class ----

  class SessionRunRegistry {
    var running: map<Session, RequestId>
    var tasks: map<Session, Attached>
    var deleting: set<Session>

    constructor ()
      ensures State() == Registry(map[], map[], {})
    {
      running, tasks, deleting := map[], map[], {};
    }

    function State(): Registry
      reads this
    {
      Registry(running, tasks, deleting)
    }

    method StartRun(s: Session, r: RequestId) returns (ok: bool)
      modifies this
      ensures ok <==> Start(old(State()), s, r).Some?
      ensures State() == if ok then Start(old(State()), s, r).value else old(State())
    {
      if s in running || s in deleting {
        return false;
      }
      running := running[s := r];
      return true;
    }

    method FinishRun(s: Session, r: Option<RequestId>)
      modifies this
      ensures State() == Finish(old(State()), s, r)
    {
      if s !in running {
        return;
      }
      if r.Some? && running[s] != r.value {
        return;
      }
      running := running - {s};
      tasks := tasks - {s};
    }

    method AttachTask(s: Session, r: RequestId, t: TaskId)
      modifies this
      ensures State() == Attach(old(State()), s, r, t)
    {
      if s in running && running[s] == r {
        tasks := tasks[s := Attached(r, t)];
      }
    }

    // The last part of cancel_all: finish each run of the snapshot if it is still the current one.
    method FinishAll(entries: seq<Entry>)
      modifies this
      ensures State().deleting == old(State().deleting)
      ensures forall s :: s in running <==>
        s in old(running)
            && !(exists i :: 0 <= i < |entries| && entries[i].session == s && entries[i].request == old(running)[s])
      ensures forall s :: s in running ==> running[s] == old(running)[s]
    {
      for i := 0 to |entries|
        invariant deleting == old(deleting)
        invariant forall s :: s in running ==> s in old(running) && running[s] == old(running)[s]
        invariant forall s :: s in running <==>
          s in old(running)
              && !(exists j :: 0 <= j < i && entries[j].session == s && entries[j].request == old(running)[s])
      {
        FinishRun(entries[i].session, Some(entries[i].request));
      }
    }

    method BeginDeletion(s: Session) returns (ok: bool)
      modifies this
      ensures ok <==> BeginDelete(old(State()), s).Some?
      ensures State() == if ok then BeginDelete(old(State()), s).value else old(State())
    {
      if s in running || s in deleting {
        return false;
      }
      deleting := deleting + {s};
      return true;
    }

    method EndDeletion(s: Session)
      modifies this
      ensures State() == EndDelete(old(State()), s)
    {
      deleting := deleting - {s};
    }
  }
}
