/**
 The solver's thread pool as a transition system over all interleavings.

 A call of runBackends reserves a slot, spawns one detached thread per backend, blocks on
 its own synchronisation object, frees the slot when it is woken, and then collects every
 future. Any task may itself call runBackends, so the calls nest across threads. Each step
 below is one atomic action: an access to an atomic counter, or one critical section.
 */
module ThreadPool {
  import opened Basics

  datatype Future = Pending | Ready(answer: Answer) | Broken

  /** `index` is the slot index handed to the task when it is created. */
  datatype Task = Task(call: nat, index: nat, future: Future)

  /** One activation of runBackends: the thread it runs on, its slot, the tasks it made. */
  datatype Call = Call(thread: nat, index: nat, tasks: seq<nat>)

  /**
   Where a thread stands. `host` is the task whose work the thread is executing; it is None
   on the main thread only. `call` is the activation of runBackends the thread is inside of.
   */
  datatype Pc =
    | Starting(task: nat)
    | Deciding(task: nat)
    | Working(host: Option<nat>)
    | Submitting(host: Option<nat>, call: nat, left: nat)
    | Parking(host: Option<nat>, call: nat, bs: nat)
    | Waiting(host: Option<nat>, call: nat, bs: nat)
    | Releasing(host: Option<nat>, call: nat)
    | Resuming(host: Option<nat>, call: nat)
    | Collecting(host: Option<nat>, call: nat, next: nat)
    | Deleting(task: nat, skipped: bool)
    | Uncounting(task: nat, skipped: bool)
    | Notifying(task: nat)
    | Polling(task: nat)
    | Leaving(task: nat)
    | Gone(task: nat)
    | Finished

  /**
   A synchronisation object is named by the call that created it: `slots[i] == Some(c)` is a
   pointer to the object of call c, and `fired` holds the objects whose flag is set.
   */
  datatype State = State(
    counter: int,
    numberThreads: int,
    slots: seq<Option<nat>>,
    fired: set<nat>,
    queue: seq<nat>,
    tasks: seq<Task>,
    calls: seq<Call>,
    threads: seq<Pc>)

  /** What the work of a task may do next; every other step of a thread is forced. */
  datatype Action =
    | Advance
    | CallBackends(modules: nat)
    | Finish(answer: Answer)

  const INITIAL := State(1, 1, [], {}, [], [], [], [Working(None)])

  function TaskOf(s: State, k: nat): Task {
    if k < |s.tasks| then s.tasks[k] else Task(0, 0, Broken)
  }

  function CallOf(s: State, c: nat): Call {
    if c < |s.calls| then s.calls[c] else Call(0, 0, [])
  }

  function SetFuture(s: State, k: nat, f: Future): State {
    if k < |s.tasks| then s.(tasks := s.tasks[k := s.tasks[k].(future := f)]) else s
  }

  /** The object a slot index points to; None for a freed slot or an index out of range. */
  function SlotAt(s: State, i: nat): Option<nat> {
    if i < |s.slots| then s.slots[i] else None
  }

  /** Drops the null pointers at the end of the slot vector. */
  function Trim(slots: seq<Option<nat>>): (r: seq<Option<nat>>)
    ensures r <= slots
    ensures forall i :: 0 <= i < |slots| && slots[i].Some? ==> i < |r|
  {
    if |slots| > 0 && slots[|slots| - 1].None? then Trim(slots[..|slots| - 1]) else slots
  }

  /** Freeing a slot changes no other slot index. */
  lemma TrimKeeps(slots: seq<Option<nat>>, i: nat)
    requires i < |slots|
    ensures forall j :: 0 <= j < |slots| && j != i && slots[j].Some? ==>
              j < |Trim(slots[i := None])| && Trim(slots[i := None])[j] == slots[j]
    ensures forall j :: 0 <= j < |Trim(slots[i := None])| && j != i ==> Trim(slots[i := None])[j] == slots[j]
  {
    var cleared := slots[i := None];
    assert forall j :: 0 <= j < |slots| && j != i ==> cleared[j] == slots[j];
    assert Trim(cleared) == cleared[..|Trim(cleared)|];
  }

  function Goto(s: State, t: nat, pc: Pc): State
    requires t < |s.threads|
  {
    s.(threads := s.threads[t := pc])
  }

  /** The successor when thread t performs one action, or None when it cannot. */
  function Step(s: State, t: nat, a: Action): Option<State>
    requires t < |s.threads|
  {
    match (s.threads[t], a)
    case (Working(h), CallBackends(n)) =>
      if n == 0 then None else Some(Goto(
        s.(slots := s.slots + [Some(|s.calls|)], calls := s.calls + [Call(t, |s.slots|, [])]),
        t, Submitting(h, |s.calls|, n)))
    case (Working(Some(k)), Finish(ans)) => Some(Goto(SetFuture(s, k, Ready(ans)), t, Deleting(k, false)))
    case (Working(None), Finish(_)) => Some(Goto(s, t, Finished))
    case (pc, Advance) => StepPc(s, t, pc)
    case _ => None
  }

  /** The forced steps, in the order in which a thread goes through them. */
  function StepPc(s: State, t: nat, pc: Pc): Option<State>
    requires t < |s.threads|
  {
    match pc
    case Starting(k) => Some(Goto(s.(counter := s.counter + 1), t, Deciding(k)))
    case Deciding(k) =>
      Some(Goto(s, t, if SlotAt(s, TaskOf(s, k).index).None? then Deleting(k, true) else Working(Some(k))))
    case Submitting(h, c, left) => StepSubmit(s, t, h, c, left)
    case Parking(h, c, bs) => Some(Goto(s.(counter := s.counter - 1), t, Waiting(h, c, bs)))
    case Waiting(h, c, bs) => if bs in s.fired then Some(Goto(s, t, Releasing(h, c))) else None
    case Releasing(h, c) => StepRelease(s, t, h, c)
    case Resuming(h, c) => Some(Goto(s.(counter := s.counter + 1), t, Collecting(h, c, 0)))
    case Collecting(h, c, i) =>
      if i >= |CallOf(s, c).tasks| then Some(Goto(s, t, Working(h)))
      else if TaskOf(s, CallOf(s, c).tasks[i]).future.Pending? then None
      else Some(Goto(s, t, Collecting(h, c, i + 1)))
    case Deleting(k, skipped) =>
      Some(Goto(if TaskOf(s, k).future.Pending? then SetFuture(s, k, Broken) else s, t, Uncounting(k, skipped)))
    case Uncounting(k, skipped) =>
      Some(Goto(s.(numberThreads := s.numberThreads - 1), t, if skipped then Polling(k) else Notifying(k)))
    case Notifying(k) =>
      (match SlotAt(s, TaskOf(s, k).index)
       case Some(bs) => Some(Goto(s.(fired := s.fired + {bs}), t, Leaving(k)))
       case None => Some(Goto(s, t, Polling(k))))
    case Polling(k) =>
      if s.queue == [] then Some(Goto(s, t, Leaving(k)))
      else Some(Goto(s.(queue := s.queue[1..]), t, Deciding(s.queue[0])))
    case Leaving(k) => Some(Goto(s.(counter := s.counter - 1), t, Gone(k)))
    case _ => None
  }

  /** Creates the next task and its thread, or looks up the synchronisation object when all exist. */
  function StepSubmit(s: State, t: nat, h: Option<nat>, c: nat, left: nat): Option<State>
    requires t < |s.threads|
  {
    if left > 0 then
      if c < |s.calls| then
        var k := |s.tasks|;
        var s1 := s.(numberThreads := s.numberThreads + 1,
                     tasks := s.tasks + [Task(c, s.calls[c].index, Pending)],
                     calls := s.calls[c := s.calls[c].(tasks := s.calls[c].tasks + [k])],
                     threads := s.threads[t := Submitting(h, c, left - 1)] + [Starting(k)]);
        Some(s1)
      else None
    else match SlotAt(s, CallOf(s, c).index)
      case Some(bs) => Some(Goto(s, t, Parking(h, c, bs)))
      case None => None
  }

  function StepRelease(s: State, t: nat, h: Option<nat>, c: nat): Option<State>
    requires t < |s.threads|
  {
    var i := CallOf(s, c).index;
    if i < |s.slots| then Some(Goto(s.(slots := Trim(s.slots[i := None])), t, Resuming(h, c))) else None
  }

  /** A run: any thread may be scheduled at any point. */
  ghost predicate IsRun(run: seq<State>, schedule: seq<(nat, Action)>) {
    && |run| == |schedule| + 1
    && run[0] == INITIAL
    && forall i :: 0 <= i < |schedule| ==> Follows(run[i], schedule[i].0, schedule[i].1, run[i + 1])
  }

  ghost predicate Follows(s: State, t: nat, a: Action, s': State) {
    t < |s.threads| && Step(s, t, a) == Some(s')
  }

  // ---------------------------------------------------------------- the invariant

  /** The thread is inside a call that still owns its slot. */
  predicate Holds(pc: Pc, c: nat) {
    (pc.Submitting? || pc.Parking? || pc.Waiting? || pc.Releasing?) && pc.call == c
  }

  predicate InCall(pc: Pc) {
    pc.Submitting? || pc.Parking? || pc.Waiting? || pc.Releasing? || pc.Resuming? || pc.Collecting?
  }

  predicate Hosted(pc: Pc) {
    pc.Working? || InCall(pc)
  }

  /** The threads that mCounter is meant to count. */
  predicate Unblocked(pc: Pc) {
    !(pc.Starting? || pc.Waiting? || pc.Releasing? || pc.Resuming? || pc.Gone?)
  }

  /** The main thread, or a thread whose task has not been deleted and accounted for. */
  predicate Accounted(pc: Pc) {
    pc.Finished? || pc.Starting? || pc.Deciding? || Hosted(pc) || pc.Deleting? || pc.Uncounting?
  }

  /** The thread is still on its way to the notification of its task. */
  predicate WillNotify(pc: Pc) {
    || pc.Starting? || pc.Deciding? || Hosted(pc) || pc.Notifying?
    || ((pc.Deleting? || pc.Uncounting?) && !pc.skipped)
  }

  /** Thread k + 1 was spawned for task k and works on no other task. */
  predicate Carries(pc: Pc, k: nat) {
    if Hosted(pc) then pc.host == Some(k) else !pc.Finished? && pc.task == k
  }

  predicate Unsettled(pc: Pc) {
    pc.Starting? || pc.Deciding? || Hosted(pc) || (pc.Deleting? && pc.skipped)
  }

  ghost predicate ThreadOk(s: State, t: nat)
    requires t < |s.threads|
  {
    var pc := s.threads[t];
    && (if t == 0 then pc.Finished? || (Hosted(pc) && pc.host == None) else Carries(pc, t - 1))
    && (InCall(pc) ==> pc.call < |s.calls| && s.calls[pc.call].thread == t)
    && (InCall(pc) ==> |s.calls[pc.call].tasks| + (if pc.Submitting? then pc.left else 0) > 0)
    && (InCall(pc) && Holds(pc, pc.call) ==> SlotAt(s, s.calls[pc.call].index) == Some(pc.call))
    && (pc.Parking? || pc.Waiting? ==> pc.bs == pc.call)
  }

  ghost predicate TaskOk(s: State, k: nat)
    requires k < |s.tasks| && |s.threads| == |s.tasks| + 1
  {
    var task := s.tasks[k];
    && task.call < |s.calls|
    && task.index == s.calls[task.call].index
    && s.calls[task.call].thread <= k
    && (task.future.Pending? <==> Unsettled(s.threads[k + 1]))
    && (SlotAt(s, task.index) == Some(task.call) && task.call !in s.fired ==> WillNotify(s.threads[k + 1]))
  }

  ghost predicate CallOk(s: State, c: nat)
    requires c < |s.calls|
  {
    && s.calls[c].thread < |s.threads|
    && forall j :: 0 <= j < |s.calls[c].tasks| ==>
         s.calls[c].tasks[j] < |s.tasks| && s.tasks[s.calls[c].tasks[j]].call == c
  }

  ghost predicate SlotOk(s: State, i: nat)
    requires i < |s.slots|
  {
    s.slots[i].Some? ==>
      var c := s.slots[i].value;
      c < |s.calls| && s.calls[c].index == i && s.calls[c].thread < |s.threads|
      && Holds(s.threads[s.calls[c].thread], c)
  }

  function Those(threads: seq<Pc>, p: Pc -> bool): set<nat> {
    set t: nat | t < |threads| && p(threads[t])
  }

  function ThreadsWith(s: State, p: Pc -> bool): set<nat> {
    Those(s.threads, p)
  }

  /** Threads, units of work, calls, slots and fired objects fit together. */
  ghost predicate Consistent(s: State) {
    && |s.threads| == |s.tasks| + 1
    && s.queue == []
    && (forall t: nat :: t < |s.threads| ==> ThreadOk(s, t))
    && (forall k: nat :: k < |s.tasks| ==> TaskOk(s, k))
    && (forall c: nat :: c < |s.calls| ==> CallOk(s, c))
    && (forall i: nat :: i < |s.slots| ==> SlotOk(s, i))
    && (forall c :: c in s.fired ==> c < |s.calls|)
  }

  ghost predicate Counted(s: State) {
    s.counter == |ThreadsWith(s, Unblocked)| && s.numberThreads == |ThreadsWith(s, Accounted)|
  }

  ghost predicate Inv(s: State) {
    Consistent(s) && Counted(s)
  }

  // ---------------------------------------------------------------- every step keeps the counters right

  function One(b: bool): int {
    if b then 1 else 0
  }

  lemma CountMove(threads: seq<Pc>, t: nat, pc: Pc, p: Pc -> bool)
    requires t < |threads|
    ensures |Those(threads[t := pc], p)| == |Those(threads, p)| - One(p(threads[t])) + One(p(pc))
  {
    var rest := Those(threads, p) - {t};
    assert Those(threads, p) == rest + (if p(threads[t]) then {t} else {});
    assert Those(threads[t := pc], p) == rest + (if p(pc) then {t} else {});
  }

  lemma CountSpawn(threads: seq<Pc>, pc: Pc, p: Pc -> bool)
    ensures |Those(threads + [pc], p)| == |Those(threads, p)| + One(p(pc))
  {
    assert Those(threads + [pc], p) == Those(threads, p) + (if p(pc) then {|threads|} else {});
  }

  lemma MoveCounted(s: State, t: nat, pc: Pc, s': State)
    requires Counted(s) && t < |s.threads| && s'.threads == s.threads[t := pc]
    requires s'.counter == s.counter - One(Unblocked(s.threads[t])) + One(Unblocked(pc))
    requires s'.numberThreads == s.numberThreads - One(Accounted(s.threads[t])) + One(Accounted(pc))
    ensures Counted(s')
  {
    CountMove(s.threads, t, pc, Unblocked);
    CountMove(s.threads, t, pc, Accounted);
  }

  lemma SpawnCounted(s: State, t: nat, s': State)
    requires Counted(s) && t < |s.threads| && s.threads[t].Submitting? && s.threads[t].left > 0
    requires Step(s, t, Advance) == Some(s')
    ensures Counted(s')
  {
    var pc := s.threads[t];
    var moved := s.threads[t := Submitting(pc.host, pc.call, pc.left - 1)];
    CountMove(s.threads, t, Submitting(pc.host, pc.call, pc.left - 1), Unblocked);
    CountMove(s.threads, t, Submitting(pc.host, pc.call, pc.left - 1), Accounted);
    CountSpawn(moved, Starting(|s.tasks|), Unblocked);
    CountSpawn(moved, Starting(|s.tasks|), Accounted);
  }

  lemma CallerCounted(s: State, t: nat, s': State)
    requires Counted(s) && t < |s.threads| && InCall(s.threads[t])
    requires s.threads[t].Submitting? ==> s.threads[t].left == 0
    requires Step(s, t, Advance) == Some(s')
    ensures Counted(s')
  {
    MoveCounted(s, t, s'.threads[t], s');
  }

  lemma TaskCounted(s: State, t: nat, s': State)
    requires Counted(s) && t < |s.threads| && !InCall(s.threads[t]) && s.queue == []
    requires Step(s, t, Advance) == Some(s')
    ensures Counted(s')
  {
    MoveCounted(s, t, s'.threads[t], s');
  }

  lemma StepCounted(s: State, t: nat, a: Action, s': State)
    requires Counted(s) && s.queue == [] && Follows(s, t, a, s')
    ensures Counted(s')
  {
    var pc := s.threads[t];
    if !a.Advance? {
      MoveCounted(s, t, s'.threads[t], s');
    } else if pc.Submitting? && pc.left > 0 {
      SpawnCounted(s, t, s');
    } else if InCall(pc) {
      CallerCounted(s, t, s');
    } else {
      TaskCounted(s, t, s');
    }
  }

  // ---------------------------------------------------------------- every step keeps what fits together

  lemma ConsistentCall(s: State, t: nat, n: nat, s': State)
    requires Consistent(s) && t < |s.threads| && s.threads[t].Working?
    requires Step(s, t, CallBackends(n)) == Some(s')
    ensures Consistent(s')
  {
    assert ThreadOk(s, t);
    forall u: nat | u < |s'.threads| ensures ThreadOk(s', u) { assert ThreadOk(s, u); }
    forall k: nat | k < |s'.tasks| ensures TaskOk(s', k) { assert TaskOk(s, k); }
    forall c: nat | c < |s'.calls| ensures CallOk(s', c) { assert c < |s.calls| ==> CallOk(s, c); }
    forall i: nat | i < |s'.slots| ensures SlotOk(s', i) { assert i < |s.slots| ==> SlotOk(s, i); }
  }

  lemma ConsistentFinish(s: State, t: nat, ans: Answer, s': State)
    requires Consistent(s) && t < |s.threads| && s.threads[t].Working?
    requires Step(s, t, Finish(ans)) == Some(s')
    ensures Consistent(s')
  {
    assert ThreadOk(s, t);
    forall u: nat | u < |s'.threads| ensures ThreadOk(s', u) { assert ThreadOk(s, u); }
    forall k: nat | k < |s'.tasks| ensures TaskOk(s', k) { assert TaskOk(s, k); }
    forall c: nat | c < |s'.calls| ensures CallOk(s', c) { assert CallOk(s, c); }
    forall i: nat | i < |s'.slots| ensures SlotOk(s', i) { assert SlotOk(s, i); }
  }

  lemma ConsistentSpawn(s: State, t: nat, s': State)
    requires Consistent(s) && t < |s.threads| && s.threads[t].Submitting? && s.threads[t].left > 0
    requires Step(s, t, Advance) == Some(s')
    ensures Consistent(s')
  {
    assert ThreadOk(s, t);
    forall u: nat | u < |s'.threads| ensures ThreadOk(s', u) { assert u < |s.threads| ==> ThreadOk(s, u); }
    forall k: nat | k < |s'.tasks| ensures TaskOk(s', k) { assert k < |s.tasks| ==> TaskOk(s, k); }
    forall c: nat | c < |s'.calls| ensures CallOk(s', c) { assert CallOk(s, c); }
    forall i: nat | i < |s'.slots| ensures SlotOk(s', i) { assert SlotOk(s, i); }
  }

  lemma ConsistentSubmitted(s: State, t: nat, s': State)
    requires Consistent(s) && t < |s.threads| && s.threads[t].Submitting? && s.threads[t].left == 0
    requires Step(s, t, Advance) == Some(s')
    ensures Consistent(s')
  {
    assert ThreadOk(s, t);
    forall u: nat | u < |s'.threads| ensures ThreadOk(s', u) { assert ThreadOk(s, u); }
    forall k: nat | k < |s'.tasks| ensures TaskOk(s', k) { assert TaskOk(s, k); }
    forall c: nat | c < |s'.calls| ensures CallOk(s', c) { assert CallOk(s, c); }
    forall i: nat | i < |s'.slots| ensures SlotOk(s', i) { assert SlotOk(s, i); }
  }

  lemma ConsistentRelease(s: State, t: nat, s': State)
    requires Consistent(s) && t < |s.threads| && s.threads[t].Releasing?
    requires Step(s, t, Advance) == Some(s')
    ensures Consistent(s')
  {
    assert ThreadOk(s, t);
    TrimKeeps(s.slots, s.calls[s.threads[t].call].index);
    forall u: nat | u < |s'.threads| ensures ThreadOk(s', u) { assert ThreadOk(s, u); }
    forall k: nat | k < |s'.tasks| ensures TaskOk(s', k) { assert TaskOk(s, k); }
    forall c: nat | c < |s'.calls| ensures CallOk(s', c) { assert CallOk(s, c); }
    forall i: nat | i < |s'.slots| ensures SlotOk(s', i) { assert SlotOk(s, i); }
  }

  lemma ConsistentWait(s: State, t: nat, s': State)
    requires Consistent(s) && t < |s.threads| && (s.threads[t].Parking? || s.threads[t].Waiting?)
    requires Step(s, t, Advance) == Some(s')
    ensures Consistent(s')
  {
    assert ThreadOk(s, t);
    forall u: nat | u < |s'.threads| ensures ThreadOk(s', u) { assert ThreadOk(s, u); }
    forall k: nat | k < |s'.tasks| ensures TaskOk(s', k) { assert TaskOk(s, k); }
    forall c: nat | c < |s'.calls| ensures CallOk(s', c) { assert CallOk(s, c); }
    forall i: nat | i < |s'.slots| ensures SlotOk(s', i) { assert SlotOk(s, i); }
  }

  lemma ConsistentCollect(s: State, t: nat, s': State)
    requires Consistent(s) && t < |s.threads| && (s.threads[t].Resuming? || s.threads[t].Collecting?)
    requires Step(s, t, Advance) == Some(s')
    ensures Consistent(s')
  {
    assert ThreadOk(s, t);
    forall u: nat | u < |s'.threads| ensures ThreadOk(s', u) { assert ThreadOk(s, u); }
    forall k: nat | k < |s'.tasks| ensures TaskOk(s', k) { assert TaskOk(s, k); }
    forall c: nat | c < |s'.calls| ensures CallOk(s', c) { assert CallOk(s, c); }
    forall i: nat | i < |s'.slots| ensures SlotOk(s', i) { assert SlotOk(s, i); }
  }

  lemma ConsistentStart(s: State, t: nat, s': State)
    requires Consistent(s) && t < |s.threads| && (s.threads[t].Starting? || s.threads[t].Deciding?)
    requires Step(s, t, Advance) == Some(s')
    ensures Consistent(s')
  {
    assert ThreadOk(s, t);
    forall u: nat | u < |s'.threads| ensures ThreadOk(s', u) { assert ThreadOk(s, u); }
    forall k: nat | k < |s'.tasks| ensures TaskOk(s', k) { assert TaskOk(s, k); }
    forall c: nat | c < |s'.calls| ensures CallOk(s', c) { assert CallOk(s, c); }
    forall i: nat | i < |s'.slots| ensures SlotOk(s', i) { assert SlotOk(s, i); }
  }

  lemma ConsistentDelete(s: State, t: nat, s': State)
    requires Consistent(s) && t < |s.threads| && s.threads[t].Deleting?
    requires Step(s, t, Advance) == Some(s')
    ensures Consistent(s')
  {
    assert ThreadOk(s, t);
    forall u: nat | u < |s'.threads| ensures ThreadOk(s', u) { assert ThreadOk(s, u); }
    forall k: nat | k < |s'.tasks| ensures TaskOk(s', k) { assert TaskOk(s, k); }
    forall c: nat | c < |s'.calls| ensures CallOk(s', c) { assert CallOk(s, c); }
    forall i: nat | i < |s'.slots| ensures SlotOk(s', i) { assert SlotOk(s, i); }
  }

  lemma ConsistentUncount(s: State, t: nat, s': State)
    requires Consistent(s) && t < |s.threads| && s.threads[t].Uncounting?
    requires Step(s, t, Advance) == Some(s')
    ensures Consistent(s')
  {
    assert ThreadOk(s, t);
    forall u: nat | u < |s'.threads| ensures ThreadOk(s', u) { assert ThreadOk(s, u); }
    forall k: nat | k < |s'.tasks| ensures TaskOk(s', k) { assert TaskOk(s, k); }
    forall c: nat | c < |s'.calls| ensures CallOk(s', c) { assert CallOk(s, c); }
    forall i: nat | i < |s'.slots| ensures SlotOk(s', i) { assert SlotOk(s, i); }
  }

  lemma ConsistentNotify(s: State, t: nat, s': State)
    requires Consistent(s) && t < |s.threads| && s.threads[t].Notifying?
    requires Step(s, t, Advance) == Some(s')
    ensures Consistent(s')
  {
    assert ThreadOk(s, t);
    forall u: nat | u < |s'.threads| ensures ThreadOk(s', u) { assert ThreadOk(s, u); }
    forall k: nat | k < |s'.tasks| ensures TaskOk(s', k) { assert TaskOk(s, k); }
    forall c: nat | c < |s'.calls| ensures CallOk(s', c) { assert CallOk(s, c); }
    forall i: nat | i < |s'.slots| ensures SlotOk(s', i) { assert SlotOk(s, i); }
    if TaskOf(s, t - 1).index < |s.slots| {
      assert SlotOk(s, TaskOf(s, t - 1).index);
    }
  }

  lemma ConsistentLeave(s: State, t: nat, s': State)
    requires Consistent(s) && t < |s.threads| && (s.threads[t].Polling? || s.threads[t].Leaving?)
    requires Step(s, t, Advance) == Some(s')
    ensures Consistent(s')
  {
    assert ThreadOk(s, t);
    forall u: nat | u < |s'.threads| ensures ThreadOk(s', u) { assert ThreadOk(s, u); }
    forall k: nat | k < |s'.tasks| ensures TaskOk(s', k) { assert TaskOk(s, k); }
    forall c: nat | c < |s'.calls| ensures CallOk(s', c) { assert CallOk(s, c); }
    forall i: nat | i < |s'.slots| ensures SlotOk(s', i) { assert SlotOk(s, i); }
  }

  lemma StepConsistent(s: State, t: nat, a: Action, s': State)
    requires Consistent(s) && Follows(s, t, a, s')
    ensures Consistent(s')
  {
    match a
    case CallBackends(n) => ConsistentCall(s, t, n, s');
    case Finish(ans) => ConsistentFinish(s, t, ans, s');
    case Advance =>
      match s.threads[t]
      case Submitting(_, _, left) =>
        if left > 0 {
          ConsistentSpawn(s, t, s');
        } else {
          ConsistentSubmitted(s, t, s');
        }
      case Releasing(_, _) => ConsistentRelease(s, t, s');
      case Parking(_, _, _) => ConsistentWait(s, t, s');
      case Waiting(_, _, _) => ConsistentWait(s, t, s');
      case Resuming(_, _) => ConsistentCollect(s, t, s');
      case Collecting(_, _, _) => ConsistentCollect(s, t, s');
      case Starting(_) => ConsistentStart(s, t, s');
      case Deciding(_) => ConsistentStart(s, t, s');
      case Deleting(_, _) => ConsistentDelete(s, t, s');
      case Uncounting(_, _) => ConsistentUncount(s, t, s');
      case Notifying(_) => ConsistentNotify(s, t, s');
      case Polling(_) => ConsistentLeave(s, t, s');
      case Leaving(_) => ConsistentLeave(s, t, s');
  }

  lemma InvStep(s: State, t: nat, a: Action, s': State)
    requires Inv(s) && Follows(s, t, a, s')
    ensures Inv(s')
  {
    StepConsistent(s, t, a, s');
    StepCounted(s, t, a, s');
  }

  lemma InvInitial()
    ensures Inv(INITIAL)
  {
    assert ThreadsWith(INITIAL, Unblocked) == {0} && ThreadsWith(INITIAL, Accounted) == {0};
    assert ThreadOk(INITIAL, 0);
  }

  /** Main invariant: it holds in every state of every interleaving. */
  lemma {:induction false} RunsKeepInv(run: seq<State>, schedule: seq<(nat, Action)>, i: nat)
    requires IsRun(run, schedule) && i < |run|
    ensures Inv(run[i])
  {
    if i == 0 {
      InvInitial();
    } else {
      RunsKeepInv(run, schedule, i - 1);
      assert Follows(run[i - 1], schedule[i - 1].0, schedule[i - 1].1, run[i]);
      InvStep(run[i - 1], schedule[i - 1].0, schedule[i - 1].1, run[i]);
    }
  }

  // ---------------------------------------------------------------- what the pool promises

  /**
   Until a call frees its slot, the slot index it keeps in a local variable denotes its own
   synchronisation object, although the vector grows and is trimmed by other calls meanwhile.
   */
  lemma BlockedCallOwnsItsSlot(run: seq<State>, schedule: seq<(nat, Action)>, i: nat, t: nat)
    requires IsRun(run, schedule) && i < |run| && t < |run[i].threads|
    requires InCall(run[i].threads[t]) && Holds(run[i].threads[t], run[i].threads[t].call)
    ensures var s, c := run[i], run[i].threads[t].call;
            && SlotAt(s, CallOf(s, c).index) == Some(c)
            && (forall j: nat | SlotAt(s, j) == Some(c) :: j == CallOf(s, c).index)
            && (s.threads[t].Waiting? ==> s.threads[t].bs == c)
  {
    RunsKeepInv(run, schedule, i);
    var s := run[i];
    assert ThreadOk(s, t);
    forall j: nat | SlotAt(s, j) == Some(s.threads[t].call)
      ensures j == CallOf(s, s.threads[t].call).index
    {
      assert SlotOk(s, j);
    }
  }

  /**
   No wake-up is lost: as long as a waiting call has not been fired, it has submitted at least
   one task and every one of them is still on its way to the notification.
   */
  lemma NoLostWakeUp(run: seq<State>, schedule: seq<(nat, Action)>, i: nat, t: nat)
    requires IsRun(run, schedule) && i < |run| && t < |run[i].threads|
    requires run[i].threads[t].Waiting? && run[i].threads[t].bs !in run[i].fired
    ensures var s := run[i];
            var tasks := CallOf(s, s.threads[t].call).tasks;
            && |tasks| > 0
            && forall j :: 0 <= j < |tasks| ==>
                 t < tasks[j] + 1 < |s.threads| && WillNotify(s.threads[tasks[j] + 1])
  {
    RunsKeepInv(run, schedule, i);
    var s := run[i];
    assert ThreadOk(s, t);
    var c := s.threads[t].call;
    forall j | 0 <= j < |s.calls[c].tasks|
      ensures t < s.calls[c].tasks[j] + 1 < |s.threads| && WillNotify(s.threads[s.calls[c].tasks[j] + 1])
    {
      assert CallOk(s, c);
      assert TaskOk(s, s.calls[c].tasks[j]);
    }
  }

  /** A task is only ever skipped once its own call has been woken or has returned its slot. */
  lemma SkippedOnlyAfterWakeUp(run: seq<State>, schedule: seq<(nat, Action)>, i: nat, k: nat)
    requires IsRun(run, schedule) && i < |run| && k + 1 < |run[i].threads|
    requires run[i].threads[k + 1].Deleting? && run[i].threads[k + 1].skipped
    ensures var s := run[i];
            var c := TaskOf(s, k).call;
            c in s.fired || SlotAt(s, CallOf(s, c).index) != Some(c)
  {
    RunsKeepInv(run, schedule, i);
    assert TaskOk(run[i], k);
  }

  /** mCounter counts the unblocked threads, so the assertion at the head of runBackends holds. */
  lemma CounterIsExact(run: seq<State>, schedule: seq<(nat, Action)>, i: nat)
    requires IsRun(run, schedule) && i < |run|
    ensures run[i].counter == |ThreadsWith(run[i], Unblocked)|
    ensures run[i].numberThreads == |ThreadsWith(run[i], Accounted)| >= 1
    ensures forall t: nat | t < |run[i].threads| && run[i].threads[t].Working? :: run[i].counter > 0
  {
    RunsKeepInv(run, schedule, i);
    var s := run[i];
    forall t: nat | t < |s.threads| && s.threads[t].Working?
      ensures s.counter > 0
    {
      assert t in ThreadsWith(s, Unblocked);
    }
    assert ThreadOk(s, 0);
    assert 0 in ThreadsWith(s, Accounted);
  }

  predicate Terminated(pc: Pc) {
    pc.Gone? || pc.Finished?
  }

  /** The youngest thread that has not terminated can always move. */
  lemma YoungestMoves(s: State, t: nat) returns (a: Action)
    requires Inv(s) && t < |s.threads| && !Terminated(s.threads[t])
    requires forall u: nat | t < u < |s.threads| :: Terminated(s.threads[u])
    ensures Step(s, t, a).Some?
  {
    var pc := s.threads[t];
    assert ThreadOk(s, t);
    a := if pc.Working? then Finish(UNKNOWN) else Advance;
    if pc.Waiting? || pc.Collecting? {
      assert CallOk(s, pc.call);
      var j := if pc.Waiting? then 0 else pc.next;
      if j < |s.calls[pc.call].tasks| {
        var k := s.calls[pc.call].tasks[j];
        assert TaskOk(s, k);
        assert ThreadOk(s, k + 1);
      }
    } else if pc.Submitting? || pc.Releasing? {
      assert SlotAt(s, s.calls[pc.call].index) == Some(pc.call);
    }
  }

  lemma Youngest(s: State, n: nat) returns (t: nat)
    requires n <= |s.threads| && exists u: nat | u < n :: !Terminated(s.threads[u])
    requires forall u: nat | n <= u < |s.threads| :: Terminated(s.threads[u])
    ensures t < n && !Terminated(s.threads[t])
    ensures forall u: nat | t < u < |s.threads| :: Terminated(s.threads[u])
  {
    if !Terminated(s.threads[n - 1]) {
      t := n - 1;
    } else {
      t := Youngest(s, n - 1);
    }
  }

  /** No reachable state deadlocks, as long as the work of a task can end. */
  lemma NoDeadlock(run: seq<State>, schedule: seq<(nat, Action)>, i: nat)
    requires IsRun(run, schedule) && i < |run|
    requires exists t: nat | t < |run[i].threads| :: !Terminated(run[i].threads[t])
    ensures exists t: nat, a :: t < |run[i].threads| && Step(run[i], t, a).Some?
  {
    RunsKeepInv(run, schedule, i);
    var t := Youngest(run[i], |run[i].threads|);
    var a := YoungestMoves(run[i], t);
  }

  /** When every thread has terminated, no slot is leaked and the destructor's loop ends. */
  lemma TerminationIsClean(run: seq<State>, schedule: seq<(nat, Action)>, i: nat)
    requires IsRun(run, schedule) && i < |run|
    requires forall t: nat | t < |run[i].threads| :: Terminated(run[i].threads[t])
    ensures run[i].counter == 1 && run[i].numberThreads == 1
    ensures forall j :: 0 <= j < |run[i].slots| ==> run[i].slots[j].None?
    ensures forall k :: 0 <= k < |run[i].tasks| ==> !run[i].tasks[k].future.Pending?
  {
    RunsKeepInv(run, schedule, i);
    var s := run[i];
    assert ThreadOk(s, 0);
    forall t: nat | 0 < t < |s.threads|
      ensures s.threads[t].Gone?
    {
      assert ThreadOk(s, t);
    }
    assert ThreadsWith(s, Unblocked) == {0};
    assert ThreadsWith(s, Accounted) == {0};
    forall j: nat | j < |s.slots|
      ensures s.slots[j].None?
    {
      assert SlotOk(s, j);
    }
    forall k: nat | k < |s.tasks|
      ensures !s.tasks[k].future.Pending?
    {
      assert TaskOk(s, k);
    }
  }

  // ---------------------------------------------------------------- every run comes to an end

  function TasksOf(s: State, c: nat): nat {
    |CallOf(s, c).tasks|
  }

  /** How many steps a thread, and the threads it is about to spawn, have left without a new call. */
  function Weight(s: State, pc: Pc): nat {
    match pc
    case Starting(_) => 8
    case Deciding(_) => 7
    case Working(_) => 6
    case Submitting(_, c, left) => 12 + TasksOf(s, c) + 10 * left
    case Parking(_, c, _) => 11 + TasksOf(s, c)
    case Waiting(_, c, _) => 10 + TasksOf(s, c)
    case Releasing(_, c) => 9 + TasksOf(s, c)
    case Resuming(_, c) => 8 + TasksOf(s, c)
    case Collecting(_, c, next) => 7 + if next < TasksOf(s, c) then TasksOf(s, c) - next else 0
    case Deleting(_, _) => 5
    case Uncounting(_, _) => 4
    case Notifying(_) => 3
    case Polling(_) => 2
    case Leaving(_) => 1
    case Gone(_) => 0
    case Finished => 0
  }

  function RankUpTo(s: State, n: nat): nat
    requires n <= |s.threads|
  {
    if n == 0 then 0 else RankUpTo(s, n - 1) + Weight(s, s.threads[n - 1])
  }

  function Rank(s: State): nat {
    RankUpTo(s, |s.threads|)
  }

  lemma {:induction false} RankMove(s: State, s': State, t: nat, n: nat)
    requires t < |s.threads| <= |s'.threads| && n <= |s.threads|
    requires forall u: nat | u < |s.threads| && u != t :: Weight(s', s'.threads[u]) == Weight(s, s.threads[u])
    ensures RankUpTo(s', n) == RankUpTo(s, n)
          + (if t < n then Weight(s', s'.threads[t]) - Weight(s, s.threads[t]) else 0)
  {
    if n > 0 {
      RankMove(s, s', t, n - 1);
    }
  }

  /** A step changes only the calls of its own thread, and no other thread's position. */
  lemma OthersUntouched(s: State, t: nat, s': State)
    requires Inv(s) && Follows(s, t, Advance, s')
    ensures |s.threads| <= |s'.threads|
    ensures forall u: nat | u < |s.threads| && u != t :: s'.threads[u] == s.threads[u]
    ensures forall c: nat | c < |s.calls| && s.calls[c].thread != t :: TasksOf(s', c) == TasksOf(s, c)
  {
    assert ThreadOk(s, t);
  }

  lemma OwnWeightDecreases(s: State, t: nat, s': State)
    requires t < |s.threads| && ThreadOk(s, t) && s.queue == [] && Follows(s, t, Advance, s')
    ensures Weight(s', s'.threads[t]) + (if |s'.threads| > |s.threads| then 8 else 0) < Weight(s, s.threads[t])
    ensures |s'.threads| > |s.threads| ==> |s'.threads| == |s.threads| + 1 && s'.threads[|s.threads|].Starting?
  {
  }

  lemma OthersWeight(s: State, t: nat, a: Action, s': State)
    requires Inv(s) && Follows(s, t, a, s') && !a.CallBackends?
    ensures |s.threads| <= |s'.threads|
    ensures forall u: nat | u < |s.threads| && u != t :: Weight(s', s'.threads[u]) == Weight(s, s.threads[u])
  {
    if a.Advance? {
      OthersUntouched(s, t, s');
    }
    forall u: nat | u < |s.threads| && u != t
      ensures Weight(s', s'.threads[u]) == Weight(s, s.threads[u])
    {
      assert ThreadOk(s, u);
    }
  }

  /** Every step except a new call of runBackends uses up rank. */
  lemma RankDecreases(s: State, t: nat, a: Action, s': State)
    requires Inv(s) && Follows(s, t, a, s') && !a.CallBackends?
    ensures Rank(s') < Rank(s)
  {
    if a.Advance? {
      assert ThreadOk(s, t);
      OwnWeightDecreases(s, t, s');
    }
    OthersWeight(s, t, a, s');
    RankMove(s, s', t, |s.threads|);
  }

  /**
   With `NoDeadlock`: if tasks make finitely many calls of runBackends and their work ends,
   the pool terminates. A stretch of a run without new calls is no longer than its initial rank.
   */
  lemma {:induction false} RunsEnd(run: seq<State>, schedule: seq<(nat, Action)>, a: nat, b: nat)
    requires IsRun(run, schedule) && a <= b < |run|
    requires forall i :: a <= i < b ==> !schedule[i].1.CallBackends?
    ensures Rank(run[b]) + (b - a) <= Rank(run[a])
    decreases b
  {
    if a < b {
      RunsEnd(run, schedule, a, b - 1);
      RunsKeepInv(run, schedule, b - 1);
      assert Follows(run[b - 1], schedule[b - 1].0, schedule[b - 1].1, run[b]);
      RankDecreases(run[b - 1], schedule[b - 1].0, schedule[b - 1].1, run[b]);
    }
  }

  // ---------------------------------------------------------------- the answer of a call

  /** A future that has been settled stays as it is. */
  lemma FuturesStay(s: State, t: nat, a: Action, s': State, k: nat)
    requires Inv(s) && Follows(s, t, a, s') && k < |s.tasks| && !s.tasks[k].future.Pending?
    ensures k < |s'.tasks| && s'.tasks[k] == s.tasks[k]
  {
    assert ThreadOk(s, t) && TaskOk(s, k);
  }

  /** Only the thread that made a call gives it tasks, and only while it submits them. */
  lemma TasksStay(s: State, t: nat, a: Action, s': State, c: nat)
    requires Inv(s) && Follows(s, t, a, s') && c < |s.calls| && (s.calls[c].thread != t || !s.threads[t].Submitting?)
    ensures c < |s'.calls| && s'.calls[c].tasks == s.calls[c].tasks
  {
    assert ThreadOk(s, t);
  }

  /** The futures that a collecting thread has passed are settled. */
  predicate PassedSettled(s: State, t: nat)
    requires t < |s.threads|
  {
    s.threads[t].Collecting? ==>
      forall j :: 0 <= j < s.threads[t].next && j < |CallOf(s, s.threads[t].call).tasks| ==>
        !TaskOf(s, CallOf(s, s.threads[t].call).tasks[j]).future.Pending?
  }

  lemma CollectStep(s: State, t: nat, a: Action, s': State)
    requires Follows(s, t, a, s') && |s'.threads| > t && s.threads[t].Collecting? && s'.threads[t].Collecting?
    ensures var c, i := s.threads[t].call, s.threads[t].next;
      && s'.threads[t].call == c && s'.threads[t].next == i + 1 && s'.tasks == s.tasks && s'.calls == s.calls
      && i < |CallOf(s, c).tasks| && !TaskOf(s, CallOf(s, c).tasks[i]).future.Pending?
  {
  }

  lemma PassedByOther(s: State, u: nat, a: Action, s': State, t: nat)
    requires Inv(s) && Follows(s, u, a, s') && t < |s.threads| <= |s'.threads| && t != u && PassedSettled(s, t)
    ensures PassedSettled(s', t)
  {
    assert ThreadOk(s, t) && ThreadOk(s, u);
    assert s'.threads[t] == s.threads[t];
    if s.threads[t].Collecting? {
      var c := s.threads[t].call;
      TasksStay(s, u, a, s', c);
      forall j | 0 <= j < s.threads[t].next && j < |s.calls[c].tasks|
        ensures !TaskOf(s', s.calls[c].tasks[j]).future.Pending?
      {
        assert CallOk(s, c);
        assert !TaskOf(s, CallOf(s, c).tasks[j]).future.Pending?;
        FuturesStay(s, u, a, s', s.calls[c].tasks[j]);
      }
    }
  }

  lemma PassedStep(s: State, u: nat, a: Action, s': State, t: nat)
    requires Inv(s) && Follows(s, u, a, s') && t < |s.threads| <= |s'.threads| && PassedSettled(s, t)
    ensures PassedSettled(s', t)
  {
    if t != u {
      PassedByOther(s, u, a, s', t);
    } else if s.threads[t].Collecting? && s'.threads[t].Collecting? {
      CollectStep(s, t, a, s');
    }
  }

  lemma ThreadsStay(s: State, u: nat, a: Action, s': State, t: nat)
    requires Follows(s, u, a, s') && t < |s'.threads|
    ensures |s.threads| <= |s'.threads| && (t >= |s.threads| ==> s'.threads[t].Starting?)
  {
  }

  /** So when a call has collected everything, all its futures are settled, and it has read what they will stay. */
  lemma {:induction false} CollectedIsSettled(run: seq<State>, schedule: seq<(nat, Action)>, i: nat, t: nat)
    requires IsRun(run, schedule) && i < |run| && t < |run[i].threads|
    ensures PassedSettled(run[i], t)
    decreases i
  {
    if i > 0 {
      var (u, a) := schedule[i - 1];
      assert Follows(run[i - 1], u, a, run[i]);
      RunsKeepInv(run, schedule, i - 1);
      ThreadsStay(run[i - 1], u, a, run[i], t);
      if t < |run[i - 1].threads| {
        CollectedIsSettled(run, schedule, i - 1, t);
        PassedStep(run[i - 1], u, a, run[i], t);
      }
    }
  }

  predicate Answers(futures: seq<Future>, a: Answer) {
    exists i :: 0 <= i < |futures| && futures[i] == Ready(a)
  }

  /** The loop over the futures at the end of runBackends; a broken future counts as ABORTED. */
  method CollectAnswers(futures: seq<Future>) returns (res: Answer)
    requires !(Answers(futures, SAT) && Answers(futures, UNSAT))
    ensures res == SAT <==> Answers(futures, SAT)
    ensures res == UNSAT <==> Answers(futures, UNSAT)
    ensures res == UNKNOWN <==> Answers(futures, UNKNOWN) && !Answers(futures, SAT) && !Answers(futures, UNSAT)
  {
    res := ABORTED;
    for i := 0 to |futures|
      invariant res == SAT <==> Answers(futures[..i], SAT)
      invariant res == UNSAT <==> Answers(futures[..i], UNSAT)
      invariant res == UNKNOWN <==>
        Answers(futures[..i], UNKNOWN) && !Answers(futures[..i], SAT) && !Answers(futures[..i], UNSAT)
    {
      var ans := match futures[i] case Ready(a) => a case _ => ABORTED;
      AnswersNext(futures, i);
      match ans
      case ABORTED =>
      case UNKNOWN =>
        if res == ABORTED {
          res := UNKNOWN;
        }
      case SAT => res := SAT;
      case UNSAT => res := UNSAT;
    }
    assert futures[..|futures|] == futures;
  }

  lemma AnswersNext(futures: seq<Future>, i: nat)
    requires i < |futures|
    ensures forall a :: Answers(futures[..i + 1], a) <==> Answers(futures[..i], a) || futures[i] == Ready(a)
    ensures forall a :: Answers(futures[..i + 1], a) ==> Answers(futures, a)
  {
    forall a
      ensures Answers(futures[..i + 1], a) <==> Answers(futures[..i], a) || futures[i] == Ready(a)
      ensures Answers(futures[..i + 1], a) ==> Answers(futures, a)
    {
      if Answers(futures[..i], a) {
        var j :| 0 <= j < i && futures[..i][j] == Ready(a);
        assert futures[..i + 1][j] == Ready(a);
      }
      if futures[i] == Ready(a) {
        assert futures[..i + 1][i] == Ready(a);
      }
      if Answers(futures[..i + 1], a) {
        var j :| 0 <= j < i + 1 && futures[..i + 1][j] == Ready(a);
        assert futures[j] == Ready(a);
        assert j < i ==> futures[..i][j] == Ready(a);
      }
    }
  }
}
