/**
 Checking proposals on several threads. One pass walks over a list of items while checks run
 beside it, in any order and at any speed; the first check that succeeds decides.
 */
module DeltaConsumers {
  import opened Basics
  import opened DeltaNodes

  /** A pass comes to a node, proposes a tree for the node with some number, or throws. */
  datatype Item = Visit | Try(tree: Node, num: nat) | Throw

  datatype Status = Started | Checking | Judged(good: bool) | Done

  /** A check of the tree of some item. */
  datatype Job = Job(item: nat, status: Status)

  /**
   What the walking thread does: it also waits for a free slot, is about to start a check, or waits for all
   checks.
   */
  datatype Phase = Walking | Queueing | Pushing | Draining | Over | Thrown

  /** The checks jobs[popped..] are in the queue. */
  datatype State = State(pos: nat, phase: Phase, jobs: seq<Job>, popped: nat, found: bool, result: Option<nat>)

  datatype Action = Produce | Pop | Advance(job: nat)

  /** The items of a pass, how many checks may be in the queue, and what the checker says of a tree. */
  datatype Setup = Setup(items: seq<Item>, limit: nat, passes: Node -> bool)

  const START := State(0, Walking, [], 0, false, None)

  predicate Final(s: State) {
    s.phase == Over || s.phase == Thrown
  }

  // ---------------------------------------------------------------- steps

  predicate Enabled(c: Setup, s: State, a: Action) {
    match a
    case Produce =>
      (match s.phase
       case Walking => true
       case Queueing => |s.jobs| < s.popped + c.limit
       case Pushing => s.pos < |c.items|
       case Draining => s.popped == |s.jobs|
       case Over => false
       case Thrown => false)
    case Pop => (s.phase == Queueing || s.phase == Draining) && s.popped < |s.jobs| && s.jobs[s.popped].status.Done?
    case Advance(j) => s.phase != Thrown && j < |s.jobs| && !s.jobs[j].status.Done?
  }

  function Step(c: Setup, s: State, a: Action): State
    requires Enabled(c, s, a)
  {
    match a
    case Produce => Walk(c, s)
    case Pop => s.(popped := s.popped + 1)
    case Advance(j) => Check(c, s, j)
  }

  /** The walking thread looks at the found flag at every node, before and after it waits for a slot. */
  function Walk(c: Setup, s: State): State
    requires Enabled(c, s, Produce)
  {
    match s.phase
    case Walking =>
      if s.pos >= |c.items| then s.(phase := Draining)
      else
        (match c.items[s.pos]
         case Visit => if s.found then s.(phase := Draining) else s.(pos := s.pos + 1)
         case Try(_, _) => if s.found then s.(pos := s.pos + 1) else s.(phase := Queueing)
         case Throw => s.(phase := Thrown))
    case Queueing => if s.found then s.(pos := s.pos + 1, phase := Walking) else s.(phase := Pushing)
    case Pushing => s.(jobs := s.jobs + [Job(s.pos, Started)], pos := s.pos + 1, phase := Walking)
    case Draining => s.(phase := Over)
  }

  /** A check gives up at once if something was found; a success counts only if it is the first one. */
  function Check(c: Setup, s: State, j: nat): State
    requires Enabled(c, s, Advance(j))
  {
    var job := s.jobs[j];
    match job.status
    case Started => s.(jobs := s.jobs[j := job.(status := if s.found then Done else Checking)])
    case Checking =>
      s.(jobs := s.jobs[j := job.(status := Judged(job.item < |c.items| && Good(c, job.item)))])
    case Judged(good) =>
      var s' := s.(jobs := s.jobs[j := job.(status := Done)]);
      if good && !s.found then s'.(result := Some(job.item), found := true) else s'
  }

  predicate Good(c: Setup, i: nat)
    requires i < |c.items|
  {
    c.items[i].Try? && c.passes(c.items[i].tree)
  }

  // ---------------------------------------------------------------- what every step keeps

  /** The proposal of this item was handed to a check. */
  ghost predicate Submitted(s: State, i: nat) {
    exists j :: 0 <= j < |s.jobs| && s.jobs[j].item == i
  }

  predicate Placed(c: Setup, s: State) {
    && s.pos <= |c.items| && s.popped <= |s.jobs| <= s.popped + c.limit
    && (forall i :: 0 <= i < s.pos ==> !c.items[i].Throw?)
    && (s.phase == Queueing || s.phase == Pushing ==> s.pos < |c.items| && c.items[s.pos].Try?)
    && (s.phase == Pushing ==> |s.jobs| < s.popped + c.limit)
    && (s.phase == Thrown ==> s.pos < |c.items| && c.items[s.pos].Throw?)
    && (s.phase == Over ==> s.popped == |s.jobs|)
    && ((s.phase == Draining || s.phase == Over) && !s.found ==> s.pos == |c.items|)
  }

  predicate JobFine(c: Setup, s: State, job: Job) {
    && job.item < s.pos <= |c.items| && c.items[job.item].Try?
    && (job.status.Judged? ==> job.status.good == Good(c, job.item))
    && (job.status.Done? && !s.found ==> !Good(c, job.item))
  }

  ghost predicate Inv(c: Setup, s: State) {
    && Placed(c, s)
    && (forall j :: 0 <= j < |s.jobs| ==> JobFine(c, s, s.jobs[j]))
    && (forall j :: 0 <= j < s.popped ==> s.jobs[j].status.Done?)
    && (!s.found ==> forall i :: 0 <= i < s.pos && c.items[i].Try? ==> Submitted(s, i))
    && (s.found <==> s.result.Some?)
    && (s.found ==> s.result.value < |c.items| && Good(c, s.result.value))
  }

  lemma InvWalk(c: Setup, s: State)
    requires Inv(c, s) && Enabled(c, s, Produce)
    ensures Inv(c, Walk(c, s))
  {
    var s' := Walk(c, s);
    forall i | !s'.found && 0 <= i < s'.pos && c.items[i].Try? ensures Submitted(s', i) {
      if i < s.pos {
        var j :| 0 <= j < |s.jobs| && s.jobs[j].item == i;
        assert s'.jobs[j] == s.jobs[j];
      } else {
        assert s.phase == Pushing && s'.jobs[|s.jobs|].item == i;
      }
    }
  }

  lemma InvCheck(c: Setup, s: State, k: nat)
    requires Inv(c, s) && Enabled(c, s, Advance(k))
    ensures Inv(c, Check(c, s, k))
  {
    var s' := Check(c, s, k);
    forall i | !s'.found && 0 <= i < s'.pos && c.items[i].Try? ensures Submitted(s', i) {
      var j :| 0 <= j < |s.jobs| && s.jobs[j].item == i;
      assert s'.jobs[j].item == i;
    }
  }

  lemma InvPop(c: Setup, s: State)
    requires Inv(c, s) && Enabled(c, s, Pop)
    ensures Inv(c, Step(c, s, Pop))
  {
    var s' := Step(c, s, Pop);
    forall i | !s'.found && 0 <= i < s'.pos && c.items[i].Try? ensures Submitted(s', i) {
      var j :| 0 <= j < |s.jobs| && s.jobs[j].item == i;
      assert s'.jobs[j].item == i;
    }
  }

  lemma InvStep(c: Setup, s: State, a: Action)
    requires Inv(c, s) && Enabled(c, s, a)
    ensures Inv(c, Step(c, s, a))
  {
    match a
    case Produce => InvWalk(c, s);
    case Pop => InvPop(c, s);
    case Advance(j) => InvCheck(c, s, j);
  }

  /** The first success stays the result. */
  lemma ResultStays(c: Setup, s: State, a: Action)
    requires Enabled(c, s, a) && s.found
    ensures Step(c, s, a).found && Step(c, s, a).result == s.result
  {
  }

  // ---------------------------------------------------------------- runs

  predicate IsRun(c: Setup, s: State, schedule: seq<Action>)
    decreases |schedule|
  {
    schedule == [] || (Enabled(c, s, schedule[0]) && IsRun(c, Step(c, s, schedule[0]), schedule[1..]))
  }

  function After(c: Setup, s: State, schedule: seq<Action>): State
    requires IsRun(c, s, schedule)
    decreases |schedule|
  {
    if schedule == [] then s else After(c, Step(c, s, schedule[0]), schedule[1..])
  }

  lemma {:induction false} InvRun(c: Setup, s: State, schedule: seq<Action>)
    requires Inv(c, s) && IsRun(c, s, schedule)
    ensures Inv(c, After(c, s, schedule))
    decreases |schedule|
  {
    if schedule != [] {
      InvStep(c, s, schedule[0]);
      InvRun(c, Step(c, s, schedule[0]), schedule[1..]);
    }
  }

  /**
   However the threads take turns, a pass that ends without a result has rejected every proposal, and
   its result is a proposal that passes otherwise. At no time are there more unfinished checks than allowed.
   */
  lemma Verdict(c: Setup, schedule: seq<Action>)
    requires IsRun(c, START, schedule)
    ensures
      var s := After(c, START, schedule);
      && (s.phase == Over && !s.found ==> forall i :: 0 <= i < |c.items| ==>
        !c.items[i].Throw? && (c.items[i].Try? ==> !Good(c, i)))
      && (s.found ==> s.result.Some? && s.result.value < |c.items| && Good(c, s.result.value))
      && (s.phase == Thrown ==> exists i :: 0 <= i < |c.items| && c.items[i].Throw?)
      && |s.jobs| <= s.popped + c.limit && forall j :: 0 <= j < s.popped <= |s.jobs| ==> s.jobs[j].status.Done?
  {
    InvRun(c, START, schedule);
    var s := After(c, START, schedule);
    if s.phase == Over && !s.found {
      InvVerdict(c, s);
    }
  }

  lemma InvVerdict(c: Setup, s: State)
    requires Inv(c, s) && s.phase == Over && !s.found
    ensures forall i :: 0 <= i < |c.items| ==> !c.items[i].Throw? && (c.items[i].Try? ==> !Good(c, i))
  {
    forall i | 0 <= i < |c.items| && c.items[i].Try? ensures !Good(c, i) {
      assert Submitted(s, i);
      var j :| 0 <= j < |s.jobs| && s.jobs[j].item == i;
      assert JobFine(c, s, s.jobs[j]);
    }
  }

  // ---------------------------------------------------------------- no deadlock, and an end

  /** The walking thread or the check at the front of the queue can go on. */
  function SomeAction(s: State): Action {
    if s.phase == Walking || s.phase == Pushing || s.popped >= |s.jobs| then Produce
    else if s.jobs[s.popped].status.Done? then Pop
    else Advance(s.popped)
  }

  lemma NoDeadlock(c: Setup, s: State)
    requires Inv(c, s) && !Final(s) && c.limit > 0
    ensures Enabled(c, s, SomeAction(s))
  {
  }

  ghost predicate Stuck(c: Setup, s: State) {
    !Final(s) && forall a :: !Enabled(c, s, a)
  }

  /** Without any thread to run checks, nothing is ever handed over. */
  predicate NothingDone(s: State) {
    s.jobs == [] && s.popped == 0 && !s.found && s.result.None? && s.phase != Pushing
  }

  lemma {:induction false} NothingIsDone(c: Setup, s: State, schedule: seq<Action>)
    requires c.limit == 0 && NothingDone(s) && IsRun(c, s, schedule)
    ensures NothingDone(After(c, s, schedule))
    decreases |schedule|
  {
    if schedule != [] {
      NothingIsDone(c, Step(c, s, schedule[0]), schedule[1..]);
    }
  }

  /** The first proposal of a pass, with nothing but visits before it. */
  predicate ProposesFirst(c: Setup, n: nat) {
    n < |c.items| && c.items[n].Try? && forall i :: 0 <= i < n ==> c.items[i].Visit?
  }

  lemma {:induction false} VisitsOnly(c: Setup, n: nat)
    requires n <= |c.items| && forall i :: 0 <= i < n ==> c.items[i].Visit?
    ensures var walk := seq(n, _ => Produce);
      IsRun(c, START, walk) && After(c, START, walk) == START.(pos := n)
  {
    var walk := seq(n, _ => Produce);
    if n > 0 {
      var before := seq(n - 1, _ => Produce);
      VisitsOnly(c, n - 1);
      RunStep(c, START, before, Produce);
      assert before + [Produce] == walk;
    }
  }

  /** Without any thread, a pass gets stuck exactly if it proposes something before it throws. */
  lemma NoThreadNoEnd(c: Setup)
    requires c.limit == 0
    ensures (exists schedule :: IsRun(c, START, schedule) && Stuck(c, After(c, START, schedule)))
       <==> exists n: nat :: ProposesFirst(c, n)
  {
    if n: nat :| ProposesFirst(c, n) {
      var walk := seq(n, _ => Produce);
      VisitsOnly(c, n);
      RunStep(c, START, walk, Produce);
      assert Stuck(c, After(c, START, walk + [Produce]));
    }
    if schedule :| IsRun(c, START, schedule) && Stuck(c, After(c, START, schedule)) {
      StuckAtFirst(c, schedule);
    }
  }

  lemma StuckAtFirst(c: Setup, schedule: seq<Action>)
    requires c.limit == 0 && IsRun(c, START, schedule) && Stuck(c, After(c, START, schedule))
    ensures ProposesFirst(c, After(c, START, schedule).pos)
  {
    var s := After(c, START, schedule);
    InvRun(c, START, schedule);
    NothingIsDone(c, START, schedule);
    assert !Enabled(c, s, Produce);
    forall i | 0 <= i < s.pos
      ensures c.items[i].Visit?
    {
      assert c.items[i].Try? ==> Submitted(s, i);
    }
  }

  function StatusLeft(status: Status): nat {
    match status
    case Started => 3
    case Checking => 2
    case Judged(_) => 1
    case Done => 0
  }

  function JobsLeft(jobs: seq<Job>): nat {
    if jobs == [] then 0 else StatusLeft(jobs[0].status) + JobsLeft(jobs[1..])
  }

  lemma {:induction false} JobsLeftInPlace(jobs: seq<Job>, j: nat, job: Job)
    requires j < |jobs|
    ensures JobsLeft(jobs[j := job]) + StatusLeft(jobs[j].status) == JobsLeft(jobs) + StatusLeft(job.status)
    decreases j
  {
    if j == 0 {
      assert jobs[j := job][1..] == jobs[1..];
    } else {
      JobsLeftInPlace(jobs[1..], j - 1, job);
      assert jobs[j := job][1..] == jobs[1..][j - 1 := job];
    }
  }

  lemma {:induction false} JobsLeftAppend(jobs: seq<Job>, job: Job)
    ensures JobsLeft(jobs + [job]) == JobsLeft(jobs) + StatusLeft(job.status)
  {
    if jobs != [] {
      JobsLeftAppend(jobs[1..], job);
      assert (jobs + [job])[1..] == jobs[1..] + [job];
    }
  }

  function PhaseLeft(phase: Phase): nat {
    match phase
    case Walking => 3
    case Queueing => 2
    case Pushing => 1
    case Draining => 1
    case Over => 0
    case Thrown => 0
  }

  function Left(c: Setup, s: State): int {
    8 * (|c.items| - s.pos) + PhaseLeft(s.phase) + JobsLeft(s.jobs) + |s.jobs| - s.popped
  }

  lemma WalkLeft(c: Setup, s: State)
    requires Placed(c, s) && Enabled(c, s, Produce)
    ensures Left(c, Walk(c, s)) < Left(c, s)
  {
    JobsLeftAppend(s.jobs, Job(s.pos, Started));
  }

  lemma CheckLeft(c: Setup, s: State, j: nat)
    requires Enabled(c, s, Advance(j))
    ensures Left(c, Check(c, s, j)) < Left(c, s)
  {
    var s' := Check(c, s, j);
    JobsLeftInPlace(s.jobs, j, s'.jobs[j]);
    assert s'.jobs == s.jobs[j := s'.jobs[j]];
  }

  /** Every step brings the end nearer. */
  lemma StepLeft(c: Setup, s: State, a: Action)
    requires Inv(c, s) && Enabled(c, s, a)
    ensures 0 <= Left(c, Step(c, s, a)) < Left(c, s)
  {
    InvStep(c, s, a);
    match a
    case Produce => WalkLeft(c, s);
    case Pop =>
    case Advance(j) => CheckLeft(c, s, j);
  }

  /** No schedule is longer than what is left at its start. */
  lemma {:induction false} RunsAreBounded(c: Setup, s: State, schedule: seq<Action>)
    requires Inv(c, s) && IsRun(c, s, schedule)
    ensures |schedule| <= Left(c, s)
    decreases |schedule|
  {
    if schedule != [] {
      InvStep(c, s, schedule[0]);
      StepLeft(c, s, schedule[0]);
      RunsAreBounded(c, Step(c, s, schedule[0]), schedule[1..]);
    }
  }

  /** One pass, under whatever schedule the threads happen to follow. */
  method RunPass(c: Setup) returns (s: State, ghost schedule: seq<Action>)
    requires c.limit > 0
    ensures IsRun(c, START, schedule) && s == After(c, START, schedule) && Final(s) && Inv(c, s)
  {
    s, schedule := START, [];
    while !Final(s)
      invariant Inv(c, s) && IsRun(c, START, schedule) && s == After(c, START, schedule)
      decreases Left(c, s)
    {
      NoDeadlock(c, s);
      var a := SomeAction(s);
      var other: Action := *;
      if Enabled(c, s, other) {
        a := other;
      }
      StepLeft(c, s, a);
      InvStep(c, s, a);
      RunStep(c, START, schedule, a);
      s, schedule := Step(c, s, a), schedule + [a];
    }
  }

  lemma {:induction false} RunStep(c: Setup, s: State, schedule: seq<Action>, a: Action)
    requires IsRun(c, s, schedule) && Enabled(c, After(c, s, schedule), a)
    ensures IsRun(c, s, schedule + [a])
    ensures After(c, s, schedule + [a]) == Step(c, After(c, s, schedule), a)
    decreases |schedule|
  {
    if schedule == [] {
      assert (schedule + [a])[1..] == [];
    } else {
      RunStep(c, Step(c, s, schedule[0]), schedule[1..], a);
      assert (schedule + [a])[1..] == schedule[1..] + [a];
    }
  }
}
