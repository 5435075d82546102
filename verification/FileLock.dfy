/** The lock file protocol of `config/save.ts`: processes that create, inspect, reap and release one lock file, in any
    interleaving, with crashes. Every file system call is one step. */
module FileLock {
  import opened Common

  const LOCK_TIMEOUT_MS: int := 5_000
  const STALE_LOCK_MS: int := 30_000

  /** A lock file. `inst` tells apart the files that exist under the same name one after another. */
  datatype LockFile = LockFile(inst: nat, owner: nat, mtime: int)

  /** Where a process is in `acquireLock`; `deadline` is fixed when it starts. */
  datatype Phase =
    | Idle
    | Trying(deadline: int)
    | SeenOld(deadline: int, aged: nat)
    | OwnerRead(deadline: int, aged: nat, read: nat, owner: nat)
    | Reaping(deadline: int, aged: nat, judged: Option<nat>)
    | Waiting(deadline: int)
    | Critical(inst: nat)
    | Dead

  datatype State = State(clock: int, lock: Option<LockFile>, next: nat, procs: map<nat, Phase>)

  datatype Step =
    | Tick(elapsed: nat)
    | Spawn(p: nat)
    | Begin(p: nat)
    | Create(p: nat)
    | Stat(p: nat)
    | ReadPid(p: nat)
    | Probe(p: nat)
    | Unlink(p: nat)
    | CheckDeadline(p: nat)
    | Release(p: nat)
    | Crash(p: nat)

  predicate Alive(s: State, p: nat) {
    p in s.procs && s.procs[p] != Dead
  }

  predicate Enabled(s: State, step: Step) {
    match step
    case Tick(_) => true
    case Spawn(p) => !Alive(s, p)
    case Begin(p) => p in s.procs && s.procs[p].Idle?
    case Create(p) => p in s.procs && s.procs[p].Trying? && s.lock.None?
    case Stat(p) => p in s.procs && s.procs[p].Trying?
    case ReadPid(p) => p in s.procs && s.procs[p].SeenOld?
    case Probe(p) => p in s.procs && s.procs[p].OwnerRead?
    case Unlink(p) => p in s.procs && s.procs[p].Reaping?
    case CheckDeadline(p) => p in s.procs && s.procs[p].Waiting?
    case Release(p) => p in s.procs && s.procs[p].Critical?
    case Crash(p) => Alive(s, p)
  }

  function Goto(s: State, p: nat, phase: Phase): State {
    s.(procs := s.procs[p := phase])
  }

  function Next(s: State, step: Step): State
    requires Enabled(s, step)
  {
    match step
    case Tick(d) => s.(clock := s.clock + d)
    case Spawn(p) => Goto(s, p, Idle)
    case Begin(p) => Goto(s, p, Trying(s.clock + LOCK_TIMEOUT_MS))
    case Create(p) =>
      // the exclusive creation and the writing of the PID
      Goto(s, p, Critical(s.next)).(lock := Some(LockFile(s.next, p, s.clock)), next := s.next + 1)
    case Stat(p) =>
      // EEXIST, then the age of whatever file is there now; a vanished file means trying again
      if s.lock.None? then s
      else if s.clock - s.lock.value.mtime > STALE_LOCK_MS then
        Goto(s, p, SeenOld(s.procs[p].deadline, s.lock.value.inst))
      else Goto(s, p, Waiting(s.procs[p].deadline))
    case ReadPid(p) =>
      // a failed read leaves the PID empty, and an empty PID counts as dead
      var ph := s.procs[p];
      if s.lock.None? then Goto(s, p, Reaping(ph.deadline, ph.aged, None))
      else Goto(s, p, OwnerRead(ph.deadline, ph.aged, s.lock.value.inst, s.lock.value.owner))
    case Probe(p) =>
      var ph := s.procs[p];
      if Alive(s, ph.owner) then Goto(s, p, Waiting(ph.deadline))
      else Goto(s, p, Reaping(ph.deadline, ph.aged, Some(ph.read)))
    case Unlink(p) =>
      // removes whatever lock file is there now
      Goto(s, p, Trying(s.procs[p].deadline)).(lock := None)
    case CheckDeadline(p) =>
      // past the deadline the call throws, before any `finally` that would release
      if s.clock >= s.procs[p].deadline then Goto(s, p, Idle) else Goto(s, p, Trying(s.procs[p].deadline))
    case Release(p) => Goto(s, p, Idle).(lock := None)
    case Crash(p) => Goto(s, p, Dead)
  }

  // ---------------------------------------------------------------- the invariant

  predicate InCritical(s: State, p: nat, inst: nat) {
    p in s.procs && s.procs[p] == Critical(inst)
  }

  /** A live process in the critical section: the lock file is its own. */
  ghost predicate HoldersOwnTheLock(s: State) {
    forall p, inst | InCritical(s, p, inst) ::
      s.lock.Some? && s.lock.value.inst == inst && s.lock.value.owner == p
  }

  /** What each waiting process knows about the lock files it looked at. */
  ghost predicate KnowledgeIsSound(s: State) {
    && (s.lock.Some? ==> s.lock.value.inst < s.next)
    && (forall p | p in s.procs && s.procs[p].OwnerRead? ::
          s.procs[p].read < s.next && forall q | InCritical(s, q, s.procs[p].read) :: q == s.procs[p].owner)
    && (forall p | p in s.procs && s.procs[p].Reaping? && s.procs[p].judged.Some? ::
          s.procs[p].judged.value < s.next && forall q :: !InCritical(s, q, s.procs[p].judged.value))
  }

  ghost predicate Inv(s: State) {
    HoldersOwnTheLock(s) && KnowledgeIsSound(s)
  }

  /** A reaping unlink that removes nothing, or the very lock file whose age and PID were inspected. */
  predicate Faithful(s: State, step: Step) {
    step.Unlink? && step.p in s.procs && s.procs[step.p].Reaping? && s.lock.Some? ==>
      && s.lock.value.inst == s.procs[step.p].aged
      && s.procs[step.p].judged == Some(s.lock.value.inst)
  }

  /** Is the present lock file that of a live process in the critical section? */
  ghost predicate Held(s: State) {
    s.lock.Some? && exists q :: InCritical(s, q, s.lock.value.inst)
  }

  lemma SameCriticals(s: State, s': State, step: Step)
    requires Enabled(s, step) && s' == Next(s, step)
    ensures forall q, inst :: InCritical(s', q, inst)
              ==> InCritical(s, q, inst) || (step.Create? && q == step.p && inst == s.next)
    ensures forall q, inst :: InCritical(s, q, inst) && !InCritical(s', q, inst)
              ==> (step.Release? || step.Crash?) && step.p == q
  {
  }

  lemma KnowledgeStaysSound(s: State, step: Step)
    requires Inv(s) && Enabled(s, step)
    ensures KnowledgeIsSound(Next(s, step))
  {
    var s' := Next(s, step);
    SameCriticals(s, s', step);
    forall p | p in s'.procs && s'.procs[p].OwnerRead?
      ensures s'.procs[p].read < s'.next && forall q | InCritical(s', q, s'.procs[p].read) :: q == s'.procs[p].owner
    {
      if p in s.procs && s.procs[p].OwnerRead? {
        assert s'.procs[p] == s.procs[p];
      }
    }
    forall p | p in s'.procs && s'.procs[p].Reaping? && s'.procs[p].judged.Some?
      ensures s'.procs[p].judged.value < s'.next && forall q :: !InCritical(s', q, s'.procs[p].judged.value)
    {
      if p in s.procs && s.procs[p].Reaping? {
        assert s'.procs[p] == s.procs[p];
      }
    }
  }

  /** Every step but a reaping unlink keeps the invariant; an unlink keeps it exactly when the file it removes is not
      held. */
  lemma StepAndInvariant(s: State, step: Step)
    requires Inv(s) && Enabled(s, step)
    ensures Inv(Next(s, step)) <==> !(step.Unlink? && Held(s))
  {
    var s' := Next(s, step);
    KnowledgeStaysSound(s, step);
    SameCriticals(s, s', step);
    if step.Unlink? && Held(s) {
      var q :| InCritical(s, q, s.lock.value.inst);
      assert InCritical(s', q, s.lock.value.inst);
    } else {
      forall p, inst | InCritical(s', p, inst)
        ensures s'.lock.Some? && s'.lock.value.inst == inst && s'.lock.value.owner == p
      {
        if !step.Create? {
          assert InCritical(s, p, inst);
          if step.Release? {
            assert InCritical(s, step.p, s.procs[step.p].inst);
          }
        }
      }
    }
  }

  /** A faithful unlink never removes a held lock file. */
  lemma FaithfulIsSafe(s: State, step: Step)
    requires Inv(s) && Enabled(s, step) && Faithful(s, step) && step.Unlink?
    ensures !Held(s)
  {
  }

  // ---------------------------------------------------------------- runs

  datatype Run = Start(init: State) | Later(before: Run, step: Step) {
    predicate Valid()
      decreases this, 0
    {
      Later? ==> before.Valid() && Enabled(before.End(), step)
    }

    function End(): State
      requires Valid()
      decreases this, 1
    {
      if Start? then init else Next(before.End(), step)
    }

    ghost predicate AllFaithful()
      requires Valid()
      decreases this, 1
    {
      Later? ==> before.AllFaithful() && Faithful(before.End(), step)
    }

    ghost predicate NeverUnlinksHeld()
      requires Valid()
      decreases this, 1
    {
      Later? ==> before.NeverUnlinksHeld() && !(step.Unlink? && Held(before.End()))
    }

    /** At the end and at every moment before, holders own the lock file. */
    ghost predicate AlwaysOwned()
      requires Valid()
      decreases this, 1
    {
      Inv(End()) && (Later? ==> before.AlwaysOwned())
    }

    function Origin(): State {
      if Start? then init else before.Origin()
    }
  }

  /** Before any process of the run has done anything; an abandoned lock file may be there. */
  predicate Initial(s: State) {
    s.procs == map[] && (s.lock.Some? ==> s.lock.value.inst < s.next)
  }

  ghost predicate MutualExclusion(s: State) {
    forall p, i, q, j | InCritical(s, p, i) && InCritical(s, q, j) :: p == q
  }

  lemma OwnersExclude(s: State)
    requires Inv(s)
    ensures MutualExclusion(s)
  {
  }

  /** In every run, with any number of waiters and crashes, holders own the lock file at every moment if and only if no
      unlink of the run removes a held lock file. */
  lemma {:induction false} OwnedExactly(run: Run)
    requires run.Valid() && Initial(run.Origin())
    ensures run.AlwaysOwned() <==> run.NeverUnlinksHeld()
  {
    if run.Start? {
    } else {
      OwnedExactly(run.before);
      if run.before.AlwaysOwned() {
        StepAndInvariant(run.before.End(), run.step);
      }
    }
  }

  /** And after an unlink that does remove one, its process creates the next lock file: two are in the critical
      section. */
  lemma HeldUnlinkLetsTwoIn(s: State, p: nat)
    requires Inv(s) && Enabled(s, Unlink(p)) && Held(s)
    ensures var s' := Next(s, Unlink(p)); Enabled(s', Create(p)) && !MutualExclusion(Next(s', Create(p)))
  {
    var q :| InCritical(s, q, s.lock.value.inst);
    var s' := Next(s, Unlink(p));
    assert InCritical(Next(s', Create(p)), q, s.lock.value.inst);
    assert InCritical(Next(s', Create(p)), p, s'.next);
  }

  /** Reaping that removes only what was inspected never removes a held lock file. */
  lemma {:induction false} FaithfulRunsAreSafe(run: Run)
    requires run.Valid() && Initial(run.Origin()) && run.AllFaithful()
    ensures run.NeverUnlinksHeld()
  {
    if run.Start? {
    } else {
      FaithfulRunsAreSafe(run.before);
      OwnedExactly(run.before);
      if run.step.Unlink? {
        FaithfulIsSafe(run.before.End(), run.step);
      }
    }
  }

  /** With any number of waiters and crashes, in every run in which reaping removes only what was inspected, at most one
      live process is in the critical section and the lock file is its own. */
  lemma AtMostOneHolder(run: Run)
    requires run.Valid() && Initial(run.Origin()) && run.AllFaithful()
    ensures Inv(run.End())
    ensures MutualExclusion(run.End())
  {
    FaithfulRunsAreSafe(run);
    OwnedExactly(run);
    OwnersExclude(run.End());
  }

  /** Who may change the lock file: a creator when there is none, its own holder, and a reaper whose file belongs to no
      live process in the critical section. In particular a waiter that times out leaves it alone. */
  lemma LockFileIsLeftAlone(s: State, step: Step)
    requires Inv(s) && Enabled(s, step) && Faithful(s, step) && Next(s, step).lock != s.lock
    ensures || (step.Create? && s.lock.None?)
            || (step.Release? && s.lock.Some? && s.lock.value.owner == step.p
                && InCritical(s, step.p, s.lock.value.inst))
            || (step.Unlink? && s.lock.Some? && !Held(s))
  {
    if step.Unlink? {
      FaithfulIsSafe(s, step);
    } else if step.Release? {
      assert InCritical(s, step.p, s.procs[step.p].inst);
    }
  }

  // ---------------------------------------------------------------- what the lock does for a caller

  /** Whoever creates the lock file is in the critical section and owns it; whoever releases it leaves the section, and
      the file is gone. */
  lemma CreateThenRelease(s: State, p: nat)
    requires Enabled(s, Create(p))
    ensures var held := Next(s, Create(p));
            && held.lock == Some(LockFile(s.next, p, s.clock)) && InCritical(held, p, s.next)
            && Enabled(held, Release(p))
            && Next(held, Release(p)).lock.None? && Next(held, Release(p)).procs[p] == Idle
  {
  }

  /** The lock file is older than half a minute and the process that wrote it is gone. */
  predicate IsAbandoned(s: State) {
    s.lock.Some? && s.clock > s.lock.value.mtime + 30_000 && !Alive(s, s.lock.value.owner)
  }

  /** Calls made one after another, with nothing in between. */
  function Alone(s: State, calls: seq<Step>): Option<State>
    decreases |calls|
  {
    if calls == [] then Some(s)
    else if Enabled(s, calls[0]) then Alone(Next(s, calls[0]), calls[1..])
    else None
  }

  lemma FirstCall(s: State, call: Step, rest: seq<Step>)
    requires Enabled(s, call)
    ensures Alone(s, [call] + rest) == Alone(Next(s, call), rest)
  {
    assert ([call] + rest)[1..] == rest;
  }

  /** A process that wants the lock, finds it abandoned and is not disturbed takes it within one round. */
  lemma AbandonedIsTaken(s: State, p: nat)
    requires p in s.procs && s.procs[p].Trying? && IsAbandoned(s)
    ensures var end := Alone(s, [Stat(p), ReadPid(p), Probe(p), Unlink(p), Create(p)]);
            end.Some? && InCritical(end.value, p, s.next) && end.value.lock == Some(LockFile(s.next, p, s.clock))
  {
    var s1 := Next(s, Stat(p));
    var s2 := Next(s1, ReadPid(p));
    var s3 := Next(s2, Probe(p));
    var s4 := Next(s3, Unlink(p));
    FirstCall(s4, Create(p), []);
    FirstCall(s3, Unlink(p), [Create(p)]);
    FirstCall(s2, Probe(p), [Unlink(p), Create(p)]);
    FirstCall(s1, ReadPid(p), [Probe(p), Unlink(p), Create(p)]);
    FirstCall(s, Stat(p), [ReadPid(p), Probe(p), Unlink(p), Create(p)]);
    assert [Create(p)] + [] == [Create(p)];
  }

  lemma DeadlineEnds(s: State, waits: State, p: nat)
    requires p in s.procs && s.procs[p].Trying? && waits == Goto(s, p, Waiting(s.procs[p].deadline))
    ensures Next(waits, CheckDeadline(p)) == if s.clock >= s.procs[p].deadline then Goto(s, p, Idle) else s
  {
    assert waits.procs[p := Idle] == s.procs[p := Idle];
    assert waits.procs[p := s.procs[p]] == s.procs;
  }

  /** One that finds the lock young, or held by a live process, leaves it alone and tries again, or gives up once five
      seconds have passed since it began. */
  lemma OthersLockIsLeft(s: State, p: nat, aged: bool)
    requires p in s.procs && s.procs[p].Trying? && s.lock.Some?
    requires aged == (s.clock > s.lock.value.mtime + 30_000) && (aged ==> Alive(s, s.lock.value.owner))
    ensures var calls := if aged then [Stat(p), ReadPid(p), Probe(p), CheckDeadline(p)]
              else [Stat(p), CheckDeadline(p)];
            Alone(s, calls) == Some(if s.clock >= s.procs[p].deadline then Goto(s, p, Idle) else s)
  {
    var s1 := Next(s, Stat(p));
    if aged {
      var s2 := Next(s1, ReadPid(p));
      var s3 := Next(s2, Probe(p));
      assert s3.procs == s.procs[p := Waiting(s.procs[p].deadline)];
      FirstCall(s3, CheckDeadline(p), []);
      FirstCall(s2, Probe(p), [CheckDeadline(p)]);
      FirstCall(s1, ReadPid(p), [Probe(p), CheckDeadline(p)]);
      FirstCall(s, Stat(p), [ReadPid(p), Probe(p), CheckDeadline(p)]);
      DeadlineEnds(s, s3, p);
    } else {
      FirstCall(s1, CheckDeadline(p), []);
      FirstCall(s, Stat(p), [CheckDeadline(p)]);
      DeadlineEnds(s, s1, p);
    }
    assert [CheckDeadline(p)] + [] == [CheckDeadline(p)];
  }

  /** Time, beginning, starting and crashing: what the remaining steps do. */
  lemma OtherSteps(s: State, step: Step)
    requires Enabled(s, step)
    ensures step.Tick? ==> Next(s, step) == s.(clock := s.clock + step.elapsed)
    ensures step.Begin? ==> Next(s, step) == s.(procs := s.procs[step.p := Trying(s.clock + 5_000)])
    ensures step.Spawn? ==> Alive(Next(s, step), step.p) && Next(s, step).procs[step.p] == Idle
    ensures step.Crash? ==> !Alive(Next(s, step), step.p) && Next(s, step).lock == s.lock
    ensures step.Stat? && s.lock.None? ==> Next(s, step) == s
  {
  }

  // ---------------------------------------------------------------- the claim without the condition is false

  const OLD := Some(LockFile(0, 9, 0))

  function Two(lock: Option<LockFile>, next: nat, one: Phase, two: Phase): State {
    State(40_000, lock, next, map[1 := one, 2 := two])
  }

  lemma Extend(run: Run, step: Step, s: State, s': State)
    requires run.Valid() && run.End() == s && Enabled(s, step) && Next(s, step) == s'
    ensures Later(run, step).Valid() && Later(run, step).End() == s'
    ensures Later(run, step).Origin() == run.Origin()
  {
  }

  lemma TwoTry() returns (run: Run)
    ensures run.Valid() && Initial(run.Origin())
    ensures run.End() == Two(OLD, 1, Trying(45_000), Trying(45_000))
  {
    var s0 := State(40_000, OLD, 1, map[]);
    var s1 := s0.(procs := map[1 := Idle]);
    Extend(Start(s0), Spawn(1), s0, s1);
    var r := Later(Start(s0), Spawn(1));
    Extend(r, Spawn(2), s1, Two(OLD, 1, Idle, Idle));
    r := Later(r, Spawn(2));
    Extend(r, Begin(1), r.End(), Two(OLD, 1, Trying(45_000), Idle));
    r := Later(r, Begin(1));
    Extend(r, Begin(2), r.End(), Two(OLD, 1, Trying(45_000), Trying(45_000)));
    run := Later(r, Begin(2));
  }

  /** Two waiters have found an abandoned lock file too old. */
  lemma TwoWaiters() returns (run: Run)
    ensures run.Valid() && Initial(run.Origin())
    ensures run.End() == Two(OLD, 1, SeenOld(45_000, 0), SeenOld(45_000, 0))
  {
    var r := TwoTry();
    Extend(r, Stat(1), r.End(), Two(OLD, 1, SeenOld(45_000, 0), Trying(45_000)));
    r := Later(r, Stat(1));
    Extend(r, Stat(2), r.End(), Two(OLD, 1, SeenOld(45_000, 0), SeenOld(45_000, 0)));
    run := Later(r, Stat(2));
  }

  /** Both judge it dead. */
  lemma TwoJudges() returns (run: Run)
    ensures run.Valid() && Initial(run.Origin())
    ensures run.End() == Two(OLD, 1, Reaping(45_000, 0, Some(0)), Reaping(45_000, 0, Some(0)))
  {
    var r := TwoWaiters();
    var seen, read, dead := SeenOld(45_000, 0), OwnerRead(45_000, 0, 0, 9), Reaping(45_000, 0, Some(0));
    Extend(r, ReadPid(1), r.End(), Two(OLD, 1, read, seen));
    r := Later(r, ReadPid(1));
    Extend(r, ReadPid(2), r.End(), Two(OLD, 1, read, read));
    r := Later(r, ReadPid(2));
    Extend(r, Probe(1), r.End(), Two(OLD, 1, dead, read));
    r := Later(r, Probe(1));
    Extend(r, Probe(2), r.End(), Two(OLD, 1, dead, dead));
    run := Later(r, Probe(2));
  }

  /** One waiter is about to create, the other about to unlink: both get in. */
  lemma SecondReaper(before: Run, p: nat, q: nat, aged: nat, judged: Option<nat>) returns (run: Run)
    requires before.Valid() && Initial(before.Origin()) && p != q
    requires before.End() == State(40_000, None, 1, map[p := Trying(45_000), q := Reaping(45_000, aged, judged)])
    ensures run.Valid() && Initial(run.Origin())
    ensures InCritical(run.End(), p, 1) && InCritical(run.End(), q, 2)
  {
    var mine := Some(LockFile(1, p, 40_000));
    var s1 := State(40_000, mine, 2, map[p := Critical(1), q := Reaping(45_000, aged, judged)]);
    Extend(before, Create(p), before.End(), s1);
    var s2 := State(40_000, None, 2, map[p := Critical(1), q := Trying(45_000)]);
    Extend(Later(before, Create(p)), Unlink(q), s1, s2);
    var r := Later(Later(before, Create(p)), Unlink(q));
    Extend(r, Create(q), s2, Next(s2, Create(q)));
    run := Later(r, Create(q));
  }

  /** Two waiters judge the same abandoned file dead. The second unlinks after the first has reaped it and created its
      own: both are in the critical section. */
  lemma TwoReapersMeet() returns (run: Run)
    ensures run.Valid() && Initial(run.Origin())
    ensures InCritical(run.End(), 1, 1) && InCritical(run.End(), 2, 2)
  {
    var r := TwoJudges();
    var dead := Reaping(45_000, 0, Some(0));
    Extend(r, Unlink(1), r.End(), Two(None, 1, Trying(45_000), dead));
    r := Later(r, Unlink(1));
    run := SecondReaper(r, 1, 2, 0, Some(0));
  }

  /** A waiter saw an old file; it is gone when the PID is read, the failed read counts as a dead PID, and the unlink
      removes the lock of a live holder: now two are in the critical section. */
  lemma FailedReadReapsALiveLock() returns (run: Run)
    ensures run.Valid() && Initial(run.Origin())
    ensures InCritical(run.End(), 2, 1) && InCritical(run.End(), 1, 2)
  {
    var r := TwoWaiters();
    var seen := SeenOld(45_000, 0);
    Extend(r, ReadPid(2), r.End(), Two(OLD, 1, seen, OwnerRead(45_000, 0, 0, 9)));
    r := Later(r, ReadPid(2));
    Extend(r, Probe(2), r.End(), Two(OLD, 1, seen, Reaping(45_000, 0, Some(0))));
    r := Later(r, Probe(2));
    Extend(r, Unlink(2), r.End(), Two(None, 1, seen, Trying(45_000)));
    r := Later(r, Unlink(2));
    Extend(r, ReadPid(1), r.End(), Two(None, 1, Reaping(45_000, 0, None), Trying(45_000)));
    r := Later(r, ReadPid(1));
    assert r.End().procs == map[2 := Trying(45_000), 1 := Reaping(45_000, 0, None)];
    run := SecondReaper(r, 2, 1, 0, None);
  }
}
