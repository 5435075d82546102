/** The refresh protocol run under the lock file: `withConfigLock` and `saveLocationAuth` put together. Acquiring and
    releasing happen by lock file steps only; nothing promises mutual exclusion any more. */
module LockedRefresh {
  import opened Common
  import L = FileLock
  import T = TokenRefresh

  datatype System = System(lock: L.State, work: T.State)

  datatype Step = LockStep(l: L.Step) | WorkStep(t: T.Step)

  /** What a lock file step means for the work under the lock: creating the file is entering, releasing it is
      leaving. */
  function Meaning(l: L.Step): Option<T.Step> {
    match l
    case Create(p) => Some(T.Enter(p))
    case Release(p) => Some(T.Leave(p))
    case Crash(p) => Some(T.Crash(p))
    case Tick(d) => Some(T.Tick(d))
    case _ => None
  }

  /** Steps of the work itself, between entering and leaving, and a process loading its tokens. */
  predicate OwnWork(t: T.Step) {
    !t.Enter? && !t.Leave? && !t.Crash? && !t.Tick?
  }

  predicate Enabled(s: System, step: Step) {
    match step
    case LockStep(l) => L.Enabled(s.lock, l) && (Meaning(l).Some? ==> T.Enabled(s.work, Meaning(l).value))
    case WorkStep(t) => OwnWork(t) && T.Enabled(s.work, t) && L.Alive(s.lock, t.p)
  }

  function Next(s: System, step: Step): System
    requires Enabled(s, step)
  {
    match step
    case LockStep(l) =>
      System(L.Next(s.lock, l), if Meaning(l).Some? then T.Next(s.work, Meaning(l).value) else s.work)
    case WorkStep(t) => s.(work := T.Next(s.work, t))
  }

  predicate HoldsLock(s: L.State, p: nat) {
    p in s.procs && s.procs[p].Critical?
  }

  /** Whoever is inside is in the lock's critical section, and the other way round. */
  ghost predicate Coupled(s: System) {
    forall p :: T.IsInside(s.work, p) <==> HoldsLock(s.lock, p)
  }

  /** The exclusive creation of the lock file happens only while nobody is inside: every step is one the abstract lock
      permits. */
  lemma LockKeepsPromise(s: System, step: Step)
    requires L.Inv(s.lock) && Coupled(s) && Enabled(s, step)
    ensures step.WorkStep? ==> T.Legal(s.work, step.t)
    ensures step.LockStep? && Meaning(step.l).Some? ==> T.Legal(s.work, Meaning(step.l).value)
  {
    if step.LockStep? && step.l.Create? {
      forall p | p in s.work.stage ensures !T.IsInside(s.work, p) {
        assert HoldsLock(s.lock, p) ==> L.InCritical(s.lock, p, s.lock.procs[p].inst);
      }
    }
  }

  lemma LockStepCoupling(s: System, l: L.Step, q: nat)
    requires Enabled(s, LockStep(l)) && (T.IsInside(s.work, q) <==> HoldsLock(s.lock, q))
    ensures T.IsInside(Next(s, LockStep(l)).work, q) <==> HoldsLock(Next(s, LockStep(l)).lock, q)
  {
  }

  lemma StepKeepsCoupling(s: System, step: Step)
    requires L.Inv(s.lock) && Coupled(s) && Enabled(s, step)
    ensures Coupled(Next(s, step))
  {
    LockKeepsPromise(s, step);
    var s' := Next(s, step);
    forall q ensures T.IsInside(s'.work, q) <==> HoldsLock(s'.lock, q) {
      assert T.IsInside(s.work, q) <==> HoldsLock(s.lock, q);
      match step
      case LockStep(l) =>
        LockStepCoupling(s, l, q);
      case WorkStep(t) =>
        assert T.IsInside(s'.work, q) <==> T.IsInside(s.work, q);
    }
  }

  /** The work step that a step of the whole system is, if any. */
  function Work(step: Step): Option<T.Step> {
    match step
    case LockStep(l) => Meaning(l)
    case WorkStep(t) => Some(t)
  }

  /** The setting the results about tokens are for. */
  predicate Expected(s: System, step: Step) {
    Work(step).Some? ==> T.Expected(s.work, Work(step).value)
  }

  predicate BehindAndStale(s: System, step: Step) {
    Work(step).Some? && T.BehindAndStale(s.work, Work(step).value)
  }

  ghost predicate UnlinksHeld(s: System, step: Step) {
    step.LockStep? && step.l.Unlink? && L.Held(s.lock)
  }

  datatype Run = Start(init: System) | Later(before: Run, step: Step) {
    predicate Valid()
      decreases this, 0
    {
      Later? ==> before.Valid() && Enabled(before.End(), step)
    }

    function End(): System
      requires Valid()
      decreases this, 1
    {
      if Start? then init else Next(before.End(), step)
    }

    /** Reaping unlinks remove only the lock file that was inspected. */
    ghost predicate AllFaithful()
      requires Valid()
      decreases this, 1
    {
      Later? ==> before.AllFaithful() && (step.LockStep? ==> L.Faithful(before.End().lock, step.l))
    }

    ghost predicate NeverUnlinksHeld()
      requires Valid()
      decreases this, 1
    {
      Later? ==> before.NeverUnlinksHeld() && !UnlinksHeld(before.End(), step)
    }

    predicate AllExpected()
      requires Valid()
      decreases this, 1
    {
      Later? ==> before.AllExpected() && Expected(before.End(), step)
    }

    ghost predicate NeverBehindAndStale()
      requires Valid()
      decreases this, 1
    {
      Later? ==> before.NeverBehindAndStale() && !BehindAndStale(before.End(), step)
    }

    function Origin(): System {
      if Start? then init else before.Origin()
    }
  }

  lemma LockStepKeepsLock(s: System, step: Step)
    requires L.Inv(s.lock) && Enabled(s, step) && !UnlinksHeld(s, step)
    ensures L.Inv(Next(s, step).lock)
  {
    if step.LockStep? {
      L.StepAndInvariant(s.lock, step.l);
    }
  }

  /** Over every run of any number of processes, with crashes at any moment, time-outs, direct saves of any location and
      reaping that removes no held lock file: at most one process works on the file at a time and the lock file is its
      own, and the file is the saves folded in the order of lock acquisition. */
  lemma {:induction false} EveryLockedRun(run: Run)
    requires run.Valid() && run.NeverUnlinksHeld()
    requires L.Initial(run.Origin().lock) && run.Origin().work.stage == map[] && run.Origin().work.log == []
    ensures Coupled(run.End())
    ensures L.Inv(run.End().lock)
    ensures T.NothingLost(run.End().work, run.Origin().work.config)
  {
    if run.Start? {
      T.NothingIsEverLost(T.Start(run.init.work));
    } else {
      EveryLockedRun(run.before);
      var s, step := run.before.End(), run.step;
      LockKeepsPromise(s, step);
      StepKeepsCoupling(s, step);
      LockStepKeepsLock(s, step);
      if Work(step).Some? {
        T.StepLosesNothing(s.work, Work(step).value, run.Origin().work.config);
      }
    }
  }

  /** And in every such run of the token setting, tokens on disk, in memory and at the server agree, and without a
      resolution behind a stale entry no spent token is presented. */
  lemma {:induction false} EveryLockedTokenRun(run: Run)
    requires run.Valid() && run.NeverUnlinksHeld() && run.AllExpected()
    requires L.Initial(run.Origin().lock) && T.Initial(run.Origin().work)
    ensures T.Inv(run.End().work, run.Origin().work.config)
    ensures run.NeverBehindAndStale() ==> T.NothingSpentPresented(run.End().work)
  {
    if run.Start? {
      T.InitialIsInOrder(run.init.work);
    } else {
      EveryLockedTokenRun(run.before);
      EveryLockedRun(run.before);
      var s, step := run.before.End(), run.step;
      LockKeepsPromise(s, step);
      if Work(step).Some? {
        T.StepKeepsInv(s.work, Work(step).value, run.Origin().work.config);
        if run.NeverBehindAndStale() {
          T.PresentedStaysUnspent(s.work, Work(step).value, run.Origin().work.config);
        }
      }
    }
  }

  /** Reaping that removes only what was inspected removes no held lock file. */
  lemma {:induction false} FaithfulRunsAreSafe(run: Run)
    requires run.Valid() && run.AllFaithful()
    requires L.Initial(run.Origin().lock) && run.Origin().work.stage == map[] && run.Origin().work.log == []
    ensures run.NeverUnlinksHeld()
  {
    if run.Start? {
    } else {
      FaithfulRunsAreSafe(run.before);
      EveryLockedRun(run.before);
      if UnlinksHeld(run.before.End(), run.step) {
        L.FaithfulIsSafe(run.before.End().lock, run.step.l);
      }
    }
  }

  lemma ClockStep(s: System, step: Step)
    requires Enabled(s, step)
    ensures Next(s, step).work.clock - s.work.clock == Next(s, step).lock.clock - s.lock.clock
    ensures Next(s, step).lock.clock - s.lock.clock == if step.LockStep? && step.l.Tick? then step.l.elapsed else 0
  {
  }

  /** One clock for the lock's age and the tokens' expiry. */
  lemma {:induction false} ClocksRunTogether(run: Run)
    requires run.Valid()
    ensures run.End().work.clock - run.Origin().work.clock == run.End().lock.clock - run.Origin().lock.clock
  {
    if run.Start? {
    } else {
      ClocksRunTogether(run.before);
      ClockStep(run.before.End(), run.step);
    }
  }
}
