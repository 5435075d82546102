/** The retry loop that takes the lock file (`acquireLock` in `config/save.ts`), seen from one process. What the file
    system answers in each round is an input, since other processes run between the calls; FileLock.dfy interleaves
    them. */
module AcquireLock {
  import opened Common
  import opened Text
  import FileLock

  /** What signalling a process with 0 reports. */
  datatype Probe = Delivered | NoSuchProcess | OtherError

  /** One round: whether the exclusive creation succeeds, the clock and the lock file's mtime when its age is taken
      (`None` when it has vanished), what is read from it (`None` when the read fails), what probing the PID in it
      reports, and the clock at the deadline check. */
  datatype Round = Round(created: bool, now: int, mtime: Option<int>, content: Option<string>, probe: Probe, later: int)

  datatype Outcome = Acquired(round: nat) | TimedOut(round: nat) | StillTrying

  /** `isPidDead`: unparseable and non-positive PIDs count as dead; any error but "no such process" counts as alive. */
  predicate IsPidDead(raw: string, probe: Probe) {
    var pid := ParseInt(Trim(raw));
    pid.None? || pid.value <= 0 || probe == NoSuchProcess
  }

  predicate IsOld(r: Round) {
    r.mtime.Some? && r.now - r.mtime.value > FileLock.STALE_LOCK_MS
  }

  /** The round ends in an unlink. */
  predicate Reaps(r: Round) {
    !r.created && IsOld(r) && IsPidDead(r.content.GetOr(""), r.probe)
  }

  /** The round ends in the time-out error: the file is there, young or of a live owner, and the deadline has passed. */
  predicate GivesUp(r: Round, deadline: int) {
    !r.created && r.mtime.Some? && !Reaps(r) && r.later >= deadline
  }

  predicate GoesOn(r: Round, deadline: int) {
    !r.created && !GivesUp(r, deadline)
  }

  function LastRound(o: Outcome, n: nat): nat {
    if o.StillTrying? then n else o.round
  }

  /** The rounds that end in an unlink, in order. */
  function ReapingRounds(rounds: seq<Round>): seq<nat> {
    if rounds == [] then []
    else
      var before, last := ReapingRounds(rounds[..|rounds| - 1]), |rounds| - 1;
      if Reaps(rounds[last]) then before + [last] else before
  }

  /** They are exactly the rounds that end so, each once, the earlier first. */
  lemma {:induction false} ReapingRoundsAre(rounds: seq<Round>)
    ensures forall i: nat :: i in ReapingRounds(rounds) <==> i < |rounds| && Reaps(rounds[i])
    ensures forall j, k | 0 <= j < k < |ReapingRounds(rounds)| :: ReapingRounds(rounds)[j] < ReapingRounds(rounds)[k]
  {
    if rounds == [] {
    } else {
      var before := ReapingRounds(rounds[..|rounds| - 1]);
      ReapingRoundsAre(rounds[..|rounds| - 1]);
      assert forall j | 0 <= j < |before| :: before[j] in before;
    }
  }

  /** `unlinked` lists the rounds in which the loop unlinked the lock file. */
  method AcquireLock(rounds: seq<Round>, start: int) returns (outcome: Outcome, unlinked: seq<nat>)
    ensures var deadline := start + FileLock.LOCK_TIMEOUT_MS;
            && LastRound(outcome, |rounds|) <= |rounds|
            && (forall i | 0 <= i < LastRound(outcome, |rounds|) :: GoesOn(rounds[i], deadline))
            && (outcome.Acquired? ==> outcome.round < |rounds| && rounds[outcome.round].created)
            && (outcome.TimedOut? ==> outcome.round < |rounds| && GivesUp(rounds[outcome.round], deadline))
    ensures unlinked == ReapingRounds(rounds[..LastRound(outcome, |rounds|)])
  {
    var deadline := start + FileLock.LOCK_TIMEOUT_MS;
    unlinked := [];
    var i := 0;
    while i < |rounds|
      invariant i <= |rounds|
      invariant forall k | 0 <= k < i :: GoesOn(rounds[k], deadline)
      invariant unlinked == ReapingRounds(rounds[..i])
    {
      var r := rounds[i];
      assert rounds[..i + 1][..i] == rounds[..i];
      if r.created {
        return Acquired(i), unlinked;
      }
      if r.mtime.Some? {
        var dead := false;
        if r.now - r.mtime.value > FileLock.STALE_LOCK_MS {
          var holderPid := if r.content.Some? then r.content.value else "";
          dead := IsPidDead(holderPid, r.probe);
        }
        if dead {
          unlinked := unlinked + [i];
        } else if r.later >= deadline {
          return TimedOut(i), unlinked;
        }
      }
      i := i + 1;
    }
    return StillTrying, unlinked;
  }

  /** A process that is alive is never judged dead by the PID it wrote; a file that cannot be read always is. */
  lemma WrittenPidIsJudgedByProbe(pid: nat, probe: Probe)
    requires pid > 0
    ensures IsPidDead(Decimal(pid), probe) <==> probe == NoSuchProcess
    ensures IsPidDead("", probe)
  {
    NumberReadsBack(pid);
    assert Trim("") == "";
  }

  lemma TightIsTrimmed(s: string)
    requires Tight(s)
    ensures Trim(s) == s
  {
  }

  /** A PID that is not positive, and text that is no number, counts as dead whatever the probe says. */
  lemma OddPidIsDead(n: nat, text: string, probe: Probe)
    requires text != "" && !IsDigit(text[0]) && text[0] != '-' && text[0] != '+' && Tight(text)
    ensures IsPidDead("-" + Digits(n), probe) && IsPidDead("0", probe) && IsPidDead(text, probe)
  {
    var negative := "-" + Digits(n);
    assert Tight(negative) && Tight("0");
    TightIsTrimmed(negative);
    TightIsTrimmed("0");
    TightIsTrimmed(text);
    ParseIntReads(n, "");
    ParseIntReads(0, "");
    ParseIntOfOther(text);
    assert "-" + (Digits(n) + "") == negative && Digits(0) + "" == "0";
  }

  // ---------------------------------------------------------------- the loop's rounds as steps of the protocol

  /** The states in which process `p` makes the calls of one round; between them other processes may have run. */
  datatype Calls = Calls(create: FileLock.State, stat: FileLock.State, read: FileLock.State, probe: FileLock.State,
      check: FileLock.State)

  /** The round reports what those states hold. */
  predicate Sees(r: Round, c: Calls) {
    && r.created == c.create.lock.None?
    && r.now == c.stat.clock
    && r.mtime == (if c.stat.lock.Some? then Some(c.stat.lock.value.mtime) else None)
    && r.content == (if c.read.lock.Some? then Some(Decimal(c.read.lock.value.owner)) else None)
    && (c.read.lock.Some? ==>
          c.read.lock.value.owner > 0
          && r.probe == if FileLock.Alive(c.probe, c.read.lock.value.owner) then Delivered else NoSuchProcess)
    && r.later == c.check.clock
  }

  /** The phase process `p` is in after one of its steps, taken in state `s` from phase `from`. */
  function Stepped(s: FileLock.State, p: nat, from: FileLock.Phase, step: FileLock.Step): FileLock.Phase
    requires FileLock.Enabled(FileLock.Goto(s, p, from), step)
  {
    var s' := FileLock.Next(FileLock.Goto(s, p, from), step);
    if p in s'.procs then s'.procs[p] else FileLock.Dead
  }

  /** What a round comes to when its calls are made as steps of the protocol: where it leaves the process, and whether
      it has unlinked the lock file on the way. */
  datatype RoundEnd = RoundEnd(phase: FileLock.Phase, unlinked: bool)

  function Checked(c: Calls, p: nat, deadline: int): RoundEnd {
    RoundEnd(Stepped(c.check, p, FileLock.Waiting(deadline), FileLock.CheckDeadline(p)), false)
  }

  function Unlinked(c: Calls, p: nat, from: FileLock.Phase): RoundEnd
    requires from.Reaping?
  {
    RoundEnd(Stepped(c.check, p, from, FileLock.Unlink(p)), true)
  }

  /** The rest of a round that has found the file too old. */
  function Judged(c: Calls, p: nat, deadline: int, aged: nat): RoundEnd {
    var read := Stepped(c.read, p, FileLock.SeenOld(deadline, aged), FileLock.ReadPid(p));
    if read.Reaping? then Unlinked(c, p, read)
    else if !read.OwnerRead? then Checked(c, p, deadline)
    else
      var judged := Stepped(c.probe, p, read, FileLock.Probe(p));
      if judged.Reaping? then Unlinked(c, p, judged) else Checked(c, p, deadline)
  }

  function PlayRound(c: Calls, p: nat, deadline: int): RoundEnd {
    var trying := FileLock.Trying(deadline);
    if c.create.lock.None? then RoundEnd(Stepped(c.create, p, trying, FileLock.Create(p)), false)
    else
      var seen := Stepped(c.stat, p, trying, FileLock.Stat(p));
      if seen.Waiting? then Checked(c, p, deadline)
      else if seen.SeenOld? then Judged(c, p, deadline, seen.aged)
      else RoundEnd(seen, false)
  }

  lemma CheckedEnds(c: Calls, p: nat, deadline: int)
    ensures Checked(c, p, deadline)
         == RoundEnd(if c.check.clock >= deadline then FileLock.Idle else FileLock.Trying(deadline), false)
  {
  }

  lemma VanishedEnds(c: Calls, p: nat, deadline: int, aged: nat)
    requires c.read.lock.None?
    ensures Judged(c, p, deadline, aged) == RoundEnd(FileLock.Trying(deadline), true)
  {
  }

  lemma PresentEnds(c: Calls, p: nat, deadline: int, aged: nat)
    requires c.read.lock.Some? && FileLock.Alive(c.probe, p)
    ensures Judged(c, p, deadline, aged)
         == if FileLock.Alive(c.probe, c.read.lock.value.owner) then Checked(c, p, deadline)
            else RoundEnd(FileLock.Trying(deadline), true)
  {
  }

  lemma JudgedEnds(r: Round, c: Calls, p: nat, deadline: int, aged: nat)
    requires Sees(r, c) && FileLock.Alive(c.probe, p)
    ensures Judged(c, p, deadline, aged)
         == if IsPidDead(r.content.GetOr(""), r.probe) then RoundEnd(FileLock.Trying(deadline), true)
             else Checked(c, p, deadline)
  {
    if c.read.lock.Some? {
      PresentEnds(c, p, deadline, aged);
      WrittenPidIsJudgedByProbe(c.read.lock.value.owner, r.probe);
    } else {
      VanishedEnds(c, p, deadline, aged);
      WrittenPidIsJudgedByProbe(1, r.probe);
    }
  }

  /** One round of the loop is one passage through the protocol's steps, whatever the other processes do between the
      calls: it creates, unlinks, gives up or tries again exactly when the protocol's steps do. */
  lemma RoundIsPassage(r: Round, c: Calls, p: nat, deadline: int)
    requires Sees(r, c) && FileLock.Alive(c.probe, p)
    ensures var end := PlayRound(c, p, deadline);
            && (end.phase.Critical? <==> r.created)
            && (end.unlinked <==> Reaps(r))
            && (end.phase == FileLock.Idle <==> GivesUp(r, deadline))
            && (end.phase == FileLock.Trying(deadline) <==> GoesOn(r, deadline))
  {
    CheckedEnds(c, p, deadline);
    if c.stat.lock.Some? {
      JudgedEnds(r, c, p, deadline, c.stat.lock.value.inst);
    }
  }
}
