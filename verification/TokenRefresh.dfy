/** Any number of processes refreshing one location's single-use tokens (section 6 of RFC 6749) and saving other
    locations' credentials, through one config file under a lock. The lock is its promise here: `Enter` is legal only
    when nobody is inside. LockedRefresh.dfy shows that the lock file keeps this promise. */
module TokenRefresh {
  import opened Common
  import opened ConfigFile
  import opened TokenClient

  datatype Save = Save(location: string, auth: LocationAuth, now: int)

  /** What a process holding the lock is doing. `ticket` numbers the lock acquisitions; `granted` tells the save of
      newly issued tokens from any other. */
  datatype Stage =
    | Outside
    | Inside(ticket: nat)
    | Presenting(ticket: nat, token: string)
    | Granted(ticket: nat, save: Save)
    | Merging(ticket: nat, snapshot: Config, save: Save, granted: bool)
    | Done(ticket: nat)

  datatype Logged = Logged(ticket: nat, save: Save)

  /** `issued` lists the token sets the server has issued, the live one last; `onDisk` is the index of the one in the
      file. `log` lists the completed saves. */
  datatype State = State(
    home: string, config: Config, clock: int, entered: nat, stage: map<nat, Stage>, memory: map<nat, Memory>,
    log: seq<Logged>, live: string, spent: set<string>, issued: seq<Memory>, onDisk: nat)

  datatype Step =
    | Tick(elapsed: nat)
    | Spawn(p: nat, memory: Memory)
    | Enter(p: nat)
    | BeginSave(p: nat, save: Save)
    | Resolve(p: nat)
    | Refuse(p: nat)
    | Grant(p: nat, auth: LocationAuth)
    | SignIn(p: nat, auth: LocationAuth)
    | ReadFile(p: nat)
    | Rename(p: nat)
    | Leave(p: nat)
    | Crash(p: nat)

  function StageOf(s: State, p: nat): Stage {
    if p in s.stage then s.stage[p] else Outside
  }

  predicate IsInside(s: State, p: nat) {
    !StageOf(s, p).Outside?
  }

  predicate Free(s: State) {
    forall p | p in s.stage :: !IsInside(s, p)
  }

  /** Between a successful exchange or sign-in and the rename that stores its tokens. */
  predicate Persisting(s: State, p: nat) {
    var st := StageOf(s, p);
    st.Granted? || (st.Merging? && st.granted)
  }

  function DiskEntry(s: State): Option<Entry> {
    if s.home in s.config.locations then Some(s.config.locations[s.home]) else None
  }

  function Latest(s: State): Memory
    requires s.issued != []
  {
    s.issued[|s.issued| - 1]
  }

  /** A server that rotates on success: a new, never used refresh token and a strictly later expiry. */
  predicate Rotates(s: State, auth: LocationAuth)
    requires s.issued != []
  {
    && auth.refreshToken != "" && auth.refreshToken != s.live && auth.refreshToken !in s.spent
    && auth.idToken != ""
    && auth.expiresAt > Latest(s).expiresAt
  }

  predicate Enabled(s: State, step: Step) {
    match step
    case Tick(_) => true
    case Spawn(p, _) => p !in s.memory && !IsInside(s, p)
    case Enter(p) => !IsInside(s, p)
    case BeginSave(p, save) => StageOf(s, p).Inside?
    case Resolve(p) => StageOf(s, p).Inside? && p in s.memory
    case Refuse(p) => StageOf(s, p).Presenting? && p in s.memory
    case Grant(p, auth) => StageOf(s, p).Presenting? && p in s.memory
    case SignIn(p, auth) => StageOf(s, p).Inside?
    case ReadFile(p) => StageOf(s, p).Granted?
    case Rename(p) => StageOf(s, p).Merging?
    case Leave(p) => StageOf(s, p).Inside? || StageOf(s, p).Done?
    case Crash(p) => true
  }

  function Goto(s: State, p: nat, st: Stage): State {
    s.(stage := s.stage[p := st])
  }

  /** The server issues a token set to `p`, which remembers it and goes on to save it; `used` is good no longer. */
  function Granting(s: State, p: nat, auth: LocationAuth, used: string): State
    requires IsInside(s, p)
  {
    var m := Memory(auth.idToken, auth.refreshToken, auth.expiresAt);
    Goto(s, p, Granted(StageOf(s, p).ticket, Save(s.home, auth, s.clock))).(
    memory := s.memory[p := m], live := auth.refreshToken, spent := s.spent + {used}, issued := s.issued + [m])
  }

  function Next(s: State, step: Step): State
    requires Enabled(s, step)
  {
    match step
    case Tick(d) => s.(clock := s.clock + d)
    case Spawn(p, m) => s.(memory := s.memory[p := m])
    case Enter(p) => Goto(s, p, Inside(s.entered + 1)).(entered := s.entered + 1)
    case BeginSave(p, save) => Goto(s, p, Merging(StageOf(s, p).ticket, s.config, save, false))
    case Resolve(p) =>
      var (m, d) := Decide(s.memory[p], DiskEntry(s), s.clock);
      var t := StageOf(s, p).ticket;
      Goto(s, p, if d.Present? then Presenting(t, d.token) else Done(t)).(memory := s.memory[p := m])
    case Refuse(p) =>
      Goto(s, p, Done(StageOf(s, p).ticket)).(memory := s.memory[p := s.memory[p].(idToken := "")])
    case Grant(p, auth) => Granting(s, p, auth, StageOf(s, p).token)
    case SignIn(p, auth) => Granting(s, p, auth, s.live)
    case ReadFile(p) => Goto(s, p, Merging(StageOf(s, p).ticket, s.config, StageOf(s, p).save, true))
    case Rename(p) =>
      var st := StageOf(s, p);
      Goto(s, p, Done(st.ticket)).(
      config := Saved(st.snapshot, st.save.location, st.save.auth, st.save.now),
      log := s.log + [Logged(st.ticket, st.save)],
      onDisk := if st.granted then s.onDisk + 1 else s.onDisk)
    case Leave(p) => Goto(s, p, Outside)
    case Crash(p) => Goto(s, p, Outside).(memory := s.memory - {p})
  }

  /** A step the lock permits. */
  predicate Legal(s: State, step: Step) {
    Enabled(s, step) && (step.Enter? ==> Free(s))
  }

  /** Memory stems from a version; its ID token may have been forgotten and its refresh token may be missing. */
  predicate StemsFrom(m: Memory, version: Memory) {
    && m.expiresAt == version.expiresAt
    && (m.refreshToken == version.refreshToken || m.refreshToken == "")
    && (m.idToken == version.idToken || m.idToken == "")
  }

  predicate StemsFromSome(m: Memory, versions: seq<Memory>) {
    exists v | 0 <= v < |versions| :: StemsFrom(m, versions[v])
  }

  /** The setting the results about tokens are for: a process starts from a token set that was in the file, only
      refreshes and sign-ins save the refreshed location, the server accepts its live token only and rotates, a sign-in
      takes the place of the live token, and a crash does not come between the issue of a token set and its rename. */
  predicate Expected(s: State, step: Step) {
    match step
    case Spawn(_, m) => s.onDisk < |s.issued| && StemsFromSome(m, s.issued[..s.onDisk + 1])
    case BeginSave(_, save) => save.location != s.home
    case Grant(p, auth) =>
      StageOf(s, p).Presenting? && StageOf(s, p).token == s.live && s.issued != [] && Rotates(s, auth)
    case SignIn(_, auth) => s.issued != [] && Rotates(s, auth)
    case Crash(p) => !Persisting(s, p)
    case _ => true
  }

  /** An exchange or a sign-in: the server issues a token set. */
  predicate Issues(step: Step) {
    step.Grant? || step.SignIn?
  }

  predicate Orderly(s: State, step: Step) {
    Legal(s, step) && Expected(s, step)
  }

  // ---------------------------------------------------------------- mutual exclusion and no lost update

  function Fold(c: Config, log: seq<Logged>): Config {
    if log == [] then c
    else
      var save := log[|log| - 1].save;
      Saved(Fold(c, log[..|log| - 1]), save.location, save.auth, save.now)
  }

  ghost predicate OneInside(s: State) {
    forall p, q | IsInside(s, p) && IsInside(s, q) :: p == q
  }

  /** The one inside works on the file as it is, under the latest ticket, which no save has used yet unless it is
      done. */
  ghost predicate WorkIsCurrent(s: State) {
    forall p | IsInside(s, p) ::
      && StageOf(s, p).ticket == s.entered
      && (StageOf(s, p).Merging? ==> StageOf(s, p).snapshot == s.config)
      && (!StageOf(s, p).Done? ==> forall k | 0 <= k < |s.log| :: s.log[k].ticket < s.entered)
  }

  /** Completed saves are listed in the order in which their savers acquired the lock, at most one each. */
  ghost predicate LogInOrder(s: State) {
    && (forall k | 0 <= k < |s.log| :: s.log[k].ticket <= s.entered)
    && (forall j, k | 0 <= j < k < |s.log| :: s.log[j].ticket < s.log[k].ticket)
  }

  ghost predicate NothingLost(s: State, init: Config) {
    OneInside(s) && WorkIsCurrent(s) && LogInOrder(s) && s.config == Fold(init, s.log)
  }

  lemma OthersStay(s: State, step: Step, q: nat)
    requires Legal(s, step)
    ensures step.Tick? || step.Spawn? || q != step.p ==> StageOf(Next(s, step), q) == StageOf(s, q)
    ensures IsInside(Next(s, step), q) ==> IsInside(s, q) || (step.Enter? && q == step.p)
  {
  }

  lemma StepKeepsOneInside(s: State, step: Step)
    requires OneInside(s) && Legal(s, step)
    ensures OneInside(Next(s, step))
  {
    var s' := Next(s, step);
    forall p, q | IsInside(s', p) && IsInside(s', q) ensures p == q {
      OthersStay(s, step, p);
      OthersStay(s, step, q);
      assert step.Enter? ==> !IsInside(s, p) && !IsInside(s, q);
    }
  }

  /** Whoever else is inside stays outside the reach of a step by `p`. */
  lemma AloneInside(s: State, step: Step, q: nat)
    requires OneInside(s) && Legal(s, step) && !step.Tick? && !step.Spawn?
    requires IsInside(Next(s, step), q) && IsInside(Next(s, step), step.p)
    ensures q == step.p
  {
    StepKeepsOneInside(s, step);
  }

  lemma StepKeepsWork(s: State, step: Step)
    requires OneInside(s) && WorkIsCurrent(s) && LogInOrder(s) && Legal(s, step)
    ensures WorkIsCurrent(Next(s, step))
  {
    var s' := Next(s, step);
    forall q | IsInside(s', q)
      ensures StageOf(s', q).ticket == s'.entered
      ensures StageOf(s', q).Merging? ==> StageOf(s', q).snapshot == s'.config
      ensures !StageOf(s', q).Done? ==> forall k | 0 <= k < |s'.log| :: s'.log[k].ticket < s'.entered
    {
      OthersStay(s, step, q);
      if step.Rename? {
        assert IsInside(s, step.p) && IsInside(s', step.p);
        AloneInside(s, step, q);
      } else if step.Enter? {
        AloneInside(s, step, q);
      }
    }
  }

  lemma LogGrowsInOrder(log: seq<Logged>, entered: nat, last: Logged)
    requires forall k | 0 <= k < |log| :: log[k].ticket < entered
    requires forall j, k | 0 <= j < k < |log| :: log[j].ticket < log[k].ticket
    requires last.ticket == entered
    ensures var all := log + [last];
            && (forall k | 0 <= k < |all| :: all[k].ticket <= entered)
            && (forall j, k | 0 <= j < k < |all| :: all[j].ticket < all[k].ticket)
  {
  }

  lemma FoldOneMore(c: Config, log: seq<Logged>, last: Logged)
    ensures Fold(c, log + [last]) == Saved(Fold(c, log), last.save.location, last.save.auth, last.save.now)
  {
    assert (log + [last])[..|log|] == log;
  }

  /** What renaming leaves: one more save in the log, and the file with it. */
  lemma Renamed(s: State, p: nat)
    requires StageOf(s, p).Merging?
    ensures var st, s' := StageOf(s, p), Next(s, Rename(p));
            && s'.entered == s.entered
            && s'.log == s.log + [Logged(st.ticket, st.save)]
            && s'.config == Saved(st.snapshot, st.save.location, st.save.auth, st.save.now)
  {
  }

  /** The one who renames holds the latest ticket, unused so far, and has merged into the file as it is. */
  lemma RenamerIsCurrent(s: State, p: nat)
    requires WorkIsCurrent(s) && StageOf(s, p).Merging?
    ensures StageOf(s, p).ticket == s.entered && StageOf(s, p).snapshot == s.config
    ensures forall k | 0 <= k < |s.log| :: s.log[k].ticket < s.entered
  {
    assert IsInside(s, p);
  }

  lemma RenameKeepsOrder(s: State, p: nat)
    requires WorkIsCurrent(s) && LogInOrder(s) && StageOf(s, p).Merging?
    ensures LogInOrder(Next(s, Rename(p)))
  {
    Renamed(s, p);
    RenamerIsCurrent(s, p);
    LogGrowsInOrder(s.log, s.entered, Logged(StageOf(s, p).ticket, StageOf(s, p).save));
  }

  lemma RenameKeepsFold(s: State, p: nat, init: Config)
    requires WorkIsCurrent(s) && s.config == Fold(init, s.log) && StageOf(s, p).Merging?
    ensures Next(s, Rename(p)).config == Fold(init, Next(s, Rename(p)).log)
  {
    Renamed(s, p);
    RenamerIsCurrent(s, p);
    FoldOneMore(init, s.log, Logged(StageOf(s, p).ticket, StageOf(s, p).save));
  }

  lemma StepLosesNothing(s: State, step: Step, init: Config)
    requires NothingLost(s, init) && Legal(s, step)
    ensures NothingLost(Next(s, step), init)
  {
    StepKeepsOneInside(s, step);
    StepKeepsWork(s, step);
    if step.Rename? {
      RenameKeepsOrder(s, step.p);
      RenameKeepsFold(s, step.p, init);
    } else {
      assert Next(s, step).log == s.log && Next(s, step).config == s.config;
    }
  }

  // ---------------------------------------------------------------- tokens

  ghost predicate ServerKnows(s: State) {
    && s.issued != []
    && s.live == Latest(s).refreshToken
    && (forall v | 0 <= v < |s.issued| :: s.issued[v].refreshToken != "" && s.issued[v].idToken != "")
    && (forall v, w | 0 <= v < w < |s.issued| ::
          s.issued[v].expiresAt < s.issued[w].expiresAt && s.issued[v].refreshToken != s.issued[w].refreshToken)
    && (forall v | 0 <= v < |s.issued| - 1 :: s.issued[v].refreshToken in s.spent)
    && s.live !in s.spent
  }

  predicate DiskHolds(c: Config, home: string, m: Memory) {
    && home in c.locations
    && TokenOf(c.locations[home], RefreshToken) == Some(m.refreshToken)
    && TokenOf(c.locations[home], IdToken) == Some(m.idToken)
    && ExpiryOf(c.locations[home]) == Some(m.expiresAt)
  }

  predicate Carries(save: Save, m: Memory) {
    save.auth.refreshToken == m.refreshToken && save.auth.idToken == m.idToken && save.auth.expiresAt == m.expiresAt
  }

  /** The file holds the live token set, or the one before while its successor is being persisted. */
  ghost predicate DiskFollowsServer(s: State) {
    && s.onDisk < |s.issued|
    && DiskHolds(s.config, s.home, s.issued[s.onDisk])
    && (forall p | Persisting(s, p) :: s.onDisk == |s.issued| - 2 && Carries(StageOf(s, p).save, Latest(s)))
    && ((forall p :: !Persisting(s, p)) ==> s.onDisk == |s.issued| - 1)
  }

  /** A save of the refreshed location is the save of newly issued tokens, and the other way round. */
  ghost predicate SavesAreKnown(s: State) {
    forall p | StageOf(s, p).Granted? || StageOf(s, p).Merging? :: Persisting(s, p)
        <==> StageOf(s, p).save.location == s.home
  }

  ghost predicate MemoryFollows(s: State, q: nat)
    requires s.onDisk < |s.issued| && q in s.memory
  {
    if Persisting(s, q) then s.memory[q] == Latest(s) else StemsFromSome(s.memory[q], s.issued[..s.onDisk + 1])
  }

  predicate PresentsItsOwn(s: State, p: nat)
    requires StageOf(s, p).Presenting?
  {
    p in s.memory && s.memory[p].refreshToken == StageOf(s, p).token && StageOf(s, p).token != ""
  }

  /** No memory is ahead of the disk, except that of the process persisting; what is presented is what is remembered. */
  ghost predicate MemoriesFollowDisk(s: State)
    requires s.onDisk < |s.issued|
  {
    && (forall p | p in s.memory :: MemoryFollows(s, p))
    && (forall p | StageOf(s, p).Presenting? :: PresentsItsOwn(s, p))
    && SavesAreKnown(s)
  }

  ghost predicate TokensInOrder(s: State) {
    ServerKnows(s) && DiskFollowsServer(s) && MemoriesFollowDisk(s)
  }

  // ---------------------------------------------------------------- tokens: every step

  lemma PersistingAfter(s: State, step: Step, q: nat)
    requires Orderly(s, step) && SavesAreKnown(s)
    ensures var s' := Next(s, step);
            Persisting(s', q) ==> Persisting(s, q) || (Issues(step) && q == step.p)
    ensures var s' := Next(s, step);
            Persisting(s, q) && !Persisting(s', q) ==> step.Rename? && q == step.p
    ensures var s' := Next(s, step);
            Persisting(s, q) && Persisting(s', q) ==> StageOf(s', q).save == StageOf(s, q).save
  {
  }

  /** The last of the versions is newer than all others, and its token is none of theirs. */
  lemma NewestOfAll(issued: seq<Memory>, spent: set<string>, live: string, m: Memory)
    requires issued != [] && live == issued[|issued| - 1].refreshToken
    requires forall v | 0 <= v < |issued| - 1 :: issued[v].refreshToken in spent
    requires forall v, w | 0 <= v < w < |issued| :: issued[v].expiresAt < issued[w].expiresAt
    requires m.refreshToken !in spent && m.refreshToken != live && m.expiresAt > issued[|issued| - 1].expiresAt
    ensures forall v | 0 <= v < |issued| ::
              issued[v].expiresAt < m.expiresAt && issued[v].refreshToken != m.refreshToken
    ensures forall v | 0 <= v < |issued| :: issued[v].refreshToken in spent + {live}
  {
    forall v | 0 <= v < |issued|
      ensures issued[v].expiresAt < m.expiresAt && issued[v].refreshToken != m.refreshToken
      ensures issued[v].refreshToken in spent + {live}
    {
      assert v == |issued| - 1 || issued[v].refreshToken in spent;
    }
  }

  lemma GrantKeepsServer(s: State, step: Step)
    requires ServerKnows(s) && Orderly(s, step) && Issues(step)
    ensures ServerKnows(Next(s, step))
  {
    var s', n := Next(s, step), |s.issued|;
    NewestOfAll(s.issued, s.spent, s.live, s'.issued[n]);
    assert s'.issued == s.issued + [s'.issued[n]];
    assert forall v | 0 <= v < n :: s'.issued[v] == s.issued[v];
  }

  lemma StepKeepsServer(s: State, step: Step)
    requires ServerKnows(s) && Orderly(s, step)
    ensures ServerKnows(Next(s, step))
  {
    if Issues(step) {
      GrantKeepsServer(s, step);
    } else {
      var s' := Next(s, step);
      assert s'.issued == s.issued && s'.live == s.live && s'.spent == s.spent;
    }
  }

  lemma SaveElsewhere(c: Config, save: Save, home: string, m: Memory)
    requires save.location != home && DiskHolds(c, home, m)
    ensures DiskHolds(Saved(c, save.location, save.auth, save.now), home, m)
  {
  }

  lemma SaveHere(c: Config, save: Save, m: Memory)
    requires Carries(save, m)
    ensures DiskHolds(Saved(c, save.location, save.auth, save.now), save.location, m)
  {
    TokensReadBack(c, save.location, save.auth, save.now);
  }

  lemma NobodyElsePersists(s: State, p: nat)
    requires OneInside(s) && IsInside(s, p)
    ensures forall q | Persisting(s, q) :: q == p
  {
    forall q | Persisting(s, q) ensures q == p {
      assert IsInside(s, q);
    }
  }

  lemma GrantKeepsDisk(s: State, step: Step)
    requires OneInside(s) && ServerKnows(s) && DiskFollowsServer(s) && SavesAreKnown(s) && Orderly(s, step)
               && Issues(step)
    ensures DiskFollowsServer(Next(s, step))
  {
    var s' := Next(s, step);
    assert IsInside(s, step.p) && !Persisting(s, step.p);
    NobodyElsePersists(s, step.p);
    forall q | Persisting(s', q) ensures q == step.p {
      PersistingAfter(s, step, q);
    }
    assert Persisting(s', step.p);
  }

  lemma RenameKeepsDisk(s: State, step: Step)
    requires OneInside(s) && WorkIsCurrent(s) && ServerKnows(s) && DiskFollowsServer(s) && SavesAreKnown(s)
               && Orderly(s, step) && step.Rename?
    ensures DiskFollowsServer(Next(s, step))
  {
    var s' := Next(s, step);
    var save := StageOf(s, step.p).save;
    assert IsInside(s, step.p);
    NobodyElsePersists(s, step.p);
    forall q ensures !Persisting(s', q) {
      PersistingAfter(s, step, q);
      assert q == step.p ==> StageOf(s', q).Done?;
    }
    if save.location == s.home {
      assert Persisting(s, step.p);
      SaveHere(s.config, save, Latest(s));
    } else {
      assert !Persisting(s, step.p);
      SaveElsewhere(s.config, save, s.home, s.issued[s.onDisk]);
    }
  }

  lemma StepKeepsDisk(s: State, step: Step)
    requires OneInside(s) && WorkIsCurrent(s) && ServerKnows(s) && DiskFollowsServer(s) && SavesAreKnown(s)
               && Orderly(s, step)
    ensures DiskFollowsServer(Next(s, step))
  {
    var s' := Next(s, step);
    if Issues(step) {
      GrantKeepsDisk(s, step);
    } else if step.Rename? {
      RenameKeepsDisk(s, step);
    } else {
      forall q ensures Persisting(s', q) <==> Persisting(s, q)
        ensures Persisting(s', q) ==> StageOf(s', q).save == StageOf(s, q).save
      {
        PersistingAfter(s, step, q);
      }
    }
  }

  lemma MoreVersions(m: Memory, few: seq<Memory>, many: seq<Memory>)
    requires few <= many && StemsFromSome(m, few)
    ensures StemsFromSome(m, many)
  {
  }

  lemma ForgetIdToken(m: Memory, versions: seq<Memory>)
    requires StemsFromSome(m, versions)
    ensures StemsFromSome(m.(idToken := ""), versions)
  {
  }

  /** What resolving under the lock does to a memory that stems from some version up to the one on disk. */
  lemma ResolveStays(m: Memory, versions: seq<Memory>, c: Config, home: string, now: int)
    requires versions != [] && StemsFromSome(m, versions) && DiskHolds(c, home, versions[|versions| - 1])
    requires versions[|versions| - 1].refreshToken != ""
    ensures var (m', d) := Decide(m, Some(c.locations[home]), now);
            && StemsFromSome(m', versions)
            && (d.Present? ==> d.token == m'.refreshToken && d.token != "")
            && m'.expiresAt >= m.expiresAt
  {
  }

  lemma StepKeepsSavesKnown(s: State, step: Step)
    requires SavesAreKnown(s) && Orderly(s, step)
    ensures SavesAreKnown(Next(s, step))
  {
    var s' := Next(s, step);
    forall q | StageOf(s', q).Granted? || StageOf(s', q).Merging?
      ensures Persisting(s', q) <==> StageOf(s', q).save.location == s'.home
    {
      OthersStay(s, step, q);
    }
  }

  ghost predicate MemoriesFollowDiskAt(s: State) {
    s.onDisk < |s.issued| && MemoriesFollowDisk(s)
  }

  lemma PresentingAfter(s: State, step: Step, q: nat)
    requires MemoriesFollowDiskAt(s) && Orderly(s, step) && StageOf(Next(s, step), q).Presenting?
    ensures PresentsItsOwn(Next(s, step), q)
  {
    OthersStay(s, step, q);
    assert StageOf(s, q).Presenting? ==> PresentsItsOwn(s, q);
  }

  predicate Acts(step: Step, q: nat) {
    !step.Tick? && step.p == q
  }

  /** While a process is persisting, no other is issued tokens. */
  lemma PersisterIsAlone(s: State, step: Step, q: nat)
    requires OneInside(s) && Persisting(s, q) && Orderly(s, step) && !Acts(step, q)
    ensures !Issues(step)
  {
    if Issues(step) {
      assert IsInside(s, q) && IsInside(s, step.p);
    }
  }

  lemma MemoryOfOther(s: State, step: Step, q: nat)
    requires OneInside(s) && s.onDisk < |s.issued| && q in s.memory && MemoryFollows(s, q) && Orderly(s, step)
               && !Acts(step, q)
    requires q in Next(s, step).memory && Next(s, step).onDisk < |Next(s, step).issued|
    ensures MemoryFollows(Next(s, step), q)
  {
    var s' := Next(s, step);
    OthersStay(s, step, q);
    if Persisting(s, q) {
      PersisterIsAlone(s, step, q);
    } else {
      MoreVersions(s.memory[q], s.issued[..s.onDisk + 1], s'.issued[..s'.onDisk + 1]);
    }
  }

  lemma LatestStems(m: Memory, versions: seq<Memory>)
    requires versions != [] && m == versions[|versions| - 1]
    ensures StemsFromSome(m, versions)
  {
    assert StemsFrom(m, versions[|versions| - 1]);
  }

  lemma MemoryOfRenamer(s: State, step: Step)
    requires s.onDisk < |s.issued| && Enabled(s, step) && step.Rename? && step.p in s.memory && MemoryFollows(s, step.p)
    requires Persisting(s, step.p) ==> s.onDisk == |s.issued| - 2
    ensures MemoryFollows(Next(s, step), step.p)
  {
    var s' := Next(s, step);
    assert s'.memory == s.memory && s'.issued == s.issued && !Persisting(s', step.p);
    if Persisting(s, step.p) {
      assert s'.onDisk == |s.issued| - 1;
      assert s.issued[..s'.onDisk + 1] == s.issued;
      LatestStems(s.memory[step.p], s.issued);
    }
  }

  lemma MemoryOfSpawned(s: State, step: Step)
    requires Orderly(s, step) && step.Spawn?
    ensures MemoryFollows(Next(s, step), step.p)
  {
  }

  lemma MemoryOfRefused(s: State, step: Step)
    requires s.onDisk < |s.issued| && Orderly(s, step) && step.Refuse? && MemoryFollows(s, step.p)
    ensures MemoryFollows(Next(s, step), step.p)
  {
    ForgetIdToken(s.memory[step.p], s.issued[..s.onDisk + 1]);
  }

  lemma MemoryOfResolver(s: State, step: Step)
    requires s.onDisk < |s.issued| && DiskHolds(s.config, s.home, s.issued[s.onDisk])
               && s.issued[s.onDisk].refreshToken != ""
    requires Orderly(s, step) && step.Resolve? && MemoryFollows(s, step.p)
    ensures MemoryFollows(Next(s, step), step.p)
  {
    var versions := s.issued[..s.onDisk + 1];
    assert versions[|versions| - 1] == s.issued[s.onDisk];
    ResolveStays(s.memory[step.p], versions, s.config, s.home, s.clock);
  }

  lemma MemoryUntouched(s: State, step: Step)
    requires SavesAreKnown(s) && s.onDisk < |s.issued| && Orderly(s, step)
    requires step.Enter? || step.BeginSave? || step.ReadFile? || step.Leave?
    requires step.p in s.memory && MemoryFollows(s, step.p)
    ensures MemoryFollows(Next(s, step), step.p)
  {
    PersistingAfter(s, step, step.p);
  }

  lemma MemoryAfter(s: State, step: Step, q: nat)
    requires OneInside(s) && ServerKnows(s) && DiskFollowsServer(s) && MemoriesFollowDisk(s) && Orderly(s, step)
    requires q in Next(s, step).memory && Next(s, step).onDisk < |Next(s, step).issued|
    ensures MemoryFollows(Next(s, step), q)
  {
    if !Acts(step, q) {
      assert q in s.memory;
      MemoryOfOther(s, step, q);
    } else if step.Rename? {
      MemoryOfRenamer(s, step);
    } else if step.Resolve? {
      assert MemoryFollows(s, step.p);
      MemoryOfResolver(s, step);
    } else if step.Refuse? {
      assert MemoryFollows(s, step.p);
      MemoryOfRefused(s, step);
    } else if step.Spawn? {
      MemoryOfSpawned(s, step);
    } else if !Issues(step) {
      MemoryUntouched(s, step);
    }
  }

  lemma StepKeepsMemories(s: State, step: Step)
    requires OneInside(s) && ServerKnows(s) && DiskFollowsServer(s) && MemoriesFollowDisk(s) && Orderly(s, step)
    requires DiskFollowsServer(Next(s, step))
    ensures MemoriesFollowDisk(Next(s, step))
  {
    var s' := Next(s, step);
    forall q | q in s'.memory ensures MemoryFollows(s', q) {
      MemoryAfter(s, step, q);
    }
    forall q | StageOf(s', q).Presenting? ensures PresentsItsOwn(s', q) {
      PresentingAfter(s, step, q);
    }
    StepKeepsSavesKnown(s, step);
  }

  // ---------------------------------------------------------------- main results

  ghost predicate Inv(s: State, init: Config) {
    NothingLost(s, init) && TokensInOrder(s)
  }

  lemma StepKeepsInv(s: State, step: Step, init: Config)
    requires NothingLost(s, init) && TokensInOrder(s) && Orderly(s, step)
    ensures NothingLost(Next(s, step), init)
    ensures TokensInOrder(Next(s, step))
  {
    StepLosesNothing(s, step, init);
    StepKeepsServer(s, step);
    StepKeepsDisk(s, step);
    StepKeepsMemories(s, step);
  }

  /** The token set in the file. */
  function OnDisk(s: State): Memory
    requires s.onDisk < |s.issued|
  {
    s.issued[s.onDisk]
  }

  /** Where a memory stands: never ahead of the file, and its refresh token is spent exactly when it is behind. */
  lemma MemoryStands(s: State, p: nat)
    requires ServerKnows(s) && s.onDisk < |s.issued| && p in s.memory && !Persisting(s, p) && MemoryFollows(s, p)
    ensures s.memory[p].expiresAt <= OnDisk(s).expiresAt <= Latest(s).expiresAt
    ensures s.onDisk == |s.issued| - 1 && s.memory[p].refreshToken != "" ==>
              (s.memory[p].refreshToken in s.spent <==> s.memory[p].expiresAt < OnDisk(s).expiresAt)
  {
  }

  /** In every reachable state: the refresh token in the file is the server's live one, unless a process is just about
      to store it; and no process is ahead of the file, except that one. */
  lemma DiskIsLive(s: State, init: Config)
    requires Inv(s, init)
    ensures (forall p :: !Persisting(s, p)) ==> TokenOf(s.config.locations[s.home], RefreshToken) == Some(s.live)
    ensures forall p | Persisting(s, p) :: StageOf(s, p).save.auth.refreshToken == s.live
    ensures ExpiryOf(s.config.locations[s.home]) == Some(OnDisk(s).expiresAt)
    ensures forall p | p in s.memory && !Persisting(s, p) :: s.memory[p].expiresAt <= OnDisk(s).expiresAt
  {
    forall p | p in s.memory && !Persisting(s, p)
      ensures s.memory[p].expiresAt <= OnDisk(s).expiresAt
    {
      assert MemoryFollows(s, p);
      MemoryStands(s, p);
    }
  }

  lemma ExpiryStep(s: State, step: Step, p: nat)
    requires Orderly(s, step) && p in s.memory && p in Next(s, step).memory
    requires Issues(step) && step.p in s.memory ==> s.memory[step.p].expiresAt <= Latest(s).expiresAt
    ensures s.memory[p].expiresAt <= Next(s, step).memory[p].expiresAt
  {
  }

  /** As long as a process lives, its `currentExpiresAt` never decreases. */
  lemma ExpiryNeverDecreases(s: State, step: Step, init: Config, p: nat)
    requires Inv(s, init) && Orderly(s, step) && p in s.memory && p in Next(s, step).memory
    ensures s.memory[p].expiresAt <= Next(s, step).memory[p].expiresAt
  {
    if Issues(step) && step.p in s.memory {
      assert MemoryFollows(s, step.p);
      MemoryStands(s, step.p);
    }
    ExpiryStep(s, step, p);
  }

  /** A process that adopts, in any reachable state, hands its caller the ID token that is in the file, which is fresh,
      and remembers what the file holds. */
  lemma AdoptedIsOnDisk(s: State, step: Step, init: Config)
    requires Inv(s, init) && Orderly(s, step) && step.Resolve?
    ensures var (m', d) := Decide(s.memory[step.p], DiskEntry(s), s.clock);
            d.Adopt? ==>
              && d.idToken == OnDisk(s).idToken == m'.idToken != "" && m' == Next(s, step).memory[step.p]
              && m'.refreshToken == OnDisk(s).refreshToken && m'.expiresAt == OnDisk(s).expiresAt
              && IsFresh(OnDisk(s).expiresAt, s.clock) && OnDisk(s).expiresAt > s.memory[step.p].expiresAt
  {
    DecideResolves(s.memory[step.p], DiskEntry(s), s.clock);
    assert DiskHolds(s.config, s.home, OnDisk(s));
    assert s.issued[s.onDisk].refreshToken != "";
  }

  /** The process remembers the tokens it has been issued and goes on to save them, and they are the live ones. */
  predicate IsIssued(s: State, s': State, p: nat, auth: LocationAuth) {
    && p in s'.memory && s'.memory[p] == Memory(auth.idToken, auth.refreshToken, auth.expiresAt)
    && s'.issued == s.issued + [s'.memory[p]] && s'.live == auth.refreshToken && s'.config == s.config
    && StageOf(s', p).Granted? && StageOf(s', p).save == Save(s.home, auth, s.clock)
  }

  /** What a step leaves its process with. */
  predicate Leaves(s: State, step: Step, s': State) {
    match step
    case Tick(elapsed) => s' == s.(clock := s.clock + elapsed)
    case Spawn(p, m) => p in s'.memory && s'.memory[p] == m && s'.config == s.config
    case Enter(p) => StageOf(s', p) == Inside(s.entered + 1) && s'.entered == s.entered + 1
    case BeginSave(p, save) => StageOf(s', p).Merging? && StageOf(s', p).save == save && s'.config == s.config
    case Resolve(p) => p in s'.memory && s'.config == s.config && s'.issued == s.issued
    case Refuse(p) =>
      && p in s.memory && p in s'.memory && s'.memory[p] == Memory("", s.memory[p].refreshToken, s.memory[p].expiresAt)
      && StageOf(s', p).Done? && s'.config == s.config && s'.issued == s.issued
    case Grant(p, auth) => IsIssued(s, s', p, auth)
    case SignIn(p, auth) => IsIssued(s, s', p, auth)
    case ReadFile(p) => StageOf(s', p).Merging? && StageOf(s', p).snapshot == s.config
    case Rename(p) =>
      && StageOf(s', p).Done? && |s'.log| == |s.log| + 1 && StageOf(s, p).Merging?
      && s'.log[|s.log|].save == StageOf(s, p).save
    case Leave(p) => !IsInside(s', p) && s'.memory == s.memory && s'.config == s.config
    case Crash(p) => !IsInside(s', p) && p !in s'.memory && s'.config == s.config && s'.log == s.log
  }

  lemma StepLeaves(s: State, step: Step)
    requires Enabled(s, step)
    ensures Leaves(s, step, Next(s, step))
  {
  }

  /** Memory behind the file, an own token, and a file entry that is no longer fresh. */
  predicate BehindAndStale(s: State, step: Step) {
    && step.Resolve?
    && step.p in s.memory
    && s.onDisk < |s.issued|
    && s.memory[step.p].expiresAt < OnDisk(s).expiresAt
    && s.memory[step.p].refreshToken != ""
    && !IsFresh(OnDisk(s).expiresAt, s.clock)
  }

  lemma ResolveOutcome(s: State, step: Step)
    requires Orderly(s, step) && step.Resolve? && s.onDisk < |s.issued| && DiskHolds(s.config, s.home, OnDisk(s))
               && OnDisk(s).idToken != ""
    requires s.memory[step.p].refreshToken != "" ==>
               (s.memory[step.p].refreshToken in s.spent <==> s.memory[step.p].expiresAt < OnDisk(s).expiresAt)
    ensures var st := StageOf(Next(s, step), step.p);
            st.Presenting? && st.token in s.spent <==> BehindAndStale(s, step)
  {
  }

  /** A process that resolves under the lock goes on to present an already spent refresh token exactly when its memory
      is behind the file, it has a token of its own and the file's entry is no longer fresh. */
  lemma SpentTokenIsPresented(s: State, step: Step, init: Config)
    requires Inv(s, init) && Orderly(s, step) && step.Resolve?
    ensures var st := StageOf(Next(s, step), step.p);
            st.Presenting? && st.token in s.spent <==> BehindAndStale(s, step)
  {
    assert IsInside(s, step.p) && !Persisting(s, step.p);
    NobodyElsePersists(s, step.p);
    assert MemoryFollows(s, step.p);
    MemoryStands(s, step.p);
    ResolveOutcome(s, step);
  }

  /** What is presented was presented already when the process resolved; so a run without such a resolution never
      presents a spent token. */
  ghost predicate NothingSpentPresented(s: State) {
    forall p | StageOf(s, p).Presenting? :: StageOf(s, p).token !in s.spent
  }

  datatype Run = Start(init: State) | Later(before: Run, step: Step) {
    predicate Valid()
      decreases this, 0
    {
      Later? ==> before.Valid() && Legal(before.End(), step)
    }

    function End(): State
      requires Valid()
      decreases this, 1
    {
      if Start? then init else Next(before.End(), step)
    }

    predicate AllOrderly()
      requires Valid()
      decreases this, 1
    {
      Later? ==> before.AllOrderly() && Orderly(before.End(), step)
    }

    ghost predicate NeverBehindAndStale()
      requires Valid()
      decreases this, 1
    {
      Later? ==> before.NeverBehindAndStale() && !BehindAndStale(before.End(), step)
    }

    function Origin(): State {
      if Start? then init else before.Origin()
    }
  }

  /** Nobody has started; the file holds the one token set issued so far. */
  ghost predicate Initial(s: State) {
    && s.stage == map[] && s.memory == map[] && s.log == [] && s.spent == {} && s.onDisk == 0
    && |s.issued| == 1 && s.issued[0].refreshToken != "" && s.issued[0].idToken != ""
    && s.live == s.issued[0].refreshToken
    && DiskHolds(s.config, s.home, s.issued[0])
  }

  /** Over every run, crashes at any moment and direct saves of any location included, no update is lost. */
  lemma {:induction false} NothingIsEverLost(run: Run)
    requires run.Valid() && run.Origin().stage == map[] && run.Origin().log == []
    ensures NothingLost(run.End(), run.Origin().config)
  {
    if run.Start? {
    } else {
      NothingIsEverLost(run.before);
      StepLosesNothing(run.before.End(), run.step, run.Origin().config);
    }
  }

  lemma InitialIsInOrder(s: State)
    requires Initial(s)
    ensures Inv(s, s.config) && NothingSpentPresented(s)
  {
    assert forall p :: !Persisting(s, p);
  }

  lemma PresentedStaysUnspent(s: State, step: Step, init: Config)
    requires Inv(s, init) && Orderly(s, step) && !BehindAndStale(s, step) && NothingSpentPresented(s)
    ensures NothingSpentPresented(Next(s, step))
  {
    var s' := Next(s, step);
    forall q | StageOf(s', q).Presenting? ensures StageOf(s', q).token !in s'.spent {
      OthersStay(s, step, q);
      if step.Resolve? && q == step.p {
        SpentTokenIsPresented(s, step, init);
      } else if Issues(step) {
        assert IsInside(s, q) && IsInside(s, step.p);
      }
    }
  }

  lemma {:induction false} EveryRun(run: Run)
    requires run.Valid() && Initial(run.Origin()) && run.AllOrderly()
    ensures Inv(run.End(), run.Origin().config)
    ensures run.NeverBehindAndStale() ==> NothingSpentPresented(run.End())
  {
    if run.Start? {
      InitialIsInOrder(run.init);
    } else {
      EveryRun(run.before);
      var s := run.before.End();
      StepKeepsInv(s, run.step, run.Origin().config);
      if run.NeverBehindAndStale() {
        PresentedStaysUnspent(s, run.step, run.Origin().config);
      }
    }
  }

  // ---------------------------------------------------------------- the plain claim is false

  lemma Extend(run: Run, step: Step, s: State) returns (longer: Run, s': State)
    requires run.Valid() && run.AllOrderly() && run.End() == s && Orderly(s, step)
    ensures longer.Valid() && longer.AllOrderly() && longer.Origin() == run.Origin()
    ensures s' == Next(s, step) && longer.End() == s'
  {
    longer, s' := Later(run, step), Next(s, step);
  }

  lemma BothSpawn(init: State) returns (run: Run)
    requires Initial(init)
    ensures run.Valid() && run.AllOrderly() && run.Origin() == init
    ensures run.End() == init.(memory := map[1 := init.issued[0], 2 := init.issued[0]])
  {
    assert StemsFrom(init.issued[0], init.issued[..1][0]);
    var r, s := Extend(Start(init), Spawn(1, init.issued[0]), init);
    r, s := Extend(r, Spawn(2, init.issued[0]), s);
    assert s.memory == map[1 := init.issued[0], 2 := init.issued[0]];
    run := r;
  }

  lemma BothStart(init: State) returns (run: Run)
    requires Initial(init)
    ensures run.Valid() && run.AllOrderly() && run.Origin() == init
    ensures run.End() == init.(memory := map[1 := init.issued[0], 2 := init.issued[0]],
                               stage := map[1 := Inside(init.entered + 1)], entered := init.entered + 1)
  {
    var r := BothSpawn(init);
    var s := r.End();
    r, s := Extend(r, Enter(1), s);
    run := r;
  }

  lemma FirstPresents(init: State) returns (run: Run)
    requires Initial(init)
    ensures run.Valid() && run.AllOrderly() && run.Origin() == init
    ensures run.End() == init.(memory := map[1 := init.issued[0], 2 := init.issued[0]],
                               stage := map[1 := Presenting(init.entered + 1, init.live)], entered := init.entered + 1)
  {
    var r := BothStart(init);
    var s := r.End();
    assert !PeerIsNewer(s.memory[1], DiskEntry(s), s.clock);
    r, s := Extend(r, Resolve(1), s);
    assert s.stage == map[1 := Presenting(init.entered + 1, init.live)];
    assert s.memory == map[1 := init.issued[0], 2 := init.issued[0]];
    run := r;
  }

  lemma FirstIsGranted(init: State, auth: LocationAuth) returns (run: Run)
    requires Initial(init) && Rotates(init, auth)
    ensures run.Valid() && run.AllOrderly() && run.Origin() == init
    ensures var s := run.End();
            && s.config == init.config && s.home == init.home && s.clock == init.clock && s.onDisk == 0
            && s.stage == map[1 := Granted(init.entered + 1, Save(init.home, auth, init.clock))]
            && 2 in s.memory && s.memory[2] == init.issued[0]
            && s.issued == init.issued + [Memory(auth.idToken, auth.refreshToken, auth.expiresAt)]
  {
    var r := FirstPresents(init);
    var s := r.End();
    r, s := Extend(r, Grant(1, auth), s);
    assert s.stage == map[1 := Granted(init.entered + 1, Save(init.home, auth, init.clock))];
    run := r;
  }

  lemma FirstReads(init: State, auth: LocationAuth) returns (run: Run)
    requires Initial(init) && Rotates(init, auth)
    ensures run.Valid() && run.AllOrderly() && run.Origin() == init
    ensures var s := run.End();
            && s.clock == init.clock && s.onDisk == 0
            && s.stage == map[1 := Merging(init.entered + 1, init.config, Save(init.home, auth, init.clock), true)]
            && 2 in s.memory && s.memory[2] == init.issued[0]
            && s.issued == init.issued + [Memory(auth.idToken, auth.refreshToken, auth.expiresAt)]
  {
    var r := FirstIsGranted(init, auth);
    var s := r.End();
    r, s := Extend(r, ReadFile(1), s);
    assert s.stage == map[1 := Merging(init.entered + 1, init.config, Save(init.home, auth, init.clock), true)];
    run := r;
  }

  lemma RenameAlone(s: State, t: nat, c: Config, save: Save)
    requires s.stage == map[1 := Merging(t, c, save, true)]
    ensures Orderly(s, Rename(1))
    ensures var s' := Next(s, Rename(1));
            && s'.stage == map[1 := Done(t)] && s'.onDisk == s.onDisk + 1
            && s'.clock == s.clock && s'.memory == s.memory && s'.issued == s.issued
  {
  }

  lemma FirstRenames(init: State, auth: LocationAuth) returns (run: Run)
    requires Initial(init) && Rotates(init, auth)
    ensures run.Valid() && run.AllOrderly() && run.Origin() == init
    ensures var s := run.End();
            && s.clock == init.clock && s.onDisk == 1 && s.stage == map[1 := Done(init.entered + 1)]
            && 2 in s.memory && s.memory[2] == init.issued[0]
            && s.issued == init.issued + [Memory(auth.idToken, auth.refreshToken, auth.expiresAt)]
  {
    var r := FirstReads(init, auth);
    var s := r.End();
    RenameAlone(s, init.entered + 1, init.config, Save(init.home, auth, init.clock));
    r, s := Extend(r, Rename(1), s);
    run := r;
  }

  lemma FirstRefreshes(init: State, auth: LocationAuth) returns (run: Run)
    requires Initial(init) && Rotates(init, auth)
    ensures run.Valid() && run.AllOrderly() && run.Origin() == init
    ensures var s := run.End();
            && Free(s) && s.clock == init.clock && s.onDisk == 1 && |s.issued| == 2
            && 2 in s.memory && s.memory[2] == init.issued[0] && !IsInside(s, 2)
            && OnDisk(s).expiresAt == auth.expiresAt
  {
    var r := FirstRenames(init, auth);
    var s := r.End();
    r, s := Extend(r, Leave(1), s);
    assert s.stage == map[1 := Outside];
    run := r;
  }

  lemma SecondEnters(init: State, auth: LocationAuth) returns (run: Run)
    requires Initial(init) && Rotates(init, auth)
    ensures run.Valid() && run.Origin() == init && run.AllOrderly()
    ensures Enabled(run.End(), Resolve(2)) && BehindAndStale(run.End(), Resolve(2))
  {
    var r := FirstRefreshes(init, auth);
    var s := r.End();
    r, s := Extend(r, Tick(if auth.expiresAt > s.clock then auth.expiresAt - s.clock else 0), s);
    r, s := Extend(r, Enter(2), s);
    run := r;
  }

  /** Two processes start from the same token set; one refreshes; once its new set is no longer fresh, the other
      presents the token the first has spent. */
  lemma SpentTokenHappens(init: State, auth: LocationAuth) returns (run: Run)
    requires Initial(init) && Rotates(init, auth)
    ensures run.Valid() && run.Origin() == init && run.AllOrderly()
    ensures StageOf(run.End(), 2).Presenting? && StageOf(run.End(), 2).token in run.End().spent
  {
    var r := SecondEnters(init, auth);
    var s := r.End();
    EveryRun(r);
    SpentTokenIsPresented(s, Resolve(2), init.config);
    r, s := Extend(r, Resolve(2), s);
    run := r;
  }
}
