/** The environment overrides of a merged config (`config/env.ts`), and what they make of its active entries. */
module EnvOverrides {
  import opened Common
  import opened Text
  import opened ActiveConfig

  datatype Env = Env(
    name: Option<string>, objective: Option<string>, remoteUrl: Option<string>,
    clerkIssuer: Option<string>, clerkClientId: Option<string>)

  const NEW_LOCATION := Location(None, None, map[], None, None, None)

  /** A variable that is unset or blank counts as absent. */
  function NonBlank(v: Option<string>): Option<string> {
    if v.Some? && Trim(v.value) != "" then v else None
  }

  // ---------------------------------------------------------------- what each override does

  function Named(config: Config, env: Env): Config {
    var name, objective := NonBlank(env.name), NonBlank(env.objective);
    config.(name := if name.Some? then Some(Trim(name.value)) else config.name,
    objective := if objective.Some? then Some(Trim(objective.value)) else config.objective)
  }

  function ClearedChannel(channel: Channel): Channel {
    Channel(None, map t | t in channel.topics :: channel.topics[t].(active := None))
  }

  function Cleared(location: Location): Location {
    location.(active := None, channels := map c | c in location.channels :: ClearedChannel(location.channels[c]))
  }

  /** Everything inactive but `remote`, which takes the url and keeps its other fields. */
  function WithUrl(config: Config, url: string): Config {
    var cleared := map l | l in config.locations :: Cleared(config.locations[l]);
    var existing := if REMOTE_ENV_LOCATION in cleared then cleared[REMOTE_ENV_LOCATION] else NEW_LOCATION;
    config.(locations := cleared[REMOTE_ENV_LOCATION := existing.(url := Some(url), active := Some(true))])
  }

  predicate CanTakeAuth(config: Config, l: string) {
    l in config.locations && l != LOCAL_LOCATION && config.locations[l].active == Some(true)
  }

  /** The location the app pointer goes to: `remote` if there is one, else some active location that is not local. */
  predicate IsAuthTarget(config: Config, target: Option<string>) {
    if REMOTE_ENV_LOCATION in config.locations then target == Some(REMOTE_ENV_LOCATION)
    else
      match target
      case Some(l) => CanTakeAuth(config, l)
      case None => forall l | l in config.locations :: !CanTakeAuth(config, l)
  }

  function Pointed(location: Location, issuer: Option<string>, clientId: Option<string>): Location {
    location.(authType := Some("clerk"),
    clerkIssuer := if issuer.Some? then issuer else location.clerkIssuer,
    clerkClientId := if clientId.Some? then clientId else location.clerkClientId)
  }

  function WithAuth(config: Config, target: Option<string>, issuer: Option<string>, clientId: Option<string>): Config {
    if (issuer.None? && clientId.None?) || target.None? || target.value !in config.locations then config
    else config.(locations := config.locations[target.value := Pointed(config.locations[target.value], issuer,
        clientId)])
  }

  function WithNameAndUrl(config: Config, env: Env): Config {
    var url := NonBlank(env.remoteUrl);
    if url.Some? then WithUrl(Named(config, env), url.value) else Named(config, env)
  }

  /** `next` is `config` with the overrides applied; only the choice among several active locations is open. */
  predicate IsOverridden(config: Config, env: Env, target: Option<string>, next: Config) {
    && IsAuthTarget(WithNameAndUrl(config, env), target)
    && next == WithAuth(WithNameAndUrl(config, env), target, NonBlank(env.clerkIssuer), NonBlank(env.clerkClientId))
  }

  // ---------------------------------------------------------------- the code

  /** Topics visited so far are inactive, the others as they were. */
  function TopicsSoFar(topics: map<string, Topic>, done: set<string>): map<string, Topic> {
    map t | t in topics :: if t in done then topics[t].(active := None) else topics[t]
  }

  function ChannelsSoFar(channels: map<string, Channel>, done: set<string>): map<string, Channel> {
    map c | c in channels :: if c in done then ClearedChannel(channels[c]) else channels[c]
  }

  function LocationsSoFar(locations: map<string, Location>, done: set<string>): map<string, Location> {
    map l | l in locations :: if l in done then Cleared(locations[l]) else locations[l]
  }

  lemma TopicCleared(topics: map<string, Topic>, done: set<string>, t: string)
    requires t in topics
    ensures TopicsSoFar(topics, done + {t}) == TopicsSoFar(topics, done)[t := topics[t].(active := None)]
    ensures TopicsSoFar(topics, {}) == topics
  {
  }

  lemma ChannelCleared(channels: map<string, Channel>, done: set<string>, c: string)
    requires c in channels
    ensures ChannelsSoFar(channels, done + {c}) == ChannelsSoFar(channels, done)[c := ClearedChannel(channels[c])]
    ensures ChannelsSoFar(channels, {}) == channels
  {
  }

  lemma LocationCleared(locations: map<string, Location>, done: set<string>, l: string)
    requires l in locations
    ensures LocationsSoFar(locations, done + {l}) == LocationsSoFar(locations, done)[l := Cleared(locations[l])]
    ensures LocationsSoFar(locations, {}) == locations
  {
  }

  method ClearTopics(topics: map<string, Topic>) returns (next: map<string, Topic>)
    ensures next == TopicsSoFar(topics, topics.Keys)
  {
    next := topics;
    var names := topics.Keys;
    ghost var done: set<string> := {};
    assert TopicsSoFar(topics, {}) == topics;
    while names != {}
      invariant Split(topics.Keys, names, done) && next == TopicsSoFar(topics, done)
      decreases |names|
    {
      var t :| t in names;
      SplitMore(topics.Keys, names, done, t);
      TopicCleared(topics, done, t);
      names := names - {t};
      next := next[t := topics[t].(active := None)];
      done := done + {t};
    }
    assert done == topics.Keys;
  }

  method ClearChannel(channel: Channel) returns (next: Channel)
    ensures next == ClearedChannel(channel)
  {
    var topics := ClearTopics(channel.topics);
    next := Channel(None, topics);
  }

  method ClearChannels(channels: map<string, Channel>) returns (next: map<string, Channel>)
    ensures next == ChannelsSoFar(channels, channels.Keys)
  {
    next := channels;
    var names := channels.Keys;
    ghost var done: set<string> := {};
    assert ChannelsSoFar(channels, {}) == channels;
    while names != {}
      invariant Split(channels.Keys, names, done) && next == ChannelsSoFar(channels, done)
      decreases |names|
    {
      var c :| c in names;
      SplitMore(channels.Keys, names, done, c);
      ChannelCleared(channels, done, c);
      names := names - {c};
      var cleared := ClearChannel(channels[c]);
      next := next[c := cleared];
      done := done + {c};
    }
    assert done == channels.Keys;
  }

  method ClearActiveCascade(location: Location) returns (next: Location)
    ensures next == Cleared(location)
  {
    var channels := ClearChannels(location.channels);
    next := location.(active := None, channels := channels);
  }

  method ClearLocations(locations: map<string, Location>) returns (next: map<string, Location>)
    ensures next == LocationsSoFar(locations, locations.Keys)
  {
    next := locations;
    var names := locations.Keys;
    ghost var done: set<string> := {};
    assert LocationsSoFar(locations, {}) == locations;
    while names != {}
      invariant Split(locations.Keys, names, done) && next == LocationsSoFar(locations, done)
      decreases |names|
    {
      var l :| l in names;
      SplitMore(locations.Keys, names, done, l);
      LocationCleared(locations, done, l);
      names := names - {l};
      var cleared := ClearActiveCascade(locations[l]);
      next := next[l := cleared];
      done := done + {l};
    }
    assert done == locations.Keys;
  }

  method PickAuthTarget(config: Config) returns (target: Option<string>)
    ensures IsAuthTarget(config, target)
  {
    if REMOTE_ENV_LOCATION in config.locations {
      return Some(REMOTE_ENV_LOCATION);
    }
    var names := config.locations.Keys;
    ghost var done: set<string> := {};
    while names != {}
      invariant Split(config.locations.Keys, names, done)
      invariant forall l | l in done :: !CanTakeAuth(config, l)
      decreases |names|
    {
      var l :| l in names;
      SplitMore(config.locations.Keys, names, done, l);
      names := names - {l};
      if l != LOCAL_LOCATION && config.locations[l].active == Some(true) {
        return Some(l);
      }
      done := done + {l};
    }
    assert done == config.locations.Keys;
    return None;
  }

  lemma AllLocationsCleared(config: Config, url: string, locations: map<string, Location>)
    requires locations == LocationsSoFar(config.locations, config.locations.Keys)
    ensures locations == map l | l in config.locations :: Cleared(config.locations[l])
    ensures var existing := if REMOTE_ENV_LOCATION in locations then locations[REMOTE_ENV_LOCATION] else NEW_LOCATION;
            var remote := existing.(url := Some(url), active := Some(true));
            config.(locations := locations[REMOTE_ENV_LOCATION := remote]) == WithUrl(config, url)
  {
  }

  method ApplyEnvOverrides(config: Config, env: Env) returns (next: Config)
    ensures exists target :: IsOverridden(config, env, target, next)
  {
    next := config;
    var name, objective, url := NonBlank(env.name), NonBlank(env.objective), NonBlank(env.remoteUrl);
    if name.Some? {
      next := next.(name := Some(Trim(name.value)));
    }
    if objective.Some? {
      next := next.(objective := Some(Trim(objective.value)));
    }
    if url.Some? {
      var locations := ClearLocations(next.locations);
      var existing := if REMOTE_ENV_LOCATION in locations then locations[REMOTE_ENV_LOCATION] else NEW_LOCATION;
      next := next.(locations := locations[REMOTE_ENV_LOCATION := existing.(url := url, active := Some(true))]);
      AllLocationsCleared(Named(config, env), url.value, locations);
    }
    assert next == WithNameAndUrl(config, env);
    var issuer, clientId := NonBlank(env.clerkIssuer), NonBlank(env.clerkClientId);
    var picked := PickAuthTarget(next);
    if (issuer.Some? || clientId.Some?) && picked.Some? {
      var location := next.locations[picked.value];
      if issuer.Some? {
        location := location.(clerkIssuer := issuer);
      }
      if clientId.Some? {
        location := location.(clerkClientId := clientId);
      }
      location := location.(authType := Some("clerk"));
      next := next.(locations := next.locations[picked.value := location]);
    }
    assert IsOverridden(config, env, picked, next);
  }

  // ---------------------------------------------------------------- what the overrides do to the active entries

  /** Clearing leaves nothing active at any depth, and loses no channel and no topic. */
  lemma ClearedIsQuiet(location: Location)
    ensures ActiveChannels(Cleared(location)) == {} && !LocationIsActive(Cleared(location))
              && IsSound(Cleared(location))
    ensures Cleared(location).url == location.url
    ensures Cleared(location).channels.Keys == location.channels.Keys
    ensures forall c | c in location.channels ::
              Cleared(location).channels[c].topics.Keys == location.channels[c].topics.Keys
              && ActiveTopics(Cleared(location).channels[c]) == {}
  {
  }

  lemma SameChannels(location: Location, other: Location)
    requires location.channels == other.channels
    ensures ActiveChannels(location) == ActiveChannels(other) && (IsSound(location) <==> IsSound(other))
  {
  }

  /** The url in the environment hands activeness to `remote`, and to it alone. */
  lemma RemoteIsActive(config: Config, url: string)
    ensures var next := WithUrl(config, url);
            && (forall l | l in next.locations :: IsSound(next.locations[l]) && ActiveChannels(next.locations[l]) == {})
            && ActiveLocations(next) == {REMOTE_ENV_LOCATION}
            && (forall t :: !TopicIsActive(next, t))
  {
    var next := WithUrl(config, url);
    var remote := next.locations[REMOTE_ENV_LOCATION];
    forall l | l in next.locations
      ensures IsSound(next.locations[l]) && ActiveChannels(next.locations[l]) == {}
      ensures LocationIsActive(next.locations[l]) <==> l == REMOTE_ENV_LOCATION
      ensures forall c | c in next.locations[l].channels :: ActiveTopics(next.locations[l].channels[c]) == {}
    {
      if l in config.locations {
        ClearedIsQuiet(config.locations[l]);
        SameChannels(Cleared(config.locations[l]), next.locations[l]);
      }
    }
  }

  /** After an override with a url that is not blank, resolving succeeds exactly when every other non-local location has
      a url, and then yields `remote` without a channel or a topic, whatever was active before. */
  lemma UrlWins(config: Config, url: string)
    requires Trim(url) != ""
    ensures Accepted(WithUrl(config, url)) <==>
              forall l | l in config.locations && l != REMOTE_ENV_LOCATION :: !LacksUrl(config, l)
    ensures IsResolution(WithUrl(config, url), ResolvedActive(Some(REMOTE_ENV_LOCATION), None, None))
  {
    var next := WithUrl(config, url);
    RemoteIsActive(config, url);
    assert forall l | l in config.locations && l != REMOTE_ENV_LOCATION :: LacksUrl(next, l) <==> LacksUrl(config, l);
    assert !LacksUrl(next, REMOTE_ENV_LOCATION);
  }

  /** The two locations agree on everything the resolver reads. */
  predicate SameActiveness(a: Location, b: Location) {
    a.url == b.url && a.active == b.active && a.channels == b.channels
  }

  predicate SameActives(config: Config, next: Config) {
    next.locations.Keys == config.locations.Keys
    && forall l | l in config.locations :: SameActiveness(config.locations[l], next.locations[l])
  }

  lemma SameActiveLocations(config: Config, next: Config)
    requires SameActives(config, next)
    ensures ActiveLocations(config) == ActiveLocations(next)
  {
  }

  lemma SameActivesAccepted(config: Config, next: Config)
    requires SameActives(config, next)
    ensures Accepted(config) ==> Accepted(next)
  {
    SameActiveLocations(config, next);
    forall l | l in config.locations
      ensures IsSound(config.locations[l]) <==> IsSound(next.locations[l])
      ensures LacksUrl(config, l) <==> LacksUrl(next, l)
    {
      assert SameActiveness(config.locations[l], next.locations[l]);
      SameChannels(config.locations[l], next.locations[l]);
    }
  }

  lemma SameActivesResolution(config: Config, next: Config, r: ResolvedActive)
    requires SameActives(config, next) && IsResolution(config, r)
    ensures IsResolution(next, r)
  {
  }

  /** The app pointer changes neither whether a config is accepted nor what it resolves to. */
  lemma PointerKeepsActive(config: Config, target: Option<string>, issuer: Option<string>, clientId: Option<string>)
    ensures var next := WithAuth(config, target, issuer, clientId);
            (Accepted(next) <==> Accepted(config)) && forall r :: IsResolution(next, r) <==> IsResolution(config, r)
  {
    var next := WithAuth(config, target, issuer, clientId);
    assert SameActives(config, next);
    assert SameActives(next, config);
    SameActivesAccepted(config, next);
    SameActivesAccepted(next, config);
    forall r ensures IsResolution(next, r) <==> IsResolution(config, r) {
      if IsResolution(config, r) { SameActivesResolution(config, next, r); }
      if IsResolution(next, r) { SameActivesResolution(next, config, r); }
    }
  }

  /** Both together, for whatever the overriding code returns. */
  lemma OverriddenUrlWins(config: Config, env: Env, target: Option<string>, next: Config)
    requires IsOverridden(config, env, target, next) && NonBlank(env.remoteUrl).Some?
    ensures Accepted(next) <==> forall l | l in config.locations && l != REMOTE_ENV_LOCATION :: !LacksUrl(config, l)
    ensures IsResolution(next, ResolvedActive(Some(REMOTE_ENV_LOCATION), None, None))
  {
    var issuer, clientId := NonBlank(env.clerkIssuer), NonBlank(env.clerkClientId);
    UrlWins(Named(config, env), env.remoteUrl.value);
    PointerKeepsActive(WithNameAndUrl(config, env), target, issuer, clientId);
    assert forall l :: LacksUrl(Named(config, env), l) <==> LacksUrl(config, l);
  }

  // ---------------------------------------------------------------- field by field

  /** A variable is set to something that is not blank. */
  predicate IsSet(v: Option<string>) {
    v.Some? && Trim(v.value) != ""
  }

  /** The variable's value if it is set, what was there otherwise. */
  predicate Takes(next: Option<string>, v: Option<string>, was: Option<string>) {
    next == if IsSet(v) then v else was
  }

  predicate TakesTrimmed(next: Option<string>, v: Option<string>, was: Option<string>) {
    next == if IsSet(v) then Some(Trim(v.value)) else was
  }

  /** What a location had before, nothing for one that was not there. */
  function Was(config: Config, l: string): Location {
    if l in config.locations then config.locations[l] else NEW_LOCATION
  }

  /** `remote` has the environment's url and is active; with a url all other flags are gone, without one nothing has
      changed. */
  ghost predicate UrlApplied(config: Config, env: Env, l: string, next: Location) {
    var was := Was(config, l);
    && next.channels.Keys == was.channels.Keys
    && if IsSet(env.remoteUrl) then
         && next.url == (if l == "remote" then env.remoteUrl else was.url)
         && next.active == (if l == "remote" then Some(true) else None)
         && (forall c | c in next.channels ::
               && next.channels[c].active == None
               && next.channels[c].topics.Keys == was.channels[c].topics.Keys
               && forall t | t in next.channels[c].topics :: next.channels[c].topics[t] == Topic(None))
       else next.url == was.url && next.active == was.active && next.channels == was.channels
  }

  /** The app pointer goes to the target, each part from its own variable, and to no other location. */
  predicate PointerApplied(config: Config, env: Env, isTarget: bool, was: Location, next: Location) {
    if isTarget && (IsSet(env.clerkIssuer) || IsSet(env.clerkClientId)) then
      && next.authType == Some("clerk")
      && Takes(next.clerkIssuer, env.clerkIssuer, was.clerkIssuer)
      && Takes(next.clerkClientId, env.clerkClientId, was.clerkClientId)
    else
      next.authType == was.authType && next.clerkIssuer == was.clerkIssuer && next.clerkClientId == was.clerkClientId
  }

  /** The target is `remote` where there is one, else an active location that is not the reserved one, if any. */
  predicate IsTargeted(config: Config, env: Env, target: Option<string>) {
    if IsSet(env.remoteUrl) || "remote" in config.locations then target == Some("remote")
    else
      match target
      case Some(l) => l in config.locations && l != "local" && IsOn(config.locations[l].active)
      case None => forall l | l in config.locations && IsOn(config.locations[l].active) :: l == "local"
  }

  lemma UrlIsApplied(config: Config, env: Env, l: string)
    requires l in WithNameAndUrl(config, env).locations
    ensures var next := WithNameAndUrl(config, env).locations[l];
            && UrlApplied(config, env, l, next) && next.authType == Was(config, l).authType
            && next.clerkIssuer == Was(config, l).clerkIssuer && next.clerkClientId == Was(config, l).clerkClientId
  {
  }

  /** The overridden config, field by field: each variable that is set goes to its own place, and nothing else
      changes. */
  lemma OverridesFieldByField(config: Config, env: Env, target: Option<string>, next: Config, l: string)
    requires IsOverridden(config, env, target, next)
    ensures IsTargeted(config, env, target)
    ensures TakesTrimmed(next.name, env.name, config.name)
    ensures TakesTrimmed(next.objective, env.objective, config.objective)
    ensures next.locations.Keys == config.locations.Keys + if IsSet(env.remoteUrl) then {"remote"} else {}
    ensures l in next.locations ==>
              && UrlApplied(config, env, l, next.locations[l])
              && PointerApplied(config, env, target == Some(l), Was(config, l), next.locations[l])
  {
    if l in next.locations {
      UrlIsApplied(config, env, l);
    }
  }
}
