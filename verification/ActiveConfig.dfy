/** Which location, channel and topic a merged config makes active (`config/active.ts`), and what the environment
    overrides (`config/env.ts`). */
module ActiveConfig {
  import opened Common
  import opened Text

  const REMOTE_ENV_LOCATION := "remote"

  datatype Topic = Topic(active: Option<bool>)

  datatype Channel = Channel(active: Option<bool>, topics: map<string, Topic>)

  datatype Location = Location(
    url: Option<string>, active: Option<bool>, channels: map<string, Channel>,
    authType: Option<string>, clerkIssuer: Option<string>, clerkClientId: Option<string>)

  datatype Config = Config(name: Option<string>, objective: Option<string>, locations: map<string, Location>)

  datatype ChannelRef = ChannelRef(location: string, name: string)

  datatype TopicRef = TopicRef(location: string, channel: string, name: string)

  datatype ResolvedActive = ResolvedActive(location: Option<string>, channel: Option<ChannelRef>,
      topic: Option<TopicRef>)

  datatype ConfigError =
    | MissingUrl(location: string)
    | ManyTopics(location: string, channel: string)
    | ManyChannels(location: string)
    | ManyLocations

  // ---------------------------------------------------------------- what is active

  function ActiveTopics(channel: Channel): set<string> {
    set t | t in channel.topics && channel.topics[t].active == Some(true)
  }

  /** Active itself, or through a topic. */
  predicate ChannelIsActive(channel: Channel) {
    channel.active == Some(true) || ActiveTopics(channel) != {}
  }

  function ActiveChannels(location: Location): set<string> {
    set c | c in location.channels && ChannelIsActive(location.channels[c])
  }

  predicate LocationIsActive(location: Location) {
    location.active == Some(true) || ActiveChannels(location) != {}
  }

  function ActiveLocations(config: Config): set<string> {
    set l | l in config.locations && LocationIsActive(config.locations[l])
  }

  /** The topic is explicitly active. */
  predicate TopicIsActive(config: Config, t: TopicRef) {
    && t.location in config.locations && t.channel in config.locations[t.location].channels
    && t.name in ActiveTopics(config.locations[t.location].channels[t.channel])
  }

  predicate LacksUrl(config: Config, name: string) {
    && name in config.locations && name != LOCAL_LOCATION
    && (config.locations[name].url.None? || Trim(config.locations[name].url.value) == "")
  }

  predicate AtMostOne(s: set<string>) {
    forall x, y | x in s && y in s :: x == y
  }

  predicate OneTopicPerChannel(location: Location) {
    forall c | c in location.channels :: AtMostOne(ActiveTopics(location.channels[c]))
  }

  predicate IsSound(location: Location) {
    OneTopicPerChannel(location) && AtMostOne(ActiveChannels(location))
  }

  predicate HasUrls(config: Config) {
    forall l | l in config.locations :: !LacksUrl(config, l)
  }

  /** What the resolver accepts: urls everywhere but at the local broker, and at most one active entry at each level. */
  predicate Accepted(config: Config) {
    && HasUrls(config)
    && (forall l | l in config.locations :: IsSound(config.locations[l]))
    && AtMostOne(ActiveLocations(config))
  }

  /** The answer: the only active location, its only active channel, and the only explicitly active topic anywhere. */
  ghost predicate IsResolution(config: Config, r: ResolvedActive) {
    && ActiveLocations(config) == (if r.location.Some? then {r.location.value} else {})
    && (match r.channel
        case Some(c) => r.location == Some(c.location) && c.location in config.locations
                        && ActiveChannels(config.locations[c.location]) == {c.name}
        case None =>
          r.location.Some? && r.location.value in config.locations ==>
            ActiveChannels(config.locations[r.location.value]) == {})
    && (forall t :: TopicIsActive(config, t) <==> r.topic == Some(t))
  }

  /** A loop over `all` has `rest` still to visit and `done` behind it. */
  predicate Split(all: set<string>, rest: set<string>, done: set<string>) {
    rest + done == all && rest !! done
  }

  lemma SplitMore(all: set<string>, rest: set<string>, done: set<string>, x: string)
    requires Split(all, rest, done) && x in rest
    ensures Split(all, rest - {x}, done + {x}) && |rest - {x}| < |rest| && x in all && x !in done
  {
  }

  lemma SizeIsAtMostOne(s: set<string>)
    ensures |s| <= 1 <==> AtMostOne(s)
  {
    if s != {} {
      var x :| x in s;
      assert |s - {x}| == |s| - 1;
      if |s| <= 1 {
        assert s - {x} == {};
        assert forall y | y in s :: y == x || y in s - {x};
      }
      if AtMostOne(s) {
        assert s - {x} == {};
      }
    }
  }

  lemma OnlyElement(s: set<string>, x: string)
    requires AtMostOne(s) && x in s
    ensures s == {x}
  {
  }

  // ---------------------------------------------------------------- the resolver

  predicate OneTopicIn(location: Location, done: set<string>) {
    forall c | c in done && c in location.channels :: AtMostOne(ActiveTopics(location.channels[c]))
  }

  lemma OneMoreChannel(location: Location, done: set<string>, c: string)
    requires OneTopicIn(location, done) && (c in location.channels ==> AtMostOne(ActiveTopics(location.channels[c])))
    ensures OneTopicIn(location, done + {c})
  {
  }

  lemma ManyIsUnsound(location: Location, c: string)
    requires c in location.channels && !AtMostOne(ActiveTopics(location.channels[c]))
    ensures !IsSound(location)
  {
  }

  function ActiveIn(location: Location, done: set<string>): set<string> {
    ActiveChannels(location) * done
  }

  lemma OneMoreActive(location: Location, done: set<string>, c: string)
    requires c in location.channels
    ensures ActiveIn(location, done + {c})
         == if ChannelIsActive(location.channels[c]) then ActiveIn(location, done) + {c} else ActiveIn(location, done)
  {
  }

  predicate IsTopicOf(name: string, c: string, channel: Channel, topic: Option<TopicRef>) {
    topic.Some? && topic.value.location == name && topic.value.channel == c && topic.value.name in ActiveTopics(channel)
  }

  predicate HasTopic(location: Location, done: set<string>, c: string) {
    c in done && c in location.channels && ActiveTopics(location.channels[c]) != {}
  }

  /** The topic held after some channels of a location: an active one there, or the one before when they have none. */
  ghost predicate IsHeld(name: string, location: Location, done: set<string>, before: Option<TopicRef>,
      topic: Option<TopicRef>) {
    if exists c :: HasTopic(location, done, c) then
      && topic.Some? && topic.value.location == name && HasTopic(location, done, topic.value.channel)
      && topic.value.name in ActiveTopics(location.channels[topic.value.channel])
    else
      topic == before
  }

  lemma HeldMore(
    name: string, location: Location, done: set<string>, c: string, before: Option<TopicRef>, topic: Option<TopicRef>,
    topic': Option<TopicRef>)
    requires IsHeld(name, location, done, before, topic) && c in location.channels
    requires if ActiveTopics(location.channels[c]) == {} then topic' == topic
               else IsTopicOf(name, c, location.channels[c], topic')
    ensures IsHeld(name, location, done + {c}, before, topic')
  {
    if ActiveTopics(location.channels[c]) == {} {
      assert forall d :: HasTopic(location, done + {c}, d) <==> HasTopic(location, done, d);
    } else {
      assert HasTopic(location, done + {c}, c);
    }
  }

  /** The body of the loop over a location's channels. */
  method ScanChannel(name: string, c: string, channel: Channel, topic: Option<TopicRef>)
    returns (error: Option<ConfigError>, isActive: bool, topic': Option<TopicRef>)
    ensures error == if AtMostOne(ActiveTopics(channel)) then None else Some(ManyTopics(name, c))
    ensures isActive == ChannelIsActive(channel)
    ensures error.None? ==>
              if ActiveTopics(channel) == {} then topic' == topic else IsTopicOf(name, c, channel, topic')
  {
    var topics := ActiveTopics(channel);
    SizeIsAtMostOne(topics);
    isActive := channel.active == Some(true) || |topics| > 0;
    topic' := topic;
    if |topics| > 1 {
      return Some(ManyTopics(name, c)), isActive, topic';
    }
    error := None;
    if |topics| == 1 {
      var t :| t in topics;
      topic' := Some(TopicRef(name, c, t));
    }
  }

  /** The error names what is wrong in the location: a channel with several active topics, or several active
      channels. */
  predicate IsUnsoundAt(name: string, location: Location, error: ConfigError) {
    match error
    case ManyTopics(l, c) => l == name && c in location.channels && !AtMostOne(ActiveTopics(location.channels[c]))
    case ManyChannels(l) => l == name && OneTopicPerChannel(location) && !AtMostOne(ActiveChannels(location))
    case _ => false
  }

  ghost predicate ScannedChannels(
    name: string, location: Location, done: set<string>, before: Option<TopicRef>, active: set<string>,
    topic: Option<TopicRef>) {
    OneTopicIn(location, done) && active == ActiveIn(location, done) && IsHeld(name, location, done, before, topic)
  }

  lemma ScannedOneMore(
    name: string, location: Location, done: set<string>, c: string, before: Option<TopicRef>, active: set<string>,
    topic: Option<TopicRef>, topic': Option<TopicRef>)
    requires ScannedChannels(name, location, done, before, active, topic) && c in location.channels
    requires AtMostOne(ActiveTopics(location.channels[c]))
    requires if ActiveTopics(location.channels[c]) == {} then topic' == topic
               else IsTopicOf(name, c, location.channels[c], topic')
    ensures ScannedChannels(
              name, location, done + {c}, before,
              active + if ChannelIsActive(location.channels[c]) then {c} else {}, topic')
  {
    OneMoreChannel(location, done, c);
    OneMoreActive(location, done, c);
    HeldMore(name, location, done, c, before, topic, topic');
    assert active + {} == active;
  }

  lemma AllChannelsScanned(
    name: string, location: Location, before: Option<TopicRef>, active: set<string>, topic: Option<TopicRef>)
    requires ScannedChannels(name, location, location.channels.Keys, before, active, topic)
    ensures active == ActiveChannels(location) && OneTopicPerChannel(location)
  {
  }

  lemma NoChannelScanned(name: string, location: Location, before: Option<TopicRef>)
    ensures ScannedChannels(name, location, {}, before, {}, before)
  {
  }

  /** The loop over one location's channels. `before` is the topic held so far. */
  method ScanChannels(name: string, location: Location, before: Option<TopicRef>)
    returns (error: Option<ConfigError>, active: set<string>, topic: Option<TopicRef>)
    ensures error.None? <==> IsSound(location)
    ensures error.Some? ==> IsUnsoundAt(name, location, error.value)
    ensures error.None? ==>
              active == ActiveChannels(location) && IsHeld(name, location, location.channels.Keys, before, topic)
  {
    error, active, topic := None, {}, before;
    var channels := location.channels.Keys;
    ghost var done: set<string> := {};
    NoChannelScanned(name, location, before);
    while channels != {}
      invariant Split(location.channels.Keys, channels, done)
      invariant error.None? && ScannedChannels(name, location, done, before, active, topic)
      decreases |channels|
    {
      var c :| c in channels;
      SplitMore(location.channels.Keys, channels, done, c);
      var failed, isActive, topic' := ScanChannel(name, c, location.channels[c], topic);
      if failed.Some? {
        ManyIsUnsound(location, c);
        return failed, active, topic;
      }
      ScannedOneMore(name, location, done, c, before, active, topic, topic');
      channels := channels - {c};
      active, topic := active + (if isActive then {c} else {}), topic';
      done := done + {c};
    }
    assert done == location.channels.Keys;
    AllChannelsScanned(name, location, before, active, topic);
    SizeIsAtMostOne(active);
    if |active| > 1 {
      error := Some(ManyChannels(name));
    }
  }

  /** The topic held after some locations: an active one, if they have any. */
  ghost predicate IsHeldOverall(config: Config, done: set<string>, topic: Option<TopicRef>) {
    && (topic.Some? ==> TopicIsActive(config, topic.value) && topic.value.location in done)
    && (topic.None? ==> forall t | TopicIsActive(config, t) :: t.location !in done)
  }

  lemma HeldLocation(config: Config, done: set<string>, l: string, before: Option<TopicRef>, topic: Option<TopicRef>)
    requires IsHeldOverall(config, done, before) && l in config.locations && l !in done
    requires IsHeld(l, config.locations[l], config.locations[l].channels.Keys, before, topic)
    ensures IsHeldOverall(config, done + {l}, topic)
  {
    var location := config.locations[l];
    if topic.None? {
      forall t | TopicIsActive(config, t) ensures t.location !in done + {l} {
        assert t.location == l ==> HasTopic(location, location.channels.Keys, t.channel);
      }
    }
  }

  /** An active topic makes its channel and its location active. */
  lemma TopicCascades(config: Config, t: TopicRef)
    requires TopicIsActive(config, t)
    ensures t.channel in ActiveChannels(config.locations[t.location]) && t.location in ActiveLocations(config)
  {
  }

  /** An accepted config has at most one explicitly active topic, at whatever place. */
  lemma OneActiveTopic(config: Config, t: TopicRef, u: TopicRef)
    requires Accepted(config) && TopicIsActive(config, t) && TopicIsActive(config, u)
    ensures t == u
  {
    TopicCascades(config, t);
    TopicCascades(config, u);
    assert t.location == u.location;
    assert IsSound(config.locations[t.location]);
  }

  /** How the resolver derives the channel and the topic, given the topic its scan holds at the end. */
  function Derived(active: Option<string>, channels: set<string>, channel: string,
      topic: Option<TopicRef>): ResolvedActive {
    if active.None? || channels == {} then ResolvedActive(active, None, None)
    else
      ResolvedActive(active, Some(ChannelRef(active.value, channel)),
                     if topic.Some? && topic.value.location == active.value && topic.value.channel == channel then topic
                     else None)
  }

  lemma DerivedIsResolution(config: Config, active: Option<string>, channels: set<string>, channel: string,
      topic: Option<TopicRef>)
    requires Accepted(config) && IsHeldOverall(config, config.locations.Keys, topic)
    requires ActiveLocations(config) == if active.Some? then {active.value} else {}
    requires active.Some? ==> channels == ActiveChannels(config.locations[active.value])
    requires channels != {} ==> channels == {channel}
    ensures IsResolution(config, Derived(active, channels, channel, topic))
  {
    var r := Derived(active, channels, channel, topic);
    forall t ensures TopicIsActive(config, t) <==> r.topic == Some(t) {
      if TopicIsActive(config, t) {
        TopicCascades(config, t);
        OneActiveTopic(config, t, topic.value);
      }
    }
  }

  /** The answer is unique, so the order in which entries are visited cannot matter. */
  lemma ResolutionIsUnique(config: Config, r: ResolvedActive, q: ResolvedActive)
    requires IsResolution(config, r) && IsResolution(config, q)
    ensures r == q
  {
    assert r.location == q.location by {
      assert r.location.Some? ==> r.location.value in ActiveLocations(config);
      assert q.location.Some? ==> q.location.value in ActiveLocations(config);
    }
    assert r.channel == q.channel by {
      assert r.channel.Some? ==> r.channel.value.name in ActiveChannels(config.locations[r.channel.value.location]);
      assert q.channel.Some? ==> q.channel.value.name in ActiveChannels(config.locations[q.channel.value.location]);
      assert r.location.Some? ==> r.location.value in ActiveLocations(config);
    }
    assert r.topic.Some? ==> TopicIsActive(config, r.topic.value);
    assert q.topic.Some? ==> TopicIsActive(config, q.topic.value);
  }

  // ---------------------------------------------------------------- told from the flags alone

  predicate IsOn(flag: Option<bool>) {
    flag.Some? && flag.value
  }

  predicate TopicFlagged(config: Config, l: string, c: string, t: string) {
    && l in config.locations && c in config.locations[l].channels && t in config.locations[l].channels[c].topics
    && IsOn(config.locations[l].channels[c].topics[t].active)
  }

  /** The flag stands on the channel or on a topic in it. */
  ghost predicate ChannelFlagged(config: Config, l: string, c: string) {
    && l in config.locations && c in config.locations[l].channels
    && (IsOn(config.locations[l].channels[c].active) || exists t :: TopicFlagged(config, l, c, t))
  }

  /** The flag stands on the location, or on a channel or a topic in it. */
  ghost predicate LocationFlagged(config: Config, l: string) {
    && l in config.locations
    && (IsOn(config.locations[l].active) || exists c :: ChannelFlagged(config, l, c))
  }

  lemma ChannelsAreFlagged(config: Config, l: string, c: string)
    ensures l in config.locations && c in ActiveChannels(config.locations[l]) <==> ChannelFlagged(config, l, c)
    ensures forall t :: TopicFlagged(config, l, c, t) <==> TopicIsActive(config, TopicRef(l, c, t))
  {
    if l in config.locations && c in config.locations[l].channels {
      var channel := config.locations[l].channels[c];
      if t :| t in ActiveTopics(channel) {
        assert TopicFlagged(config, l, c, t);
      }
      if t :| TopicFlagged(config, l, c, t) {
        assert t in ActiveTopics(channel);
      }
    }
  }

  lemma LocationsAreFlagged(config: Config, l: string)
    ensures l in ActiveLocations(config) <==> LocationFlagged(config, l)
  {
    if l in config.locations {
      if c :| c in ActiveChannels(config.locations[l]) {
        ChannelsAreFlagged(config, l, c);
      }
      if c :| ChannelFlagged(config, l, c) {
        ChannelsAreFlagged(config, l, c);
      }
    }
  }

  /** The answer, told from the flags: a location, channel or topic is in it exactly when the flag stands on it or on
      something in it, for a topic on the topic itself; and within the answer's location for a channel. */
  lemma ResolutionFollowsFlags(config: Config, r: ResolvedActive, l: string, c: string, t: string)
    requires IsResolution(config, r)
    ensures r.location == Some(l) <==> LocationFlagged(config, l)
    ensures r.channel == Some(ChannelRef(l, c)) <==> ChannelFlagged(config, l, c)
    ensures r.topic == Some(TopicRef(l, c, t)) <==> TopicFlagged(config, l, c, t)
  {
    LocationsAreFlagged(config, l);
    ChannelsAreFlagged(config, l, c);
    assert l in ActiveLocations(config) <==> r.location == Some(l);
    if ChannelFlagged(config, l, c) {
      assert LocationFlagged(config, l);
      assert c in ActiveChannels(config.locations[l]);
    }
    if r.channel == Some(ChannelRef(l, c)) {
      assert c in ActiveChannels(config.locations[l]);
    }
  }

  /** Urls are required of every location but the reserved one, and white space is none. */
  lemma UrlsAreGiven(config: Config)
    ensures HasUrls(config) <==>
              forall l | l in config.locations && l != "local" ::
                config.locations[l].url.Some? && !AllSpace(config.locations[l].url.value)
  {
    forall l | l in config.locations && config.locations[l].url.Some?
      ensures Trim(config.locations[l].url.value) == "" <==> AllSpace(config.locations[l].url.value)
    {
      TrimIsBlank(config.locations[l].url.value);
    }
    forall l | l in config.locations
      ensures LacksUrl(config, l) <==>
              l != "local" && !(config.locations[l].url.Some? && !AllSpace(config.locations[l].url.value))
    {
    }
  }

  /** A config with its urls is refused exactly when two flags of one level compete. */
  lemma RefusedForFlags(config: Config)
    requires HasUrls(config)
    ensures Accepted(config) <==>
              && (forall l, c, t, u | TopicFlagged(config, l, c, t) && TopicFlagged(config, l, c, u) :: t == u)
              && (forall l, c, d | ChannelFlagged(config, l, c) && ChannelFlagged(config, l, d) :: c == d)
              && (forall l, k | LocationFlagged(config, l) && LocationFlagged(config, k) :: l == k)
  {
    forall l, c ensures l in config.locations && c in ActiveChannels(config.locations[l])
        <==> ChannelFlagged(config, l, c)
      ensures forall t :: TopicFlagged(config, l, c, t) <==> TopicIsActive(config, TopicRef(l, c, t))
    {
      ChannelsAreFlagged(config, l, c);
    }
    forall l ensures l in ActiveLocations(config) <==> LocationFlagged(config, l) {
      LocationsAreFlagged(config, l);
    }
    assert forall l, c, t :: TopicFlagged(config, l, c, t) <==>
        l in config.locations && c in config.locations[l].channels
            && t in ActiveTopics(config.locations[l].channels[c]);
  }

  method FindMissingUrl(config: Config) returns (missing: Option<string>)
    ensures missing.None? <==> HasUrls(config)
    ensures missing.Some? ==> LacksUrl(config, missing.value)
  {
    var names := config.locations.Keys;
    while names != {}
      invariant names <= config.locations.Keys
      invariant forall l | l in config.locations.Keys - names :: !LacksUrl(config, l)
      decreases |names|
    {
      var l :| l in names;
      names := names - {l};
      if LacksUrl(config, l) {
        return Some(l);
      }
    }
    return None;
  }

  /** The channels found active by location; a location without any has no entry. */
  predicate Collected(config: Config, done: set<string>, found: map<string, set<string>>) {
    && found.Keys <= done
    && forall l | l in done && l in config.locations ::
         ActiveChannels(config.locations[l]) == (if l in found then found[l] else {})
  }

  predicate SoundIn(config: Config, done: set<string>) {
    forall l | l in done && l in config.locations :: IsSound(config.locations[l])
  }

  lemma CollectedMore(config: Config, done: set<string>, found: map<string, set<string>>, l: string)
    requires Collected(config, done, found) && SoundIn(config, done) && l in config.locations && l !in done
    requires IsSound(config.locations[l])
    ensures var active := ActiveChannels(config.locations[l]);
            Collected(config, done + {l}, if active != {} then found[l := active] else found)
    ensures SoundIn(config, done + {l})
  {
  }

  lemma NoneCollected(config: Config)
    ensures Collected(config, {}, map[]) && SoundIn(config, {}) && IsHeldOverall(config, {}, None)
  {
  }

  lemma UnsoundLocation(config: Config, l: string)
    requires l in config.locations && !IsSound(config.locations[l])
    ensures !SoundIn(config, config.locations.Keys)
  {
  }

  lemma OneMoreLocation(config: Config, done: set<string>, l: string, found: map<string, set<string>>)
    requires l in config.locations && Collected(config, config.locations.Keys, found)
    ensures LocationIsActive(config.locations[l])
       <==> config.locations[l].active == Some(true) || (l in found && found[l] != {})
    ensures ActiveLocations(config) * (done + {l})
         == ActiveLocations(config) * done + if LocationIsActive(config.locations[l]) then {l} else {}
  {
  }

  ghost predicate ScannedLocations(config: Config, done: set<string>, found: map<string, set<string>>,
      topic: Option<TopicRef>) {
    SoundIn(config, done) && Collected(config, done, found) && IsHeldOverall(config, done, topic)
  }

  /** The body of the loop over the locations. */
  method ScanLocation(config: Config, l: string, found: map<string, set<string>>, topic: Option<TopicRef>,
      ghost done: set<string>)
    returns (error: Option<ConfigError>, found': map<string, set<string>>, topic': Option<TopicRef>)
    requires l in config.locations && l !in done && ScannedLocations(config, done, found, topic)
    ensures error.None? ==> ScannedLocations(config, done + {l}, found', topic')
    ensures error.Some? ==>
              !SoundIn(config, config.locations.Keys) && IsUnsoundAt(l, config.locations[l], error.value)
  {
    var active;
    error, active, topic' := ScanChannels(l, config.locations[l], topic);
    found' := if active != {} then found[l := active] else found;
    if error.Some? {
      UnsoundLocation(config, l);
    } else {
      HeldLocation(config, done, l, topic, topic');
      CollectedMore(config, done, found, l);
    }
  }

  /** Pass 1: topics make channels active. */
  method ScanLocations(config: Config)
    returns (error: Option<ConfigError>, found: map<string, set<string>>, topic: Option<TopicRef>)
    ensures error.None? <==> SoundIn(config, config.locations.Keys)
    ensures error.Some? ==>
              (error.value.ManyChannels? || error.value.ManyTopics?) && error.value.location in config.locations
              && IsUnsoundAt(error.value.location, config.locations[error.value.location], error.value)
    ensures error.None? ==>
              Collected(config, config.locations.Keys, found) && IsHeldOverall(config, config.locations.Keys, topic)
  {
    error, found, topic := None, map[], None;
    var names := config.locations.Keys;
    ghost var done: set<string> := {};
    NoneCollected(config);
    while names != {}
      invariant Split(config.locations.Keys, names, done)
      invariant error.None? && ScannedLocations(config, done, found, topic)
      decreases |names|
    {
      var l :| l in names;
      SplitMore(config.locations.Keys, names, done, l);
      names := names - {l};
      error, found, topic := ScanLocation(config, l, found, topic, done);
      if error.Some? {
        return;
      }
      done := done + {l};
    }
    assert done == config.locations.Keys;
  }

  ghost predicate CollectedLocations(config: Config, done: set<string>, active: set<string>) {
    active == ActiveLocations(config) * done
  }

  lemma AllLocationsCollected(config: Config, active: set<string>)
    ensures CollectedLocations(config, {}, {})
    ensures CollectedLocations(config, config.locations.Keys, active) ==> active == ActiveLocations(config)
  {
  }

  method CollectLocation(config: Config, l: string, found: map<string, set<string>>, active: set<string>,
      ghost done: set<string>)
    returns (active': set<string>)
    requires Collected(config, config.locations.Keys, found) && l in config.locations
    requires CollectedLocations(config, done, active)
    ensures CollectedLocations(config, done + {l}, active')
  {
    OneMoreLocation(config, done, l, found);
    active' := active;
    if config.locations[l].active == Some(true) || (l in found && found[l] != {}) {
      active' := active' + {l};
    }
  }

  /** Pass 2: channels make locations active. */
  method CollectLocations(config: Config, found: map<string, set<string>>) returns (active: set<string>)
    requires Collected(config, config.locations.Keys, found)
    ensures active == ActiveLocations(config)
  {
    active := {};
    var names := config.locations.Keys;
    ghost var done: set<string> := {};
    AllLocationsCollected(config, active);
    while names != {}
      invariant Split(config.locations.Keys, names, done)
      invariant CollectedLocations(config, done, active)
      decreases |names|
    {
      var l :| l in names;
      SplitMore(config.locations.Keys, names, done, l);
      names := names - {l};
      active := CollectLocation(config, l, found, active, done);
      done := done + {l};
    }
    assert done == config.locations.Keys;
    AllLocationsCollected(config, active);
  }

  method DeriveIn(config: Config, l: string, channels: set<string>, topic: Option<TopicRef>)
    returns (r: Result<ResolvedActive, ConfigError>)
    requires Accepted(config) && ActiveLocations(config) == {l}
    requires l in config.locations && channels == ActiveChannels(config.locations[l])
    requires IsHeldOverall(config, config.locations.Keys, topic)
    ensures r.Ok? && IsResolution(config, r.value)
  {
    SizeIsAtMostOne(channels);
    if |channels| == 1 {
      var c :| c in channels;
      OnlyElement(channels, c);
      DerivedIsResolution(config, Some(l), channels, c, topic);
      var kept := topic;
      if topic.Some? && (topic.value.location != l || topic.value.channel != c) {
        kept := None;
      }
      return Ok(ResolvedActive(Some(l), Some(ChannelRef(l, c)), kept));
    }
    DerivedIsResolution(config, Some(l), {}, "", topic);
    return Ok(ResolvedActive(Some(l), None, None));
  }

  method ResolveActive(config: Config) returns (r: Result<ResolvedActive, ConfigError>)
    ensures r.Ok? <==> Accepted(config)
    ensures r.Ok? ==> IsResolution(config, r.value)
    ensures (r.Err? && r.error.MissingUrl?) <==> !HasUrls(config)
    ensures r.Err? && r.error.MissingUrl? ==> LacksUrl(config, r.error.location)
    ensures r.Err? && (r.error.ManyTopics? || r.error.ManyChannels?) ==>
              r.error.location in config.locations
              && IsUnsoundAt(r.error.location, config.locations[r.error.location], r.error)
    ensures r == Err(ManyLocations) <==>
            HasUrls(config) && SoundIn(config, config.locations.Keys) && !AtMostOne(ActiveLocations(config))
  {
    var missing := FindMissingUrl(config);
    if missing.Some? {
      return Err(MissingUrl(missing.value));
    }
    var error, found, topic := ScanLocations(config);
    if error.Some? {
      return Err(error.value);
    }
    var locations := CollectLocations(config, found);
    SizeIsAtMostOne(locations);
    if |locations| > 1 {
      return Err(ManyLocations);
    }
    assert Accepted(config);
    if |locations| == 0 {
      DerivedIsResolution(config, None, {}, "", topic);
      return Ok(ResolvedActive(None, None, None));
    }
    var l :| l in locations;
    OnlyElement(locations, l);
    if l !in found {
      DerivedIsResolution(config, Some(l), {}, "", topic);
      return Ok(ResolvedActive(Some(l), None, None));
    }
    r := DeriveIn(config, l, found[l], topic);
  }
}
