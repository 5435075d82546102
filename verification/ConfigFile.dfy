/** The user-level config file (`config/save.ts`): reading it, and saving one location's credentials into it. */
module ConfigFile {
  import opened Common

  /** A JSON value, as far as the credentials are concerned. */
  datatype Value = Str(s: string) | Num(n: int) | Else(tag: nat)

  /** The keys of a location: those this version knows, and any other. */
  datatype Key =
    | Url | AuthType | AccessToken | RefreshToken | IdToken | ExpiresAt | ClerkIssuer | ClerkClientId
    | UserEmail | UserId | UpdatedAt | OtherKey(name: string)

  /** One location's fields, known and unknown ones alike. */
  type Entry = map<Key, Value>

  datatype Config = Config(top: map<string, Value>, locations: map<string, Entry>)

  datatype FileState = Missing | Unreadable | Parsed(config: Config)

  datatype LocationAuth = LocationAuth(
    url: Option<string>, accessToken: string, refreshToken: string, idToken: string, expiresAt: int,
    clerkIssuer: Option<string>, clerkClientId: Option<string>, userEmail: Option<string>, userId: Option<string>,
    updatedAt: Option<int>)

  function Text(v: Option<string>): Option<Value> {
    if v.Some? then Some(Str(v.value)) else None
  }

  /** What a save supplies for a key; an optional field that is missing supplies nothing. */
  function Supplied(auth: LocationAuth, now: int, k: Key): Option<Value> {
    match k
    case Url => Text(auth.url)
    case AuthType => Some(Str("clerk"))
    case AccessToken => Some(Str(auth.accessToken))
    case RefreshToken => Some(Str(auth.refreshToken))
    case IdToken => Some(Str(auth.idToken))
    case ExpiresAt => Some(Num(auth.expiresAt))
    case ClerkIssuer => Text(auth.clerkIssuer)
    case ClerkClientId => Text(auth.clerkClientId)
    case UserEmail => Text(auth.userEmail)
    case UserId => Text(auth.userId)
    case UpdatedAt => Some(Num(auth.updatedAt.GetOr(now)))
    case OtherKey(_) => None
  }

  const AUTH_KEYS := {Url, AuthType, AccessToken, RefreshToken, IdToken, ExpiresAt, ClerkIssuer, ClerkClientId,
      UserEmail, UserId, UpdatedAt}

  /** Supplied fields win over the prior ones; all other prior fields stay. */
  function Merged(prior: Entry, auth: LocationAuth, now: int): Entry {
    map k | k in prior.Keys + AUTH_KEYS && (k in prior || Supplied(auth, now, k).Some?)
      :: Supplied(auth, now, k).GetOr(if k in prior then prior[k] else Else(0))
  }

  function Prior(c: Config, location: string): Entry {
    if location in c.locations then c.locations[location] else map[]
  }

  /** The config after saving `auth` for `location`. */
  function Saved(c: Config, location: string, auth: LocationAuth, now: int): Config {
    c.(locations := c.locations[location := Merged(Prior(c, location), auth, now)])
  }

  const EMPTY := Config(map[], map[])

  /** `...(v !== undefined ? { k: v } : {})` */
  function Spread(e: Entry, k: Key, v: Option<Value>): Entry {
    if v.Some? then e[k := v.value] else e
  }

  /** The object literal that replaces the location's entry, up to the expiry. */
  function TokenFields(prior: Entry, auth: LocationAuth): Entry {
    Spread(prior, Url, Text(auth.url))
      [AuthType := Str("clerk")]
      [AccessToken := Str(auth.accessToken)]
      [RefreshToken := Str(auth.refreshToken)]
      [IdToken := Str(auth.idToken)]
      [ExpiresAt := Num(auth.expiresAt)]
  }

  /** The rest of the object literal. */
  function PointerFields(entry: Entry, auth: LocationAuth, now: int): Entry {
    var e1 := Spread(entry, ClerkIssuer, Text(auth.clerkIssuer));
    var e2 := Spread(e1, ClerkClientId, Text(auth.clerkClientId));
    var e3 := Spread(e2, UserEmail, Text(auth.userEmail));
    var e4 := Spread(e3, UserId, Text(auth.userId));
    e4[UpdatedAt := Num(auth.updatedAt.GetOr(now))]
  }

  predicate TokenKey(k: Key) {
    k.Url? || k.AuthType? || k.AccessToken? || k.RefreshToken? || k.IdToken? || k.ExpiresAt?
  }

  lemma TokenFieldsAt(prior: Entry, auth: LocationAuth, now: int, k: Key)
    ensures k in TokenFields(prior, auth) <==> k in prior || (TokenKey(k) && Supplied(auth, now, k).Some?)
    ensures k in TokenFields(prior, auth) ==>
              TokenFields(prior, auth)[k]
              == if TokenKey(k) && Supplied(auth, now, k).Some? then Supplied(auth, now, k).value else prior[k]
  {
  }

  lemma PointerFieldsAt(e: Entry, auth: LocationAuth, now: int, k: Key)
    ensures k in PointerFields(e, auth, now) <==> k in e || (!TokenKey(k) && Supplied(auth, now, k).Some?)
    ensures k in PointerFields(e, auth, now) ==>
              PointerFields(e, auth, now)[k]
              == if !TokenKey(k) && Supplied(auth, now, k).Some? then Supplied(auth, now, k).value else e[k]
  {
    match k
    case ClerkIssuer =>
    case _ =>
  }

  lemma LiteralIsMerge(prior: Entry, auth: LocationAuth, now: int)
    ensures PointerFields(TokenFields(prior, auth), auth, now) == Merged(prior, auth, now)
  {
    var e, m := PointerFields(TokenFields(prior, auth), auth, now), Merged(prior, auth, now);
    forall k: Key ensures k in e <==> k in m
      ensures k in e ==> e[k] == m[k]
    {
      TokenFieldsAt(prior, auth, now, k);
      PointerFieldsAt(TokenFields(prior, auth), auth, now, k);
    }
  }

  function At(e: Entry, k: Key): Option<Value> {
    if k in e then Some(e[k]) else None
  }

  predicate IsText(e: Entry, k: Key, text: string) {
    k in e && e[k] == Str(text)
  }

  /** An optional field that was given, or the prior one. */
  predicate IsTextOr(e: Entry, k: Key, given: Option<string>, prior: Entry) {
    if given.Some? then IsText(e, k, given.value) else At(e, k) == At(prior, k)
  }

  /** Every field of the credentials is found under its own key; those that were left out, and all other keys, are as
      before. */
  predicate HoldsAuth(e: Entry, prior: Entry, auth: LocationAuth, now: int) {
    && IsText(e, AuthType, "clerk")
    && IsText(e, AccessToken, auth.accessToken)
    && IsText(e, RefreshToken, auth.refreshToken)
    && IsText(e, IdToken, auth.idToken)
    && At(e, ExpiresAt) == Some(Num(auth.expiresAt))
    && IsTextOr(e, Url, auth.url, prior)
    && IsTextOr(e, ClerkIssuer, auth.clerkIssuer, prior)
    && IsTextOr(e, ClerkClientId, auth.clerkClientId, prior)
    && IsTextOr(e, UserEmail, auth.userEmail, prior)
    && IsTextOr(e, UserId, auth.userId, prior)
    && At(e, UpdatedAt) == Some(Num(if auth.updatedAt.Some? then auth.updatedAt.value else now))
  }

  function TokenOf(e: Entry, k: Key): Option<string> {
    if k in e && e[k].Str? then Some(e[k].s) else None
  }

  function ExpiryOf(e: Entry): Option<int> {
    if ExpiresAt in e && e[ExpiresAt].Num? then Some(e[ExpiresAt].n) else None
  }

  /** What was saved is what is loaded, key by key; a key that was not supplied is loaded as it was before. */
  lemma SaveThenLoad(c: Config, location: string, auth: LocationAuth, now: int, k: Key)
    ensures var e := Saved(c, location, auth, now).locations[location];
            At(e, k) == if Supplied(auth, now, k).Some? then Supplied(auth, now, k) else At(Prior(c, location), k)
  {
  }

  lemma MandatoryReadBack(c: Config, location: string, auth: LocationAuth, now: int)
    ensures var e := Saved(c, location, auth, now).locations[location];
            && IsText(e, AuthType, "clerk") && IsText(e, AccessToken, auth.accessToken)
            && IsText(e, RefreshToken, auth.refreshToken) && IsText(e, IdToken, auth.idToken)
            && At(e, ExpiresAt) == Some(Num(auth.expiresAt))
            && At(e, UpdatedAt) == Some(Num(if auth.updatedAt.Some? then auth.updatedAt.value else now))
  {
    SaveThenLoad(c, location, auth, now, AuthType);
    SaveThenLoad(c, location, auth, now, AccessToken);
    SaveThenLoad(c, location, auth, now, RefreshToken);
    SaveThenLoad(c, location, auth, now, IdToken);
    SaveThenLoad(c, location, auth, now, ExpiresAt);
    SaveThenLoad(c, location, auth, now, UpdatedAt);
  }

  lemma OptionalReadsBack(c: Config, location: string, auth: LocationAuth, now: int, k: Key, given: Option<string>)
    requires Supplied(auth, now, k) == Text(given)
    ensures IsTextOr(Saved(c, location, auth, now).locations[location], k, given, Prior(c, location))
  {
    SaveThenLoad(c, location, auth, now, k);
  }

  lemma OthersReadBack(c: Config, location: string, auth: LocationAuth, now: int)
    ensures var e := Saved(c, location, auth, now).locations[location];
            forall name :: At(e, OtherKey(name)) == At(Prior(c, location), OtherKey(name))
  {
    var e := Saved(c, location, auth, now).locations[location];
    forall name ensures At(e, OtherKey(name)) == At(Prior(c, location), OtherKey(name)) {
      SaveThenLoad(c, location, auth, now, OtherKey(name));
    }
  }

  /** What was saved is read back under each key, among them the three fields the refresh path reads. */
  lemma TokensReadBack(c: Config, location: string, auth: LocationAuth, now: int)
    ensures location in Saved(c, location, auth, now).locations
    ensures var e := Saved(c, location, auth, now).locations[location];
            && HoldsAuth(e, Prior(c, location), auth, now)
            && (forall name :: At(e, OtherKey(name)) == At(Prior(c, location), OtherKey(name)))
            && TokenOf(e, RefreshToken) == Some(auth.refreshToken)
            && TokenOf(e, IdToken) == Some(auth.idToken)
            && ExpiryOf(e) == Some(auth.expiresAt)
  {
    MandatoryReadBack(c, location, auth, now);
    OptionalReadsBack(c, location, auth, now, Url, auth.url);
    OptionalReadsBack(c, location, auth, now, ClerkIssuer, auth.clerkIssuer);
    OptionalReadsBack(c, location, auth, now, ClerkClientId, auth.clerkClientId);
    OptionalReadsBack(c, location, auth, now, UserEmail, auth.userEmail);
    OptionalReadsBack(c, location, auth, now, UserId, auth.userId);
    OthersReadBack(c, location, auth, now);
  }

  class ConfigStore {
    var file: FileState

    constructor (file: FileState)
      ensures this.file == file
    {
      this.file := file;
    }

    /** An absent file is an empty config; a corrupt one is an error, never an empty baseline. */
    method ReadExisting() returns (r: Result<Config, string>)
      ensures r.Err? <==> file == Unreadable
      ensures r.Ok? ==> r.value == if file.Parsed? then file.config else EMPTY
    {
      match file
      case Missing => return Ok(EMPTY);
      case Unreadable => return Err("refusing to overwrite it - fix or remove the file and retry.");
      case Parsed(c) => return Ok(c);
    }

    /** The read-modify-write of a save, run by the holder of the lock. */
    method WriteLocationAuthInLock(location: string, auth: LocationAuth, now: int) returns (r: Result<(), string>)
      modifies this
      ensures old(file) == Unreadable ==> r.Err? && file == Unreadable
      ensures old(file) != Unreadable ==>
                r.Ok? && file
                    == Parsed(Saved(if old(file).Parsed? then old(file).config else EMPTY, location, auth, now))
      ensures r.Ok? ==>
                && file.Parsed? && location in file.config.locations
                && HoldsAuth(file.config.locations[location],
                    if old(file).Parsed? then Prior(old(file).config, location) else map[], auth, now)
    {
      var existing := ReadExisting();
      if existing.Err? {
        return Err(existing.error);
      }
      var next := existing.value;
      var entry := if location in next.locations then next.locations[location] else map[];
      LiteralIsMerge(entry, auth, now);
      entry := PointerFields(TokenFields(entry, auth), auth, now);
      next := next.(locations := next.locations[location := entry]);
      file := Parsed(next);
      TokensReadBack(existing.value, location, auth, now);
      return Ok(());
    }

    /** `loadPersistedLocationAuth`: absent or unreadable reads as nothing. */
    method Load(location: string) returns (entry: Option<Entry>)
      ensures entry.Some? <==> file.Parsed? && location in file.config.locations
      ensures entry.Some? ==> entry.value == file.config.locations[location]
    {
      var existing := ReadExisting();
      if existing.Err? || location !in existing.value.locations {
        return None;
      }
      return Some(existing.value.locations[location]);
    }
  }

  /** A save keeps every other location, every top-level field, and of its own location every field it does not supply:
      unknown fields, and optional ones that were left out. */
  lemma SaveIsContained(c: Config, location: string, auth: LocationAuth, now: int)
    ensures var c' := Saved(c, location, auth, now);
            && c'.top == c.top
            && c'.locations.Keys == c.locations.Keys + {location}
            && (forall l | l in c.locations && l != location :: c'.locations[l] == c.locations[l])
            && (forall k | k in Prior(c, location) && Supplied(auth, now, k).None? ::
                  k in c'.locations[location] && c'.locations[location][k] == Prior(c, location)[k])
            && (forall k | k in c'.locations[location] && k !in Prior(c, location) :: k in AUTH_KEYS)
  {
  }

  lemma SwapUpdates<K, V>(m: map<K, V>, k1: K, v1: V, k2: K, v2: V)
    requires k1 != k2
    ensures m[k1 := v1][k2 := v2] == m[k2 := v2][k1 := v1]
  {
  }

  /** Saves for different locations do not disturb each other, in whichever order they come. */
  lemma SavesCommute(c: Config, l1: string, a1: LocationAuth, n1: int, l2: string, a2: LocationAuth, n2: int)
    requires l1 != l2
    ensures Saved(Saved(c, l1, a1, n1), l2, a2, n2) == Saved(Saved(c, l2, a2, n2), l1, a1, n1)
  {
    assert Prior(Saved(c, l1, a1, n1), l2) == Prior(c, l2) && Prior(Saved(c, l2, a2, n2), l1) == Prior(c, l1);
    SwapUpdates(c.locations, l1, Merged(Prior(c, l1), a1, n1), l2, Merged(Prior(c, l2), a2, n2));
  }
}
