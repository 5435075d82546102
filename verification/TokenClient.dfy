/** One process's token fetcher (`remote/client.ts`): the closure that adopts, presents and accepts tokens. */
module TokenClient {
  import opened Common
  import opened ConfigFile

  const CLERK_FRESHNESS_MARGIN_MS: int := 10_000

  /** What the closure keeps between calls. */
  datatype Memory = Memory(idToken: string, refreshToken: string, expiresAt: int)

  predicate IsFresh(expiresAt: int, now: int) {
    expiresAt - now > CLERK_FRESHNESS_MARGIN_MS
  }

  datatype Decision = Adopt(idToken: string) | GiveUp | Present(token: string)

  /** Does the disk hold a usable token set that is newer than memory? */
  predicate PeerIsNewer(m: Memory, onDisk: Option<Entry>, now: int) {
    && onDisk.Some?
    && TokenOf(onDisk.value, IdToken).GetOr("") != ""
    && ExpiryOf(onDisk.value).Some?
    && IsFresh(ExpiryOf(onDisk.value).value, now)
    && ExpiryOf(onDisk.value).value > m.expiresAt
  }

  /** What a fetcher that holds the lock does, and its memory before any exchange. */
  function Decide(m: Memory, onDisk: Option<Entry>, now: int): (Memory, Decision) {
    if PeerIsNewer(m, onDisk, now) then
      var id := TokenOf(onDisk.value, IdToken).GetOr("");
      var refresh := TokenOf(onDisk.value, RefreshToken).GetOr("");
      (Memory(id, if refresh != "" then refresh else m.refreshToken, ExpiryOf(onDisk.value).value), Adopt(id))
    else if m.refreshToken == "" then (m.(idToken := ""), GiveUp)
    else (m, Present(m.refreshToken))
  }

  /** The entry holds an ID token that is not empty, and an expiry that is neither near nor past and later than
      `known`. */
  predicate IsUsable(e: Entry, known: int, now: int) {
    && IdToken in e && e[IdToken].Str? && e[IdToken].s != ""
    && ExpiresAt in e && e[ExpiresAt].Num? && e[ExpiresAt].n > known
    && e[ExpiresAt].n > now + 10_000
  }

  /** Adopting takes the entry's ID token and expiry over, and hands that ID token back. */
  predicate TakesOver(m: Memory, m': Memory, e: Entry, idToken: string) {
    && IdToken in e && e[IdToken] == Str(idToken) && m'.idToken == idToken != ""
    && ExpiresAt in e && e[ExpiresAt] == Num(m'.expiresAt)
    && m'.refreshToken
       == if RefreshToken in e && e[RefreshToken].Str? && e[RefreshToken].s != "" then e[RefreshToken].s
          else m.refreshToken
  }

  /** What a resolution does: it adopts exactly when the file holds something usable and newer, and otherwise presents
      the own refresh token, or without one gives up and forgets the ID token. */
  predicate IsResolved(m: Memory, onDisk: Option<Entry>, now: int, m': Memory, d: Decision) {
    match d
    case Adopt(id) => onDisk.Some? && IsUsable(onDisk.value, m.expiresAt, now) && TakesOver(m, m', onDisk.value, id)
    case GiveUp => m.refreshToken == "" && m' == Memory("", "", m.expiresAt)
    case Present(token) => token == m.refreshToken != "" && m' == m
  }

  lemma DecideResolves(m: Memory, onDisk: Option<Entry>, now: int)
    ensures var (m', d) := Decide(m, onDisk, now);
            && IsResolved(m, onDisk, now, m', d)
            && (d.Adopt? <==> onDisk.Some? && IsUsable(onDisk.value, m.expiresAt, now))
            && (d.Adopt? ==> m'.idToken == d.idToken != "" && IsFresh(m'.expiresAt, now) && m'.expiresAt > m.expiresAt)
  {
  }

  datatype Call = Cached(idToken: string) | AwaitOther | Refresh

  class ClerkAuthFetcher {
    var currentIdToken: string
    var currentRefreshToken: string
    var currentExpiresAt: int
    var inFlight: bool

    function Abs(): Memory
      reads this
    {
      Memory(currentIdToken, currentRefreshToken, currentExpiresAt)
    }

    constructor (idToken: string, refreshToken: string, expiresAt: Option<int>)
      ensures Abs() == Memory(idToken, refreshToken, expiresAt.GetOr(0)) && !inFlight
    {
      currentIdToken, currentRefreshToken, currentExpiresAt, inFlight := idToken, refreshToken, expiresAt.GetOr(0),
          false;
    }

    /** The synchronous start of a call: a fresh token is returned at once, and at most one refresh is in flight. */
    method Begin(force: bool, now: int) returns (c: Call)
      modifies this`inFlight
      ensures c.Cached? <==> !force && currentIdToken != "" && IsFresh(currentExpiresAt, now)
      ensures c.Cached? ==> c.idToken == currentIdToken
      ensures c.Refresh? ==> !old(inFlight) && inFlight
      ensures !c.Refresh? ==> inFlight == old(inFlight)
      ensures c.AwaitOther? ==> old(inFlight)
      ensures c.Cached? <==> !force && currentIdToken != "" && currentExpiresAt > now + 10_000
    {
      var stillFresh := currentIdToken != "" && currentExpiresAt - now > CLERK_FRESHNESS_MARGIN_MS;
      if !force && stillFresh {
        return Cached(currentIdToken);
      }
      if inFlight {
        return AwaitOther;
      }
      inFlight := true;
      return Refresh;
    }

    /** Under the lock: adopt what a peer wrote, give up without a token, or present the own refresh token. */
    method Resolve(onDisk: Option<Entry>, now: int) returns (d: Decision)
      modifies this`currentIdToken, this`currentRefreshToken, this`currentExpiresAt
      ensures (Abs(), d) == Decide(old(Abs()), onDisk, now)
      ensures IsResolved(old(Abs()), onDisk, now, Abs(), d)
      ensures d.Adopt? <==> onDisk.Some? && IsUsable(onDisk.value, old(currentExpiresAt), now)
      ensures d.Adopt? ==> d.idToken == currentIdToken
    {
      if onDisk.Some? {
        var e := onDisk.value;
        if IdToken in e && e[IdToken].Str? && e[IdToken].s != ""
           && ExpiresAt in e && e[ExpiresAt].Num?
           && e[ExpiresAt].n - now > CLERK_FRESHNESS_MARGIN_MS
           && e[ExpiresAt].n > currentExpiresAt {
          currentIdToken := e[IdToken].s;
          currentExpiresAt := e[ExpiresAt].n;
          if RefreshToken in e && e[RefreshToken].Str? && e[RefreshToken].s != "" {
            currentRefreshToken := e[RefreshToken].s;
          }
          return Adopt(currentIdToken);
        }
      }
      if currentRefreshToken == "" {
        currentIdToken := "";
        return GiveUp;
      }
      return Present(currentRefreshToken);
    }

    /** The server answered with a new token set. */
    method Accept(next: LocationAuth) returns (idToken: string)
      modifies this`currentIdToken, this`currentRefreshToken, this`currentExpiresAt
      ensures Abs() == Memory(next.idToken, next.refreshToken, next.expiresAt)
      ensures idToken == next.idToken
    {
      currentIdToken := next.idToken;
      currentRefreshToken := next.refreshToken;
      currentExpiresAt := next.expiresAt;
      return next.idToken;
    }

    /** The exchange failed: only the ID token is forgotten. */
    method Reject() returns (idToken: Option<string>)
      modifies this`currentIdToken
      ensures currentIdToken == "" && Abs() == old(Abs()).(idToken := "")
      ensures idToken == None
    {
      currentIdToken := "";
      return None;
    }

    method Settle()
      modifies this`inFlight
      ensures !inFlight
    {
      inFlight := false;
    }
  }
}
