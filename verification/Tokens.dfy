/**
 * Refresh-token rotation with reuse detection (backend/app/services/auth.py:37-101 and
 * backend/app/api/auth.py:26-76). Each request is one transaction.
 */
module Tokens {
  import opened Prelude

  /** A row of `refresh_tokens`; rows are never removed, and a row's id is its place in the table. */
  datatype Token = Token(user: int, hash: string, expiresAt: int, revokedAt: Option<int>, replacedBy: Option<nat>)

  datatype AuthError = InvalidRefreshToken | RefreshTokenReused | RefreshTokenExpired | AccountInactive

  datatype Lifetimes = Lifetimes(refresh: int, access: int)

  /** The claims of an access token; how they are signed is not modelled. */
  datatype AccessToken = AccessToken(subject: int, expiresAt: int)

  /** What a client receives; `refresh` is the row its refresh token stands for. */
  datatype TokenPair = TokenPair(access: AccessToken, refresh: nat, expiresIn: int)

  function PairFor(user: int, refresh: nat, now: int, ttl: Lifetimes): TokenPair {
    TokenPair(AccessToken(user, now + ttl.access), refresh, ttl.access)
  }

  function Find(tokens: seq<Token>, hash: string): (r: Option<nat>)
    ensures r.Some? ==> r.value < |tokens| && tokens[r.value].hash == hash
    ensures r.None? ==> forall t :: t in tokens ==> t.hash != hash
  {
    if tokens == [] then None
    else if tokens[|tokens| - 1].hash == hash then Some(|tokens| - 1)
    else Find(tokens[..|tokens| - 1], hash)
  }

  predicate Unseen(tokens: seq<Token>, hash: string) {
    forall t :: t in tokens ==> t.hash != hash
  }

  function Issued(tokens: seq<Token>, user: int, hash: string, now: int, ttl: Lifetimes): seq<Token> {
    tokens + [Token(user, hash, now + ttl.refresh, None, None)]
  }

  function Revoked(t: Token, now: int): Token {
    if t.revokedAt.None? then t.(revokedAt := Some(now)) else t
  }

  /** The bulk update: every token of the user that is not revoked yet. */
  function AllRevoked(tokens: seq<Token>, user: int, now: int): seq<Token> {
    seq(|tokens|, i requires 0 <= i < |tokens| => if tokens[i].user == user then Revoked(tokens[i], now) else tokens[i])
  }

  function Replaced(tokens: seq<Token>, i: nat, newHash: string, now: int, ttl: Lifetimes): seq<Token>
    requires i < |tokens|
  {
    tokens[i := tokens[i].(revokedAt := Some(now), replacedBy := Some(|tokens|))]
    + [Token(tokens[i].user, newHash, now + ttl.refresh, None, None)]
  }

  /** What `rotate_refresh_token` leaves in the session, and what it returns. */
  function Rotated(tokens: seq<Token>, hash: string, active: set<int>, now: int, ttl: Lifetimes, newHash: string)
    : (seq<Token>, Result<TokenPair, AuthError>)
  {
    match Find(tokens, hash)
    case None => (tokens, Err(InvalidRefreshToken))
    case Some(i) =>
      var t := tokens[i];
      if t.revokedAt.Some? then (AllRevoked(tokens, t.user, now), Err(RefreshTokenReused))
      else if t.expiresAt <= now then (tokens[i := t.(revokedAt := Some(now))], Err(RefreshTokenExpired))
      else if t.user !in active then (tokens, Err(AccountInactive))
      else
        (Replaced(tokens, i, newHash, now, ttl), Ok(PairFor(t.user, |tokens|, now, ttl)))
  }

  function LoggedOut(tokens: seq<Token>, hash: string, now: int): seq<Token> {
    match Find(tokens, hash)
    case None => tokens
    case Some(i) => tokens[i := Revoked(tokens[i], now)]
  }

  class Session {
    var committed: seq<Token>
    var working: seq<Token>

    constructor ()
      ensures committed == working == []
    {
      committed, working := [], [];
    }

    method Commit()
      modifies this
      ensures committed == working == old(working)
    {
      committed := working;
    }

    method Rollback()
      modifies this
      ensures committed == working == old(committed)
    {
      working := committed;
    }

    /** `issue_tokens`, then the commit of registration and login. */
    method Login(user: int, hash: string, now: int, ttl: Lifetimes) returns (pair: TokenPair)
      requires working == committed && Unseen(committed, hash)
      modifies this
      ensures committed == working == Issued(old(committed), user, hash, now, ttl)
      ensures pair == PairFor(user, |old(committed)|, now, ttl)
    {
      pair := TokenPair(AccessToken(user, now + ttl.access), |working|, ttl.access);
      working := working + [Token(user, hash, now + ttl.refresh, None, None)];
      Commit();
    }

    method RevokeAll(user: int, now: int)
      modifies this`working
      ensures working == AllRevoked(old(working), user, now)
    {
      var i := 0;
      while i < |working|
        invariant 0 <= i <= |working| == |old(working)|
        invariant forall j :: 0 <= j < i ==> working[j] == AllRevoked(old(working), user, now)[j]
        invariant forall j :: i <= j < |working| ==> working[j] == old(working)[j]
      {
        if working[i].user == user && working[i].revokedAt.None? {
          working := working[i := working[i].(revokedAt := Some(now))];
        }
        i := i + 1;
      }
    }

    /** `rotate_refresh_token`; raising leaves whatever was already done in the session. */
    method RotateRefreshToken(hash: string, active: set<int>, now: int, ttl: Lifetimes, newHash: string)
      returns (r: Result<TokenPair, AuthError>)
      modifies this`working
      ensures (working, r) == Rotated(old(working), hash, active, now, ttl, newHash)
    {
      var found := Find(working, hash);
      if found.None? {
        return Err(InvalidRefreshToken);
      }
      var id := found.value;
      var token := working[id];
      if token.revokedAt.Some? {
        RevokeAll(token.user, now);
        return Err(RefreshTokenReused);
      }
      if token.expiresAt <= now {
        working := working[id := token.(revokedAt := Some(now))];
        return Err(RefreshTokenExpired);
      }
      if token.user !in active {
        return Err(AccountInactive);
      }
      var replacement := |working|;
      working := working + [Token(token.user, newHash, now + ttl.refresh, None, None)];
      working := working[id := working[id].(revokedAt := Some(now))];
      working := working[id := working[id].(replacedBy := Some(replacement))];
      assert working == Replaced(old(working), id, newHash, now, ttl);
      return Ok(TokenPair(AccessToken(token.user, now + ttl.access), replacement, ttl.access));
    }

    /** The refresh handler: what a detected reuse or an expiry wrote is committed although the request fails. */
    method Refresh(
      hash: string, active: set<int>, now: int, ttl: Lifetimes, newHash: string)
      returns (r: Result<TokenPair, AuthError>)
      requires working == committed
      modifies this
      ensures working == committed && (committed, r) == Rotated(old(committed), hash, active, now, ttl, newHash)
    {
      r := RotateRefreshToken(hash, active, now, ttl, newHash);
      if r.Err? {
        if r.error == RefreshTokenReused || r.error == RefreshTokenExpired {
          Commit();
        } else {
          Rollback();
        }
        return r;
      }
      Commit();
    }

    /** `revoke_refresh_token` and the commit of the logout handler. */
    method Logout(hash: string, now: int)
      requires working == committed
      modifies this
      ensures committed == working == LoggedOut(old(committed), hash, now)
    {
      var found := Find(working, hash);
      if found.Some? && working[found.value].revokedAt.None? {
        working := working[found.value := working[found.value].(revokedAt := Some(now))];
      }
      Commit();
    }
  }

  // ----- the state machine of committed requests -----

  datatype Step =
    | Login(user: int, hash: string, now: int)
    | Refresh(hash: string, active: set<int>, now: int, newHash: string)
    | Logout(hash: string, now: int)

  function After(ttl: Lifetimes, tokens: seq<Token>, step: Step): seq<Token> {
    match step
    case Login(user, hash, now) => Issued(tokens, user, hash, now, ttl)
    case Refresh(hash, active, now, newHash) => Rotated(tokens, hash, active, now, ttl, newHash).0
    case Logout(hash, now) => LoggedOut(tokens, hash, now)
  }

  /** Random secrets have not been seen before. */
  predicate Allowed(tokens: seq<Token>, step: Step) {
    match step
    case Login(_, hash, _) => Unseen(tokens, hash)
    case Refresh(_, _, _, newHash) => Unseen(tokens, newHash)
    case Logout(_, _) => true
  }

  ghost predicate Replaces(tokens: seq<Token>, i: nat, j: nat) {
    i < |tokens| && tokens[i].replacedBy == Some(j)
  }

  ghost predicate LinkOk(tokens: seq<Token>, i: nat, j: nat) {
    && i < j < |tokens| && i < |tokens| && tokens[i].revokedAt.Some? && tokens[i].user == tokens[j].user
  }

  ghost predicate Inv(tokens: seq<Token>) {
    && (forall i, j :: 0 <= i < j < |tokens| ==> tokens[i].hash != tokens[j].hash)
    && (forall i: nat, j: nat :: Replaces(tokens, i, j) ==> LinkOk(tokens, i, j))
    && forall i: nat, k: nat, j: nat :: Replaces(tokens, i, j) && Replaces(tokens, k, j) ==> i == k
  }

  /** Rows keep their owner, secret, expiry and link, and once revoked they keep the instant as well. */
  ghost predicate Kept(before: Token, after: Token) {
    && after.user == before.user && after.hash == before.hash && after.expiresAt == before.expiresAt
    && (before.revokedAt.Some? ==> after.revokedAt == before.revokedAt && after.replacedBy == before.replacedBy)
  }

  ghost predicate Grows(before: seq<Token>, after: seq<Token>) {
    |before| <= |after| && forall i :: 0 <= i < |before| ==> Kept(before[i], after[i])
  }

  /** The same rows, some of them revoked on the way. */
  ghost predicate OnlyRevokes(before: seq<Token>, after: seq<Token>) {
    |after| == |before| && forall i :: 0 <= i < |before| ==>
      Kept(before[i], after[i]) && after[i].replacedBy == before[i].replacedBy
  }

  lemma {:induction false} RevokingKeepsInv(before: seq<Token>, after: seq<Token>)
    requires Inv(before) && OnlyRevokes(before, after)
    ensures Inv(after) && Grows(before, after)
  {
    forall i: nat, j: nat | Replaces(after, i, j) ensures Replaces(before, i, j) && LinkOk(after, i, j) {
      assert Replaces(before, i, j);
    }
  }

  lemma {:induction false} IssueKeepsInv(tokens: seq<Token>, user: int, hash: string, now: int, ttl: Lifetimes)
    requires Inv(tokens) && Unseen(tokens, hash)
    ensures Inv(Issued(tokens, user, hash, now, ttl)) && Grows(tokens, Issued(tokens, user, hash, now, ttl))
  {
    var after := Issued(tokens, user, hash, now, ttl);
    forall i: nat, j: nat | Replaces(after, i, j) ensures Replaces(tokens, i, j) && LinkOk(after, i, j) {
      assert Replaces(tokens, i, j);
    }
  }

  lemma {:induction false} RotationKeepsInv(tokens: seq<Token>, i: nat, newHash: string, now: int, ttl: Lifetimes)
    requires Inv(tokens) && Unseen(tokens, newHash) && i < |tokens| && tokens[i].revokedAt.None?
    ensures Inv(Replaced(tokens, i, newHash, now, ttl)) && Grows(tokens, Replaced(tokens, i, newHash, now, ttl))
  {
    var after := Replaced(tokens, i, newHash, now, ttl);
    forall k: nat, j: nat | Replaces(after, k, j) ensures LinkOk(after, k, j) {
      if k != i {
        assert Replaces(tokens, k, j);
      }
    }
    forall k: nat, l: nat, j: nat | Replaces(after, k, j) && Replaces(after, l, j) ensures k == l {
      if k != i {
        assert Replaces(tokens, k, j);
      }
      if l != i {
        assert Replaces(tokens, l, j);
      }
    }
  }

  lemma {:induction false} StepKeepsInv(ttl: Lifetimes, tokens: seq<Token>, step: Step)
    requires Inv(tokens) && Allowed(tokens, step)
    ensures Inv(After(ttl, tokens, step)) && Grows(tokens, After(ttl, tokens, step))
  {
    hide Inv, Grows, Unseen, Find, Replaced;
    match step {
      case Login(user, hash, now) => IssueKeepsInv(tokens, user, hash, now, ttl);
      case Refresh(hash, active, now, newHash) =>
        var found := Find(tokens, hash);
        if found.Some? && Rotated(tokens, hash, active, now, ttl, newHash).1.Ok? {
          RotationKeepsInv(tokens, found.value, newHash, now, ttl);
        } else {
          RevokingKeepsInv(tokens, After(ttl, tokens, step));
        }
      case Logout(hash, now) => RevokingKeepsInv(tokens, After(ttl, tokens, step));
    }
  }

  // ----- chains -----

  /** j is reached from i by following replacements, which lead to later rows. */
  ghost predicate Reaches(tokens: seq<Token>, i: nat, j: nat)
    decreases |tokens| - i
  {
    && i < |tokens|
    && (i == j || (tokens[i].replacedBy.Some? && i < tokens[i].replacedBy.value
      && Reaches(tokens, tokens[i].replacedBy.value, j)))
  }

  /** Links lead to later tokens of the same user, so no chain closes; only its last token can be unrevoked. */
  lemma {:induction false} ChainsLeadForward(tokens: seq<Token>, i: nat, j: nat)
    requires Inv(tokens) && Reaches(tokens, i, j)
    ensures i <= j < |tokens| && tokens[i].user == tokens[j].user
    ensures i != j ==> tokens[i].revokedAt.Some?
    decreases |tokens| - i
  {
    if i != j {
      assert Replaces(tokens, i, tokens[i].replacedBy.value);
      ChainsLeadForward(tokens, tokens[i].replacedBy.value, j);
    }
  }

  lemma {:induction false} LastLink(tokens: seq<Token>, i: nat, j: nat) returns (k: nat)
    requires Inv(tokens) && Reaches(tokens, i, j) && i != j
    ensures Reaches(tokens, i, k) && Replaces(tokens, k, j) && k < j
    decreases |tokens| - i
  {
    assert Replaces(tokens, i, tokens[i].replacedBy.value);
    var next := tokens[i].replacedBy.value;
    if next == j {
      k := i;
    } else {
      k := LastLink(tokens, next, j);
    }
  }

  /** Two chains that share a token are one chain. */
  lemma {:induction false} ChainsDoNotMeet(tokens: seq<Token>, i: nat, k: nat, j: nat)
    requires Inv(tokens) && Reaches(tokens, i, j) && Reaches(tokens, k, j)
    ensures Reaches(tokens, i, k) || Reaches(tokens, k, i)
    decreases j
  {
    if i != j && k != j {
      var a := LastLink(tokens, i, j);
      var b := LastLink(tokens, k, j);
      assert a == b;
      ChainsDoNotMeet(tokens, i, k, a);
    }
  }

  ghost predicate OneChain(tokens: seq<Token>, i: nat, j: nat) {
    Reaches(tokens, i, j) || Reaches(tokens, j, i)
  }

  /** A chain has at most one unrevoked token, and that one has not been replaced. */
  lemma {:induction false} OneUnrevokedPerChain(tokens: seq<Token>, i: nat, j: nat)
    requires Inv(tokens) && OneChain(tokens, i, j) && i < |tokens| && j < |tokens|
    requires tokens[i].revokedAt.None? && tokens[j].revokedAt.None?
    ensures i == j && tokens[i].replacedBy.None?
  {
    if tokens[i].replacedBy.Some? {
      assert Replaces(tokens, i, tokens[i].replacedBy.value);
    }
    if Reaches(tokens, i, j) {
      ChainsLeadForward(tokens, i, j);
    } else {
      ChainsLeadForward(tokens, j, i);
    }
  }

  // ----- how many tokens a user has -----

  /** The user's unrevoked tokens. */
  function Unrevoked(tokens: seq<Token>, user: int): set<nat> {
    set i: nat | i < |tokens| && tokens[i].user == user && tokens[i].revokedAt.None?
  }

  lemma {:induction false} FindUnique(tokens: seq<Token>, i: nat)
    requires Inv(tokens) && i < |tokens|
    ensures Find(tokens, tokens[i].hash) == Some(i)
  {
  }

  lemma {:induction false} SwapKeepsSize(s: set<nat>, i: nat, j: nat)
    requires i in s && j !in s
    ensures |s - {i} + {j}| == |s|
  {
  }

  lemma {:induction false} RotationCounts(
    tokens: seq<Token>, i: nat, newHash: string, now: int, ttl: Lifetimes, user: int)
    requires i < |tokens| && tokens[i].revokedAt.None?
    ensures Unrevoked(Replaced(tokens, i, newHash, now, ttl), user)
         == if user == tokens[i].user then Unrevoked(tokens, user) - {i} + {|tokens|} else Unrevoked(tokens, user)
  {
    var after := Replaced(tokens, i, newHash, now, ttl);
    assert forall k: nat :: k < |after| ==>
      after[k] == if k == |tokens| then Token(tokens[i].user, newHash, now + ttl.refresh, None, None)
                  else if k == i then tokens[i].(revokedAt := Some(now), replacedBy := Some(|tokens|)) else tokens[k];
    hide Replaced;
    var left, right := Unrevoked(after, user),
      if user == tokens[i].user then Unrevoked(tokens, user) - {i} + {|tokens|} else Unrevoked(tokens, user);
    forall k: nat ensures k in left <==> k in right {
    }
  }

  lemma {:induction false} ReuseCounts(tokens: seq<Token>, owner: int, now: int, user: int)
    ensures Unrevoked(AllRevoked(tokens, owner, now), user) == if user == owner then {} else Unrevoked(tokens, user)
  {
  }

  lemma {:induction false} RevocationCounts(tokens: seq<Token>, i: nat, now: int, user: int)
    requires i < |tokens|
    ensures Unrevoked(tokens[i := Revoked(tokens[i], now)], user)
         == if user == tokens[i].user then Unrevoked(tokens, user) - {i} else Unrevoked(tokens, user)
  {
  }

  /** What a refresh answers and leaves for the user: the row it presents decides. */
  ghost predicate RefreshOutcome(
    tokens: seq<Token>, i: nat, active: set<int>, now: int, ttl: Lifetimes, after: seq<Token>,
    r: Result<TokenPair, AuthError>)
    requires i < |tokens|
  {
    var t := tokens[i];
    var mine := Unrevoked(tokens, t.user);
    && (r.Ok? <==> t.revokedAt.None? && now < t.expiresAt && t.user in active)
    && (r == Err(RefreshTokenReused) <==> t.revokedAt.Some?)
    && (r == Err(RefreshTokenExpired) <==> t.revokedAt.None? && t.expiresAt <= now)
    && (match r
        case Ok(pair) =>
          && pair == PairFor(t.user, pair.refresh, now, ttl) && pair.refresh !in mine
          && Unrevoked(after, t.user) == mine - {i} + {pair.refresh} && |Unrevoked(after, t.user)| == |mine|
        case Err(RefreshTokenReused) => Unrevoked(after, t.user) == {}
        case Err(RefreshTokenExpired) => Unrevoked(after, t.user) == mine - {i}
        case Err(_) => after == tokens)
    && forall user :: user != t.user ==> Unrevoked(after, user) == Unrevoked(tokens, user)
  }

  lemma {:induction false} ReuseOutcome(tokens: seq<Token>, i: nat, active: set<int>, now: int, ttl: Lifetimes)
    requires i < |tokens| && tokens[i].revokedAt.Some?
    ensures RefreshOutcome(tokens, i, active, now, ttl, AllRevoked(tokens, tokens[i].user, now),
      Err(RefreshTokenReused))
  {
    hide AllRevoked, Unrevoked;
    forall user {
      ReuseCounts(tokens, tokens[i].user, now, user);
    }
  }

  lemma {:induction false} ExpiryOutcome(tokens: seq<Token>, i: nat, active: set<int>, now: int, ttl: Lifetimes)
    requires i < |tokens| && tokens[i].revokedAt.None? && tokens[i].expiresAt <= now
    ensures RefreshOutcome(tokens, i, active, now, ttl, tokens[i := tokens[i].(revokedAt := Some(now))],
      Err(RefreshTokenExpired))
  {
    hide Unrevoked;
    forall user {
      RevocationCounts(tokens, i, now, user);
    }
  }

  lemma {:induction false} UnrevokedAre(tokens: seq<Token>, i: nat)
    requires i < |tokens|
    ensures tokens[i].revokedAt.None? ==> i in Unrevoked(tokens, tokens[i].user)
    ensures |tokens| !in Unrevoked(tokens, tokens[i].user)
  {
  }

  lemma {:induction false} RotationOutcome(
    tokens: seq<Token>, i: nat, active: set<int>, now: int, ttl: Lifetimes, newHash: string)
    requires i < |tokens| && tokens[i].revokedAt.None? && now < tokens[i].expiresAt && tokens[i].user in active
    ensures RefreshOutcome(tokens, i, active, now, ttl, Replaced(tokens, i, newHash, now, ttl),
      Ok(PairFor(tokens[i].user, |tokens|, now, ttl)))
  {
    UnrevokedAre(tokens, i);
    hide Replaced, Unrevoked;
    SwapKeepsSize(Unrevoked(tokens, tokens[i].user), i, |tokens|);
    forall user {
      RotationCounts(tokens, i, newHash, now, ttl, user);
    }
  }

  /**
   * A refresh succeeds if and only if the token it presents exists, is neither revoked nor expired
   * and its account is active. Success swaps one unrevoked token of the user for another, reuse
   * leaves the user none, expiry takes one away; other users keep theirs.
   */
  lemma {:induction false} RefreshCounts(
    tokens: seq<Token>, i: nat, active: set<int>, now: int, ttl: Lifetimes, newHash: string)
    requires Inv(tokens) && i < |tokens|
    ensures var (after, r) := Rotated(tokens, tokens[i].hash, active, now, ttl, newHash);
      RefreshOutcome(tokens, i, active, now, ttl, after, r)
  {
    FindUnique(tokens, i);
    hide Find, Inv, AllRevoked, Replaced, Unrevoked;
    var t := tokens[i];
    if t.revokedAt.Some? {
      ReuseOutcome(tokens, i, active, now, ttl);
    } else if t.expiresAt <= now {
      ExpiryOutcome(tokens, i, active, now, ttl);
    } else if t.user in active {
      RotationOutcome(tokens, i, active, now, ttl, newHash);
    }
  }

  lemma {:induction false} RefreshAddsNone(
    tokens: seq<Token>, i: nat, active: set<int>, now: int, ttl: Lifetimes, after: seq<Token>,
    r: Result<TokenPair, AuthError>, user: int)
    requires i < |tokens| && RefreshOutcome(tokens, i, active, now, ttl, after, r)
    ensures |Unrevoked(after, user)| <= |Unrevoked(tokens, user)|
  {
    hide Unrevoked;
    if user == tokens[i].user && r.Err? {
      Subset(Unrevoked(after, user), Unrevoked(tokens, user));
    }
  }

  lemma {:induction false} LoginCounts(
    tokens: seq<Token>, owner: int, hash: string, now: int, ttl: Lifetimes, user: int)
    ensures Unrevoked(Issued(tokens, owner, hash, now, ttl), user)
         == Unrevoked(tokens, user) + if owner == user then {|tokens|} else {}
  {
  }

  lemma {:induction false} LogoutCounts(tokens: seq<Token>, hash: string, now: int, user: int)
    ensures Unrevoked(LoggedOut(tokens, hash, now), user) <= Unrevoked(tokens, user)
  {
  }

  /** After a logout the presented token is revoked, and that is all: nothing at all for a secret nobody has. */
  lemma {:induction false} LogoutExactly(tokens: seq<Token>, hash: string, now: int)
    requires Inv(tokens)
    ensures Unseen(tokens, hash) ==> LoggedOut(tokens, hash, now) == tokens
    ensures forall i :: 0 <= i < |tokens| && tokens[i].hash == hash ==>
      && |LoggedOut(tokens, hash, now)| == |tokens|
      && LoggedOut(tokens, hash, now)[i]
         == tokens[i].(revokedAt := if tokens[i].revokedAt.Some? then tokens[i].revokedAt else Some(now))
      && Unrevoked(LoggedOut(tokens, hash, now), tokens[i].user) == Unrevoked(tokens, tokens[i].user) - {i}
      && forall j :: 0 <= j < |tokens| && j != i ==> LoggedOut(tokens, hash, now)[j] == tokens[j]
  {
    forall i: nat | i < |tokens| && tokens[i].hash == hash
      ensures Find(tokens, hash) == Some(i)
      ensures Unrevoked(LoggedOut(tokens, hash, now), tokens[i].user) == Unrevoked(tokens, tokens[i].user) - {i}
    {
      FindUnique(tokens, i);
      RevocationCounts(tokens, i, now, tokens[i].user);
    }
  }

  /** Only a login adds to the unrevoked tokens of a user. */
  lemma {:induction false} OnlyLoginAdds(ttl: Lifetimes, tokens: seq<Token>, step: Step, user: int)
    requires Inv(tokens) && Allowed(tokens, step)
    ensures |Unrevoked(After(ttl, tokens, step), user)|
         <= |Unrevoked(tokens, user)| + if step.Login? && step.user == user then 1 else 0
  {
    hide Unrevoked, Inv, RefreshOutcome, LoggedOut, Issued;
    var after := After(ttl, tokens, step);
    match step {
      case Login(u, hash, now) => LoginCounts(tokens, u, hash, now, ttl, user);
      case Refresh(hash, active, now, newHash) =>
        var found := Find(tokens, hash);
        if found.Some? {
          RefreshCounts(tokens, found.value, active, now, ttl, newHash);
          hide Rotated;
          var (_, r) := Rotated(tokens, hash, active, now, ttl, newHash);
          RefreshAddsNone(tokens, found.value, active, now, ttl, after, r, user);
        }
      case Logout(hash, now) =>
        LogoutCounts(tokens, hash, now, user);
        Subset(Unrevoked(after, user), Unrevoked(tokens, user));
    }
  }

  lemma {:induction false} Subset(a: set<nat>, b: set<nat>)
    requires a <= b
    ensures |a| <= |b|
  {
    assert b == a + (b - a);
  }

  // ----- every run -----

  ghost predicate IsRun(ttl: Lifetimes, tables: seq<seq<Token>>, steps: seq<Step>) {
    && |tables| == |steps| + 1 && tables[0] == []
    && forall i :: 0 <= i < |steps| ==> Allowed(tables[i], steps[i]) && tables[i + 1] == After(ttl, tables[i], steps[i])
  }

  /** Links form disjoint chains in every reachable table, and every row is kept from then on. */
  lemma {:induction false} RunKeepsInv(ttl: Lifetimes, tables: seq<seq<Token>>, steps: seq<Step>, i: nat, j: nat)
    requires IsRun(ttl, tables, steps) && i <= j < |tables|
    ensures Inv(tables[i]) && Inv(tables[j]) && Grows(tables[i], tables[j])
    decreases j
  {
    hide After, Allowed;
    if j > 0 {
      if i < j {
        RunKeepsInv(ttl, tables, steps, i, j - 1);
      } else {
        RunKeepsInv(ttl, tables, steps, j - 1, j - 1);
      }
      StepKeepsInv(ttl, tables[j - 1], steps[j - 1]);
    }
  }

  /**
   * Replay: a token that was rotated, or revoked in any other way, stays dead. Whoever presents it at
   * any later moment is told of the reuse, and that request commits with the user's tokens all revoked.
   */
  lemma {:induction false} ReplayIsDetected(
    ttl: Lifetimes, tables: seq<seq<Token>>, steps: seq<Step>, i: nat, j: nat, id: nat, active: set<int>, now: int,
    newHash: string)
    requires IsRun(ttl, tables, steps) && i <= j < |tables| && Unseen(tables[j], newHash)
    requires id < |tables[i]| && tables[i][id].revokedAt.Some?
    ensures var (after, r) := Rotated(tables[j], tables[i][id].hash, active, now, ttl, newHash);
      && id < |tables[j]| && tables[j][id].revokedAt == tables[i][id].revokedAt
      && r == Err(RefreshTokenReused) && Unrevoked(after, tables[i][id].user) == {}
  {
    RunKeepsInv(ttl, tables, steps, i, j);
    RefreshCounts(tables[j], id, active, now, ttl, newHash);
  }

  /** A login leaves a fresh token behind all others, which stay as they were. */
  lemma {:induction false} LoginInRun(ttl: Lifetimes, tables: seq<seq<Token>>, steps: seq<Step>, i: nat)
    requires IsRun(ttl, tables, steps) && i < |steps| && steps[i].Login?
    ensures |tables[i + 1]| == |tables[i]| + 1 && tables[i + 1][..|tables[i]|] == tables[i]
    ensures FreshFor(tables[i + 1][|tables[i]|], steps[i].user, steps[i].hash, steps[i].now, ttl)
  {
    assert tables[i + 1] == After(ttl, tables[i], steps[i]);
  }

  /** A refresh of a known secret leaves what RefreshOutcome says, and a fresh token if it succeeds. */
  lemma {:induction false} RefreshInRun(ttl: Lifetimes, tables: seq<seq<Token>>, steps: seq<Step>, i: nat, id: nat)
    requires IsRun(ttl, tables, steps) && i < |steps| && steps[i].Refresh?
    requires id < |tables[i]| && tables[i][id].hash == steps[i].hash
    ensures var r := Rotated(tables[i], steps[i].hash, steps[i].active, steps[i].now, ttl, steps[i].newHash).1;
      && RefreshOutcome(tables[i], id, steps[i].active, steps[i].now, ttl, tables[i + 1], r)
      && (r.Ok? ==>
            && r.value.refresh < |tables[i + 1]|
            && FreshFor(tables[i + 1][r.value.refresh], tables[i][id].user, steps[i].newHash, steps[i].now, ttl))
  {
    RunKeepsInv(ttl, tables, steps, i, i);
    RefreshCounts(tables[i], id, steps[i].active, steps[i].now, ttl, steps[i].newHash);
    IssuedTokensAreFresh(
      tables[i], tables[i][id].user, steps[i].hash, steps[i].active, steps[i].now, ttl, steps[i].newHash);
    assert tables[i + 1] == After(ttl, tables[i], steps[i]);
    hide Rotated, Unrevoked, Inv;
  }

  /** Once somebody has logged out with a secret, no later refresh of it succeeds: it is reported as reused. */
  lemma {:induction false} LogoutIsFinal(
    ttl: Lifetimes, tables: seq<seq<Token>>, steps: seq<Step>, i: nat, j: nat, active: set<int>, now: int,
    newHash: string)
    requires IsRun(ttl, tables, steps) && i < j < |tables| && steps[i].Logout? && !Unseen(tables[i], steps[i].hash)
    ensures Rotated(tables[j], steps[i].hash, active, now, ttl, newHash).1 == Err(RefreshTokenReused)
  {
    hide Rotated, Unrevoked;
    RunKeepsInv(ttl, tables, steps, i, i);
    LogoutExactly(tables[i], steps[i].hash, steps[i].now);
    var t :| t in tables[i] && t.hash == steps[i].hash;
    var id: nat :| id < |tables[i]| && tables[i][id] == t;
    assert tables[i + 1] == LoggedOut(tables[i], steps[i].hash, steps[i].now);
    hide LoggedOut;
    RunKeepsInv(ttl, tables, steps, i, i + 1);
    RunKeepsInv(ttl, tables, steps, i + 1, j);
    assert tables[i + 1][id].revokedAt.Some? && tables[i + 1][id].hash == steps[i].hash;
    assert tables[j][id].revokedAt.Some? && tables[j][id].hash == steps[i].hash;
    RefreshCounts(tables[j], id, active, now, ttl, newHash);
  }

  // ----- what a fresh token is good for -----

  /** A row as it is issued: for this owner and secret, good until its lifetime is over. */
  ghost predicate FreshFor(t: Token, user: int, hash: string, now: int, ttl: Lifetimes) {
    t.user == user && t.hash == hash && t.expiresAt == now + ttl.refresh && t.revokedAt == None && t.replacedBy == None
  }

  /**
   * An unrevoked token of an active account refreshes at every instant before its lifetime is over, and
   * at none after.
   */
  lemma {:induction false} FreshTokenWorks(
    tokens: seq<Token>, i: nat, user: int, hash: string, now: int, ttl: Lifetimes, active: set<int>, later: int,
    newHash: string)
    requires Inv(tokens) && i < |tokens| && FreshFor(tokens[i], user, hash, now, ttl) && user in active
    ensures var r := Rotated(tokens, hash, active, later, ttl, newHash).1;
      if later < now + ttl.refresh then
        && r.Ok? && r.value.access.subject == user
        && r.value.access.expiresAt == later + ttl.access && r.value.expiresIn == ttl.access
      else r == Err(RefreshTokenExpired)
  {
    hide Rotated, Unrevoked;
    RefreshCounts(tokens, i, active, later, ttl, newHash);
  }

  /** Login and rotation issue such a token, under the id they return. */
  lemma {:induction false} IssuedTokensAreFresh(
    tokens: seq<Token>, user: int, hash: string, active: set<int>, now: int, ttl: Lifetimes, newHash: string)
    requires Inv(tokens)
    ensures var after := Issued(tokens, user, newHash, now, ttl);
      |after| == |tokens| + 1 && FreshFor(after[|tokens|], user, newHash, now, ttl)
    ensures var (after, r) := Rotated(tokens, hash, active, now, ttl, newHash);
      r.Ok? ==>
        && r.value.refresh < |after| && r.value.refresh == |tokens|
        && FreshFor(after[r.value.refresh], r.value.access.subject, newHash, now, ttl)
        && exists i :: 0 <= i < |tokens| && tokens[i].hash == hash && tokens[i].user == r.value.access.subject
  {
    var (after, r) := Rotated(tokens, hash, active, now, ttl, newHash);
    if r.Ok? {
      var i := Find(tokens, hash).value;
      assert tokens[i].hash == hash && tokens[i].user == r.value.access.subject;
    }
  }

  /** After a detected reuse the user has no unrevoked token until the next login. */
  lemma {:induction false} NoTokenUntilLogin(
    ttl: Lifetimes, tables: seq<seq<Token>>, steps: seq<Step>, user: int, i: nat, j: nat)
    requires IsRun(ttl, tables, steps) && i <= j < |tables| && Unrevoked(tables[i], user) == {}
    requires forall k :: i <= k < j ==> !(steps[k].Login? && steps[k].user == user)
    ensures Unrevoked(tables[j], user) == {}
    decreases j
  {
    hide After, Unrevoked;
    if i < j {
      NoTokenUntilLogin(ttl, tables, steps, user, i, j - 1);
      RunKeepsInv(ttl, tables, steps, j - 1, j - 1);
      OnlyLoginAdds(ttl, tables[j - 1], steps[j - 1], user);
      assert |Unrevoked(tables[j], user)| == 0;
    }
  }

  function Logins(steps: seq<Step>, user: int): nat {
    if steps == [] then 0
    else
      var last := steps[|steps| - 1];
      Logins(steps[..|steps| - 1], user) + if last.Login? && last.user == user then 1 else 0
  }

  /** A user never has more unrevoked tokens than logins, whatever is rotated or replayed. */
  lemma {:induction false} NoMoreTokensThanLogins(
    ttl: Lifetimes, tables: seq<seq<Token>>, steps: seq<Step>, user: int, n: nat)
    requires IsRun(ttl, tables, steps) && n <= |steps|
    ensures |Unrevoked(tables[n], user)| <= Logins(steps[..n], user)
  {
    hide After, Unrevoked;
    if n > 0 {
      NoMoreTokensThanLogins(ttl, tables, steps, user, n - 1);
      RunKeepsInv(ttl, tables, steps, n - 1, n - 1);
      OnlyLoginAdds(ttl, tables[n - 1], steps[n - 1], user);
      assert steps[..n][..n - 1] == steps[..n - 1];
    } else {
      NoTokens(user);
    }
  }

  lemma {:induction false} NoTokens(user: int)
    ensures Unrevoked([], user) == {}
  {
  }
}
