/** Authentication (app/api/auth_router.py): minting access tokens, the
    credential scan over the learner store, the login endpoint and the
    session guard. The JWT codec (HS256 under the module's SECRET_KEY) and
    the password verifier are parameters: their code is not part of this
    model, and what the proofs assume of the codec is stated by
    `AcceptsLoginTokens` and `RejectsExpired`. */
module AuthRouter {
  import opened Outcomes
  import opened Domain
  import opened Stores
  import LearnerRouter

  const AccessTokenExpireMinutes := 30
  const SecondsPerMinute := 60

  /** A claim value: a string, or a timestamp in whole seconds. */
  datatype ClaimValue = Str(s: string) | Time(t: int)

  type Claims = map<string, ClaimValue>

  /** `jwt.encode` and `jwt.decode` with the fixed key and algorithm;
      `decode` takes the current time because it checks `exp`. */
  datatype Codec = Codec(encode: Claims -> string, decode: (string, int) -> Option<Claims>)

  /** The expiry check of the decoder: a numeric `exp` that lies before
      the current second. (The decoder also applies `int()` to a non-numeric
      `exp`; minted tokens always carry a numeric one.) */
  predicate Expired(claims: Claims, now: int)
  {
    "exp" in claims && claims["exp"].Time? && claims["exp"].t < now
  }

  /** The claim set `login_for_access_token` has signed: a string subject
      and the expiry that `create_access_token` adds. */
  function LoginClaims(sub: string, exp: int): (c: Claims)
  {
    map["sub" := Str(sub), "exp" := Time(exp)]
  }

  /** First assumption about the codec: a token minted over a login claim set
      decodes back to exactly that claim set up to and including its `exp`
      second, and fails afterwards. Strings the codec did not mint (tampered
      or foreign tokens) and other claim sets are left unconstrained. */
  ghost predicate AcceptsLoginTokens(codec: Codec)
  {
    forall sub: string, exp: int, now: int ::
      codec.decode(codec.encode(LoginClaims(sub, exp)), now) == if now <= exp then Some(LoginClaims(sub, exp)) else None
  }

  /** Second assumption about the codec: no minted token whose numeric `exp`
      has passed decodes, whatever its other claims. */
  ghost predicate RejectsExpired(codec: Codec)
  {
    forall claims: Claims, now: int :: Expired(claims, now) ==> codec.decode(codec.encode(claims), now) == None
  }

  /** `expires_delta or timedelta(minutes=ACCESS_TOKEN_EXPIRE_MINUTES)`, in
      seconds. A zero timedelta is falsy, so it falls back to the default. */
  function ExpiresIn(expiresDelta: Option<int>): (d: int)
    ensures d != 0
    ensures expiresDelta.Some? && expiresDelta.value != 0 ==> d == expiresDelta.value
    ensures expiresDelta.None? || expiresDelta.value == 0 ==> d == AccessTokenExpireMinutes * SecondsPerMinute
    ensures d > 0 <==> expiresDelta.None? || expiresDelta.value >= 0
  {
    if expiresDelta.Some? && expiresDelta.value != 0 then expiresDelta.value
    else AccessTokenExpireMinutes * SecondsPerMinute
  }

  /** The claim set `create_access_token` signs: a copy of the caller's
      claims with `exp` set (the caller's map is a value and stays as it was). */
  function ToEncode(data: Claims, now: int, expiresDelta: Option<int>): (c: Claims)
    ensures c.Keys == data.Keys + {"exp"}
    ensures forall k :: k in data && k != "exp" ==> c[k] == data[k]
    ensures c["exp"] == Time(now + ExpiresIn(expiresDelta))
    ensures Expired(c, now) <==> expiresDelta.Some? && expiresDelta.value < 0
  {
    data["exp" := Time(now + ExpiresIn(expiresDelta))]
  }

  /** `create_access_token`: the codec's signature over `ToEncode`. A token
      over a lone string `sub` decodes back to its claims when it is minted,
      unless its delta is negative; one minted with a negative delta is
      rejected from the start. */
  function CreateAccessToken(codec: Codec, data: Claims, now: int, expiresDelta: Option<int>): (token: string)
    ensures AcceptsLoginTokens(codec) && data.Keys == {"sub"} && data["sub"].Str? ==>
      codec.decode(token, now) == if ExpiresIn(expiresDelta) >= 0 then Some(ToEncode(data, now, expiresDelta)) else None
    ensures RejectsExpired(codec) && expiresDelta.Some? && expiresDelta.value < 0 ==>
      codec.decode(token, now) == None
  {
    var c := ToEncode(data, now, expiresDelta);
    assert data.Keys == {"sub"} && data["sub"].Str? ==> c == LoginClaims(data["sub"].s, now + ExpiresIn(expiresDelta));
    codec.encode(c)
  }

  /** A token minted over a subject decodes to the subject plus `exp`
      until it expires, and not at all afterwards. */
  lemma AccessTokenLifetime(codec: Codec, sub: string, now: int, expiresDelta: Option<int>, later: int)
    requires AcceptsLoginTokens(codec)
    ensures ToEncode(map["sub" := Str(sub)], now, expiresDelta) == LoginClaims(sub, now + ExpiresIn(expiresDelta))
    ensures later <= now + ExpiresIn(expiresDelta) ==>
      codec.decode(CreateAccessToken(codec, map["sub" := Str(sub)], now, expiresDelta), later)
        == Some(LoginClaims(sub, now + ExpiresIn(expiresDelta)))
    ensures later > now + ExpiresIn(expiresDelta) ==>
      codec.decode(CreateAccessToken(codec, map["sub" := Str(sub)], now, expiresDelta), later) == None
  {
    var c := LoginClaims(sub, now + ExpiresIn(expiresDelta));
    assert ToEncode(map["sub" := Str(sub)], now, expiresDelta) == c;
    assert codec.decode(codec.encode(c), later) == if later <= now + ExpiresIn(expiresDelta) then Some(c) else None;
  }

  /** The credential test of `authenticate_learner`: the email is equal and
      the password checks out against the stored hash. */
  predicate Matches(learner: Learner, email: string, password: string, verify: (string, string) -> bool)
  {
    learner.email == email && verify(password, learner.passwordHash)
  }

  /** The first learner, in store order, whose credentials match. */
  function FirstMatch(learners: seq<Learner>, email: string, password: string, verify: (string, string) -> bool): (found: Option<Learner>)
  {
    if learners == [] then None
    else if Matches(learners[0], email, password, verify) then Some(learners[0])
    else FirstMatch(learners[1..], email, password, verify)
  }

  lemma {:induction false} FirstMatchIsFirst(learners: seq<Learner>, email: string, password: string, verify: (string, string) -> bool)
    ensures FirstMatch(learners, email, password, verify).Some? ==>
      exists i :: 0 <= i < |learners| && learners[i] == FirstMatch(learners, email, password, verify).value
        && Matches(learners[i], email, password, verify)
        && forall j :: 0 <= j < i ==> !Matches(learners[j], email, password, verify)
  {
    if learners != [] && !Matches(learners[0], email, password, verify) {
      var tail := learners[1..];
      FirstMatchIsFirst(tail, email, password, verify);
      if FirstMatch(tail, email, password, verify).Some? {
        var i :| 0 <= i < |tail| && tail[i] == FirstMatch(tail, email, password, verify).value
          && Matches(tail[i], email, password, verify)
          && forall j :: 0 <= j < i ==> !Matches(tail[j], email, password, verify);
        assert learners[i + 1] == tail[i];
        forall j | 0 <= j < i + 1 ensures !Matches(learners[j], email, password, verify) {
          if j > 0 { assert learners[j] == tail[j - 1]; }
        }
      }
    }
  }

  lemma {:induction false} FirstMatchNone(learners: seq<Learner>, email: string, password: string, verify: (string, string) -> bool)
    ensures FirstMatch(learners, email, password, verify).None? <==>
      forall i :: 0 <= i < |learners| ==> !Matches(learners[i], email, password, verify)
  {
    if learners != [] {
      var tail := learners[1..];
      FirstMatchNone(tail, email, password, verify);
      assert forall i :: 0 < i < |learners| ==> learners[i] == tail[i - 1];
    }
  }

  /** `authenticate_learner`: scan the learner store in insertion order and
      return the first learner whose credentials match; reads only. */
  method AuthenticateLearner(learners: Store<Learner>, email: string, password: string, verify: (string, string) -> bool)
    returns (r: Option<Learner>)
    requires learners.Valid()
    ensures r == FirstMatch(learners.Values(), email, password, verify)
  {
    ghost var all := learners.Values();
    var i := 0;
    while i < |learners.order|
      invariant 0 <= i <= |learners.order|
      invariant FirstMatch(all, email, password, verify) == FirstMatch(all[i..], email, password, verify)
    {
      assert learners.order[i] in learners.order;
      var learner := learners.entries[learners.order[i]];
      assert all[i..][0] == learner && all[i..][1..] == all[i + 1..];
      if learner.email == email && verify(password, learner.passwordHash) {
        return Some(learner);
      }
      i := i + 1;
    }
    return None;
  }

  /** A learner the scan finds is stored under its own id. */
  lemma FirstMatchIsStored(learners: Store<Learner>, email: string, password: string, verify: (string, string) -> bool)
    requires learners.Valid() && KeyedBy(learners.entries, LearnerRouter.IdOf)
    ensures var m := FirstMatch(learners.Values(), email, password, verify);
      m.Some? ==> m.value.learnerId in learners.entries && learners.entries[m.value.learnerId] == m.value
  {
    var all := learners.Values();
    FirstMatchIsFirst(all, email, password, verify);
    if FirstMatch(all, email, password, verify).Some? {
      var i :| 0 <= i < |all| && all[i] == FirstMatch(all, email, password, verify).value;
      assert learners.order[i] in learners.order;
    }
  }

  /** The response of `POST /auth/token`. */
  datatype Token = Token(accessToken: string, tokenType: string)

  const IncorrectCredentials := HttpError(401, "Incorrect email or password")

  /** `login_for_access_token`: one 401 for every failed attempt, otherwise a
      bearer token whose subject is the learner's id, valid for the default
      lifetime from `now`. */
  method LoginForAccessToken(codec: Codec, learners: Store<Learner>, verify: (string, string) -> bool,
                             username: string, password: string, now: int)
    returns (r: Result<Token>)
    requires learners.Valid()
    ensures r.Err? <==> FirstMatch(learners.Values(), username, password, verify).None?
    ensures r.Err? ==> r.error == IncorrectCredentials
    ensures r.Ok? ==>
      && r.value.tokenType == "bearer"
      && r.value.accessToken == CreateAccessToken(codec,
           map["sub" := Str(FirstMatch(learners.Values(), username, password, verify).value.learnerId)], now, None)
  {
    var learner := AuthenticateLearner(learners, username, password, verify);
    if learner.None? {
      return Err(IncorrectCredentials);
    }
    var accessToken := CreateAccessToken(codec, map["sub" := Str(learner.value.learnerId)], now, None);
    r := Ok(Token(accessToken, "bearer"));
  }

  const CredentialsError := HttpError(401, "Could not validate credentials")

  /** The `sub` claim of a token that decodes. A non-string `sub` counts as
      absent: the learner dict's keys are strings, so it names no learner. */
  function Subject(codec: Codec, token: string, now: int): (sub: Option<string>)
  {
    match codec.decode(token, now)
    case None => None
    case Some(claims) => if "sub" in claims && claims["sub"].Str? then Some(claims["sub"].s) else None
  }

  /** `get_current_learner`: a function of the token and the current store,
      so it cannot change the store. */
  function GetCurrentLearner(codec: Codec, learners: Store<Learner>, token: string, now: int): (r: Result<Learner>)
    reads learners
    ensures r.Err? ==> r.error == CredentialsError
    ensures r.Ok? <==> Subject(codec, token, now).Some? && Subject(codec, token, now).value in learners.entries
    ensures r.Ok? ==> r.value == learners.entries[Subject(codec, token, now).value]
  {
    match Subject(codec, token, now)
    case None => Err(CredentialsError)
    case Some(sub) => if sub in learners.entries then Ok(learners.entries[sub]) else Err(CredentialsError)
  }

  /** A freshly issued login token resolves to the learner it names for as
      long as it is unexpired and the learner is still stored. */
  lemma IssuedTokenResolves(codec: Codec, learners: Store<Learner>, learner: Learner, now: int, later: int)
    requires AcceptsLoginTokens(codec)
    requires learner.learnerId in learners.entries && learners.entries[learner.learnerId] == learner
    requires later <= now + AccessTokenExpireMinutes * SecondsPerMinute
    ensures GetCurrentLearner(codec, learners, CreateAccessToken(codec, map["sub" := Str(learner.learnerId)], now, None), later)
      == Ok(learner)
  {
    AccessTokenLifetime(codec, learner.learnerId, now, None, later);
  }

  /** Once its `exp` has passed, no minted token gets through the guard,
      whatever claims the caller put in it. */
  lemma ExpiredTokenRejected(codec: Codec, learners: Store<Learner>, data: Claims, now: int, expiresDelta: Option<int>, later: int)
    requires RejectsExpired(codec)
    requires later > now + ExpiresIn(expiresDelta)
    ensures GetCurrentLearner(codec, learners, CreateAccessToken(codec, data, now, expiresDelta), later) == Err(CredentialsError)
  {
    var c := ToEncode(data, now, expiresDelta);
    assert Expired(c, later);
    assert codec.decode(codec.encode(c), later) == None;
  }

  /** Login followed by the guard on the issued token: the guard yields the
      learner who logged in, and nothing changes the store. */
  method LoginThenGuard(codec: Codec, learners: Store<Learner>, verify: (string, string) -> bool,
                        username: string, password: string, now: int, later: int)
    returns (r: Result<Learner>)
    requires learners.Valid() && KeyedBy(learners.entries, LearnerRouter.IdOf)
    requires AcceptsLoginTokens(codec)
    requires later <= now + AccessTokenExpireMinutes * SecondsPerMinute
    ensures r.Ok? <==> FirstMatch(learners.Values(), username, password, verify).Some?
    ensures r.Ok? ==> r.value == FirstMatch(learners.Values(), username, password, verify).value && Matches(r.value, username, password, verify)
    ensures r.Err? ==> r.error == IncorrectCredentials
  {
    var login := LoginForAccessToken(codec, learners, verify, username, password, now);
    if login.Err? {
      return Err(login.error);
    }
    ghost var learner := FirstMatch(learners.Values(), username, password, verify).value;
    FirstMatchIsStored(learners, username, password, verify);
    FirstMatchIsFirst(learners.Values(), username, password, verify);
    IssuedTokenResolves(codec, learners, learner, now, later);
    r := GetCurrentLearner(codec, learners, login.value.accessToken, later);
  }
}
