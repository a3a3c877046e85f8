/** `authenticate_learner` exactly as app/api/auth_router.py:49-52 has it.
    The test reads `learner.password`, but a Learner has only
    `password_hash`, so the read raises AttributeError. Because `and`
    short-circuits, the read happens only for a learner whose email is equal
    to the one given. */
module AuthAsWritten {
  import opened Outcomes
  import opened Domain
  import AuthRouter

  /** How the scan as written ends: it returns, or it raises AttributeError. */
  datatype ScanEnd = Returned(found: Option<Learner>) | AttributeError

  /** The scan as written raises exactly when some stored learner has the
      given email, and otherwise returns None: it never returns a learner. */
  function AuthenticateAsWritten(learners: seq<Learner>, email: string, password: string): (r: ScanEnd)
    ensures r == AttributeError <==> exists i :: 0 <= i < |learners| && learners[i].email == email
    ensures r != AttributeError ==> r == Returned(None)
  {
    if learners == [] then Returned(None)
    else if learners[0].email == email then AttributeError
    else
      assert forall i :: 0 < i < |learners| ==> learners[i] == learners[1..][i - 1];
      AuthenticateAsWritten(learners[1..], email, password)
  }

  /** The concrete case: Ann is stored and gives the correct password. The
      scan as written raises; the corrected scan returns Ann. */
  lemma RegisteredLearnerCannotLogIn(verify: (string, string) -> bool)
    requires verify("pw123456", "hash-of-pw123456")
    ensures var ann := Learner("l-1", "Ann", "ann@x.com", "hash-of-pw123456", 0, None);
      && AuthenticateAsWritten([ann], "ann@x.com", "pw123456") == AttributeError
      && AuthRouter.FirstMatch([ann], "ann@x.com", "pw123456", verify) == Some(ann)
  {
  }

  const InternalServerError := HttpError(500, "Internal Server Error")

  /** `login_for_access_token` on top of the scan as written. The
      AttributeError escapes the handler and the framework answers it with
      500; a scan that returns None gets the generic 401. */
  function LoginAsWritten(codec: AuthRouter.Codec, learners: seq<Learner>, username: string, password: string, now: int)
    : (r: Result<AuthRouter.Token>)
    ensures r.Err?
    ensures r.error.status == 500 <==> exists i :: 0 <= i < |learners| && learners[i].email == username
    ensures r.error.status != 500 ==> r.error == AuthRouter.IncorrectCredentials
  {
    match AuthenticateAsWritten(learners, username, password)
    case AttributeError => Err(InternalServerError)
    case Returned(None) => Err(AuthRouter.IncorrectCredentials)
    case Returned(Some(learner)) =>
      Ok(AuthRouter.Token(AuthRouter.CreateAccessToken(codec, map["sub" := AuthRouter.Str(learner.learnerId)], now, None), "bearer"))
  }

  /** As written, login tells a registered email from an unknown one: a wrong
      password for a stored email gets 500, an unknown email gets 401. */
  lemma AsWrittenLoginRevealsAccounts(codec: AuthRouter.Codec, now: int)
    ensures var ann := Learner("l-1", "Ann", "ann@x.com", "hash-of-pw123456", 0, None);
      && LoginAsWritten(codec, [ann], "ann@x.com", "wrong-password", now) == Err(InternalServerError)
      && LoginAsWritten(codec, [ann], "bob@x.com", "wrong-password", now) == Err(AuthRouter.IncorrectCredentials)
  {
  }
}
