/**
 * The login state machine: identify the account, check the minimum level and the scope,
 * authenticate, check inventory, log the presence in, resolve the destination, launch the
 * agent and collect friends. Each check ends the login with a typed failure; once the
 * presence is logged in, a later failure logs it out again. Any exception raised on the
 * way is caught and reported as an internal error, logging the presence out when a
 * presence service is configured.
 */
module LoginService {
  import opened Wrappers
  import opened Uuids
  import opened LoginTypes
  import opened StartLocation
  import opened Destinations
  import opened Launch

  /** The login request. */
  datatype Request = Request(
    firstName: string, lastName: string, password: string, startLocation: string,
    scope: Uuid, client: ClientInfo)

  /** The failure responses; `Denied` carries the launch's reason text. */
  datatype FailReason =
    | UserProblem | LoginBlockedProblem | InventoryProblem | GridProblem | InternalError
    | Denied(message: string)

  /** What a successful login hands to the client. */
  datatype LoginSession = LoginSession(
    account: Account, circuit: Circuit, userInfo: UserInfo, region: Region, where: Where,
    position: Vec3, lookAt: Vec3, home: Option<Region>, skeleton: Option<seq<Uuid>>,
    gestures: seq<Uuid>, friends: seq<Uuid>, welcome: string)

  datatype LoginResponse = Success(session: LoginSession) | Failure(reason: FailReason)

  /** The response and the backend calls made, in order. */
  datatype LoginResult = LoginResult(response: LoginResponse, calls: seq<Call>)

  /** How the body of the login ended: with a response, or with an exception. */
  datatype Exit = Return(response: LoginResponse) | Throw

  datatype Attempt = Attempt(exit: Exit, calls: seq<Call>)

  /** The prefix marking a password that is already an MD5 digest. */
  const HashTag: string := "$1$"

  /** The stored state used when the user-state store has no record: both positions (128,128,30). */
  const PlaceholderInfo: UserInfo :=
    UserInfo(Zero, Vec3(128, 128, 30), Vec3(0, 0, 0), Zero, Vec3(128, 128, 30), Vec3(0, 0, 0))

  /**
   * The secret sent for authentication: the password is tagged with "$1$" and its MD5
   * digest unless it already carries the tag, and the tag is then removed.
   */
  function NormaliseSecret(password: string, md5: string -> string): (secret: string)
    ensures HashTag <= password ==> secret == password[|HashTag|..]
    ensures !(HashTag <= password) ==> secret == md5(password)
  {
    var tagged := if HashTag <= password then password else HashTag + md5(password);
    assert HashTag <= tagged;
    tagged[|HashTag|..]
  }

  /** A password and its tagged digest authenticate with the same secret. */
  lemma PreHashedSecretAgrees(password: string, md5: string -> string)
    requires !(HashTag <= password)
    ensures NormaliseSecret(HashTag + md5(password), md5) == NormaliseSecret(password, md5)
  {
    assert HashTag <= HashTag + md5(password);
    assert (HashTag + md5(password))[|HashTag|..] == md5(password);
  }

  /** The presence logout that a failure after presence login performs, if there is a presence service. */
  function LogoutIfPresent(svc: Services, session: Uuid): (calls: seq<Call>)
  {
    if svc.presence.Some? then [PresenceLogout(session)] else []
  }

  /** The number of presence logouts among `calls`. */
  function Logouts(calls: seq<Call>): nat
  {
    if |calls| == 0 then 0 else (if calls[0].PresenceLogout? then 1 else 0) + Logouts(calls[1..])
  }

  /** Whether the presence service accepted a login among `calls`. */
  predicate Accepted(calls: seq<Call>)
  {
    exists i :: 0 <= i < |calls| && calls[i].PresenceLogin? && calls[i].accepted
  }

  /** Logouts of a concatenation add up. */
  lemma {:induction false} LogoutsAppend(xs: seq<Call>, ys: seq<Call>)
    ensures Logouts(xs + ys) == Logouts(xs) + Logouts(ys)
  {
    if |xs| == 0 {
      assert xs + ys == ys;
    } else {
      LogoutsAppend(xs[1..], ys);
      assert (xs + ys)[1..] == xs[1..] + ys;
    }
  }

  /** Calls to regions, gatekeepers and simulators neither log out nor log in. */
  lemma {:induction false} RegionCallsOnly(xs: seq<Call>)
    requires forall i :: 0 <= i < |xs| ==> IsRegionCall(xs[i])
    ensures Logouts(xs) == 0 && !Accepted(xs)
  {
    if |xs| > 0 {
      RegionCallsOnly(xs[1..]);
    }
  }

  /**
   * The login body up to the catch-all handler. The steps after authentication are in
   * `CheckInventory` and `AfterPresence`.
   */
  function LoginBody(settings: Settings, cfg: Config, svc: Services, req: Request, nonces: Nonces): (a: Attempt)
    ensures Logouts(a.calls) == if a.exit.Return? && a.exit.response.Failure? && Accepted(a.calls) then 1 else 0
    ensures Logouts(a.calls) == 1 ==> a.calls[|a.calls| - 1] == PresenceLogout(nonces.session)
    ensures Accepted(a.calls) ==> svc.presence.Some?
    ensures a.exit.Return? ==> a.exit.response != Failure(InternalError)
  {
    match svc.accounts(req.scope, req.firstName, req.lastName)
    case None => Attempt(Return(Failure(UserProblem)), [])
    case Some(account) =>
      if account.userLevel < settings.minLoginLevel then Attempt(Return(Failure(LoginBlockedProblem)), [])
      else if req.scope != Zero && account.scope != req.scope && account.scope != Zero then
        Attempt(Return(Failure(UserProblem)), [])
      else
        var scope := if req.scope != Zero then req.scope else account.scope;
        var secret := NormaliseSecret(req.password, svc.md5);
        var token := svc.authenticate(account.principal, secret, TokenLifetime);
        var calls := [Authenticate(account.principal, secret)];
        if token == "" || svc.parseUuid(token).None? then Attempt(Return(Failure(UserProblem)), calls)
        else
          var rest := CheckInventory(settings, cfg, svc, req.startLocation, req.client, nonces, account, scope,
                                     svc.parseUuid(token).value);
          LogoutsAppend(calls, rest.calls);
          assert Logouts(calls) == 0;
          assert Accepted(calls + rest.calls) <==> Accepted(rest.calls) by {
            if Accepted(rest.calls) {
              var i :| 0 <= i < |rest.calls| && rest.calls[i].PresenceLogin? && rest.calls[i].accepted;
              assert (calls + rest.calls)[i + 1] == rest.calls[i];
            }
            if Accepted(calls + rest.calls) {
              var i :| 0 <= i < |calls + rest.calls| && (calls + rest.calls)[i].PresenceLogin? && (calls + rest.calls)[i].accepted;
              assert i > 0 && rest.calls[i - 1] == (calls + rest.calls)[i];
            }
          }
          Attempt(rest.exit, calls + rest.calls)
  }

  /** Inventory precondition, active gestures and presence login. */
  function CheckInventory(settings: Settings, cfg: Config, svc: Services, start: string, client: ClientInfo, nonces: Nonces,
                          account: Account, scope: Uuid, secureSession: Uuid): (a: Attempt)
    ensures Logouts(a.calls) == if a.exit.Return? && a.exit.response.Failure? && Accepted(a.calls) then 1 else 0
    ensures Logouts(a.calls) == 1 ==> a.calls[|a.calls| - 1] == PresenceLogout(nonces.session)
    ensures Accepted(a.calls) ==> svc.presence.Some?
    ensures a.exit.Return? ==> a.exit.response != Failure(InternalError)
  {
    if cfg.requireInventory && svc.inventory.None? then Attempt(Return(Failure(InventoryProblem)), [])
    else if svc.inventory.None? then Attempt(Throw, [])
    else
      var inventory := svc.inventory.value;
      var skeleton := inventory.skeleton(account.principal);
      if cfg.requireInventory && (skeleton.None? || |skeleton.value| == 0) then
        Attempt(Return(Failure(InventoryProblem)), [])
      else
        match inventory.activeGestures(account.principal)
        case None => Attempt(Throw, [])
        case Some(gestures) =>
          match svc.presence
          case None =>
            var rest := AfterPresence(settings, cfg, svc, start, client, nonces, account, scope, secureSession, skeleton, gestures);
            LateCallsCount(rest, nonces.session);
            rest
          case Some(presence) =>
            var accepted := presence.login(account.principal, nonces.session, secureSession);
            var calls := [PresenceLogin(account.principal, nonces.session, secureSession, accepted)];
            assert Logouts(calls) == 0;
            if !accepted then
              assert !Accepted(calls);
              Attempt(Return(Failure(GridProblem)), calls)
            else
              var rest := AfterPresence(settings, cfg, svc, start, client, nonces, account, scope, secureSession, skeleton, gestures);
              AcceptedThenLate(calls[0], rest, nonces.session);
              Attempt(rest.exit, calls + rest.calls)
  }

  /**
   * The calls of the steps after presence login: region calls only, followed by one
   * presence logout of this session exactly when those steps end in a failure response.
   */
  predicate LateCalls(a: Attempt, session: Uuid)
  {
    var n := if a.exit.Return? && a.exit.response.Failure? then 1 else 0;
    && |a.calls| >= n
    && (forall i :: 0 <= i < |a.calls| - n ==> IsRegionCall(a.calls[i]))
    && (n == 1 ==> a.calls[|a.calls| - 1] == PresenceLogout(session))
  }

  /** Late calls hold one logout exactly for a failure response, and no presence login. */
  lemma LateCallsCount(a: Attempt, session: Uuid)
    requires LateCalls(a, session)
    ensures Logouts(a.calls) == if a.exit.Return? && a.exit.response.Failure? then 1 else 0
    ensures !Accepted(a.calls)
  {
    var n := if a.exit.Return? && a.exit.response.Failure? then 1 else 0;
    var body := a.calls[..|a.calls| - n];
    RegionCallsOnly(body);
    if n == 1 {
      assert a.calls == body + [PresenceLogout(session)];
      LogoutsAppend(body, [PresenceLogout(session)]);
      assert Logouts([PresenceLogout(session)]) == 1;
      forall i | 0 <= i < |a.calls|
        ensures !a.calls[i].PresenceLogin?
      {
        if i < |body| {
          assert body[i] == a.calls[i];
        }
      }
    } else {
      assert a.calls == body;
    }
  }

  /** An accepted presence login followed by late calls: accepted, with the late calls' logout. */
  lemma AcceptedThenLate(login: Call, a: Attempt, session: Uuid)
    requires login.PresenceLogin? && login.accepted
    requires LateCalls(a, session)
    ensures var calls := [login] + a.calls;
      && Accepted(calls)
      && Logouts(calls) == (if a.exit.Return? && a.exit.response.Failure? then 1 else 0)
      && (Logouts(calls) == 1 ==> calls[|calls| - 1] == PresenceLogout(session))
  {
    var calls := [login] + a.calls;
    LateCallsCount(a, session);
    LogoutsAppend([login], a.calls);
    assert Logouts([login]) == 0;
    assert calls[0] == login;
  }

  /**
   * Stored user state, home region and destination. A destination miss logs the presence
   * out; with no presence service that logout dereferences null and raises instead.
   */
  function AfterPresence(settings: Settings, cfg: Config, svc: Services, start: string, client: ClientInfo, nonces: Nonces,
                         account: Account, scope: Uuid, secureSession: Uuid,
                         skeleton: Option<seq<Uuid>>, gestures: seq<Uuid>): (a: Attempt)
    ensures LateCalls(a, nonces.session)
    ensures a.exit.Return? && a.exit.response.Failure? ==> svc.presence.Some?
    ensures a.exit.Return? ==> a.exit.response != Failure(InternalError)
  {
    match svc.gridUser
    case None => Attempt(Throw, [])
    case Some(gridUser) =>
      var stored := gridUser(account.principal);
      var home := if stored.Some? && stored.value.homeRegion != Zero && svc.grid.Some?
                  then svc.grid.value.regionById(scope, stored.value.homeRegion) else None;
      var info := stored.GetOr(PlaceholderInfo);
      var found := FindDestination(svc, scope, Some(info), start, home);
      match found.resolution
      case ParseFailure => Attempt(Throw, found.calls)
      case Unresolved =>
        if svc.presence.None? then Attempt(Throw, found.calls)
        else Attempt(Return(Failure(GridProblem)), found.calls + [PresenceLogout(nonces.session)])
      case Resolved(dest) =>
        var rest := LaunchStage(settings, cfg, svc, client, nonces, account, secureSession, skeleton, gestures, info, home, dest);
        Attempt(rest.exit, found.calls + rest.calls)
  }

  /** The stored appearance, when an avatar service is configured and has one. */
  function AvatarOf(svc: Services, account: Account): Option<Appearance>
  {
    if svc.avatars.Some? then svc.avatars.value(account.principal) else None
  }

  /**
   * Avatar, launch and friends. A failed launch logs the presence out (or raises without
   * a presence service); a null friends list raises.
   */
  function LaunchStage(settings: Settings, cfg: Config, svc: Services, client: ClientInfo, nonces: Nonces,
                       account: Account, secureSession: Uuid, skeleton: Option<seq<Uuid>>, gestures: seq<Uuid>,
                       info: UserInfo, home: Option<Region>, dest: Destination): (a: Attempt)
    ensures LateCalls(a, nonces.session)
    ensures a.exit.Return? && a.exit.response.Failure? ==> svc.presence.Some?
    ensures a.exit.Return? ==> a.exit.response != Failure(InternalError)
    ensures var launched := LaunchAgentAtGrid(svc, cfg, dest, account, AvatarOf(svc, account), nonces.session, secureSession, nonces, client);
      && (launched.circuit.None? ==> a.exit == if svc.presence.Some? then Return(Failure(Denied(launched.reason))) else Throw)
      && (a.exit.Return? && a.exit.response.Success? ==>
            var session := a.exit.response.session;
            && launched.circuit == Some(session.circuit)
            && session.region == launched.region && session.where == launched.where
            && session.welcome == settings.welcome)
  {
    var launched := LaunchAgentAtGrid(svc, cfg, dest, account, AvatarOf(svc, account), nonces.session, secureSession, nonces, client);
    if launched.circuit.None? then
      if svc.presence.None? then Attempt(Throw, launched.calls)
      else Attempt(Return(Failure(Denied(launched.reason))), launched.calls + [PresenceLogout(nonces.session)])
    else
      var friends := if svc.friends.Some? then svc.friends.value(account.principal) else Some([]);
      if friends.None? then Attempt(Throw, launched.calls)
      else
        var session := LoginSession(account, launched.circuit.value, info, launched.region, launched.where,
                                    dest.position, dest.lookAt, home, skeleton, gestures, friends.value,
                                    settings.welcome);
        Attempt(Return(Success(session)), launched.calls)
  }

  /**
   * Login: the body, with every exception turned into an internal error after logging the
   * presence out when a presence service is configured.
   */
  function Login(settings: Settings, cfg: Config, svc: Services, req: Request, nonces: Nonces): (r: LoginResult)
    ensures r.response == Failure(InternalError) ==>
      LoginBody(settings, cfg, svc, req, nonces).exit.Throw?
      && r.calls == LoginBody(settings, cfg, svc, req, nonces).calls + LogoutIfPresent(svc, nonces.session)
    ensures LoginBody(settings, cfg, svc, req, nonces).exit.Throw? ==>
      r == LoginResult(Failure(InternalError), LoginBody(settings, cfg, svc, req, nonces).calls + LogoutIfPresent(svc, nonces.session))
    ensures LoginBody(settings, cfg, svc, req, nonces).exit.Return? ==>
      r == LoginResult(LoginBody(settings, cfg, svc, req, nonces).exit.response, LoginBody(settings, cfg, svc, req, nonces).calls)
  {
    var a := LoginBody(settings, cfg, svc, req, nonces);
    match a.exit
    case Return(response) => LoginResult(response, a.calls)
    case Throw => LoginResult(Failure(InternalError), a.calls + LogoutIfPresent(svc, nonces.session))
  }

  /**
   * Compensating logout: a login that fails after the presence service accepted it logs
   * that session out exactly once, as its last call; a successful login and a failure
   * before presence login log nothing out; an internal error logs out once exactly when a
   * presence service is configured.
   */
  lemma {:induction false} LogoutDiscipline(settings: Settings, cfg: Config, svc: Services, req: Request, nonces: Nonces)
    ensures var r := Login(settings, cfg, svc, req, nonces);
      && Logouts(r.calls) <= 1
      && (Logouts(r.calls) == 1 ==> r.calls[|r.calls| - 1] == PresenceLogout(nonces.session))
      && (r.response.Success? ==> Logouts(r.calls) == 0)
      && (r.response == Failure(InternalError) ==> Logouts(r.calls) == if svc.presence.Some? then 1 else 0)
      && (r.response.Failure? && r.response.reason != InternalError ==>
            (Logouts(r.calls) == 1 <==> Accepted(r.calls)))
  {
    var a := LoginBody(settings, cfg, svc, req, nonces);
    var r := Login(settings, cfg, svc, req, nonces);
    if a.exit.Throw? {
      var tail := LogoutIfPresent(svc, nonces.session);
      assert r.calls == a.calls + tail;
      LogoutsAppend(a.calls, tail);
      assert Logouts(a.calls) == 0;
      assert Logouts(tail) == if svc.presence.Some? then 1 else 0;
    } else {
      assert r == LoginResult(a.exit.response, a.calls);
    }
  }

  /** An unknown account is a user problem, with no backend call made. */
  lemma UnknownAccount(settings: Settings, cfg: Config, svc: Services, req: Request, nonces: Nonces)
    requires svc.accounts(req.scope, req.firstName, req.lastName).None?
    ensures Login(settings, cfg, svc, req, nonces) == LoginResult(Failure(UserProblem), [])
  {
  }

  /**
   * An account below the minimum login level is blocked before the scope check and before
   * authentication: whatever password is given, the response is the same and nothing is
   * authenticated.
   */
  lemma BlockedBeforeCredentials(settings: Settings, cfg: Config, svc: Services, req: Request, nonces: Nonces, password: string)
    requires svc.accounts(req.scope, req.firstName, req.lastName).Some?
    requires svc.accounts(req.scope, req.firstName, req.lastName).value.userLevel < settings.minLoginLevel
    ensures Login(settings, cfg, svc, req, nonces) == LoginResult(Failure(LoginBlockedProblem), [])
    ensures Login(settings, cfg, svc, req.(password := password), nonces) == Login(settings, cfg, svc, req, nonces)
  {
  }

  /**
   * A scoped request for an account of another (non-zero) scope gets exactly the result
   * of a request for an account that does not exist.
   */
  lemma ScopeMismatchLooksUnknown(settings: Settings, cfg: Config, svc: Services, req: Request, nonces: Nonces)
    requires svc.accounts(req.scope, req.firstName, req.lastName).Some?
    requires var account := svc.accounts(req.scope, req.firstName, req.lastName).value;
      account.userLevel >= settings.minLoginLevel
      && req.scope != Zero && account.scope != Zero && account.scope != req.scope
    ensures Login(settings, cfg, svc, req, nonces)
      == Login(settings, cfg, svc.(accounts := (scope: Uuid, first: string, last: string) => None), req, nonces)
  {
  }

  /**
   * An unscoped request behaves as a request in the account's own scope, when the account
   * is found in both.
   */
  lemma UnscopedAdoptsAccountScope(settings: Settings, cfg: Config, svc: Services, req: Request, nonces: Nonces, account: Account)
    requires req.scope == Zero
    requires svc.accounts(Zero, req.firstName, req.lastName) == Some(account)
    requires svc.accounts(account.scope, req.firstName, req.lastName) == Some(account)
    ensures Login(settings, cfg, svc, req, nonces) == Login(settings, cfg, svc, req.(scope := account.scope), nonces)
  {
  }

  /**
   * An account that passes the level and scope checks is authenticated once, with the
   * normalised secret; an empty or non-UUID token is a user problem with nothing else done.
   */
  lemma AuthenticationStep(settings: Settings, cfg: Config, svc: Services, req: Request, nonces: Nonces, account: Account)
    requires svc.accounts(req.scope, req.firstName, req.lastName) == Some(account)
    requires account.userLevel >= settings.minLoginLevel
    requires req.scope == Zero || account.scope == req.scope || account.scope == Zero
    ensures var r := Login(settings, cfg, svc, req, nonces);
      var secret := NormaliseSecret(req.password, svc.md5);
      var token := svc.authenticate(account.principal, secret, TokenLifetime);
      && |r.calls| >= 1 && r.calls[0] == Authenticate(account.principal, secret)
      && (token == "" || svc.parseUuid(token).None? ==>
            r == LoginResult(Failure(UserProblem), [Authenticate(account.principal, secret)]))
  {
    var a := LoginBody(settings, cfg, svc, req, nonces);
    assert |a.calls| >= 1 && a.calls[0] == Authenticate(account.principal, NormaliseSecret(req.password, svc.md5));
  }

  /** The state after a successful authentication: the account, scope and secure session id it yields. */
  predicate Authenticated(settings: Settings, svc: Services, req: Request, account: Account, scope: Uuid, secureSession: Uuid)
  {
    && svc.accounts(req.scope, req.firstName, req.lastName) == Some(account)
    && account.userLevel >= settings.minLoginLevel
    && (req.scope == Zero || account.scope == req.scope || account.scope == Zero)
    && scope == (if req.scope != Zero then req.scope else account.scope)
    && var token := svc.authenticate(account.principal, NormaliseSecret(req.password, svc.md5), TokenLifetime);
       token != "" && svc.parseUuid(token) == Some(secureSession)
  }

  /**
   * With inventory required, a missing inventory service or a null or empty skeleton is an
   * inventory problem; only the authentication call has been made, so nothing is logged out.
   */
  lemma InventoryRequired(settings: Settings, cfg: Config, svc: Services, req: Request, nonces: Nonces,
                          account: Account, scope: Uuid, secureSession: Uuid)
    requires Authenticated(settings, svc, req, account, scope, secureSession)
    requires cfg.requireInventory
    requires svc.inventory.None? || svc.inventory.value.skeleton(account.principal).None?
             || |svc.inventory.value.skeleton(account.principal).value| == 0
    ensures Login(settings, cfg, svc, req, nonces)
      == LoginResult(Failure(InventoryProblem), [Authenticate(account.principal, NormaliseSecret(req.password, svc.md5))])
  {
  }

  /**
   * A presence service that refuses the login gives a grid problem right after the refused
   * presence login, with no logout.
   */
  lemma PresenceRefused(settings: Settings, cfg: Config, svc: Services, req: Request, nonces: Nonces,
                        account: Account, scope: Uuid, secureSession: Uuid)
    requires Authenticated(settings, svc, req, account, scope, secureSession)
    requires svc.inventory.Some?
    requires !cfg.requireInventory || (svc.inventory.value.skeleton(account.principal).Some?
                                       && |svc.inventory.value.skeleton(account.principal).value| > 0)
    requires svc.inventory.value.activeGestures(account.principal).Some?
    requires svc.presence.Some? && !svc.presence.value.login(account.principal, nonces.session, secureSession)
    ensures Login(settings, cfg, svc, req, nonces)
      == LoginResult(Failure(GridProblem), [Authenticate(account.principal, NormaliseSecret(req.password, svc.md5)),
                                            PresenceLogin(account.principal, nonces.session, secureSession, false)])
  {
  }

  /**
   * Once the presence is logged in, a destination that does not resolve is a grid problem
   * closed by one logout of the session; one whose custom token does not match raises and
   * becomes an internal error, also closed by one logout.
   */
  lemma DestinationMiss(settings: Settings, cfg: Config, svc: Services, req: Request, nonces: Nonces,
                        account: Account, scope: Uuid, secureSession: Uuid, stored: Option<UserInfo>)
    requires Authenticated(settings, svc, req, account, scope, secureSession)
    requires svc.inventory.Some?
    requires !cfg.requireInventory || (svc.inventory.value.skeleton(account.principal).Some?
                                       && |svc.inventory.value.skeleton(account.principal).value| > 0)
    requires svc.inventory.value.activeGestures(account.principal).Some?
    requires svc.presence.Some? && svc.presence.value.login(account.principal, nonces.session, secureSession)
    requires svc.gridUser.Some? && svc.gridUser.value(account.principal) == stored
    requires var home := if stored.Some? && stored.value.homeRegion != Zero && svc.grid.Some?
                         then svc.grid.value.regionById(scope, stored.value.homeRegion) else None;
      !FindDestination(svc, scope, Some(stored.GetOr(PlaceholderInfo)), req.startLocation, home).resolution.Resolved?
    ensures var r := Login(settings, cfg, svc, req, nonces);
      && (r.response == Failure(GridProblem) || r.response == Failure(InternalError))
      && (r.response == Failure(InternalError) <==> svc.grid.Some? && ParseStart(req.startLocation) == Custom(None))
      && Logouts(r.calls) == 1 && r.calls[|r.calls| - 1] == PresenceLogout(nonces.session)
  {
    var r := Login(settings, cfg, svc, req, nonces);
    var skeleton := svc.inventory.value.skeleton(account.principal);
    var gestures := svc.inventory.value.activeGestures(account.principal).value;
    var late := AfterPresence(settings, cfg, svc, req.startLocation, req.client, nonces, account, scope, secureSession,
                              skeleton, gestures);
    MissExit(settings, cfg, svc, req.startLocation, req.client, nonces, account, scope, secureSession, skeleton, gestures, stored);
    var inner := CheckInventory(settings, cfg, svc, req.startLocation, req.client, nonces, account, scope, secureSession);
    assert inner.exit == late.exit;
    assert inner.calls[0] == PresenceLogin(account.principal, nonces.session, secureSession, true);
    assert LoginBody(settings, cfg, svc, req, nonces).exit == late.exit;
    assert r.calls[1] == inner.calls[0];
    LogoutDiscipline(settings, cfg, svc, req, nonces);
  }

  /** After presence login, a destination miss raises exactly for an unmatched custom token and is otherwise a grid problem. */
  lemma MissExit(settings: Settings, cfg: Config, svc: Services, start: string, client: ClientInfo, nonces: Nonces,
                 account: Account, scope: Uuid, secureSession: Uuid, skeleton: Option<seq<Uuid>>, gestures: seq<Uuid>,
                 stored: Option<UserInfo>)
    requires svc.presence.Some?
    requires svc.gridUser.Some? && svc.gridUser.value(account.principal) == stored
    requires var home := if stored.Some? && stored.value.homeRegion != Zero && svc.grid.Some?
                         then svc.grid.value.regionById(scope, stored.value.homeRegion) else None;
      !FindDestination(svc, scope, Some(stored.GetOr(PlaceholderInfo)), start, home).resolution.Resolved?
    ensures var a := AfterPresence(settings, cfg, svc, start, client, nonces, account, scope, secureSession, skeleton, gestures);
      && (a.exit == Throw <==> svc.grid.Some? && ParseStart(start) == Custom(None))
      && (a.exit != Throw ==> a.exit == Return(Failure(GridProblem)))
  {
  }

  /**
   * Without a presence service, a destination that does not resolve still reaches the
   * presence logout, which has no service to call: the login ends as an internal error,
   * with no logout made.
   */
  lemma DestinationMissWithoutPresence(settings: Settings, cfg: Config, svc: Services, req: Request, nonces: Nonces,
                                       account: Account, scope: Uuid, secureSession: Uuid, stored: Option<UserInfo>)
    requires Authenticated(settings, svc, req, account, scope, secureSession)
    requires svc.inventory.Some?
    requires !cfg.requireInventory || (svc.inventory.value.skeleton(account.principal).Some?
                                       && |svc.inventory.value.skeleton(account.principal).value| > 0)
    requires svc.inventory.value.activeGestures(account.principal).Some?
    requires svc.presence.None?
    requires svc.gridUser.Some? && svc.gridUser.value(account.principal) == stored
    requires var home := if stored.Some? && stored.value.homeRegion != Zero && svc.grid.Some?
                         then svc.grid.value.regionById(scope, stored.value.homeRegion) else None;
      !FindDestination(svc, scope, Some(stored.GetOr(PlaceholderInfo)), req.startLocation, home).resolution.Resolved?
    ensures var r := Login(settings, cfg, svc, req, nonces);
      r.response == Failure(InternalError) && Logouts(r.calls) == 0
  {
    LogoutDiscipline(settings, cfg, svc, req, nonces);
  }
}
