/**
 * Administration of the login service: the remote request that sets the minimum login
 * level, and the console's `login level`, `login reset` and `login text` commands. Both
 * change only the service's mutable settings, which the model threads explicitly.
 */
module LoginAdmin {
  import opened Wrappers
  import opened Uuids
  import opened Numerals
  import opened LoginTypes
  import opened LoginService

  /** The user level an account needs to change the minimum login level remotely. */
  const AdminLevel: int := 200

  /** The settings after a remote level request, and whether the request succeeded. */
  datatype LevelReply = LevelReply(settings: Settings, success: bool)

  /**
   * Whether the remote level request is granted: remote setting is enabled, the account is
   * found in the unscoped lookup, has at least the administrator level, and authenticates
   * with the password exactly as given (no hashing or tag stripping) to a UUID token.
   */
  predicate LevelGranted(cfg: Config, svc: Services, firstName: string, lastName: string, password: string)
  {
    && cfg.allowRemoteSetLoginLevel
    && var account := svc.accounts(Zero, firstName, lastName);
       && account.Some?
       && account.value.userLevel >= AdminLevel
       && var token := svc.authenticate(account.value.principal, password, TokenLifetime);
          token != "" && svc.parseUuid(token).Some?
  }

  /**
   * The remote level request. On success the minimum login level becomes exactly the
   * requested level; on any refusal the settings are untouched.
   */
  function SetLevel(settings: Settings, cfg: Config, svc: Services,
                    firstName: string, lastName: string, password: string, level: int): (r: LevelReply)
    ensures r.success <==> LevelGranted(cfg, svc, firstName, lastName, password)
    ensures r.success ==> r.settings == settings.(minLoginLevel := level)
    ensures !r.success ==> r.settings == settings
  {
    if !cfg.allowRemoteSetLoginLevel then LevelReply(settings, false)
    else
      match svc.accounts(Zero, firstName, lastName)
      case None => LevelReply(settings, false)
      case Some(account) =>
        if account.userLevel < AdminLevel then LevelReply(settings, false)
        else
          var token := svc.authenticate(account.principal, password, TokenLifetime);
          if token == "" || svc.parseUuid(token).None? then LevelReply(settings, false)
          else LevelReply(settings.(minLoginLevel := level), true)
  }

  /**
   * A console command, given as its words (`cmd[0]` is "login"). `level` takes the next
   * word as a 32-bit integer, falling back to 0 when it does not parse; `reset` sets the
   * level to 0; `text` takes the next word as the welcome message. A missing argument or an
   * unknown subcommand leaves the settings as they are.
   */
  function HandleLoginCommand(settings: Settings, cmd: seq<string>): (r: Settings)
    requires |cmd| >= 2
    ensures r.welcome != settings.welcome ==> cmd[1] == "text" && |cmd| > 2 && r.welcome == cmd[2]
    ensures r.minLoginLevel != settings.minLoginLevel ==> cmd[1] in {"level", "reset"}
    ensures cmd[1] !in {"level", "reset", "text"} ==> r == settings
    ensures cmd[1] == "reset" ==> r == settings.(minLoginLevel := 0)
    ensures cmd[1] == "text" && |cmd| > 2 ==> r == settings.(welcome := cmd[2])
    ensures cmd[1] == "level" && |cmd| > 2 ==> r == settings.(minLoginLevel := TryParseInt32(cmd[2]).GetOr(0))
    ensures |cmd| == 2 && cmd[1] != "reset" ==> r == settings
    ensures r.minLoginLevel != settings.minLoginLevel ==> Int32Min <= r.minLoginLevel <= Int32Max
  {
    match cmd[1]
    case "level" =>
      if |cmd| > 2 then settings.(minLoginLevel := TryParseInt32(cmd[2]).GetOr(0)) else settings
    case "reset" => settings.(minLoginLevel := 0)
    case "text" =>
      if |cmd| > 2 then settings.(welcome := cmd[2]) else settings
    case _ => settings
  }

  /** `login level` with a level written in decimal sets exactly that level. */
  lemma LevelCommandSets(settings: Settings, n: int)
    requires Int32Min <= n <= Int32Max
    ensures HandleLoginCommand(settings, ["login", "level", IntText(n)]) == settings.(minLoginLevel := n)
  {
    Int32TextRoundTrip(n);
  }

  /**
   * `login level` with a signed or zero-padded numeral (`+0042`, `-007`) sets the value it
   * denotes when that fits in 32 bits, and 0 when it does not.
   */
  lemma LevelCommandPadded(settings: Settings, sign: string, zeros: string, n: nat)
    requires AllZeros(zeros)
    requires sign == "" || sign == "+" || sign == "-"
    ensures var v := Signed(sign, n);
      HandleLoginCommand(settings, ["login", "level", sign + zeros + NatText(n)])
        == settings.(minLoginLevel := if Int32Min <= v <= Int32Max then v else 0)
  {
    var word := sign + zeros + NatText(n);
    assert "" + sign + zeros + NatText(n) + "" == word;
    TryParseInt32Layout("", sign, zeros, n, "");
  }

  /** `login level` with an argument that is not a 32-bit integer sets the level to 0. */
  lemma LevelCommandFallsBack(settings: Settings, word: string)
    requires TryParseInt32(word).None?
    ensures HandleLoginCommand(settings, ["login", "level", word]) == settings.(minLoginLevel := 0)
  {
  }

  /**
   * After a granted level request, every account below the new level is turned away as
   * blocked, whatever password it offers, before anything is authenticated.
   */
  lemma RaisedLevelBlocks(settings: Settings, cfg: Config, svc: Services,
                          firstName: string, lastName: string, password: string, level: int,
                          req: Request, nonces: Nonces)
    requires LevelGranted(cfg, svc, firstName, lastName, password)
    requires svc.accounts(req.scope, req.firstName, req.lastName).Some?
    requires svc.accounts(req.scope, req.firstName, req.lastName).value.userLevel < level
    ensures var s := SetLevel(settings, cfg, svc, firstName, lastName, password, level).settings;
      Login(s, cfg, svc, req, nonces) == LoginResult(Failure(LoginBlockedProblem), [])
  {
    var s := SetLevel(settings, cfg, svc, firstName, lastName, password, level).settings;
    BlockedBeforeCredentials(s, cfg, svc, req, nonces, req.password);
  }
}
