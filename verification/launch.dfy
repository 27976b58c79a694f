/**
 * The launch protocol: builds one circuit descriptor and asks for the agent to be
 * admitted at the primary region and then, in order, at each fallback region, either
 * directly through a simulation service or indirectly through the user-agent service
 * and a gatekeeper.
 */
module Launch {
  import opened Wrappers
  import opened Uuids
  import opened LoginTypes
  import opened Destinations

  /** How agents are admitted in this deployment. */
  datatype Admission =
    | Direct(sim: SimulationBackend)
    | Indirect(agents: UserAgentBackend, gatekeeper: Region)
    | NoAdmission

  /**
   * Without a user-agent service: the local simulation service, else the remote one,
   * else none. With one: indirect admission through the destination's own gatekeeper,
   * or, for a local destination, through a copy of the destination carrying the
   * configured gatekeeper host and port.
   */
  function SelectAdmission(svc: Services, cfg: Config, dest: Destination): (a: Admission)
    ensures a.Indirect? <==> svc.userAgent.Some?
    ensures a.NoAdmission? <==> svc.userAgent.None? && svc.localSimulation.None? && svc.remoteSimulation.None?
    ensures a.Direct? ==> a.sim == (if svc.localSimulation.Some? then svc.localSimulation.value else svc.remoteSimulation.value)
    ensures a.Indirect? && dest.gatekeeper.Some? ==> a.gatekeeper == dest.gatekeeper.value
    ensures a.Indirect? && dest.gatekeeper.None? ==>
      a.gatekeeper == dest.region.(host := cfg.gatekeeperHost, port := cfg.gatekeeperPort)
  {
    if svc.userAgent.None? then
      if svc.localSimulation.Some? then Direct(svc.localSimulation.value)
      else if svc.remoteSimulation.Some? then Direct(svc.remoteSimulation.value)
      else NoAdmission
    else
      var gatekeeper := if dest.gatekeeper.None? then dest.region.(host := cfg.gatekeeperHost, port := cfg.gatekeeperPort)
                        else dest.gatekeeper.value;
      Indirect(svc.userAgent.value, gatekeeper)
  }

  /** One admission request for `region`: whether it succeeded and the reason reported. */
  function Attempt(a: Admission, c: Circuit, address: string, region: Region): (bool, string)
    requires !a.NoAdmission?
  {
    match a
    case Direct(sim) => sim.createAgent(region, c)
    case Indirect(agents, gatekeeper) => agents.loginAgentToGrid(c, gatekeeper, region, address)
  }

  /** The backend call one admission request makes. */
  function AttemptCall(a: Admission, c: Circuit, region: Region): (call: Call)
    requires !a.NoAdmission?
    ensures IsAdmission(call) && call.circuit == c && call.region == region
  {
    match a
    case Direct(_) => CreateAgent(region, c)
    case Indirect(_, gatekeeper) => LoginAgentToGrid(gatekeeper, region, c)
  }

  /**
   * The service-URL table of the circuit: exactly the account's keys (none for a null
   * table); a non-empty value is copied, a null or empty one is replaced by the
   * configuration entry of that key, or "" when there is none.
   */
  function ServiceUrls(account: Account, entries: map<string, string>): (urls: map<string, string>)
    ensures account.serviceUrls.None? ==> urls == map[]
    ensures account.serviceUrls.Some? ==> urls.Keys == account.serviceUrls.value.Keys
    ensures forall k :: k in urls ==>
      var v := account.serviceUrls.value[k];
      urls[k] == if v.Some? && v.value != "" then v.value else if k in entries then entries[k] else ""
  {
    match account.serviceUrls
    case None => map[]
    case Some(table) =>
      map k | k in table :: if table[k].Some? && table[k].value != "" then table[k].value
                            else if k in entries then entries[k] else ""
  }

  /**
   * The circuit descriptor for the login: a root agent (not a child) for the account,
   * with the given session ids, circuit code, capability path, start position, client
   * metadata and the account's service URLs; the appearance is a copy of the stored one,
   * or a fresh appearance for the account.
   */
  function MakeAgent(cfg: Config, account: Account, avatar: Option<Appearance>, session: Uuid, secureSession: Uuid,
                     nonces: Nonces, position: Vec3, client: ClientInfo): (c: Circuit)
    ensures !c.child && c.agent == account.principal
    ensures c.session == session && c.secureSession == secureSession
    ensures c.circuitCode == nonces.circuitCode && c.capsPath == nonces.capsPath
    ensures c.startPosition == position
    ensures c.firstName == account.firstName && c.lastName == account.lastName
    ensures c.address == client.address && c.viewer == client.viewer && c.channel == client.channel
    ensures c.mac == client.mac && c.id0 == client.id0
    ensures c.appearance == avatar.GetOr(Appearance(account.principal, []))
    ensures c.serviceUrls == ServiceUrls(account, cfg.entries)
  {
    Circuit(account.principal, avatar.GetOr(Appearance(account.principal, [])), nonces.capsPath, false,
            nonces.circuitCode, account.firstName, account.lastName, secureSession, session, position,
            client.address, client.viewer, client.channel, client.mac, client.id0,
            ServiceUrls(account, cfg.entries))
  }

  /** The result of trying a list of regions in order. */
  datatype Tried = Tried(admitted: Option<nat>, reason: string, calls: seq<Call>)

  /**
   * Tries each region in order with the same circuit until one admits the agent. Reports
   * the index of that region (the first that admits), the reason from the last request
   * made (`reason` when the list is empty) and the requests made, one per region tried.
   */
  function TryRegions(a: Admission, c: Circuit, address: string, regions: seq<Region>, reason: string): (t: Tried)
    requires !a.NoAdmission?
    ensures t.admitted.Some? ==> t.admitted.value < |regions|
    ensures t.admitted.Some? ==> Attempt(a, c, address, regions[t.admitted.value]).0
    ensures t.admitted.Some? ==> t.reason == Attempt(a, c, address, regions[t.admitted.value]).1
    ensures t.admitted.Some? ==> forall j :: 0 <= j < t.admitted.value ==> !Attempt(a, c, address, regions[j]).0
    ensures t.admitted.None? ==> forall j :: 0 <= j < |regions| ==> !Attempt(a, c, address, regions[j]).0
    ensures t.admitted.None? ==>
      t.reason == if |regions| == 0 then reason else Attempt(a, c, address, regions[|regions| - 1]).1
    ensures |t.calls| == if t.admitted.Some? then t.admitted.value + 1 else |regions|
    ensures forall i :: 0 <= i < |t.calls| ==> t.calls[i] == AttemptCall(a, c, regions[i])
  {
    if |regions| == 0 then Tried(None, reason, [])
    else
      var (ok, why) := Attempt(a, c, address, regions[0]);
      var call := AttemptCall(a, c, regions[0]);
      if ok then Tried(Some(0), why, [call])
      else
        var rest := TryRegions(a, c, address, regions[1..], why);
        var admitted := if rest.admitted.Some? then Some(rest.admitted.value + 1) else None;
        Tried(admitted, rest.reason, [call] + rest.calls)
  }

  /** What the launch returns: the circuit (none on failure), arrival reason, last reason, final region. */
  datatype Launched = Launched(circuit: Option<Circuit>, where: Where, reason: string, region: Region, calls: seq<Call>)

  /**
   * LaunchAgentAtGrid: admits the agent at the destination, else at the grid's fallback
   * regions for the account's scope around the destination's map location.
   */
  function LaunchAgentAtGrid(svc: Services, cfg: Config, dest: Destination, account: Account, avatar: Option<Appearance>,
                             session: Uuid, secureSession: Uuid, nonces: Nonces, client: ClientInfo): (r: Launched)
    ensures var c := MakeAgent(cfg, account, avatar, session, secureSession, nonces, dest.position, client);
      && (r.circuit.Some? ==> r.circuit.value == c)
      && (forall i :: 0 <= i < |r.calls| && IsAdmission(r.calls[i]) ==> r.calls[i].circuit == c)
    ensures r.circuit.None? ==> r.region == dest.region && r.where == dest.where
    ensures r.circuit.Some? && r.region == dest.region ==> r.where == dest.where || r.where == Safe
    ensures r.region != dest.region ==> r.where == Safe
    ensures forall i :: 0 <= i < |r.calls| ==> IsAdmission(r.calls[i]) || r.calls[i].FallbackQuery?
  {
    var adm := SelectAdmission(svc, cfg, dest);
    if adm.NoAdmission? then Launched(None, dest.where, "", dest.region, [])
    else
      var c := MakeAgent(cfg, account, avatar, session, secureSession, nonces, dest.position, client);
      var (ok, why) := Attempt(adm, c, client.address, dest.region);
      var first := [AttemptCall(adm, c, dest.region)];
      if ok then Launched(Some(c), dest.where, why, dest.region, first)
      else if svc.grid.None? then Launched(None, dest.where, why, dest.region, first)
      else
        var x, y := dest.region.locX, dest.region.locY;
        var queried := first + [FallbackQuery(account.scope, x, y)];
        match svc.grid.value.fallbackRegions(account.scope, x, y)
        case None => Launched(None, dest.where, why, dest.region, queried)
        case Some(fallbacks) =>
          var t := TryRegions(adm, c, client.address, fallbacks, why);
          if t.admitted.Some? then Launched(Some(c), Safe, t.reason, fallbacks[t.admitted.value], queried + t.calls)
          else Launched(None, dest.where, t.reason, dest.region, queried + t.calls)
  }

  /** With no way to admit agents no request is made and the launch fails with an empty reason. */
  lemma LaunchWithoutConnector(svc: Services, cfg: Config, dest: Destination, account: Account, avatar: Option<Appearance>,
                               session: Uuid, secureSession: Uuid, nonces: Nonces, client: ClientInfo)
    requires svc.userAgent.None? && svc.localSimulation.None? && svc.remoteSimulation.None?
    ensures LaunchAgentAtGrid(svc, cfg, dest, account, avatar, session, secureSession, nonces, client)
      == Launched(None, dest.where, "", dest.region, [])
  {
  }

  /** The primary region is tried first; when it admits the agent, nothing else is tried and the reason is kept. */
  lemma LaunchPrimary(svc: Services, cfg: Config, dest: Destination, account: Account, avatar: Option<Appearance>,
                      session: Uuid, secureSession: Uuid, nonces: Nonces, client: ClientInfo)
    requires !SelectAdmission(svc, cfg, dest).NoAdmission?
    ensures var adm := SelectAdmission(svc, cfg, dest);
      var c := MakeAgent(cfg, account, avatar, session, secureSession, nonces, dest.position, client);
      var r := LaunchAgentAtGrid(svc, cfg, dest, account, avatar, session, secureSession, nonces, client);
      && |r.calls| >= 1 && r.calls[0] == AttemptCall(adm, c, dest.region)
      && (Attempt(adm, c, client.address, dest.region).0 ==>
            r == Launched(Some(c), dest.where, Attempt(adm, c, client.address, dest.region).1, dest.region, r.calls[..1]))
  {
  }

  /**
   * A refused primary with no grid service, or a grid that answers the fallback query with
   * no list: the launch fails at the primary with the primary's reason, after the primary
   * attempt and, when there is a grid, the one query.
   */
  lemma LaunchWithoutFallbacks(svc: Services, cfg: Config, dest: Destination, account: Account, avatar: Option<Appearance>,
                               session: Uuid, secureSession: Uuid, nonces: Nonces, client: ClientInfo)
    requires !SelectAdmission(svc, cfg, dest).NoAdmission?
    requires !Attempt(SelectAdmission(svc, cfg, dest), MakeAgent(cfg, account, avatar, session, secureSession, nonces, dest.position, client),
                      client.address, dest.region).0
    requires svc.grid.None? || svc.grid.value.fallbackRegions(account.scope, dest.region.locX, dest.region.locY).None?
    ensures var adm := SelectAdmission(svc, cfg, dest);
      var c := MakeAgent(cfg, account, avatar, session, secureSession, nonces, dest.position, client);
      var query := if svc.grid.Some? then [FallbackQuery(account.scope, dest.region.locX, dest.region.locY)] else [];
      LaunchAgentAtGrid(svc, cfg, dest, account, avatar, session, secureSession, nonces, client)
        == Launched(None, dest.where, Attempt(adm, c, client.address, dest.region).1, dest.region,
                    [AttemptCall(adm, c, dest.region)] + query)
  {
  }

  /** A refused primary with listed fallbacks: the launch's result is the fallback walk's, after two calls. */
  lemma FallbackShape(svc: Services, cfg: Config, dest: Destination, account: Account, avatar: Option<Appearance>,
                      session: Uuid, secureSession: Uuid, nonces: Nonces, client: ClientInfo, fallbacks: seq<Region>)
    requires !SelectAdmission(svc, cfg, dest).NoAdmission?
    requires !Attempt(SelectAdmission(svc, cfg, dest), MakeAgent(cfg, account, avatar, session, secureSession, nonces, dest.position, client),
                      client.address, dest.region).0
    requires svc.grid.Some?
    requires svc.grid.value.fallbackRegions(account.scope, dest.region.locX, dest.region.locY) == Some(fallbacks)
    ensures var adm := SelectAdmission(svc, cfg, dest);
      var c := MakeAgent(cfg, account, avatar, session, secureSession, nonces, dest.position, client);
      var t := TryRegions(adm, c, client.address, fallbacks, Attempt(adm, c, client.address, dest.region).1);
      var r := LaunchAgentAtGrid(svc, cfg, dest, account, avatar, session, secureSession, nonces, client);
      && r.calls == [AttemptCall(adm, c, dest.region), FallbackQuery(account.scope, dest.region.locX, dest.region.locY)] + t.calls
      && r.reason == t.reason
      && (r.circuit.Some? <==> t.admitted.Some?)
      && (t.admitted.Some? ==> r.region == fallbacks[t.admitted.value] && r.where == Safe)
      && (t.admitted.None? ==> r.region == dest.region && r.where == dest.where)
  {
  }

  /**
   * What a launch reports after a walk over the fallbacks that followed the primary attempt
   * and the fallback query: the walk's calls in list order, admission exactly when some
   * fallback admits, the first admitting region and its reason, or else every fallback
   * tried and the last reason heard (the primary's when there were none).
   */
  predicate FallbackReport(adm: Admission, c: Circuit, address: string, query: Call,
                           fallbacks: seq<Region>, why: string, r: Launched)
  {
    && !adm.NoAdmission?
    && 2 <= |r.calls| <= |fallbacks| + 2
    && r.calls[1] == query
    && (forall k :: 0 <= k < |r.calls| - 2 ==> r.calls[k + 2] == AttemptCall(adm, c, fallbacks[k]))
    && (r.circuit.Some? <==> exists k :: 0 <= k < |fallbacks| && Attempt(adm, c, address, fallbacks[k]).0)
    && (r.circuit.Some? ==>
          && |r.calls| >= 3
          && r.region == fallbacks[|r.calls| - 3]
          && r.reason == Attempt(adm, c, address, r.region).1
          && forall k :: 0 <= k < |r.calls| - 3 ==> !Attempt(adm, c, address, fallbacks[k]).0)
    && (r.circuit.None? ==>
          && |r.calls| == |fallbacks| + 2
          && r.reason == if |fallbacks| == 0 then why else Attempt(adm, c, address, fallbacks[|fallbacks| - 1]).1)
  }

  /** A launch result assembled from a walk over the fallbacks reports that walk. */
  lemma FallbackWalk(adm: Admission, c: Circuit, address: string, primary: Region, query: Call,
                     fallbacks: seq<Region>, why: string, t: Tried, r: Launched)
    requires !adm.NoAdmission?
    requires t == TryRegions(adm, c, address, fallbacks, why)
    requires r.calls == [AttemptCall(adm, c, primary), query] + t.calls
    requires r.reason == t.reason
    requires r.circuit.Some? <==> t.admitted.Some?
    requires t.admitted.Some? ==> r.region == fallbacks[t.admitted.value]
    ensures FallbackReport(adm, c, address, query, fallbacks, why, r)
  {
    FallbackCalls(adm, c, address, primary, query, fallbacks, why, t, r);
    assert |r.calls| == |t.calls| + 2;
    if t.admitted.Some? {
      FallbackAdmitted(adm, c, address, fallbacks, t, r);
      FallbackFirst(adm, c, address, fallbacks, why, t, r);
    } else {
      FallbackRefused(adm, c, address, fallbacks, why, t, r);
    }
  }

  /** The walk's calls follow the primary attempt and the query, one per fallback tried, in list order. */
  lemma FallbackCalls(adm: Admission, c: Circuit, address: string, primary: Region, query: Call,
                     fallbacks: seq<Region>, why: string, t: Tried, r: Launched)
    requires !adm.NoAdmission?
    requires t == TryRegions(adm, c, address, fallbacks, why)
    requires r.calls == [AttemptCall(adm, c, primary), query] + t.calls
    requires r.reason == t.reason
    requires r.circuit.Some? <==> t.admitted.Some?
    requires t.admitted.Some? ==> r.region == fallbacks[t.admitted.value]
    ensures 2 <= |r.calls| <= |fallbacks| + 2
    ensures r.calls[1] == query
    ensures forall k :: 0 <= k < |r.calls| - 2 ==> r.calls[k + 2] == AttemptCall(adm, c, fallbacks[k])
  {
    forall k | 0 <= k < |r.calls| - 2
      ensures r.calls[k + 2] == AttemptCall(adm, c, fallbacks[k])
    {
      assert r.calls[k + 2] == t.calls[k];
    }
  }

  /** An admitting walk ends at a fallback that admits, whose reason it reports. */
  lemma FallbackAdmitted(adm: Admission, c: Circuit, address: string,
                         fallbacks: seq<Region>, t: Tried, r: Launched)
    requires !adm.NoAdmission?
    requires t.admitted.Some? && t.admitted.value < |fallbacks|
    requires |t.calls| == t.admitted.value + 1
    requires Attempt(adm, c, address, fallbacks[t.admitted.value]).0
    requires t.reason == Attempt(adm, c, address, fallbacks[t.admitted.value]).1
    requires |r.calls| == |t.calls| + 2
    requires r.reason == t.reason
    requires r.region == fallbacks[t.admitted.value]
    ensures |r.calls| >= 3 && |r.calls| - 3 < |fallbacks|
    ensures r.region == fallbacks[|r.calls| - 3]
    ensures r.reason == Attempt(adm, c, address, r.region).1
    ensures exists k :: 0 <= k < |fallbacks| && Attempt(adm, c, address, fallbacks[k]).0
  {
    var i := t.admitted.value;
    assert Attempt(adm, c, address, fallbacks[i]).0;
  }

  /** No fallback before the one an admitting walk ends at admits. */
  lemma FallbackFirst(adm: Admission, c: Circuit, address: string,
                      fallbacks: seq<Region>, why: string, t: Tried, r: Launched)
    requires !adm.NoAdmission?
    requires t == TryRegions(adm, c, address, fallbacks, why)
    requires |r.calls| == |t.calls| + 2
    requires t.admitted.Some?
    ensures forall k :: 0 <= k < |r.calls| - 3 ==> !Attempt(adm, c, address, fallbacks[k]).0
  {
    assert |t.calls| == t.admitted.value + 1;
  }

  /** A walk where nothing admits tries every fallback and reports the last reason heard. */
  lemma FallbackRefused(adm: Admission, c: Circuit, address: string, 
                     fallbacks: seq<Region>, why: string, t: Tried, r: Launched)
    requires !adm.NoAdmission?
    requires t == TryRegions(adm, c, address, fallbacks, why)
    requires |r.calls| == |t.calls| + 2
    requires r.reason == t.reason
    requires r.circuit.Some? <==> t.admitted.Some?
    requires t.admitted.Some? ==> r.region == fallbacks[t.admitted.value]
    requires t.admitted.None?
    ensures |r.calls| == |fallbacks| + 2
    ensures r.reason == if |fallbacks| == 0 then why else Attempt(adm, c, address, fallbacks[|fallbacks| - 1]).1
    ensures !exists k :: 0 <= k < |fallbacks| && Attempt(adm, c, address, fallbacks[k]).0
  {
  }

  /**
   * When the primary region refuses and the grid lists fallbacks for the account's scope
   * at the primary's map location, the fallbacks are tried in list order with the same
   * circuit: the first that admits becomes the region with reason safe; if none admits,
   * the launch fails at the primary with the last reason reported.
   */
  lemma LaunchFallbacks(svc: Services, cfg: Config, dest: Destination, account: Account, avatar: Option<Appearance>,
                        session: Uuid, secureSession: Uuid, nonces: Nonces, client: ClientInfo, fallbacks: seq<Region>)
    requires !SelectAdmission(svc, cfg, dest).NoAdmission?
    requires !Attempt(SelectAdmission(svc, cfg, dest), MakeAgent(cfg, account, avatar, session, secureSession, nonces, dest.position, client),
                      client.address, dest.region).0
    requires svc.grid.Some?
    requires svc.grid.value.fallbackRegions(account.scope, dest.region.locX, dest.region.locY) == Some(fallbacks)
    ensures var adm := SelectAdmission(svc, cfg, dest);
      var c := MakeAgent(cfg, account, avatar, session, secureSession, nonces, dest.position, client);
      var r := LaunchAgentAtGrid(svc, cfg, dest, account, avatar, session, secureSession, nonces, client);
      && FallbackReport(adm, c, client.address, FallbackQuery(account.scope, dest.region.locX, dest.region.locY),
                        fallbacks, Attempt(adm, c, client.address, dest.region).1, r)
      && (r.circuit.Some? ==> r.where == Safe)
      && (r.circuit.None? ==> r.region == dest.region && r.where == dest.where)
  {
    var adm := SelectAdmission(svc, cfg, dest);
    var c := MakeAgent(cfg, account, avatar, session, secureSession, nonces, dest.position, client);
    var t := TryRegions(adm, c, client.address, fallbacks, Attempt(adm, c, client.address, dest.region).1);
    var r := LaunchAgentAtGrid(svc, cfg, dest, account, avatar, session, secureSession, nonces, client);
    FallbackShape(svc, cfg, dest, account, avatar, session, secureSession, nonces, client, fallbacks);
    FallbackWalk(adm, c, client.address, dest.region, FallbackQuery(account.scope, dest.region.locX, dest.region.locY),
                 fallbacks, Attempt(adm, c, client.address, dest.region).1, t, r);
  }
}
