/**
 * The destination resolver: turns the start-location token and the stored user state
 * into one region, an arrival reason, a position and a look-at direction, falling back to
 * the grid's default regions and then to a by-name search. Foreign regions are linked
 * through the gatekeeper handshake.
 */
module Destinations {
  import opened Wrappers
  import opened Uuids
  import opened LoginTypes
  import opened StartLocation

  /** Where the resolver sends the agent; `gatekeeper` is set for a foreign region. */
  datatype Destination = Destination(
    region: Region, where: Where, position: Vec3, lookAt: Vec3, gatekeeper: Option<Region>)

  /**
   * The resolver's outcome: a destination, no destination (null), or the FormatException
   * that float.Parse("") raises when a custom token does not match the pattern.
   */
  datatype Resolution = Resolved(dest: Destination) | Unresolved | ParseFailure

  /** The outcome together with the gatekeeper calls made on the way. */
  datatype Lookup = Lookup(resolution: Resolution, calls: seq<Call>)

  const DefaultPosition: Vec3 := Vec3(128, 128, 0)
  const DefaultLookAt: Vec3 := Vec3(0, 1, 0)

  /** The first region of a possibly null, possibly empty list. */
  function FirstRegion(regions: Option<seq<Region>>): (r: Option<Region>)
    ensures r.Some? <==> regions.Some? && |regions.value| > 0
    ensures r.Some? ==> r.value == regions.value[0]
  {
    if regions.Some? && |regions.value| > 0 then Some(regions.value[0]) else None
  }

  /** The first default region, or else the first region of an unrestricted name search. */
  function SafeRegion(grid: GridBackend, scope: Uuid): Option<Region>
  {
    match FirstRegion(grid.defaultRegions(scope))
    case Some(r) => Some(r)
    case None => FirstRegion(grid.regionsByName(scope, "", 1))
  }

  /**
   * Links a foreign region: builds the provisional gatekeeper descriptor for
   * (host, port, region name), runs link-region on it, and on success fetches the
   * hyperlinked region by the id it returned.
   */
  function FindForeignRegion(gk: GatekeeperBackend, host: string, port: nat, name: string): (r: (Option<Region>, Region))
    ensures r.1.host == host && r.1.port == port && r.1.name == name && r.1.id == Zero
    ensures r.0.Some? <==> gk.linkRegion(r.1).Some? && gk.hyperlinkRegion(r.1, gk.linkRegion(r.1).value).Some?
    ensures r.0.Some? ==> r.0 == gk.hyperlinkRegion(r.1, gk.linkRegion(r.1).value)
  {
    var gatekeeper := Region(Zero, name, host, port, 0, 0);
    match gk.linkRegion(gatekeeper)
    case Some(id) => (gk.hyperlinkRegion(gatekeeper, id), gatekeeper)
    case None => (None, gatekeeper)
  }

  /** The safe-tier destination at the default position, if the tier finds a region. */
  function SafeDestination(grid: GridBackend, scope: Uuid): Resolution
  {
    match SafeRegion(grid, scope)
    case Some(r) => Resolved(Destination(r, Safe, DefaultPosition, DefaultLookAt, None))
    case None => Unresolved
  }

  /** Resolves a custom token whose pattern matched. */
  function FindCustom(svc: Services, grid: GridBackend, scope: Uuid, m: UriMatch): Lookup
  {
    if '@' !in m.region then
      match FirstRegion(grid.regionsByName(scope, m.region, 1))
      case Some(r) => Lookup(Resolved(Destination(r, Url, m.position, DefaultLookAt, None)), [])
      case None =>
        match FirstRegion(grid.defaultRegions(scope))
        case Some(r) => Lookup(Resolved(Destination(r, Safe, m.position, DefaultLookAt, None)), [])
        case None => Lookup(Unresolved, [])
    else if svc.userAgent.None? then Lookup(Unresolved, [])
    else
      match SplitForeign(m.region)
      case None => Lookup(Unresolved, [])
      case Some(f) =>
        var (region, gatekeeper) := FindForeignRegion(svc.gatekeeper, f.host, f.port, f.region);
        var calls := [LinkRegion(gatekeeper)];
        match region
        case Some(r) => Lookup(Resolved(Destination(r, Url, m.position, DefaultLookAt, Some(gatekeeper))), calls)
        case None => Lookup(Unresolved, calls)
  }

  /**
   * FindDestination: resolves `start` for a user in `scope` with stored state `info` and
   * already-resolved home region `home`. Without a grid service nothing resolves.
   */
  function FindDestination(svc: Services, scope: Uuid, info: Option<UserInfo>, start: string, home: Option<Region>): (r: Lookup)
    ensures svc.grid.None? ==> r == Lookup(Unresolved, [])
    ensures r.resolution.ParseFailure? <==> svc.grid.Some? && ParseStart(start) == Custom(None)
    ensures r.resolution.Resolved? ==>
      (r.resolution.dest.gatekeeper.Some? <==> ParseStart(start).Custom? && '@' in ParseStart(start).uri.value.region)
    ensures forall i :: 0 <= i < |r.calls| ==> r.calls[i].LinkRegion?
    ensures |r.calls| <= 1
  {
    if svc.grid.None? then Lookup(Unresolved, [])
    else
      var grid := svc.grid.value;
      match ParseStart(start)
      case HomeToken =>
        if info.None? then Lookup(Unresolved, [])
        else if home.Some? then
          Lookup(Resolved(Destination(home.value, Home, info.value.homePosition, info.value.homeLookAt, None)), [])
        else Lookup(SafeDestination(grid, scope), [])
      case LastToken =>
        if info.None? then Lookup(Unresolved, [])
        else if info.value.lastRegion == Zero || grid.regionById(scope, info.value.lastRegion).None? then
          Lookup(SafeDestination(grid, scope), [])
        else
          var r := grid.regionById(scope, info.value.lastRegion).value;
          Lookup(Resolved(Destination(r, Last, info.value.lastPosition, info.value.lastLookAt, None)), [])
      case Custom(None) => Lookup(ParseFailure, [])
      case Custom(Some(m)) => FindCustom(svc, grid, scope, m)
  }

  /** The safe tier yields the first default region, else the first by-name region, else nothing. */
  lemma SafeTier(grid: GridBackend, scope: Uuid)
    ensures var d := grid.defaultRegions(scope); var n := grid.regionsByName(scope, "", 1);
      SafeDestination(grid, scope) ==
        if d.Some? && |d.value| > 0 then Resolved(Destination(d.value[0], Safe, DefaultPosition, DefaultLookAt, None))
        else if n.Some? && |n.value| > 0 then Resolved(Destination(n.value[0], Safe, DefaultPosition, DefaultLookAt, None))
        else Unresolved
  {
  }

  /** "home" with a resolved home region goes there, with the stored home position and look-at. */
  lemma HomeResolved(svc: Services, scope: Uuid, info: UserInfo, home: Region)
    requires svc.grid.Some?
    ensures FindDestination(svc, scope, Some(info), "home", Some(home)).resolution
      == Resolved(Destination(home, Home, info.homePosition, info.homeLookAt, None))
  {
  }

  /** "home" without a home region uses the safe tier; it resolves to nothing only when both tiers are empty. */
  lemma HomeFallsBack(svc: Services, scope: Uuid, info: UserInfo)
    requires svc.grid.Some?
    ensures FindDestination(svc, scope, Some(info), "home", None).resolution == SafeDestination(svc.grid.value, scope)
    ensures FindDestination(svc, scope, Some(info), "home", None).resolution.Unresolved? <==>
      SafeRegion(svc.grid.value, scope).None?
  {
  }

  /** "last" with a non-zero, resolvable last region goes there with the stored last position and look-at. */
  lemma LastResolved(svc: Services, scope: Uuid, info: UserInfo, home: Option<Region>)
    requires svc.grid.Some? && info.lastRegion != Zero
    requires svc.grid.value.regionById(scope, info.lastRegion).Some?
    ensures FindDestination(svc, scope, Some(info), "last", home).resolution
      == Resolved(Destination(svc.grid.value.regionById(scope, info.lastRegion).value, Last,
                              info.lastPosition, info.lastLookAt, None))
  {
  }

  /** "last" with no usable last region uses the safe tier, whatever the home region is. */
  lemma LastFallsBack(svc: Services, scope: Uuid, info: UserInfo, home: Option<Region>)
    requires svc.grid.Some?
    requires info.lastRegion == Zero || svc.grid.value.regionById(scope, info.lastRegion).None?
    ensures FindDestination(svc, scope, Some(info), "last", home).resolution == SafeDestination(svc.grid.value, scope)
  {
  }

  /**
   * A local custom location (no '@') goes to the first by-name hit with reason url; on a
   * miss only the default regions are tried (reason safe). The position is the token's
   * in every case.
   */
  lemma LocalUri(svc: Services, scope: Uuid, info: Option<UserInfo>, home: Option<Region>, region: string, p: Vec3)
    requires svc.grid.Some? && |region| > 0 && '&' !in region && '@' !in region
    ensures var grid := svc.grid.value;
      var byName := FirstRegion(grid.regionsByName(scope, region, 1));
      var defaults := FirstRegion(grid.defaultRegions(scope));
      FindDestination(svc, scope, info, UriText(region, p), home) ==
        if byName.Some? then Lookup(Resolved(Destination(byName.value, Url, p, DefaultLookAt, None)), [])
        else if defaults.Some? then Lookup(Resolved(Destination(defaults.value, Safe, p, DefaultLookAt, None)), [])
        else Lookup(Unresolved, [])
  {
    MatchUriText(region, p);
  }

  /**
   * A foreign custom location `name@host:port` links exactly (host, port, name) through
   * the gatekeeper when a user-agent service is configured, and resolves to nothing
   * without one.
   */
  lemma ForeignUri(svc: Services, scope: Uuid, info: Option<UserInfo>, home: Option<Region>,
                   name: string, host: string, port: nat, p: Vec3)
    requires svc.grid.Some?
    requires '&' !in name && '&' !in host && '@' !in name && '@' !in host && ':' !in host
    requires port <= Numerals.UInt32Max
    ensures var r := FindDestination(svc, scope, info, UriText(name + "@" + host + ":" + Numerals.NatText(port), p), home);
      var gatekeeper := Region(Zero, name, host, port, 0, 0);
      var linked := FindForeignRegion(svc.gatekeeper, host, port, name).0;
      if svc.userAgent.None? then r == Lookup(Unresolved, [])
      else
        && r.calls == [LinkRegion(gatekeeper)]
        && (linked.Some? ==> r.resolution == Resolved(Destination(linked.value, Url, p, DefaultLookAt, Some(gatekeeper))))
        && (linked.None? ==> r.resolution == Unresolved)
  {
    var region := name + "@" + host + ":" + Numerals.NatText(port);
    assert '&' !in Numerals.NatText(port);
    assert '&' !in region;
    assert '@' in region by { assert region[|name|] == '@'; }
    MatchUriText(region, p);
    SplitForeignWithPort(name, host, port);
  }

  /** A custom token that does not match the pattern raises, provided a grid service exists. */
  lemma MalformedRaises(svc: Services, scope: Uuid, info: Option<UserInfo>, start: string, home: Option<Region>)
    requires svc.grid.Some? && start != "home" && start != "last" && MatchUri(start).None?
    ensures FindDestination(svc, scope, info, start, home) == Lookup(ParseFailure, [])
  {
  }
}
