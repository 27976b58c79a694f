/**
 * The entities the login service works with: accounts, stored user state, regions,
 * circuit descriptors, the service's settings and its backends. Every backend is an
 * oracle (a total function, or an optional one when the service may be unconfigured);
 * an `Option` result stands for a null reference coming back from a backend.
 */
module LoginTypes {
  import opened Wrappers
  import opened Uuids

  /** A position or direction; the model keeps whole-number coordinates only. */
  datatype Vec3 = Vec3(x: nat, y: nat, z: nat)

  /** A region of the grid (GridRegion): identity, address and map location. */
  datatype Region = Region(id: Uuid, name: string, host: string, port: nat, locX: int, locY: int)

  /**
   * A user account. `serviceUrls` is the per-service URL table: a null table is `None`,
   * and a null value in it is `None` (a present value is the text its ToString gives).
   */
  datatype Account = Account(
    principal: Uuid, firstName: string, lastName: string, scope: Uuid, userLevel: int,
    serviceUrls: Option<map<string, Option<string>>>)

  /** The stored home and last-visited state of a user (GridUserInfo). */
  datatype UserInfo = UserInfo(
    homeRegion: Uuid, homePosition: Vec3, homeLookAt: Vec3,
    lastRegion: Uuid, lastPosition: Vec3, lastLookAt: Vec3)

  /** The arrival reason shown to the client: "home", "last", "safe" or "url". */
  datatype Where = Home | Last | Safe | Url

  /** An avatar appearance; the fresh appearance of an account is modelled as its owner with no wearables. */
  datatype Appearance = Appearance(owner: Uuid, wearables: seq<Uuid>)

  /** What the client says about itself, and the address it connects from. */
  datatype ClientInfo = ClientInfo(viewer: string, channel: string, mac: string, id0: string, address: string)

  /** The circuit descriptor (AgentCircuitData) a simulator admits the agent with. */
  datatype Circuit = Circuit(
    agent: Uuid, appearance: Appearance, capsPath: string, child: bool, circuitCode: nat,
    firstName: string, lastName: string, secureSession: Uuid, session: Uuid, startPosition: Vec3,
    address: string, viewer: string, channel: string, mac: string, id0: string,
    serviceUrls: map<string, string>)

  /** The values a login draws at random: session id, circuit code, capability path. */
  datatype Nonces = Nonces(session: Uuid, circuitCode: nat, capsPath: string)

  /** The runtime-adjustable settings: minimum login level and welcome text. */
  datatype Settings = Settings(minLoginLevel: int, welcome: string)

  /**
   * The login service's fixed configuration. `gatekeeperHost`/`gatekeeperPort` are the
   * host and port parsed from the GatekeeperURI setting; `entries` holds the
   * [LoginService] section's settings by key.
   */
  datatype Config = Config(
    requireInventory: bool, allowRemoteSetLoginLevel: bool,
    gatekeeperHost: string, gatekeeperPort: nat, entries: map<string, string>)

  /** The backend calls whose order and count the model tracks. */
  datatype Call =
    | Authenticate(principal: Uuid, secret: string)
    | PresenceLogin(principal: Uuid, session: Uuid, secureSession: Uuid, accepted: bool)
    | PresenceLogout(session: Uuid)
    | LinkRegion(gatekeeper: Region)
    | FallbackQuery(scope: Uuid, x: int, y: int)
    | CreateAgent(region: Region, circuit: Circuit)
    | LoginAgentToGrid(gatekeeper: Region, region: Region, circuit: Circuit)

  /** A call that asks a simulator, directly or through a gatekeeper, to admit the agent. */
  predicate IsAdmission(c: Call) { c.CreateAgent? || c.LoginAgentToGrid? }

  /** A call to the gatekeeper, the region directory's fallback list or a simulator. */
  predicate IsRegionCall(c: Call) {
    c.LinkRegion? || c.FallbackQuery? || c.CreateAgent? || c.LoginAgentToGrid?
  }

  /** The region directory: by id, by name (with a result limit), defaults and fallbacks. */
  datatype GridBackend = GridBackend(
    regionById: (Uuid, Uuid) -> Option<Region>,
    regionsByName: (Uuid, string, int) -> Option<seq<Region>>,
    defaultRegions: Uuid -> Option<seq<Region>>,
    fallbackRegions: (Uuid, int, int) -> Option<seq<Region>>)

  /** The gatekeeper handshake: link-region yields a region id on success. */
  datatype GatekeeperBackend = GatekeeperBackend(
    linkRegion: Region -> Option<Uuid>,
    hyperlinkRegion: (Region, Uuid) -> Option<Region>)

  datatype InventoryBackend = InventoryBackend(
    skeleton: Uuid -> Option<seq<Uuid>>,
    activeGestures: Uuid -> Option<seq<Uuid>>)

  datatype PresenceBackend = PresenceBackend(login: (Uuid, Uuid, Uuid) -> bool)

  /** create-agent(region, circuit) with the via-login teleport flag: success and reason. */
  datatype SimulationBackend = SimulationBackend(createAgent: (Region, Circuit) -> (bool, string))

  /** login-agent-to-grid(circuit, gatekeeper, destination, client address): success and reason. */
  datatype UserAgentBackend = UserAgentBackend(loginAgentToGrid: (Circuit, Region, Region, string) -> (bool, string))

  /**
   * Every collaborator of the login service. `accounts` looks up by (scope, first, last);
   * `authenticate` issues a token for (principal, secret, lifetime); `parseUuid` is
   * UUID.TryParse; `md5` is the hex MD5 digest.
   */
  datatype Services = Services(
    accounts: (Uuid, string, string) -> Option<Account>,
    authenticate: (Uuid, string, int) -> string,
    parseUuid: string -> Option<Uuid>,
    md5: string -> string,
    inventory: Option<InventoryBackend>,
    presence: Option<PresenceBackend>,
    gridUser: Option<Uuid -> Option<UserInfo>>,
    grid: Option<GridBackend>,
    avatars: Option<Uuid -> Option<Appearance>>,
    friends: Option<Uuid -> Option<seq<Uuid>>>,
    localSimulation: Option<SimulationBackend>,
    remoteSimulation: Option<SimulationBackend>,
    userAgent: Option<UserAgentBackend>,
    gatekeeper: GatekeeperBackend)

  /** The lifetime, in minutes, of the authentication tokens the service asks for. */
  const TokenLifetime: int := 30
}
