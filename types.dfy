/** The data held by one run of the end-to-end suite: the scenario catalog, the
    rate-limit policy, the users provisioned from the catalog, the interaction
    records written to the personal store and the pacing pauses between them. */
module Types {

  datatype Option<+T> = None | Some(value: T)

  function Min(a: nat, b: nat): nat
  {
    if a <= b then a else b
  }

  /** One simulated end user of the scenario catalog; never changed after load. */
  datatype ScenarioUser = ScenarioUser(
    name: string,
    email: string,
    phone: string,
    healthForm: string,
    demoMessages: seq<string>)

  /** A catalog user once the agent-assignment collaborator has registered it:
      the roster entry the suite appends to `users`. */
  datatype ProvisionedUser = ProvisionedUser(
    name: string,
    userId: string,
    agentId: string,
    email: string,
    demoMessages: seq<string>)

  /** The four pacing constants of `RATE_LIMITS` (seconds, and a message cap). */
  datatype RateLimits = RateLimits(
    delayBetweenMessages: nat,
    delayBetweenUsers: nat,
    backendProcessingWait: nat,
    maxMessagesPerUser: nat)

  const DefaultRateLimits := RateLimits(8, 15, 30, 5)

  /** The fixed wait for the background workers to start, before any message is written. */
  const BackendStartupWait: nat := 10

  /** The acknowledgement every injected interaction carries as model output. */
  const Acknowledgement := "I understand and will note this in your profile."

  /** One row of the personal store's interaction table. The identifier stands
      for a fresh uuid4; the creation timestamp is not modelled. */
  datatype Interaction = Interaction(
    id: nat,
    userId: string,
    agentId: string,
    input: string,
    output: string,
    processed: bool)

  /** Which `asyncio.sleep` a pause comes from. */
  datatype PauseKind = BackendStartup | BetweenMessages | BetweenUsers | BackendProcessing

  /** What the suite does to the outside world, in order: a committed store
      write, or a pacing pause of a number of seconds. */
  datatype Event = Write(record: Interaction) | Pause(kind: PauseKind, seconds: nat)

  const Alice := ScenarioUser(
    "Alice", "alice.johnson@example.com", "+1234567890",
    "I am health-conscious and have a severe dairy allergy. I prefer organic foods and eat three balanced meals daily. I avoid processed foods and artificial sweeteners.",
    ["I feel bloated after eating dairy products",
     "I love eating fresh fruits and vegetables",
     "I prefer gluten-free options when available",
     "I drink lots of water throughout the day",
     "I avoid processed and packaged foods"])

  const Bob := ScenarioUser(
    "Bob", "bob.smith@example.com", "+1234567891",
    "I'm a busy professional who often skips breakfast. I'm lactose intolerant and love spicy food but it gives me heartburn. I usually eat lunch at my desk.",
    ["I usually skip breakfast due to my work schedule",
     "I'm lactose intolerant and avoid milk products",
     "I love spicy food but it gives me heartburn",
     "I often eat lunch at my desk around 1pm",
     "I drink too much coffee during work hours"])

  const Charlie := ScenarioUser(
    "Charlie", "charlie.brown@example.com", "+1234567892",
    "I'm a vegetarian fitness enthusiast who meal preps on Sundays. I eat five small meals throughout the day and avoid sugar. I have acid reflux issues.",
    ["I eat five small meals throughout the day",
     "I'm vegetarian and love plant-based proteins",
     "I meal prep on Sundays for the whole week",
     "I avoid sugar as much as possible",
     "I have acid reflux issues with certain foods"])

  /** `USER_DATA`: the scenario catalog, in roster order. */
  const Catalog: seq<ScenarioUser> := [Alice, Bob, Charlie]

  /** The roster entry built from a catalog user and the identifiers the
      agent-assignment collaborator returned for it. */
  function Provision(s: ScenarioUser, userId: string, agentId: string): ProvisionedUser
  {
    ProvisionedUser(s.name, userId, agentId, s.email, s.demoMessages)
  }

  /** No two roster users share a user id. */
  predicate DistinctIds(users: seq<ProvisionedUser>)
  {
    forall a, b :: 0 <= a < b < |users| ==> users[a].userId != users[b].userId
  }
}
