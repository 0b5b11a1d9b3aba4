/** `ComprehensiveEndToEndTestSuite`: the run state (outcome ledger, roster,
    group data, background tasks, the personal interaction store) and the
    eight phases, cleanup and the orchestrator that drive it. Every answer of
    a collaborator or a store is an input, gathered in a `World`. */
module Suite {
  import opened Types
  import opened Ledger
  import opened Report
  import opened Scheduler
  import opened Probes
  import opened Groups
  import opened Supervisor

  const ResetPhase := "database_reset"
  const OnboardingPhase := "user_onboarding_detailed"
  const AgentsPhase := "personal_agent_assignment"
  const InteractionsPhase := "parallel_interactions_rate_limited"
  const VerificationPhase := "backend_processing_verification"
  const ProbesPhase := "error_scenarios_edge_cases"
  const GroupOnboardingPhase := "group_onboarding_comprehensive"
  const DirectGroupPhase := "group_creation_direct"

  /** The message templates each phase logs, kept unrendered (the `{...}`
      placeholders are the source's f-string fields). */
  const ResetPassed := "All 4 databases reset and verified"
  const ResetFailed := "Database reset failed: {e}"
  const OnboardingPassed := "All {len(self.USER_DATA)} users onboarded with sessions"
  const OnboardingFailed := "User onboarding failed: {e}"
  const AgentsPassed := "All {len(self.users)} users assigned personal agents"
  const AgentsFailed := "Personal agent assignment failed: {e}"
  const InteractionsPassed := "Processed {total_interactions} interactions with rate limiting"
  const InteractionsFailed := "Parallel interactions failed: {e}"
  const VerificationPassed := "Verified processing: {personas_updated} personas, {calendar_entries} calendar entries"
  const VerificationFailed := "Backend verification failed: {e}"
  const ProbesPassed := "Passed {error_tests_passed}/{total_error_tests} error scenario tests"
  const GroupOnboardingPassed := "Group onboarding session created with all users"
  const GroupOnboardingFailed := "Group onboarding failed: {e}"
  const DirectPassed := "Group created with all {len(members)} members"
  const DirectShort := "Group created but only {len(members)}/{len(self.users)} members added"
  const DirectFailed := "Direct group creation failed: {e}"

  /** The ledger keys in the order the orchestrator runs the phases. */
  const PhaseNames: seq<string> := [ResetPhase, OnboardingPhase, AgentsPhase, InteractionsPhase,
                                    VerificationPhase, ProbesPhase, GroupOnboardingPhase, DirectGroupPhase]

  /** How far the four schema resets got (4 when none raised), and whether
      the table listing that follows them completed. */
  datatype ResetReply = ResetReply(schemasReset: nat, listingOk: bool)

  /** One user's onboarding: a raise, no new session row, or a new session row. */
  datatype OnboardReply = OnboardRaised | NoSession | SessionCreated

  /** Registering one catalog user: the registration raises, or it returns
      the identifiers, after which the user is appended to the roster and
      checked. `inStore` says whether that check lets the phase go on: it
      is false when the user row is missing from the store and also when
      the user query or the persona query raises; either way the phase then
      fails with this user already on the roster. */
  datatype AgentReply = AgentRaised | AgentCreated(userId: string, agentId: string, inStore: bool)

  /** `create_group` of the onboarding service and the session count around it. */
  datatype GroupOnboardReply = GroupRaised | NoGroupSession | GroupSessionCreated(row: Option<SessionRow>)

  /** What the group service answers to creating the group, and then to
      listing its members (`None` when the listing raises). */
  datatype DirectReply = CreateRaised | GroupCreated(groupId: string, members: Option<seq<Member>>)

  /** Every answer the outside world gives during one run. A collaborator's
      answer is a function of the arguments it is called with. */
  datatype World = World(
    reset: ResetReply,
    onboarding: ScenarioUser -> OnboardReply,
    agents: ScenarioUser -> AgentReply,
    reaction: ProvisionedUser -> Reaction,
    failAt: Option<nat>,
    readBackOk: bool,
    verificationOk: bool,
    personaUpdated: ProvisionedUser -> bool,
    calendarEntries: nat,
    duplicate: DuplicateReply,
    invalidCommitOk: bool,
    connect: nat -> bool,
    largeCommitOk: bool,
    groupOnboarding: GroupOnboardReply,
    direct: DirectReply,
    addReply: ProvisionedUser -> AddReply)

  /** Every catalog user gets a new onboarding session. */
  predicate AllOnboarded(catalog: seq<ScenarioUser>, reply: ScenarioUser -> OnboardReply)
  {
    forall k :: 0 <= k < |catalog| ==> reply(catalog[k]) == SessionCreated
  }

  /** The roster entries agent assignment appends: one per catalog user in
      order, stopping at the first raising registration (nothing appended
      for it) or at the first user whose check fails (appended, then the
      phase stops). */
  function Assigned(catalog: seq<ScenarioUser>, reply: ScenarioUser -> AgentReply): seq<ProvisionedUser>
  {
    if catalog == [] then []
    else match reply(catalog[0])
      case AgentRaised => []
      case AgentCreated(userId, agentId, inStore) =>
        [Provision(catalog[0], userId, agentId)] + (if inStore then Assigned(catalog[1..], reply) else [])
  }

  /** `Assigned` from catalog position `k` on, unfolded once. */
  lemma AssignedStep(catalog: seq<ScenarioUser>, reply: ScenarioUser -> AgentReply, k: nat)
    requires k < |catalog|
    ensures reply(catalog[k]).AgentRaised? ==> Assigned(catalog[k..], reply) == []
    ensures reply(catalog[k]).AgentCreated? ==>
      (Assigned(catalog[k..], reply)
       == [Provision(catalog[k], reply(catalog[k]).userId, reply(catalog[k]).agentId)]
          + (if reply(catalog[k]).inStore then Assigned(catalog[k + 1..], reply) else []))
  {
    assert catalog[k..][0] == catalog[k] && catalog[k..][1..] == catalog[k + 1..];
  }

  /** Every catalog user is registered and found in the store. */
  predicate AllAssigned(catalog: seq<ScenarioUser>, reply: ScenarioUser -> AgentReply)
  {
    forall k :: 0 <= k < |catalog| ==> reply(catalog[k]).AgentCreated? && reply(catalog[k]).inStore
  }

  /** The appended entries follow the catalog: at most one per catalog user,
      the k-th for the k-th catalog user with the identifiers it was given,
      and all of them exactly when assignment fully succeeds. */
  lemma {:induction false} AssignedFollowsCatalog(catalog: seq<ScenarioUser>, reply: ScenarioUser -> AgentReply)
    ensures |Assigned(catalog, reply)| <= |catalog|
    ensures forall k :: 0 <= k < |Assigned(catalog, reply)| ==>
      reply(catalog[k]).AgentCreated?
      && Assigned(catalog, reply)[k] == Provision(catalog[k], reply(catalog[k]).userId, reply(catalog[k]).agentId)
    ensures AllAssigned(catalog, reply) ==> |Assigned(catalog, reply)| == |catalog|
  {
    if catalog != [] && reply(catalog[0]).AgentCreated? && reply(catalog[0]).inStore {
      AssignedFollowsCatalog(catalog[1..], reply);
      assert forall k :: 1 <= k < |catalog| ==> catalog[1..][k - 1] == catalog[k];
    }
  }

  /** With the shipped catalog fully registered and the shipped limits, the
      interaction phase commits 15 rows (five per user, none cut by the cap)
      and pauses 12 times between messages and twice between users. */
  lemma DefaultSchedule(reply: ScenarioUser -> AgentReply, firstId: nat)
    requires AllAssigned(Catalog, reply)
    ensures |Writes(Plan(Assigned(Catalog, reply), DefaultRateLimits, firstId))| == 15
    ensures Pauses(Plan(Assigned(Catalog, reply), DefaultRateLimits, firstId), BetweenMessages) == 12
    ensures Pauses(Plan(Assigned(Catalog, reply), DefaultRateLimits, firstId), BetweenUsers) == 2
  {
    var users := Assigned(Catalog, reply);
    AssignedFollowsCatalog(Catalog, reply);
    assert |users| == 3;
    forall k | 0 <= k < 3
      ensures |users[k].demoMessages| == 5
    {
      assert users[k].demoMessages == Catalog[k].demoMessages;
    }
    UniformRoster(users, DefaultRateLimits.maxMessagesPerUser, 5);
    PlanWritesFollowRoster(users, DefaultRateLimits, firstId);
    PlanPacing(users, DefaultRateLimits, firstId);
  }

  /** As written, onboarding stores a failed line for the shipped catalog,
      and a ledger holding that line never reaches the top readiness tier. */
  lemma AsWrittenOnboardingRulesOutExcellent(l: seq<Entry>)
    requires Lookup(l, OnboardingPhase)
             == Some(StatusLine(Catalog == [], if Catalog == [] then OnboardingPassed else OnboardingFailed))
    ensures Summarize(l).failed >= 1 && Summarize(l).readiness != Excellent
  {
    FailedEntryRulesOutExcellent(l, OnboardingPhase);
  }

  /** The read-back total of the users whose persona has data. */
  function UpdatedPersonas(users: seq<ProvisionedUser>, updated: ProvisionedUser -> bool): (n: nat)
    ensures n <= |users|
  {
    if users == [] then 0
    else UpdatedPersonas(users[..|users| - 1], updated) + (if updated(users[|users| - 1]) then 1 else 0)
  }

  /** The replies of the add calls for a roster, in order. */
  function AddReplies(users: seq<ProvisionedUser>, reply: ProvisionedUser -> AddReply): (rs: seq<AddReply>)
    ensures |rs| == |users| && forall k :: 0 <= k < |users| ==> rs[k] == reply(users[k])
  {
    if users == [] then [] else [reply(users[0])] + AddReplies(users[1..], reply)
  }

  /** The direct group phase gets as far as the member listing: there is a
      roster, the group is created, no add raises and the listing answers. */
  predicate Listed(users: seq<ProvisionedUser>, reply: DirectReply, addReply: ProvisionedUser -> AddReply)
  {
    users != [] && reply.GroupCreated? && AddRaised !in AddReplies(users, addReply) && reply.members.Some?
  }

  /** Stored rows carry identifiers below `issued`, pairwise distinct. */
  predicate FreshIds(store: seq<Interaction>, issued: nat)
  {
    (forall k :: 0 <= k < |store| ==> store[k].id < issued)
    && forall a, b :: 0 <= a < b < |store| ==> store[a].id != store[b].id
  }

  lemma AppendFresh(store: seq<Interaction>, issued: nat, rows: seq<Interaction>)
    requires FreshIds(store, issued) && IdsFrom(rows, issued)
    ensures FreshIds(store + rows, issued + |rows|)
  {
    var s := store + rows;
    forall a, b | 0 <= a < b < |s|
      ensures s[a].id != s[b].id
    {
      if b >= |store| {
        assert s[b] == rows[b - |store|];
        if a >= |store| {
          assert s[a] == rows[a - |store|];
        }
      }
    }
  }

  /** Phase `j` extends a ledger holding exactly the earlier phases' keys
      with its own key, at the end. */
  lemma NextPhase(before: seq<Entry>, j: nat, after: seq<Entry>)
    requires j < |PhaseNames| && Names(before) == PhaseNames[..j]
    requires Names(after) == if PhaseNames[j] in Names(before) then Names(before) else Names(before) + [PhaseNames[j]]
    ensures Names(after) == PhaseNames[..j + 1]
  {
    PhaseNamesDistinct();
    assert PhaseNames[j] !in PhaseNames[..j];
    assert PhaseNames[..j + 1] == PhaseNames[..j] + [PhaseNames[j]];
  }

  /** The eight ledger keys differ from one another. */
  lemma PhaseNamesDistinct()
    ensures Distinct(PhaseNames)
  {
  }

  lemma AppendAssoc<T>(a: seq<T>, b: seq<T>, c: seq<T>)
    ensures a + b + c == a + (b + c)
  {
  }

  /** How many phases run before an interruption delivered at the entry of
      phase `k` (all eight when there is none). */
  function PhasesRun(interruptAt: Option<nat>): nat
  {
    if interruptAt.None? then |PhaseNames| else Min(interruptAt.value, |PhaseNames|)
  }

  /** Whether phase `j` records a pass, given the world's answers, the
      roster the phase finds, the catalog and the rate limits. */
  predicate PhasePasses(w: World, j: nat, users: seq<ProvisionedUser>, catalog: seq<ScenarioUser>,
                        limits: RateLimits)
  {
    if j == 0 then w.reset.schemasReset >= 4 && w.reset.listingOk
    else if j == 1 then AllOnboarded(catalog, w.onboarding)
    else if j == 2 then AllAssigned(catalog, w.agents)
    else if j == 3 then
      users != [] && w.readBackOk && (w.failAt.None? || w.failAt.value >= KeptTotal(users, limits.maxMessagesPerUser))
    else if j == 4 then w.verificationOk
    else if j == 5 then true
    else if j == 6 then |users| >= MinGroupUsers && w.groupOnboarding.GroupSessionCreated?
    else Listed(users, w.direct, w.addReply) && MembershipComplete(w.direct.members.value, users)
  }

  /** The roster phase `j` finds, starting from `u0`: agent assignment
      (phase 2) appends the users it registers, no other phase changes it. */
  function RosterAt(u0: seq<ProvisionedUser>, catalog: seq<ScenarioUser>, agents: ScenarioUser -> AgentReply,
                    j: nat): seq<ProvisionedUser>
  {
    if j <= 2 then u0 else u0 + Assigned(catalog, agents)
  }

  /** The ledger holds a line for phase `k`, and that line is a pass
      exactly when the phase's pass condition holds. */
  predicate Reports(l: seq<Entry>, w: World, k: nat, users: seq<ProvisionedUser>, catalog: seq<ScenarioUser>,
                    limits: RateLimits)
  {
    k < |PhaseNames| && Lookup(l, PhaseNames[k]).Some?
    && (IsPass(Lookup(l, PhaseNames[k]).value) <==> PhasePasses(w, k, users, catalog, limits))
  }

  /** The ledger reports each of the first `n` phases, each judged on the
      roster it found. */
  predicate ReportsUpTo(l: seq<Entry>, w: World, n: nat, u0: seq<ProvisionedUser>, catalog: seq<ScenarioUser>,
                        limits: RateLimits)
  {
    forall k :: 0 <= k < n ==> Reports(l, w, k, RosterAt(u0, catalog, w.agents, k), catalog, limits)
  }

  /** Every phase of a full run passes. */
  predicate AllPhasesPass(w: World, u0: seq<ProvisionedUser>, catalog: seq<ScenarioUser>, limits: RateLimits)
  {
    forall k :: 0 <= k < |PhaseNames| ==> PhasePasses(w, k, RosterAt(u0, catalog, w.agents, k), catalog, limits)
  }

  /** Recording phase `j`'s line keeps the reports of the earlier phases and
      adds its own. */
  lemma RecordPhase(before: seq<Entry>, w: World, j: nat, line: string, u0: seq<ProvisionedUser>,
                    catalog: seq<ScenarioUser>, limits: RateLimits)
    requires j < |PhaseNames| && ReportsUpTo(before, w, j, u0, catalog, limits)
    requires IsPass(line) <==> PhasePasses(w, j, RosterAt(u0, catalog, w.agents, j), catalog, limits)
    ensures ReportsUpTo(Record(before, PhaseNames[j], line), w, j + 1, u0, catalog, limits)
  {
    var after := Record(before, PhaseNames[j], line);
    ReportsExtend(before, after, w, j, line, u0, catalog, limits);
  }

  /** A ledger that agrees with `before` on every name but phase `j`'s, and
      holds `line` under that one, reports one phase more. */
  lemma ReportsExtend(before: seq<Entry>, after: seq<Entry>, w: World, j: nat, line: string,
                      u0: seq<ProvisionedUser>, catalog: seq<ScenarioUser>, limits: RateLimits)
    requires j < |PhaseNames| && ReportsUpTo(before, w, j, u0, catalog, limits)
    requires IsPass(line) <==> PhasePasses(w, j, RosterAt(u0, catalog, w.agents, j), catalog, limits)
    requires Lookup(after, PhaseNames[j]) == Some(line)
    requires forall n :: n != PhaseNames[j] ==> Lookup(after, n) == Lookup(before, n)
    ensures ReportsUpTo(after, w, j + 1, u0, catalog, limits)
  {
    PhaseNamesDistinct();
    forall k | 0 <= k < j + 1
      ensures Reports(after, w, k, RosterAt(u0, catalog, w.agents, k), catalog, limits)
    {
      if k < j {
        assert PhaseNames[k] != PhaseNames[j];
        assert Lookup(after, PhaseNames[k]) == Lookup(before, PhaseNames[k]);
        assert Reports(before, w, k, RosterAt(u0, catalog, w.agents, k), catalog, limits);
      }
    }
  }

  /** A ledger holding exactly the eight phases' lines, each reporting its
      phase, counts no failure exactly when every phase passes. */
  lemma ReportIffAllPass(l: seq<Entry>, w: World, u0: seq<ProvisionedUser>, catalog: seq<ScenarioUser>,
                         limits: RateLimits)
    requires Names(l) == PhaseNames && ReportsUpTo(l, w, |PhaseNames|, u0, catalog, limits)
    ensures Summarize(l).failed == 0 <==> AllPhasesPass(w, u0, catalog, limits)
  {
    NoFailureIffAllPass(l);
    PhaseNamesDistinct();
    assert |l| == |PhaseNames|;
    forall i | 0 <= i < |l|
      ensures IsPass(l[i].line) <==> PhasePasses(w, i, RosterAt(u0, catalog, w.agents, i), catalog, limits)
    {
      LookupAt(l, i);
      assert Reports(l, w, i, RosterAt(u0, catalog, w.agents, i), catalog, limits);
    }
  }

  /** When the roster is still empty after agent assignment, the interaction
      phase fails, and so does the report's top tier. */
  lemma EmptyRosterNotExcellent(l: seq<Entry>, w: World, u0: seq<ProvisionedUser>, catalog: seq<ScenarioUser>,
                                limits: RateLimits)
    requires ReportsUpTo(l, w, 4, u0, catalog, limits) && u0 + Assigned(catalog, w.agents) == []
    ensures Lookup(l, InteractionsPhase).Some? && !IsPass(Lookup(l, InteractionsPhase).value)
    ensures Summarize(l).readiness != Excellent
  {
    assert Reports(l, w, 3, RosterAt(u0, catalog, w.agents, 3), catalog, limits);
    FailedEntryRulesOutExcellent(l, InteractionsPhase);
  }

  class ComprehensiveSuite {
    /** `test_results`. */
    var testResults: seq<Entry>
    /** `users`: the roster built by agent assignment. */
    var users: seq<ProvisionedUser>
    /** `group_data`. */
    var groupData: map<string, GroupValue>
    /** `backend_tasks`. */
    var backendTasks: seq<Task>
    /** The interaction table of the personal store. */
    var store: seq<Interaction>
    /** Every store write and pacing pause of the interaction phase, in order. */
    var timeline: seq<Event>
    /** How many interaction identifiers have been handed out. */
    var issued: nat
    /** Every task the suite has started. */
    ghost var started: seq<Task>
    /** `RATE_LIMITS`. */
    const rateLimits: RateLimits
    /** `USER_DATA`. */
    const userData: seq<ScenarioUser>

    ghost predicate Valid()
      reads this, started
    {
      Distinct(Names(testResults))
      && DistinctTasks(started) && DistinctTasks(backendTasks)
      && (forall t :: t in backendTasks ==> t in started && t.cancelRequests == 0)
      && (forall t :: t in started && t !in backendTasks ==> t.cancelRequests == 1)
      && FreshIds(store, issued)
    }

    constructor ()
      ensures Valid()
      ensures testResults == [] && users == [] && groupData == map[] && backendTasks == []
      ensures store == [] && timeline == [] && issued == 0 && started == []
      ensures rateLimits == DefaultRateLimits && userData == Catalog
    {
      testResults := [];
      users := [];
      groupData := map[];
      backendTasks := [];
      store := [];
      timeline := [];
      issued := 0;
      started := [];
      rateLimits := DefaultRateLimits;
      userData := Catalog;
    }

    /** `log_test_result`: one ledger entry under the phase name, replacing
        any earlier one; nothing else changes. */
    method Log(name: string, success: bool, message: string)
      requires Valid()
      modifies this
      ensures Valid()
      ensures testResults == Record(old(testResults), name, StatusLine(success, message))
      ensures users == old(users) && groupData == old(groupData) && backendTasks == old(backendTasks)
      ensures store == old(store) && timeline == old(timeline) && issued == old(issued) && started == old(started)
    {
      RecordKeepsDistinct(testResults, name, StatusLine(success, message));
      testResults := Record(testResults, name, StatusLine(success, message));
    }

    /** `reset_all_databases_comprehensive`. The personal schema is reset
        first, so its interaction table is empty once one reset completed. */
    method ResetDatabases(reply: ResetReply) returns (ok: bool)
      requires Valid()
      modifies this
      ensures Valid()
      ensures ok <==> reply.schemasReset >= 4 && reply.listingOk
      ensures testResults == Record(old(testResults), ResetPhase,
        StatusLine(ok, if ok then ResetPassed else ResetFailed))
      ensures store == if reply.schemasReset >= 1 then [] else old(store)
      ensures users == old(users) && groupData == old(groupData) && backendTasks == old(backendTasks)
      ensures timeline == old(timeline) && issued == old(issued) && started == old(started)
    {
      if reply.schemasReset >= 1 {
        store := [];
      }
      ok := reply.schemasReset >= 4 && reply.listingOk;
      Log(ResetPhase, ok, if ok then ResetPassed else ResetFailed);
    }

    /** `test_user_onboarding_detailed` as written: the first iteration calls
        `text(...)`, a name this method never imports, so the `NameError`
        fails the phase whenever the catalog is not empty. */
    method OnboardUsersAsWritten() returns (ok: bool)
      requires Valid()
      modifies this
      ensures Valid()
      ensures ok <==> userData == []
      ensures testResults == Record(old(testResults), OnboardingPhase,
        StatusLine(ok, if ok then OnboardingPassed else OnboardingFailed))
      ensures users == old(users) && groupData == old(groupData) && backendTasks == old(backendTasks)
      ensures store == old(store) && timeline == old(timeline) && issued == old(issued) && started == old(started)
    {
      ok := |userData| == 0;
      Log(OnboardingPhase, ok, if ok then OnboardingPassed else OnboardingFailed);
    }

    /** `test_user_onboarding_detailed` with `text` imported: each catalog
        user in turn must get a new onboarding session; the first user
        without one (or a raise) fails the phase. */
    method OnboardUsers(reply: ScenarioUser -> OnboardReply) returns (ok: bool)
      requires Valid()
      modifies this
      ensures Valid()
      ensures ok <==> AllOnboarded(userData, reply)
      ensures testResults == Record(old(testResults), OnboardingPhase,
        StatusLine(ok, if ok then OnboardingPassed else OnboardingFailed))
      ensures users == old(users) && groupData == old(groupData) && backendTasks == old(backendTasks)
      ensures store == old(store) && timeline == old(timeline) && issued == old(issued) && started == old(started)
    {
      ok := true;
      var k := 0;
      while k < |userData| && ok
        invariant 0 <= k <= |userData|
        invariant ok <==> forall j :: 0 <= j < k ==> reply(userData[j]) == SessionCreated
      {
        ok := reply(userData[k]) == SessionCreated;
        k := k + 1;
      }
      Log(OnboardingPhase, ok, if ok then OnboardingPassed else OnboardingFailed);
    }

    /** The registration loop of agent assignment: the catalog users in
        order, each registered user appended, stopping at the first raise or
        the first user the store does not then hold. */
    method Register(reply: ScenarioUser -> AgentReply) returns (added: seq<ProvisionedUser>, ok: bool)
      ensures added == Assigned(userData, reply)
      ensures ok <==> AllAssigned(userData, reply)
    {
      ok := true;
      added := [];
      ghost var rest := Assigned(userData, reply);
      assert userData[0..] == userData;
      var k := 0;
      while k < |userData| && ok
        invariant 0 <= k <= |userData|
        invariant Assigned(userData, reply) == added + rest
        invariant ok ==> rest == Assigned(userData[k..], reply)
        invariant !ok ==> rest == []
        invariant ok <==> forall j :: 0 <= j < k ==> reply(userData[j]).AgentCreated? && reply(userData[j]).inStore
      {
        var s := userData[k];
        AssignedStep(userData, reply, k);
        match reply(s) {
          case AgentRaised =>
            assert rest == [];
            ok := false;
          case AgentCreated(userId, agentId, inStore) =>
            var entry := Provision(s, userId, agentId);
            ghost var later := if inStore then Assigned(userData[k + 1..], reply) else [];
            assert rest == [entry] + later;
            AppendAssoc(added, [entry], later);
            added := added + [entry];
            rest := later;
            ok := inStore;
        }
        k := k + 1;
      }
      if ok {
        assert userData[k..] == [];
      }
      assert added + [] == added;
    }

    /** `test_personal_agent_assignment`: the registered users join the
        roster, and the phase passes when every catalog user was registered
        and found in the store. */
    method AssignAgents(reply: ScenarioUser -> AgentReply) returns (ok: bool)
      requires Valid()
      modifies this
      ensures Valid()
      ensures ok <==> AllAssigned(userData, reply)
      ensures users == old(users) + Assigned(userData, reply)
      ensures testResults == Record(old(testResults), AgentsPhase,
        StatusLine(ok, if ok then AgentsPassed else AgentsFailed))
      ensures groupData == old(groupData) && backendTasks == old(backendTasks)
      ensures store == old(store) && timeline == old(timeline) && issued == old(issued) && started == old(started)
    {
      var added;
      added, ok := Register(reply);
      users := users + added;
      Log(AgentsPhase, ok, if ok then AgentsPassed else AgentsFailed);
    }

    /** Starts one background worker per roster user, in roster order, and
        keeps each handle in `backendTasks`. */
    method StartBackends(reaction: ProvisionedUser -> Reaction) returns (tasks: seq<Task>)
      requires Valid()
      modifies this
      ensures Valid()
      ensures |tasks| == |users|
      ensures forall k :: 0 <= k < |tasks| ==>
        (fresh(tasks[k]) && tasks[k].userId == users[k].userId
         && tasks[k].agentId == users[k].agentId && tasks[k].reaction == reaction(users[k]))
      ensures backendTasks == old(backendTasks) + tasks && started == old(started) + tasks
      ensures testResults == old(testResults) && users == old(users) && groupData == old(groupData)
      ensures store == old(store) && timeline == old(timeline) && issued == old(issued)
    {
      tasks := [];
      var k := 0;
      while k < |users|
        invariant 0 <= k <= |users| && |tasks| == k
        invariant forall j :: 0 <= j < k ==>
          (fresh(tasks[j]) && tasks[j].userId == users[j].userId
           && tasks[j].agentId == users[j].agentId && tasks[j].reaction == reaction(users[j]))
        invariant backendTasks == old(backendTasks) + tasks && started == old(started) + tasks
        invariant testResults == old(testResults) && users == old(users) && groupData == old(groupData)
        invariant store == old(store) && timeline == old(timeline) && issued == old(issued)
        invariant Valid()
      {
        var t := new Task(users[k].userId, users[k].agentId, reaction(users[k]));
        tasks := tasks + [t];
        backendTasks := backendTasks + [t];
        started := started + [t];
        k := k + 1;
      }
    }

    /** The schedule of the interaction phase with its commits applied: the
        timeline gains its events, the store its rows, under fresh ids. */
    method RunSchedule(failAt: Option<nat>) returns (events: seq<Event>, paced: bool)
      requires Valid()
      modifies this
      ensures Valid()
      ensures paced <==> failAt.None? || failAt.value >= KeptTotal(users, rateLimits.maxMessagesPerUser)
      ensures paced ==> events == Plan(users, rateLimits, old(issued))
      ensures !paced ==>
        (events < Plan(users, rateLimits, old(issued))
         && Plan(users, rateLimits, old(issued))[|events|].Write? && |Writes(events)| == failAt.value)
      ensures timeline == old(timeline) + events && store == old(store) + Writes(events)
      ensures issued == old(issued) + |Writes(events)|
      ensures testResults == old(testResults) && users == old(users) && groupData == old(groupData)
      ensures backendTasks == old(backendTasks) && started == old(started)
    {
      events, paced := Pace(users, rateLimits, issued, failAt);
      PlannedRows(users, rateLimits, issued, events);
      AppendFresh(store, issued, Writes(events));
      timeline := timeline + events;
      store := store + Writes(events);
      issued := issued + |Writes(events)|;
    }

    /** The read-back: for each roster user, the rows of the interaction
        table carrying their id, summed. */
    method CountStored() returns (total: nat)
      ensures total == Stored(users, store)
    {
      total := 0;
      var k := 0;
      while k < |users|
        invariant 0 <= k <= |users|
        invariant total == Stored(users[..k], store)
      {
        assert users[..k + 1][..k] == users[..k];
        total := total + ReadBack(store, users[k].userId);
        k := k + 1;
      }
      assert users[..k] == users;
    }

    /** `test_parallel_interactions_with_rate_limiting`. An empty roster
        fails the phase before anything starts. Otherwise a worker is
        started per user, the schedule is run (its commits go to the store
        and the timeline, up to a commit that raises), and the phase passes
        when every commit and the read-back succeed. */
    method Interactions(reaction: ProvisionedUser -> Reaction, failAt: Option<nat>, readBackOk: bool)
      returns (ok: bool, events: seq<Event>, total: nat, tasks: seq<Task>)
      requires Valid()
      modifies this
      ensures Valid()
      ensures ok <==> users != [] && readBackOk
                      && (failAt.None? || failAt.value >= KeptTotal(users, rateLimits.maxMessagesPerUser))
      ensures users == [] ==> events == [] && tasks == []
      ensures backendTasks == old(backendTasks) + tasks && started == old(started) + tasks
      ensures users != [] ==> |tasks| == |users|
      ensures forall k :: 0 <= k < |tasks| ==>
        (fresh(tasks[k]) && tasks[k].userId == users[k].userId && tasks[k].reaction == reaction(users[k]))
      ensures users != [] && (failAt.None? || failAt.value >= KeptTotal(users, rateLimits.maxMessagesPerUser))
        ==> events == Plan(users, rateLimits, old(issued))
      ensures users != [] && failAt.Some? && failAt.value < KeptTotal(users, rateLimits.maxMessagesPerUser)
        ==> (events < Plan(users, rateLimits, old(issued))
             && Plan(users, rateLimits, old(issued))[|events|].Write? && |Writes(events)| == failAt.value)
      ensures timeline == old(timeline) + events && store == old(store) + Writes(events)
      ensures issued == old(issued) + |Writes(events)|
      ensures ok ==> total == Stored(users, store)
      ensures testResults == Record(old(testResults), InteractionsPhase,
        StatusLine(ok, if ok then InteractionsPassed else InteractionsFailed))
      ensures users == old(users) && groupData == old(groupData)
    {
      events, total, tasks := [], 0, [];
      if users == [] {
        ok := false;
      } else {
        tasks := StartBackends(reaction);
        var paced;
        events, paced := RunSchedule(failAt);
        ok := paced && readBackOk;
        if ok {
          total := CountStored();
        }
      }
      Log(InteractionsPhase, ok, if ok then InteractionsPassed else InteractionsFailed);
    }

    /** The persona count of the verification phase: the roster users whose
        persona row has data. */
    method CountPersonas(updated: ProvisionedUser -> bool) returns (personas: nat)
      ensures personas == UpdatedPersonas(users, updated)
    {
      personas := 0;
      var k := 0;
      while k < |users|
        invariant 0 <= k <= |users|
        invariant personas == UpdatedPersonas(users[..k], updated)
      {
        assert users[..k + 1][..k] == users[..k];
        if updated(users[k]) {
          personas := personas + 1;
        }
        k := k + 1;
      }
      assert users[..k] == users;
    }

    /** `test_backend_processing_verification`: counts the updated personas
        and the calendar entries; it fails only when a query raises. */
    method VerifyBackend(verificationOk: bool, updated: ProvisionedUser -> bool, calendarEntries: nat)
      returns (ok: bool, personas: nat, calendar: nat)
      requires Valid()
      modifies this
      ensures Valid()
      ensures ok == verificationOk
      ensures ok ==> personas == UpdatedPersonas(users, updated) && personas <= |users| && calendar == calendarEntries
      ensures testResults == Record(old(testResults), VerificationPhase,
        StatusLine(ok, if ok then VerificationPassed else VerificationFailed))
      ensures users == old(users) && groupData == old(groupData) && backendTasks == old(backendTasks)
      ensures store == old(store) && timeline == old(timeline) && issued == old(issued) && started == old(started)
    {
      personas, calendar := 0, 0;
      ok := verificationOk;
      if ok {
        personas := CountPersonas(updated);
        calendar := calendarEntries;
      }
      Log(VerificationPhase, ok, if ok then VerificationPassed else VerificationFailed);
    }

    /** The stress probe: ten connections, gathered with their exceptions,
        and the number that succeeded. */
    method StressProbe(connect: nat -> bool) returns (results: seq<bool>, successes: nat)
      ensures results == Gathered(connect, StressConnections)
      ensures successes == CountTrue(results) && successes <= StressConnections
    {
      results := [];
      successes := 0;
      for i := 0 to StressConnections
        invariant results == Gathered(connect, i)
        invariant successes == CountTrue(results)
      {
        assert (results + [connect(i)])[..i] == results;
        results := results + [connect(i)];
        if connect(i) {
          successes := successes + 1;
        }
      }
    }

    /** One successful commit of a row under the next identifier. */
    method Commit(row: Interaction)
      requires Valid() && row.id == issued
      modifies this
      ensures Valid()
      ensures store == old(store) + [row] && issued == old(issued) + 1
      ensures testResults == old(testResults) && users == old(users) && groupData == old(groupData)
      ensures backendTasks == old(backendTasks) && timeline == old(timeline) && started == old(started)
    {
      AppendFresh(store, issued, [row]);
      store := store + [row];
      issued := issued + 1;
    }

    /** The tally of the four probes: each adds one to the total and, when
        it passes, one to the passed count. */
    method TallyProbes(duplicate: DuplicateReply, invalidCommitOk: bool, connect: nat -> bool, largeCommitOk: bool)
      returns (passed: nat, total: nat)
      ensures total == 4
      ensures passed == CountTrue(Verdicts(duplicate, Gathered(connect, StressConnections), largeCommitOk, users))
    {
      CountFour(Verdicts(duplicate, Gathered(connect, StressConnections), largeCommitOk, users));
      passed, total := 0, 0;

      // duplicate registration
      total := total + 1;
      if DuplicatePasses(duplicate, users) {
        passed := passed + 1;
      }

      // invalid interaction data: passes whether the commit succeeds or raises
      total := total + 1;
      passed := passed + 1;

      // connection stress
      total := total + 1;
      var results, successes := StressProbe(connect);
      if successes >= StressThreshold {
        passed := passed + 1;
      }

      // large data, for the first roster user
      total := total + 1;
      if users != [] && largeCommitOk {
        passed := passed + 1;
      }
    }

    /** The commits of the second and fourth probes: the invalid row, then
        the large row for the first roster user, each kept when its commit
        succeeds. */
    method CommitProbeRows(invalidCommitOk: bool, largeCommitOk: bool)
      requires Valid()
      modifies this
      ensures Valid()
      ensures store == old(store) + ProbeRows(old(issued), users, invalidCommitOk, largeCommitOk)
      ensures issued == old(issued) + |ProbeRows(old(issued), users, invalidCommitOk, largeCommitOk)|
      ensures testResults == old(testResults) && users == old(users) && groupData == old(groupData)
      ensures backendTasks == old(backendTasks) && timeline == old(timeline) && started == old(started)
    {
      if invalidCommitOk {
        Commit(InvalidRow(issued));
      }
      if users != [] && largeCommitOk {
        Commit(LargeRow(issued, users[0]));
      }
    }

    /** `test_error_scenarios_and_edge_cases`: the tally goes into the
        message, the rows whose commits succeed stay in the store, and the
        phase itself always records a pass. */
    method ErrorProbes(duplicate: DuplicateReply, invalidCommitOk: bool, connect: nat -> bool, largeCommitOk: bool)
      returns (passed: nat, total: nat)
      requires Valid()
      modifies this
      ensures Valid()
      ensures total == 4
      ensures passed == CountTrue(Verdicts(duplicate, Gathered(connect, StressConnections), largeCommitOk, users))
      ensures store == old(store) + ProbeRows(old(issued), users, invalidCommitOk, largeCommitOk)
      ensures issued == old(issued) + |ProbeRows(old(issued), users, invalidCommitOk, largeCommitOk)|
      ensures testResults == Record(old(testResults), ProbesPhase, StatusLine(true, ProbesPassed))
      ensures users == old(users) && groupData == old(groupData) && backendTasks == old(backendTasks)
      ensures timeline == old(timeline) && started == old(started)
    {
      passed, total := TallyProbes(duplicate, invalidCommitOk, connect, largeCommitOk);
      CommitProbeRows(invalidCommitOk, largeCommitOk);
      Log(ProbesPhase, true, ProbesPassed);
    }

    /** `test_group_onboarding_comprehensive`: needs three roster users; the
        first creates the group and invites the others. The phase passes when
        the session count grew; `group_data` is replaced only when the
        creator's session row is then found. */
    method GroupOnboarding(reply: GroupOnboardReply) returns (ok: bool)
      requires Valid()
      modifies this
      ensures Valid()
      ensures ok <==> |users| >= MinGroupUsers && reply.GroupSessionCreated?
      ensures groupData == if ok && reply.row.Some?
                           then OnboardingRecord(reply.row.value, users[0].userId, InvitedIds(users))
                           else old(groupData)
      ensures testResults == Record(old(testResults), GroupOnboardingPhase,
        StatusLine(ok, if ok then GroupOnboardingPassed else GroupOnboardingFailed))
      ensures users == old(users) && backendTasks == old(backendTasks)
      ensures store == old(store) && timeline == old(timeline) && issued == old(issued) && started == old(started)
    {
      ok := false;
      if |users| >= MinGroupUsers {
        var creator := users[0];
        var invited := InvitedIds(users);
        match reply {
          case GroupRaised =>
          case NoGroupSession =>
          case GroupSessionCreated(row) =>
            if row.Some? {
              groupData := OnboardingRecord(row.value, creator.userId, invited);
            }
            ok := true;
        }
      }
      Log(GroupOnboardingPhase, ok, if ok then GroupOnboardingPassed else GroupOnboardingFailed);
    }

    /** The add loop of the direct group phase: one call per roster user in
        order, counting the successes, until a call raises. */
    method AddMembers(reply: ProvisionedUser -> AddReply) returns (added: nat, raised: bool)
      ensures raised <==> AddRaised in AddReplies(users, reply)
      ensures added == AddedCount(Completed(AddReplies(users, reply)))
    {
      ghost var rs := AddReplies(users, reply);
      added, raised := 0, false;
      var k := 0;
      while k < |users|
        invariant 0 <= k <= |users|
        invariant forall j :: 0 <= j < k ==> rs[j] != AddRaised
        invariant added == AddedCount(rs[..k])
      {
        var r := reply(users[k]);
        if r == AddRaised {
          raised := true;
          break;
        }
        assert rs[..k + 1][..k] == rs[..k];
        if r == Added {
          added := added + 1;
        }
        k := k + 1;
      }
      if !raised {
        assert rs[..k] == rs;
      }
      CompletedUpTo(rs, k);
    }

    /** `test_group_creation_direct`: creates a group, adds every roster
        user, lists the members and stores the group id and member list in
        `group_data`. It passes when the member list is as long as the
        roster; an empty roster or any raise fails it. */
    method DirectGroup(reply: DirectReply, addReply: ProvisionedUser -> AddReply)
      returns (ok: bool, added: nat)
      requires Valid()
      modifies this
      ensures Valid()
      ensures ok <==> Listed(users, reply, addReply) && MembershipComplete(reply.members.value, users)
      ensures groupData == if Listed(users, reply, addReply)
                           then DirectUpdate(old(groupData), reply.groupId, reply.members.value)
                           else old(groupData)
      ensures users != [] && reply.GroupCreated? ==> added == AddedCount(Completed(AddReplies(users, addReply)))
      ensures testResults == Record(old(testResults), DirectGroupPhase, StatusLine(ok,
        if ok then DirectPassed
        else if Listed(users, reply, addReply) then DirectShort
        else DirectFailed))
      ensures users == old(users) && backendTasks == old(backendTasks)
      ensures store == old(store) && timeline == old(timeline) && issued == old(issued) && started == old(started)
    {
      ok, added := false, 0;
      var listed := false;
      if users != [] && reply.GroupCreated? {
        var raised;
        added, raised := AddMembers(addReply);
        if !raised && reply.members.Some? {
          groupData := DirectUpdate(groupData, reply.groupId, reply.members.value);
          listed := true;
          ok := MembershipComplete(reply.members.value, users);
        }
      }
      Log(DirectGroupPhase, ok, if ok then DirectPassed
                                else if listed then DirectShort
                                else DirectFailed);
    }

    /** `cleanup_backend_processes`: cancels each pending worker once, in
        order, awaits it and notes how it ended, then clears the list. */
    method CleanupBackendProcesses() returns (notes: seq<CleanupNote>)
      requires Valid()
      modifies this, backendTasks
      ensures Valid()
      ensures backendTasks == []
      ensures notes == Notes(Reactions(old(backendTasks)), 1)
      ensures forall t :: t in old(backendTasks) ==> t.cancelRequests == old(t.cancelRequests) + 1
      ensures testResults == old(testResults) && users == old(users) && groupData == old(groupData)
      ensures store == old(store) && timeline == old(timeline) && issued == old(issued) && started == old(started)
    {
      notes := [];
      var tasks := backendTasks;
      var i := 0;
      while i < |tasks|
        invariant 0 <= i <= |tasks| && unchanged(this)
        invariant |notes| == i && forall k :: 0 <= k < i ==> notes[k] == NoteFor(tasks[k].reaction, 1 + k)
        invariant forall k :: 0 <= k < |tasks| ==> tasks[k].cancelRequests == if k < i then 1 else 0
      {
        tasks[i].Cancel();
        notes := notes + [NoteFor(tasks[i].reaction, 1 + i)];
        i := i + 1;
      }
      backendTasks := [];
    }

    /** Phase `j` of the orchestrator's sequence, with its collaborators'
        answers taken from the world: it records its own ledger key and,
        for the interaction phase, starts the workers it returns. */
    method RunPhase(w: World, j: nat) returns (ghost line: string, ghost tasks: seq<Task>)
      requires Valid() && j < |PhaseNames|
      modifies this
      ensures Valid()
      ensures testResults == Record(old(testResults), PhaseNames[j], line)
      ensures IsPass(line) <==> PhasePasses(w, j, old(users), userData, rateLimits)
      ensures users == if j == 2 then old(users) + Assigned(userData, w.agents) else old(users)
      ensures started == old(started) + tasks && backendTasks == old(backendTasks) + tasks
      ensures j != 3 ==> tasks == []
      ensures forall k :: 0 <= k < |tasks| ==> fresh(tasks[k])
    {
      tasks := [];
      if j < 3 {
        line := RunSetupPhase(w, j);
      } else if j == 3 {
        line, tasks := RunInteractionsPhase(w);
      } else {
        line := RunCheckPhase(w, j);
      }
    }

    /** Phases 0 to 2: reset, onboarding, agent assignment. */
    method RunSetupPhase(w: World, j: nat) returns (ghost line: string)
      requires Valid() && j < 3
      modifies this
      ensures Valid()
      ensures testResults == Record(old(testResults), PhaseNames[j], line)
      ensures IsPass(line) <==> PhasePasses(w, j, old(users), userData, rateLimits)
      ensures users == if j == 2 then old(users) + Assigned(userData, w.agents) else old(users)
      ensures started == old(started) && backendTasks == old(backendTasks)
    {
      if j == 0 {
        assert PhaseNames[j] == ResetPhase;
        var ok := ResetDatabases(w.reset);
        line := StatusLine(ok, if ok then ResetPassed else ResetFailed);
      } else if j == 1 {
        assert PhaseNames[j] == OnboardingPhase;
        var ok := OnboardUsers(w.onboarding);
        line := StatusLine(ok, if ok then OnboardingPassed else OnboardingFailed);
      } else {
        assert PhaseNames[j] == AgentsPhase;
        var ok := AssignAgents(w.agents);
        line := StatusLine(ok, if ok then AgentsPassed else AgentsFailed);
      }
    }

    /** Phase 3: the rate-limited interactions, which start the workers. */
    method RunInteractionsPhase(w: World) returns (ghost line: string, ghost tasks: seq<Task>)
      requires Valid()
      modifies this
      ensures Valid()
      ensures testResults == Record(old(testResults), PhaseNames[3], line)
      ensures IsPass(line) <==> PhasePasses(w, 3, old(users), userData, rateLimits)
      ensures users == old(users)
      ensures started == old(started) + tasks && backendTasks == old(backendTasks) + tasks
      ensures forall k :: 0 <= k < |tasks| ==> fresh(tasks[k])
    {
      assert PhaseNames[3] == InteractionsPhase;
      var ok, events, total;
      ok, events, total, tasks := Interactions(w.reaction, w.failAt, w.readBackOk);
      line := StatusLine(ok, if ok then InteractionsPassed else InteractionsFailed);
    }

    /** Phases 4 to 7: verification, probes, group onboarding, direct group. */
    method RunCheckPhase(w: World, j: nat) returns (ghost line: string)
      requires Valid() && 4 <= j < |PhaseNames|
      modifies this
      ensures Valid()
      ensures testResults == Record(old(testResults), PhaseNames[j], line)
      ensures IsPass(line) <==> PhasePasses(w, j, old(users), userData, rateLimits)
      ensures users == old(users)
      ensures started == old(started) && backendTasks == old(backendTasks)
    {
      if j < 6 {
        line := RunBackendPhase(w, j);
      } else {
        line := RunGroupPhase(w, j);
      }
    }

    /** Phases 4 and 5: backend verification and the error probes. */
    method RunBackendPhase(w: World, j: nat) returns (ghost line: string)
      requires Valid() && 4 <= j < 6
      modifies this
      ensures Valid()
      ensures testResults == Record(old(testResults), PhaseNames[j], line)
      ensures IsPass(line) <==> PhasePasses(w, j, old(users), userData, rateLimits)
      ensures users == old(users)
      ensures started == old(started) && backendTasks == old(backendTasks)
    {
      if j == 4 {
        assert PhaseNames[j] == VerificationPhase;
        var ok, personas, calendar := VerifyBackend(w.verificationOk, w.personaUpdated, w.calendarEntries);
        line := StatusLine(ok, if ok then VerificationPassed else VerificationFailed);
      } else {
        assert PhaseNames[j] == ProbesPhase;
        var passed, total := ErrorProbes(w.duplicate, w.invalidCommitOk, w.connect, w.largeCommitOk);
        line := StatusLine(true, ProbesPassed);
      }
    }

    /** Phases 6 and 7: group onboarding and the direct group. */
    method RunGroupPhase(w: World, j: nat) returns (ghost line: string)
      requires Valid() && 6 <= j < |PhaseNames|
      modifies this
      ensures Valid()
      ensures testResults == Record(old(testResults), PhaseNames[j], line)
      ensures IsPass(line) <==> PhasePasses(w, j, old(users), userData, rateLimits)
      ensures users == old(users)
      ensures started == old(started) && backendTasks == old(backendTasks)
    {
      if j == 6 {
        line := RunGroupOnboardingPhase(w);
      } else {
        line := RunDirectGroupPhase(w);
      }
    }

    /** Phase 6: group onboarding. */
    method RunGroupOnboardingPhase(w: World) returns (ghost line: string)
      requires Valid()
      modifies this
      ensures Valid()
      ensures testResults == Record(old(testResults), PhaseNames[6], line)
      ensures IsPass(line) <==> PhasePasses(w, 6, old(users), userData, rateLimits)
      ensures users == old(users)
      ensures started == old(started) && backendTasks == old(backendTasks)
    {
      assert PhaseNames[6] == GroupOnboardingPhase;
      ghost var passes := PhasePasses(w, 6, users, userData, rateLimits);
      assert passes == (|users| >= MinGroupUsers && w.groupOnboarding.GroupSessionCreated?);
      var ok := GroupOnboarding(w.groupOnboarding);
      assert ok == passes;
      line := StatusLine(ok, if ok then GroupOnboardingPassed else GroupOnboardingFailed);
    }

    /** Phase 7: direct group creation. */
    method RunDirectGroupPhase(w: World) returns (ghost line: string)
      requires Valid()
      modifies this
      ensures Valid()
      ensures testResults == Record(old(testResults), PhaseNames[7], line)
      ensures IsPass(line) <==> PhasePasses(w, 7, old(users), userData, rateLimits)
      ensures users == old(users)
      ensures started == old(started) && backendTasks == old(backendTasks)
    {
      assert PhaseNames[7] == DirectGroupPhase;
      ghost var passes := PhasePasses(w, 7, users, userData, rateLimits);
      assert passes == (Listed(users, w.direct, w.addReply) && MembershipComplete(w.direct.members.value, users));
      var ok, added := DirectGroup(w.direct, w.addReply);
      assert ok == passes;
      line := StatusLine(ok, if ok then DirectPassed
                             else if Listed(users, w.direct, w.addReply) then DirectShort
                             else DirectFailed);
    }

    /** Runs phase `j` after the phases before it: the ledger gains its
        report and, from an empty start, its key at the end; the roster is
        the one phase `j + 1` finds. */
    method RunNextPhase(w: World, j: nat, ghost u0: seq<ProvisionedUser>, ghost named: bool)
      returns (ghost tasks: seq<Task>)
      requires Valid() && j < |PhaseNames|
      requires named ==> Names(testResults) == PhaseNames[..j]
      requires ReportsUpTo(testResults, w, j, u0, userData, rateLimits)
      requires users == RosterAt(u0, userData, w.agents, j)
      modifies this
      ensures Valid()
      ensures started == old(started) + tasks && backendTasks == old(backendTasks) + tasks
      ensures forall k :: 0 <= k < |tasks| ==> fresh(tasks[k])
      ensures named ==> Names(testResults) == PhaseNames[..j + 1]
      ensures ReportsUpTo(testResults, w, j + 1, u0, userData, rateLimits)
      ensures users == RosterAt(u0, userData, w.agents, j + 1)
    {
      ghost var before := testResults;
      ghost var line;
      line, tasks := RunPhase(w, j);
      if named {
        NextPhase(before, j, testResults);
      }
      RecordPhase(before, w, j, line, u0, userData, rateLimits);
    }

    /** The first `stop` phases in order. */
    method RunPhases(w: World, stop: nat) returns (ghost tasks: seq<Task>)
      requires Valid() && stop <= |PhaseNames|
      modifies this
      ensures Valid()
      ensures started == old(started) + tasks && backendTasks == old(backendTasks) + tasks
      ensures forall k :: 0 <= k < |tasks| ==> fresh(tasks[k])
      ensures old(testResults) == [] ==> Names(testResults) == PhaseNames[..stop]
      ensures ReportsUpTo(testResults, w, stop, old(users), userData, rateLimits)
      ensures users == RosterAt(old(users), userData, w.agents, stop)
    {
      ghost var named := testResults == [];
      ghost var s0, b0, u0 := started, backendTasks, users;
      tasks := [];
      var j := 0;
      while j < stop
        invariant j <= stop && Valid()
        invariant started == s0 + tasks && backendTasks == b0 + tasks
        invariant forall k :: 0 <= k < |tasks| ==> fresh(tasks[k])
        invariant named ==> Names(testResults) == PhaseNames[..j]
        invariant ReportsUpTo(testResults, w, j, u0, userData, rateLimits)
        invariant users == RosterAt(u0, userData, w.agents, j)
      {
        ghost var earlier := tasks;
        ghost var more := RunNextPhase(w, j, u0, named);
        tasks := tasks + more;
        AppendAssoc(s0, earlier, more);
        AppendAssoc(b0, earlier, more);
        j := j + 1;
      }
    }

    /** `run_comprehensive_test_suite`: the eight phases in order, with the
        corrected onboarding; an interruption at the entry of a phase skips
        it and every later one, and one at position 8 or later arrives after
        the last phase, so all eight run. Cleanup always runs; the report is
        produced only when no interruption escaped. */
    method RunSuite(w: World, interruptAt: Option<nat>) returns (report: Option<Summary>, notes: seq<CleanupNote>)
      requires Valid()
      modifies this, backendTasks
      ensures Valid()
      ensures backendTasks == [] && forall t :: t in started ==> t.cancelRequests == 1
      ensures |old(started)| <= |started| && started[..|old(started)|] == old(started)
      ensures notes == Notes(Reactions(old(backendTasks) + started[|old(started)|..]), 1)
      ensures report.Some? <==> interruptAt.None?
      ensures report.Some? ==> report.value == Summarize(testResults)
      ensures old(testResults) == [] ==> Names(testResults) == PhaseNames[..PhasesRun(interruptAt)]
      ensures ReportsUpTo(testResults, w, PhasesRun(interruptAt), old(users), userData, rateLimits)
      ensures report.Some? && old(testResults) == [] ==>
        (report.value.failed == 0 <==> AllPhasesPass(w, old(users), userData, rateLimits))
    {
      ghost var s0 := started;
      ghost var emptyLedger := testResults == [];
      ghost var tasks := RunPhases(w, PhasesRun(interruptAt));
      assert started[|s0|..] == tasks;
      notes := CleanupBackendProcesses();
      report := if interruptAt.None? then Some(Summarize(testResults)) else None;
      if interruptAt.None? && emptyLedger {
        assert PhaseNames[..|PhaseNames|] == PhaseNames;
        ReportIffAllPass(testResults, w, old(users), userData, rateLimits);
      }
    }
  }
}
