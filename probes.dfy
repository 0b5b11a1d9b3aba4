/** The four probes of `test_error_scenarios_and_edge_cases`: a duplicate
    registration, an interaction for unknown ids with empty text, ten
    concurrent trivial queries, and a 50 000-character message. */
module Probes {
  import opened Types

  /** What `get_or_create_user` does when asked to register Alice again. */
  datatype DuplicateReply = ReturnedIds(userId: string, agentId: string) | Rejected

  /** The first roster user carrying the given name, if there is one. */
  function FirstNamed(users: seq<ProvisionedUser>, name: string): (r: Option<ProvisionedUser>)
    ensures r.None? <==> forall k :: 0 <= k < |users| ==> users[k].name != name
    ensures r.Some? ==> r.value.name == name && exists k :: (0 <= k < |users| && users[k] == r.value
      && forall m :: 0 <= m < k ==> users[m].name != name)
  {
    if users == [] then None
    else if users[0].name == name then Some(users[0])
    else
      var r := FirstNamed(users[1..], name);
      assert forall k :: 0 <= k < |users| - 1 ==> users[1..][k] == users[k + 1];
      if r.Some? then
        var k :| 0 <= k < |users| - 1 && users[1..][k] == r.value
          && forall m :: 0 <= m < k ==> users[1..][m].name != name;
        assert users[k + 1] == r.value && forall m :: 0 <= m < k + 1 ==> users[m].name != name;
        r
      else r
  }

  /** The duplicate probe passes when the collaborator raises, or when it
      returns the user id already held by the first roster user named Alice
      (the agent id is not compared). */
  predicate DuplicatePasses(reply: DuplicateReply, users: seq<ProvisionedUser>)
  {
    match reply
    case Rejected => true
    case ReturnedIds(userId, _) =>
      var existing := FirstNamed(users, "Alice");
      existing.Some? && userId == existing.value.userId
  }

  /** When the collaborator returns ids, the probe passes exactly when some
      roster user named Alice has that user id and no earlier roster user is
      named Alice. */
  lemma DuplicateReturnedPasses(userId: string, agentId: string, users: seq<ProvisionedUser>)
    ensures DuplicatePasses(ReturnedIds(userId, agentId), users)
        <==> exists k :: 0 <= k < |users| && users[k].name == "Alice" && users[k].userId == userId
                         && forall m :: 0 <= m < k ==> users[m].name != "Alice"
  {
  }

  /** The number of concurrent connections the stress probe opens. */
  const StressConnections: nat := 10
  /** The number of them that must succeed for the probe to pass. */
  const StressThreshold: nat := 8

  /** The number of `true` entries: the connections that did not end in an
      exception, or the probes that passed. */
  function CountTrue(v: seq<bool>): (n: nat)
    ensures n <= |v|
  {
    if v == [] then 0
    else CountTrue(v[..|v| - 1]) + (if v[|v| - 1] then 1 else 0)
  }

  /** The number of `false` entries: the connections that ended in an exception. */
  function CountFalse(v: seq<bool>): nat
  {
    if v == [] then 0
    else CountFalse(v[..|v| - 1]) + (if v[|v| - 1] then 0 else 1)
  }

  lemma {:induction false} CountTrueAndFalse(v: seq<bool>)
    ensures CountTrue(v) + CountFalse(v) == |v|
  {
    if v != [] {
      CountTrueAndFalse(v[..|v| - 1]);
    }
  }

  /** The results of connections `0 .. n-1` gathered together, each one
      either a success or a captured exception, in connection order. */
  function Gathered(connect: nat -> bool, n: nat): (results: seq<bool>)
    ensures |results| == n && forall i :: 0 <= i < n ==> results[i] == connect(i)
  {
    if n == 0 then [] else Gathered(connect, n - 1) + [connect(n - 1)]
  }

  predicate StressPasses(results: seq<bool>)
  {
    CountTrue(results) >= StressThreshold
  }

  /** Over the ten connections the probe opens, it passes exactly when at
      most two of them fail. */
  lemma StressPassesIffFewFailures(results: seq<bool>)
    requires |results| == StressConnections
    ensures StressPasses(results) <==> CountFalse(results) <= 2
  {
    CountTrueAndFalse(results);
  }

  /** The verdicts of the four probes in order. The second probe counts as
      passed both when its commit succeeds and when it raises; the fourth
      fails on an empty roster (there is no first user to write for) or when its commit
      raises. */
  function Verdicts(duplicate: DuplicateReply, stress: seq<bool>, largeCommitOk: bool,
                    users: seq<ProvisionedUser>): seq<bool>
  {
    [DuplicatePasses(duplicate, users), true, StressPasses(stress), users != [] && largeCommitOk]
  }

  /** The tally `error_tests_passed / total_error_tests` is never below 1/4:
      the second probe cannot fail. It is 4/4 exactly when all probes pass. */
  lemma {:induction false} TallyBounds(duplicate: DuplicateReply, stress: seq<bool>, largeCommitOk: bool,
                                       users: seq<ProvisionedUser>)
    ensures 1 <= CountTrue(Verdicts(duplicate, stress, largeCommitOk, users)) <= 4
    ensures CountTrue(Verdicts(duplicate, stress, largeCommitOk, users)) == 4
        <==> DuplicatePasses(duplicate, users) && StressPasses(stress) && users != [] && largeCommitOk
  {
    CountFour(Verdicts(duplicate, stress, largeCommitOk, users));
  }

  lemma CountFour(v: seq<bool>)
    requires |v| == 4
    ensures CountTrue(v) == (if v[0] then 1 else 0) + (if v[1] then 1 else 0) + (if v[2] then 1 else 0)
                            + (if v[3] then 1 else 0)
  {
    assert v[..3][..2] == v[..2] && v[..2][..1] == v[..1] && v[..1][..0] == [];
    assert CountTrue(v[..2]) == (if v[0] then 1 else 0) + (if v[1] then 1 else 0);
    assert CountTrue(v[..3]) == CountTrue(v[..2]) + (if v[2] then 1 else 0);
  }

  /** On an empty roster the duplicate probe passes only if the collaborator
      raises, and the tally is at most 3/4. */
  lemma EmptyRosterTally(duplicate: DuplicateReply, stress: seq<bool>, largeCommitOk: bool)
    ensures DuplicatePasses(duplicate, []) <==> duplicate.Rejected?
    ensures CountTrue(Verdicts(duplicate, stress, largeCommitOk, [])) <= 3
  {
    TallyBounds(duplicate, stress, largeCommitOk, []);
  }

  /** The row the invalid-data probe tries to commit. */
  function InvalidRow(id: nat): Interaction
  {
    Interaction(id, "non_existent_user", "non_existent_agent", "", "", false)
  }

  const LargeMessageLength: nat := 50000

  /** The message of the large-data probe: fifty thousand `A` characters. */
  function LargeMessage(): string
  {
    seq(LargeMessageLength, k => 'A')
  }

  /** The row the large-data probe tries to commit for the first roster user. */
  function LargeRow(id: nat, u: ProvisionedUser): Interaction
  {
    Interaction(id, u.userId, u.agentId, LargeMessage(), "Large message processed", false)
  }

  /** The rows the probes commit, identifiers from `id` on: the invalid row
      when its commit succeeds, then the large row when there is a first
      user and its commit succeeds. */
  function ProbeRows(id: nat, users: seq<ProvisionedUser>, invalidCommitOk: bool, largeCommitOk: bool)
    : (rows: seq<Interaction>)
    ensures |rows| == (if invalidCommitOk then 1 else 0) + (if users != [] && largeCommitOk then 1 else 0)
    ensures forall k :: 0 <= k < |rows| ==> rows[k].id == id + k
  {
    (if invalidCommitOk then [InvalidRow(id)] else [])
    + (if users != [] && largeCommitOk then [LargeRow(if invalidCommitOk then id + 1 else id, users[0])] else [])
  }
}
