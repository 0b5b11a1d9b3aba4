/** The group phases: the invitation list of `test_group_onboarding_comprehensive`,
    the values stored in `group_data`, and the membership rule and member
    counter of `test_group_creation_direct`. */
module Groups {
  import opened Types

  /** The fewest roster users group onboarding accepts. */
  const MinGroupUsers: nat := 3

  /** The ids of every roster user after the first (the group creator), in roster order. */
  function InvitedIds(users: seq<ProvisionedUser>): (ids: seq<string>)
    ensures |ids| == if users == [] then 0 else |users| - 1
    ensures forall k :: 0 <= k < |ids| ==> ids[k] == users[k + 1].userId
  {
    if |users| <= 1 then [] else [users[1].userId] + InvitedIds(users[1..])
  }

  /** With distinct ids, the creator (the first roster user) is never among the invited. */
  lemma CreatorNotInvited(users: seq<ProvisionedUser>)
    requires users != [] && DistinctIds(users)
    ensures users[0].userId !in InvitedIds(users)
  {
  }

  /** The roster position of the first user carrying the id: where the
      invitation listing finds the name it prints for an invited id. */
  function PositionOf(users: seq<ProvisionedUser>, userId: string): (k: nat)
    requires exists j :: 0 <= j < |users| && users[j].userId == userId
    ensures k < |users| && users[k].userId == userId
    ensures forall j :: 0 <= j < k ==> users[j].userId != userId
  {
    if users[0].userId == userId then 0
    else
      assert exists j :: 0 <= j < |users| - 1 && users[1..][j].userId == userId by {
        var j :| 0 <= j < |users| && users[j].userId == userId;
        assert users[1..][j - 1] == users[j];
      }
      1 + PositionOf(users[1..], userId)
  }

  /** Every invited id names a roster user, so the name lookup for the
      invitation listing never runs out of candidates. With distinct ids it
      finds the invited user itself, at the position after the invitation's. */
  lemma InvitedAreOnRoster(users: seq<ProvisionedUser>, i: nat)
    requires i < |InvitedIds(users)|
    ensures exists j :: 0 <= j < |users| && users[j].userId == InvitedIds(users)[i]
    ensures DistinctIds(users) ==> PositionOf(users, InvitedIds(users)[i]) == i + 1
  {
    assert users[i + 1].userId == InvitedIds(users)[i];
  }

  /** A value stored in `group_data`: a string, a list of ids, or the member
      list returned by the group service. */
  datatype GroupValue = Text(text: string) | Ids(ids: seq<string>) | Members(members: seq<Member>)

  /** One entry of `GroupService.get_group_members`. */
  datatype Member = Member(userId: string, userName: string, role: string)

  /** The onboarding session row found for the creator. */
  datatype SessionRow = SessionRow(id: string, groupName: string)

  /** The dict group onboarding assigns to `group_data` (replacing it whole). */
  function OnboardingRecord(session: SessionRow, creatorId: string, invited: seq<string>): map<string, GroupValue>
  {
    map["session_id" := Text(session.id), "group_name" := Text(session.groupName),
        "creator_id" := Text(creatorId), "invited_ids" := Ids(invited)]
  }

  /** The direct group phase's update of `group_data`: the group id and the
      member list are set, every other key keeps its value. */
  function DirectUpdate(g: map<string, GroupValue>, groupId: string, members: seq<Member>): (r: map<string, GroupValue>)
    ensures r.Keys == g.Keys + {"direct_group_id", "members"}
    ensures r["direct_group_id"] == Text(groupId) && r["members"] == Members(members)
    ensures forall key :: key in g && key != "direct_group_id" && key != "members" ==> r[key] == g[key]
  {
    g["direct_group_id" := Text(groupId)]["members" := Members(members)]
  }

  /** What `GroupService.add_user_to_group` does for one user. */
  datatype AddReply = Added | NotAdded | AddRaised

  /** The replies up to (not including) the first raise: the adds that ran to completion. */
  function Completed(replies: seq<AddReply>): (c: seq<AddReply>)
    ensures |c| <= |replies| && c == replies[..|c|]
    ensures forall k :: 0 <= k < |c| ==> c[k] != AddRaised
    ensures |c| < |replies| ==> replies[|c|] == AddRaised
  {
    if replies == [] || replies[0] == AddRaised then []
    else [replies[0]] + Completed(replies[1..])
  }

  /** The number of `Added` replies. */
  function AddedCount(replies: seq<AddReply>): (n: nat)
    ensures n <= |replies|
  {
    if replies == [] then 0
    else AddedCount(replies[..|replies| - 1]) + (if replies[|replies| - 1] == Added then 1 else 0)
  }

  /** The completed adds are exactly those before the first raise. */
  lemma CompletedUpTo(replies: seq<AddReply>, m: nat)
    requires m <= |replies| && forall j :: 0 <= j < m ==> replies[j] != AddRaised
    requires m == |replies| || replies[m] == AddRaised
    ensures Completed(replies) == replies[..m]
  {
  }

  /** The membership rule: the direct group passes when the service lists as
      many members as there are roster users. */
  predicate MembershipComplete(members: seq<Member>, users: seq<ProvisionedUser>)
  {
    |members| == |users|
  }
}
