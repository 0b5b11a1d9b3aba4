/** The rate-limited interaction scheduler of
    `test_parallel_interactions_with_rate_limiting`: users one at a time in
    roster order, each user's messages capped and in their original order,
    a pause between two messages of one user and between two users (never
    after the last one), one start-up wait before and one processing wait
    after all writes. */
module Scheduler {
  import opened Types

  /** The messages of a user the phase sends: the first `cap` of them, or all when there are fewer. */
  function Kept(msgs: seq<string>, cap: nat): (k: seq<string>)
    ensures |k| == Min(|msgs|, cap)
  {
    msgs[..Min(|msgs|, cap)]
  }

  /** The interaction row written for one message. */
  function Injected(u: ProvisionedUser, input: string, id: nat): Interaction
  {
    Interaction(id, u.userId, u.agentId, input, Acknowledgement, false)
  }

  /** The events of one user's message loop from message `j` on; `id` is the
      identifier the write of message `j` receives. */
  function MessageEvents(u: ProvisionedUser, kept: seq<string>, j: nat, id: nat, delay: nat): seq<Event>
    decreases |kept| - j
  {
    if j >= |kept| then []
    else
      [Write(Injected(u, kept[j], id))]
      + (if j + 1 < |kept| then [Pause(BetweenMessages, delay)] else [])
      + MessageEvents(u, kept, j + 1, id + 1, delay)
  }

  /** The pause after user `i`, present unless `i` is the last user. */
  function UserGap(users: seq<ProvisionedUser>, i: nat, limits: RateLimits): seq<Event>
  {
    if i + 1 < |users| then [Pause(BetweenUsers, limits.delayBetweenUsers)] else []
  }

  /** The events of the user loop from roster position `i` on. */
  function UserEvents(users: seq<ProvisionedUser>, i: nat, id: nat, limits: RateLimits): seq<Event>
    decreases |users| - i
  {
    if i >= |users| then []
    else
      var kept := Kept(users[i].demoMessages, limits.maxMessagesPerUser);
      MessageEvents(users[i], kept, 0, id, limits.delayBetweenMessages)
      + UserGap(users, i, limits)
      + UserEvents(users, i + 1, id + |kept|, limits)
  }

  /** Everything the phase does once its workers are started and no write fails. */
  function Plan(users: seq<ProvisionedUser>, limits: RateLimits, firstId: nat): seq<Event>
  {
    [Pause(BackendStartup, BackendStartupWait)]
    + UserEvents(users, 0, firstId, limits)
    + [Pause(BackendProcessing, limits.backendProcessingWait)]
  }

  // ---------------------------------------------------------------------
  // Observations of an event sequence

  /** The committed store writes, in order. */
  function Writes(events: seq<Event>): seq<Interaction>
  {
    if events == [] then []
    else (if events[0].Write? then [events[0].record] else []) + Writes(events[1..])
  }

  /** The number of pauses of one kind. */
  function Pauses(events: seq<Event>, kind: PauseKind): nat
  {
    if events == [] then 0
    else (if events[0].Pause? && events[0].kind == kind then 1 else 0) + Pauses(events[1..], kind)
  }

  lemma {:induction false} WritesAppend(a: seq<Event>, b: seq<Event>)
    ensures Writes(a + b) == Writes(a) + Writes(b)
  {
    if a == [] {
      assert a + b == b;
    } else {
      var head := if a[0].Write? then [a[0].record] else [];
      assert (a + b)[0] == a[0] && (a + b)[1..] == a[1..] + b;
      assert Writes(a + b) == head + Writes(a[1..] + b);
      WritesAppend(a[1..], b);
      assert Writes(a) == head + Writes(a[1..]);
      assert head + (Writes(a[1..]) + Writes(b)) == (head + Writes(a[1..])) + Writes(b);
    }
  }

  lemma {:induction false} PausesAppend(a: seq<Event>, b: seq<Event>, kind: PauseKind)
    ensures Pauses(a + b, kind) == Pauses(a, kind) + Pauses(b, kind)
  {
    if a == [] {
      assert a + b == b;
    } else {
      assert (a + b)[0] == a[0] && (a + b)[1..] == a[1..] + b;
      PausesAppend(a[1..], b, kind);
    }
  }

  /** Who a row was written for, and with which message. */
  datatype Sent = Sent(userId: string, agentId: string, input: string)

  /** The (user, agent, message) triples of a sequence of rows. */
  function Project(rows: seq<Interaction>): seq<Sent>
  {
    if rows == [] then [] else [Sent(rows[0].userId, rows[0].agentId, rows[0].input)] + Project(rows[1..])
  }

  lemma {:induction false} ProjectAppend(a: seq<Interaction>, b: seq<Interaction>)
    ensures Project(a + b) == Project(a) + Project(b)
  {
    if a == [] {
      assert a + b == b;
    } else {
      var head := [Sent(a[0].userId, a[0].agentId, a[0].input)];
      assert (a + b)[0] == a[0] && (a + b)[1..] == a[1..] + b;
      assert Project(a + b) == head + Project(a[1..] + b);
      ProjectAppend(a[1..], b);
      assert head + (Project(a[1..]) + Project(b)) == (head + Project(a[1..])) + Project(b);
    }
  }

  // ---------------------------------------------------------------------
  // The reference order of writes

  /** A user's messages, each tagged with the user's identifiers. */
  function Tagged(u: ProvisionedUser, msgs: seq<string>): seq<Sent>
  {
    if msgs == [] then [] else [Sent(u.userId, u.agentId, msgs[0])] + Tagged(u, msgs[1..])
  }

  /** What the store should receive: every user's capped messages, users in
      roster order, one user's block complete before the next one starts. */
  function Expected(users: seq<ProvisionedUser>, cap: nat): seq<Sent>
  {
    if users == [] then []
    else Tagged(users[0], Kept(users[0].demoMessages, cap)) + Expected(users[1..], cap)
  }

  /** The number of messages the phase sends, summed over the roster. */
  function KeptTotal(users: seq<ProvisionedUser>, cap: nat): nat
  {
    if users == [] then 0 else Min(|users[0].demoMessages|, cap) + KeptTotal(users[1..], cap)
  }

  /** The pauses a user's messages need: one fewer than the messages kept. */
  function MessageGaps(users: seq<ProvisionedUser>, cap: nat): nat
  {
    if users == [] then 0
    else
      var k := Min(|users[0].demoMessages|, cap);
      (if k == 0 then 0 else k - 1) + MessageGaps(users[1..], cap)
  }

  /** When every user has `m` messages, each keeps `min(m, cap)` of them and
      pauses one time fewer between them. */
  lemma {:induction false} UniformRoster(users: seq<ProvisionedUser>, cap: nat, m: nat)
    requires forall k :: 0 <= k < |users| ==> |users[k].demoMessages| == m
    ensures KeptTotal(users, cap) == |users| * Min(m, cap)
    ensures MessageGaps(users, cap) == |users| * (if Min(m, cap) == 0 then 0 else Min(m, cap) - 1)
  {
    if users != [] {
      assert forall k :: 0 <= k < |users| - 1 ==> users[1..][k] == users[k + 1];
      UniformRoster(users[1..], cap, m);
      var k := Min(m, cap);
      MulSucc(|users| - 1, k);
      MulSucc(|users| - 1, if k == 0 then 0 else k - 1);
    }
  }

  lemma MulSucc(n: nat, x: nat)
    ensures (n + 1) * x == x + n * x
  {
  }

  /** Identifiers `id, id+1, ...` in order (hence pairwise distinct). */
  predicate IdsFrom(rows: seq<Interaction>, id: nat)
  {
    forall k :: 0 <= k < |rows| ==> rows[k].id == id + k
  }

  /** Rows the scheduler injects: unprocessed, with the fixed acknowledgement. */
  predicate Unprocessed(rows: seq<Interaction>)
  {
    forall k :: 0 <= k < |rows| ==> !rows[k].processed && rows[k].output == Acknowledgement
  }

  lemma UnprocessedAppend(a: seq<Interaction>, b: seq<Interaction>)
    requires Unprocessed(a) && Unprocessed(b)
    ensures Unprocessed(a + b)
  {
    forall k | 0 <= k < |a + b|
      ensures !(a + b)[k].processed && (a + b)[k].output == Acknowledgement
    {
      if k < |a| {
        assert (a + b)[k] == a[k];
      } else {
        assert (a + b)[k] == b[k - |a|];
      }
    }
  }

  lemma IdsFromAppend(a: seq<Interaction>, b: seq<Interaction>, id: nat)
    requires IdsFrom(a, id) && IdsFrom(b, id + |a|)
    ensures IdsFrom(a + b, id)
  {
  }

  // ---------------------------------------------------------------------
  // What the schedule writes and how it paces

  /** One step of a user's message loop: one write, then a pause unless it was the last message. */
  lemma MessageEventsStep(u: ProvisionedUser, kept: seq<string>, j: nat, id: nat, delay: nat)
    requires j < |kept|
    ensures Writes(MessageEvents(u, kept, j, id, delay))
         == [Injected(u, kept[j], id)] + Writes(MessageEvents(u, kept, j + 1, id + 1, delay))
    ensures forall kind :: (Pauses(MessageEvents(u, kept, j, id, delay), kind)
      == (if kind == BetweenMessages && j + 1 < |kept| then 1 else 0)
         + Pauses(MessageEvents(u, kept, j + 1, id + 1, delay), kind))
  {
    var w := [Write(Injected(u, kept[j], id))];
    var gap := if j + 1 < |kept| then [Pause(BetweenMessages, delay)] else [];
    var rest := MessageEvents(u, kept, j + 1, id + 1, delay);
    assert MessageEvents(u, kept, j, id, delay) == w + gap + rest;
    WritesAppend(w + gap, rest);
    WritesAppend(w, gap);
    assert w[1..] == [];
    assert gap != [] ==> gap[1..] == [];
    forall kind
      ensures Pauses(w + gap + rest, kind) == Pauses(w, kind) + Pauses(gap, kind) + Pauses(rest, kind)
    {
      PausesAppend(w + gap, rest, kind);
      PausesAppend(w, gap, kind);
    }
  }

  lemma MessageEventsHead(u: ProvisionedUser, kept: seq<string>, j: nat, id: nat, delay: nat)
    requires j < |kept|
    ensures MessageEvents(u, kept, j, id, delay) != [] && MessageEvents(u, kept, j, id, delay)[0].Write?
  {
  }

  lemma {:induction false} MessageEventsWrites(u: ProvisionedUser, kept: seq<string>, j: nat, id: nat, delay: nat)
    requires j <= |kept|
    decreases |kept| - j
    ensures Project(Writes(MessageEvents(u, kept, j, id, delay))) == Tagged(u, kept[j..])
    ensures |Writes(MessageEvents(u, kept, j, id, delay))| == |kept| - j
    ensures IdsFrom(Writes(MessageEvents(u, kept, j, id, delay)), id)
    ensures Unprocessed(Writes(MessageEvents(u, kept, j, id, delay)))
  {
    if j == |kept| {
      assert kept[j..] == [];
    } else {
      var row := Injected(u, kept[j], id);
      var rest := Writes(MessageEvents(u, kept, j + 1, id + 1, delay));
      MessageEventsStep(u, kept, j, id, delay);
      MessageEventsWrites(u, kept, j + 1, id + 1, delay);
      ProjectAppend([row], rest);
      assert Project([row]) == [Sent(u.userId, u.agentId, kept[j])] by {
        assert [row][1..] == [];
      }
      assert kept[j..][1..] == kept[j + 1..];
      IdsFromAppend([row], rest, id);
    }
  }

  lemma {:induction false} MessageEventsPauses(u: ProvisionedUser, kept: seq<string>, j: nat, id: nat, delay: nat)
    requires j <= |kept|
    decreases |kept| - j
    ensures Pauses(MessageEvents(u, kept, j, id, delay), BetweenMessages) == if j < |kept| then |kept| - j - 1 else 0
    ensures forall kind :: kind != BetweenMessages ==> Pauses(MessageEvents(u, kept, j, id, delay), kind) == 0
  {
    if j < |kept| {
      MessageEventsStep(u, kept, j, id, delay);
      MessageEventsPauses(u, kept, j + 1, id + 1, delay);
    }
  }

  /** The writes of the user loop from position `i`: user `i`'s block, then those of the users after it. */
  lemma UserEventsWritesStep(users: seq<ProvisionedUser>, i: nat, id: nat, limits: RateLimits)
    requires i < |users|
    ensures var kept := Kept(users[i].demoMessages, limits.maxMessagesPerUser);
      Writes(UserEvents(users, i, id, limits))
      == Writes(MessageEvents(users[i], kept, 0, id, limits.delayBetweenMessages))
         + Writes(UserEvents(users, i + 1, id + |kept|, limits))
  {
    var kept := Kept(users[i].demoMessages, limits.maxMessagesPerUser);
    var block := MessageEvents(users[i], kept, 0, id, limits.delayBetweenMessages);
    var gap := UserGap(users, i, limits);
    var rest := UserEvents(users, i + 1, id + |kept|, limits);
    assert UserEvents(users, i, id, limits) == block + gap + rest;
    WritesAppend(block + gap, rest);
    WritesAppend(block, gap);
    assert gap != [] ==> gap[1..] == [];
  }

  /** The pauses of one kind in the user loop from position `i`: user `i`'s
      own, the gap after it, and those of the users after it. */
  lemma UserEventsPausesStep(users: seq<ProvisionedUser>, i: nat, id: nat, limits: RateLimits, kind: PauseKind)
    requires i < |users|
    ensures var kept := Kept(users[i].demoMessages, limits.maxMessagesPerUser);
      Pauses(UserEvents(users, i, id, limits), kind)
      == Pauses(MessageEvents(users[i], kept, 0, id, limits.delayBetweenMessages), kind)
         + (if kind == BetweenUsers && i + 1 < |users| then 1 else 0)
         + Pauses(UserEvents(users, i + 1, id + |kept|, limits), kind)
  {
    var kept := Kept(users[i].demoMessages, limits.maxMessagesPerUser);
    var block := MessageEvents(users[i], kept, 0, id, limits.delayBetweenMessages);
    var gap := UserGap(users, i, limits);
    var rest := UserEvents(users, i + 1, id + |kept|, limits);
    assert UserEvents(users, i, id, limits) == block + gap + rest;
    PausesAppend(block + gap, rest, kind);
    PausesAppend(block, gap, kind);
    assert gap != [] ==> gap[1..] == [];
  }


  lemma {:induction false} UserEventsWrites(users: seq<ProvisionedUser>, i: nat, id: nat, limits: RateLimits)
    requires i <= |users|
    decreases |users| - i
    ensures Project(Writes(UserEvents(users, i, id, limits))) == Expected(users[i..], limits.maxMessagesPerUser)
    ensures |Writes(UserEvents(users, i, id, limits))| == KeptTotal(users[i..], limits.maxMessagesPerUser)
    ensures IdsFrom(Writes(UserEvents(users, i, id, limits)), id)
    ensures Unprocessed(Writes(UserEvents(users, i, id, limits)))
  {
    if i < |users| {
      var kept := Kept(users[i].demoMessages, limits.maxMessagesPerUser);
      var block := Writes(MessageEvents(users[i], kept, 0, id, limits.delayBetweenMessages));
      var rest := Writes(UserEvents(users, i + 1, id + |kept|, limits));
      UserEventsWritesStep(users, i, id, limits);
      MessageEventsWrites(users[i], kept, 0, id, limits.delayBetweenMessages);
      UserEventsWrites(users, i + 1, id + |kept|, limits);
      assert Writes(UserEvents(users, i, id, limits)) == block + rest;
      ProjectAppend(block, rest);
      assert kept[0..] == kept;
      assert users[i..][0] == users[i] && users[i..][1..] == users[i + 1..];
      assert Expected(users[i..], limits.maxMessagesPerUser)
          == Tagged(users[i], kept) + Expected(users[i + 1..], limits.maxMessagesPerUser);
      IdsFromAppend(block, rest, id);
      UnprocessedAppend(block, rest);
    } else {
      assert users[i..] == [];
    }
  }

  lemma UserEventsPauses(users: seq<ProvisionedUser>, i: nat, id: nat, limits: RateLimits)
    requires i <= |users|
    ensures Pauses(UserEvents(users, i, id, limits), BetweenMessages) == MessageGaps(users[i..], limits.maxMessagesPerUser)
    ensures Pauses(UserEvents(users, i, id, limits), BetweenUsers) == if i < |users| then |users| - i - 1 else 0
    ensures Pauses(UserEvents(users, i, id, limits), BackendStartup) == 0
    ensures Pauses(UserEvents(users, i, id, limits), BackendProcessing) == 0
  {
    UserEventsMessagePauses(users, i, id, limits);
    UserEventsOtherPauses(users, i, id, limits);
  }

  /** The pauses between messages of the user loop, summed over the users. */
  lemma {:induction false} UserEventsMessagePauses(users: seq<ProvisionedUser>, i: nat, id: nat, limits: RateLimits)
    requires i <= |users|
    decreases |users| - i
    ensures Pauses(UserEvents(users, i, id, limits), BetweenMessages) == MessageGaps(users[i..], limits.maxMessagesPerUser)
  {
    if i < |users| {
      var kept := Kept(users[i].demoMessages, limits.maxMessagesPerUser);
      MessageGapsStep(users, i, limits.maxMessagesPerUser);
      UserEventsPausesStep(users, i, id, limits, BetweenMessages);
      MessageEventsPauses(users[i], kept, 0, id, limits.delayBetweenMessages);
      UserEventsMessagePauses(users, i + 1, id + |kept|, limits);
    } else {
      assert users[i..] == [];
    }
  }

  /** `MessageGaps` from roster position `i` on, unfolded once. */
  lemma MessageGapsStep(users: seq<ProvisionedUser>, i: nat, cap: nat)
    requires i < |users|
    ensures MessageGaps(users[i..], cap)
         == (if Min(|users[i].demoMessages|, cap) == 0 then 0 else Min(|users[i].demoMessages|, cap) - 1)
            + MessageGaps(users[i + 1..], cap)
  {
    assert users[i..][0] == users[i] && users[i..][1..] == users[i + 1..];
  }

  /** The user loop pauses between users once fewer than the users it runs,
      and makes no start-up or processing wait. */
  lemma {:induction false} UserEventsOtherPauses(users: seq<ProvisionedUser>, i: nat, id: nat, limits: RateLimits)
    requires i <= |users|
    decreases |users| - i
    ensures Pauses(UserEvents(users, i, id, limits), BetweenUsers) == if i < |users| then |users| - i - 1 else 0
    ensures Pauses(UserEvents(users, i, id, limits), BackendStartup) == 0
    ensures Pauses(UserEvents(users, i, id, limits), BackendProcessing) == 0
  {
    if i < |users| {
      var kept := Kept(users[i].demoMessages, limits.maxMessagesPerUser);
      UserEventsPausesStep(users, i, id, limits, BetweenUsers);
      UserEventsPausesStep(users, i, id, limits, BackendStartup);
      UserEventsPausesStep(users, i, id, limits, BackendProcessing);
      MessageEventsPauses(users[i], kept, 0, id, limits.delayBetweenMessages);
      UserEventsOtherPauses(users, i + 1, id + |kept|, limits);
    }
  }

  /** The schedule writes exactly the reference sequence: every user's first
      `max_messages_per_user` messages in their order, users in roster order
      and never interleaved, with fresh consecutive identifiers, every row
      unprocessed and carrying the acknowledgement. */
  lemma PlanWritesFollowRoster(users: seq<ProvisionedUser>, limits: RateLimits, firstId: nat)
    ensures Project(Writes(Plan(users, limits, firstId))) == Expected(users, limits.maxMessagesPerUser)
    ensures |Writes(Plan(users, limits, firstId))| == KeptTotal(users, limits.maxMessagesPerUser)
    ensures IdsFrom(Writes(Plan(users, limits, firstId)), firstId)
    ensures Unprocessed(Writes(Plan(users, limits, firstId)))
  {
    var first := [Pause(BackendStartup, BackendStartupWait)];
    var body := UserEvents(users, 0, firstId, limits);
    var last := [Pause(BackendProcessing, limits.backendProcessingWait)];
    assert Plan(users, limits, firstId) == first + body + last;
    UserEventsWrites(users, 0, firstId, limits);
    assert users[0..] == users;
    WritesAppend(first + body, last);
    WritesAppend(first, body);
    assert first[1..] == [] && last[1..] == [];
    assert Writes(first) == [] && Writes(last) == [];
    assert Writes(first + body + last) == [] + Writes(body) + [];
    assert [] + Writes(body) + [] == Writes(body);
  }

  /** The pacing rule: one start-up wait first, one processing wait last,
      one pause fewer than the kept messages per user, and one pause fewer
      than the users between users. */
  lemma PlanPacing(users: seq<ProvisionedUser>, limits: RateLimits, firstId: nat)
    ensures Plan(users, limits, firstId)[0] == Pause(BackendStartup, BackendStartupWait)
    ensures Plan(users, limits, firstId)[|Plan(users, limits, firstId)| - 1]
         == Pause(BackendProcessing, limits.backendProcessingWait)
    ensures Pauses(Plan(users, limits, firstId), BackendStartup) == 1
    ensures Pauses(Plan(users, limits, firstId), BackendProcessing) == 1
    ensures Pauses(Plan(users, limits, firstId), BetweenMessages) == MessageGaps(users, limits.maxMessagesPerUser)
    ensures Pauses(Plan(users, limits, firstId), BetweenUsers) == if users == [] then 0 else |users| - 1
  {
    var first := [Pause(BackendStartup, BackendStartupWait)];
    var body := UserEvents(users, 0, firstId, limits);
    var last := [Pause(BackendProcessing, limits.backendProcessingWait)];
    assert Plan(users, limits, firstId) == first + body + last;
    UserEventsPauses(users, 0, firstId, limits);
    assert users[0..] == users;
    assert first[1..] == [] && last[1..] == [];
    forall kind
      ensures Pauses(first + body + last, kind) == Pauses(first, kind) + Pauses(body, kind) + Pauses(last, kind)
      ensures Pauses(first, kind) == if kind == BackendStartup then 1 else 0
      ensures Pauses(last, kind) == if kind == BackendProcessing then 1 else 0
    {
      PausesAppend(first + body, last, kind);
      PausesAppend(first, body, kind);
    }
  }

  /** The number of triples for one user id. */
  function CountFor(sent: seq<Sent>, userId: string): nat
  {
    if sent == [] then 0 else (if sent[0].userId == userId then 1 else 0) + CountFor(sent[1..], userId)
  }

  lemma {:induction false} CountForAppend(a: seq<Sent>, b: seq<Sent>, userId: string)
    ensures CountFor(a + b, userId) == CountFor(a, userId) + CountFor(b, userId)
  {
    if a == [] {
      assert a + b == b;
    } else {
      assert (a + b)[1..] == a[1..] + b;
      CountForAppend(a[1..], b, userId);
    }
  }

  lemma {:induction false} CountTagged(u: ProvisionedUser, msgs: seq<string>, userId: string)
    ensures CountFor(Tagged(u, msgs), userId) == if u.userId == userId then |msgs| else 0
  {
    if msgs != [] {
      CountTagged(u, msgs[1..], userId);
    }
  }

  /** The read-back query: the rows stored for one user id. */
  function ReadBack(rows: seq<Interaction>, userId: string): nat
  {
    if rows == [] then 0 else (if rows[0].userId == userId then 1 else 0) + ReadBack(rows[1..], userId)
  }

  lemma {:induction false} ReadBackProject(rows: seq<Interaction>, userId: string)
    ensures ReadBack(rows, userId) == CountFor(Project(rows), userId)
  {
    if rows != [] {
      ReadBackProject(rows[1..], userId);
    }
  }

  lemma {:induction false} ExpectedPerUser(users: seq<ProvisionedUser>, cap: nat, i: nat)
    requires DistinctIds(users) && i < |users|
    ensures CountFor(Expected(users, cap), users[i].userId) == Min(|users[i].demoMessages|, cap)
  {
    var u0 := users[0];
    CountForAppend(Tagged(u0, Kept(u0.demoMessages, cap)), Expected(users[1..], cap), users[i].userId);
    CountTagged(u0, Kept(u0.demoMessages, cap), users[i].userId);
    if i == 0 {
      ExpectedAbsent(users[1..], cap, u0.userId);
    } else {
      ExpectedPerUser(users[1..], cap, i - 1);
    }
  }

  lemma {:induction false} ExpectedAbsent(users: seq<ProvisionedUser>, cap: nat, userId: string)
    requires forall k :: 0 <= k < |users| ==> users[k].userId != userId
    ensures CountFor(Expected(users, cap), userId) == 0
  {
    if users != [] {
      CountForAppend(Tagged(users[0], Kept(users[0].demoMessages, cap)), Expected(users[1..], cap), userId);
      CountTagged(users[0], Kept(users[0].demoMessages, cap), userId);
      ExpectedAbsent(users[1..], cap, userId);
    }
  }

  /** The read-back after the schedule finds, for each user of a roster with
      distinct ids, exactly as many rows as the messages it was sent. */
  lemma PlanReadBack(users: seq<ProvisionedUser>, limits: RateLimits, firstId: nat, i: nat)
    requires DistinctIds(users) && i < |users|
    ensures ReadBack(Writes(Plan(users, limits, firstId)), users[i].userId)
         == Min(|users[i].demoMessages|, limits.maxMessagesPerUser)
  {
    PlanWritesFollowRoster(users, limits, firstId);
    ReadBackProject(Writes(Plan(users, limits, firstId)), users[i].userId);
    ExpectedPerUser(users, limits.maxMessagesPerUser, i);
  }

  /** `total_interactions`: the read-back counts of the first users summed. */
  function Stored(users: seq<ProvisionedUser>, rows: seq<Interaction>): nat
  {
    if users == [] then 0
    else Stored(users[..|users| - 1], rows) + ReadBack(rows, users[|users| - 1].userId)
  }

  lemma {:induction false} KeptTotalSnoc(users: seq<ProvisionedUser>, cap: nat, i: nat)
    requires i < |users|
    ensures KeptTotal(users[..i + 1], cap) == KeptTotal(users[..i], cap) + Min(|users[i].demoMessages|, cap)
  {
    if i > 0 {
      assert users[..i + 1][1..] == users[1..][..i];
      assert users[..i][1..] == users[1..][..i - 1];
      KeptTotalSnoc(users[1..], cap, i - 1);
    } else {
      assert users[..1][1..] == [];
    }
  }

  /** After an uninterrupted schedule over users with distinct ids, the
      read-back total is the number of messages kept. */
  lemma {:induction false} StoredPlan(users: seq<ProvisionedUser>, limits: RateLimits, firstId: nat, i: nat)
    requires DistinctIds(users) && i <= |users|
    ensures Stored(users[..i], Writes(Plan(users, limits, firstId))) == KeptTotal(users[..i], limits.maxMessagesPerUser)
  {
    if i > 0 {
      assert users[..i][..i - 1] == users[..i - 1] && users[..i][i - 1] == users[i - 1];
      StoredPlan(users, limits, firstId, i - 1);
      PlanReadBack(users, limits, firstId, i - 1);
      KeptTotalSnoc(users, limits.maxMessagesPerUser, i - 1);
    }
  }

  /** The writes of a prefix of an event sequence are a prefix of its writes. */
  lemma WritesOfPrefix(a: seq<Event>, b: seq<Event>)
    requires a <= b
    ensures Writes(a) <= Writes(b)
  {
    assert b == a + b[|a|..];
    WritesAppend(a, b[|a|..]);
  }

  /** Whatever part of the plan runs writes fresh consecutive identifiers from
      `firstId` on, every row unprocessed with the acknowledgement. */
  lemma PlannedRows(users: seq<ProvisionedUser>, limits: RateLimits, firstId: nat, events: seq<Event>)
    requires events <= Plan(users, limits, firstId)
    ensures IdsFrom(Writes(events), firstId) && Unprocessed(Writes(events))
  {
    PlanWritesFollowRoster(users, limits, firstId);
    WritesOfPrefix(events, Plan(users, limits, firstId));
    var all := Writes(Plan(users, limits, firstId));
    assert forall k :: 0 <= k < |Writes(events)| ==> Writes(events)[k] == all[k];
  }

  /** A run cut short just before a write is a proper prefix of the plan, and
      it misses at least that write. */
  lemma CutBeforeWrite(done: seq<Event>, rest: seq<Event>, plan: seq<Event>)
    requires done + rest == plan && rest != [] && rest[0].Write?
    ensures done < plan && plan[|done|].Write?
    ensures |Writes(done)| < |Writes(plan)|
  {
    assert plan[..|done|] == done && plan[|done|] == rest[0];
    WritesAppend(done, rest);
    assert |Writes(rest)| == 1 + |Writes(rest[1..])|;
  }

  /** Writing message `j` (and pausing unless it was the last) consumes the head of the block. */
  lemma WriteMessage(done: seq<Event>, u: ProvisionedUser, kept: seq<string>, j: nat, id: nat, delay: nat,
                     gap: seq<Event>, whole: seq<Event>)
    requires j < |kept| && done + MessageEvents(u, kept, j, id, delay) == whole
    requires gap == if j + 1 < |kept| then [Pause(BetweenMessages, delay)] else []
    ensures done + [Write(Injected(u, kept[j], id))] + gap + MessageEvents(u, kept, j + 1, id + 1, delay) == whole
    ensures |Writes(done + [Write(Injected(u, kept[j], id))] + gap)| == |Writes(done)| + 1
  {
    var w := [Write(Injected(u, kept[j], id))];
    var rest := MessageEvents(u, kept, j + 1, id + 1, delay);
    assert MessageEvents(u, kept, j, id, delay) == w + gap + rest;
    assert done + (w + gap + rest) == done + w + gap + rest;
    WritesAppend(done + w, gap);
    WritesAppend(done, w);
    assert w[1..] == [];
    assert gap != [] ==> gap[1..] == [];
  }

  // ---------------------------------------------------------------------
  // The scheduler itself

  /** The message loop of one user. `written` commits precede it in the
      phase; `failAt` is as for `Pace`. On a raising commit, `cut` is the
      number of this user's rows committed before it. */
  method PaceUser(u: ProvisionedUser, kept: seq<string>, id: nat, delay: nat, written: nat, failAt: Option<nat>)
    returns (block: seq<Event>, ok: bool, cut: nat)
    requires failAt.None? || failAt.value >= written
    ensures ok <==> failAt.None? || failAt.value >= written + |kept|
    ensures ok ==> block == MessageEvents(u, kept, 0, id, delay) && |Writes(block)| == |kept|
    ensures !ok ==> cut < |kept| && failAt.value == written + cut && |Writes(block)| == cut
    ensures !ok ==> block + MessageEvents(u, kept, cut, id + cut, delay) == MessageEvents(u, kept, 0, id, delay)
  {
    ghost var whole := MessageEvents(u, kept, 0, id, delay);
    assert [] + whole == whole;
    block := [];
    var j: nat := 0;
    var next: nat := id;
    while j < |kept|
      invariant 0 <= j <= |kept| && next == id + j
      invariant block + MessageEvents(u, kept, j, next, delay) == whole
      invariant |Writes(block)| == j
      invariant failAt.None? || failAt.value >= written + j
    {
      if failAt == Some(written + j) {
        return block, false, j;
      }
      var gap := if j + 1 < |kept| then [Pause(BetweenMessages, delay)] else [];
      WriteMessage(block, u, kept, j, next, delay, gap, whole);
      block := block + [Write(Interaction(next, u.userId, u.agentId, kept[j], Acknowledgement, false))] + gap;
      j := j + 1;
      next := next + 1;
    }
    assert block + [] == block;
    ok, cut := true, 0;
  }

  /** The events of the phase once the first `n` users are done: the
      start-up wait, then each of those users' blocks and gaps. */
  function Staged(users: seq<ProvisionedUser>, n: nat, firstId: nat, limits: RateLimits): seq<Event>
    requires n <= |users|
  {
    if n == 0 then [Pause(BackendStartup, BackendStartupWait)]
    else
      Staged(users, n - 1, firstId, limits)
      + MessageEvents(users[n - 1], Kept(users[n - 1].demoMessages, limits.maxMessagesPerUser), 0,
                      firstId + KeptBefore(users, n - 1, limits.maxMessagesPerUser), limits.delayBetweenMessages)
      + UserGap(users, n - 1, limits)
  }

  /** The messages kept for the first `n` users. */
  function KeptBefore(users: seq<ProvisionedUser>, n: nat, cap: nat): nat
    requires n <= |users|
  {
    if n == 0 then 0 else KeptBefore(users, n - 1, cap) + Min(|users[n - 1].demoMessages|, cap)
  }

  lemma StagedStep(users: seq<ProvisionedUser>, i: nat, firstId: nat, limits: RateLimits, kept: seq<string>, id: nat)
    requires i < |users| && kept == Kept(users[i].demoMessages, limits.maxMessagesPerUser)
    requires id == firstId + KeptBefore(users, i, limits.maxMessagesPerUser)
    ensures Staged(users, i + 1, firstId, limits)
         == Staged(users, i, firstId, limits) + MessageEvents(users[i], kept, 0, id, limits.delayBetweenMessages)
            + UserGap(users, i, limits)
    ensures KeptBefore(users, i + 1, limits.maxMessagesPerUser) == KeptBefore(users, i, limits.maxMessagesPerUser) + |kept|
  {
  }

  /** The staged events followed by the rest of the user loop are the whole user loop. */
  lemma {:induction false} StagedThenRest(users: seq<ProvisionedUser>, n: nat, firstId: nat, limits: RateLimits)
    requires n <= |users|
    ensures Staged(users, n, firstId, limits)
            + UserEvents(users, n, firstId + KeptBefore(users, n, limits.maxMessagesPerUser), limits)
         == [Pause(BackendStartup, BackendStartupWait)] + UserEvents(users, 0, firstId, limits)
  {
    if n == 0 {
      assert firstId + KeptBefore(users, 0, limits.maxMessagesPerUser) == firstId;
    } else {
      var i := n - 1;
      var target := [Pause(BackendStartup, BackendStartupWait)] + UserEvents(users, 0, firstId, limits);
      StagedThenRest(users, i, firstId, limits);
      assert Staged(users, i, firstId, limits)
             + UserEvents(users, i, firstId + KeptBefore(users, i, limits.maxMessagesPerUser), limits) == target;
      StageOneMore(users, i, firstId, limits, target);
      assert i + 1 == n;
    }
  }

  /** Moving user `i` from the rest of the loop into the staged events. */
  lemma StageOneMore(users: seq<ProvisionedUser>, i: nat, firstId: nat, limits: RateLimits, target: seq<Event>)
    requires i < |users|
    requires Staged(users, i, firstId, limits)
             + UserEvents(users, i, firstId + KeptBefore(users, i, limits.maxMessagesPerUser), limits) == target
    ensures Staged(users, i + 1, firstId, limits)
            + UserEvents(users, i + 1, firstId + KeptBefore(users, i + 1, limits.maxMessagesPerUser), limits) == target
  {
    var cap := limits.maxMessagesPerUser;
    var kept := Kept(users[i].demoMessages, cap);
    var id := firstId + KeptBefore(users, i, cap);
    var before := Staged(users, i, firstId, limits);
    var whole := MessageEvents(users[i], kept, 0, id, limits.delayBetweenMessages);
    var gap := UserGap(users, i, limits);
    var rest := UserEvents(users, i + 1, id + |kept|, limits);
    StagedStep(users, i, firstId, limits, kept, id);
    assert firstId + KeptBefore(users, i + 1, cap) == id + |kept|;
    calc {
      Staged(users, i + 1, firstId, limits) + UserEvents(users, i + 1, firstId + KeptBefore(users, i + 1, cap), limits);
      before + whole + gap + rest;
      { SeqAssoc4(before, whole, gap, rest); }
      before + (whole + gap + rest);
      { assert UserEvents(users, i, id, limits) == whole + gap + rest; }
      before + UserEvents(users, i, id, limits);
    }
  }

  lemma SeqAssoc4<T>(a: seq<T>, b: seq<T>, c: seq<T>, d: seq<T>)
    ensures a + b + c + d == a + (b + c + d)
  {
  }

  /** The staged events of fewer users are a prefix of those of more users. */
  lemma {:induction false} StagedGrows(users: seq<ProvisionedUser>, n: nat, m: nat, firstId: nat, limits: RateLimits)
    requires n <= m <= |users|
    decreases m
    ensures Staged(users, n, firstId, limits) <= Staged(users, m, firstId, limits)
  {
    if n < m {
      StagedGrows(users, n, m - 1, firstId, limits);
      var cap := limits.maxMessagesPerUser;
      StagedStep(users, m - 1, firstId, limits, Kept(users[m - 1].demoMessages, cap),
                 firstId + KeptBefore(users, m - 1, cap));
      PrefixExtends(Staged(users, n, firstId, limits), Staged(users, m - 1, firstId, limits),
                    Staged(users, m, firstId, limits));
    }
  }

  lemma PrefixExtends<T>(a: seq<T>, b: seq<T>, c: seq<T>)
    requires a <= b && b <= c
    ensures a <= c
  {
    assert c[..|a|] == b[..|a|];
  }

  /** All users staged, then the processing wait: the plan. */
  lemma StagedPlan(users: seq<ProvisionedUser>, limits: RateLimits, firstId: nat)
    ensures Staged(users, |users|, firstId, limits) + [Pause(BackendProcessing, limits.backendProcessingWait)]
         == Plan(users, limits, firstId)
  {
    StagedThenRest(users, |users|, firstId, limits);
    var id := firstId + KeptBefore(users, |users|, limits.maxMessagesPerUser);
    assert UserEvents(users, |users|, id, limits) == [];
    assert Staged(users, |users|, firstId, limits) + [] == Staged(users, |users|, firstId, limits);
  }

  /** Runs the schedule against the store. `failAt` is the position, counted
      over all commits of the phase, of the first commit that raises (none if
      every commit succeeds). A raising commit aborts the phase: the rows
      committed before it stay, and the processing wait is not reached. */
  method Pace(users: seq<ProvisionedUser>, limits: RateLimits, firstId: nat, failAt: Option<nat>)
    returns (events: seq<Event>, ok: bool)
    ensures ok <==> failAt.None? || failAt.value >= KeptTotal(users, limits.maxMessagesPerUser)
    ensures ok ==> events == Plan(users, limits, firstId)
    ensures !ok ==> events < Plan(users, limits, firstId) && Plan(users, limits, firstId)[|events|].Write?
    ensures !ok ==> |Writes(events)| == failAt.value
  {
    var cap := limits.maxMessagesPerUser;
    var final := [Pause(BackendProcessing, limits.backendProcessingWait)];
    events := [Pause(BackendStartup, BackendStartupWait)];
    assert Writes(events) == [] by { assert events[1..] == []; }
    var written: nat := 0;
    var i := 0;
    while i < |users|
      invariant 0 <= i <= |users|
      invariant events == Staged(users, i, firstId, limits)
      invariant written == KeptBefore(users, i, cap) && |Writes(events)| == written
      invariant failAt.None? || failAt.value >= written
    {
      var next, userOk, count := PaceStage(users, i, limits, firstId, failAt, events, written);
      if !userOk {
        return next, false;
      }
      events := next;
      written := written + count;
      i := i + 1;
    }
    StagedComplete(users, limits, firstId, events, written);
    events := events + final;
    ok := true;
  }

  /** Once every user is staged, the processing wait completes the plan, and
      the commits made are all the plan has. */
  lemma StagedComplete(users: seq<ProvisionedUser>, limits: RateLimits, firstId: nat, events: seq<Event>, written: nat)
    requires events == Staged(users, |users|, firstId, limits) && |Writes(events)| == written
    ensures events + [Pause(BackendProcessing, limits.backendProcessingWait)] == Plan(users, limits, firstId)
    ensures written == KeptTotal(users, limits.maxMessagesPerUser)
  {
    StagedPlan(users, limits, firstId);
    AppendKeepsWrites(events, Pause(BackendProcessing, limits.backendProcessingWait));
    PlanWriteCount(users, limits, firstId);
  }

  /** One pass of the user loop: user `i`'s messages, then the gap after it.
      `events` is what the loop has done for the users before it, holding
      `written` commits. The pass either reaches the next stage, having
      committed `count` more rows, or stops at the raising commit. */
  method PaceStage(users: seq<ProvisionedUser>, i: nat, limits: RateLimits, firstId: nat, failAt: Option<nat>,
                   events: seq<Event>, written: nat)
    returns (next: seq<Event>, userOk: bool, count: nat)
    requires i < |users| && events == Staged(users, i, firstId, limits)
    requires written == KeptBefore(users, i, limits.maxMessagesPerUser) && |Writes(events)| == written
    requires failAt.None? || failAt.value >= written
    ensures userOk ==> next == Staged(users, i + 1, firstId, limits)
    ensures userOk ==> written + count == KeptBefore(users, i + 1, limits.maxMessagesPerUser)
    ensures userOk ==> |Writes(next)| == written + count && (failAt.None? || failAt.value >= written + count)
    ensures !userOk ==> next < Plan(users, limits, firstId) && Plan(users, limits, firstId)[|next|].Write?
    ensures !userOk ==> failAt.Some? && |Writes(next)| == failAt.value < KeptTotal(users, limits.maxMessagesPerUser)
  {
    var id := firstId + written;
    var kept := Kept(users[i].demoMessages, limits.maxMessagesPerUser);
    var gap := if i + 1 < |users| then [Pause(BetweenUsers, limits.delayBetweenUsers)] else [];
    var block, ok, cut := PaceUser(users[i], kept, id, limits.delayBetweenMessages, written, failAt);
    WritesAppend(events, block);
    count := |kept|;
    if !ok {
      CutInUser(events, block, users, i, firstId, limits, kept, id, cut);
      PlanWriteCount(users, limits, firstId);
      return events + block, false, count;
    }
    StagedStep(users, i, firstId, limits, kept, id);
    WritesAppend(events + block, gap);
    assert Writes(gap) == [] by { assert gap != [] ==> gap[1..] == []; }
    next, userOk := events + block + gap, true;
  }

  /** A user's loop cut short before its `c`-th write cuts the plan before a write. */
  lemma CutInUser(done: seq<Event>, block: seq<Event>, users: seq<ProvisionedUser>, i: nat, firstId: nat,
                  limits: RateLimits, kept: seq<string>, id: nat, c: nat)
    requires i < |users| && done == Staged(users, i, firstId, limits)
    requires kept == Kept(users[i].demoMessages, limits.maxMessagesPerUser) && c < |kept|
    requires id == firstId + KeptBefore(users, i, limits.maxMessagesPerUser)
    requires block + MessageEvents(users[i], kept, c, id + c, limits.delayBetweenMessages)
             == MessageEvents(users[i], kept, 0, id, limits.delayBetweenMessages)
    ensures done + block < Plan(users, limits, firstId) && Plan(users, limits, firstId)[|done + block|].Write?
    ensures |Writes(done + block)| < |Writes(Plan(users, limits, firstId))|
  {
    var plan := Plan(users, limits, firstId);
    var stage := Staged(users, i + 1, firstId, limits);
    StagedStep(users, i, firstId, limits, kept, id);
    StagedGrows(users, i + 1, |users|, firstId, limits);
    StagedPlan(users, limits, firstId);
    PrefixExtends(stage, Staged(users, |users|, firstId, limits), plan);
    MessageEventsHead(users[i], kept, c, id + c, limits.delayBetweenMessages);
    CutInStage(done, block, MessageEvents(users[i], kept, c, id + c, limits.delayBetweenMessages),
               MessageEvents(users[i], kept, 0, id, limits.delayBetweenMessages), UserGap(users, i, limits),
               stage, plan);
  }

  /** Cutting a staged block just before a write cuts every extension of the stage there. */
  lemma CutInStage(done: seq<Event>, block: seq<Event>, rest: seq<Event>, whole: seq<Event>,
                   gap: seq<Event>, stage: seq<Event>, plan: seq<Event>)
    requires stage == done + whole + gap && block + rest == whole && stage <= plan
    requires rest != [] && rest[0].Write?
    ensures done + block < plan && plan[|done + block|].Write?
    ensures |Writes(done + block)| < |Writes(plan)|
  {
    var k := |done + block|;
    assert stage[k] == rest[0];
    assert stage[..k] == done + block;
    assert plan[..k] == done + block && plan[k] == rest[0];
    assert plan[..k] + plan[k..] == plan;
    CutBeforeWrite(plan[..k], plan[k..], plan);
  }

  lemma PlanWriteCount(users: seq<ProvisionedUser>, limits: RateLimits, firstId: nat)
    ensures |Writes(Plan(users, limits, firstId))| == KeptTotal(users, limits.maxMessagesPerUser)
  {
    PlanWritesFollowRoster(users, limits, firstId);
  }

  /** Appending one event adds its row, if it is a write. */
  lemma AppendKeepsWrites(events: seq<Event>, e: Event)
    ensures |Writes(events + [e])| == |Writes(events)| + (if e.Write? then 1 else 0)
  {
    WritesAppend(events, [e]);
    assert [e][1..] == [];
  }
}
