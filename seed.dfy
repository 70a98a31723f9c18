/**
 * The database seed as a concrete scenario: two managers with a team each,
 * three employees and three feedback records, and what the routes answer on
 * it.
 */
module Seed {
  import opened Sequences
  import opened Models
  import opened Routes

  const Jane := User(1, "manager_jane", Some("Jane Smith"), "hash", ManagerRole, None)
  const John := User(2, "manager_doe", Some("John Doe"), "hash", ManagerRole, None)
  const Alice := User(3, "employee_alice", Some("Alice Inchains"), "hash", EmployeeRole, Some(1))
  const Bob := User(4, "employee_bob", Some("Bob Ross"), "hash", EmployeeRole, Some(1))
  const Charlie := User(5, "employee_charlie", Some("Charlie Chaplin"), "hash", EmployeeRole, Some(2))

  function SeedUsers(): seq<User> { [Jane, John, Alice, Bob, Charlie] }

  function SeedTeams(): seq<Team> { [Team(1, "Alpha Team", 1), Team(2, "Bravo Team", 2)] }

  /** The three seeded records, all inserted at `now`; only Bob's starts acknowledged. */
  function SeedFeedback(now: int): seq<Feedback> {
    [NewFeedback(1, 1, 3, "Excellent communication skills and team collaboration.",
                 "Could take more initiative on leading new projects.", "positive", now),
     NewFeedback(2, 1, 4, "Strong technical abilities and problem-solving.",
                 "Time management could be improved on larger tasks.", "neutral", now).(acknowledged := true),
     NewFeedback(3, 2, 5, "Very creative and brings new ideas to the team.",
                 "Needs to be more thorough in testing before deployment.", "positive", now)]
  }

  /** Ids and usernames of the seed are pairwise distinct. */
  lemma SeedKeysUnique(now: int)
    ensures UserIdsUnique(SeedUsers()) && UsernamesUnique(SeedUsers())
    ensures TeamIdsUnique(SeedTeams()) && FeedbackIdsUnique(SeedFeedback(now))
  {
  }

  /** Every team's manager, every employee's team and every record's author and recipient exist. */
  lemma SeedReferencesResolve(now: int)
    ensures forall t :: t in SeedTeams() ==> IsUserId(SeedUsers(), t.managerId)
    ensures forall u :: u in SeedUsers() && u.teamId.Some? ==> IsTeamId(SeedTeams(), u.teamId.value)
    ensures forall f :: f in SeedFeedback(now) ==> IsUserId(SeedUsers(), f.authorId) && IsUserId(SeedUsers(), f.recipientId)
  {
    var users := SeedUsers();
    assert IsUserId(users, 1) by { assert users[0] in users; }
    assert IsUserId(users, 2) by { assert users[1] in users; }
    assert IsUserId(users, 3) by { assert users[2] in users; }
    assert IsUserId(users, 4) by { assert users[3] in users; }
    assert IsUserId(users, 5) by { assert users[4] in users; }
    var teams := SeedTeams();
    assert IsTeamId(teams, 1) by { assert teams[0] in teams; }
    assert IsTeamId(teams, 2) by { assert teams[1] in teams; }
  }

  /** The seed respects the schema's keys and references. */
  lemma SeedRespectsSchema(now: int)
    ensures Schema(SeedUsers(), SeedTeams(), SeedFeedback(now))
  {
    SeedKeysUnique(now);
    SeedReferencesResolve(now);
  }

  /** Jane manages Alpha Team, whose employees are Alice and Bob. */
  lemma SeedAlphaTeam()
    ensures ManagedTeam(SeedTeams(), Jane.id) == Some(Team(1, "Alpha Team", 1))
    ensures MemberIds(TeamMembers(SeedUsers(), 1)) == [Alice.id, Bob.id]
  {
    assert ManagedTeam(SeedTeams(), Jane.id) == Some(Team(1, "Alpha Team", 1)) by {
      assert SeedTeams()[0].managerId == Jane.id;
    }
    assert MemberIds(TeamMembers(SeedUsers(), 1)) == [Alice.id, Bob.id] by {
      SeedAlphaMembers();
      MemberIdsOfPair(Alice, Bob);
    }
  }

  lemma MemberIdsOfPair(a: User, b: User)
    ensures MemberIds([a, b]) == [a.id, b.id]
  {
  }

  lemma SeedAlphaMembers()
    ensures TeamMembers(SeedUsers(), 1) == [Alice, Bob]
  {
    var users := SeedUsers();
    assert TeamMembers(users[4..], 1) == [] by {
      assert users[4..] == [Charlie] && users[4..][1..] == [];
    }
    assert TeamMembers(users[3..], 1) == [Bob] by {
      assert users[3..][1..] == users[4..];
    }
    assert TeamMembers(users[2..], 1) == [Alice, Bob] by {
      assert users[2..][1..] == users[3..];
    }
    assert users[1..][1..] == users[2..];
  }

  /** Jane's dashboard counts the two records her employees, Alice and Bob, received. */
  lemma SeedDashboard(now: int)
    ensures var d := Dashboard(SeedUsers(), SeedTeams(), SeedFeedback(now), Jane);
      d.ManagerDashboard? && d.teamName == "Alpha Team" && d.feedbackCount == 2
  {
    var users, teams, fs := SeedUsers(), SeedTeams(), SeedFeedback(now);
    var d := Dashboard(users, teams, fs, Jane);
    assert d.ManagerDashboard? && d.teamName == "Alpha Team" && d.feedbackCount == CountIn(fs, RecipientOf, [3, 4]) by {
      SeedAlphaTeam();
      DashboardOfTeam(users, teams, fs, Jane, Team(1, "Alpha Team", 1), [3, 4]);
    }
    assert CountIn(fs, RecipientOf, [3, 4]) == 2 by {
      RecipientsCounted(fs, [3, 4]);
    }
  }

  /** A manager's dashboard names the managed team and counts what its employees received. */
  lemma DashboardOfTeam(users: seq<User>, teams: seq<Team>, fs: seq<Feedback>, m: User, t: Team, ids: seq<int>)
    requires m.role == ManagerRole && ManagedTeam(teams, m.id) == Some(t)
    requires MemberIds(TeamMembers(users, t.id)) == ids
    ensures var d := Dashboard(users, teams, fs, m);
      d.ManagerDashboard? && d.teamName == t.name && d.feedbackCount == CountIn(fs, RecipientOf, ids)
  {
  }

  /** Three rows of which the first two are addressed to one of `ids`. */
  lemma RecipientsCounted(fs: seq<Feedback>, ids: seq<int>)
    requires |fs| == 3 && fs[0].recipientId in ids && fs[1].recipientId in ids && fs[2].recipientId !in ids
    ensures CountIn(fs, RecipientOf, ids) == 2
  {
    var f := RecipientOf;
    assert CountIn(fs[..1], f, ids) == 1 by {
      assert fs[..1][..0] == [] && fs[..1][0] == fs[0];
    }
    assert CountIn(fs[..2], f, ids) == 2 by {
      assert fs[..2][..1] == fs[..1] && fs[..2][1] == fs[1];
    }
    assert fs[..|fs| - 1] == fs[..2];
  }

  /** Jane may not address Charlie, who is on John's team. */
  lemma SeedSubmitOutsideTeam(p: SubmitPayload)
    requires p.HasRequiredKeys() && p.recipientId == Some(Charlie.id)
    ensures SubmitVerdict(SeedUsers(), SeedTeams(), Jane, p) == Denied(403, NotOnTeam)
  {
    assert FindUser(SeedUsers(), 5) == Some(Charlie);
  }

  /** Alice may acknowledge the record addressed to her; Bob may not. */
  lemma SeedAcknowledge(now: int)
    ensures AcknowledgeStep(SeedUsers(), SeedFeedback(now), Alice, 1).reply.status == 200
    ensures AcknowledgeStep(SeedUsers(), SeedFeedback(now), Bob, 1).reply == Message(403, UnauthorizedAcknowledge)
  {
    assert FindFeedback(SeedFeedback(now), 1) == Some(0);
  }
}
