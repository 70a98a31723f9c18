/**
 * Properties of the server routes that relate several requests: repeating an
 * acknowledgement, editing after it, the submit-then-acknowledge round trip,
 * and how a submission shows on the manager's dashboard.
 */
module RouteProperties {
  import opened Models
  import opened Sequences
  import opened Routes

  /** FindFeedback only looks at ids. */
  lemma FindFeedbackByIds(fs: seq<Feedback>, fs': seq<Feedback>, id: int)
    requires |fs| == |fs'| && forall j :: 0 <= j < |fs| ==> fs[j].id == fs'[j].id
    ensures FindFeedback(fs, id) == FindFeedback(fs', id)
  {
  }

  /**
   * Acknowledging is idempotent: once a request has succeeded, repeating it
   * succeeds again with the same answer and leaves the table as it is.
   */
  lemma AcknowledgeIsIdempotent(users: seq<User>, fs: seq<Feedback>, caller: User, id: int)
    requires AcknowledgeStep(users, fs, caller, id).reply.status == 200
    ensures var first := AcknowledgeStep(users, fs, caller, id);
            AcknowledgeStep(users, first.feedback, caller, id) == first
  {
    var first := AcknowledgeStep(users, fs, caller, id);
    var i := FindFeedback(fs, id).value;
    FindFeedbackByIds(fs, first.feedback, id);
    assert first.feedback[i := first.feedback[i].(acknowledged := true)] == first.feedback;
  }

  /**
   * Acknowledgement does not freeze a record: whether its author may edit it
   * is the same before and after, and an edit keeps it acknowledged.
   */
  lemma EditableAfterAcknowledgement(users: seq<User>, fs: seq<Feedback>, employee: User,
                                     manager: User, id: int, p: UpdatePayload)
    requires AcknowledgeStep(users, fs, employee, id).reply.status == 200
    ensures var acked := AcknowledgeStep(users, fs, employee, id).feedback;
      && UpdateVerdict(acked, manager, id) == UpdateVerdict(fs, manager, id)
      && var edit := UpdateStep(users, acked, manager, id, p);
         edit.reply.status == 200 ==> edit.feedback[FindFeedback(fs, id).value].acknowledged
  {
    var acked := AcknowledgeStep(users, fs, employee, id).feedback;
    FindFeedbackByIds(fs, acked, id);
  }

  /**
   * Submit, then acknowledge as the recipient: the acknowledgement succeeds and
   * the recipient's timeline shows the submitted record, acknowledged, with
   * every other field as submitted.
   */
  lemma SubmitThenAcknowledge(users: seq<User>, teams: seq<Team>, fs: seq<Feedback>, nextId: int,
                              manager: User, p: SubmitPayload, now: int, recipient: User)
    requires forall f :: f in fs ==> f.id < nextId
    requires SubmitStep(users, teams, fs, nextId, manager, p, now).reply.status == 201
    requires recipient in users && recipient.id == p.recipientId.value && recipient.role == EmployeeRole
    ensures var submitted := SubmitStep(users, teams, fs, nextId, manager, p, now).feedback;
            var acked := AcknowledgeStep(users, submitted, recipient, nextId);
      && acked.reply.status == 200
      && Dashboard(users, teams, acked.feedback, recipient).EmployeeDashboard?
      && Submitted(nextId, manager, p, now).(acknowledged := true)
           in Dashboard(users, teams, acked.feedback, recipient).feedbackTimeline
  {
    var submitted := SubmitStep(users, teams, fs, nextId, manager, p, now).feedback;
    var n := |fs|;
    assert submitted == fs + [Submitted(nextId, manager, p, now)] by {
      assert submitted[..n] == fs;
      assert submitted == submitted[..n] + [submitted[n]];
    }
    forall j | 0 <= j < n ensures submitted[j].id != nextId {
      assert submitted[j] == fs[j] && fs[j] in fs;
    }
    assert FindFeedback(submitted, nextId) == Some(n);
    var acked := AcknowledgeStep(users, submitted, recipient, nextId);
    var g := Submitted(nextId, manager, p, now).(acknowledged := true);
    assert acked.feedback[n] == g;
    assert g in acked.feedback;
  }

  /**
   * A successful submission raises the caller's `feedback_count` by one when
   * the recipient is an employee, and leaves it unchanged when the recipient is
   * another non-employee member of the team (the submit gate does not check
   * the recipient's role, but the count only looks at employees).
   */
  lemma SubmitRaisesFeedbackCount(users: seq<User>, teams: seq<Team>, fs: seq<Feedback>, nextId: int,
                                  manager: User, p: SubmitPayload, now: int)
    requires UserIdsUnique(users)
    requires SubmitStep(users, teams, fs, nextId, manager, p, now).reply.status == 201
    ensures var after := SubmitStep(users, teams, fs, nextId, manager, p, now).feedback;
            var recipient := FindUser(users, p.recipientId.value);
            var d0 := Dashboard(users, teams, fs, manager);
            var d1 := Dashboard(users, teams, after, manager);
      && recipient.Some?
      && d0.ManagerDashboard? && d1.ManagerDashboard?
      && d1.feedbackCount == d0.feedbackCount + (if recipient.value.role == EmployeeRole then 1 else 0)
  {
    var after := SubmitStep(users, teams, fs, nextId, manager, p, now).feedback;
    var t := ManagedTeam(teams, manager.id).value;
    var r := FindUser(users, p.recipientId.value).value;
    var ms := TeamMembers(users, t.id);
    var ids := MemberIds(ms);
    var n := |fs|;
    assert after[..n] == fs;
    assert CountIn(after, RecipientOf, ids)
           == CountIn(fs, RecipientOf, ids) + (if after[n].recipientId in ids then 1 else 0);
    assert after[n].recipientId == r.id;
    MemberIdOfTeammate(users, t.id, r);
  }

  /** With unique user ids, a teammate's id is among the member ids exactly when they are an employee. */
  lemma MemberIdOfTeammate(users: seq<User>, teamId: int, r: User)
    requires UserIdsUnique(users) && r in users && r.teamId == Some(teamId)
    ensures r.id in MemberIds(TeamMembers(users, teamId)) <==> r.role == EmployeeRole
  {
    var ms := TeamMembers(users, teamId);
    var ids := MemberIds(ms);
    if r.role == EmployeeRole {
      assert r in ms;
      var k :| 0 <= k < |ms| && ms[k] == r;
      assert ids[k] == r.id;
    }
    if r.id in ids {
      var k :| 0 <= k < |ids| && ids[k] == r.id;
      assert ms[k] in users;
      FindUserUnique(users, ms[k]);
      FindUserUnique(users, r);
    }
  }

  /** The total length of the members' feedback histories. */
  function HistoryTotal(views: seq<MemberView>): nat {
    if views == [] then 0 else |views[0].feedbackHistory| + HistoryTotal(views[1..])
  }

  lemma {:induction false} CountInSingleton(fs: seq<Feedback>, id: int)
    ensures CountIn(fs, RecipientOf, [id]) == CountBy(fs, RecipientOf, id)
  {
    if fs != [] {
      CountInSingleton(fs[..|fs| - 1], id);
    }
  }

  lemma {:induction false} HistoriesAddUp(fs: seq<Feedback>, ms: seq<User>)
    ensures HistoryTotal(MemberViews(fs, ms)) == SumBy(MemberIds(ms), fs, RecipientOf)
  {
    if ms != [] {
      var vs := MemberViews(fs, ms);
      assert vs[1..] == MemberViews(fs, ms[1..]);
      assert MemberIds(ms)[1..] == MemberIds(ms[1..]);
      HistoriesAddUp(fs, ms[1..]);
      var h := History(fs, ms[0].id);
      assert |h| == |multiset(h)| == |multiset(AddressedTo(fs, ms[0].id))| == |AddressedTo(fs, ms[0].id)|;
      CountInSingleton(fs, ms[0].id);
    }
  }

  /**
   * A manager's `feedback_count` equals the total length of the feedback
   * histories listed for the team's members: each received record is listed
   * under exactly one member.
   */
  lemma FeedbackCountIsTotalOfHistories(users: seq<User>, teams: seq<Team>, fs: seq<Feedback>, caller: User)
    requires UserIdsUnique(users)
    requires Dashboard(users, teams, fs, caller).ManagerDashboard?
    ensures var d := Dashboard(users, teams, fs, caller);
            d.feedbackCount == HistoryTotal(d.teamMembers)
  {
    match ManagedTeam(teams, caller.id)
    case None =>
    case Some(t) =>
      var ms := TeamMembers(users, t.id);
      var ids := MemberIds(ms);
      assert Distinct(ids) by {
        forall i, j | 0 <= i < j < |ids| ensures ids[i] != ids[j] {
          assert ids[i] == ms[i].id && ids[j] == ms[j].id;
        }
      }
      HistoriesAddUp(fs, ms);
      SumByDistinct(ids, fs, RecipientOf);
  }

  /**
   * `GET /team` and the manager's `GET /dashboard` list the same members in
   * the same order, which the client relies on when it matches them by id.
   */
  lemma TeamAndDashboardAgree(users: seq<User>, teams: seq<Team>, fs: seq<Feedback>, caller: User)
    requires GetTeam(users, teams, caller).Roster?
    ensures var roster := GetTeam(users, teams, caller).members;
            var d := Dashboard(users, teams, fs, caller);
      && d.ManagerDashboard? && |roster| == |d.teamMembers|
      && forall i :: 0 <= i < |roster| ==> roster[i] == UserToDict(d.teamMembers[i].member)
  {
  }
}
