/**
 * The feedback server's routes: the authorisation gates and store updates of
 * submit, update and acknowledge, and the read-only dashboard and team
 * queries. The caller is the user the token decorator has already loaded;
 * request payloads are the decoded JSON bodies, with an absent key as None.
 */
module Routes {
  import opened Models
  import opened Sequences

  /** The body of `POST /feedback`. */
  datatype SubmitPayload = SubmitPayload(
    recipientId: Option<int>,
    strengths: Option<string>,
    areasToImprove: Option<string>,
    sentiment: Option<string>)
  {
    /** Key presence only: blank text and any sentiment string pass. */
    predicate HasRequiredKeys() {
      recipientId.Some? && strengths.Some? && areasToImprove.Some? && sentiment.Some?
    }
  }

  /** The body of `PUT /feedback/<id>`: each content field may be left out. */
  datatype UpdatePayload = UpdatePayload(
    strengths: Option<string>,
    areasToImprove: Option<string>,
    sentiment: Option<string>)

  /** An HTTP answer: a status with either a message or a serialised record. */
  datatype Reply = Message(status: int, text: string) | Body(status: int, json: map<string, Json>)

  /** The outcome of an authorisation gate. */
  datatype Verdict = Allowed | Denied(status: int, text: string)

  /** What a state-changing route answers and the feedback table it leaves. */
  datatype Step = Step(reply: Reply, feedback: seq<Feedback>)

  const OnlyManagersSubmit := "Only managers can submit feedback"
  const MissingFields := "Missing required fields"
  const NotOnTeam := "Recipient is not on your team"
  const NotFound := "Not Found"
  const UnauthorizedUpdate := "Unauthorized to update this feedback"
  const UnauthorizedAcknowledge := "Unauthorized to acknowledge this feedback"
  const InvalidRoleText := "Invalid role"
  const OnlyManagersTeam := "Only managers can view teams"
  const NoTeamManaged := "You do not manage a team"
  const NoTeamName := "No Team Assigned"

  function RecipientOf(f: Feedback): int { f.recipientId }
  function SentimentOf(f: Feedback): string { f.sentiment }

  /** The first team whose manager is `managerId`, as `.first()` returns it. */
  function ManagedTeam(teams: seq<Team>, managerId: int): (r: Option<Team>)
    ensures r.Some? ==> r.value in teams && r.value.managerId == managerId
    ensures r.None? ==> forall t :: t in teams ==> t.managerId != managerId
  {
    if teams == [] then None
    else if teams[0].managerId == managerId then Some(teams[0])
    else ManagedTeam(teams[1..], managerId)
  }

  /** The index of the feedback row with primary key `id`. */
  function FindFeedback(fs: seq<Feedback>, id: int): (r: Option<nat>)
    ensures r.Some? ==> r.value < |fs| && fs[r.value].id == id
    ensures r.Some? ==> forall j :: 0 <= j < r.value ==> fs[j].id != id
    ensures r.None? ==> forall j :: 0 <= j < |fs| ==> fs[j].id != id
  {
    if fs == [] then None
    else if fs[0].id == id then Some(0)
    else match FindFeedback(fs[1..], id)
      case None => None
      case Some(k) => Some(k + 1)
  }

  /**
   * The recipient exists and belongs to the first team the manager manages:
   * the negation of `not recipient or not team or recipient.team_id != team.id`.
   */
  function OnManagersTeam(users: seq<User>, teams: seq<Team>, managerId: int, recipientId: int): (on: bool)
    ensures on ==> ManagedTeam(teams, managerId).Some?
    ensures on ==> exists u :: u in users && u.id == recipientId && u.teamId == Some(ManagedTeam(teams, managerId).value.id)
    ensures (forall u :: u in users ==> u.id != recipientId) ==> !on
    ensures UserIdsUnique(users) && ManagedTeam(teams, managerId).Some? ==>
              forall u :: (u in users && u.id == recipientId && u.teamId == Some(ManagedTeam(teams, managerId).value.id)) ==> on
  {
    assert UserIdsUnique(users) ==> forall u :: u in users ==> FindUser(users, u.id) == Some(u) by {
      if UserIdsUnique(users) {
        forall u | u in users ensures FindUser(users, u.id) == Some(u) {
          FindUserUnique(users, u);
        }
      }
    }
    match (FindUser(users, recipientId), ManagedTeam(teams, managerId))
    case (Some(r), Some(t)) => r.teamId == Some(t.id)
    case _ => false
  }

  // ---------------------------------------------------------------- submit

  /** The three gates of `submit_feedback`, in the order the route applies them. */
  function SubmitVerdict(users: seq<User>, teams: seq<Team>, caller: User, p: SubmitPayload): (v: Verdict)
    ensures caller.role != ManagerRole ==> v == Denied(403, OnlyManagersSubmit)
    ensures caller.role == ManagerRole && !p.HasRequiredKeys() ==> v == Denied(400, MissingFields)
    ensures caller.role == ManagerRole && p.HasRequiredKeys() ==>
              (v == Allowed <==> OnManagersTeam(users, teams, caller.id, p.recipientId.value))
    ensures v != Allowed && caller.role == ManagerRole && p.HasRequiredKeys() ==>
              v == Denied(403, NotOnTeam)
  {
    if caller.role != ManagerRole then Denied(403, OnlyManagersSubmit)
    else if !p.HasRequiredKeys() then Denied(400, MissingFields)
    else if !OnManagersTeam(users, teams, caller.id, p.recipientId.value) then Denied(403, NotOnTeam)
    else Allowed
  }

  /** The row `submit_feedback` inserts: authored by the caller, not acknowledged. */
  function Submitted(id: int, caller: User, p: SubmitPayload, now: int): (f: Feedback)
    requires p.HasRequiredKeys()
    ensures f.id == id && f.authorId == caller.id && !f.acknowledged && f.createdAt == now
    ensures f.recipientId == p.recipientId.value && f.strengths == p.strengths.value
    ensures f.areasToImprove == p.areasToImprove.value && f.sentiment == p.sentiment.value
  {
    NewFeedback(id, caller.id, p.recipientId.value, p.strengths.value,
                p.areasToImprove.value, p.sentiment.value, now)
  }

  /**
   * `POST /feedback`: a rejection leaves the table as it was; a success
   * appends exactly one row, copied from the payload, and answers 201.
   */
  function SubmitStep(users: seq<User>, teams: seq<Team>, fs: seq<Feedback>, nextId: int,
                      caller: User, p: SubmitPayload, now: int): (s: Step)
    ensures s.reply.status in {201, 400, 403}
    ensures s.reply.status == 201 <==> SubmitVerdict(users, teams, caller, p) == Allowed
    ensures s.reply.status != 201 ==> s.feedback == fs && s.reply.Message?
    ensures s.reply.status != 201 ==>
              s.reply == Message(SubmitVerdict(users, teams, caller, p).status, SubmitVerdict(users, teams, caller, p).text)
    ensures s.reply.status == 201 ==>
              && p.HasRequiredKeys()
              && |s.feedback| == |fs| + 1
              && s.feedback[..|fs|] == fs
              && var f := s.feedback[|fs|];
                 && f.id == nextId && f.authorId == caller.id && !f.acknowledged
                 && f.recipientId == p.recipientId.value && f.strengths == p.strengths.value
                 && f.areasToImprove == p.areasToImprove.value && f.sentiment == p.sentiment.value
                 && f.createdAt == now
                 && s.reply == Body(201, FeedbackToDict(f, users))
  {
    var v := SubmitVerdict(users, teams, caller, p);
    if v.Denied? then Step(Message(v.status, v.text), fs)
    else
      var f := Submitted(nextId, caller, p, now);
      assert (fs + [f])[..|fs|] == fs;
      Step(Body(201, FeedbackToDict(f, users)), fs + [f])
  }

  // ---------------------------------------------------------------- update

  /** `get_or_404`, then the role-and-authorship gate of `update_feedback`. */
  function UpdateVerdict(fs: seq<Feedback>, caller: User, id: int): (v: Verdict)
    ensures FindFeedback(fs, id).None? ==> v == Denied(404, NotFound)
    ensures FindFeedback(fs, id).Some? ==>
              (v == Allowed <==> caller.role == ManagerRole && fs[FindFeedback(fs, id).value].authorId == caller.id)
    ensures FindFeedback(fs, id).Some? && v != Allowed ==> v == Denied(403, UnauthorizedUpdate)
  {
    match FindFeedback(fs, id)
    case None => Denied(404, NotFound)
    case Some(i) =>
      if caller.role != ManagerRole || fs[i].authorId != caller.id then Denied(403, UnauthorizedUpdate)
      else Allowed
  }

  function Choose(given: Option<string>, current: string): string {
    if given.Some? then given.value else current
  }

  /**
   * The three assignments of `update_feedback`: a field present in the payload
   * replaces the stored one, an absent field keeps it, and identity, authorship,
   * recipient, acknowledgement and creation time never change.
   */
  function Edited(f: Feedback, p: UpdatePayload): (g: Feedback)
    ensures g.id == f.id && g.authorId == f.authorId && g.recipientId == f.recipientId
    ensures g.acknowledged == f.acknowledged && g.createdAt == f.createdAt
    ensures p.strengths.None? ==> g.strengths == f.strengths
    ensures p.strengths.Some? ==> g.strengths == p.strengths.value
    ensures p.areasToImprove.None? ==> g.areasToImprove == f.areasToImprove
    ensures p.areasToImprove.Some? ==> g.areasToImprove == p.areasToImprove.value
    ensures p.sentiment.None? ==> g.sentiment == f.sentiment
    ensures p.sentiment.Some? ==> g.sentiment == p.sentiment.value
  {
    f.(strengths := Choose(p.strengths, f.strengths),
       areasToImprove := Choose(p.areasToImprove, f.areasToImprove),
       sentiment := Choose(p.sentiment, f.sentiment))
  }

  /** `PUT /feedback/<id>`: only the addressed row may change, and only on 200. */
  function UpdateStep(users: seq<User>, fs: seq<Feedback>, caller: User, id: int, p: UpdatePayload): (s: Step)
    ensures s.reply.status in {200, 403, 404}
    ensures s.reply.status == 200 <==> UpdateVerdict(fs, caller, id) == Allowed
    ensures s.reply.status != 200 ==> s.feedback == fs && s.reply.Message?
    ensures s.reply.status != 200 ==>
              s.reply == Message(UpdateVerdict(fs, caller, id).status, UpdateVerdict(fs, caller, id).text)
    ensures |s.feedback| == |fs|
    ensures forall j :: 0 <= j < |fs| && fs[j].id != id ==> s.feedback[j] == fs[j]
    ensures s.reply.status == 200 ==>
              && FindFeedback(fs, id).Some?
              && var i := FindFeedback(fs, id).value;
                 && s.feedback == fs[i := Edited(fs[i], p)]
                 && s.reply == Body(200, FeedbackToDict(s.feedback[i], users))
  {
    var v := UpdateVerdict(fs, caller, id);
    if v.Denied? then Step(Message(v.status, v.text), fs)
    else
      var i := FindFeedback(fs, id).value;
      var g := Edited(fs[i], p);
      Step(Body(200, FeedbackToDict(g, users)), fs[i := g])
  }

  // ----------------------------------------------------------- acknowledge

  /** `get_or_404`, then the role-and-recipient gate of `acknowledge_feedback`. */
  function AcknowledgeVerdict(fs: seq<Feedback>, caller: User, id: int): (v: Verdict)
    ensures FindFeedback(fs, id).None? ==> v == Denied(404, NotFound)
    ensures FindFeedback(fs, id).Some? ==>
              (v == Allowed <==> caller.role == EmployeeRole && fs[FindFeedback(fs, id).value].recipientId == caller.id)
    ensures FindFeedback(fs, id).Some? && v != Allowed ==> v == Denied(403, UnauthorizedAcknowledge)
  {
    match FindFeedback(fs, id)
    case None => Denied(404, NotFound)
    case Some(i) =>
      if caller.role != EmployeeRole || fs[i].recipientId != caller.id then Denied(403, UnauthorizedAcknowledge)
      else Allowed
  }

  /** `PUT /feedback/acknowledge/<id>`: sets the flag, whatever its old value. */
  function AcknowledgeStep(users: seq<User>, fs: seq<Feedback>, caller: User, id: int): (s: Step)
    ensures s.reply.status in {200, 403, 404}
    ensures s.reply.status == 200 <==> AcknowledgeVerdict(fs, caller, id) == Allowed
    ensures s.reply.status != 200 ==> s.feedback == fs && s.reply.Message?
    ensures s.reply.status != 200 ==>
              s.reply == Message(AcknowledgeVerdict(fs, caller, id).status, AcknowledgeVerdict(fs, caller, id).text)
    ensures |s.feedback| == |fs|
    ensures forall j :: 0 <= j < |fs| && fs[j].id != id ==> s.feedback[j] == fs[j]
    ensures s.reply.status == 200 ==>
              && FindFeedback(fs, id).Some?
              && var i := FindFeedback(fs, id).value;
                 && s.feedback == fs[i := fs[i].(acknowledged := true)]
                 && s.reply == Body(200, FeedbackToDict(s.feedback[i], users))
  {
    var v := AcknowledgeVerdict(fs, caller, id);
    if v.Denied? then Step(Message(v.status, v.text), fs)
    else
      var i := FindFeedback(fs, id).value;
      var g := fs[i].(acknowledged := true);
      Step(Body(200, FeedbackToDict(g, users)), fs[i := g])
  }

  // --------------------------------------------------------------- queries

  /** `User.query.filter_by(team_id=..., role='employee')`, in table order. */
  function TeamMembers(users: seq<User>, teamId: int): (ms: seq<User>)
    ensures forall u :: u in ms ==> u in users && u.role == EmployeeRole && u.teamId == Some(teamId)
    ensures forall u :: u in users && u.role == EmployeeRole && u.teamId == Some(teamId) ==> u in ms
    ensures UserIdsUnique(users) ==> UserIdsUnique(ms)
  {
    if users == [] then []
    else
      var rest := TeamMembers(users[1..], teamId);
      assert UserIdsUnique(users) ==> UserIdsUnique(users[1..]) by {
        if UserIdsUnique(users) {
          forall i, j | 0 <= i < j < |users[1..]| ensures users[1..][i].id != users[1..][j].id {
            assert users[1..][i] == users[i + 1] && users[1..][j] == users[j + 1];
          }
        }
      }
      if users[0].role == EmployeeRole && users[0].teamId == Some(teamId) then
        assert UserIdsUnique(users) ==> forall u :: u in rest ==> u.id != users[0].id by {
          if UserIdsUnique(users) {
            forall u | u in rest ensures u.id != users[0].id {
              var k :| 0 <= k < |users[1..]| && users[1..][k] == u;
              assert users[k + 1] == u;
            }
          }
        }
        [users[0]] + rest
      else rest
  }

  /** The `member_ids` list. */
  function MemberIds(ms: seq<User>): (ids: seq<int>)
    ensures |ids| == |ms| && forall i :: 0 <= i < |ms| ==> ids[i] == ms[i].id
  {
    seq(|ms|, i requires 0 <= i < |ms| => ms[i].id)
  }

  /** The rows whose recipient is one of `ids`, in table order. */
  function ReceivedByAny(fs: seq<Feedback>, ids: seq<int>): (r: seq<Feedback>)
    ensures |r| == CountIn(fs, RecipientOf, ids)
    ensures forall f :: f in r ==> f in fs && f.recipientId in ids
    ensures forall f :: f in fs && f.recipientId in ids ==> f in r
  {
    if fs == [] then []
    else
      var last := fs[|fs| - 1];
      var rest := ReceivedByAny(fs[..|fs| - 1], ids);
      assert fs == fs[..|fs| - 1] + [last];
      if last.recipientId in ids then rest + [last] else rest
  }

  /** The rows addressed to one user. */
  function AddressedTo(fs: seq<Feedback>, id: int): (r: seq<Feedback>)
    ensures forall f :: f in r ==> f in fs && f.recipientId == id
    ensures forall f :: f in fs && f.recipientId == id ==> f in r
  {
    ReceivedByAny(fs, [id])
  }

  predicate NewestFirstOrder(fs: seq<Feedback>) {
    forall i, j :: 0 <= i < j < |fs| ==> fs[i].createdAt >= fs[j].createdAt
  }

  function InsertByDate(f: Feedback, sorted: seq<Feedback>): (r: seq<Feedback>)
    requires NewestFirstOrder(sorted)
    ensures NewestFirstOrder(r)
    ensures multiset(r) == multiset(sorted) + multiset{f}
    ensures |r| == |sorted| + 1
    ensures r[0] == f || (sorted != [] && r[0] == sorted[0])
  {
    if sorted == [] || f.createdAt >= sorted[0].createdAt then [f] + sorted
    else
      var rest := InsertByDate(f, sorted[1..]);
      assert sorted == [sorted[0]] + sorted[1..];
      [sorted[0]] + rest
  }

  /**
   * `order_by(Feedback.created_at.desc())`: newest first; rows with the same
   * time keep their table order.
   */
  function NewestFirst(fs: seq<Feedback>): (r: seq<Feedback>)
    ensures NewestFirstOrder(r)
    ensures multiset(r) == multiset(fs)
  {
    if fs == [] then []
    else
      assert fs == [fs[0]] + fs[1..];
      InsertByDate(fs[0], NewestFirst(fs[1..]))
  }

  /**
   * A member's `feedback_history` and an employee's `feedback_timeline`: the
   * rows addressed to that user, each once, newest first.
   */
  function History(fs: seq<Feedback>, id: int): (h: seq<Feedback>)
    ensures NewestFirstOrder(h)
    ensures multiset(h) == multiset(AddressedTo(fs, id))
    ensures forall f :: f in h ==> f in fs && f.recipientId == id
    ensures forall f :: f in fs && f.recipientId == id ==> f in h
  {
    var h := NewestFirst(AddressedTo(fs, id));
    assert forall f :: f in h <==> f in multiset(h);
    h
  }

  function SumCounts(groups: seq<(string, nat)>): nat {
    if groups == [] then 0 else groups[0].1 + SumCounts(groups[1..])
  }

  lemma {:induction false} SumCountsOfTally(keys: seq<string>, fs: seq<Feedback>)
    ensures SumCounts(seq(|keys|, i requires 0 <= i < |keys| => (keys[i], CountBy(fs, SentimentOf, keys[i]))))
            == SumBy(keys, fs, SentimentOf)
  {
    if keys != [] {
      var g := seq(|keys|, i requires 0 <= i < |keys| => (keys[i], CountBy(fs, SentimentOf, keys[i])));
      var keys' := keys[1..];
      assert g[1..] == seq(|keys'|, i requires 0 <= i < |keys'| => (keys'[i], CountBy(fs, SentimentOf, keys'[i])));
      SumCountsOfTally(keys', fs);
    }
  }

  /**
   * `group_by(Feedback.sentiment)` with `count`: one group per sentiment
   * string that occurs, listed in first-occurrence order, with its row count.
   */
  function GroupBySentiment(fs: seq<Feedback>): (groups: seq<(string, nat)>)
    ensures |groups| <= |fs|
    ensures forall i :: 0 <= i < |groups| ==> groups[i].1 == CountBy(fs, SentimentOf, groups[i].0)
  {
    var all := seq(|fs|, i requires 0 <= i < |fs| => fs[i].sentiment);
    var keys := FirstOccurrences(all);
    seq(|keys|, i requires 0 <= i < |keys| => (keys[i], CountBy(fs, SentimentOf, keys[i])))
  }

  /**
   * The groups have distinct sentiments, each occurring sentiment has a group
   * with a positive count of its rows, and together they count every row once.
   */
  lemma GroupBySentimentSpec(fs: seq<Feedback>)
    ensures var groups := GroupBySentiment(fs);
      && (forall i, j :: 0 <= i < j < |groups| ==> groups[i].0 != groups[j].0)
      && (forall i :: 0 <= i < |groups| ==> groups[i].1 == CountBy(fs, SentimentOf, groups[i].0) >= 1)
      && (forall f :: f in fs ==> exists i :: 0 <= i < |groups| && groups[i].0 == f.sentiment)
      && SumCounts(groups) == |fs|
  {
    var all := seq(|fs|, i requires 0 <= i < |fs| => fs[i].sentiment);
    var keys := FirstOccurrences(all);
    FirstOccurrencesSpec(all);
    var groups := GroupBySentiment(fs);
    assert |groups| == |keys|;
    forall i | 0 <= i < |keys| ensures groups[i].1 >= 1 {
      assert keys[i] in keys;
      assert keys[i] in all;
      var k :| 0 <= k < |all| && all[k] == keys[i];
      CountByPositive(fs, SentimentOf, fs[k]);
    }
    forall f | f in fs ensures exists i :: 0 <= i < |groups| && groups[i].0 == f.sentiment {
      var k :| 0 <= k < |fs| && fs[k] == f;
      assert all[k] == f.sentiment;
      var i := FirstIndex(keys, f.sentiment);
      assert groups[i].0 == f.sentiment;
    }
    assert forall f :: f in fs ==> SentimentOf(f) in keys by {
      forall f | f in fs ensures SentimentOf(f) in keys {
        var k :| 0 <= k < |fs| && fs[k] == f;
        assert all[k] == f.sentiment;
      }
    }
    SumCountsOfTally(keys, fs);
    SumByDistinct(keys, fs, SentimentOf);
    CountInAll(fs, SentimentOf, keys);
  }

  /** A team member as the manager's dashboard lists them. */
  datatype MemberView = MemberView(member: User, feedbackHistory: seq<Feedback>)

  /** What `GET /dashboard` answers, by the caller's role. */
  datatype DashboardReply =
    | ManagerDashboard(teamName: string, feedbackCount: nat,
                       sentimentTrends: seq<(string, nat)>, teamMembers: seq<MemberView>)
    | EmployeeDashboard(feedbackTimeline: seq<Feedback>)
    | DashboardDenied(status: int, text: string)

  function MemberViews(fs: seq<Feedback>, ms: seq<User>): (vs: seq<MemberView>)
    ensures |vs| == |ms|
    ensures forall i :: 0 <= i < |ms| ==> vs[i] == MemberView(ms[i], History(fs, ms[i].id))
  {
    seq(|ms|, i requires 0 <= i < |ms| => MemberView(ms[i], History(fs, ms[i].id)))
  }

  /** The view `get_dashboard` builds for a manager who manages team `t`. */
  function TeamDashboard(users: seq<User>, fs: seq<Feedback>, t: Team): (d: DashboardReply)
    ensures var ms := TeamMembers(users, t.id);
      && d.ManagerDashboard? && d.teamName == t.name
      && d.feedbackCount == CountIn(fs, RecipientOf, MemberIds(ms))
      && SumCounts(d.sentimentTrends) == d.feedbackCount
      && d.sentimentTrends == GroupBySentiment(ReceivedByAny(fs, MemberIds(ms)))
      && d.teamMembers == MemberViews(fs, ms)
  {
    var ms := TeamMembers(users, t.id);
    var received := ReceivedByAny(fs, MemberIds(ms));
    GroupBySentimentSpec(received);
    ManagerDashboard(t.name, |received|, GroupBySentiment(received), MemberViews(fs, ms))
  }

  /**
   * `GET /dashboard`. A manager with no team gets the empty placeholder; a
   * manager's `feedback_count` counts the rows RECEIVED by the employees of
   * their team (whoever wrote them); an employee gets their own timeline.
   */
  function Dashboard(users: seq<User>, teams: seq<Team>, fs: seq<Feedback>, caller: User): (d: DashboardReply)
    ensures caller.role == ManagerRole && ManagedTeam(teams, caller.id).None? ==>
              d == ManagerDashboard(NoTeamName, 0, [], [])
    ensures caller.role == ManagerRole && ManagedTeam(teams, caller.id).Some? ==>
              && d.ManagerDashboard?
              && var t := ManagedTeam(teams, caller.id).value;
                 var ms := TeamMembers(users, t.id);
                 && d.teamName == t.name
                 && d.feedbackCount == CountIn(fs, RecipientOf, MemberIds(ms))
                 && SumCounts(d.sentimentTrends) == d.feedbackCount
                 && d.sentimentTrends == GroupBySentiment(ReceivedByAny(fs, MemberIds(ms)))
                 && d.teamMembers == MemberViews(fs, ms)
                 && |d.teamMembers| == |ms|
                 && forall i :: 0 <= i < |ms| ==> d.teamMembers[i].member == ms[i]
    ensures caller.role == EmployeeRole ==> d == EmployeeDashboard(History(fs, caller.id))
    ensures caller.role != ManagerRole && caller.role != EmployeeRole ==> d == DashboardDenied(403, InvalidRoleText)
  {
    if caller.role == ManagerRole then
      match ManagedTeam(teams, caller.id)
      case None => ManagerDashboard(NoTeamName, 0, [], [])
      case Some(t) => TeamDashboard(users, fs, t)
    else if caller.role == EmployeeRole then EmployeeDashboard(History(fs, caller.id))
    else DashboardDenied(403, InvalidRoleText)
  }

  /** What `GET /team` answers. */
  datatype TeamReply = TeamDenied(status: int, text: string) | Roster(members: seq<map<string, Json>>)

  /** `GET /team`: the serialised employees of the caller's team, in table order. */
  function GetTeam(users: seq<User>, teams: seq<Team>, caller: User): (r: TeamReply)
    ensures caller.role != ManagerRole ==> r == TeamDenied(403, OnlyManagersTeam)
    ensures caller.role == ManagerRole && ManagedTeam(teams, caller.id).None? ==> r == TeamDenied(404, NoTeamManaged)
    ensures caller.role == ManagerRole && ManagedTeam(teams, caller.id).Some? ==> r.Roster?
    ensures r.Roster? ==>
              && caller.role == ManagerRole && ManagedTeam(teams, caller.id).Some?
              && var ms := TeamMembers(users, ManagedTeam(teams, caller.id).value.id);
                 && |r.members| == |ms|
                 && forall i :: 0 <= i < |ms| ==> r.members[i] == UserToDict(ms[i]) && "password_hash" !in r.members[i]
  {
    if caller.role != ManagerRole then TeamDenied(403, OnlyManagersTeam)
    else match ManagedTeam(teams, caller.id)
      case None => TeamDenied(404, NoTeamManaged)
      case Some(t) =>
        var ms := TeamMembers(users, t.id);
        Roster(seq(|ms|, i requires 0 <= i < |ms| => UserToDict(ms[i])))
  }

  // ---------------------------------------------------------------- store

  /** Rewriting a row without touching its id or its user references keeps the schema. */
  lemma ReplaceKeepsSchema(users: seq<User>, teams: seq<Team>, fs: seq<Feedback>, i: nat, g: Feedback)
    requires Schema(users, teams, fs) && i < |fs|
    requires g.id == fs[i].id && g.authorId == fs[i].authorId && g.recipientId == fs[i].recipientId
    ensures Schema(users, teams, fs[i := g])
  {
    var fs' := fs[i := g];
    forall f | f in fs' ensures IsUserId(users, f.authorId) && IsUserId(users, f.recipientId) {
      var k :| 0 <= k < |fs'| && fs'[k] == f;
      assert k != i ==> fs[k] == f;
      assert fs[k] in fs;
    }
  }

  /** The three tables; `nextId` stands for the database's id allocation. */
  class Store {
    var users: seq<User>
    var teams: seq<Team>
    var feedback: seq<Feedback>
    var nextId: int

    ghost predicate Valid()
      reads this
    {
      && Schema(users, teams, feedback)
      && forall f :: f in feedback ==> f.id < nextId
    }

    constructor (users: seq<User>, teams: seq<Team>)
      requires Schema(users, teams, [])
      ensures Valid()
      ensures this.users == users && this.teams == teams && feedback == [] && nextId == 1
    {
      this.users := users;
      this.teams := teams;
      feedback := [];
      nextId := 1;
    }

    /** `submit_feedback`: on success the new row is added with a fresh id. */
    method Submit(caller: User, p: SubmitPayload, now: int) returns (reply: Reply)
      requires Valid() && caller in users
      modifies this`feedback, this`nextId
      ensures Valid()
      ensures reply == SubmitStep(users, teams, old(feedback), old(nextId), caller, p, now).reply
      ensures feedback == SubmitStep(users, teams, old(feedback), old(nextId), caller, p, now).feedback
      ensures nextId == if reply.status == 201 then old(nextId) + 1 else old(nextId)
    {
      var v := SubmitVerdict(users, teams, caller, p);
      if v.Denied? {
        reply := Message(v.status, v.text);
        return;
      }
      var f := NewFeedback(nextId, caller.id, p.recipientId.value, p.strengths.value,
                           p.areasToImprove.value, p.sentiment.value, now);
      var recipient := FindUser(users, p.recipientId.value);
      assert IsUserId(users, caller.id) && IsUserId(users, recipient.value.id);
      feedback := feedback + [f];
      nextId := nextId + 1;
      reply := Body(201, FeedbackToDict(f, users));
    }

    /** `update_feedback`: overwrites the content fields the payload carries. */
    method Update(caller: User, id: int, p: UpdatePayload) returns (reply: Reply)
      requires Valid()
      modifies this`feedback
      ensures Valid()
      ensures reply == UpdateStep(users, old(feedback), caller, id, p).reply
      ensures feedback == UpdateStep(users, old(feedback), caller, id, p).feedback
    {
      var v := UpdateVerdict(feedback, caller, id);
      if v.Denied? {
        reply := Message(v.status, v.text);
        return;
      }
      var i := FindFeedback(feedback, id).value;
      var f := feedback[i];
      if p.strengths.Some? { f := f.(strengths := p.strengths.value); }
      if p.areasToImprove.Some? { f := f.(areasToImprove := p.areasToImprove.value); }
      if p.sentiment.Some? { f := f.(sentiment := p.sentiment.value); }
      assert f == Edited(feedback[i], p);
      ReplaceKeepsSchema(users, teams, feedback, i, f);
      feedback := feedback[i := f];
      reply := Body(200, FeedbackToDict(f, users));
    }

    /** `acknowledge_feedback`: sets the flag, and answers 200 again on a repeat. */
    method Acknowledge(caller: User, id: int) returns (reply: Reply)
      requires Valid()
      modifies this`feedback
      ensures Valid()
      ensures reply == AcknowledgeStep(users, old(feedback), caller, id).reply
      ensures feedback == AcknowledgeStep(users, old(feedback), caller, id).feedback
    {
      var v := AcknowledgeVerdict(feedback, caller, id);
      if v.Denied? {
        reply := Message(v.status, v.text);
        return;
      }
      var i := FindFeedback(feedback, id).value;
      ReplaceKeepsSchema(users, teams, feedback, i, feedback[i].(acknowledged := true));
      feedback := feedback[i := feedback[i].(acknowledged := true)];
      reply := Body(200, FeedbackToDict(feedback[i], users));
    }
  }
}
