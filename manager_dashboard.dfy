/**
 * The manager's page in the client: the sentiment trend chart built from the
 * selected employee's feedback history, which employee is selected after a
 * load, and which request the feedback form's Save sends.
 */
module ManagerDashboard {
  import opened Sequences
  import opened Models
  import opened ClientData
  import Routes

  /**
   * The month bucket of a date, `"<short month> <year>"` on the page. The
   * locale and time zone decide it, so the model takes the mapping from date
   * text to bucket as a parameter and treats the bucket as an opaque key.
   */
  datatype MonthYear = MonthYear(month: string, year: int)

  const Positive: string := "positive"
  const Neutral: string := "neutral"
  const Negative: string := "negative"
  const Sentiments: seq<string> := [Positive, Neutral, Negative]

  /** One `monthMap` entry: how many records of each charted sentiment fell in the month. */
  datatype Tally = Tally(positive: nat, neutral: nat, negative: nat)

  /** What `getSentimentTrends` returns: four index-aligned series. */
  datatype Trends = Trends(labels: seq<MonthYear>, positive: seq<nat>, neutral: seq<nat>, negative: seq<nat>)

  /** `fb.updated_at || fb.created_at`: the date a record is bucketed by. */
  function BucketDate(fb: ClientFeedback): (d: string)
    ensures Truthy(fb.updatedAt) ==> d == fb.updatedAt.value
    ensures !Truthy(fb.updatedAt) ==> d == fb.createdAt
  {
    if Truthy(fb.updatedAt) then fb.updatedAt.value else fb.createdAt
  }

  /** The bucket of a record, given the page's date-to-month mapping. */
  function BucketKey(monthOf: string -> MonthYear): ClientFeedback -> MonthYear {
    fb => monthOf(BucketDate(fb))
  }

  function SentimentOf(fb: ClientFeedback): string { fb.sentiment }

  /** The bucket of every record, in input order. */
  function Keys(h: seq<ClientFeedback>, key: ClientFeedback -> MonthYear): (ks: seq<MonthYear>)
    ensures |ks| == |h|
    ensures forall i :: 0 <= i < |h| ==> ks[i] == key(h[i])
  {
    if h == [] then [] else Keys(h[..|h| - 1], key) + [key(h[|h| - 1])]
  }

  /**
   * The trends of a history, defined directly: the buckets in order of first
   * occurrence, and for each bucket and charted sentiment the number of
   * records with that bucket and that sentiment.
   */
  function TrendsOf(h: seq<ClientFeedback>, monthOf: string -> MonthYear): (t: Trends)
    ensures |t.positive| == |t.labels| && |t.neutral| == |t.labels| && |t.negative| == |t.labels|
    ensures forall i :: 0 <= i < |t.labels| ==>
      && t.positive[i] == CountBy(Having(h, SentimentOf, Positive), BucketKey(monthOf), t.labels[i])
      && t.neutral[i] == CountBy(Having(h, SentimentOf, Neutral), BucketKey(monthOf), t.labels[i])
      && t.negative[i] == CountBy(Having(h, SentimentOf, Negative), BucketKey(monthOf), t.labels[i])
  {
    var key := BucketKey(monthOf);
    var labels := FirstOccurrences(Keys(h, key));
    Trends(labels,
           Counts(labels, Having(h, SentimentOf, Positive), key),
           Counts(labels, Having(h, SentimentOf, Neutral), key),
           Counts(labels, Having(h, SentimentOf, Negative), key))
  }

  /** A `monthMap` entry as it stands after the records `h`. */
  function TallyOf(h: seq<ClientFeedback>, key: ClientFeedback -> MonthYear, bucket: MonthYear): Tally {
    Tally(CountBy(Having(h, SentimentOf, Positive), key, bucket),
          CountBy(Having(h, SentimentOf, Neutral), key, bucket),
          CountBy(Having(h, SentimentOf, Negative), key, bucket))
  }

  /**
   * `monthMap[label][fb.sentiment] = (... || 0) + 1`: the counter of a charted
   * sentiment goes up by one; any other sentiment string lands in a key the
   * chart never reads, so the tally stays as it was.
   */
  function Bump(t: Tally, sentiment: string): (t': Tally)
    ensures t'.positive == t.positive + (if sentiment == Positive then 1 else 0)
    ensures t'.neutral == t.neutral + (if sentiment == Neutral then 1 else 0)
    ensures t'.negative == t.negative + (if sentiment == Negative then 1 else 0)
  {
    if sentiment == Positive then t.(positive := t.positive + 1)
    else if sentiment == Neutral then t.(neutral := t.neutral + 1)
    else if sentiment == Negative then t.(negative := t.negative + 1)
    else t
  }

  /** One more record moves only its own bucket's tally, by Bump. */
  lemma TallySnoc(h: seq<ClientFeedback>, x: ClientFeedback, key: ClientFeedback -> MonthYear, bucket: MonthYear)
    ensures TallyOf(h + [x], key, bucket)
            == if key(x) == bucket then Bump(TallyOf(h, key, bucket), x.sentiment) else TallyOf(h, key, bucket)
  {
    forall s | s in Sentiments
      ensures CountBy(Having(h + [x], SentimentOf, s), key, bucket)
              == CountBy(Having(h, SentimentOf, s), key, bucket)
                 + (if x.sentiment == s && key(x) == bucket then 1 else 0)
    {
      HavingSnoc(h, x, SentimentOf, s);
      if x.sentiment == s {
        assert Having(h + [x], SentimentOf, s) == Having(h, SentimentOf, s) + [x];
        CountBySnoc(Having(h, SentimentOf, s), x, key, bucket);
      } else {
        assert Having(h + [x], SentimentOf, s) == Having(h, SentimentOf, s);
      }
    }
  }

  /** A bucket no record has reached yet has an all-zero tally. */
  lemma TallyOfAbsent(h: seq<ClientFeedback>, key: ClientFeedback -> MonthYear, bucket: MonthYear)
    requires bucket !in Keys(h, key)
    ensures TallyOf(h, key, bucket) == Tally(0, 0, 0)
  {
    forall s | s in Sentiments ensures CountBy(Having(h, SentimentOf, s), key, bucket) == 0 {
      forall x | x in Having(h, SentimentOf, s) ensures key(x) != bucket {
        var i :| 0 <= i < |h| && h[i] == x;
        assert Keys(h, key)[i] == key(x);
      }
      CountByAbsent(Having(h, SentimentOf, s), key, bucket);
    }
  }

  lemma KeysSnoc(h: seq<ClientFeedback>, x: ClientFeedback, key: ClientFeedback -> MonthYear)
    ensures Keys(h + [x], key) == Keys(h, key) + [key(x)]
  {
    assert (h + [x])[..|h|] == h;
  }

  /** What `monthMap` and its key order hold after the records `h`. */
  predicate MonthMapAfter(h: seq<ClientFeedback>, key: ClientFeedback -> MonthYear,
                          monthMap: map<MonthYear, Tally>, labels: seq<MonthYear>) {
    && labels == FirstOccurrences(Keys(h, key))
    && (forall l :: l in monthMap ==> l in labels)
    && (forall l :: l in labels ==> l in monthMap)
    && (forall l :: l in monthMap ==> monthMap[l] == TallyOf(h, key, l))
  }

  /** One `forEach` step: open the record's bucket if it is new, then bump it. */
  lemma MonthMapStep(h: seq<ClientFeedback>, x: ClientFeedback, h': seq<ClientFeedback>,
                     key: ClientFeedback -> MonthYear,
                     monthMap: map<MonthYear, Tally>, labels: seq<MonthYear>,
                     monthMap': map<MonthYear, Tally>, labels': seq<MonthYear>)
    requires h' == h + [x]
    requires MonthMapAfter(h, key, monthMap, labels)
    requires key(x) in monthMap ==>
               labels' == labels && monthMap' == monthMap[key(x) := Bump(monthMap[key(x)], x.sentiment)]
    requires key(x) !in monthMap ==>
               labels' == labels + [key(x)] && monthMap' == monthMap[key(x) := Bump(Tally(0, 0, 0), x.sentiment)]
    ensures MonthMapAfter(h', key, monthMap', labels')
  {
    KeysSnoc(h, x, key);
    FirstOccurrencesSnoc(Keys(h, key), key(x));
    FirstOccurrencesSpec(Keys(h, key));
    if key(x) !in monthMap {
      TallyOfAbsent(h, key, key(x));
    }
    forall l | l in monthMap' ensures monthMap'[l] == TallyOf(h + [x], key, l) {
      TallySnoc(h, x, key, l);
    }
  }

  /** `labels.map((label) => monthMap[label].positive || 0)` and its two siblings. */
  function ReadOff(monthMap: map<MonthYear, Tally>, labels: seq<MonthYear>): (t: Trends)
    requires forall l :: l in labels ==> l in monthMap
    ensures t.labels == labels && |t.positive| == |t.neutral| == |t.negative| == |labels|
    ensures forall j :: 0 <= j < |labels| ==>
      && t.positive[j] == monthMap[labels[j]].positive
      && t.neutral[j] == monthMap[labels[j]].neutral
      && t.negative[j] == monthMap[labels[j]].negative
  {
    Trends(labels,
           seq(|labels|, j requires 0 <= j < |labels| => monthMap[labels[j]].positive),
           seq(|labels|, j requires 0 <= j < |labels| => monthMap[labels[j]].neutral),
           seq(|labels|, j requires 0 <= j < |labels| => monthMap[labels[j]].negative))
  }

  /** Reading the series off the finished map gives the counts of TrendsOf. */
  lemma ReadOffIsTrends(h: seq<ClientFeedback>, monthOf: string -> MonthYear,
                        monthMap: map<MonthYear, Tally>, labels: seq<MonthYear>)
    requires MonthMapAfter(h, BucketKey(monthOf), monthMap, labels)
    ensures ReadOff(monthMap, labels) == TrendsOf(h, monthOf)
  {
  }

  /**
   * `getSentimentTrends`: one pass over the history fills `monthMap`, whose
   * key order is the order buckets were first met (`labels` keeps it, as
   * `Object.keys` does); the four series are then read off the map.
   */
  method SentimentTrends(history: seq<ClientFeedback>, monthOf: string -> MonthYear) returns (t: Trends)
    ensures t == TrendsOf(history, monthOf)
  {
    var key := BucketKey(monthOf);
    var monthMap: map<MonthYear, Tally> := map[];
    var labels: seq<MonthYear> := [];
    ghost var seen: seq<ClientFeedback> := [];
    var i := 0;
    while i < |history|
      invariant 0 <= i <= |history| && seen == history[..i]
      invariant MonthMapAfter(seen, key, monthMap, labels)
    {
      var fb := history[i];
      var bucket := key(fb);
      ghost var before, keysBefore, seenBefore := monthMap, labels, seen;
      if bucket !in monthMap {
        monthMap := monthMap[bucket := Tally(0, 0, 0)];
        labels := labels + [bucket];
      }
      monthMap := monthMap[bucket := Bump(monthMap[bucket], fb.sentiment)];
      seen := seen + [fb];
      MonthMapStep(seenBefore, fb, seen, key, before, keysBefore, monthMap, labels);
      TakeSnoc(history, i);
      i := i + 1;
    }
    assert seen == history;
    ReadOffIsTrends(history, monthOf, monthMap, labels);
    t := ReadOff(monthMap, labels);
  }

  /**
   * The buckets of the trends: no bucket twice, one for every record whatever
   * its sentiment, nothing else, and ordered by where each first occurs in
   * the history rather than by date.
   */
  lemma TrendLabels(h: seq<ClientFeedback>, monthOf: string -> MonthYear)
    ensures var t := TrendsOf(h, monthOf);
            var ks := Keys(h, BucketKey(monthOf));
      && Distinct(t.labels)
      && (forall i :: 0 <= i < |h| ==> BucketKey(monthOf)(h[i]) in t.labels)
      && (forall l :: l in t.labels ==> l in ks)
      && (forall i, j :: 0 <= i < j < |t.labels| ==> FirstIndex(ks, t.labels[i]) < FirstIndex(ks, t.labels[j]))
  {
    var ks := Keys(h, BucketKey(monthOf));
    FirstOccurrencesSpec(ks);
    forall i | 0 <= i < |h| ensures BucketKey(monthOf)(h[i]) in FirstOccurrences(ks) {
      assert ks[i] in ks;
    }
  }

  /** The records of one sentiment, counted over all buckets. */
  lemma SeriesTotal(h: seq<ClientFeedback>, monthOf: string -> MonthYear, s: string)
    ensures var t := TrendsOf(h, monthOf);
      Total(Counts(t.labels, Having(h, SentimentOf, s), BucketKey(monthOf))) == CountBy(h, SentimentOf, s)
  {
    var key := BucketKey(monthOf);
    var labels := TrendsOf(h, monthOf).labels;
    var xs := Having(h, SentimentOf, s);
    TrendLabels(h, monthOf);
    TotalOfCounts(labels, xs, key);
    SumByDistinct(labels, xs, key);
    forall x | x in xs ensures key(x) in labels {
      var i :| 0 <= i < |h| && h[i] == x;
    }
    CountInAll(xs, key, labels);
  }

  /**
   * Every record with a charted sentiment is counted exactly once over the
   * three series; a record with any other sentiment is counted in none.
   */
  lemma TrendsTotal(h: seq<ClientFeedback>, monthOf: string -> MonthYear)
    ensures var t := TrendsOf(h, monthOf);
      Total(t.positive) + Total(t.neutral) + Total(t.negative) == CountIn(h, SentimentOf, Sentiments)
  {
    SeriesTotal(h, monthOf, Positive);
    SeriesTotal(h, monthOf, Neutral);
    SeriesTotal(h, monthOf, Negative);
    SumByDistinct(Sentiments, h, SentimentOf);
    assert SumBy(Sentiments, h, SentimentOf)
           == CountBy(h, SentimentOf, Positive) + SumBy([Neutral, Negative], h, SentimentOf);
    assert SumBy([Neutral, Negative], h, SentimentOf)
           == CountBy(h, SentimentOf, Neutral) + SumBy([Negative], h, SentimentOf);
    assert SumBy([Negative], h, SentimentOf) == CountBy(h, SentimentOf, Negative) + SumBy([], h, SentimentOf);
  }

  /** The chart of an empty history is empty. */
  lemma TrendsOfEmpty(monthOf: string -> MonthYear)
    ensures TrendsOf([], monthOf) == Trends([], [], [], [])
  {
  }

  /** `TeamOverview`'s `feedbackHistory || []`: a missing history charts as an empty one. */
  method OverviewTrends(history: Option<seq<ClientFeedback>>, monthOf: string -> MonthYear) returns (t: Trends)
    ensures history.None? ==> t == Trends([], [], [], [])
    ensures history.Some? ==> t == TrendsOf(history.value, monthOf)
  {
    t := SentimentTrends(if history.Some? then history.value else [], monthOf);
  }

  /** Records from the server carry no `updated_at`, so they are bucketed by their creation time. */
  lemma ReceivedBucketsByCreation(f: Feedback, users: seq<User>, iso: int -> string,
                                  monthOf: string -> MonthYear)
    ensures BucketKey(monthOf)(Received(f, users, iso)) == monthOf(iso(f.createdAt))
  {
    var c := Received(f, users, iso);
    assert BucketKey(monthOf)(c) == monthOf(BucketDate(c));
  }

  // ------------------------------------------------------------- selection

  /** A `GET /team` entry, as far as the page reads it. */
  datatype TeamMember = TeamMember(id: int, fullName: Option<string>)

  /** A `team_members` entry of the manager's dashboard. */
  datatype MemberHistory = MemberHistory(id: int, feedbackHistory: seq<ClientFeedback>)

  function TeamMemberId(m: TeamMember): int { m.id }
  function MemberHistoryId(m: MemberHistory): int { m.id }

  /** JavaScript truthiness of the optional `employeeId` argument: null and 0 are falsy. */
  predicate TruthyId(id: Option<int>) {
    id.Some? && id.value != 0
  }

  /** `member?.feedback_history || []` for the first dashboard entry with the given id. */
  function HistoryShown(members: seq<MemberHistory>, id: int): (h: seq<ClientFeedback>)
    ensures (forall m :: m in members ==> m.id != id) ==> h == []
    ensures FindBy(members, MemberHistoryId, id).Some? ==>
              h == FindBy(members, MemberHistoryId, id).value.feedbackHistory
  {
    match FindBy(members, MemberHistoryId, id)
    case None => []
    case Some(m) => m.feedbackHistory
  }

  /**
   * The outcome of a load for the selection: an empty roster keeps the
   * previous selection and history; otherwise the selected member (None when
   * `find` came back undefined) and, when the dashboard lists members, the
   * history to show; dereferencing an undefined member makes the load fail.
   */
  datatype Selection =
    | KeepPrevious
    | Selected(employee: Option<TeamMember>, history: Option<seq<ClientFeedback>>)
    | LoadFailed

  /** The selection part of `fetchData(employeeId)`. */
  function SelectEmployee(team: seq<TeamMember>, members: Option<seq<MemberHistory>>,
                          employeeId: Option<int>): (s: Selection)
    ensures s.KeepPrevious? <==> team == []
    ensures team != [] && !TruthyId(employeeId) ==>
              s == Selected(Some(team[0]),
                            if members.Some? then Some(HistoryShown(members.value, team[0].id)) else None)
    ensures team != [] && TruthyId(employeeId) ==>
              var emp := FindBy(team, TeamMemberId, employeeId.value);
              && (emp.Some? ==> s == Selected(emp, if members.Some?
                                                     then Some(HistoryShown(members.value, employeeId.value))
                                                     else None))
              && (emp.None? ==> s == if members.Some? then LoadFailed else Selected(None, None))
    ensures s.LoadFailed? ==> TruthyId(employeeId) && forall m :: m in team ==> m.id != employeeId.value
  {
    if team == [] then KeepPrevious
    else
      var emp := if TruthyId(employeeId) then FindBy(team, TeamMemberId, employeeId.value) else Some(team[0]);
      match members
      case None => Selected(emp, None)
      case Some(ms) =>
        if emp.None? then LoadFailed
        else Selected(emp, Some(HistoryShown(ms, emp.value.id)))
  }

  predicate RosterIdsDistinct(team: seq<TeamMember>) {
    forall i, j :: 0 <= i < j < |team| ==> team[i].id != team[j].id
  }

  /**
   * Reloading with the selected employee's id (what a save does) selects that
   * employee again and shows their history, as long as the id is non-zero.
   */
  lemma ReloadKeepsSelection(team: seq<TeamMember>, members: seq<MemberHistory>, selected: TeamMember,
                             listed: MemberHistory)
    requires RosterIdsDistinct(team) && selected in team && selected.id != 0
    requires forall i, j :: 0 <= i < j < |members| ==> members[i].id != members[j].id
    requires listed in members && listed.id == selected.id
    ensures SelectEmployee(team, Some(members), Some(selected.id)) == Selected(Some(selected), Some(listed.feedbackHistory))
  {
    FindByDistinct(team, TeamMemberId, selected);
    FindByDistinct(members, MemberHistoryId, listed);
  }

  // ------------------------------------------------------------------ save

  /** What the feedback form hands to `onSave`. */
  datatype FormData = FormData(strengths: string, areasToImprove: string, sentiment: string)

  datatype SaveRequest =
    | UpdateRequest(feedbackId: int, update: Routes.UpdatePayload)
    | SubmitRequest(submit: Routes.SubmitPayload)

  /**
   * `handleSaveFeedback`: while a record is being edited, a `PUT` of the three
   * content fields; otherwise a `POST` of the form addressed to the selected
   * employee.
   */
  function SaveRequestFor(editing: Option<ClientFeedback>, selected: TeamMember, form: FormData): (req: SaveRequest)
    ensures req.UpdateRequest? <==> editing.Some?
    ensures req.UpdateRequest? ==>
              && req.feedbackId == editing.value.id
              && req.update == Routes.UpdatePayload(Some(form.strengths), Some(form.areasToImprove), Some(form.sentiment))
    ensures req.SubmitRequest? ==>
              && req.submit.HasRequiredKeys()
              && req.submit.recipientId == Some(selected.id)
              && req.submit.strengths == Some(form.strengths)
              && req.submit.areasToImprove == Some(form.areasToImprove)
              && req.submit.sentiment == Some(form.sentiment)
  {
    match editing
    case Some(f) =>
      UpdateRequest(f.id, Routes.UpdatePayload(Some(form.strengths), Some(form.areasToImprove), Some(form.sentiment)))
    case None =>
      SubmitRequest(Routes.SubmitPayload(Some(selected.id), Some(form.strengths), Some(form.areasToImprove),
                                         Some(form.sentiment)))
  }

  /** An edit saved from the form replaces all three content fields of the stored record. */
  lemma SavedEditReplacesContent(editing: ClientFeedback, selected: TeamMember, form: FormData, f: Feedback)
    ensures var req := SaveRequestFor(Some(editing), selected, form);
      Routes.Edited(f, req.update)
        == f.(strengths := form.strengths, areasToImprove := form.areasToImprove, sentiment := form.sentiment)
  {
  }

  /**
   * A new feedback saved for an employee on the manager's team is accepted by
   * `POST /feedback` and stored as the form's content addressed to that
   * employee.
   */
  lemma SavedSubmissionIsStored(users: seq<User>, teams: seq<Team>, fs: seq<Feedback>, nextId: int,
                                manager: User, selected: TeamMember, form: FormData, now: int)
    requires manager.role == ManagerRole
    requires Routes.OnManagersTeam(users, teams, manager.id, selected.id)
    ensures var req := SaveRequestFor(None, selected, form);
            var step := Routes.SubmitStep(users, teams, fs, nextId, manager, req.submit, now);
      && step.reply.status == 201
      && step.feedback == fs + [NewFeedback(nextId, manager.id, selected.id, form.strengths,
                                            form.areasToImprove, form.sentiment, now)]
  {
    var req := SaveRequestFor(None, selected, form);
    var step := Routes.SubmitStep(users, teams, fs, nextId, manager, req.submit, now);
    assert step.feedback == step.feedback[..|fs|] + [step.feedback[|fs|]];
  }
}
