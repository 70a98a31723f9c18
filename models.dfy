/**
 * The feedback server's relational schema (users, teams, feedback records),
 * the integrity rules its columns declare, and the `to_dict` serialisers the
 * routes answer with.
 */
module Models {
  import opened Sequences

  /** The two values of the `role` column that the routes act on. */
  const ManagerRole: string := "manager"
  const EmployeeRole: string := "employee"

  /**
   * A row of `user`. `full_name` and `team_id` are nullable; a user belongs to
   * at most one team, through `team_id`.
   */
  datatype User = User(
    id: int,
    username: string,
    fullName: Option<string>,
    passwordHash: string,
    role: string,
    teamId: Option<int>)

  /** A row of `team`: every team has exactly one, non-null, manager. */
  datatype Team = Team(id: int, name: string, managerId: int)

  /**
   * A row of `feedback`. Every text column and both user references are
   * non-null. The table has no `updated_at` and no `acknowledged_at` column;
   * `createdAt` is the database's insertion time, an opaque instant here.
   */
  datatype Feedback = Feedback(
    id: int,
    strengths: string,
    areasToImprove: string,
    sentiment: string,
    acknowledged: bool,
    createdAt: int,
    authorId: int,
    recipientId: int)

  /** The JSON values the serialisers produce; JTime is an ISO-8601 instant. */
  datatype Json = JNull | JBool(b: bool) | JInt(i: int) | JStr(s: string) | JTime(t: int)

  /** A new feedback row: `acknowledged` takes its column default, false. */
  function NewFeedback(id: int, authorId: int, recipientId: int, strengths: string,
                       areasToImprove: string, sentiment: string, createdAt: int): (f: Feedback)
    ensures !f.acknowledged
    ensures f.id == id && f.authorId == authorId && f.recipientId == recipientId
    ensures f.strengths == strengths && f.areasToImprove == areasToImprove
    ensures f.sentiment == sentiment && f.createdAt == createdAt
  {
    Feedback(id, strengths, areasToImprove, sentiment, false, createdAt, authorId, recipientId)
  }

  /** The user with primary key `id`, if there is one (the first, if ids repeat). */
  function FindUser(users: seq<User>, id: int): (r: Option<User>)
    ensures r.Some? ==> r.value in users && r.value.id == id
    ensures r.None? ==> forall u :: u in users ==> u.id != id
  {
    if users == [] then None
    else if users[0].id == id then Some(users[0])
    else FindUser(users[1..], id)
  }

  function NullableText(s: Option<string>): Json {
    match s
    case None => JNull
    case Some(t) => JStr(t)
  }

  function NullableInt(n: Option<int>): Json {
    match n
    case None => JNull
    case Some(i) => JInt(i)
  }

  /** The full name of the user with key `id`; null when it is not set. */
  function FullNameOf(users: seq<User>, id: int): Json
  {
    match FindUser(users, id)
    case None => JNull
    case Some(u) => NullableText(u.fullName)
  }

  const UserKeys: set<string> := {"id", "username", "full_name", "role", "team_id"}

  /** `User.to_dict`: five public columns, never the password hash. */
  function UserToDict(u: User): (d: map<string, Json>)
    ensures d.Keys == UserKeys
    ensures "password_hash" !in d
    ensures d["id"] == JInt(u.id) && d["username"] == JStr(u.username)
    ensures d["full_name"] == (if u.fullName.Some? then JStr(u.fullName.value) else JNull)
    ensures d["role"] == JStr(u.role)
    ensures d["team_id"] == (if u.teamId.Some? then JInt(u.teamId.value) else JNull)
  {
    map["id" := JInt(u.id),
        "username" := JStr(u.username),
        "full_name" := NullableText(u.fullName),
        "role" := JStr(u.role),
        "team_id" := NullableInt(u.teamId)]
  }

  const FeedbackKeys: set<string> :=
    {"id", "strengths", "areas_to_improve", "sentiment", "author", "recipient", "acknowledged", "created_at"}

  /**
   * `Feedback.to_dict`: eight keys, with the author and the recipient given by
   * full name rather than by id, and no `updated_at`.
   */
  function FeedbackToDict(f: Feedback, users: seq<User>): (d: map<string, Json>)
    ensures d.Keys == FeedbackKeys
    ensures "updated_at" !in d && "author_id" !in d && "recipient_id" !in d
    ensures d["id"] == JInt(f.id) && d["acknowledged"] == JBool(f.acknowledged)
    ensures d["strengths"] == JStr(f.strengths) && d["areas_to_improve"] == JStr(f.areasToImprove)
    ensures d["sentiment"] == JStr(f.sentiment) && d["created_at"] == JTime(f.createdAt)
    ensures d["author"] == FullNameOf(users, f.authorId)
    ensures d["recipient"] == FullNameOf(users, f.recipientId)
  {
    map["id" := JInt(f.id),
        "strengths" := JStr(f.strengths),
        "areas_to_improve" := JStr(f.areasToImprove),
        "sentiment" := JStr(f.sentiment),
        "author" := FullNameOf(users, f.authorId),
        "recipient" := FullNameOf(users, f.recipientId),
        "acknowledged" := JBool(f.acknowledged),
        "created_at" := JTime(f.createdAt)]
  }

  /** The password hash never reaches the client: users differing only in it serialise alike. */
  lemma PasswordHashNotSerialised(u: User, hash: string)
    ensures UserToDict(u.(passwordHash := hash)) == UserToDict(u)
  {
  }

  predicate UserIdsUnique(users: seq<User>) {
    forall i, j :: 0 <= i < j < |users| ==> users[i].id != users[j].id
  }

  /** `username` is declared unique. */
  predicate UsernamesUnique(users: seq<User>) {
    forall i, j :: 0 <= i < j < |users| ==> users[i].username != users[j].username
  }

  predicate TeamIdsUnique(teams: seq<Team>) {
    forall i, j :: 0 <= i < j < |teams| ==> teams[i].id != teams[j].id
  }

  predicate FeedbackIdsUnique(fs: seq<Feedback>) {
    forall i, j :: 0 <= i < j < |fs| ==> fs[i].id != fs[j].id
  }

  predicate IsUserId(users: seq<User>, id: int) {
    exists u :: u in users && u.id == id
  }

  predicate IsTeamId(teams: seq<Team>, id: int) {
    exists t :: t in teams && t.id == id
  }

  /** Primary keys, unique columns and foreign keys of the schema. */
  predicate Schema(users: seq<User>, teams: seq<Team>, fs: seq<Feedback>) {
    && UserIdsUnique(users)
    && UsernamesUnique(users)
    && TeamIdsUnique(teams)
    && FeedbackIdsUnique(fs)
    && (forall t :: t in teams ==> IsUserId(users, t.managerId))
    && (forall u :: u in users && u.teamId.Some? ==> IsTeamId(teams, u.teamId.value))
    && (forall f :: f in fs ==> IsUserId(users, f.authorId) && IsUserId(users, f.recipientId))
  }

  /** With unique ids, FindUser returns THE user with that id. */
  lemma FindUserUnique(users: seq<User>, u: User)
    requires UserIdsUnique(users) && u in users
    ensures FindUser(users, u.id) == Some(u)
  {
    if users[0] != u {
      assert u in users[1..];
      assert UserIdsUnique(users[1..]) by {
        forall i, j | 0 <= i < j < |users[1..]| ensures users[1..][i].id != users[1..][j].id {
          assert users[1..][i] == users[i + 1] && users[1..][j] == users[j + 1];
        }
      }
      var k :| 0 <= k < |users| && users[k] == u;
      assert k > 0;
      FindUserUnique(users[1..], u);
    }
  }
}
