# Feedback system: verified model of its core rules

The feedback system lets a manager write feedback for the employees of their
team, lets an employee acknowledge what they received, and shows a dashboard
to each. This project models its logic in Dafny:

- **The server's routes** (`server/src/routes.py`) over the schema of
  `server/src/models.py`. `Submit`, `Update` and `Acknowledge` are methods of
  a `Store` class that holds the users, teams and feedback tables. Each method
  is proved equal to a pure step function, which states the authorisation
  gates in the route's order, the status codes, and which rows change. The
  dashboard and team queries are read-only functions.
- **The manager page's sentiment trend chart** (`getSentimentTrends`). A
  method with a loop fills a month map. It is proved equal to a direct
  definition, and the labels, per-bucket counts and totals are proved about
  that definition. The page's employee selection and Save dispatch are also
  modelled.
- **The header's avatar initials and role label**, the **employee feedback
  card** (date choice, "Updated" label, first expansion, sentiment badge,
  `". "` bullet lists, and the button it offers), and the JavaScript string
  operations they rely on (`split`, `toUpperCase`, `slice`, `charAt`).

Behaviours of the code that the model keeps as written:

- acknowledging is idempotent;
- acknowledged feedback can still be edited;
- sentiment and blank text are not validated;
- the server has no `updated_at` or `acknowledged_at`;
- a manager's `feedback_count` counts the records received by the team's employees, whoever wrote them.

Files:

| file | module |
|---|---|
| `sequences.dfy` | `Sequences`: Option, first occurrences, counting, filtering, lookup |
| `models.dfy` | `Models`: rows, schema integrity and the `to_dict` serialisers |
| `routes.dfy` | `Routes`: gates, step functions, queries and the `Store` class |
| `route_properties.dfy` | `RouteProperties`: properties that relate several routes |
| `seed.dfy` | `Seed`: the seeded database as a concrete scenario |
| `text.dfy` | `Text`: JavaScript `split`, ASCII upper-casing, `slice` |
| `header.dfy` | `Header`: `getInitials` and the role label |
| `client_data.dfy` | `ClientData`: a record as the client holds it |
| `feedback_card.dfy` | `FeedbackCard`: the employee's feedback card |
| `manager_dashboard.dfy` | `ManagerDashboard`: trend chart, selection, Save |

## Model

| member | source | states |
|---|---|---|
| Models.NewFeedback | server/src/models.py:33-44 | a new row copies its arguments and starts with `acknowledged` false (the column default) |
| Models.FindUser | server/src/routes.py:92 | `User.query.get`: a found user is in the table with that id; None only when no user has the id |
| Models.UserToDict | server/src/models.py:16-23 | exactly the keys id, username, full_name, role and team_id, with their values (full_name and team_id null when unset); never `password_hash` |
| Models.PasswordHashNotSerialised | server/src/models.py:16-23 | two users that differ only in their password hash serialise identically |
| Models.FeedbackToDict | server/src/models.py:45-55 | exactly eight keys; author and recipient are full names (null when unset), not ids; no `updated_at` |
| Models.Schema | server/src/models.py:7-42 | primary keys and `username` are unique; each team's manager, each user's team, and each record's author and recipient exist |
| Models.FindUserUnique | server/src/models.py:7 | with unique user ids, a lookup by a user's id returns that user |
| Routes.ManagedTeam | server/src/routes.py:46 | `.first()` team of the manager: a found team is managed by them; None only when no team is |
| Routes.FindFeedback | server/src/routes.py:113 | `get_or_404`: the first index holding the id, or None when no row holds it |
| Routes.OnManagersTeam | server/src/routes.py:92-96 | holds only when the manager has a team and a user with the recipient id is on it; never for an unknown recipient; with unique user ids, always when that user is on the manager's team |
| Routes.Submitted | server/src/routes.py:98-104 | the inserted row: authored by the caller, recipient and the three texts copied from the payload, unacknowledged, created at `now` |
| Routes.SubmitVerdict | server/src/routes.py:85-96 | non-manager gives 403; then a missing key gives 400 (key presence only); then a recipient not on the manager's team gives 403; otherwise allowed, and allowed exactly when the recipient is on that team |
| Routes.SubmitStep | server/src/routes.py:85-107 | status is 201, 400 or 403; 201 exactly when the gates pass; a rejection answers the failing gate's status and message and leaves the table as it was; a success appends exactly one row, copied from the payload, authored by the caller, unacknowledged, created at `now`, and answers with its serialisation |
| Routes.UpdateVerdict | server/src/routes.py:113-116 | unknown id gives 404; otherwise allowed exactly when the caller is a manager and the record's author, and 403 if not |
| Routes.Edited | server/src/routes.py:119-121 | a field in the payload replaces the stored one, an absent field keeps it; id, author, recipient, acknowledgement and creation time never change |
| Routes.UpdateStep | server/src/routes.py:113-124 | status 200, 403 or 404; a rejection answers the failing gate's status and message; only on 200 does anything change; then only the addressed row, replaced by its edit; no other row ever changes |
| Routes.AcknowledgeVerdict | server/src/routes.py:130-133 | unknown id gives 404; otherwise allowed exactly when the caller is an employee and the record's recipient, and 403 if not |
| Routes.AcknowledgeStep | server/src/routes.py:130-137 | status 200, 403 or 404; a rejection answers the failing gate's status and message; only on 200 does the addressed row change, and only its flag becomes true; no other row changes |
| Routes.TeamMembers | server/src/routes.py:50 | exactly the employees of the team; unique ids stay unique |
| Routes.MemberIds | server/src/routes.py:51 | one id per member, in the members' order |
| RouteProperties.MemberIdOfTeammate | server/src/routes.py:50-53 | with unique user ids, a user on the team has their id among the member ids exactly when they are an employee |
| Routes.ReceivedByAny | server/src/routes.py:53 | exactly the rows whose recipient is one of the ids, and their number is the count of such rows |
| Routes.AddressedTo | server/src/routes.py:66 | exactly the rows addressed to one user |
| Routes.InsertByDate | server/src/routes.py:66 | inserting into a newest-first list keeps it newest-first and adds exactly one element |
| Routes.NewestFirst | server/src/routes.py:66 | `order_by(created_at.desc())`: newest first, and a permutation of its input |
| Routes.History | server/src/routes.py:66-76 | a member's history and an employee's timeline: newest first, a permutation of the rows addressed to the user, and containing exactly those rows |
| Routes.SumCountsOfTally | server/src/routes.py:54-56 | the group counts sum to the per-key counts summed over the keys |
| Routes.GroupBySentiment | server/src/routes.py:54-56 | no more groups than rows, and each group's count is the number of rows with its sentiment |
| Routes.GroupBySentimentSpec | server/src/routes.py:54-61 | the sentiment groups have distinct keys; each group's count is its number of rows and is at least one; every row's sentiment has a group; the counts sum to the number of rows |
| Routes.MemberViews | server/src/routes.py:62-70 | one entry per team member, in roster order, each with that member's history |
| Routes.TeamDashboard | server/src/routes.py:50-71 | the team's name; `feedback_count` = rows received by its employees; trends = the sentiment groups of those rows, summing to the count; one entry per employee with their history |
| Routes.Dashboard | server/src/routes.py:43-79 | a manager without a team gets the placeholder with count 0; otherwise the team's name, `feedback_count` = rows received by the team's employees, trends that are the sentiment groups of those rows and sum to that count, and one entry per member, in roster order, holding that member's history; an employee gets their own timeline; any other role gets 403 with "Invalid role" |
| Routes.GetTeam | server/src/routes.py:141-151 | non-manager gives 403; no team gives 404; otherwise the serialised employees of the team in order, with no password hash |
| Routes.ReplaceKeepsSchema | server/src/models.py:33-44 | rewriting a row's content without touching its id or user references keeps the schema |
| Routes.Store.constructor | server/src/models.py:33-44 | an empty feedback table over users and teams that respect the schema |
| Routes.Store.Submit | server/src/routes.py:83-107 | reply and new table are those of `SubmitStep`; the schema invariant and fresh ids are kept; the id counter advances only on 201 |
| Routes.Store.Update | server/src/routes.py:111-124 | reply and new table are those of `UpdateStep`; the schema invariant is kept |
| Routes.Store.Acknowledge | server/src/routes.py:128-137 | reply and new table are those of `AcknowledgeStep`; the schema invariant is kept |
| RouteProperties.FindFeedbackByIds | server/src/routes.py:113-130 | the lookup depends only on the ids of the rows |
| RouteProperties.AcknowledgeIsIdempotent | server/src/routes.py:135-137 | after a successful acknowledgement, repeating it succeeds with the same reply and leaves the table unchanged |
| RouteProperties.EditableAfterAcknowledgement | server/src/routes.py:115-121 | acknowledging does not change who may edit a record, and an edit keeps it acknowledged |
| RouteProperties.SubmitThenAcknowledge | server/src/routes.py:75-137 | the recipient of a submitted record can acknowledge it, and their timeline then shows it acknowledged and otherwise as submitted |
| RouteProperties.SubmitRaisesFeedbackCount | server/src/routes.py:53-107 | a successful submit raises the manager's `feedback_count` by one when the recipient is an employee, and leaves it unchanged otherwise |
| RouteProperties.CountInSingleton | server/src/routes.py:53 | counting rows whose recipient is in a one-element list counts that recipient's rows |
| RouteProperties.HistoriesAddUp | server/src/routes.py:62-70 | the members' history lengths sum to the per-member received counts |
| RouteProperties.FeedbackCountIsTotalOfHistories | server/src/routes.py:53-70 | with unique user ids, `feedback_count` equals the total length of the members' histories |
| RouteProperties.TeamAndDashboardAgree | server/src/routes.py:50-151 | `GET /team` and the dashboard list the same members in the same order |
| Seed.SeedRespectsSchema | server/src/commands.py:15-53 | the seeded database respects the schema |
| Seed.SeedDashboard | server/src/commands.py:15-53 | on the seed, Jane's dashboard shows "Alpha Team" with `feedback_count` 2 |
| Seed.SeedSubmitOutsideTeam | server/src/commands.py:15-53 | on the seed, Jane may not address Charlie, who is on another team (403) |
| Seed.SeedAcknowledge | server/src/commands.py:15-53 | on the seed, Alice may acknowledge record 1 and Bob gets 403 |
| Sequences.FirstOccurrencesSpec | client/src/pages/ManagerDashboard.jsx:21-26 | first occurrences are distinct, hold exactly the input's elements, and are ordered by first index |
| Sequences.SumByDistinct | server/src/routes.py:53-56 | over distinct keys, the per-key counts sum to the number of elements with one of those keys |
| Sequences.FindBy | client/src/pages/ManagerDashboard.jsx:84-88 | `Array.find`: None exactly when no element matches; otherwise the first match |
| Sequences.FindByDistinct | client/src/pages/ManagerDashboard.jsx:84-88 | with distinct keys, finding by an element's key gives that element |
| Sequences.TotalOfCounts | client/src/pages/ManagerDashboard.jsx:27-29 | the sum of one series equals the per-label counts summed over the labels |
| Text.Split | client/src/components/Header.jsx:6 | `String.split`: at least one piece |
| Text.SplitJoin | client/src/components/Header.jsx:6 | joining the pieces with the separator gives the text back |
| Text.SplitPiecesAreFree | client/src/components/EmployeeFeedbackCard.jsx:92 | no piece contains the separator |
| Text.SplitCutsIffContains | client/src/components/Header.jsx:6-7 | the text is cut into more than one piece exactly when it contains the separator |
| Text.SplitOnChar | client/src/components/Header.jsx:6-9 | splitting on one character gives at least two pieces exactly when the character occurs |
| Text.SplitAround | client/src/components/EmployeeFeedbackCard.jsx:92 | for a separator that does not overlap itself, splitting `a + sep + b` gives the pieces of `a` followed by those of `b` |
| Text.Upper | client/src/components/Header.jsx:10-14 | `toUpperCase` on ASCII: same length, no lower-case letter left |
| Text.Capitalize | client/src/components/EmployeeFeedbackCard.jsx:20-21 | the first character upper-cased, the rest unchanged; a text already starting upper-case is unchanged |
| Text.Slice | client/src/components/Header.jsx:12 | `slice(0, n)`: a prefix of length min(len, n) |
| Text.NonEmpty | client/src/components/EmployeeFeedbackCard.jsx:93 | `filter((s) => s)`: keeps exactly the non-empty strings |
| Text.NonEmptyAppend | client/src/components/EmployeeFeedbackCard.jsx:93 | `filter((s) => s)` distributes over concatenation |
| Header.FirstChar | client/src/components/Header.jsx:10-14 | `s[0]`: undefined exactly on the empty string, otherwise the first character |
| Header.UpperPair | client/src/components/Header.jsx:10-14 | two characters upper-cased; one undefined gives the character followed or preceded by "undefined", upper-cased; two undefined throw |
| Header.GetInitials | client/src/components/Header.jsx:4-15 | a missing or empty name gives ""; the initials never hold a lower-case ASCII letter |
| Header.InitialsOfSpacedName | client/src/components/Header.jsx:6-14 | a name with a space whose first two parts are both non-empty: the upper-cased first characters of those two parts, two characters |
| Header.InitialsOfUnderscoredWord | client/src/components/Header.jsx:7-10 | one word with `_` whose first two underscore parts are both non-empty: the upper-cased first characters of those two parts |
| Header.InitialsOfPlainWord | client/src/components/Header.jsx:12 | one word without `_`: its first two characters upper-cased, one or two characters long |
| Header.TrailingSpaceShowsUndefined | client/src/components/Header.jsx:6-14 | "Ann " gives "AUNDEFINED" and " " throws |
| Header.InitialsOfWords | client/src/components/Header.jsx:4-15 | corrected initials from the non-empty parts: at most two characters, upper-case, never a throw |
| Header.InitialsOfWordsAgrees | client/src/components/Header.jsx:4-15 | on names without empty parts the corrected initials equal `getInitials` |
| Header.RoleLabel | client/src/components/Header.jsx:18 | the role with its first character upper-cased and the rest unchanged |
| Header.RoleLabels | client/src/components/Header.jsx:18 | the two roles read "Manager" and "Employee" |
| ClientData.JsonText | server/src/models.py:51-52 | a JSON string gives exactly its text, anything else null |
| ClientData.Received | server/src/models.py:45-55 | the client record's fields are those of `to_dict`, and it never has `updated_at` |
| FeedbackCard.FormatDateMDY | client/src/components/EmployeeFeedbackCard.jsx:3-10 | an empty or missing date gives ""; any other date goes to the formatter |
| FeedbackCard.IsUpdated | client/src/components/EmployeeFeedbackCard.jsx:23-24 | updated only when `updated_at` is present, non-empty and differs from `created_at`; a missing, empty or creation-equal `updated_at` is not |
| FeedbackCard.DateValue | client/src/components/EmployeeFeedbackCard.jsx:25-27 | the edit date when the record counts as updated, the creation date otherwise |
| FeedbackCard.DateLabel | client/src/components/EmployeeFeedbackCard.jsx:23-28 | "Updated" exactly when `updated_at` is present, non-empty and differs from `created_at`, "" exactly otherwise |
| FeedbackCard.ReceivedIsNeverUpdated | client/src/components/EmployeeFeedbackCard.jsx:23-28 | records from the server never count as updated and always show their creation date |
| FeedbackCard.SentimentText | client/src/components/EmployeeFeedbackCard.jsx:20-21 | the badge is the sentiment with its first character upper-cased and the rest unchanged |
| FeedbackCard.Bullets | client/src/components/EmployeeFeedbackCard.jsx:91-107 | no item is empty and no item contains ". " |
| FeedbackCard.BulletsKeepOrder | client/src/components/EmployeeFeedbackCard.jsx:91-96 | the items of `a + ". " + b` are those of `a` followed by those of `b` |
| FeedbackCard.OneSentenceIsOneBullet | client/src/components/EmployeeFeedbackCard.jsx:91-96 | a non-empty text without ". " is one item |
| FeedbackCard.BulletsOfJoin | client/src/components/EmployeeFeedbackCard.jsx:91-96 | joining valid items with ". " and cutting again gives the items back |
| FeedbackCard.InitiallyExpanded | client/src/components/EmployeeFeedbackCard.jsx:13 | the card starts open exactly when the feedback is unacknowledged |
| FeedbackCard.Render | client/src/components/EmployeeFeedbackCard.jsx:30-133 | collapsed exactly when not expanded, with View Details; expanded: highlight exactly when unacknowledged, both bullet lists, Acknowledge exactly when unacknowledged and Hide Details exactly when acknowledged |
| FeedbackCard.Press | client/src/components/EmployeeFeedbackCard.jsx:53-129 | View Details opens the card, Hide Details closes it, Acknowledge leaves it |
| FeedbackCard.FirstRender | client/src/components/EmployeeFeedbackCard.jsx:13-133 | unacknowledged feedback first shows expanded and highlighted with Acknowledge; acknowledged feedback collapsed with View Details |
| FeedbackCard.ViewThenHide | client/src/components/EmployeeFeedbackCard.jsx:53-129 | for acknowledged feedback, View Details then Hide Details returns the card to its first view |
| ManagerDashboard.BucketDate | client/src/pages/ManagerDashboard.jsx:17 | `updated_at` when truthy, otherwise `created_at` |
| ManagerDashboard.TrendsOf | client/src/pages/ManagerDashboard.jsx:13-31 | four series of equal length; each count is the number of records in that bucket with that sentiment |
| ManagerDashboard.Bump | client/src/pages/ManagerDashboard.jsx:24 | the counter of a charted sentiment rises by one; any other sentiment leaves the tally as it was |
| ManagerDashboard.TallySnoc | client/src/pages/ManagerDashboard.jsx:16-25 | one more record moves only its own bucket's tally, by `Bump` |
| ManagerDashboard.TallyOfAbsent | client/src/pages/ManagerDashboard.jsx:21-23 | a bucket not yet reached has an all-zero tally |
| ManagerDashboard.MonthMapStep | client/src/pages/ManagerDashboard.jsx:16-25 | one `forEach` step keeps the map and its key order equal to the tallies of the records seen |
| ManagerDashboard.ReadOff | client/src/pages/ManagerDashboard.jsx:26-30 | the labels are the map's keys in order; each series reads its counter per label |
| ManagerDashboard.ReadOffIsTrends | client/src/pages/ManagerDashboard.jsx:26-30 | reading the finished map gives `TrendsOf` |
| ManagerDashboard.SentimentTrends | client/src/pages/ManagerDashboard.jsx:13-31 | the loop's result equals `TrendsOf` of the history |
| ManagerDashboard.TrendLabels | client/src/pages/ManagerDashboard.jsx:21-26 | labels are distinct, include every record's bucket whatever its sentiment, contain nothing else, and follow first occurrence rather than date |
| ManagerDashboard.SeriesTotal | client/src/pages/ManagerDashboard.jsx:24-29 | one series sums to the number of records with that sentiment |
| ManagerDashboard.TrendsTotal | client/src/pages/ManagerDashboard.jsx:22-29 | the three series sum to the number of records with a charted sentiment |
| ManagerDashboard.TrendsOfEmpty | client/src/pages/ManagerDashboard.jsx:16-30 | an empty history gives four empty series |
| ManagerDashboard.OverviewTrends | client/src/pages/ManagerDashboard.jsx:34 | a missing history charts as an empty one |
| ManagerDashboard.ReceivedBucketsByCreation | client/src/pages/ManagerDashboard.jsx:17 | records from the server are bucketed by their creation time |
| ManagerDashboard.HistoryShown | client/src/pages/ManagerDashboard.jsx:88-89 | the found member's history, or empty when no member has the id |
| ManagerDashboard.SelectEmployee | client/src/pages/ManagerDashboard.jsx:82-91 | an empty roster keeps the previous state; without a truthy id the first member is selected, otherwise the member found by id; the history is shown only when the dashboard lists members; an unknown id with listed members fails the load |
| ManagerDashboard.ReloadKeepsSelection | client/src/pages/ManagerDashboard.jsx:82-138 | reloading with the selected employee's non-zero id selects them again and shows their listed history |
| ManagerDashboard.SaveRequestFor | client/src/pages/ManagerDashboard.jsx:124-137 | while editing, an update of the three content fields of that record; otherwise a submission of the form addressed to the selected employee |
| ManagerDashboard.SavedEditReplacesContent | client/src/pages/ManagerDashboard.jsx:126-131 | a saved edit, once accepted, replaces all three content fields of the record |
| ManagerDashboard.SavedSubmissionIsStored | client/src/pages/ManagerDashboard.jsx:133-136 | a saved submission, once accepted, stores exactly one new unacknowledged record for the selected employee with the form's content |

## Left out

- Login, JWT issuing and decoding, and bcrypt (`server/src/routes.py:16-38`, `server/src/auth.py`) are cryptography and header plumbing. The caller is passed in as the already-loaded `User`.
- SQLAlchemy persistence, sessions and commits are not modelled. Id allocation is a `nextId` counter in the store. `created_at` (`server_default=func.now()`) is a value the caller supplies.
- JSON payload values of the wrong type or null, and a missing or unparsable body, are not modelled. A payload key is present (`Some`) or absent (`None`).
- The order of SQL results without an `ORDER BY` is taken to be table order. Rows with equal `created_at` keep table order under the descending sort.
- `group_by` results become a list of (sentiment, count) pairs in first-occurrence order. The JSON object's key order is not modelled.
- `created_at.isoformat()` is an opaque JSON time value. On the client, the rendering of an instant as text is the parameter `iso`.
- Locale and time-zone date formatting (`toLocaleString`, `getFullYear`, `getDate`) are not modelled. The month bucket and the formatted date are functions given as parameters.
- `toUpperCase` is modelled on ASCII letters only. Other characters are left unchanged.
- Text.Split: does not model JavaScript's special cases of the empty separator and the limit argument; the code never uses either.
- React state, effects and re-rendering are not modelled. The selection effect (`client/src/pages/ManagerDashboard.jsx:105-112`) repeats the history lookup that `HistoryShown` models. `setLoading` and `setError` are not modelled.
- Routes.Dashboard: the reply holds the rows themselves (users with their password hash, records with author and recipient ids); the `to_dict` serialisation that the route applies to each member and record is modelled by `UserToDict` and `FeedbackToDict` but not composed into the dashboard reply.
- Header.GetInitials, Header.FirstChar, Text.Slice and Text.Capitalize: index strings by Unicode scalar value, while JavaScript's `s[0]`, `charAt(0)` and `slice(0, 2)` count UTF-16 code units; for a name starting with a character outside the Basic Multilingual Plane the model's initials differ from the page's (a lone surrogate in JavaScript).
- ManagerDashboard.SelectEmployee: models the TypeError from reading `.id` of an undefined member as a failed load; the catch block's error message is not modelled.
- ManagerDashboard.ReloadKeepsSelection: requires a non-zero id, because an id of 0 is falsy in JavaScript and the reload then selects the first member instead.
- The HTTP calls of `handleSaveFeedback` and `fetchData` (`client/src/services/api.js`) are not modelled. Their effect on the server is given by the route step functions.
- Presentation-only components and the app shell are not part of this model: `LoginPage.jsx`, `GiveFeedbackModal.jsx` (other than the three fields it hands to Save), `FeedbackCard.jsx`, `SentimentChart.jsx`, `EmployeeDashboard.jsx`, `App.jsx`, `frontend/src/App.jsx`, the server's app factory and configuration, and `backend/` (an unused alternative schema).
- The seed command's password hashing and database writes are not modelled. Its users, teams and records are the `Seed` constants, with a placeholder hash.

## Findings

| source | as written | input that shows it | evidently intended | confidence | as-written member | corrected member |
|---|---|---|---|---|---|---|
| client/src/components/Header.jsx:6-14 | `name.split(" ")` keeps empty parts, and `parts[1][0]` of an empty part is `undefined`, which is concatenated as text | full name "Ann " (trailing space) gives the initials "AUNDEFINED"; a full name of " " throws a TypeError in the header | the initials of the first two non-empty words, at most two upper-case characters | not executed | Header.TrailingSpaceShowsUndefined | Header.InitialsOfWords |
