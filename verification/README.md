# HR assistant: access-scope proofs

A Dafny model of the parts of the HR assistant that decide who sees what, with proofs of
what they promise. `dafny verify dfyconfig.toml` checks everything.

## What is modelled

**The SQL scope guard** (`core/rbac/sql_guard.py`). `Sql.dfy` holds a small SQL: FROM lists
with inner, cross, left, right and full joins, derived tables, WHERE with correlated
IN and EXISTS, COUNT, UNION, INTERSECT and EXCEPT. `SqlEval.dfy` gives it a meaning over
databases, with rows in nested-loop order and three-valued logic, and `SqlEvalLaws.dfy` holds that
against the textbook. `SqlGuard.dfy` is the guard:
the column and star checks and the scope injection, as a recursive function. `GuardWalk.dfy`
is the injection as the code does it, on mutable SELECT nodes, and is proved to leave the tree
that the function describes. On top of these:

- `GuardDecision.dfy`, `PersonalTables.dfy`: which statements are accepted, read off the columns,
  stars and tables that occur in them, what they mean for a caller with company-wide access, and
  which rows of each table make up a requester's share.
- `ScopeIsolation.dfy`, `ScopeView.dfy`: what a scoped query returns depends on the
  requester's own rows only, for every kind of join; without outer joins that null-extend
  personal tables it is the original query run on those rows.
- `ScopeExactness.dfy`: exactly which FROM lists have these two properties.
- `ForbiddenColumns.dfy`, `StarPositions.dfy`: forbidden columns do not influence the result of
  an accepted statement, depending on where its stars stand, and exactly so.
- `ScopeIdempotence.dfy`, `MonotoneScope.dfy`, `Precedence.dfy`, `StartupChecks.dfy`: guarding
  twice, scoping only removes rows, the printed WHERE reads back as it was meant, and the startup
  checks fit the injector.

**The identity cache and revocation** (`core/rbac/erp_identity.py`, `core/rbac/resolution.py`,
`core/rbac/access.py`). `ErpIdentity.dfy` interleaves calls, one clock reading, cache access or
ERP query at a time, with arbitrary changes of the ERP. `Revocation.dfy` carries the staleness
bound to the access level. `CallerAccess.dfy` goes on from there to the request
(`api/services/query_service.py`) and to the rows its statements reach. To the guard, no context
means company-wide access, so it matters that a denied or failed lookup never gets that far
(`NobodySlipsThrough`).

**Slack de-duplication** (`adapters/slack.py`, `api/routes/slack.py`). `SlackDedupe.dfy` has the
table as one worker sees it and as transactions of many workers; `SlackWindow.dfy` fits it
together with the signature's time window; `SlackDelivery.dfy` says why a delivery is refused,
ignored or dispatched.

**Redaction** (`core/rbac/redaction.py`). `RedactionPattern.dfy` models the pattern with its
backtracking; `Redaction.dfy` runs one substitution per word and compares the outcome with a
one-pass description; `RedactionPieces.dfy` says what that is for each piece between the commas,
semicolons and line ends.

**The event stream** (`api/routes/query.py`, `index.html`). `EventStream.dfy` has the printer, the
page's incremental parser and what the page shows.

**Agents** (`core/agent/factory.py`, `core/agent/runner.py`). `AgentFactory.dfy` has the
connections, their copies and wrappers as objects, the retry loop, and all interleavings of calls.

## Where the code falls short of what it says

Each of these is a theorem with its exact condition.

- "Already scoped above" (`core/rbac/sql_guard.py:329`) holds for the first `person` reference
  of a SELECT only. For a requester with a person id the guard isolates the queries over a FROM
  list of plain tables if and only if the list names `person` at most once, or has an unclassified
  table, in which case it lets none of them through (`OnePersonIsExact`).
- Scoping in WHERE turns an outer join that null-extends a personal table into one that loses
  rows. For a requester with a person id the lists of classified plain tables over which the guard
  makes every query a view of the requester's rows are exactly those without such a join and with
  at most one `person` (`SafeOuterIsExact`); without an id they are those that have no personal
  table, or that have no rows while their personal tables are empty (`ViewIsExact`).
- "EXISTS (SELECT * ...) ... neither returns column data" (`core/rbac/sql_guard.py:286-287`): the
  check lets stars pass anywhere below an EXISTS. In an arm of an INTERSECT or EXCEPT, in the body
  of an IN, or in a derived table whose whole row is compared - its alias is no table name, so the
  whole-row check at lines 263-266 and 278 does not see it - a star lets every forbidden column
  decide the result of an accepted statement (`StarLeaks`). As the body itself or as an arm of a
  union it does not, and these are the only positions for which that holds
  (`StarPositionsExact`).
- A statement that was rewritten once can be refused the second time (`RefusedTheSecondTime`);
  `GuardTwice` says exactly when.
- The redaction leaves a forbidden word that ends its segment, or takes the next line with it
  (`LastWordStays`, `NextLineIsLost`); `PieceByPieceIsExact` says exactly when it does what it is for.
  Substituting longer words first (`core/rbac/redaction.py:48`) is not needed: given room after
  the words, the substitutions give the same text in any order whatever (`AnyOrderRedacts`).
- The signature window and the de-duplication's time-to-live have no slack between them. A replay
  is dispatched at most once in every run if and only if twice the window, the time between a
  worker's two clock readings and the time from the second one to the commit fit into the
  time-to-live (`WindowIsExact`). With 300 s and 600 s no time at all may pass
  (`DeployedConstants`): while one worker pauses between its reading and its transaction, the
  cleanup of another event can delete the row that it should run into.

## Model

| member | source | states |
|---|---|---|
| `SqlGuard.RewriteSql` | core/rbac/sql_guard.py:215-304 | every statement of a command is guarded on its own, for a caller who is not restricted they stay as they are, and the first rejected one decides the error of the whole command |
| `GuardDecision.ColumnsDecide` | core/rbac/sql_guard.py:263-282 | the column check passes if and only if nowhere in the statement one of the seventeen forbidden columns is named, nor a bare name that some table of the statement goes by |
| `GuardDecision.StarsQ` | core/rbac/sql_guard.py:283-299 | the star check passes if and only if no star projection occurs outside every EXISTS |
| `GuardDecision.TablesDecide` | core/rbac/sql_guard.py:326-341 | the tables pass if and only if each one that occurs anywhere is `person`, has a person_id or a person_team_id, or is a lookup table, by name |
| `GuardDecision.DecisionIs` | core/rbac/sql_guard.py:232-304 | the guard's whole decision in these terms: which statements are rejected and why, for whom an accepted one stays as it is and for whom it is rewritten |
| `GuardDecision.CompanyWide` | core/rbac/sql_guard.py:221-225 | a caller with company-wide access or without a context is refused only sensitive columns, whole rows and stars, and on every database an accepted statement returns what it would have returned unguarded |
| `GuardDecision.CompanyWideCommand` | core/rbac/sql_guard.py:236-304 | so does every statement of an accepted command |
| `PersonalTables.KindIs` | core/rbac/sql_guard.py:91-142 | how the injector treats each table, by name |
| `PersonalTables.ShareIs` | core/rbac/sql_guard.py:377-395 | a requester's share has, in order, the `person` rows with their id, of each table with a person_id the rows that carry theirs, of each table with a person_team_id those of a person_team row of theirs, and the lookup tables as they are |
| `PersonalTables.NobodysShareIs` | core/rbac/sql_guard.py:370-381 | without a person id no row of those tables is in the share |
| `OwnRows.TeamFkMeans` | core/rbac/sql_guard.py:391-395 | the injected `person_team_id IN (SELECT ...)` is true exactly for the ids of the requester's own, non-null `person_team` rows |
| `OwnRows.InjectAllMeans` | core/rbac/sql_guard.py:398-416 | after any number of injections a row is kept exactly when the original WHERE keeps it and every injected predicate is true, under three-valued logic |
| `OwnRows.ScopePredsMean` | core/rbac/sql_guard.py:312-341 | the injected predicates are all true of a joined row, null-extended or not, exactly when every plain table of the FROM list contributed an own row |
| `ScopeJoin.JoinRowsAgree` | core/rbac/sql_guard.py:321-333 | filtering to own rows after any kind of join gives the same rows whether or not the inputs were filtered before: the step of the induction over the join list |
| `ScopeIsolation.WhereMeans` | core/rbac/sql_guard.py:312-341 | the rewritten WHERE keeps what the original WHERE keeps of the rows made of own rows |
| `ScopeIsolation.IsolationQ` | core/rbac/sql_guard.py:312-341 | for every query with one person reference per SELECT, all joins, all nesting: the rewritten query returns the same on the database and on the requester's share of it |
| `ScopeIsolation.Independence` | core/rbac/sql_guard.py:215-229 | two databases that agree on the requester's own rows and the person-free tables give the same result |
| `ScopeView.VacuousQ` | core/rbac/sql_guard.py:312-341 | on a database of own rows the rewriting changes no result, at any nesting, negated or not |
| `ScopeView.View` | core/rbac/sql_guard.py:312-416 | the view theorem, for queries with one person reference per SELECT whose outer joins null-extend no scoped table: the rewritten query on the database is the original on the requester's share, which without a person id holds no personal rows |
| `ScopeExactness.OnePersonIsExact` | core/rbac/sql_guard.py:312-367 | for every restricted requester: whatever the guard lets through over a FROM list of plain tables depends on the requester's share only, if and only if the list names person at most once, or there is no person id, or some table of it is unclassified |
| `ScopeExactness.TwoPersonsLeak` | core/rbac/sql_guard.py:326-329 | every FROM list of plain tables that names person twice has a query that shows each requester the id of someone who is not in their share, on a given database, rewritten or not; the guard accepts it if the tables are classified |
| `ScopeExactness.ViewIsExact` | core/rbac/sql_guard.py:312-341 | for every restricted requester: whatever the guard lets through over a FROM list of plain tables is a view of the requester's share, if and only if the list names person at most once and no outer join null-extends a scoped table, or - without a person id - it has no scoped table or has no rows while its scoped tables are empty, or some table of it is unclassified |
| `ScopeExactness.SafeOuterIsExact` | core/rbac/sql_guard.py:312-341 | the same for a requester with a person id |
| `ScopeExactness.UnsafeOuterLoses` | core/rbac/sql_guard.py:312-341 | every such FROM list with an unsafe outer join and at most one person loses rows: on a database that is all the requester's own, the rewritten query counts fewer of them; the guard accepts it if the tables are classified |
| `ScopeIdempotence.TwiceQ` | core/rbac/sql_guard.py:312-341 | rewriting twice returns the same as rewriting once, on every database, though the tree grows |
| `ScopeIdempotence.NamesRewrite` | core/rbac/sql_guard.py:263-266 | the rewritten statement has the table names of the original, plus person_team exactly when a table was scoped through it |
| `ScopeIdempotence.ColumnsRewrite` | core/rbac/sql_guard.py:274-282 | the column check accepts the rewritten statement if and only if the names do not collide with the injected subquery |
| `ScopeIdempotence.GuardTwice` | core/rbac/sql_guard.py:261-302 | the guard accepts its own output exactly when no table is named or aliased id or person_id and no bare column is called person_team (where a person_team subquery was injected), and then the meaning is the same |
| `ScopeIdempotence.RefusedTheSecondTime` | core/rbac/sql_guard.py:274-282 | `SELECT id.hours FROM person_week_project AS id` is accepted for every requester with a person id, and its rewriting is rejected for its columns |
| `ForbiddenColumns.SameResult` | core/rbac/sql_guard.py:267-299 | a query with only checked columns and plain stars has the same result on databases that differ in forbidden columns only, also correlated |
| `ForbiddenColumns.ForbiddenColumnsInvisible` | core/rbac/sql_guard.py:215-304 | whatever the guard lets through with stars only as EXISTS bodies or arms of unions there, for whichever requester, returns the same on two databases that differ only in forbidden columns |
| `StarPositions.StarLeaks` | core/rbac/sql_guard.py:283-299 | at each of the other three positions below EXISTS a statement with only that star is accepted unchanged for every requester, and every single forbidden column decides whether it returns a row |
| `StarPositions.StarPositionsExact` | core/rbac/sql_guard.py:263-299 | for every requester and every set of positions: all accepted statements with stars at these positions only are independent of forbidden columns if and only if the set has no arm of an INTERSECT or EXCEPT, no IN body and no derived table |
| `MonotoneScope.MonotoneLe` | core/rbac/sql_guard.py:312-341 | a query without EXCEPT, aggregates, outer joins and negated subqueries returns no more from fewer rows |
| `MonotoneScope.ScopingOnlyRemoves` | core/rbac/sql_guard.py:312-416 | for such queries, whatever they name and however often, the rewritten result is a sub-multiset of the unrestricted one on the same database |
| `Precedence.RoundTrip` | core/rbac/sql_guard.py:398-416 | a condition printed without adding parentheses is parsed back unchanged if and only if it has the shape a parser gives |
| `Precedence.PrintParseOr` | core/rbac/sql_guard.py:398-416 | what is parsed prints as what was read |
| `Precedence.PrintedWhere` | core/rbac/sql_guard.py:302-416 | the printed WHERE of a rewritten SELECT, read with NOT over AND over OR, keeps a row exactly when the original condition and every injected predicate are true, whatever ORs the original has |
| `Precedence.ParenthesesNeeded` | core/rbac/sql_guard.py:408-412 | without the parentheses the condition comes back as another tree exactly for conditions with an OR at the top |
| `Precedence.ReadWithLast` | core/rbac/sql_guard.py:408-412 | there the injected predicate would be read with the last disjunct only |
| `Precedence.MisreadKeeps` | core/rbac/sql_guard.py:398-416 | so a row would be kept that should not be exactly when what is left of the OR is true and the injected predicate is not, and no row would be lost |
| `Precedence.OthersKept` | core/rbac/sql_guard.py:398-416 | `1 = 1 OR 1 = 0 AND p.id = x` read that way keeps the row of every other person, which the parenthesised condition does not |
| `StartupChecks.StartupCheckExact` | core/rbac/sql_guard.py:163-178 | the classification check passes if and only if no query over the included tables can be rejected as unclassified |
| `StartupChecks.AcceptedIsClassified` | core/rbac/sql_guard.py:326-341 | every SELECT of a rewritten statement, the injected ones included, names classified tables only |
| `StartupChecks.CollectSuspects` | core/rbac/sql_guard.py:194-205 | the nested loop with its early exit collects exactly the suspect tables, in order |
| `StartupChecks.SuspectsMember` | core/rbac/sql_guard.py:199-205 | a table is collected exactly when it is reflected and has an unapproved column that links to person |
| `StartupChecks.PersonFreeTablesHaveNoPersonFk` | core/rbac/sql_guard.py:181-212 | the check passes if and only if, apart from `team.lead_id`, no person-free table in use has a column called person_id or with a foreign key into person |
| `GuardWalk.CollectQ` | core/rbac/sql_guard.py:316 | the walk collects every SELECT node of the tree before anything changes |
| `GuardWalk.SelectsAreNodesQ` | core/rbac/sql_guard.py:316 | the collected nodes stand for exactly the SELECTs of the statement |
| `GuardWalk.InjectSelect` | core/rbac/sql_guard.py:316-341 | one SELECT gets one conjunct per scoped reference, person first, or fails on an unclassified table |
| `GuardWalk.InjectScope` | core/rbac/sql_guard.py:312-341 | mutating collected nodes in place leaves the tree that the recursive rewriting describes; injected subqueries are not scoped; nodes outside the tree are untouched; it fails exactly on an unclassified table |
| `GuardWalk.FinalQ` | core/rbac/sql_guard.py:312-341 | a heap in which every collected node got its own conjuncts stands for the rewritten query |
| `ErpIdentity.FinishIs` | core/rbac/erp_identity.py:63-102 | the step machine, uninterleaved, is the whole of the call: fresh hit, error, denial with eviction, or store |
| `ErpIdentity.InactiveIsDenied` | core/rbac/erp_identity.py:25-30 | in terms of the ERP's rows: without a fresh entry, a missing or inactive person or user is denied and loses the entry, everyone else gets their own user with the groups it has at the second query |
| `ErpIdentity.EmailFinds` | core/rbac/erp_identity.py:34-39 | login by email goes on only with an active person whose active user has the address up to case, and denies only if there is none |
| `ErpIdentity.Resolver.ByPersonId` | core/rbac/erp_identity.py:63-77 | a call does what the step machine does; without a fresh entry whoever has no active row with an active user is denied and evicted; an ERP failure leaves the cache alone and is never answered from it |
| `ErpIdentity.Resolver.ByEmail` | core/rbac/erp_identity.py:79-90 | login by email goes on with the same cache, or - without a match or with an error - ends without touching it |
| `ErpIdentity.NextKeepsInv` | core/rbac/erp_identity.py:63-77 | every step of every call, and every ERP change, keeps each cached stamp no later than the reads behind its value |
| `ErpIdentity.RunInv` | core/rbac/erp_identity.py:63-77 | so it holds in every state of every run |
| `ErpIdentity.StalenessIsBounded` | core/rbac/erp_identity.py:63-77 | in every interleaving a call returns nothing, an error, or a person row and groups that were the ERP's later than its clock reading minus the time-to-live, the row no later than the groups |
| `ErpIdentity.FoundWasActive` | core/rbac/erp_identity.py:63-102 | in terms of the ERP's rows, in every run: whoever is let in had an active row for this user and the user was active at a moment later than the clock reading minus the time-to-live, and the groups are the user's then or at a later moment, none if the user was gone |
| `Revocation.RevocationTakesEffect` | core/rbac/resolution.py:25-43 | who lost both group memberships for good at r gets no company-wide context from any call that reads its clock at r + ttl or later, by id or by email |
| `CallerAccess.ContextIsTheirs` | core/rbac/resolution.py:25-43 | in every run: an error gives no context, a denial none, and a found person a context with the id that was asked for, unrestricted if and only if their user was in the HR or the management group when it was read |
| `CallerAccess.RestrictedReadsOwnShare` | core/rbac/context.py:48-49 | in every run: what a restricted context lets through reads the share of the person asked for and nothing else, and is the original statement run on that share if its outer joins are safe |
| `CallerAccess.NobodySlipsThrough` | api/services/query_service.py:33-79 | in every run: on behalf of a person a statement runs only if they were found, scoped to their id unless their user was in one of the two groups; no denial or failure ends up without a context |
| `Revocation.RevocationBoundIsExact` | core/rbac/access.py:23-31 | a delay is sure to be enough, over all runs, if and only if it is at least the time-to-live |
| `SlackDedupe.SeenEvents.AlreadyProcessed` | adapters/slack.py:59-76 | no id is never a duplicate; a duplicate answer leaves the table exactly as it was; after an accept no row is older than the time-to-live and there are no more rows than recent accepts |
| `SlackDedupe.StepKeepsInv` | adapters/slack.py:65-76 | every step of every worker keeps ids unique and every past accept either in the table or outlived by a later cleanup |
| `SlackDedupe.AtMostOncePerTtl` | adapters/slack.py:59-76 | in every interleaving, between two accepts of one event some committed cleanup had a clock more than the time-to-live past the first one's stamp |
| `SlackDedupe.AcceptsAreApart` | adapters/slack.py:59-76 | with clocks nondecreasing in commit order, two accepts of one event are strictly more than the time-to-live apart |
| `SlackDedupe.OldRowsAreLate` | adapters/slack.py:68-72 | with many workers, an old row that survives an accept was committed after that worker's cleanup |
| `SlackDedupe.TableIsBounded` | adapters/slack.py:68-76 | so with many workers the table has, right after an accept, no more rows than there were recent accepts and accepts between that worker's cleanup and its commit |
| `SlackWindow.SecondAcceptIsLate` | adapters/slack.py:65-72 | two accepts of a replayed request take more than the time-to-live between the earliest reading and the latest commit that the window, the delay and the lag allow |
| `SlackWindow.WindowSuffices` | api/routes/slack.py:43-62 | in every interleaving on one clock, a signed request with an event id, replayed at will, is dispatched at most once if twice the window, the delay between the two readings and the lag to the commit fit into the time-to-live |
| `SlackWindow.WindowIsExact` | adapters/slack.py:56-100 | and not otherwise: at most once in all such runs if and only if 2 * window + delay + lag <= ttl, both comparisons strict |
| `SlackWindow.DeployedConstants` | adapters/slack.py:56-100 | with 300 s and 600 s that is: if and only if delay and lag are both zero |
| `SlackDelivery.EveryDeliveryIsJustified` | api/routes/slack.py:43-62 | in every run: past the check is only what was signed and within the window, bounds included, when checked; what is refused was not; what is ignored has an event id that has been accepted |
| `SlackDelivery.CheckDecides` | adapters/slack.py:99-100 | a signed delivery goes on exactly if the clock is within the window, bounds included, and is refused otherwise |
| `SlackDelivery.IgnoredIsDuplicate` | adapters/slack.py:69-75 | a transaction is rolled back only because of a row of the same event that is recent or came after its cleanup, and leaves the table as it was |
| `RedactionPattern.TailIs` | core/rbac/redaction.py:51-53 | the greedy pattern with backtracking ends exactly at the end of its segment if something is left of it; it runs over that end if and only if only spaces and at most one separator are left and a match can start after the spaces that follow |
| `Redaction.BeginsAlike` | core/rbac/redaction.py:49-56 | beyond a segment the text as earlier substitutions left it lets a match start exactly where the original does |
| `Redaction.SubAfter` | core/rbac/redaction.py:50-56 | substituting one more word, in a text where others have been substituted, redacts it in every segment that has something after it, if no occurrence left standing runs over; otherwise segments are lost |
| `Redaction.SubAllAfter` | core/rbac/redaction.py:49-56 | so the substitutions together redact all their words, or segments are lost for good |
| `Redaction.FoundWordsMatter` | core/rbac/redaction.py:43-50 | searching the lower-cased text finds exactly the forbidden words of the text, and sorting keeps each once |
| `Redaction.Strip` | core/rbac/redaction.py:42-57 | the loops substitute the words that occur one after the other, longer ones first |
| `Redaction.SortIsStable` | core/rbac/redaction.py:48-49 | longer words come first, and words of one length stay in the order of the set |
| `Redaction.StripIsExact` | core/rbac/redaction.py:42-57 | for every ASCII text and every iteration order: the result is in every segment what precedes its first forbidden word, then that word's placeholder, if and only if no substitution runs over the end of a segment and no first forbidden word ends its segment |
| `Redaction.RoomyIsRedacted` | core/rbac/redaction.py:42-57 | it is enough that something is left of the segment after each forbidden word, and something other than blanks before a newline |
| `RedactionPieces.PieceByPiece` | core/rbac/redaction.py:49-56 | given such room - said with the characters themselves - the answer has the commas, semicolons and line ends of the text, and each piece between them comes out unchanged if no forbidden word stands in it, and otherwise as what precedes the first one and that word's placeholder |
| `RedactionPieces.PieceByPieceIsExact` | core/rbac/redaction.py:42-57 | for every ASCII text and every iteration order, with room or not: that is so if and only if no substitution runs over the end of a segment and no first forbidden word ends its segment |
| `RedactionPieces.MarksAreKept` | core/rbac/redaction.py:53 | so each of the three characters occurs as often as before |
| `RedactionPieces.BlankIs` | core/rbac/redaction.py:53 | what a match can skip before it takes the next line: spaces with at most one colon, hyphen or equals sign |
| `Redaction.AnyOrderRedacts` | core/rbac/redaction.py:48-56 | given that, substituting the words in any order, by length or not, gives the one-pass description |
| `Redaction.OrderDoesNotMatter` | core/rbac/redaction.py:45-56 | so any two orders of the same words give the same text |
| `Redaction.OnlyPlaceholders` | core/rbac/redaction.py:51-55 | in the one-pass description a forbidden word occurs only inside its own placeholder |
| `Redaction.LastWordStays` | core/rbac/redaction.py:42-57 | the answer `nic` comes out as it is, whatever else is forbidden |
| `Redaction.NextLineIsLost` | core/rbac/redaction.py:42-57 | `nic` at the end of a line takes the next line with it, unless that is forbidden itself |
| `EventStream.StreamQuery` | api/routes/query.py:40-57 | first a status, then one heartbeat per timeout, last one answer or error |
| `EventStream.Page.ReadBlock` | index.html:298-306 | the last event and data lines of a block are delivered, whatever the event, if the name is not empty and there is data |
| `EventStream.LastLinesCount` | index.html:299-303 | of a block's lines the last event line gives the name and the last data line the data |
| `EventStream.LinesAre` | index.html:300 | the lines are what the line ends separate |
| `EventStream.TrimIs` | index.html:301-302 | trimming takes off the spaces at both ends, all of them and nothing else |
| `EventStream.Page.ReadStream` | index.html:286-309 | the nested loops deliver exactly what the reader over these chunks delivers, one chunk after the other, and end with its buffer |
| `EventStream.ChunksAtOnce` | index.html:286-309 | however a text is cut into chunks, the reader delivers the events of its complete blocks, in order, and is left with what follows the last one |
| `EventStream.Page.Submit` | index.html:376-398 | what is shown: the outcome events, then the notice of a closed connection if there is none, or - when a read is rejected - the notice of the catch branch in any case |
| `EventStream.TwoParts` | index.html:293-297 | reading in two parts, keeping the rest of the first, is reading at once |
| `EventStream.RoundTrip` | api/routes/query.py:20-21 | for every list of frames and every chunking of what is printed, the reader delivers exactly the printed events in order and ends with an empty buffer |
| `EventStream.TidyIsNeeded` | index.html:300-304 | one-line frames all come back as printed if and only if their names are non-empty and nothing in them has outer spaces |
| `EventStream.WholeFrames` | api/routes/query.py:40-57 | any prefix of the stream is some whole frames and part of the next |
| `EventStream.ShowsOutcomeIffComplete` | index.html:376-398 | whatever part of a query's stream arrives, in whatever chunks and however it ends: its one outcome is shown exactly if all of it arrived; a notice is shown if not, or if the read after it is rejected |
| `AgentFactory.RunsForCaller` | core/agent/factory.py:90-101 | an agent that fits its caller runs each statement as the guard rewrites it, once, for that caller |
| `AgentFactory.InnermostGuard` | core/agent/factory.py:90-101 | with several guards around it, the innermost one sees exactly what the others let through |
| `AgentFactory.Connection.Run` | core/agent/factory.py:88-101 | a wrapped run passes a statement through each guard and stops at the first rejection |
| `AgentFactory.Factory.BuildAgent` | core/agent/factory.py:58-116 | the agent's connection is a fresh copy with exactly one guard, for the given context; cached connections stay unwrapped |
| `AgentFactory.Factory.GetAgent` | core/agent/factory.py:123-138 | restricted: a fresh agent of their own and the shared one untouched; otherwise the shared one, built if missing |
| `AgentFactory.RetryIs` | core/agent/runner.py:66-89 | the answer is that of the earliest attempt that has an agent and an answer, and there is none if and only if no attempt has both |
| `AgentFactory.Factory.Query` | core/agent/runner.py:61-101 | so out of three attempts, the first of which may find a shared agent; a restricted call leaves the shared agent alone, and after any other the shared agent is there exactly if there was an answer |
| `AgentFactory.NextKeepsInv` | core/agent/factory.py:123-145 | every step of every call keeps the shared agent unrestricted and every held agent fitting its caller |
| `AgentFactory.AgentsAreScoped` | core/agent/factory.py:58-138 | in every interleaving, whatever agent a caller holds runs each statement as guarded for that caller, whoever built it; a restricted caller always holds one |
| `AgentFactory.AnswersAreScoped` | core/agent/runner.py:74-80 | no call is answered without such an agent |
| `AgentFactory.AgentsSeeOwnRows` | core/agent/factory.py:58-138 | so what a restricted caller's agent reads with a statement of one person reference per SELECT depends on that person's own rows only |
| `AgentFactory.RestrictedLeavesShared` | core/agent/runner.py:81-89 | no step of a restricted call, failing or not, changes the shared agent |
| `AgentFactory.NoneOnlyAfterReset` | core/agent/factory.py:133-136 | a caller is handed no agent only if the shared one was reset after that caller had it and before it was read again |
| `AgentFactory.CallsEnd` | core/agent/runner.py:66-89 | every call ends after at most eighteen steps, and one that ends without an answer has made three attempts |
| `AgentFactory.AloneIsQuery` | core/agent/runner.py:66-89 | the step machine with one call alone ends as the retry loop does: answered or not by the same attempts, with the same trace in the shared agent |

## Left out

- Parsing and printing of SQL beyond boolean conditions, quoting, schema-qualified names, upper-case names (names are taken to be in lower case already).
- Parenthesised join groups, CTEs, LATERAL, table functions, NATURAL and USING joins, column-alias lists, SELECT DISTINCT, scalar subqueries, INTERSECT ALL and EXCEPT ALL, GROUP BY, ORDER BY, LIMIT, window functions, aggregates other than COUNT.
- `SELECT p.*`, and the lists of blocked functions, DML and DDL nodes: membership tests on node types.
- Ambiguous and unresolved column names: Postgres rejects such a statement, the evaluator takes the first match or NULL.
- The order in which the guard finds two problems of one statement: only the order of its checks is kept, not that of the nodes within one check.
- `person_team` is taken to have its columns `id` and `person_id` (`TeamColumns`), which the injected subquery names.
- ScopeView.View: one person reference per SELECT, distinct aliases and no unsafe outer join are needed; ScopeExactness.ViewIsExact has the exact condition for plain tables.
- ScopeExactness.OnePersonIsExact: over FROM lists of plain tables; derived tables are covered by the one-way theorems.
- ForbiddenColumns.ForbiddenColumnsInvisible: stars only as EXISTS bodies or arms of unions there; StarPositions.StarPositionsExact shows that no other position can be added, though single statements with such stars may well be harmless.
- Precedence.PrintedWhere: comparisons, IN and EXISTS are single tokens.
- The order in which the walk meets the SELECTs of a statement, on which the rewritten tree does not depend.
- GuardWalk.InjectScope: nodes of a parsed tree are taken to be disjoint, and a parsed predicate to be a fresh tree.
- ErpIdentity.StalenessIsBounded: the thread's clock and the ERP's history share one time line; `lower` of SQL is ASCII.
- Authentication of requests without a Slack user, validation of the query text, and the sessions that look up a registered user: `Requester` stands for their outcome.
- HMAC, the request body and the order of JSON parsing: `signed` stands for the comparison; a timestamp that is no integer is a request that is not signed.
- SlackWindow.WindowIsExact: all workers read one clock; clocks that differ between machines are not modelled.
- SlackDedupe.AtMostOncePerTtl: transactions commit atomically under READ COMMITTED, and a cleanup deletes the row versions it saw.
- What happens after dispatch: bots, unsupported event types, threads, posting.
- Redaction.StripIsExact: ASCII text, and forbidden words of lower-case letters, digits and underscores.
- RedactionPieces.PieceByPiece: texts with room; RedactionPieces.PieceByPieceIsExact has the exact condition.
- `re.escape`, case folding beyond ASCII, and the regular-expression engine other than this pattern.
- JSON: data is a string on one line without outer spaces, as section 7 of RFC 8259 has it for encoded strings; `JSON.parse` and bytes split inside a character are not modelled.
- HTTP statuses and credentials of the page, and a request that fails before there is a response.
- The eviction of the eighth cached connection (`lru_cache(maxsize=8)`), timing, token counts, waiting between attempts.
- The runner's last step, which redacts the answer of a call with a context.
- LangChain, the LLM, prompts, thread history, user administration, migrations, seed data, configuration.
