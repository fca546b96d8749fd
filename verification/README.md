# Poll application core, modelled in Dafny

The polling application lets people create polls, browse them, and vote. Most of the code draws
pages or calls a hosted database. This project models the pure decision and transformation logic
inside the pages, forms and route handlers:

- **Validation**: the create-poll schema and the vote schema. This covers which payloads are
  accepted, which issues a rejected payload reports, and the defaults an accepted one gets.
- **OptionList**, **CreateForm**, **EditForm**:
  - the option-list editing shared by both poll forms (`addOption` / `removeOption`), which
    keeps two to ten options;
  - the create form's starting values;
  - loading a poll into the edit form;
  - the edit form's submit checks and the update payload it builds.
- **PollsApi**: the poll collection endpoint.
  - `GET` groups option rows by poll in row order and previews at most five per poll. Missing
    counts read as 0.
  - `POST` checks sign-in first and then the payload. It builds the option rows with their
    positions and stores an absent or empty expiry as null.
- **Listing**: the browse page.
  - Turns the endpoint's JSON into `Poll` records.
  - Applies a case-insensitive search and a five-way visibility/expiry filter.
  - Applies a four-way sort, modelled as the stable sort JavaScript's `Array.prototype.sort`
    performs with the page's comparator.
- **Dashboard**: the summary figures: polls, votes, active polls and the mock view count.
- **FilterBar**: the filter bar's state. This covers clearing it, the per-badge dismiss buttons,
  the badge texts and the result-count line.
- **PollCard**: the card's badges, the three-option preview with "+k more options", the
  countdown, and the author's initials. The header's avatar uses the same initials expression
  (`src/components/shared/header.tsx:71`), so `PollCard.Initials` covers it too.

Helper modules: `Wrappers` (optional values and responses), `Text` (the string built-ins the
code calls), `Domain` (the `Poll`, `PollOption` and `User` records and the endpoint's JSON
shapes).

Modelling choices:

- Time is an integer number of milliseconds, and the current time `now` is a parameter.
- Database answers are parameters: query rows, insert replies and insert errors. The rows a
  handler would write are part of its result.
- The sign-in lookup becomes an optional user id.

Three places where the code disagrees with itself:

- The browse page's "expired" filter counts a poll expiring exactly now as expired
  (`<=`, `src/app/polls/page.tsx:64`). The card's `isExpired` does not (`<`,
  `src/features/polls/components/poll-card.tsx:17`). Both are modelled as written.
  `PollCard.ExpiryBoundary` shows that they disagree exactly at that instant.
- The `POST` handler's payload check is weaker than the create-poll schema: it takes empty
  options and more than ten. `PollsApi.PayloadCheckLaxerThanSchema` exhibits such a payload.
  `PollsApi.SchemaAcceptedPassesPayloadCheck` proves the other direction: everything the schema
  accepts passes the handler's check.
- The edit form moves a loaded expiry back by the browser's timezone offset
  (`src/features/polls/components/edit-poll-form.tsx:77-79`), but on submit it sends the
  form's value with `toISOString` (line 116) without moving it forward again. An untouched
  expiry therefore comes back shifted by the offset. `EditForm.LoadThenSubmitShiftsExpiry`
  states it: the expiry survives exactly when the offset is 0.

## Model

| member | source | states |
|---|---|---|
| Validation.TitleIssues | src/lib/validations/polls.ts:4 | the title has no issue exactly when its length is 1 to 200; otherwise "required" or "too long" |
| Validation.DescriptionIssues | src/lib/validations/polls.ts:5 | an absent description, or one of at most 1000 characters, has no issue |
| Validation.ItemIssues | src/lib/validations/polls.ts:7 | option i is reported empty exactly when it has no characters, and too long exactly when it has over 100 |
| Validation.OptionIssues | src/lib/validations/polls.ts:6-8 | the option list has no issue exactly when it has 2 to 10 entries, each 1 to 100 characters long; each issue names a failed rule |
| Validation.FlagIssues | src/lib/validations/polls.ts:9-10 | a flag is refused exactly when it is a JSON boolean; a string is kept and a missing flag takes its default |
| Validation.CreateIssues | src/lib/validations/polls.ts:3-12 | the issue list is empty exactly when every field rule holds, and it contains exactly the failed rules |
| Validation.ValidateCreate | src/lib/validations/polls.ts:3-12 | accepted iff every field rule holds; accepted values are kept, with absent flags defaulting to "true" (public) and "false" (multiple votes); rejected payloads report exactly the failed rules |
| Validation.AnyFailingRuleRejects | src/lib/validations/polls.ts:3-12 | any single failing field rule rejects the payload and appears among its issues |
| Validation.ExpiresAtNeverDecides | src/lib/validations/polls.ts:11 | giving or omitting an expiry never changes acceptance |
| Validation.MissingFlagsDefault | src/lib/validations/polls.ts:9-10 | a valid payload without flags is accepted as public with one vote per voter |
| Validation.ValidateVote | src/lib/validations/polls.ts:14-17 | a vote is accepted, unchanged, iff it selects at least one option; otherwise it reports "Select at least one option" |
| OptionList.AddOption | src/features/polls/components/edit-poll-form.tsx:136-140 | below ten options one empty option is appended and the rest kept; at ten nothing changes (the create form's copy at create-poll-form.tsx:58-62 is identical) |
| OptionList.RemoveOption | src/features/polls/components/edit-poll-form.tsx:142-146 | above two options the chosen one is removed and the others keep their order; at two, or for an index past the end, nothing changes |
| OptionList.RemoveUndoesAdd | src/features/polls/components/create-poll-form.tsx:58-68 | removing the option just added restores the list |
| OptionList.StepKeepsBounds | src/features/polls/components/create-poll-form.tsx:58-68 | one add or remove keeps a list of 2 to 10 options within 2 to 10 |
| OptionList.RunKeepsBounds | src/features/polls/components/create-poll-form.tsx:58-68 | any series of adds and removes keeps a list of 2 to 10 options within 2 to 10 |
| OptionList.RunStaysBetween | src/features/polls/components/edit-poll-form.tsx:136-146 | for a loaded list of n options, edits keep the count between min(n, 2) and max(n, 10) |
| CreateForm.InitialAsWritten | src/features/polls/components/create-poll-form.tsx:27-33 | the declared starting values: two empty options, empty title and description, flags as booleans true and false |
| CreateForm.Initial | src/features/polls/components/create-poll-form.tsx:27-33 | the starting values with the flags as the strings "true" and "false" that the radio inputs produce |
| CreateForm.InitialRejected | src/features/polls/components/create-poll-form.tsx:26-33 | the untouched form fails the schema: the title is required and both options are empty |
| CreateForm.AsWrittenDefaultsAlwaysRejected | src/features/polls/components/create-poll-form.tsx:31-32 | with the declared boolean defaults, no typed title and options pass the schema |
| CreateForm.FilledDefaultsAccepted | src/features/polls/components/create-poll-form.tsx:26-33 | with string defaults, a valid title and valid options are accepted as public with one vote per voter |
| CreateForm.EditsFromInitialStayInBounds | src/features/polls/components/create-poll-form.tsx:58-68 | from the starting state any series of adds and removes keeps 2 to 10 options |
| EditForm.FlagText | src/features/polls/components/edit-poll-form.tsx:72-73 | a loaded flag is written as "true" exactly when it is true, and "false" otherwise |
| EditForm.FlagOf | src/features/polls/components/edit-poll-form.tsx:114-115 | only the exact string "true" reads back as true |
| EditForm.FlagRoundTrip | src/features/polls/components/edit-poll-form.tsx:72-73 | writing a flag into the form and reading it back gives the original boolean |
| EditForm.ShiftedExpiry | src/features/polls/components/edit-poll-form.tsx:77-78 | the expiry put into the form is the stored instant moved back by the timezone offset in minutes: unchanged exactly at offset 0, earlier for a positive offset |
| EditForm.Load | src/features/polls/components/edit-poll-form.tsx:69-80 | a failed load yields no form; otherwise the form gets the title and option texts, "" for a missing or empty description, the flags written as exactly "true" or "false", and, when the poll has an expiry, that expiry shifted by the timezone offset (else the form's expiry is kept) |
| EditForm.NonEmpty | src/features/polls/components/edit-poll-form.tsx:101 | drops exactly the empty strings: no "" remains and every other text keeps its multiplicity |
| EditForm.NonEmptyAppend | src/features/polls/components/edit-poll-form.tsx:101 | dropping empty options keeps the order of the others |
| EditForm.Submit | src/features/polls/components/edit-poll-form.tsx:96-117 | a blank (trimmed) title is refused before options are looked at; then fewer than two non-empty options are refused; otherwise the payload has the untrimmed title, the non-empty options, an empty description as null, the flags as `=== "true"`, and the expiry |
| EditForm.WhitespaceOptionKept | src/features/polls/components/edit-poll-form.tsx:101-105 | any non-empty option, whitespace-only included, reaches the payload |
| EditForm.LoadThenSubmit | src/features/polls/components/edit-poll-form.tsx:69-117 | loading a poll and submitting unchanged sends back its title, flags and non-empty options |
| EditForm.LoadThenSubmitShiftsExpiry | src/features/polls/components/edit-poll-form.tsx:76-116 | loading a poll with an expiry and submitting unchanged sends the expiry back moved by the timezone offset, so it is unchanged only at offset 0 |
| EditForm.ToastsUseSchemaWording | src/features/polls/components/edit-poll-form.tsx:96-104 | the two submit toasts read exactly as the schema's messages for a missing title and for too few options (`src/lib/validations/polls.ts:4` and `:8`) |
| EditForm.DefaultsRefused | src/features/polls/components/edit-poll-form.tsx:42-48 | the form as first drawn (empty title, two empty options, public, single vote, no expiry) is refused with "Title is required", the schema's wording for the same rule |
| EditForm.LoadIntoDefaults | src/features/polls/components/edit-poll-form.tsx:42-80 | loaded into the fresh form, a poll has an expiry in the form exactly when it has one |
| PollsApi.CountOrZero | src/app/api/polls/route.ts:26 | a missing count reads as 0, a present one as itself (a zero stays zero) |
| PollsApi.RowsOfAppend | src/app/api/polls/route.ts:24-28 | grouping keeps row order: rows of an earlier batch precede those of a later one within each group |
| PollsApi.RowsOfComeFromRows | src/app/api/polls/route.ts:24-28 | every grouped option is the shaped form of a row of that poll |
| PollsApi.GroupByPoll | src/app/api/polls/route.ts:18-29 | the grouping loop maps each poll id that has rows to exactly its rows, shaped, in row order, and has no other keys |
| PollsApi.Preview | src/app/api/polls/route.ts:40 | a poll previews min(5, n) options, the first ones of its group in order |
| PollsApi.ListedPoll | src/app/api/polls/route.ts:31-45 | a listed poll carries its row's fields, no description, the vote total with missing as 0, and its preview |
| PollsApi.Payload | src/app/api/polls/route.ts:31-45 | one entry per poll row, same order, each with its own group's preview (empty when it has no rows) |
| PollsApi.BuildPayload | src/app/api/polls/route.ts:31-45 | given a grouping that maps every poll id to its own rows, the map over the poll rows builds exactly that payload |
| PollsApi.ListPolls | src/app/api/polls/route.ts:4-48 | a failed poll query answers 500 with the database message; otherwise 200 with the payload above |
| PollsApi.StoredExpiry | src/app/api/polls/route.ts:79 | an absent or empty expiry is stored as null, any other value as given |
| PollsApi.OptionRows | src/app/api/polls/route.ts:87 | the option rows keep each text unchanged, carry the new poll id, and have position equal to their index |
| PollsApi.OptionRowsRoundTrip | src/app/api/polls/route.ts:87 | the option texts read back from the rows are the submitted options in order |
| PollsApi.PayloadOk | src/app/api/polls/route.ts:67-69 | defines the handler's payload check: a present non-empty title and an options array of at least two entries (partners: the two lemmas below and CreatePoll's 400 clause) |
| PollsApi.CreatePoll | src/app/api/polls/route.ts:51-92 | no user: 401 and no writes; bad payload: 400 and no writes; poll written iff both checks pass, carrying the author, title, description, both flags as sent and the stored expiry; options written iff the poll insert succeeded; a failed poll insert answers 500 with its message or "Create failed"; a failed option insert answers 500 with its message; 201 with the id iff both inserts succeed |
| PollsApi.SchemaAcceptedPassesPayloadCheck | src/app/api/polls/route.ts:67-69 | a title and options the schema accepts always pass the handler's payload check |
| PollsApi.PayloadCheckLaxerThanSchema | src/app/api/polls/route.ts:67-69 | eleven empty options pass the handler's check although the schema refuses them |
| Listing.ToOptions | src/app/polls/page.tsx:27 | each option keeps its id, text and votes, is tagged with the poll's id and has no voters |
| Listing.ToOptionsRoundTrip | src/app/polls/page.tsx:27 | forgetting the tags gives back exactly the options the endpoint sent |
| Listing.ToPoll | src/app/polls/page.tsx:23-36 | a missing vote total becomes 0 and missing options an empty list; updatedAt equals createdAt; the author is known only by id, created now |
| Listing.LoadPolls | src/app/polls/page.tsx:22-36 | a reply without data gives no polls; otherwise one poll per entry, in order |
| Listing.EndpointPollsOnPage | src/app/polls/page.tsx:22-36 | each poll shown from the endpoint has its row's id, no description, the defaulted vote total and at most five options, the first of its own group, tagged with its id |
| Listing.Keep | src/app/polls/page.tsx:45-67 | the filter callback keeps a poll exactly when it matches the search and passes the chosen filter |
| Listing.PassesFilter | src/app/polls/page.tsx:56-67 | defines the five filters: all, public, private, active (no expiry or later than now), expired (an expiry at or before now); partners FiltersPartition and Dashboard.IsActive |
| Listing.Select | src/app/polls/page.tsx:45-67 | the kept polls are exactly the input polls the callback keeps, each as often as in the input |
| Listing.SelectAppend | src/app/polls/page.tsx:45-67 | filtering keeps input order: filtering two lists one after the other is filtering each in turn |
| Listing.EmptySearchKeepsEverything | src/app/polls/page.tsx:47 | with an empty query and the "all" filter no poll is removed |
| Listing.FiltersPartition | src/app/polls/page.tsx:56-67 | two filters that split every poll split the search results: together they keep each search-passing poll exactly once |
| Listing.VisibilityAndExpiryPartition | src/app/polls/page.tsx:56-67 | public and private, and active and expired, each partition what "all" keeps |
| Listing.Compare | src/app/polls/page.tsx:68-81 | the comparator is the difference of two sort keys (newest: minus createdAt, oldest: createdAt, most voted: minus votes, least voted: votes), so negative puts the smaller key first |
| Listing.SortedMeaning | src/app/polls/page.tsx:69-77 | in a sorted list newest/oldest run by createdAt descending/ascending, and most/least voted by totalVotes descending/ascending |
| Listing.Insert | src/app/polls/page.tsx:68-81 | insertion adds exactly one poll and loses none |
| Listing.InsertSorted | src/app/polls/page.tsx:68-81 | inserting into a sorted list keeps it sorted |
| Listing.SortPolls | src/app/polls/page.tsx:68-81 | the sort returns a permutation of its input, ordered by the comparator |
| Listing.SortIsStable | src/app/polls/page.tsx:68-81 | polls with equal sort keys keep their relative order |
| Listing.Browse | src/app/polls/page.tsx:45-81 | each poll that matches the search and the filter is shown exactly as often as it was loaded, no other poll is shown, and the result is in the chosen order |
| Listing.SelectWithKey | src/app/polls/page.tsx:45-67 | keeping the polls of one sort key commutes with the search and the filter |
| Listing.BrowseKeepsTieOrder | src/app/polls/page.tsx:45-81 | the shown polls with any one sort key appear in the same relative order as in the loaded list |
| Listing.SortOnlyReorders | src/app/polls/page.tsx:68-81 | changing the sort changes the order, not the set of polls shown |
| Listing.KeptPollsMatchQuery | src/app/polls/page.tsx:47-53 | under a non-empty query each shown poll's lowered title or description contains the lowered query |
| Dashboard.SumVotes | src/app/dashboard/page.tsx:81 | defines the vote total as the sum of the polls' totals, starting from 0 (partners SumVotesAppend and VotesNonNegative) |
| Dashboard.IsActive | src/app/dashboard/page.tsx:83 | a poll is active exactly when the browse page's "active" filter keeps it, and exactly when its "expired" filter does not |
| Dashboard.CountActive | src/app/dashboard/page.tsx:82-84 | the active count never exceeds the number of polls |
| Dashboard.SumVotesAppend | src/app/dashboard/page.tsx:81 | the vote total of two lists is the sum of their totals |
| Dashboard.ComputeStats | src/app/dashboard/page.tsx:80-85 | totalPolls is the number of polls, totalVotes the sum of their totals, activePolls the count of active polls (at most totalPolls), totalViews twice totalVotes; no polls give all zeros |
| Dashboard.ActiveMatchesBrowseFilter | src/app/dashboard/page.tsx:82-84 | the dashboard's active count equals what the browse page's "active" filter keeps with no search |
| Dashboard.ActiveAndExpiredCoverAll | src/app/dashboard/page.tsx:82-84 | active polls plus the browse page's expired polls are all the polls |
| Dashboard.VotesNonNegative | src/app/dashboard/page.tsx:81 | with no negative vote totals the summed votes are not negative |
| FilterBar.ParseSort | src/features/polls/components/poll-filters.tsx:10 | a select value names a sort choice only if that choice's value string is exactly it |
| FilterBar.ParseFilter | src/features/polls/components/poll-filters.tsx:11 | a select value names a filter choice only if that choice's value string is exactly it |
| FilterBar.NamesRoundTrip | src/features/polls/components/poll-filters.tsx:90-117 | every sort and filter choice round-trips through its value string |
| FilterBar.HasActiveFilters | src/features/polls/components/poll-filters.tsx:40 | filters are active exactly when the state differs from the default (empty search, newest, all) |
| FilterBar.ClearFilters | src/features/polls/components/poll-filters.tsx:34-38 | clearing sets search "", sort newest and filter all, after which no filter is active |
| FilterBar.DismissSearch | src/features/polls/components/poll-filters.tsx:128 | the search badge's button empties the search and leaves sort and filter |
| FilterBar.DismissSort | src/features/polls/components/poll-filters.tsx:139 | the sort badge's button resets the sort and leaves search and filter |
| FilterBar.DismissFilter | src/features/polls/components/poll-filters.tsx:150 | the filter badge's button resets the filter and leaves search and sort |
| FilterBar.DismissingAllClears | src/features/polls/components/poll-filters.tsx:122-158 | dismissing all three badges, in any order, equals clearing |
| FilterBar.SortLabel | src/features/polls/components/poll-filters.tsx:137 | the sort badge reads "Sort: " followed by the value, character by character, except that its first hyphen reads as a space |
| FilterBar.SortLabelOfTwoWords | src/features/polls/components/poll-filters.tsx:137 | a value of two hyphenated words reads as the two words separated by a space |
| FilterBar.SortLabelOfMostVoted | src/features/polls/components/poll-filters.tsx:137 | the most-voted badge reads "Sort: most voted" |
| FilterBar.SortLabelOfLeastVoted | src/features/polls/components/poll-filters.tsx:137 | the least-voted badge reads "Sort: least voted" |
| FilterBar.SortLabelOfOneWord | src/features/polls/components/poll-filters.tsx:137 | the newest and oldest badges read "Sort: " and the value unchanged |
| FilterBar.SearchLabel | src/features/polls/components/poll-filters.tsx:126 | the search badge reads `Search: "` followed by the query and a closing quote |
| FilterBar.FilterLabel | src/features/polls/components/poll-filters.tsx:148 | the filter badge reads "Filter: " followed by the filter's value |
| FilterBar.BadgeText | src/features/polls/components/poll-filters.tsx:122-158 | each badge reads its own prefix ("Search: \"", "Sort: ", "Filter: ") followed by the value it holds (the query closed by a quote; the sort value with its first hyphen read as a space) |
| FilterBar.Badges | src/features/polls/components/poll-filters.tsx:122-158 | badges appear only while filters are active; there is a search, sort or filter badge exactly when that dimension differs from its default, each holds the current value, and there is at most one of each kind, in the order search, sort, filter |
| FilterBar.DismissRemovesOnlyItsBadge | src/features/polls/components/poll-filters.tsx:122-158 | dismissing a badge removes that badge and keeps the others |
| FilterBar.ResultsLabel | src/features/polls/components/poll-filters.tsx:69 | the line is the count, then " poll", then "s" exactly when the count is not 1, then " found", with nothing else |
| FilterBar.ResultsLabelShowsCount | src/features/polls/components/poll-filters.tsx:69 | the count can be read back from the start of the line |
| Text.TrimStart | src/features/polls/components/edit-poll-form.tsx:96 | trimming the start leaves a suffix that is empty or starts with a non-whitespace character, and only whitespace is dropped |
| Text.IsBlank | src/features/polls/components/edit-poll-form.tsx:96 | a title is blank after trimming exactly when all its characters are ECMAScript whitespace or line terminators |
| Text.Lower | src/app/polls/page.tsx:48 | lower-casing keeps the length and lowers each letter |
| Text.Upper | src/features/polls/components/poll-card.tsx:99 | upper-casing keeps the length and raises each letter |
| Text.SplitOnSpace | src/features/polls/components/poll-card.tsx:99 | splitting on spaces gives at least one piece and no piece contains a space |
| Text.JoinSplit | src/features/polls/components/poll-card.tsx:99 | joining the pieces with spaces gives the name back |
| Text.FirstIndex | src/features/polls/components/poll-filters.tsx:137 | the first index of a character: it is there, and not before |
| Text.ReplaceFirst | src/features/polls/components/poll-filters.tsx:137 | the first occurrence of the pattern becomes the replacement and every other character stays; without an occurrence the text is unchanged |
| Text.ReplaceFirstAt | src/features/polls/components/poll-filters.tsx:137 | the first occurrence is replaced whatever follows it |
| Text.Decimal | src/features/polls/components/poll-filters.tsx:69 | a count renders as decimal digits without a leading zero |
| Text.ParseDecimalRoundTrip | src/features/polls/components/poll-filters.tsx:69 | reading the rendered digits gives the count back |
| PollCard.FirstLettersOfSplit | src/features/polls/components/poll-card.tsx:99 | the first letters of the space-split words are exactly the characters that start a word |
| PollCard.Initials | src/features/polls/components/poll-card.tsx:99 | initials are the upper-cased word-starting characters in order; an empty word contributes nothing |
| PollCard.InitialsBound | src/features/polls/components/poll-card.tsx:99 | there are never more initials than characters, and none for an empty name |
| PollCard.Render | src/features/polls/components/poll-card.tsx:16-104 | description only when non-empty; Private badge iff not public; Expired badge iff expired; the first min(3, n) options in order, and "+k more" iff n > 3 with k = n - 3; countdown iff an expiry exists and has not passed |
| PollCard.IsExpired | src/features/polls/components/poll-card.tsx:17 | a poll the card shows as expired is one the browse page's "expired" filter keeps and its "active" filter drops; one it does not show as expired has no expiry or one not before now; a poll expiring exactly now is not shown as expired |
| PollCard.ExpiryBoundary | src/features/polls/components/poll-card.tsx:17 | the browse page's "expired" filter and the card's Expired badge disagree exactly for a poll expiring now, whose card still counts down |
| PollCard.FetchedPollsShowNoInitials | src/app/polls/page.tsx:29 | a poll loaded on the browse page has an unnamed author, so its card shows no initials |

## Left out

- Database access is not modelled: the queries, the `.limit(50)` and `created_at` ordering of
  the listing query, row-level security, vote uniqueness, cascades and the statistics views.
  Their answers enter as parameters.
- The option query's error is ignored by the source, and the model does not represent it.
- Authentication, sessions, profile routes and avatar upload are left out. They are I/O against
  a backend this code does not contain.
- React state, hooks, toasts, routing and rendering are left out, including the form libraries'
  field bookkeeping. `remove(index)` is taken to delete one in-range index.
- The create form's submit handler is not modelled: it only logs the data and waits. The
  dashboard's mock poll data is left out as well.
- Date parsing, ISO formatting and `formatDistanceToNow` are opaque: times are integers, and an
  invalid date string (which makes `toISOString` throw) is not modelled.
- PollsApi.StoredExpiry: a non-empty expiry string is stored as given. The source's
  `new Date(expiresAt).toISOString()` (`src/app/api/polls/route.ts:79`) normalises it to ISO
  form, and the model takes that step as the identity.
- EditForm.Load: the browser's `getTimezoneOffset` for the expiry's date is a parameter in
  minutes; how it depends on the date and on daylight saving time is not modelled.
- `Number(...)` coercion of non-numeric counts is left out. Counts are integers or absent.
- Text.Lower: maps ASCII letters only; JavaScript's `toLowerCase` also folds other scripts.
- Text.Upper: maps ASCII letters only; JavaScript's `toUpperCase` also maps other scripts,
  sometimes to longer strings.
- String lengths count Dafny characters. JavaScript counts UTF-16 code units, which differ
  outside the Basic Multilingual Plane.
- `trim()` is modelled only as far as the code uses it: a title is blank when all its
  characters are ECMAScript whitespace or line terminators.
- PollsApi.CreatePoll: takes the body as already parsed. A body that is not JSON, or is JSON
  `null`, makes the handler throw at `src/app/api/polls/route.ts:57-58`, after the sign-in
  check and before the payload check, with no write and no 400. That path is not modelled.
- A non-string `title` or a non-array `options` in the `POST` body is modelled as absent.
  JavaScript truthiness of other JSON types is not modelled.
- The `PATCH`, vote and single-poll routes are not part of this model. The edit form's loaded
  poll is taken as that route would send it.

## Findings

| source | as written | input that shows it | evidently intended | confidence | as-written member | corrected member |
|---|---|---|---|---|---|---|
| src/features/polls/components/create-poll-form.tsx:31-32 | the defaults for `isPublic` and `allowMultipleVotes` are the booleans `true` and `false`, but the schema the form validates with (`src/lib/validations/polls.ts:9-10`) declares both as strings | any title and options submitted without touching the two radio groups: the schema reports "Expected string, received boolean" for `isPublic` | defaults of `"true"` and `"false"`, the strings the radio inputs produce | medium, not executed | CreateForm.AsWrittenDefaultsAlwaysRejected | CreateForm.FilledDefaultsAccepted |
