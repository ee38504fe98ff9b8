# TimeSculptor usage core, modelled in Dafny

TimeSculptor samples the focused window about once a second and stores each
sample. This project models the parts of it that turn those samples into usage
numbers and into the date keys the pages ask for:

- **Process grouping** (`process_grouping.dfy`, module `ProcessGrouping`). The
  `/grouped-activities` route reduces the samples into a dictionary keyed by
  `owner.processId`. It then projects each bucket to
  `{processId, ownerName, start, end, activities}`. Grouping is global per
  process, not per contiguous run: two separate stretches of one process share
  one group. The reduction is a loop filling a `map` (`Accumulate`). The
  projection walks the keys in the order `Object.keys` lists integer keys,
  which is ascending (`SortedKeys`).
- **Usage endpoints** (`usage_aggregation.dfy`, module `UsageAggregation`).
  This covers `convertSecondsToHMS` and the unpadded `M/D/YYYY` key the
  endpoints match on. It also gives the meaning of the four aggregation
  pipelines (`/most_used_app`, `/most_used_app_yesterday`, `/all_applications`
  and `/total_usage`) as functions over a sequence of stored records.
  "No record matched" is the `NotFound` (404) response.
- **Calendar events** (`calendar_events.dfy`, module `CalendarEvents`). This is
  the "longer than one minute" filter on groups, the group-to-event projection
  and the `getEventColor` table with its grey fallback. It also shows what the
  calendar shows when it is fed the groups of `ProcessGrouping`. That
  composition assumes a deployment where the page's `localhost:3000` reaches
  the grouping server, which by default listens on 3001 (the usage server on
  3000 has no `/grouped-activities` route).
- **Category day selector** (`category_navigation.dfy`, module
  `CategoryNavigation`). This is `formatDateForCategory` (zero-padded
  `YYYY-MM-DD`). The back/today/next handlers are methods of a class whose
  field is the current day. Every request they make is a single-day range.
- **Timeline offset** (`timeline_navigation.dfy`, module
  `TimelineNavigation`). This is the `backClickCount` state machine as a class
  with a `Valid()` invariant (count ≥ 0). Pure step functions let lemmas speak
  about any sequence of clicks.
- Shared: `date_text.dfy` (module `DateText`) gives the decimal text of a
  number as JavaScript prints it, its parse-back, and the civil-date triple.
  `wrappers.dfy` (module `Optional`) gives `Option`.

Days are day numbers. Today's day number and the civil date (`getFullYear`,
`getMonth`, `getDate`) of any day number are inputs supplied by the caller, as
a function `calendar`. Yesterday is today's day number minus one, so
`/most_used_app_yesterday` matches the key of `calendar(today - 1)`. Every stored record stands for one second of use, so a record count is
a number of seconds.

Three facts about the code shape the model:
- Groups are per process over the whole input, not per contiguous run.
- `$sort` ties are left to the store, so the model promises no order among
  applications with equal counts.
- The usage server matches `M/D/YYYY` keys; the comment at server.js:61 says
  the collection stores dates in that format. The category page builds
  zero-padded local `YYYY-MM-DD` keys. The timeline's `fetchData` builds a
  UTC `YYYY-MM-DD` key with `toISOString` (left out below).

## Model

| member | source | states |
|---|---|---|
| `ProcessGrouping.Accumulate` | server/index.js:139-146 | the reduce loop leaves exactly `Buckets(acts)`: one bucket per process id that occurs, each holding that process's samples in input order |
| `ProcessGrouping.Buckets` | server/index.js:139-146 | the keys are exactly the process ids that occur; every bucket is non-empty and holds exactly the samples with its process id |
| `ProcessGrouping.OfProcessMembers` | server/index.js:141-144 | a sample is in a process's bucket iff it is an input sample with that process id |
| `ProcessGrouping.SortedKeys` | server/index.js:148 | the keys are listed once each, in strictly ascending order, as `Object.keys` lists integer keys |
| `ProcessGrouping.GroupsAreWellGrouped` | server/index.js:148-161 | process ids of the groups are distinct and ascending; a process has a group iff it occurs; each group's activities are its process's samples in order, `ownerName` and `start` come from the first, `end` from the last |
| `ProcessGrouping.GroupAndCalculateActivities` | server/index.js:138-164 | returns the groups of the samples; empty input gives empty output; and the well-grouped shape above |
| `ProcessGrouping.GroupsPartitionSamples` | server/index.js:139-146 | the group sizes add up to the number of input samples |
| `ProcessGrouping.SampleInExactlyOneGroup` | server/index.js:139-148 | every sample lies in the group keyed by its process id, and no other group has that key, even when its process's samples are not adjacent |
| `ProcessGrouping.GroupStartsBeforeEnd` | server/index.js:153-154 | with samples sorted ascending by timestamp (as the route at line 129 fetches them) every group has `start <= end` |
| `ProcessGrouping.SingleSampleGroupIsInstant` | server/index.js:152-154 | every group holds at least one sample; a group of one sample has `start == end` |
| `DateText.DecimalString` | server.js:62-64 | the printed number is non-empty digits, one digit iff below 10, no leading zero, and reads back as the number |
| `UsageAggregation.ConvertSecondsToHMS` | server.js:50-55 | minutes < 60, seconds < 60, and hours·3600 + minutes·60 + seconds equals the input |
| `UsageAggregation.ConvertCanonicalDuration` | server.js:50-55 | any duration with minutes and seconds below 60 is what the conversion gives for its total seconds (the decomposition is unique) |
| `UsageAggregation.MonthDayYearKeyFields` | server.js:62-64 | the key has slashes after the month and day fields; the three digit fields read back as month+1, day and year; month and day are not zero-padded |
| `UsageAggregation.MonthDayYearKeyInjective` | server.js:112-114 | distinct civil dates give distinct keys, so matching on a key selects exactly one day |
| `UsageAggregation.MonthDayYearKeyExample` | server.js:186-188 | 5 March 2024 (month index 2) is keyed `3/5/2024` |
| `UsageAggregation.MatchingCounts` | server.js:191-203 | after `$match` on a date, the count of an application is its number of records on that date, and the number of matched records is the number of records on that date |
| `UsageAggregation.ApplicationsFacts` | server.js:153-156 | the grouped applications are distinct and are exactly those with at least one record |
| `UsageAggregation.GroupByApplicationFacts` | server.js:151-157 | `$group` gives one entry per application, each with its exact positive count, counts summing to the number of records |
| `UsageAggregation.SortByCountDescendingFacts` | server.js:158-160 | `$sort` by count descending is a permutation of its input, ordered by non-increasing count, keeping the sum and distinct names |
| `UsageAggregation.RankedFacts` | server.js:151-161 | the ranking is empty iff there are no records; otherwise it is distinct, non-increasing, exact and complete, summing to the record count |
| `UsageAggregation.TopIsMaximal` | server.js:79-80 | the first ranked application's count is at least every application's count (no tie-break promised) |
| `UsageAggregation.MostUsedAppSpec` | server.js:57-96 | 404 iff no record carries today's key; otherwise the application has records today, its duration adds up to its record count, and no application has more |
| `UsageAggregation.MostUsedAppYesterdaySpec` | server.js:103-140 | same ranking on the key of the day before today, but the answer is the raw count, not hours/minutes/seconds |
| `UsageAggregation.AllApplicationsSpec` | server.js:149-175 | 404 iff there are no records; otherwise one entry per application with its exact usage, distinct ids, non-increasing usage, every used application listed, usages summing to the record count |
| `UsageAggregation.TotalUsageSpec` | server.js:184-216 | 404 iff no record carries today's key; otherwise a canonical duration whose seconds are the number of today's records |
| `CalendarEvents.KeepLongGroups` | grouped-activities.js:37-42 | keeps exactly the groups with `end - start > 60000`, never adding any |
| `CalendarEvents.KeepLongGroupsAppend` | grouped-activities.js:37 | filtering a concatenation is concatenating the filtered parts, so the kept groups stay in input order |
| `CalendarEvents.OneMinuteBoundary` | grouped-activities.js:41 | a group lasting exactly 60000 ms is dropped and one lasting 60001 ms is kept |
| `CalendarEvents.CategoryOrDefault` | grouped-activities.js:51 | the category is never empty; a present non-empty category is kept, otherwise `'default'` |
| `CalendarEvents.GetEventColorIsTableLookup` | grouped-activities.js:168-180 | the colour is the table entry for MongoDBCompass, Electron or Visual Studio Code, and `#808080` for every other name |
| `CalendarEvents.GetEventColorIsExact` | grouped-activities.js:169-177 | lookups are case- and space-sensitive: `electron`, `MongoDB Compass` and a trailing space fall back to grey |
| `CalendarEvents.ToEvents` | grouped-activities.js:43-54 | one event per group in the same order, titled by the owner, with the group's start and end, the owner's colour and category-or-default |
| `CalendarEvents.CalendarEventsShowLongGroups` | grouped-activities.js:37-54 | every calendar event shows a group lasting more than one minute, with its owner, start and end |
| `CalendarEvents.ServerGroupsOnCalendar` | grouped-activities.js:37-51 | fed the server's groups, every event has category `'default'` and shows a process group of at least two samples |
| `CategoryNavigation.PadStart2` | api/get_date_from_flatpickr.js:78-79 | the result has length 2 or the input's length if longer, and ends with the input |
| `CategoryNavigation.PaddedDecimal` | api/get_date_from_flatpickr.js:78-79 | only one-digit numbers get a leading `0`; the padded text is digits and reads back as the number |
| `CategoryNavigation.FormatDateForCategoryShape` | api/get_date_from_flatpickr.js:76-81 | for a four-digit year the key has length 10 with `-` at 4 and 7, and the fields read back as year, month+1 and day |
| `CategoryNavigation.FormatDateForCategoryInjective` | api/get_date_from_flatpickr.js:76-81 | distinct civil dates give distinct keys |
| `CategoryNavigation.DayRequest` | api/get_date_from_flatpickr.js:50-54 | a request's start and end dates are equal |
| `CategoryNavigation.Initialize` | api/get_date_from_flatpickr.js:36-45 | the current day starts at today and today's single-day range is requested |
| `CategoryNavigation.CategoryDateNavigator.constructor` | api/get_date_from_flatpickr.js:2 | the current day is today |
| `CategoryNavigation.CategoryDateNavigator.Back` | api/get_date_from_flatpickr.js:48-55 | the current day moves back one and that day's single-day range is requested |
| `CategoryNavigation.CategoryDateNavigator.Today` | api/get_date_from_flatpickr.js:57-64 | the current day becomes today and today's single-day range is requested |
| `CategoryNavigation.CategoryDateNavigator.Next` | api/get_date_from_flatpickr.js:66-73 | the current day moves forward one and that day's single-day range is requested |
| `CategoryNavigation.BackThenNext` | api/get_date_from_flatpickr.js:48-73 | back then next leaves the current day unchanged and requests it again |
| `TimelineNavigation.CountStaysNonNegative` | renderer.js:7-23 | from a count ≥ 0, any click sequence keeps the count ≥ 0 and every fetched offset ≤ 0 |
| `TimelineNavigation.NeverAFutureDay` | renderer.js:25-28 | from the initial count 0, no click sequence makes `fetchData` target a day after today |
| `TimelineNavigation.BackThenNextRestores` | renderer.js:9-17 | back followed by next restores any non-negative count |
| `TimelineNavigation.NextAtZeroStays` | renderer.js:14-17 | next at count 0 keeps 0 and fetches offset 0 |
| `TimelineNavigation.TimelineNavigator.constructor` | renderer.js:7 | the count starts at 0 and the invariant holds |
| `TimelineNavigation.TimelineNavigator.ClickBack` | renderer.js:9-12 | the count grows by one and the fetched offset is minus the new count, below 0 |
| `TimelineNavigation.TimelineNavigator.ClickNext` | renderer.js:14-17 | the count drops by one only when positive; the offset is minus the new count, at most 0; the invariant holds |
| `TimelineNavigation.TimelineNavigator.ClickCalendar` | renderer.js:20-23 | the count resets to 0 and offset 0 is fetched |
| `UsageAggregation.MonthDayYearKey` | server.js:62-64 | the `M/D/YYYY` key; its fields, injectivity and an example are stated by `MonthDayYearKeyFields`, `MonthDayYearKeyInjective` and `MonthDayYearKeyExample` |
| `UsageAggregation.Matching` | server.js:68-72 | the `$match` stage; `MatchingCounts` states it keeps exactly the records on the date |
| `UsageAggregation.GroupByApplication` | server.js:73-78 | the `$group` stage with `$sum: 1`; stated by `ApplicationsFacts` and `GroupByApplicationFacts` |
| `UsageAggregation.SortByCountDescending` | server.js:79 | the `$sort` stage by count descending; stated by `SortByCountDescendingFacts` |
| `UsageAggregation.Ranked` | server.js:67-79 | grouping then sorting; stated by `RankedFacts` and `TopIsMaximal` |
| `UsageAggregation.MostUsedApp` | server.js:57-96 | the `/most_used_app` answer; stated by `MostUsedAppSpec` |
| `UsageAggregation.MostUsedAppYesterday` | server.js:103-140 | the `/most_used_app_yesterday` answer; stated by `MostUsedAppYesterdaySpec` |
| `UsageAggregation.AllApplications` | server.js:149-175 | the `/all_applications` answer; stated by `AllApplicationsSpec` |
| `UsageAggregation.TotalUsage` | server.js:184-216 | the `/total_usage` answer; stated by `TotalUsageSpec` |
| `ProcessGrouping.OfProcess` | server/index.js:141-144 | one process's bucket as the in-order filter of the samples; stated by `OfProcessMembers` and `Buckets` |
| `ProcessGrouping.MakeGroup` | server/index.js:150-160 | one group record from a bucket; stated by `SingleSampleGroupIsInstant` and `GroupsAreWellGrouped` |
| `ProcessGrouping.Project` | server/index.js:148-161 | the `Object.keys(...).map(...)` projection; stated by `GroupsAreWellGrouped` |
| `ProcessGrouping.Groups` | server/index.js:138-164 | the route's groups as a function of the samples; stated by `GroupAndCalculateActivities`, `GroupsPartitionSamples` and `SampleInExactlyOneGroup` |
| `CalendarEvents.GetEventColor` | grouped-activities.js:168-180 | the colour `switch`; stated by `GetEventColorIsTableLookup` and `GetEventColorIsExact` |
| `CalendarEvents.ToEvent` | grouped-activities.js:44-53 | one event from one group; stated through `ToEvents` |
| `CalendarEvents.CalendarEventsFor` | grouped-activities.js:37-54 | filter then map; stated by `CalendarEventsShowLongGroups` and `ServerGroupsOnCalendar` |
| `CategoryNavigation.FormatDateForCategory` | api/get_date_from_flatpickr.js:76-81 | the `YYYY-MM-DD` key; stated by `FormatDateForCategoryShape` and `FormatDateForCategoryInjective` |
| `TimelineNavigation.CountAfter` | renderer.js:9-23 | the count after one click; stated by `CountStaysNonNegative`, `BackThenNextRestores` and the `TimelineNavigator` methods |
| `TimelineNavigation.OffsetAfter` | renderer.js:9-23 | the offset fetched after one click; stated by `CountStaysNonNegative` and `NeverAFutureDay` |

## Left out

- Express routes, Mongo connections, schemas, `find`/`aggregate` calls, 500 responses, the `/activities` routes and the one-second polling of `/total_usage`: these are I/O and timers. Only the meaning of each pipeline is modelled.
- The order of `$group` output and the order among equal counts after `$sort` are left to the store. The model's ranking uses one admissible order, and no contract depends on which.
- JavaScript `Date` semantics: string parsing and invalid dates (NaN durations in the filter), local versus UTC days (`toISOString` in `fetchData`), and `setDate` month/year rollover. Days are numbers, and today's day number and the civil date of each day number are caller-supplied inputs.
- The `processId` in a projected group is the string key from `Object.keys` in JavaScript; the model keeps the number. `Object.keys` lists array-index keys (below 2^32 − 1) in ascending order and larger keys in insertion order after them, so the model's `ProcessId` type bounds process ids below 2^32 − 1; larger ids are outside the model.
- `FormatDateForCategoryShape` states the ten-character shape only for four-digit years. Other years are still covered by `FormatDateForCategoryInjective` and `PaddedDecimal`.
- `/category_usage_by_date`, the category classifier and per-category totals: no implementation of them is part of this model.
- DOM rendering, FullCalendar configuration, tooltips, icons, the delete dialog, `fetchInProgress`, and the HTTP requests made by `fetchCategoryData` and `fetchData`: these are UI and I/O.
- database.js, main.js, preload.js, api/get_sidebar.js and api/get_total_usage.js are not part of this model. They are connection handling, Electron wiring, sampling, fetch calls and DOM rendering.
