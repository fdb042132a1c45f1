# Creator dashboard: calendar, schedule and catalogue views

A Dafny model of the state logic behind the single-page creator dashboard
(`webapp/src/app/page.tsx`). It covers:

- **the upload calendar**:
  - the month grid of days (`calendarDays`);
  - the index that groups scheduled posts by local calendar day (`postsByDate`);
  - the lookup each grid cell makes;
- **the upload schedule**:
  - the list of scheduled posts and the form that adds one (`handleScheduleFormChange`, `handleScheduleSubmit`);
  - the form's validation, tag normalisation, thumbnail default, chronological stable insertion and form reset;
- **the trend catalogue view**:
  - filtering by region and by the selected sources (`filteredTrends`);
  - sorting by title, search volume or growth, in either direction (`sortedTrends`);
  - the column selector (`handleSort`) and the source check-boxes (`handleSourceToggle`);
- **the clip search** (`clipResults`).

Modules:

- `Sequences`: `Array.prototype.filter` and the subsequence relation.
- `StableSort`: the stable sort `Array.prototype.sort` performs for a comparator of the form `key(a) - key(b)`.
- `Text`: `trim`, `split`/`join` on one character, `includes`, and ASCII lower-casing.
- `Calendar`: civil dates, weekdays and the month grid. `BuildMonthGrid` is the cursor loop of `calendarDays`.
- `DayBuckets`: `BucketByDay` is the `reduce` of `postsByDate`. `Lookup` is `postsByDate[key] ?? []`.
- `Schedule`: the post and form records. The class `ScheduleStore` holds the posts and the form and updates them in place.
- `Trends` and `Clips`: the catalogue and clip views, as functions.

Two behaviours of the code are easy to mistake for simpler ones:

- The grid is not a run of whole weeks with a full trailing week. The code builds every day from the Sunday on or before the 1st through the Sunday on or before (last day + 7), both included. So the grid has 7k + 1 cells, between 29 and 43, and ends with one to seven days of the next month (`Calendar.GridShape`, `Calendar.GridBounds`).
- The trend sort is not only a sort by the chosen metric: a tie keeps catalogue order, because `Array.prototype.sort` is stable. The model states this (`Trends.SortedTrendsSpec`).

## Model

| member | source | states |
|---|---|---|
| Calendar.StartOfWeek | webapp/src/app/page.tsx:599-600 | `startOfWeek(_, { weekStartsOn: 0 })` gives the Sunday on or before the day, at most six days earlier |
| Calendar.BuildMonthGrid | webapp/src/app/page.tsx:595-610 | the cursor loop pushes exactly the days from the grid start to the grid end, both included, in order |
| Calendar.GridShape | webapp/src/app/page.tsx:599-609 | the grid is a run of consecutive days (no gap, no repeat), starts and ends on a Sunday, and has 7k + 1 cells |
| Calendar.GridBounds | webapp/src/app/page.tsx:597-600 | the grid starts within the week before the 1st (on the 1st when it is a Sunday); it ends one to seven days after the month's last day; it has between 29 and 43 cells |
| Calendar.GridCoversMonth | webapp/src/app/page.tsx:595-610 | every day of the current month has a cell, at its distance from the first cell |
| Calendar.March2024 | webapp/src/app/page.tsx:595-610 | for Friday 2024-03-01 the grid runs from Sunday 2024-02-25 to Sunday 2024-04-07: 43 cells |
| Calendar.MonthsAdjacent | webapp/src/app/page.tsx:605 | day numbering is continuous across month and year ends, so stepping one day at a time never skips or repeats a date |
| DayBuckets.BucketByDay | webapp/src/app/page.tsx:612-618 | after the fold, the keys are exactly the days that have posts, and each day's list is the posts of that day in list order |
| DayBuckets.BucketMembership | webapp/src/app/page.tsx:614-615 | a post is in the list of a day exactly when that day is its own local day |
| DayBuckets.BucketKeepsOrder | webapp/src/app/page.tsx:615 | each day's list is a subsequence of the post list: appending keeps the order |
| DayBuckets.EmptyBucket | webapp/src/app/page.tsx:1421 | looking up a day gives the empty list exactly when no post falls on it |
| DayBuckets.BucketSizesSum | webapp/src/app/page.tsx:612-618 | the lists partition the posts: over distinct days covering every post, their sizes add up to the number of posts |
| DayBuckets.PostShownInItsCell | webapp/src/app/page.tsx:1419-1421 | a post whose day lies inside the grid appears in the cell of that day and in no other cell |
| Schedule.NormalizedTagsWellFormed | webapp/src/app/page.tsx:653-656 | every tag is non-empty, trimmed and comma-free; the tags are a subsequence of the trimmed pieces, and each non-empty trimmed piece occurs among the tags exactly as often as among the pieces |
| Schedule.NormalizeTagsExample | webapp/src/app/page.tsx:653-656 | `"#A, #B,,  #C "` gives `["#A", "#B", "#C"]` |
| Schedule.NewPost | webapp/src/app/page.tsx:647-661 | the new post takes the id, platform and timestamp; title and description are trimmed; tags are normalised; the thumbnail is the trimmed input or the default image when blank; the status is Scheduled |
| Schedule.NewPostNormalised | webapp/src/app/page.tsx:647-661 | a new post has no surrounding whitespace in title, description, tags or thumbnail, no empty tag, and always a thumbnail |
| Schedule.SubmitOutcomeCases | webapp/src/app/page.tsx:644-645 | a submit is refused for a missing field exactly when the date or time is empty or the title blank; it adds a post exactly when those are present and the date-time parses; an added post's title is not blank |
| Schedule.AddPostSpec | webapp/src/app/page.tsx:663-668 | the new list is the old list plus the post, sorted by time; equal times keep their order with the new post last among them; into a sorted list the post goes right after the posts not later than it |
| Schedule.AddPostKeepsIdsDistinct | webapp/src/app/page.tsx:663-668 | inserting a post with a fresh id keeps all ids distinct |
| Schedule.ScheduleStore.constructor | webapp/src/app/page.tsx:418-467 | the store opens with the three sample posts, in time order with distinct ids: TikTok, Scheduled, 5 hours ahead; YouTube Shorts, Ready, 26 hours ahead; TikTok, Draft, 48 hours ahead; each with its title, description, tags and thumbnail; and the blank form |
| Schedule.ScheduleStore.ChangeField | webapp/src/app/page.tsx:636-640 | a field change sets that one form field and leaves the other fields and the posts alone |
| Schedule.ScheduleStore.ChangePlatform | webapp/src/app/page.tsx:636-640 | the platform select sets the form's platform only |
| Schedule.ScheduleStore.Submit | webapp/src/app/page.tsx:642-679 | the outcome is the one the form dictates; a refusal changes nothing; an addition inserts the post in time order and resets the form to date "", time "10:00", TikTok and empty text; posts stay sorted with distinct ids |
| StableSort.SortByKeyStable | webapp/src/app/page.tsx:663-668 | the sort keeps the relative order of elements with equal keys |
| StableSort.InsertAfterPosition | webapp/src/app/page.tsx:663-668 | inserting into a sorted list puts the element right after the elements whose key is not greater than its own and before all the others |
| StableSort.SortSortedIsIdentity | webapp/src/app/page.tsx:663-668 | sorting a list already in order leaves it unchanged |
| Text.TrimEmptyIffBlank | webapp/src/app/page.tsx:644 | `!s.trim()` holds exactly when the string is all whitespace |
| Text.TrimIsSlice | webapp/src/app/page.tsx:651-652 | `trim` cuts only leading and trailing whitespace, keeping a slice of the input |
| Text.JoinSplit | webapp/src/app/page.tsx:653-654 | `split(",")` loses nothing: joining the pieces with "," gives back the input |
| Text.SplitJoin | webapp/src/app/page.tsx:653-654 | pieces free of "," come back unchanged from a join followed by a split |
| Text.ContainsWitness | webapp/src/app/page.tsx:505 | when `includes` holds, the needle occurs at some position |
| Text.ContainsAt | webapp/src/app/page.tsx:505 | a needle occurring at some position makes `includes` hold |
| Trends.FilteredTrendsSpec | webapp/src/app/page.tsx:479-485 | the filtered list is the subsequence of the catalogue of exactly the trends whose region matches (or the filter is All) and whose source is selected, each with all its copies |
| Trends.InitialFilterShowsAll | webapp/src/app/page.tsx:358-363 | the initial filters (All regions, all three sources) show the whole catalogue |
| Trends.InitialView | webapp/src/app/page.tsx:358-367 | the page opens on the whole catalogue, every copy of each trend, ordered by search volume from largest to smallest |
| Trends.FilterDependsOnMembership | webapp/src/app/page.tsx:482 | only which sources are selected matters, not their order in the list |
| Trends.CompareIsKeyOrder | webapp/src/app/page.tsx:489-498 | the comparator ranks two trends the way the chosen column, times the direction, does |
| Trends.SortedTrendsSpec | webapp/src/app/page.tsx:487-500 | the sorted list is a permutation of the filtered list, ascending or descending in the chosen column; the comparator never places a trend after one it ranks lower; ties keep catalogue order |
| Trends.NextSortSpec | webapp/src/app/page.tsx:620-626 | selecting the current column flips the direction; a new column is sorted descending |
| Trends.NextSortTwice | webapp/src/app/page.tsx:620-626 | selecting the current column twice restores the sort state; selecting a new column twice gives ascending |
| Trends.ToggleMembership | webapp/src/app/page.tsx:628-634 | a toggle flips membership of that source and of no other |
| Trends.ToggleTwiceMembership | webapp/src/app/page.tsx:628-634 | two toggles of a source restore the selected set |
| Trends.ToggleTwiceRestores | webapp/src/app/page.tsx:628-634 | two toggles of an unselected source restore the list itself |
| Trends.ToggleTwiceReorders | webapp/src/app/page.tsx:628-634 | unchecking and re-checking Google Trends from the initial list moves it to the end |
| Trends.ToggleKeepsNoDuplicates | webapp/src/app/page.tsx:628-634 | toggling never introduces a repeated source |
| Clips.ClipResultsSpec | webapp/src/app/page.tsx:502-507 | results keep library order; a blank query gives every clip; otherwise a clip is shown, with every copy it has in the library, exactly when its lower-cased title contains the trimmed, lower-cased query |
| Clips.ClipQueryNormalised | webapp/src/app/page.tsx:502-507 | the search ignores the case of ASCII letters and the whitespace around the query |

## Left out

- Rendering, styling, ARIA attributes, the "Today" badge and `isCurrentMonth` are presentation only and are not modelled.
- The charts, syntax highlighting, scroll observer, timers and the clip trim-range controls are outside the calendar, schedule and catalogue logic. The trim-range controls use floating-point seconds.
- The static data tables and script templates are constants with nothing to prove. Only the three sample posts and the initial form and filter values are modelled.
- The clock is a parameter:
  - `new Date()` is the `today` argument of the grid functions;
  - the three `Date.now()` reads of the sample posts are the single `now` argument of `ScheduleStore`'s constructor.
- Time zones and date formatting are not modelled:
  - The local-day projection of a timestamp is the abstract function `localDay`.
  - A day key is the day's number, since `format(_, "yyyy-MM-dd")` names each day by a distinct string.
  - ISO timestamp strings are kept as millisecond instants.
- Schedule.ScheduleStore.constructor: the sample posts read `Date.now()` once each; the model takes one reading `now` for all three, so it does not capture a clock that moves between the three reads.
- Schedule.ScheduleStore.Submit: parsing the form's local date-time is the abstract `parse`. `None` stands for the `RangeError` that `toISOString` throws on an invalid date. The browser's date parser is not modelled.
- Schedule.ScheduleStore.Submit: `createId` is random, so the id is a parameter that must not clash with an existing post. The odds of a clash are not modelled.
- Schedule.ScheduleStore.ChangePlatform: the platform select writes a string through the same handler as the text fields. The model takes it as a `Platform`, since the select only offers the two platforms.
- Trends.SortedTrendsSpec: `localeCompare` is modelled as a collation rank `string -> int`, a total preorder. Locale-specific collation is not modelled.
- Trends.SortedTrendsSpec: search volume and growth are integers, as in the catalogue. `NaN` and fractional values are not modelled.
- Trends.SortedTrendsSpec and Schedule.AddPostSpec: each sort is modelled by its stable result, not by the engine's algorithm, and the sorted copy is never shared.
- Trends.NextSort: the two state updates of `handleSort` are modelled as one update, which is what React applies.
- Text.Lower: lower-cases ASCII letters only. Other scripts, and characters that change length when lower-cased, are not modelled.
- DayBuckets.BucketByDay: JavaScript object keys are modelled as a `map`, so a key string that collides with an `Object.prototype` member is not modelled. Keys of the form `yyyy-MM-dd` never collide.
