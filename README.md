# Habit tracker: streaks, badges and the completion toggle

A Dafny model of the part of the habit tracker that holds actual logic. A habit has an id, a name, a description, a list of completion dates and a cached `streak`. The modelled parts are:

- **Streak and badge engine** (`src/utils/dateUtils.js`, repeated in `server/db.js`). Sort a copy of the completion dates, most recent first. Return 0 when the most recent date is more than one day before today. Otherwise count the dates that each lie exactly one day before the previous one, stopping at the first that does not. `getBadgeType` maps a streak to a tier at 90/30/7/3 days.
- **Server table** (`server/db.js`). A list of habits and a `nextId` counter, with seed data, reset, look-up, create, update, delete and the in-place completion toggle. The toggle uses `indexOf`, then either `splice` or `push`, then recomputes the streak.
- **Client store** (`src/store/habitStore.js`). A record of `habits`, `loading` and `error`. Its updaters replace a field with a value computed by `map`, `filter` and object spread.

Modules:

- `DateUtils` (`date_utils.dfy`):
  - A date is a whole day number and "today" is a parameter, so `getDaysDifference(a, b)` is `b - a`.
  - The sort is `SortDescending`, an insertion sort proved to produce the unique descending permutation.
  - `Streak` is the single definition of the streak. `CalculateStreak` is the source's loop with `break`, proved equal to it.
- `Habits` (`habits.dfy`):
  - The habit record.
  - The spread `{ ...h, ...u }` as `Merge` over a `Patch` with one optional field per key.
  - `findIndex`, `find` and `indexOf`.
  - `WithCompletions`, the one place where dates change and the streak is recomputed.
- `ServerDb` (`server_db.dfy`):
  - The `Database` class with fields `habits` and `nextId`. `Valid()` is the table invariant: ids positive, below `nextId` and distinct.
  - `FlipCompletion`, the body of the toggle. It calls the `CalculateStreak` method.
- `HabitStore` (`habit_store.dfy`):
  - The `Store` class.
  - The pure list computations behind its updaters. `ToggleAll` recomputes the toggled habit's streak with the `Streak` function. `UpdateAll` is the plain spread and recomputes nothing.
- `Agreement` (`agreement.dfy`):
  - On dates without repetition, the server's splice toggle and the store's filter toggle give the same list.
  - Given that, the store's toggle of a habit reproduces the server table after the same toggle.
- `Wrappers` (`wrappers.dfy`): `Option`, standing for `null`/`undefined` or a value.

## Model

| member | source | states |
|---|---|---|
| DateUtils.DaysDifference | src/utils/dateUtils.js:2-6 | The whole days from the first date to the second, `b - a` on day numbers. It has no contract of its own; `DaysDifferenceProperties` states what it means. |
| DateUtils.DaysDifferenceProperties | src/utils/dateUtils.js:2-6 | The difference from a date to itself is 0. Swapping the two dates negates it. Adding it to the first date gives the second. |
| DateUtils.InsertDescending | src/utils/dateUtils.js:11 | Inserting a date into a most-recent-first list keeps it most recent first and adds exactly one copy of that date. |
| DateUtils.SortDescending | src/utils/dateUtils.js:11 | The sorted copy lists the same dates, with the same multiplicities, most recent first. |
| DateUtils.DescendingPermutationUnique | src/utils/dateUtils.js:11 | Two most-recent-first lists of the same dates are equal, so the comparator fixes the sorted copy. |
| DateUtils.ConsecutiveRun | src/utils/dateUtils.js:16-22 | The count is between 1 and the number of dates. Every counted step is exactly one day, and the step where counting stops is not. |
| DateUtils.SortedStreak | src/utils/dateUtils.js:14-22 | The streak read off the sorted dates never exceeds their number. |
| DateUtils.Streak | src/utils/dateUtils.js:8-23 | The streak never exceeds the number of completion dates. |
| DateUtils.CalculateStreak | src/utils/dateUtils.js:8-23 | The sort-then-loop-with-break procedure returns exactly `Streak` of the dates on that day. |
| DateUtils.RunIsMaximal | src/utils/dateUtils.js:17-21 | A run of one-day steps that ends at a non-step, or at the end of the list, is the count the loop returns. |
| DateUtils.SortedHeadIsLatest | src/utils/dateUtils.js:11-14 | The first date of the sorted copy is the latest completion date. |
| DateUtils.StreakBounds | src/utils/dateUtils.js:9-14 | The streak is at most the number of dates. It is 0 exactly when every date lies more than one day before today. So an empty list gives 0, a stale most recent date gives 0 despite older completions, and a recent one gives at least 1. |
| DateUtils.StreakIgnoresOrder | src/utils/dateUtils.js:11 | Two lists holding the same dates in any order have the same streak. |
| DateUtils.RunValues | src/utils/dateUtils.js:17-21 | Inside a run of one-day steps, the j-th date is j days before the first. |
| DateUtils.SortedStreakCountsDays | src/utils/dateUtils.js:11-22 | For sorted dates without repetition whose latest is no earlier than yesterday: with streak k, the k days ending at the latest date are all completed and the day before them is not. |
| DateUtils.StreakCountsConsecutiveDays | src/utils/dateUtils.js:8-23 | For any order of such dates, the streak is the length of the unbroken run of completed days ending at the latest date. |
| DateUtils.StreakOfSortedList | src/utils/dateUtils.js:8-23 | The streak of any list is the streak read off any most-recent-first listing of the same dates. |
| DateUtils.StreakOfConsecutiveDays | src/utils/dateUtils.js:16-21 | k consecutive days ending today or yesterday, listed in any order, give a streak of k. |
| DateUtils.ThreeDaysEndingToday | src/utils/dateUtils.test.js:21-29 | Two days ago, yesterday and today give a streak of 3. |
| DateUtils.GapEndsStreak | src/utils/dateUtils.test.js:31-39 | Three days ago, yesterday and today give 2: counting stops at the first gap. |
| DateUtils.StaleCompletionGivesZero | src/utils/dateUtils.js:14 | A single completion five days ago gives a streak of 0. |
| DateUtils.RepeatedDateEndsRun | src/utils/dateUtils.js:18-20 | A date listed twice is a 0-day step, which ends the run: yesterday, today, today gives 1. |
| DateUtils.BadgeType | src/utils/dateUtils.js:25-31 | Each tier holds exactly on its range: diamond for at least 90, golden for 30 to 89, silver for 7 to 29, bronze for 3 to 6, none below 3. |
| DateUtils.BadgeMonotone | src/utils/dateUtils.js:25-31 | A longer streak never earns a lower tier. |
| Habits.Merge | src/store/habitStore.js:20 | The spread `{ ...h, ...u }`: an empty patch leaves the habit as it is, and a patch without completion dates or streak keeps both. `MergeKeepsStreakCurrent` and `ServerDb.MergeKeepingId` build on it. |
| Habits.MergeKeepsStreakCurrent | src/store/habitStore.js:20 | Spreading a patch without completion dates or streak keeps the dates. A streak that matched them still matches. |
| Habits.WithCompletions | server/db.js:133 | After a change of dates, the habit holds the new dates and a streak equal to `Streak` of them. Id, name and description are kept. |
| Habits.FindIndex | server/db.js:101 | Gives -1 exactly when no habit has the id. Otherwise gives the first position holding it. |
| Habits.Find | src/store/habitStore.js:35 | Gives nothing exactly when no habit has the id. Otherwise gives a stored habit with that id. |
| Habits.FindByDistinctId | server/db.js:121 | With distinct ids, looking up a stored habit's id finds that habit at its own position. |
| Habits.FindAfterAppend | server/db.js:96 | After appending a habit with a fresh id, looking up that id finds it. Looking up any other id gives what it gave before. |
| Habits.IndexOf | server/db.js:125 | Gives -1 exactly when the date is absent. Otherwise gives the position of its first occurrence. |
| ServerDb.SpliceToggle | server/db.js:125-131 | An absent date is pushed at the end. A present date loses exactly one copy and every other date stays. `SpliceToggleCounts`, `SpliceToggleFlips` and `SpliceToggleTwice` give the rest of its meaning. |
| ServerDb.SpliceToggleCounts | server/db.js:125-131 | Toggling adds one copy of an absent date, or removes one copy of a present date. |
| ServerDb.SpliceToggleFlips | server/db.js:125-131 | On dates without repetition: the toggled date is present afterwards exactly when it was absent before, every other date keeps its membership, and no repetition appears. |
| ServerDb.SpliceToggleTwice | server/db.js:125-131 | Toggling twice restores the exact list when the date was absent (push, then splice of the last element). It restores the same dates, in another order, whenever the toggled date was listed at most once, whatever else repeats. |
| ServerDb.SpliceToggleTwiceLosesRepeatedDate | server/db.js:125-131 | A date listed twice is not restored: two toggles of `[d, d]` leave `[]`, because each splices out one copy. |
| ServerDb.SpliceToggleTwiceKeepsStreak | server/db.js:125-133 | When the toggled date was listed at most once, toggling it twice leaves the streak unchanged. |
| ServerDb.MergeKeepingId | server/db.js:104-108 | The merged habit keeps the stored id even when the updates carry one. Otherwise it is the plain spread. |
| ServerDb.SeedHabits | server/db.js:36-76 | The four seed habits, numbered consecutively from the given id, so their ids are distinct. Each cached streak equals the number of its dates; `SeedStreaksAreCurrent` proves it is also the computed streak. |
| ServerDb.SeedStreaksAreCurrent | server/db.js:36-76 | Every seeded streak (4, 10, 30 and 0) equals the streak of its seeded dates on the day of seeding. |
| ServerDb.ConsecutiveDaysStreakCurrent | server/db.js:53-57 | A habit whose dates are the k days ending today, and whose streak is k, has a current streak. |
| ServerDb.FlipCompletion | server/db.js:125-133 | indexOf, then splice or push, then `calculateStreak`, all yield the habit with the toggled dates and the streak of those dates. |
| ServerDb.Database.constructor | server/db.js:2-3 | The table starts empty with nextId 1. The seeding at load time (line 80) leaves the four seed habits numbered 1 to 4, with nextId 5, and the invariant holding. |
| ServerDb.Database.SeedData | server/db.js:30-77 | Replaces the table with the four seed habits, numbered from the current nextId. nextId advances by 4 and the invariant is established. |
| ServerDb.Database.ResetDatabase | server/db.js:137-141 | Restores the initial state: the four seed habits numbered 1 to 4, with nextId 5. |
| ServerDb.Database.GetAllHabits | server/db.js:84 | Returns the stored list. |
| ServerDb.Database.GetHabitById | server/db.js:86 | Returns the habit with the id, or nothing exactly when no stored habit has it. |
| ServerDb.Database.CreateHabit | server/db.js:88-98 | Appends and returns a habit numbered with the old nextId. It has the given name, the description defaulting to empty, no completions and streak 0. nextId advances by one and the invariant is preserved. Every other look-up is unchanged. |
| ServerDb.Database.UpdateHabit | server/db.js:100-110 | Unknown id: returns nothing and changes nothing. Otherwise replaces only that entry with the id-preserving merge, returns it, and keeps the invariant and nextId. |
| ServerDb.Database.DeleteHabit | server/db.js:112-118 | Unknown id: returns false and changes nothing. Otherwise removes exactly that entry, keeps the rest in order, and returns true. Afterwards the id is not found. |
| ServerDb.Database.ToggleHabitCompletion | server/db.js:120-135 | Unknown id: returns nothing and changes nothing. Otherwise replaces only that habit with its dates toggled at the given date (today when none is given) and its streak recomputed. It returns that habit and keeps the invariant and nextId. |
| HabitStore.Without | src/store/habitStore.js:29 | Filtering drops every copy of the date and keeps every other date with its multiplicity. An absent date leaves the list as it is. |
| HabitStore.WithoutConcat | src/store/habitStore.js:29 | Filtering a concatenation filters each part. |
| HabitStore.ToggleDates | src/store/habitStore.js:26-30 | An absent date is appended at the end. A present date loses every copy while every other date keeps its multiplicity. `ToggleDatesFlips` and `ToggleDatesTwice` give the rest of its meaning. |
| HabitStore.ToggleDatesFlips | src/store/habitStore.js:26-30 | A present date loses every copy; an absent one is appended at the end. Either way the date's membership flips, other dates keep theirs, and no repetition appears. |
| HabitStore.ToggleDatesTwice | src/store/habitStore.js:27-30 | Toggling twice restores the exact list when the date was absent. It always restores which dates are present, and it restores the multiset when there was no repetition. |
| HabitStore.ToggleAll | src/store/habitStore.js:24-32 | Same length and order. Habits with another id are unchanged. A matching habit gets the toggled dates and a current streak, and keeps every other field. |
| HabitStore.ToggleAllTwice | src/store/habitStore.js:23-33 | Two toggles of the same id and date keep ids, names, descriptions and present dates. A habit whose date was absent and whose streak was current comes back unchanged. |
| HabitStore.UpdateAll | src/store/habitStore.js:20 | Same length. Every habit with the id becomes its spread with the updates. Every other habit is unchanged. |
| HabitStore.UpdateAllKeepsStreaks | src/store/habitStore.js:19-21 | An edit without dates or streak keeps every current streak current. An unknown id changes nothing. |
| HabitStore.Store.constructor | src/store/habitStore.js:5-7 | The store starts with no habits, not loading, and no error. |
| HabitStore.Store.SetHabits | src/store/habitStore.js:9 | Replaces the habits and nothing else. |
| HabitStore.Store.SetLoading | src/store/habitStore.js:11 | Replaces the loading flag and nothing else. |
| HabitStore.Store.SetError | src/store/habitStore.js:13 | Replaces the error and nothing else. |
| HabitStore.Store.AddHabit | src/store/habitStore.js:15-17 | Appends exactly that habit and changes no other field. With a fresh id the habit is then found by it, and every other look-up is unchanged. |
| HabitStore.Store.UpdateHabit | src/store/habitStore.js:19-21 | The habits become `UpdateAll` of the old habits. No other field changes. |
| HabitStore.Store.ToggleCompletion | src/store/habitStore.js:23-33 | The habits become `ToggleAll` of the old habits on the given day. No other field changes. |
| HabitStore.Store.GetHabitById | src/store/habitStore.js:35 | Returns the first habit with the id, or nothing exactly when none has it. |
| Agreement.TogglesAgreeWithoutDuplicates | server/db.js:125-131 | On dates without repetition, the server's splice-or-push and the store's filter-or-append give the same list. |
| Agreement.TogglesDifferOnRepeatedDate | src/store/habitStore.js:27-30 | On a date listed twice, the server's toggle leaves one copy and the store's leaves none. |
| Agreement.StoreToggleMatchesServer | src/store/habitStore.js:23-33 | Take a table with distinct ids, and a present id whose habit repeats no date (other habits may). The store's toggle of a present id gives the list the server's toggle leaves, with the same streak. |

## Left out

- Date parsing and the clock are left out. This covers `new Date`, `setHours`, the millisecond division with `Math.floor`, `toISOString`, and local time versus UTC. Dates are whole day numbers and "today" is a parameter.
- Repeated dates follow the code, not a set reading. The code does not merge a date listed twice: it is a 0-day step that ends the run (`DateUtils.RepeatedDateEndsRun`). The set-based description of the streak is proved only for dates without repetition (`DateUtils.StreakCountsConsecutiveDays`). Both toggles keep dates free of repetition (`ServerDb.SpliceToggleFlips`, `HabitStore.ToggleDatesFlips`). On a date listed twice the server's toggle does not undo itself: two toggles of `[d, d]` lose `d` altogether (`ServerDb.SpliceToggleTwiceLosesRepeatedDate`).
- The sort is not in place. `Array.prototype.sort` on the copied array is the function `DateUtils.SortDescending`. The caller's list is a value, so leaving it untouched holds by construction.
- Object identity and aliasing are left out. Habits are values. The server returns the stored object itself, and mutating it afterwards would change the table; the model does not capture that.
- Ids are integers. The `parseInt(id)` coercion in `server/db.js` and the client's `===` on ids of mixed types are not modelled.
- Dates are always present. The store's `h.completedDates \|\| []` for a habit without dates is not modelled: every modelled habit has a list.
- The falsy defaults `habitData.description \|\| ''` and `date \|\| today` are `Option.GetOr`. An empty description gives the same `''` either way.
- Badge names are the `DateUtils.Badge` datatype. `NoBadge` stands for the source's `null`.
- The zustand `create`/`set`/`get` machinery is left out. The store is a class whose fields the updaters replace.
- `ServerDb.Database.UpdateHabit` and `HabitStore.Store.UpdateHabit` make no streak promise for patches that carry `completedDates` or `streak`. The source lets such a patch overwrite either field without recomputing the streak; the model does the same. For the store this is the usual case: its caller in `src/hooks/useHabits.js` hands it the server's whole habit, dates and streak included, so `HabitStore.UpdateAllKeepsStreaks` speaks only of edits that leave both out.
- Outside the core: `server/index.js` (HTTP routing), `src/api/habitApi.js` (network calls), `src/hooks/useHabits.js` (async hooks) and the React components are not part of this model.
