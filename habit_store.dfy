/**
  The client-side store of src/store/habitStore.js: a record of `habits`,
  `loading` and `error` whose updaters replace a field with a value computed
  without mutation (`map`, `filter`, spread). `calculateStreak` reads the clock,
  so the toggle takes `today` as a parameter.
 */
module HabitStore {
  import opened Wrappers
  import opened DateUtils
  import opened Habits

  // ---------------------------------------------------------------------------
  // The completion flip: filter out a present date, append an absent one
  // ---------------------------------------------------------------------------

  /** `dates.filter((x) => x !== d)`: every occurrence of `d` dropped, the rest kept in order. */
  function Without(dates: seq<Day>, d: Day): (r: seq<Day>)
    ensures multiset(r) == multiset(dates)[d := 0]
    ensures d !in dates ==> r == dates
  {
    if |dates| == 0 then
      []
    else
      assert dates == [dates[0]] + dates[1..];
      if dates[0] == d then Without(dates[1..], d) else [dates[0]] + Without(dates[1..], d)
  }

  /** Filtering a concatenation filters each part. */
  lemma {:induction false} WithoutConcat(a: seq<Day>, b: seq<Day>, d: Day)
    ensures Without(a + b, d) == Without(a, d) + Without(b, d)
  {
    if |a| == 0 {
      assert a + b == b;
    } else {
      assert (a + b)[0] == a[0] && (a + b)[1..] == a[1..] + b;
      WithoutConcat(a[1..], b, d);
    }
  }

  /** The new completion dates of toggleCompletion. */
  function ToggleDates(dates: seq<Day>, d: Day): (r: seq<Day>)
    ensures d !in dates ==> r == dates + [d]
    ensures d in dates ==> multiset(r) == multiset(dates)[d := 0] && d !in r
  {
    if d in dates then
      var r := Without(dates, d);
      assert d !in multiset(r);
      r
    else
      dates + [d]
  }

  /**
    The toggle drops every copy of a present `d` or appends an absent one at
    the end; either way it flips the membership of `d`, keeps every other
    date, and repeats nothing that was not repeated.
   */
  lemma ToggleDatesFlips(dates: seq<Day>, d: Day)
    ensures var r := ToggleDates(dates, d);
      && (d in dates ==> multiset(r) == multiset(dates)[d := 0])
      && (d !in dates ==> r == dates + [d])
      && (d in r <==> d !in dates)
      && (forall x :: x != d ==> (x in r <==> x in dates))
      && (NoDuplicates(dates) ==> NoDuplicates(r))
  {
    var r := ToggleDates(dates, d);
    assert forall x :: x in r <==> x in multiset(r);
    assert forall x :: x in dates <==> x in multiset(dates);
  }

  /**
    Toggling the same date twice restores the list exactly when the date was
    absent, and always restores which dates are present.
   */
  lemma ToggleDatesTwice(dates: seq<Day>, d: Day)
    ensures d !in dates ==> ToggleDates(ToggleDates(dates, d), d) == dates
    ensures forall x :: x in ToggleDates(ToggleDates(dates, d), d) <==> x in dates
    ensures NoDuplicates(dates) ==> multiset(ToggleDates(ToggleDates(dates, d), d)) == multiset(dates)
  {
    var once := ToggleDates(dates, d);
    ToggleDatesFlips(dates, d);
    ToggleDatesFlips(once, d);
    if d !in dates {
      assert once == dates + [d];
      assert Without(dates + [d], d) == dates by {
        WithoutConcat(dates, [d], d);
        assert Without([d], d) == [];
      }
    } else if NoDuplicates(dates) {
      assert multiset(dates)[d] == 1;
    }
  }

  // ---------------------------------------------------------------------------
  // The new `habits` lists
  // ---------------------------------------------------------------------------

  /** `habits.map(h => h.id !== id ? h : { ...h, completedDates, streak: calculateStreak(completedDates) })` */
  function ToggleAll(habits: seq<Habit>, id: int, date: Day, today: Day): (r: seq<Habit>)
    ensures |r| == |habits|
    ensures forall i :: 0 <= i < |habits| && habits[i].id != id ==> r[i] == habits[i]
    ensures forall i :: 0 <= i < |habits| && habits[i].id == id ==>
      && r[i].completedDates == ToggleDates(habits[i].completedDates, date)
      && StreakCurrent(r[i], today)
      && r[i] == habits[i].(completedDates := r[i].completedDates, streak := r[i].streak)
  {
    seq(|habits|, i requires 0 <= i < |habits| =>
      if habits[i].id != id then habits[i]
      else WithCompletions(habits[i], ToggleDates(habits[i].completedDates, date), today))
  }

  /**
    Toggling the same date twice on the same day gives back every habit
    exactly when the date was absent and the streaks were current, and
    otherwise the same ids, names, descriptions and present dates.
   */
  lemma ToggleAllTwice(habits: seq<Habit>, id: int, date: Day, today: Day)
    ensures var twice := ToggleAll(ToggleAll(habits, id, date, today), id, date, today);
      && |twice| == |habits|
      && (forall i :: 0 <= i < |habits| ==>
            && twice[i].id == habits[i].id
            && twice[i].name == habits[i].name
            && twice[i].description == habits[i].description
            && (forall x :: x in twice[i].completedDates <==> x in habits[i].completedDates))
      && (forall i :: 0 <= i < |habits| && date !in habits[i].completedDates && StreakCurrent(habits[i], today) ==>
            twice[i] == habits[i])
  {
    var once := ToggleAll(habits, id, date, today);
    var twice := ToggleAll(once, id, date, today);
    forall i | 0 <= i < |habits|
      ensures twice[i].id == habits[i].id && twice[i].name == habits[i].name
      ensures twice[i].description == habits[i].description
      ensures forall x :: x in twice[i].completedDates <==> x in habits[i].completedDates
      ensures date !in habits[i].completedDates && StreakCurrent(habits[i], today) ==> twice[i] == habits[i]
    {
      ToggleDatesTwice(habits[i].completedDates, date);
    }
  }

  /** `habits.map(h => h.id === id ? { ...h, ...updates } : h)` */
  function UpdateAll(habits: seq<Habit>, id: int, updates: Patch): (r: seq<Habit>)
    ensures |r| == |habits|
    ensures forall i :: 0 <= i < |habits| ==> r[i] == if habits[i].id == id then Merge(habits[i], updates) else habits[i]
  {
    seq(|habits|, i requires 0 <= i < |habits| =>
      if habits[i].id == id then Merge(habits[i], updates) else habits[i])
  }

  /** An edit that leaves the completions alone keeps every current streak current; no habit with that id means no change. */
  lemma UpdateAllKeepsStreaks(habits: seq<Habit>, id: int, updates: Patch, today: Day)
    requires LeavesCompletionsAlone(updates)
    ensures (forall i :: 0 <= i < |habits| ==> StreakCurrent(habits[i], today)) ==>
      forall i :: 0 <= i < |habits| ==> StreakCurrent(UpdateAll(habits, id, updates)[i], today)
    ensures Find(habits, id).None? ==> UpdateAll(habits, id, updates) == habits
  {
    var r := UpdateAll(habits, id, updates);
    forall i | 0 <= i < |habits|
      ensures StreakCurrent(habits[i], today) ==> StreakCurrent(r[i], today)
    {
      MergeKeepsStreakCurrent(habits[i], updates, today);
    }
  }

  // ---------------------------------------------------------------------------
  // The store
  // ---------------------------------------------------------------------------

  class Store {
    var habits: seq<Habit>
    var loading: bool
    var error: Option<string>

    /** The initial state `{ habits: [], loading: false, error: null }`. */
    constructor ()
      ensures habits == [] && !loading && error == None
    {
      habits := [];
      loading := false;
      error := None;
    }

    /** setHabits */
    method SetHabits(newHabits: seq<Habit>)
      modifies this
      ensures habits == newHabits
      ensures loading == old(loading) && error == old(error)
    {
      habits := newHabits;
    }

    /** setLoading */
    method SetLoading(newLoading: bool)
      modifies this
      ensures loading == newLoading
      ensures habits == old(habits) && error == old(error)
    {
      loading := newLoading;
    }

    /** setError */
    method SetError(newError: Option<string>)
      modifies this
      ensures error == newError
      ensures habits == old(habits) && loading == old(loading)
    {
      error := newError;
    }

    /** addHabit: appends the habit; a fresh id makes it the one getHabitById finds, and no other lookup changes. */
    method AddHabit(habit: Habit)
      modifies this
      ensures habits == old(habits) + [habit]
      ensures loading == old(loading) && error == old(error)
      ensures (forall i :: 0 <= i < |old(habits)| ==> old(habits)[i].id != habit.id) ==>
        forall id :: Find(habits, id) == if id == habit.id then Some(habit) else Find(old(habits), id)
    {
      if forall i :: 0 <= i < |habits| ==> habits[i].id != habit.id {
        forall id
          ensures Find(habits + [habit], id) == if id == habit.id then Some(habit) else Find(habits, id)
        {
          FindAfterAppend(habits, habit, id);
        }
      }
      habits := habits + [habit];
    }

    /** updateHabit: merges the updates into every habit with that id. */
    method UpdateHabit(id: int, updates: Patch)
      modifies this
      ensures habits == UpdateAll(old(habits), id, updates)
      ensures loading == old(loading) && error == old(error)
    {
      habits := UpdateAll(habits, id, updates);
    }

    /** toggleCompletion: flips the date in every habit with that id and recomputes its streak. */
    method ToggleCompletion(id: int, date: Day, today: Day)
      modifies this
      ensures habits == ToggleAll(old(habits), id, date, today)
      ensures loading == old(loading) && error == old(error)
    {
      habits := ToggleAll(habits, id, date, today);
    }

    /** getHabitById: the first habit with that id, if any. */
    method GetHabitById(id: int) returns (r: Option<Habit>)
      ensures r == Find(habits, id)
      ensures r.Some? ==> r.value in habits && r.value.id == id
      ensures r.None? <==> forall i :: 0 <= i < |habits| ==> habits[i].id != id
    {
      r := Find(habits, id);
    }
  }
}
