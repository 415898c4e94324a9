/**
  The in-memory habit table of server/db.js: a list of habits and the next id
  to hand out, with create, look-up, update, delete, completion toggle and
  reset. Calls that read the clock take `today` as a parameter.
 */
module ServerDb {
  import opened Wrappers
  import opened DateUtils
  import opened Habits

  // ---------------------------------------------------------------------------
  // The completion toggle on a list of dates: indexOf, then splice or push
  // ---------------------------------------------------------------------------

  /** Removes the first occurrence of `d` if there is one, otherwise appends `d`. */
  function SpliceToggle(dates: seq<Day>, d: Day): (r: seq<Day>)
    ensures d !in dates ==> r == dates + [d]
    ensures d in dates ==> |r| == |dates| - 1 && forall x :: x != d && x in dates ==> x in r
  {
    var i := IndexOf(dates, d);
    if i > -1 then dates[..i] + dates[i + 1..] else dates + [d]
  }

  /** Toggling adds one occurrence of an absent date and removes one occurrence of a present one. */
  lemma SpliceToggleCounts(dates: seq<Day>, d: Day)
    ensures d !in dates ==> multiset(SpliceToggle(dates, d)) == multiset(dates) + multiset{d}
    ensures d in dates ==> multiset(SpliceToggle(dates, d)) == multiset(dates) - multiset{d}
  {
    var i := IndexOf(dates, d);
    if i > -1 {
      assert dates == dates[..i] + [dates[i]] + dates[i + 1..];
    }
  }

  /**
    On dates without repetition the toggle flips the membership of `d`, keeps
    every other date as it was, and repeats nothing.
   */
  lemma SpliceToggleFlips(dates: seq<Day>, d: Day)
    requires NoDuplicates(dates)
    ensures var r := SpliceToggle(dates, d);
      && (d in r <==> d !in dates)
      && (forall x :: x != d ==> (x in r <==> x in dates))
      && NoDuplicates(r)
  {
    var r := SpliceToggle(dates, d);
    SpliceToggleCounts(dates, d);
    assert forall x :: x in r <==> x in multiset(r);
    assert forall x :: x in dates <==> x in multiset(dates);
  }

  /**
    Toggling the same date twice gives back the same list when the date was
    absent, and the same dates (in another order) when it was present once,
    whatever the other dates are.
   */
  lemma SpliceToggleTwice(dates: seq<Day>, d: Day)
    ensures d !in dates ==> SpliceToggle(SpliceToggle(dates, d), d) == dates
    ensures multiset(dates)[d] <= 1 ==> multiset(SpliceToggle(SpliceToggle(dates, d), d)) == multiset(dates)
  {
    var once := SpliceToggle(dates, d);
    SpliceToggleCounts(dates, d);
    SpliceToggleCounts(once, d);
    if d !in dates {
      assert IndexOf(once, d) == |dates|;
      assert once[..|dates|] == dates;
    } else if multiset(dates)[d] <= 1 {
      assert d !in multiset(once);
    }
  }

  /**
    A date listed twice is not restored: the first toggle splices out one
    copy, the second splices out the other, and the date is gone.
   */
  lemma SpliceToggleTwiceLosesRepeatedDate(d: Day)
    ensures SpliceToggle(SpliceToggle([d, d], d), d) == []
  {
    assert IndexOf([d, d], d) == 0;
    assert [d, d][1..] == [d];
    assert IndexOf([d], d) == 0;
  }

  /** Toggling the same date twice leaves the streak as it was, when the date was listed at most once. */
  lemma SpliceToggleTwiceKeepsStreak(dates: seq<Day>, d: Day, today: Day)
    requires multiset(dates)[d] <= 1
    ensures Streak(SpliceToggle(SpliceToggle(dates, d), d), today) == Streak(dates, today)
  {
    SpliceToggleTwice(dates, d);
    StreakIgnoresOrder(SpliceToggle(SpliceToggle(dates, d), d), dates, today);
  }

  /** `{ ...habits[index], ...updates, id: habits[index].id }`: the merge that preserves the id. */
  function MergeKeepingId(h: Habit, u: Patch): (r: Habit)
    ensures r.id == h.id
    ensures r == Merge(h, u.(id := None))
  {
    Merge(h, u).(id := h.id)
  }

  // ---------------------------------------------------------------------------
  // Seed data
  // ---------------------------------------------------------------------------

  /** The four habits seedData creates, with ids `first` to `first + 3`. */
  function SeedHabits(first: int, today: Day): (r: seq<Habit>)
    ensures |r| == 4 && DistinctIds(r)
    ensures forall i :: 0 <= i < |r| ==> r[i].id == first + i
    ensures forall i :: 0 <= i < |r| ==> r[i].streak == |r[i].completedDates|
  {
    [ Habit(first, "Morning Exercise", "30 minutes of cardio or strength training",
            [today - 3, today - 2, today - 1, today], 4),
      Habit(first + 1, "Read Books", "Read for at least 20 minutes", DaysEndingOn(today, 10), 10),
      Habit(first + 2, "Meditation", "10 minutes of mindfulness meditation", DaysEndingOn(today, 30), 30),
      Habit(first + 3, "Drink Water", "8 glasses of water daily", [], 0) ]
  }

  /** The streaks written into the seed data are the ones calculateStreak gives on the day of seeding. */
  lemma SeedStreaksAreCurrent(first: int, today: Day)
    ensures forall i :: 0 <= i < |SeedHabits(first, today)| ==> StreakCurrent(SeedHabits(first, today)[i], today)
  {
    var seed := SeedHabits(first, today);
    forall i | 0 <= i < |seed|
      ensures StreakCurrent(seed[i], today)
    {
      if i == 0 {
        ExerciseDatesEndToday(today);
        ConsecutiveDaysStreakCurrent(seed[0], today, 4);
      } else if i == 1 {
        ConsecutiveDaysStreakCurrent(seed[1], today, 10);
      } else if i == 2 {
        ConsecutiveDaysStreakCurrent(seed[2], today, 30);
      } else {
        ConsecutiveDaysStreakCurrent(seed[3], today, 0);
      }
    }
  }

  /** The first seeded habit lists the four days ending today, oldest first. */
  lemma ExerciseDatesEndToday(today: Day)
    ensures multiset([today - 3, today - 2, today - 1, today]) == multiset(DaysEndingOn(today, 4))
  {
    assert DaysEndingOn(today, 4) == [today, today - 1, today - 2, today - 3];
  }

  /** A habit whose dates are the k days ending today and whose streak is k has a current streak. */
  lemma ConsecutiveDaysStreakCurrent(h: Habit, today: Day, k: nat)
    requires multiset(h.completedDates) == multiset(DaysEndingOn(today, k))
    requires h.streak == k
    ensures StreakCurrent(h, today)
  {
    StreakOfConsecutiveDays(h.completedDates, today, today, k);
  }

  /**
    The body of toggleHabitCompletion once the habit is found: flip the date
    in its completion dates with indexOf and splice or push, then recompute
    the streak with calculateStreak.
   */
  method FlipCompletion(habit: Habit, dateStr: Day, today: Day) returns (toggled: Habit)
    ensures toggled == WithCompletions(habit, SpliceToggle(habit.completedDates, dateStr), today)
  {
    var dates := habit.completedDates;
    var dateIndex := IndexOf(dates, dateStr);
    if dateIndex > -1 {
      dates := dates[..dateIndex] + dates[dateIndex + 1..];
    } else {
      dates := dates + [dateStr];
    }
    var streak := CalculateStreak(dates, today);
    toggled := habit.(completedDates := dates, streak := streak);
  }

  // ---------------------------------------------------------------------------
  // The table
  // ---------------------------------------------------------------------------

  class Database {
    var habits: seq<Habit>
    var nextId: int

    /** Every stored id is positive, below nextId, and used once. */
    ghost predicate Valid()
      reads this
    {
      && 1 <= nextId
      && (forall i :: 0 <= i < |habits| ==> 1 <= habits[i].id < nextId)
      && DistinctIds(habits)
    }

    /** The state when the module is loaded: no habits, nextId 1, then seedData(). */
    constructor (today: Day)
      ensures Valid()
      ensures habits == SeedHabits(1, today) && nextId == 5
    {
      habits := [];
      nextId := 1;
      new;
      SeedData(today);
    }

    /** seedData: replaces the table by the four seed habits, numbered from nextId. */
    method SeedData(today: Day)
      requires 1 <= nextId
      modifies this
      ensures Valid()
      ensures habits == SeedHabits(old(nextId), today) && nextId == old(nextId) + 4
    {
      habits := SeedHabits(nextId, today);
      nextId := nextId + 4;
    }

    /** resetDatabase */
    method ResetDatabase(today: Day)
      modifies this
      ensures Valid()
      ensures habits == SeedHabits(1, today) && nextId == 5
    {
      habits := [];
      nextId := 1;
      SeedData(today);
    }

    /** getAllHabits */
    method GetAllHabits() returns (all: seq<Habit>)
      ensures all == habits
    {
      all := habits;
    }

    /** getHabitById: the habit with that id, if any. */
    method GetHabitById(id: int) returns (r: Option<Habit>)
      ensures r == Find(habits, id)
      ensures r.Some? ==> r.value in habits && r.value.id == id
      ensures r.None? <==> forall i :: 0 <= i < |habits| ==> habits[i].id != id
    {
      r := Find(habits, id);
    }

    /** createHabit: appends a new habit numbered nextId, with no completions, and advances nextId. */
    method CreateHabit(name: string, description: Option<string>) returns (h: Habit)
      requires Valid()
      modifies this
      ensures Valid()
      ensures h == Habit(old(nextId), name, description.GetOr(""), [], 0)
      ensures habits == old(habits) + [h] && nextId == old(nextId) + 1
      ensures forall id :: Find(habits, id) == if id == h.id then Some(h) else Find(old(habits), id)
    {
      h := Habit(nextId, name, description.GetOr(""), [], 0);
      forall id
        ensures Find(habits + [h], id) == if id == h.id then Some(h) else Find(habits, id)
      {
        FindAfterAppend(habits, h, id);
      }
      nextId := nextId + 1;
      habits := habits + [h];
    }

    /** updateHabit: merges the updates into the habit with that id, keeping its id; null when there is none. */
    method UpdateHabit(id: int, updates: Patch) returns (r: Option<Habit>)
      requires Valid()
      modifies this
      ensures Valid() && nextId == old(nextId)
      ensures var i := FindIndex(old(habits), id);
        if i == -1 then
          r == None && habits == old(habits)
        else
          r == Some(MergeKeepingId(old(habits)[i], updates)) && habits == old(habits)[i := r.value]
    {
      var index := FindIndex(habits, id);
      if index == -1 {
        return None;
      }
      var updated := MergeKeepingId(habits[index], updates);
      habits := habits[index := updated];
      r := Some(updated);
    }

    /** deleteHabit: removes the habit with that id and keeps the others in order; false when there is none. */
    method DeleteHabit(id: int) returns (ok: bool)
      requires Valid()
      modifies this
      ensures Valid() && nextId == old(nextId)
      ensures var i := FindIndex(old(habits), id);
        && ok == (i != -1)
        && habits == if i == -1 then old(habits) else old(habits)[..i] + old(habits)[i + 1..]
      ensures Find(habits, id) == None
    {
      var index := FindIndex(habits, id);
      if index == -1 {
        return false;
      }
      ghost var before := habits;
      habits := habits[..index] + habits[index + 1..];
      forall j | 0 <= j < |habits|
        ensures habits[j].id != id
      {
        if j < index {
          assert habits[j] == before[j];
        } else {
          assert habits[j] == before[j + 1];
        }
      }
      ok := true;
    }

    /**
      toggleHabitCompletion: flips the date (today when none is given) in the
      habit's completion dates and recomputes its streak; null when there is
      no habit with that id.
     */
    method ToggleHabitCompletion(id: int, date: Option<Day>, today: Day) returns (r: Option<Habit>)
      requires Valid()
      modifies this
      ensures Valid() && nextId == old(nextId)
      ensures var i := FindIndex(old(habits), id);
        if i == -1 then
          r == None && habits == old(habits)
        else
          var h := old(habits)[i];
          && r == Some(WithCompletions(h, SpliceToggle(h.completedDates, date.GetOr(today)), today))
          && habits == old(habits)[i := r.value]
      ensures r.Some? ==> r.value.id == id && StreakCurrent(r.value, today)
    {
      var index := FindIndex(habits, id);
      if index == -1 {
        return None;
      }
      var habit := habits[index];
      habit := FlipCompletion(habit, date.GetOr(today), today);
      habits := habits[index := habit];
      r := Some(habit);
    }
  }
}
