/**
  The server (server/db.js) and the client store (src/store/habitStore.js) flip
  a completion date differently: the server splices out the first occurrence,
  the store filters out all of them. Both recompute the streak with the one
  `Streak` definition. On dates without repetition, which is all either side
  ever produces, the two toggles give the same habit.
 */
module Agreement {
  import opened DateUtils
  import opened Habits
  import ServerDb
  import HabitStore

  /** Without repeated dates, splicing out the one occurrence is filtering it out. */
  lemma TogglesAgreeWithoutDuplicates(dates: seq<Day>, d: Day)
    requires NoDuplicates(dates)
    ensures ServerDb.SpliceToggle(dates, d) == HabitStore.ToggleDates(dates, d)
  {
    var i := IndexOf(dates, d);
    if i > -1 {
      OnlyOccurrence(dates, i);
      FilterSingleOccurrence(dates[..i], dates[i + 1..], d);
    }
  }

  /** In dates without repetition, the date at position i occurs nowhere after it. */
  lemma OnlyOccurrence(dates: seq<Day>, i: nat)
    requires NoDuplicates(dates) && i < |dates|
    ensures dates == dates[..i] + [dates[i]] + dates[i + 1..]
    ensures dates[i] !in dates[i + 1..]
  {
    var x := dates[i];
    assert dates == dates[..i] + [x] + dates[i + 1..];
    assert multiset(dates) == multiset(dates[..i]) + multiset{x} + multiset(dates[i + 1..]);
    assert x in dates && multiset(dates)[x] <= 1;
    assert multiset(dates[i + 1..])[x] == 0;
  }

  /** Filtering out a date that occurs once, between `before` and `after`, splices it out. */
  lemma FilterSingleOccurrence(before: seq<Day>, after: seq<Day>, d: Day)
    requires d !in before && d !in after
    ensures HabitStore.Without(before + [d] + after, d) == before + after
  {
    assert HabitStore.Without(before + [d], d) == before by {
      HabitStore.WithoutConcat(before, [d], d);
      assert HabitStore.Without([d], d) == [];
      assert before + [] == before;
    }
    HabitStore.WithoutConcat(before + [d], after, d);
  }

  /** With a repeated date the two differ: the server leaves one copy behind, the store none. */
  lemma TogglesDifferOnRepeatedDate(d: Day)
    ensures ServerDb.SpliceToggle([d, d], d) == [d]
    ensures HabitStore.ToggleDates([d, d], d) == []
  {
    assert IndexOf([d, d], d) == 0;
    assert [d, d][1..] == [d];
    assert HabitStore.Without([d], d) == [];
  }

  /**
    After a toggle of a habit whose dates do not repeat, the store's list of
    habits is the server's table after the same toggle on the same day.
   */
  lemma StoreToggleMatchesServer(habits: seq<Habit>, id: int, d: Day, today: Day)
    requires DistinctIds(habits)
    requires FindIndex(habits, id) != -1
    requires NoDuplicates(habits[FindIndex(habits, id)].completedDates)
    ensures var i := FindIndex(habits, id);
      HabitStore.ToggleAll(habits, id, d, today)
        == habits[i := WithCompletions(habits[i], ServerDb.SpliceToggle(habits[i].completedDates, d), today)]
  {
    var i := FindIndex(habits, id);
    var server := habits[i := WithCompletions(habits[i], ServerDb.SpliceToggle(habits[i].completedDates, d), today)];
    var client := HabitStore.ToggleAll(habits, id, d, today);
    TogglesAgreeWithoutDuplicates(habits[i].completedDates, d);
    forall j | 0 <= j < |habits|
      ensures client[j] == server[j]
    {
      if j != i {
        assert habits[j].id != id;
      }
    }
  }
}
