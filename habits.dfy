/**
  The habit record shared by the server table (server/db.js) and the client
  store (src/store/habitStore.js), with the lookups and the field merge both
  use.
 */
module Habits {
  import opened Wrappers
  import opened DateUtils

  /** `{ id, name, description, completedDates, streak }`; `streak` caches the streak of `completedDates`. */
  datatype Habit = Habit(id: int, name: string, description: string, completedDates: seq<Day>, streak: int)

  /**
    The `updates` object spread over a habit: a field that is `Some` replaces
    the habit's field, a field that is `None` is not a key of the object.
   */
  datatype Patch = Patch(
    id: Option<int>,
    name: Option<string>,
    description: Option<string>,
    completedDates: Option<seq<Day>>,
    streak: Option<int>)

  /** `{ ...h, ...u }`: an empty patch changes nothing, and a patch without dates or streak keeps both. */
  function Merge(h: Habit, u: Patch): (r: Habit)
    ensures u == Patch(None, None, None, None, None) ==> r == h
    ensures LeavesCompletionsAlone(u) ==> r.completedDates == h.completedDates && r.streak == h.streak
  {
    Habit(
      u.id.GetOr(h.id),
      u.name.GetOr(h.name),
      u.description.GetOr(h.description),
      u.completedDates.GetOr(h.completedDates),
      u.streak.GetOr(h.streak))
  }

  /**
    A patch that names neither the completion dates nor the streak. The
    server's update route sends only name and description; the client hook
    instead hands the store the server's whole habit, dates and streak included.
   */
  predicate LeavesCompletionsAlone(u: Patch)
  {
    u.completedDates.None? && u.streak.None?
  }

  /** The cached streak agrees with the completion dates on day `today`. */
  predicate StreakCurrent(h: Habit, today: Day)
  {
    h.streak == Streak(h.completedDates, today)
  }

  /** Merging a patch that leaves the completions alone keeps a current streak current. */
  lemma MergeKeepsStreakCurrent(h: Habit, u: Patch, today: Day)
    requires LeavesCompletionsAlone(u)
    ensures Merge(h, u).completedDates == h.completedDates
    ensures StreakCurrent(h, today) ==> StreakCurrent(Merge(h, u), today)
  {
  }

  /**
    The single place where a habit's completion dates change: the streak is
    recomputed from the new dates, every other field is kept.
   */
  function WithCompletions(h: Habit, dates: seq<Day>, today: Day): (r: Habit)
    ensures r.completedDates == dates && StreakCurrent(r, today)
    ensures r.id == h.id && r.name == h.name && r.description == h.description
  {
    h.(completedDates := dates, streak := Streak(dates, today))
  }

  /** `habits.findIndex(h => h.id === id)`: the first position holding that id, or -1. */
  function FindIndex(habits: seq<Habit>, id: int): (r: int)
    ensures -1 <= r < |habits|
    ensures r == -1 <==> forall i :: 0 <= i < |habits| ==> habits[i].id != id
    ensures 0 <= r ==> habits[r].id == id && forall i :: 0 <= i < r ==> habits[i].id != id
  {
    if |habits| == 0 then
      -1
    else if habits[0].id == id then
      0
    else
      var r := FindIndex(habits[1..], id);
      if r == -1 then -1 else r + 1
  }

  /** `habits.find(h => h.id === id)`: the first habit with that id, or nothing. */
  function Find(habits: seq<Habit>, id: int): (r: Option<Habit>)
    ensures r.None? <==> forall i :: 0 <= i < |habits| ==> habits[i].id != id
    ensures r.Some? ==> r.value in habits && r.value.id == id
  {
    var i := FindIndex(habits, id);
    if i == -1 then None else Some(habits[i])
  }

  /** No two habits share an id. */
  predicate DistinctIds(habits: seq<Habit>)
  {
    forall i, j :: 0 <= i < j < |habits| ==> habits[i].id != habits[j].id
  }

  /** With distinct ids, the habit at position i is the one found by its id. */
  lemma FindByDistinctId(habits: seq<Habit>, i: nat)
    requires DistinctIds(habits) && i < |habits|
    ensures FindIndex(habits, habits[i].id) == i
    ensures Find(habits, habits[i].id) == Some(habits[i])
  {
  }

  /** Appending a habit with a fresh id makes it findable and changes no other lookup. */
  lemma {:induction false} FindAfterAppend(habits: seq<Habit>, h: Habit, id: int)
    requires forall i :: 0 <= i < |habits| ==> habits[i].id != h.id
    ensures Find(habits + [h], id) == if id == h.id then Some(h) else Find(habits, id)
  {
    if |habits| > 0 && habits[0].id != id {
      assert (habits + [h])[1..] == habits[1..] + [h];
      FindAfterAppend(habits[1..], h, id);
    }
  }

  /** `array.indexOf(x)`: the first position holding x, or -1. */
  function IndexOf(s: seq<Day>, x: Day): (r: int)
    ensures -1 <= r < |s|
    ensures r == -1 <==> x !in s
    ensures 0 <= r ==> s[r] == x && x !in s[..r]
  {
    if |s| == 0 then
      -1
    else if s[0] == x then
      0
    else
      var r := IndexOf(s[1..], x);
      assert r >= 0 ==> s[..r + 1] == [s[0]] + s[1..][..r];
      if r == -1 then -1 else r + 1
  }
}
