/** The weekly schedule order shared by the lecturer's schedule list
    (components/lecturer/schedule-list.tsx) and the student schedule page
    (app/student/schedule/page.tsx): entries are sorted in place by the
    position of their day in Monday..Friday, with `indexOf` giving -1 — before
    Monday — for any other day, and entries of the same position keep their
    stored order. */
module ScheduleOrder {
  import opened Common
  import opened Schema
  import opened Store
  import opened DashboardGate
  import StableSort

  const DayOrder: seq<string> := ["Monday", "Tuesday", "Wednesday", "Thursday", "Friday"]

  /** `dayOrder.indexOf(day)`: the first position of the day, -1 when absent. */
  function DayIndex(day: string): (r: int)
    ensures -1 <= r < |DayOrder|
    ensures 0 <= r ==> DayOrder[r] == day
    ensures r < 0 <==> day !in DayOrder
  {
    FindIndex(DayOrder, (d: string) => d == day)
  }

  /** The sort key of an entry. */
  function DayKey(s: Schedule): int
  {
    DayIndex(s.day)
  }

  /** In an ordered list every entry with an unknown day ("Saturday", "monday",
      "") comes before every weekday entry, and weekdays follow the week. */
  lemma OrderOfDays(s: seq<Schedule>, i: int, j: int)
    requires StableSort.SortedByKey(s, DayKey)
    requires 0 <= i < |s| && 0 <= j < |s|
    ensures s[i].day !in DayOrder && s[j].day in DayOrder ==> i < j
    ensures s[i].day == "Monday" && s[j].day == "Friday" ==> i < j
  {
    assert DayIndex("Monday") == 0 && DayIndex("Friday") == 4;
  }

  /** Sorting a list that is already in week order changes nothing: the
      ordered, stable rearrangement of a list is unique. */
  lemma OrderedListIsKept(input: seq<Schedule>, output: seq<Schedule>)
    requires StableSort.SortedByKey(input, DayKey)
    requires StableSort.SortedByKey(output, DayKey)
    requires StableSort.SameKeyOrder(output, input, DayKey)
    ensures output == input
  {
    StableSort.SortedSameKeyOrderUnique(output, input, DayKey);
  }

  /** What the lecturer's list renders. */
  datatype ListView = EmptyState | Listing(entries: seq<Schedule>)

  /** `ScheduleList`: an empty list shows the empty state and is not sorted;
      otherwise the list itself is sorted in place and rendered. */
  method ScheduleList(schedules: array<Schedule>) returns (view: ListView)
    modifies schedules
    ensures schedules.Length == 0 <==> view == EmptyState
    ensures view.Listing? ==> view.entries == schedules[..]
    ensures StableSort.SortedByKey(schedules[..], DayKey)
    ensures multiset(schedules[..]) == multiset(old(schedules[..]))
    ensures StableSort.SameKeyOrder(schedules[..], old(schedules[..]), DayKey)
    ensures StableSort.SortedByKey(old(schedules[..]), DayKey) ==> schedules[..] == old(schedules[..])
  {
    if schedules.Length == 0 {
      return EmptyState;
    }
    ghost var before := schedules[..];
    StableSort.SortByKey(schedules, DayKey);
    if StableSort.SortedByKey(before, DayKey) {
      OrderedListIsKept(before, schedules[..]);
    }
    view := Listing(schedules[..]);
  }

  /** `StudentSchedule`: the guard, then the class's entries sorted by day. */
  method StudentSchedule(db: Database, session: Option<User>) returns (access: Access, sorted: seq<Schedule>)
    ensures access == ClassPageAccess(session, "student", "/student/dashboard")
    ensures access.Away? ==> sorted == []
    ensures access.Proceed? ==>
      && StableSort.SortedByKey(sorted, DayKey)
      && multiset(sorted) == multiset(SchedulesOfClass(db.schedules, access.classId))
      && StableSort.SameKeyOrder(sorted, SchedulesOfClass(db.schedules, access.classId), DayKey)
  {
    access := ClassPageAccess(session, "student", "/student/dashboard");
    sorted := [];
    if access.Proceed? {
      var fetched := SchedulesOfClass(db.schedules, access.classId);
      var a := new Schedule[|fetched|](i requires 0 <= i < |fetched| => fetched[i]);
      assert a[..] == fetched;
      StableSort.SortByKey(a, DayKey);
      sorted := a[..];
    }
  }
}
