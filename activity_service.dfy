/** The activity log: a module-level list of activities with lookups that fail
    with "Activity not found", newest-first listings, type and text filters,
    and counts over the last day, week and month. */
module ActivityService {
  import opened Common

  datatype Activity = Activity(
    Id: int,
    kind: string,            // the `type` field: "student", "assignment", "grade", "attendance", ...
    description: string,
    user: string,
    date: int,               // the instant the activity happened
    timestamp: Option<int>)  // set by `create`; the seed entries have none

  /** The data `create` receives; the service adds Id, date and timestamp. */
  datatype ActivityDraft = ActivityDraft(kind: string, description: string, user: string)

  /** The data `update` spreads over an activity; None leaves a field as it is. */
  datatype ActivityPatch = ActivityPatch(
    Id: Option<int>, kind: Option<string>, description: Option<string>,
    user: Option<string>, date: Option<int>, timestamp: Option<Option<int>>)

  /** The counts `getStats` reports. */
  datatype ActivityStats = ActivityStats(today: nat, week: nat, month: nat, total: nat)

  const NOT_FOUND := "Activity not found"

  /** `{ ...activity, ...patch, Id: id }`. */
  function Merge(a: Activity, p: ActivityPatch, id: int): Activity {
    Activity(
      id, p.kind.GetOr(a.kind), p.description.GetOr(a.description), p.user.GetOr(a.user),
      p.date.GetOr(a.date), p.timestamp.GetOr(a.timestamp))
  }

  /** Reads a record's Id. */
  const IdOf := (r: Activity) => r.Id

  /** `generateId`: 1 for an empty log, otherwise one more than the largest id. */
  function GenerateId(s: seq<Activity>): (id: int)
    ensures s == [] ==> id == 1
    ensures forall i :: 0 <= i < |s| ==> s[i].Id < id
    ensures s != [] ==> id - 1 in Ids(s, IdOf)
  {
    if |s| > 0 then Max(Ids(s, IdOf)) + 1 else 1
  }

  /** The sort key of the newest-first comparator `new Date(b.date) - new Date(a.date)`. */
  function Age(a: Activity): int {
    -a.date
  }

  /** A list ordered newest first. */
  predicate NewestFirst(s: seq<Activity>) {
    forall i, j :: 0 <= i < j < |s| ==> s[i].date >= s[j].date
  }

  /** The stable newest-first sort: a permutation, ordered by date descending,
      activities of the same date kept in their original order. */
  function SortNewestFirst(s: seq<Activity>): (r: seq<Activity>)
    ensures multiset(r) == multiset(s) && |r| == |s|
    ensures NewestFirst(r)
    ensures forall a :: a in r <==> a in s
    ensures forall k :: WithKey(r, Age, k) == WithKey(s, Age, k)
  {
    SortByKeyCorrect(s, Age);
    SortByKey(s, Age)
  }

  /** `type.toLowerCase() === filter.toLowerCase()`. */
  predicate HasType(a: Activity, t: string) {
    Lower(a.kind) == Lower(t)
  }

  /** The search test on an already lowercased term. */
  predicate Mentions(a: Activity, term: string) {
    Contains(Lower(a.description), term) || Contains(Lower(a.user), term) ||
    Contains(Lower(a.kind), term)
  }

  /** The filter `getByType` applies: none for an empty type or "all". */
  predicate SelectsAllTypes(t: string) {
    t == "" || t == "all"
  }

  /** The filter `search` applies: none for an empty or blank term. */
  predicate SelectsAllText(term: string) {
    IsBlank(term)
  }

  /** Midnight of the current day, the start of the last 7 days, the start of the last 30 days. */
  function TodayStart(now: int): int {
    StartOfDay(DayOf(now))
  }

  class ActivityLog {
    var activities: seq<Activity>

    constructor (seed: seq<Activity>)
      ensures activities == seed
    {
      activities := seed;
    }

    /** `getAll`: every activity, newest first; the log itself is not reordered. */
    function GetAll(): (r: seq<Activity>)
      reads this
      ensures multiset(r) == multiset(activities) && |r| == |activities|
      ensures NewestFirst(r)
      ensures forall k :: WithKey(r, Age, k) == WithKey(activities, Age, k)
    {
      SortNewestFirst(activities)
    }

    /** `getById`: the first activity with that id, or "Activity not found". */
    function GetById(id: int): (r: Result<Activity>)
      reads this
      ensures r.Failure? <==> id !in Ids(activities, IdOf)
      ensures r.Failure? ==> r.message == NOT_FOUND
      ensures r.Success? ==> r.value.Id == id && r.value in activities
      ensures r.Success? ==> exists k :: 0 <= k < |activities| && activities[k] == r.value &&
                               forall j :: 0 <= j < k ==> activities[j].Id != id
    {
      var k := FirstIndex(Ids(activities, IdOf), id);
      if k == -1 then Failure(NOT_FOUND) else Success(activities[k])
    }

    /** `create`: appends the activity dated now, with a fresh id. */
    method Create(draft: ActivityDraft, now: int) returns (a: Activity)
      modifies this
      ensures a == Activity(GenerateId(old(activities)), draft.kind, draft.description, draft.user,
                            now, Some(now))
      ensures a.Id !in old(Ids(activities, IdOf))
      ensures activities == old(activities) + [a]
      ensures GetById(a.Id) == Success(a)
      ensures Distinct(old(Ids(activities, IdOf))) ==> Distinct(Ids(activities, IdOf))
    {
      a := Activity(GenerateId(activities), draft.kind, draft.description, draft.user, now, Some(now));
      IdsAppend(activities, a, IdOf);
      activities := activities + [a];
      assert Ids(activities, IdOf)[|activities| - 1] == a.Id;
    }

    /** `update`: "Activity not found" for an unknown id; otherwise the first
        activity with the id takes the patch, keeping its id whatever the
        patch says, and nothing else changes. */
    method Update(id: int, patch: ActivityPatch) returns (r: Result<Activity>)
      modifies this
      ensures var k := FirstIndex(old(Ids(activities, IdOf)), id);
              if k == -1 then r == Failure(NOT_FOUND) && activities == old(activities)
              else r == Success(Merge(old(activities)[k], patch, id)) && activities == old(activities)[k := r.value]
      ensures Ids(activities, IdOf) == old(Ids(activities, IdOf))
    {
      var k := FirstIndex(Ids(activities, IdOf), id);
      if k == -1 {
        return Failure(NOT_FOUND);
      }
      var merged := Merge(activities[k], patch, id);
      IdsReplace(activities, k, merged, IdOf);
      activities := activities[k := merged];
      r := Success(merged);
    }

    /** `remove`: "Activity not found" for an unknown id; otherwise exactly the
        first activity with the id leaves the log. */
    method Remove(id: int) returns (r: Result<bool>)
      modifies this
      ensures r.Failure? <==> id !in old(Ids(activities, IdOf))
      ensures var k := FirstIndex(old(Ids(activities, IdOf)), id);
              if r.Success? then r.value && activities == old(activities)[..k] + old(activities)[k + 1..]
              else r.message == NOT_FOUND && activities == old(activities)
      ensures r.Success? ==> |activities| == old(|activities|) - 1
      ensures Distinct(old(Ids(activities, IdOf))) ==> Distinct(Ids(activities, IdOf))
    {
      var k := FirstIndex(Ids(activities, IdOf), id);
      if k == -1 {
        return Failure(NOT_FOUND);
      }
      IdsSplice(activities, k, IdOf);
      activities := activities[..k] + activities[k + 1..];
      r := Success(true);
    }

    /** `getByType`: everything for "" or "all"; otherwise the activities whose
        type equals the argument ignoring case; newest first either way. */
    function GetByType(t: string): (r: seq<Activity>)
      reads this
      ensures SelectsAllTypes(t) ==> r == GetAll()
      ensures forall a :: a in r <==> a in activities && (SelectsAllTypes(t) || HasType(a, t))
      ensures NewestFirst(r)
    {
      if SelectsAllTypes(t) then GetAll()
      else SortNewestFirst(Filter(activities, (a: Activity) => HasType(a, t)))
    }

    /** `search`: everything for an empty or blank term; otherwise the
        activities whose description, user or type contains the lowercased
        (untrimmed) term; newest first either way. */
    function Search(term: string): (r: seq<Activity>)
      reads this
      ensures SelectsAllText(term) ==> r == GetAll()
      ensures forall a :: a in r <==> a in activities && (SelectsAllText(term) || Mentions(a, Lower(term)))
      ensures NewestFirst(r)
    {
      if SelectsAllText(term) then GetAll()
      else SortNewestFirst(Filter(activities, (a: Activity) => Mentions(a, Lower(term))))
    }

    /** `getStats`: how many activities are dated since midnight, since
        midnight 7 days ago, since midnight 30 days ago, and in all. */
    function GetStats(now: int): (st: ActivityStats)
      reads this
      ensures st.today <= st.week <= st.month <= st.total == |activities|
    {
      var today := TodayStart(now);
      var weekAgo := today - 7 * DAY_MS;
      var monthAgo := today - 30 * DAY_MS;
      var todayCount := |Filter(activities, (a: Activity) => a.date >= today)|;
      var weekCount := |Filter(activities, (a: Activity) => a.date >= weekAgo)|;
      var monthCount := |Filter(activities, (a: Activity) => a.date >= monthAgo)|;
      FilterCountMonotone(activities, (a: Activity) => a.date >= today, (a: Activity) => a.date >= weekAgo);
      FilterCountMonotone(activities, (a: Activity) => a.date >= weekAgo, (a: Activity) => a.date >= monthAgo);
      ActivityStats(todayCount, weekCount, monthCount, |activities|)
    }
  }
}
