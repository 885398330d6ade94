/** The schedule router of `run`: the Amsterdam day of the week and hour select exactly one
    action through an if/else-if chain, and each action adds a fixed number of posts. */
module Schedule {

  /** `Date.getDay()`: 0 is Sunday, 6 is Saturday. */
  type Day = d: int | 0 <= d <= 6
  /** `Date.getHours()`. */
  type Hour = h: int | 0 <= h <= 23

  datatype Action =
    | Intro               // Sunday 22:00: the referee introduces the week's topic
    | Opening             // weekdays 08:00: an opening statement from each perspective
    | Reactions(slot: nat) // weekdays 12:00, 18:00, 22:00: a reaction from each perspective
    | Summary             // Saturday 22:00: the referee's summary of the week
    | Nothing             // any other moment: no posts

  predicate IsWeekday(day: Day) { 1 <= day <= 5 }

  /** The branch of `run` that fires at `(day, hour)`. */
  function Dispatch(day: Day, hour: Hour): (a: Action)
    ensures a == Intro <==> day == 0 && hour == 22
    ensures a == Opening <==> IsWeekday(day) && hour == 8
    ensures a.Reactions? <==> IsWeekday(day) && (hour == 12 || hour == 18 || hour == 22)
    ensures a.Reactions? ==> a.slot == hour
    ensures a == Summary <==> day == 6 && hour == 22
    ensures a == Nothing <==> PostCount(a) == 0
  {
    if day == 0 && hour == 22 then Intro
    else if 1 <= day <= 5 && hour == 8 then Opening
    else if 1 <= day <= 5 && hour == 12 then Reactions(12)
    else if 1 <= day <= 5 && hour == 18 then Reactions(18)
    else if 1 <= day <= 5 && hour == 22 then Reactions(22)
    else if day == 6 && hour == 22 then Summary
    else Nothing
  }

  /** The value `run` assigns to `postsAdded` in each branch. */
  function PostCount(a: Action): nat {
    match a
    case Intro => 1
    case Opening => 4
    case Reactions(_) => 4
    case Summary => 1
    case Nothing => 0
  }

  /** The posts added on one day, summing the count over the hours `0 .. hour - 1`. */
  function PostsBefore(day: Day, hour: nat): nat
    requires hour <= 24
  {
    if hour == 0 then 0 else PostsBefore(day, hour - 1) + PostCount(Dispatch(day, hour - 1))
  }

  /** Adding up `PostsBefore` over every hour of each day `0 .. day - 1`. */
  function PostsInDays(day: nat): nat
    requires day <= 7
  {
    if day == 0 then 0 else PostsInDays(day - 1) + PostsBefore(day - 1, 24)
  }

  /** Over a whole day, only the scheduled hours contribute: Sunday and Saturday one post at
      22:00, every weekday sixteen (four posts at 08:00, 12:00, 18:00 and 22:00). */
  lemma {:induction false} PostsPerDay(day: Day)
    ensures PostsBefore(day, 24) == if IsWeekday(day) then 16 else 1
  {
    var h: nat := 0;
    while h < 24
      invariant h <= 24
      invariant PostsBefore(day, h) ==
        if IsWeekday(day) then
          (if h > 8 then 4 else 0) + (if h > 12 then 4 else 0) + (if h > 18 then 4 else 0) + (if h > 22 then 4 else 0)
        else if h > 22 then 1 else 0
    {
      h := h + 1;
    }
  }

  /** A full week of scheduled runs adds 82 posts: 1 + 5 * 16 + 1. */
  lemma WeeklyPostCount()
    ensures PostsInDays(7) == 82
  {
    PostsPerDay(0); PostsPerDay(1); PostsPerDay(2); PostsPerDay(3);
    PostsPerDay(4); PostsPerDay(5); PostsPerDay(6);
  }
}
