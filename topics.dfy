/** `getCurrentTopic`: the number of whole days since the first Sunday of the debate gives the
    week number, and the week number selects a topic from the catalog. */
module Topics {
  import opened Strings

  /** One record of the catalog's `topics` list. */
  datatype Topic = Topic(week: int, title: string, category: string)

  /** `{ ...topic, weekNumber }`: the chosen record with the week number it was chosen for. */
  datatype CurrentTopic = CurrentTopic(topic: Topic, weekNumber: nat)

  /** The outcome of the lookup: with an empty catalog no topic is found, and reading
      `topic.title` afterwards makes the run fail. */
  datatype TopicResult = Found(current: CurrentTopic) | NoTopic

  /** The number of weeks in a year, the literal that the cycling uses. */
  const WeeksPerCycle: nat := 52

  /** `Math.floor(diffDays / 7) + 1`, raised to 1 before the start date. */
  function WeekNumber(diffDays: int): (w: nat)
    ensures w >= 1
    ensures diffDays >= 0 ==> 7 * (w - 1) <= diffDays < 7 * w
    ensures diffDays < 0 ==> w == 1
  {
    var w := diffDays / 7 + 1;
    if w < 1 then 1 else w
  }

  /** `((weekNumber - 1) % 52) + 1`. */
  function CycledWeek(weekNumber: nat): (c: nat)
    requires weekNumber >= 1
    ensures 1 <= c <= WeeksPerCycle
    ensures weekNumber <= WeeksPerCycle ==> c == weekNumber
    ensures (c - weekNumber) % WeeksPerCycle == 0
  {
    ((weekNumber - 1) % WeeksPerCycle) + 1
  }

  /** `topics.find(t => t.week === week)`, as the index of the first such record. */
  function FindWeek(topics: seq<Topic>, week: int): (r: Option<nat>)
    ensures r.None? <==> forall i :: 0 <= i < |topics| ==> topics[i].week != week
    ensures r.Some? ==> r.value < |topics| && topics[r.value].week == week &&
                        forall i :: 0 <= i < r.value ==> topics[i].week != week
  {
    if |topics| == 0 then None
    else if topics[0].week == week then Some(0)
    else match FindWeek(topics[1..], week)
         case None => None
         case Some(i) => Some(i + 1)
  }

  /** The topic `getCurrentTopic` settles on: the exact week, else the cycled week, else the
      first record. */
  function TopicFor(topics: seq<Topic>, diffDays: int): TopicResult {
    var w := WeekNumber(diffDays);
    match FindWeek(topics, w)
    case Some(i) => Found(CurrentTopic(topics[i], w))
    case None =>
      match FindWeek(topics, CycledWeek(w))
      case Some(i) => Found(CurrentTopic(topics[i], w))
      case None => if |topics| == 0 then NoTopic else Found(CurrentTopic(topics[0], w))
  }

  /** `getCurrentTopic` with the catalog and the elapsed whole days as inputs. */
  method GetCurrentTopic(topics: seq<Topic>, diffDays: int) returns (r: TopicResult)
    ensures r == TopicFor(topics, diffDays)
    ensures r.Found? <==> |topics| > 0
    ensures r.Found? ==> r.current.topic in topics && r.current.weekNumber == WeekNumber(diffDays)
  {
    var weekNumber := diffDays / 7 + 1;
    if weekNumber < 1 {
      weekNumber := 1;
    }
    var topic := FindWeek(topics, weekNumber);
    if topic.None? {
      var cycledWeek := ((weekNumber - 1) % 52) + 1;
      topic := FindWeek(topics, cycledWeek);
    }
    if topic.None? && |topics| > 0 {
      topic := Some(0);
    }
    if topic.None? {
      return NoTopic;
    }
    r := Found(CurrentTopic(topics[topic.value], weekNumber));
  }

  /** A record for the exact week wins, and the earliest such record is taken. */
  lemma ExactWeekWins(topics: seq<Topic>, diffDays: int, i: nat)
    requires i < |topics| && topics[i].week == WeekNumber(diffDays)
    requires forall j :: 0 <= j < i ==> topics[j].week != WeekNumber(diffDays)
    ensures TopicFor(topics, diffDays) == Found(CurrentTopic(topics[i], WeekNumber(diffDays)))
  {
    var r := FindWeek(topics, WeekNumber(diffDays));
    assert r.Some?;
    assert r.value == i by {
      if r.value < i {
      } else if r.value > i {
      }
    }
  }

  /** Past the last catalogued week, the record for the week in the same position of the
      52-week cycle is taken. */
  lemma CycledWeekFallback(topics: seq<Topic>, diffDays: int, i: nat)
    requires forall j :: 0 <= j < |topics| ==> topics[j].week != WeekNumber(diffDays)
    requires i < |topics| && topics[i].week == CycledWeek(WeekNumber(diffDays))
    requires forall j :: 0 <= j < i ==> topics[j].week != CycledWeek(WeekNumber(diffDays))
    ensures TopicFor(topics, diffDays) == Found(CurrentTopic(topics[i], WeekNumber(diffDays)))
  {
    var r := FindWeek(topics, CycledWeek(WeekNumber(diffDays)));
    assert r.Some?;
    assert r.value == i by {
      if r.value < i {
      } else if r.value > i {
      }
    }
  }

  /** With neither the week nor its cycled week catalogued, the first record is taken. */
  lemma FirstRecordFallback(topics: seq<Topic>, diffDays: int)
    requires |topics| > 0
    requires forall j :: 0 <= j < |topics| ==> topics[j].week != WeekNumber(diffDays)
    requires forall j :: 0 <= j < |topics| ==> topics[j].week != CycledWeek(WeekNumber(diffDays))
    ensures TopicFor(topics, diffDays) == Found(CurrentTopic(topics[0], WeekNumber(diffDays)))
  {
  }

  /** Some record of the catalog is for week `wk`. */
  ghost predicate Catalogued(topics: seq<Topic>, wk: int) {
    exists j :: 0 <= j < |topics| && topics[j].week == wk
  }

  /** With every week 1 .. 52 catalogued, the chosen record always carries the week number
      reduced into the 52-week cycle. */
  lemma FullYearCycles(topics: seq<Topic>, diffDays: int)
    requires forall wk :: 1 <= wk <= WeeksPerCycle ==> Catalogued(topics, wk)
    ensures TopicFor(topics, diffDays).Found?
    ensures TopicFor(topics, diffDays).current.topic.week == WeekNumber(diffDays)
            || TopicFor(topics, diffDays).current.topic.week == CycledWeek(WeekNumber(diffDays))
  {
    var w := WeekNumber(diffDays);
    var c := CycledWeek(w);
    assert Catalogued(topics, c);
  }

  /** The cycle is the literal 52, not the catalog's length: with weeks 1 and 2 catalogued,
      week 4 (days 21 .. 27) falls back to the first record, not to week 2. */
  lemma CycleIgnoresCatalogLength(a: Topic, b: Topic)
    requires a.week == 1 && b.week == 2
    ensures TopicFor([a, b], 21) == Found(CurrentTopic(a, 4))
  {
    assert WeekNumber(21) == 4;
    assert CycledWeek(4) == 4;
    FirstRecordFallback([a, b], 21);
  }
}
