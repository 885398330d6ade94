/** The generators and the schedule router of the engine: a round asks each of the four
    perspectives in turn and joins their cards with newlines, the referee writes the intro and
    the summary, and `run` refreshes the banner, generates what the hour calls for and splices
    it into the page. The model's answers stand for the texts the language model returns, one
    per call of the run, in call order. */
module Engine {
  import opened Strings
  import opened Escaping
  import opened Substitution
  import opened Schedule
  import opened Topics
  import opened Cards
  import opened Injection
  import opened Banner

  /** The order in which a round asks the perspectives. */
  const Perspectives: seq<string> := ["north", "east", "south", "west"]

  /** The cards of one round, one per perspective in the order they are asked, each marked
      new and stamped with the round's time. */
  function RoundCards(perspectives: seq<string>, time: string, answer: nat -> string, dateStr: string): (cards: seq<string>)
    ensures |cards| == |perspectives|
    ensures forall i :: 0 <= i < |cards| ==>
              cards[i] == CreatePostCard(perspectives[i], time, answer(i), true, dateStr)
  {
    seq(|perspectives|, i requires 0 <= i < |perspectives| =>
      CreatePostCard(perspectives[i], time, answer(i), true, dateStr))
  }

  /** `posts.join('\n')` over a round of the four perspectives. */
  function RoundBlock(time: string, answer: nat -> string, dateStr: string): string {
    Join(RoundCards(Perspectives, time, answer, dateStr), "\n")
  }

  /** The loop of `generateOpeningPosts` and `generateReactionPosts`: one card per perspective,
      pushed in order, then joined. */
  method GenerateRound(perspectives: seq<string>, time: string, answer: nat -> string, dateStr: string)
    returns (block: string)
    ensures block == Join(RoundCards(perspectives, time, answer, dateStr), "\n")
  {
    var posts: seq<string> := [];
    for i := 0 to |perspectives|
      invariant posts == RoundCards(perspectives, time, answer, dateStr)[..i]
    {
      posts := posts + [CreatePostCard(perspectives[i], time, answer(i), true, dateStr)];
    }
    assert posts == RoundCards(perspectives, time, answer, dateStr);
    block := Join(posts, "\n");
  }

  /** `generateOpeningPosts`: a round stamped `08:00`. */
  method GenerateOpeningPosts(answer: nat -> string, dateStr: string) returns (block: string)
    ensures block == RoundBlock("08:00", answer, dateStr)
  {
    block := GenerateRound(Perspectives, "08:00", answer, dateStr);
  }

  /** `generateReactionPosts`: a round stamped with the slot's hour. */
  method GenerateReactionPosts(slot: nat, answer: nat -> string, dateStr: string) returns (block: string)
    ensures block == RoundBlock(FormatTimeString(slot), answer, dateStr)
  {
    block := GenerateRound(Perspectives, FormatTimeString(slot), answer, dateStr);
  }

  /** `generateIntroPost` and `generateSummaryPost`: the referee's card at `22:00`; the two
      differ only in the prompt, which is not part of this model. */
  function RefereePost(answer: nat -> string, dateStr: string): string {
    CreatePostCard("referee", "22:00", answer(0), true, dateStr)
  }

  /** The referee's card reads back: it opens with the `referee` class token, and its body
      region decodes to the answer of the run's one call. */
  lemma RefereePostReadsBack(answer: nat -> string, dateStr: string)
    ensures var card := RefereePost(answer, dateStr);
            var k := BodyStart(EngineCard, "referee", Upper("referee"), Badge(true), "22:00", dateStr);
            k + |EngineCard.close| <= |card| &&
            Unescape(card[k..|card| - |EngineCard.close|]) == answer(0) &&
            OccursAt(card, CardOpen(EngineCard, "referee"), 0)
  {
    hide Render, Escape, Upper, BodyStart, Unescape, OccursAt, CardOpen;
    RenderDecodes(EngineCard, "referee", Upper("referee"), Badge(true), "22:00", dateStr, answer(0));
    CardNamesAuthor("referee", "22:00", answer(0), true, dateStr);
  }

  /** The posts each branch of `run` generates. */
  function ActionPosts(a: Action, answer: nat -> string, dateStr: string): string {
    match a
    case Intro => RefereePost(answer, dateStr)
    case Opening => RoundBlock("08:00", answer, dateStr)
    case Reactions(slot) => RoundBlock(FormatTimeString(slot), answer, dateStr)
    case Summary => RefereePost(answer, dateStr)
    case Nothing => ""
  }

  /** What a run leaves behind: with an empty catalog it fails before saving anything;
      otherwise it saves the page and reports how many posts it added. */
  datatype RunOutcome = Failed | Saved(html: string, postsAdded: nat)

  /** The page a run saves for a topic and an action. */
  function RunPage(html: string, topic: CurrentTopic, a: Action, answer: nat -> string, dateStr: string): string {
    var page := UpdateTopicBanner(html, topic);
    var posts := ActionPosts(a, answer, dateStr);
    if PostCount(a) > 0 && posts != "" then InjectPost(page, posts) else page
  }

  /** The outcome of a run. */
  function RunResult(html: string, topics: seq<Topic>, diffDays: int, day: Day, hour: Hour,
                     answer: nat -> string, dateStr: string): RunOutcome
  {
    match TopicFor(topics, diffDays)
    case NoTopic => Failed
    case Found(topic) =>
      var a := Dispatch(day, hour);
      Saved(RunPage(html, topic, a, answer, dateStr), PostCount(a))
  }

  /** `run`, with the loaded page, the catalog, the elapsed days, the Amsterdam day and hour,
      the formatted date and the answers as inputs, and the saved page as its outcome. */
  method Run(html: string, topics: seq<Topic>, diffDays: int, day: Day, hour: Hour,
             answer: nat -> string, dateStr: string) returns (outcome: RunOutcome)
    ensures outcome == RunResult(html, topics, diffDays, day, hour, answer, dateStr)
  {
    hide UpdateTopicBanner, InjectPost, CreatePostCard, RoundBlock, FormatTimeString, FindWeek, WeekNumber, CycledWeek;
    var found := GetCurrentTopic(topics, diffDays);
    if found.NoTopic? {
      return Failed;
    }
    var topic := found.current;
    var postsAdded := 0;
    var newPosts := "";
    var page := UpdateTopicBanner(html, topic);
    if day == 0 && hour == 22 {
      newPosts := RefereePost(answer, dateStr);
      postsAdded := 1;
    } else if 1 <= day <= 5 && hour == 8 {
      newPosts := GenerateOpeningPosts(answer, dateStr);
      postsAdded := 4;
    } else if 1 <= day <= 5 && hour == 12 {
      newPosts := GenerateReactionPosts(12, answer, dateStr);
      postsAdded := 4;
    } else if 1 <= day <= 5 && hour == 18 {
      newPosts := GenerateReactionPosts(18, answer, dateStr);
      postsAdded := 4;
    } else if 1 <= day <= 5 && hour == 22 {
      newPosts := GenerateReactionPosts(22, answer, dateStr);
      postsAdded := 4;
    } else if day == 6 && hour == 22 {
      newPosts := RefereePost(answer, dateStr);
      postsAdded := 1;
    }
    assert newPosts == ActionPosts(Dispatch(day, hour), answer, dateStr);
    assert postsAdded == PostCount(Dispatch(day, hour));
    if postsAdded > 0 && newPosts != "" {
      page := InjectPost(page, newPosts);
    }
    outcome := Saved(page, postsAdded);
  }

  /** Each card of a round sits in the joined block at its offset, and the next card follows
      it after exactly one newline. */
  lemma RoundInOrder(time: string, answer: nat -> string, dateStr: string, i: nat)
    requires i < |Perspectives|
    ensures var cards := RoundCards(Perspectives, time, answer, dateStr);
            var at := JoinOffset(cards, "\n", i);
            OccursAt(RoundBlock(time, answer, dateStr), CreatePostCard(Perspectives[i], time, answer(i), true, dateStr), at) &&
            (i + 1 < |Perspectives| ==> at + |cards[i]| + 1 == JoinOffset(cards, "\n", i + 1))
  {
    JoinParts(RoundCards(Perspectives, time, answer, dateStr), "\n", i);
  }

  /** A branch generates posts exactly when it counts some: the `newPosts` test of `run` never
      decides anything once `postsAdded` is positive. */
  lemma {:induction false} PostsExactlyWhenCounted(a: Action, answer: nat -> string, dateStr: string)
    ensures ActionPosts(a, answer, dateStr) != "" <==> PostCount(a) > 0
  {
    match a
    case Intro =>
      CardNonEmpty("referee", "22:00", answer(0), true, dateStr);
    case Summary =>
      CardNonEmpty("referee", "22:00", answer(0), true, dateStr);
    case Opening =>
      RoundNonEmpty("08:00", answer, dateStr);
    case Reactions(slot) =>
      RoundNonEmpty(FormatTimeString(slot), answer, dateStr);
    case Nothing =>
  }

  /** A round's block is non-empty: it starts with the first card. */
  lemma RoundNonEmpty(time: string, answer: nat -> string, dateStr: string)
    ensures RoundBlock(time, answer, dateStr) != ""
  {
    JoinParts(RoundCards(Perspectives, time, answer, dateStr), "\n", 0);
    CardNonEmpty(Perspectives[0], time, answer(0), true, dateStr);
  }

  /** A run fails exactly when the catalog is empty. */
  lemma RunFailsExactlyWithoutTopics(html: string, topics: seq<Topic>, diffDays: int, day: Day, hour: Hour,
                                     answer: nat -> string, dateStr: string)
    ensures RunResult(html, topics, diffDays, day, hour, answer, dateStr).Failed? <==> |topics| == 0
  {
  }

  /** With a topic, a run always saves: the page with the refreshed banner, with the generated
      posts spliced in whenever the hour calls for any, and it reports the branch's count. */
  lemma {:induction false} RunSaves(html: string, topics: seq<Topic>, diffDays: int, day: Day, hour: Hour,
                                    answer: nat -> string, dateStr: string)
    requires TopicFor(topics, diffDays).Found?
    ensures var topic := TopicFor(topics, diffDays).current;
            var a := Dispatch(day, hour);
            var r := RunResult(html, topics, diffDays, day, hour, answer, dateStr);
            r.Saved? && r.postsAdded == PostCount(a) &&
            (a == Nothing ==> r.html == UpdateTopicBanner(html, topic)) &&
            (a != Nothing ==> r.html == InjectPost(UpdateTopicBanner(html, topic), ActionPosts(a, answer, dateStr)))
  {
    PostsExactlyWhenCounted(Dispatch(day, hour), answer, dateStr);
  }

  /** When the topic's title and category hold no `$`, the page a run saves is the page the
      script saves, whose `replace` then inserts the banner as it is. */
  lemma RunAgreesWithScriptBanner(html: string, topics: seq<Topic>, diffDays: int, day: Day, hour: Hour,
                                  answer: nat -> string, dateStr: string)
    requires TopicFor(topics, diffDays).Found?
    requires NoDollar(TopicFor(topics, diffDays).current.topic.title)
    requires NoDollar(TopicFor(topics, diffDays).current.topic.category)
    ensures var topic := TopicFor(topics, diffDays).current;
            var page := UpdateTopicBannerAsWritten(html, topic);
            var a := Dispatch(day, hour);
            var r := RunResult(html, topics, diffDays, day, hour, answer, dateStr);
            r.Saved? && r.postsAdded == PostCount(a) &&
            r.html == (if a == Nothing then page else InjectPost(page, ActionPosts(a, answer, dateStr)))
  {
    RunSaves(html, topics, diffDays, day, hour, answer, dateStr);
    AsWrittenAgreesWithoutDollar(html, TopicFor(topics, diffDays).current);
  }

  /** On a weekday at 08:00 a run with a topic saves the bannered page with the opening round
      spliced in, and reports four posts. */
  lemma RunOpens(html: string, topics: seq<Topic>, diffDays: int, day: Day, answer: nat -> string,
                 dateStr: string, topic: CurrentTopic)
    requires IsWeekday(day) && TopicFor(topics, diffDays) == Found(topic)
    ensures RunResult(html, topics, diffDays, day, 8, answer, dateStr) ==
            Saved(InjectPost(UpdateTopicBanner(html, topic), RoundBlock("08:00", answer, dateStr)), 4)
  {
    RunSaves(html, topics, diffDays, day, 8, answer, dateStr);
  }

  /** On a weekday at 08:00, card `i` of the saved page is perspective `i`'s opening
      statement, right after the insertion point of the bannered page and the cards before it. */
  lemma RunPlacesOpening(html: string, topics: seq<Topic>, diffDays: int, day: Day, answer: nat -> string,
                         dateStr: string, topic: CurrentTopic, page: string, cards: seq<string>, i: nat)
    requires IsWeekday(day) && TopicFor(topics, diffDays) == Found(topic)
    requires page == UpdateTopicBanner(html, topic)
    requires cards == RoundCards(Perspectives, "08:00", answer, dateStr)
    requires InsertionPoint(page).Some? && i < |Perspectives|
    ensures var r := RunResult(html, topics, diffDays, day, 8, answer, dateStr);
            r.Saved? && r.postsAdded == 4 &&
            OccursAt(r.html, cards[i], InsertionPoint(page).value + 1 + JoinOffset(cards, "\n", i))
  {
    hide RunResult, UpdateTopicBanner, InjectPost, TopicFor, Dispatch, CreatePostCard, OccursAt;
    RunOpens(html, topics, diffDays, day, answer, dateStr, topic);
    InjectPlacesPart(page, cards, i);
  }
}
