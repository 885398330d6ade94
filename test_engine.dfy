/** The test version of the engine: it renders the cards of a prepared list of posts, replaces
    the topic banner with a pattern that ends in three closing tags and has no fallback, and
    splices all cards in as one block. */
module TestEngine {
  import opened Strings
  import opened Escaping
  import opened Cards
  import opened Injection
  import opened Banner

  // ---------------------------------------------------------------------------------------
  // Cards

  /** One entry of the prepared posts: who speaks, what they say and when. */
  datatype TestPost = TestPost(perspective: string, content: string, timestamp: int)

  /** The prepared input: the topic title, the week as the template prints it, and the posts. */
  datatype TestData = TestData(topic: string, week: string, posts: seq<TestPost>)

  /** `createPostCard(perspective, time, content)` of the test script: the lower-cased
      perspective is the class token, the upper-cased one the author's name, and the badge is
      on (the default `isNew`). */
  function TestCard(post: TestPost, time: string, dateStr: string): string {
    Render(EngineCard, Lower(post.perspective), Upper(post.perspective), Badge(true), time, dateStr,
           Escape(post.content))
  }

  /** The test card is the engine's card for the lower-cased perspective, so everything proved
      about the engine's cards (decoding, safety, the badge) holds for it. */
  lemma TestCardIsEngineCard(post: TestPost, time: string, dateStr: string)
    ensures TestCard(post, time, dateStr) == CreatePostCard(Lower(post.perspective), time, post.content, true, dateStr)
  {
    CaseRoundTrips(post.perspective);
  }

  /** A test card's class token is the lower-cased perspective and its author is the
      upper-cased perspective, followed by ` AI `. */
  lemma TestCardNamesAuthor(post: TestPost, time: string, dateStr: string)
    ensures var card := TestCard(post, time, dateStr);
            var author := Upper(post.perspective) + " AI ";
            var k := |BeforeBadge(EngineCard, Lower(post.perspective), Upper(post.perspective))|;
            OccursAt(card, CardOpen(EngineCard, Lower(post.perspective)), 0) &&
            |author| <= k && OccursAt(card, author, k - |author|)
  {
    RenderNamesAuthor(EngineCard, Lower(post.perspective), Upper(post.perspective), Badge(true), time, dateStr,
                      Escape(post.content));
  }

  /** `testData.posts.map(...)`: one card per post, in the order of the posts; `formatTime` is
      the Amsterdam clock time of a timestamp. */
  function TestCards(posts: seq<TestPost>, formatTime: int -> string, dateStr: string): (cards: seq<string>)
    ensures |cards| == |posts|
    ensures forall i :: 0 <= i < |posts| ==> cards[i] == TestCard(posts[i], formatTime(posts[i].timestamp), dateStr)
  {
    seq(|posts|, i requires 0 <= i < |posts| => TestCard(posts[i], formatTime(posts[i].timestamp), dateStr))
  }

  /** Every card of the run reads back: the body region of card `i` decodes to post `i`'s
      content, and the card opens with the lower-cased perspective as its class token. */
  lemma TestCardsReadBack(posts: seq<TestPost>, formatTime: int -> string, dateStr: string, i: nat)
    requires i < |posts|
    ensures var card := TestCards(posts, formatTime, dateStr)[i];
            var p := posts[i];
            var k := BodyStart(EngineCard, Lower(p.perspective), Upper(p.perspective), Badge(true),
                               formatTime(p.timestamp), dateStr);
            k + |EngineCard.close| <= |card| &&
            Unescape(card[k..|card| - |EngineCard.close|]) == p.content &&
            OccursAt(card, CardOpen(EngineCard, Lower(p.perspective)), 0)
  {
    hide Render, Escape, Upper, Lower, BodyStart, Unescape, OccursAt, CardOpen;
    var p := posts[i];
    var time := formatTime(p.timestamp);
    RenderDecodes(EngineCard, Lower(p.perspective), Upper(p.perspective), Badge(true), time, dateStr, p.content);
    TestCardNamesAuthor(p, time, dateStr);
  }

  // ---------------------------------------------------------------------------------------
  // The banner pattern with three closing tags

  /** The tags of the test pattern
        <div class="topic-banner">[\s\S]*?</div>\s*</div>\s*</div> */
  datatype TestTags = TestTags(open: string, close: string)

  const TestPattern: TestTags := TestTags(BannerOpen, DivClose)

  /** One way of matching: where it starts, how much the lazy part takes, and how much each
      `\s*` takes. */
  datatype TripleHit = TripleHit(start: nat, lazy: nat, ws1: nat, ws2: nat)

  function TripleAt(g: TestTags, m: TripleHit): nat { m.start + |g.open| + m.lazy }
  function TripleEnd(g: TestTags, m: TripleHit): nat { TripleAt(g, m) + 3 * |g.close| + m.ws1 + m.ws2 }

  /** `</div>\s*</div>` at `q`, with `w` characters of whitespace between the tags. */
  predicate PairWith(close: string, s: string, q: nat, w: nat) {
    OccursAt(s, close, q) && SpacesAt(s, q + |close|, w) && OccursAt(s, close, q + |close| + w)
  }

  /** `m` is a match of the test pattern in `s`. */
  predicate IsTripleMatch(g: TestTags, s: string, m: TripleHit) {
    var c := TripleAt(g, m);
    OccursAt(s, g.open, m.start) && OccursAt(s, g.close, c) && SpacesAt(s, c + |g.close|, m.ws1) &&
    PairWith(g.close, s, c + |g.close| + m.ws1, m.ws2)
  }

  /** The backtracking order: the leftmost start, then the shortest lazy part. */
  predicate TriplePrecedes(m: TripleHit, n: TripleHit) {
    m.start < n.start || (m.start == n.start && m.lazy <= n.lazy)
  }

  ghost predicate FirstTripleMatch(g: TestTags, s: string, m: TripleHit) {
    IsTripleMatch(g, s, m) && forall n :: IsTripleMatch(g, s, n) ==> TriplePrecedes(m, n)
  }

  ghost predicate NoTripleMatch(g: TestTags, s: string) {
    forall n :: !IsTripleMatch(g, s, n)
  }

  /** `</div>\s*</div>\s*</div>` starts at `q`, each greedy `\s*` taking its whole run: a
      closing tag, whitespace, then a closing pair. */
  predicate ClosingTripleAt(close: string, s: string, q: nat) {
    OccursAt(s, close, q) && ClosePairAt(close, s, SecondClose(close, s, q))
  }

  /** Where the second closing tag must start, after the whitespace run that follows the first. */
  function SecondClose(close: string, s: string, q: nat): nat
    requires q + |close| <= |s|
  {
    q + |close| + SpaceRun(s, q + |close|)
  }

  lemma PairHasRun(close: string, s: string, q: nat, w: nat)
    requires |close| > 0 && !IsSpace(close[0]) && PairWith(close, s, q, w)
    ensures SpaceRun(s, q + |close|) == w && ClosePairAt(close, s, q)
  {
    hide SpaceRun;
    WhitespaceIsRun(close, s, q + |close|, w);
  }

  lemma TripleMatchHasRuns(g: TestTags, s: string, m: TripleHit)
    requires |g.close| > 0 && !IsSpace(g.close[0]) && IsTripleMatch(g, s, m)
    ensures var c := TripleAt(g, m);
            SpaceRun(s, c + |g.close|) == m.ws1 && ClosingTripleAt(g.close, s, c) &&
            SpaceRun(s, SecondClose(g.close, s, c) + |g.close|) == m.ws2
  {
    hide SpaceRun;
    var c := TripleAt(g, m);
    WhitespaceIsRun(g.close, s, c + |g.close|, m.ws1);
    assert SecondClose(g.close, s, c) == c + |g.close| + m.ws1;
    PairHasRun(g.close, s, c + |g.close| + m.ws1, m.ws2);
  }

  /** The first `</div>\s*</div>\s*</div>` at or after `from`. */
  function FindClosingTriple(close: string, s: string, from: nat): (r: Option<nat>)
    ensures r.Some? ==> from <= r.value && ClosingTripleAt(close, s, r.value) &&
                        forall j :: from <= j < r.value ==> !ClosingTripleAt(close, s, j)
    ensures r.None? ==> forall j :: from <= j ==> !ClosingTripleAt(close, s, j)
    decreases |s| - from
  {
    if from + |close| > |s| then None
    else if ClosingTripleAt(close, s, from) then Some(from)
    else FindClosingTriple(close, s, from + 1)
  }

  lemma PairFromClosePair(close: string, s: string, q: nat)
    requires ClosePairAt(close, s, q)
    ensures PairWith(close, s, q, SpaceRun(s, q + |close|))
  {
  }

  /** The match made of the opening tag at `st` and the closing triple at `q`. */
  function TripleFrom(g: TestTags, s: string, st: nat, q: nat): TripleHit
    requires st + |g.open| <= q && ClosingTripleAt(g.close, s, q)
  {
    TripleHit(st, q - st - |g.open|, SpaceRun(s, q + |g.close|), SpaceRun(s, SecondClose(g.close, s, q) + |g.close|))
  }

  /** The opening tag and a closing triple after it make a match. */
  lemma TripleHitFromParts(g: TestTags, s: string, st: nat, q: nat)
    requires OccursAt(s, g.open, st) && st + |g.open| <= q && ClosingTripleAt(g.close, s, q)
    ensures var m := TripleFrom(g, s, st, q);
            TripleAt(g, m) == q && IsTripleMatch(g, s, m) && TripleEnd(g, m) <= |s|
  {
    hide OccursAt, SpaceRun;
    var m := TripleFrom(g, s, st, q);
    var q2 := SecondClose(g.close, s, q);
    PairFromClosePair(g.close, s, q2);
    assert q2 == TripleAt(g, m) + |g.close| + m.ws1;
    OccursAtBound(s, g.close, q2 + |g.close| + m.ws2);
  }

  /** The search the regular expression performs: the first banner opening tag, then the first
      closing triple after it. */
  function FindTripleMatch(g: TestTags, s: string): (r: Option<TripleHit>)
    ensures r.Some? ==> IsTripleMatch(g, s, r.value) && TripleEnd(g, r.value) <= |s|
  {
    match IndexOf(s, g.open)
    case None => None
    case Some(st) =>
      match FindClosingTriple(g.close, s, st + |g.open|)
      case None => None
      case Some(q) =>
        TripleHitFromParts(g, s, st, q);
        Some(TripleFrom(g, s, st, q))
  }

  /** The match the search finds comes no later than any match. */
  lemma FoundTriplePrecedes(g: TestTags, s: string, n: TripleHit)
    requires |g.close| > 0 && !IsSpace(g.close[0]) && IsTripleMatch(g, s, n)
    ensures FindTripleMatch(g, s).Some? && TriplePrecedes(FindTripleMatch(g, s).value, n)
  {
    hide SpaceRun, OccursAt;
    TripleMatchHasRuns(g, s, n);
    var st := IndexOf(s, g.open).value;
    assert st <= n.start;
    var q := FindClosingTriple(g.close, s, st + |g.open|).value;
    assert q <= TripleAt(g, n);
  }

  /** The search finds the match the regular expression engine settles on, and nothing
      exactly when the pattern matches nowhere. */
  lemma FindTripleMatchIsFirst(g: TestTags, s: string)
    requires |g.close| > 0 && !IsSpace(g.close[0])
    ensures FindTripleMatch(g, s).Some? ==> FirstTripleMatch(g, s, FindTripleMatch(g, s).value)
    ensures FindTripleMatch(g, s).None? ==> NoTripleMatch(g, s)
  {
    forall n | IsTripleMatch(g, s, n)
      ensures FindTripleMatch(g, s).Some? && TriplePrecedes(FindTripleMatch(g, s).value, n)
    {
      FoundTriplePrecedes(g, s, n);
    }
  }

  /** Two first matches are the same match. */
  lemma FirstTripleMatchUnique(g: TestTags, s: string, m: TripleHit, n: TripleHit)
    requires |g.close| > 0 && !IsSpace(g.close[0])
    requires FirstTripleMatch(g, s, m) && FirstTripleMatch(g, s, n)
    ensures m == n
  {
    assert TriplePrecedes(m, n) && TriplePrecedes(n, m);
    SameTripleStart(g, s, m, n);
  }

  /** Where the match starts and where its closing triple starts decide the whole match. */
  lemma SameTripleStart(g: TestTags, s: string, m: TripleHit, n: TripleHit)
    requires |g.close| > 0 && !IsSpace(g.close[0])
    requires IsTripleMatch(g, s, m) && IsTripleMatch(g, s, n) && m.start == n.start && m.lazy == n.lazy
    ensures m == n
  {
    hide SpaceRun;
    TripleRuns(g, s, m);
    TripleRuns(g, s, n);
  }

  /** Each `\s*` of a match takes the whole whitespace run. */
  lemma TripleRuns(g: TestTags, s: string, m: TripleHit)
    requires |g.close| > 0 && !IsSpace(g.close[0]) && IsTripleMatch(g, s, m)
    ensures var c := TripleAt(g, m);
            SpaceRun(s, c + |g.close|) == m.ws1 && SpaceRun(s, c + |g.close| + m.ws1 + |g.close|) == m.ws2
  {
    hide SpaceRun;
    var c := TripleAt(g, m);
    WhitespaceIsRun(g.close, s, c + |g.close|, m.ws1);
    WhitespaceIsRun(g.close, s, c + |g.close| + m.ws1 + |g.close|, m.ws2);
  }

  lemma TestPatternValid()
    ensures |TestPattern.close| > 0 && !IsSpace(TestPattern.close[0])
  {
    assert TestPattern.close[0] == '<';
  }

  // ---------------------------------------------------------------------------------------
  // The banner update

  /** The test banner: the engine's template with the week as given, the category `Milieu`
      and the raw title. */
  function TestBanner(week: string, title: string): string {
    RenderBanner(EngineBanner, week, "Milieu", title)
  }

  /** `updateTopicBanner(html, testData)` of the test script, with the replacement taken
      literally: the first match gives way to the banner; without a match nothing changes. */
  function TestUpdateTopicBanner(html: string, week: string, title: string): string {
    match FindTripleMatch(TestPattern, html)
    case Some(m) => html[..m.start] + TestBanner(week, title) + html[TripleEnd(TestPattern, m)..]
    case None => html
  }

  /** With a match, the span from the first banner opening tag to the first closing triple
      after it, all three closing tags included, is replaced by the banner, which ends with
      only two; the text on either side is kept. */
  lemma TestUpdateReplacesFirstMatch(html: string, week: string, title: string, m: TripleHit)
    requires FirstTripleMatch(TestPattern, html, m)
    ensures var r := TestUpdateTopicBanner(html, week, title);
            var b := TestBanner(week, title);
            var e := TripleEnd(TestPattern, m);
            e <= |html| && r == html[..m.start] + b + html[e..] &&
            r[..m.start] == html[..m.start] && r[m.start..m.start + |b|] == b &&
            r[m.start + |b|..] == html[e..]
  {
    TestPatternValid();
    FindTripleMatchIsFirst(TestPattern, html);
    FirstTripleMatchUnique(TestPattern, html, m, FindTripleMatch(TestPattern, html).value);
    Slices3(html[..m.start], TestBanner(week, title), html[TripleEnd(TestPattern, m)..]);
  }

  /** Without a match the page is unchanged: the test script has no fallback. */
  lemma TestUpdateWithoutMatch(html: string, week: string, title: string)
    requires NoTripleMatch(TestPattern, html)
    ensures TestUpdateTopicBanner(html, week, title) == html
  {
    TestPatternValid();
    FindTripleMatchIsFirst(TestPattern, html);
  }

  /** The test banner shows `Week <week> • Milieu` and the raw title. */
  lemma TestBannerShows(week: string, title: string)
    ensures var b := TestBanner(week, title);
            var k := |EngineBanner.lead| + |BannerOpen| + |EngineBanner.labelOpen|;
            var caption := "Week " + week + " \U{2022} Milieu";
            OccursAt(b, caption, k) && OccursAt(b, title, k + |caption| + |EngineBanner.titleOpen|)
  {
    RenderedBannerShows(EngineBanner, week, "Milieu", title);
  }

  // ---------------------------------------------------------------------------------------
  // The run

  /** `run` of the test script: the banner update, then every card, joined by newlines, spliced
      in as one block by `injectPosts`; `formatTime` and `dateStr` stand for the clock. */
  function TestRun(html: string, data: TestData, formatTime: int -> string, dateStr: string): string {
    var page := TestUpdateTopicBanner(html, data.week, data.topic);
    InjectPost(page, Join(TestCards(data.posts, formatTime, dateStr), "\n"))
  }

  /** Card `i` stands in the saved page at its place in the joined block, right after the
      insertion point and its newline: the cards keep the order of the posts. `page` and
      `cards` name the updated page and the rendered cards. */
  lemma TestRunPlacesCards(html: string, data: TestData, formatTime: int -> string, dateStr: string,
                           page: string, cards: seq<string>, i: nat)
    requires page == TestUpdateTopicBanner(html, data.week, data.topic)
    requires cards == TestCards(data.posts, formatTime, dateStr)
    requires InsertionPoint(page).Some? && i < |cards|
    ensures OccursAt(TestRun(html, data, formatTime, dateStr), cards[i],
                     InsertionPoint(page).value + 1 + JoinOffset(cards, "\n", i))
  {
    InjectPlacesPart(page, cards, i);
  }

  /** Without posts the run still splices in a lone newline wherever there is an insertion
      point. */
  lemma TestRunWithoutPosts(html: string, data: TestData, formatTime: int -> string, dateStr: string)
    requires |data.posts| == 0
    requires InsertionPoint(TestUpdateTopicBanner(html, data.week, data.topic)).Some?
    ensures var page := TestUpdateTopicBanner(html, data.week, data.topic);
            var p := InsertionPoint(page).value;
            var r := TestRun(html, data, formatTime, dateStr);
            |r| == |page| + 1 && r[p] == '\n' && r[..p] == page[..p] && r[p + 1..] == page[p..]
  {
  }

  /** Without an insertion point the saved page is the updated page. */
  lemma TestRunWithoutPoint(html: string, data: TestData, formatTime: int -> string, dateStr: string)
    requires InsertionPoint(TestUpdateTopicBanner(html, data.week, data.topic)).None?
    ensures TestRun(html, data, formatTime, dateStr) == TestUpdateTopicBanner(html, data.week, data.topic)
  {
  }
}
