/** `updateTopicBanner` of the engine. The first match of the banner pattern
      <div class="topic-banner">[\s\S]*?<div class="topic-week">[\s\S]*?</div>\s*</div>
    is replaced by a freshly rendered banner; without a match the banner goes in after the
    first `<main class="main-container">`; without that tag the page is left alone. */
module Banner {
  import opened Strings
  import opened Topics
  import opened Injection
  import opened Substitution

  const BannerOpen: string := "<div class=\"topic-banner\">"
  const WeekOpen: string := "<div class=\"topic-week\">"
  const DivClose: string := "</div>"
  const MainMarker: string := "<main class=\"main-container\">"

  // ---------------------------------------------------------------------------------------
  // The rendered banner

  /** The fixed text of the banner template, piece by piece. */
  datatype BannerTemplate = BannerTemplate(
    lead: string,       // newline and indentation before the banner's opening tag
    open: string,       // the banner's opening tag
    labelOpen: string,  // up to the caption text
    weekWord: string,   // the word before the week number
    sep: string,        // between the week number and the category
    titleOpen: string,  // closes the caption, opens the title
    titleClose: string, // closes the title
    weekOpen: string,   // opens the status line
    status: string,     // the status text
    close: string,      // a closing tag
    closeLead: string)  // indentation between the two last closing tags

  /** The template literal that both engine scripts render. */
  const EngineBanner: BannerTemplate := BannerTemplate(
    "\n        ", BannerOpen, "\n            <div class=\"topic-label\">", "Week ", " \U{2022} ",
    "</div>\n            <h1 class=\"topic-title\">", "</h1>\n            ", WeekOpen, "Lopend debat",
    DivClose, "\n        ")

  /** The text of the label: the week word, the week, the separator and the category. */
  function Caption(t: BannerTemplate, week: string, category: string): string {
    t.weekWord + week + t.sep + category
  }

  /** The label and the title, between the banner's opening tag and the status line. */
  function Middle(t: BannerTemplate, week: string, category: string, title: string): string {
    t.labelOpen + Caption(t, week, category) + t.titleOpen + title + t.titleClose
  }

  /** The status line and the two closing tags that end the banner. */
  function StatusLines(t: BannerTemplate): string {
    t.weekOpen + t.status + (t.close + t.closeLead + t.close)
  }

  /** The banner proper, from its opening tag to its closing tag. */
  function BannerBody(t: BannerTemplate, week: string, category: string, title: string): string {
    t.open + Middle(t, week, category, title) + StatusLines(t)
  }

  /** The template filled in: the lead, then the banner proper. */
  function RenderBanner(t: BannerTemplate, week: string, category: string, title: string): string {
    t.lead + BannerBody(t, week, category, title)
  }

  /** `newBanner` of the engine: the week number, the category and the raw title. */
  function NewBanner(topic: CurrentTopic): string {
    RenderBanner(EngineBanner, NatToString(topic.weekNumber), topic.topic.category, topic.topic.title)
  }

  /** What the proofs need of a template: the regular expression's own tags in their places,
      a lead that starts with a newline, and whitespace between the last two closing tags. */
  predicate Shaped(t: BannerTemplate) {
    t.open == BannerOpen && t.weekOpen == WeekOpen && t.close == DivClose &&
    |t.lead| > 0 && t.lead[0] == '\n' && SpacesAt(t.closeLead, 0, |t.closeLead|)
  }

  lemma EngineBannerShaped()
    ensures Shaped(EngineBanner)
  {
    var cl := EngineBanner.closeLead;
    assert forall k :: 0 <= k < |cl| ==> cl[k] == '\n' || cl[k] == ' ';
  }

  // ---------------------------------------------------------------------------------------
  // The regular expression

  /** The tags the pattern is made of. */
  datatype Tags = Tags(open: string, week: string, close: string, main: string)

  /** The tags of the engine's pattern, and the tag its fallback inserts after. */
  const EngineTags: Tags := Tags(BannerOpen, WeekOpen, DivClose, MainMarker)

  /** What the search needs of the tags: the closing tag does not start with whitespace, so a
      greedy `\s*` in front of it has only one way to match. */
  predicate ValidTags(g: Tags) {
    |g.close| > 0 && !IsSpace(g.close[0])
  }

  lemma EngineTagsValid()
    ensures ValidTags(EngineTags)
  {
    assert EngineTags.close[0] == '<';
  }

  /** One way of matching the pattern: where it starts, how much each lazy `[\s\S]*?` takes and
      how much whitespace `\s*` takes. */
  datatype Hit = Hit(start: nat, lazy1: nat, lazy2: nat, ws: nat)

  function WeekAt(g: Tags, m: Hit): nat { m.start + |g.open| + m.lazy1 }
  function CloseAt(g: Tags, m: Hit): nat { WeekAt(g, m) + |g.week| + m.lazy2 }
  function End(g: Tags, m: Hit): nat { CloseAt(g, m) + |g.close| + m.ws + |g.close| }

  /** `m` is a match of the pattern in `s`. */
  predicate IsMatch(g: Tags, s: string, m: Hit) {
    OccursAt(s, g.open, m.start) && OccursAt(s, g.week, WeekAt(g, m)) &&
    OccursAt(s, g.close, CloseAt(g, m)) && SpacesAt(s, CloseAt(g, m) + |g.close|, m.ws) &&
    OccursAt(s, g.close, CloseAt(g, m) + |g.close| + m.ws)
  }

  /** The backtracking order of the regular expression engine: the leftmost start, then the
      shortest first lazy part, then the shortest second lazy part. */
  predicate Precedes(m: Hit, n: Hit) {
    m.start < n.start ||
    (m.start == n.start && (m.lazy1 < n.lazy1 || (m.lazy1 == n.lazy1 && m.lazy2 <= n.lazy2)))
  }

  /** The match `replace` acts on. */
  ghost predicate FirstMatch(g: Tags, s: string, m: Hit) {
    IsMatch(g, s, m) && forall n :: IsMatch(g, s, n) ==> Precedes(m, n)
  }

  ghost predicate NoMatch(g: Tags, s: string) {
    forall n :: !IsMatch(g, s, n)
  }

  /** `</div>\s*</div>` starts at `q`, with the greedy `\s*` taking the whole whitespace run. */
  predicate ClosePairAt(close: string, s: string, q: nat) {
    OccursAt(s, close, q) && OccursAt(s, close, q + |close| + SpaceRun(s, q + |close|))
  }

  /** In front of a tag that does not start with whitespace, `\s*` can only take the whole run. */
  lemma WhitespaceIsRun(close: string, s: string, i: nat, w: nat)
    requires |close| > 0 && !IsSpace(close[0])
    requires SpacesAt(s, i, w) && OccursAt(s, close, i + w)
    ensures SpaceRun(s, i) == w
  {
    hide SpaceRun;
    assert s[i + w] == close[0];
  }

  lemma MatchHasClosePair(g: Tags, s: string, m: Hit)
    requires ValidTags(g) && IsMatch(g, s, m)
    ensures SpaceRun(s, CloseAt(g, m) + |g.close|) == m.ws && ClosePairAt(g.close, s, CloseAt(g, m))
  {
    WhitespaceIsRun(g.close, s, CloseAt(g, m) + |g.close|, m.ws);
  }

  /** The first `</div>\s*</div>` at or after `from`. */
  function FindClosePair(close: string, s: string, from: nat): (r: Option<nat>)
    ensures r.Some? ==> from <= r.value && ClosePairAt(close, s, r.value) &&
                        forall j :: from <= j < r.value ==> !ClosePairAt(close, s, j)
    ensures r.None? ==> forall j :: from <= j ==> !ClosePairAt(close, s, j)
    decreases |s| - from
  {
    if from + |close| > |s| then None
    else if ClosePairAt(close, s, from) then Some(from)
    else FindClosePair(close, s, from + 1)
  }

  /** The three tags found in order make a match. */
  lemma HitFromParts(g: Tags, s: string, st: nat, p: nat, q: nat)
    requires OccursAt(s, g.open, st) && st + |g.open| <= p && OccursAt(s, g.week, p)
    requires p + |g.week| <= q && ClosePairAt(g.close, s, q)
    ensures var m := Hit(st, p - st - |g.open|, q - p - |g.week|, SpaceRun(s, q + |g.close|));
            WeekAt(g, m) == p && CloseAt(g, m) == q && IsMatch(g, s, m) && End(g, m) <= |s|
  {
    hide SpaceRun;
  }

  /** The search the regular expression performs: the first banner opening tag, the first
      status opening tag after it, the first closing pair after that. */
  function FindMatch(g: Tags, s: string): (r: Option<Hit>)
    ensures r.Some? ==> IsMatch(g, s, r.value) && End(g, r.value) <= |s|
  {
    match IndexOf(s, g.open)
    case None => None
    case Some(st) =>
      match IndexOfFrom(s, g.week, st + |g.open|)
      case None => None
      case Some(p) =>
        match FindClosePair(g.close, s, p + |g.week|)
        case None => None
        case Some(q) =>
          HitFromParts(g, s, st, p, q);
          Some(Hit(st, p - st - |g.open|, q - p - |g.week|, SpaceRun(s, q + |g.close|)))
  }

  /** The match the search finds comes no later than any match. */
  lemma FoundPrecedes(g: Tags, s: string, n: Hit)
    requires ValidTags(g) && IsMatch(g, s, n)
    ensures FindMatch(g, s).Some? && Precedes(FindMatch(g, s).value, n)
  {
    hide SpaceRun;
    MatchHasClosePair(g, s, n);
    var st := IndexOf(s, g.open).value;
    assert st <= n.start;
    var p := IndexOfFrom(s, g.week, st + |g.open|).value;
    assert p <= WeekAt(g, n);
    var q := FindClosePair(g.close, s, p + |g.week|).value;
    assert q <= CloseAt(g, n);
  }

  /** The search finds the very match the regular expression engine settles on, and finds
      nothing exactly when the pattern does not match anywhere. */
  lemma FindMatchIsFirst(g: Tags, s: string)
    requires ValidTags(g)
    ensures FindMatch(g, s).Some? ==> FirstMatch(g, s, FindMatch(g, s).value)
    ensures FindMatch(g, s).None? ==> NoMatch(g, s)
  {
    forall n | IsMatch(g, s, n)
      ensures FindMatch(g, s).Some? && Precedes(FindMatch(g, s).value, n)
    {
      FoundPrecedes(g, s, n);
    }
  }

  /** Two first matches are the same match. */
  lemma FirstMatchUnique(g: Tags, s: string, m: Hit, n: Hit)
    requires ValidTags(g) && FirstMatch(g, s, m) && FirstMatch(g, s, n)
    ensures m == n
  {
    hide SpaceRun;
    MatchHasClosePair(g, s, m);
    MatchHasClosePair(g, s, n);
  }

  // ---------------------------------------------------------------------------------------
  // The update

  /** `html.replace(bannerRegex, banner)` with the banner inserted as it is, else the insertion
      after the main container's opening tag, else nothing. */
  function Update(g: Tags, html: string, banner: string): string {
    Apply(g, html, FindMatch(g, html), IndexOf(html, g.main), banner)
  }

  /** The update once the search results are known: `found` is the match, `mainAt` where the
      main container's opening tag starts. */
  function Apply(g: Tags, html: string, found: Option<Hit>, mainAt: Option<nat>, banner: string): string
    requires found.Some? ==> End(g, found.value) <= |html|
    requires mainAt.Some? ==> mainAt.value + |g.main| <= |html|
  {
    match found
    case Some(m) => html[..m.start] + banner + html[End(g, m)..]
    case None =>
      match mainAt
      case Some(i) => SpliceAt(html, i + |g.main|, banner)
      case None => html
  }

  /** `updateTopicBanner(html, topic)`, with the replacement taken literally (see
      `UpdateTopicBannerAsWritten` for what the script does with a `$` in it). */
  function UpdateTopicBanner(html: string, topic: CurrentTopic): string {
    Update(EngineTags, html, NewBanner(topic))
  }

  /** `updateTopicBanner` as the script has it: `replace` expands `$` patterns in the rendered
      banner, which carries the title and category unescaped. */
  function UpdateTopicBannerAsWritten(html: string, topic: CurrentTopic): string {
    var banner := NewBanner(topic);
    match FindMatch(EngineTags, html)
    case Some(m) =>
      html[..m.start] +
      Substitute(banner, html[..m.start], html[m.start..End(EngineTags, m)], html[End(EngineTags, m)..]) +
      html[End(EngineTags, m)..]
    case None => Update(EngineTags, html, banner)
  }

  /** With a match, the first match and nothing else is replaced by the new banner. */
  lemma UpdateReplacesFirstMatch(html: string, topic: CurrentTopic, m: Hit)
    requires FirstMatch(EngineTags, html, m)
    ensures var r := UpdateTopicBanner(html, topic);
            var nb := NewBanner(topic);
            End(EngineTags, m) <= |html| &&
            r == html[..m.start] + nb + html[End(EngineTags, m)..] &&
            r[..m.start] == html[..m.start] && r[m.start..m.start + |nb|] == nb &&
            r[m.start + |nb|..] == html[End(EngineTags, m)..]
  {
    hide NewBanner, IsMatch, OccursAt, SpaceRun;
    EngineTagsValid();
    FindMatchIsFirst(EngineTags, html);
    FirstMatchUnique(EngineTags, html, m, FindMatch(EngineTags, html).value);
    var nb := NewBanner(topic);
    Slices3(html[..m.start], nb, html[End(EngineTags, m)..]);
  }

  /** Without a match, the new banner goes in after the first main container tag, and without
      that tag the page is unchanged. */
  lemma UpdateWithoutMatch(html: string, topic: CurrentTopic)
    requires NoMatch(EngineTags, html)
    ensures Occurs(html, MainMarker) ==>
              exists i: nat :: FirstFrom(html, MainMarker, 0, i) &&
                UpdateTopicBanner(html, topic) == SpliceAt(html, i + |MainMarker|, NewBanner(topic))
    ensures !Occurs(html, MainMarker) ==> UpdateTopicBanner(html, topic) == html
  {
    if Occurs(html, MainMarker) {
      var i := IndexOf(html, MainMarker).value;
      assert FirstFrom(html, MainMarker, 0, i);
    }
  }

  /** The label of a rendered banner reads `<week word><week><sep><category>`, and its title
      is the title as given. */
  lemma RenderedBannerShows(t: BannerTemplate, week: string, category: string, title: string)
    ensures var b := RenderBanner(t, week, category, title);
            var k := |t.lead| + |t.open| + |t.labelOpen|;
            var caption := Caption(t, week, category);
            OccursAt(b, caption, k) && OccursAt(b, title, k + |caption| + |t.titleOpen|)
  {
    hide OccursAt, Caption, Middle, StatusLines;
    var caption := Caption(t, week, category);
    MiddleShows(t, week, category, title);
    var mid := Middle(t, week, category, title);
    var k := |t.labelOpen| + |caption| + |t.titleOpen|;
    OccursAfter(t.open, mid, caption, |t.labelOpen|);
    OccursBefore(t.open + mid, StatusLines(t), caption, |t.open| + |t.labelOpen|);
    OccursAfter(t.lead, BannerBody(t, week, category, title), caption, |t.open| + |t.labelOpen|);
    OccursAfter(t.open, mid, title, k);
    OccursBefore(t.open + mid, StatusLines(t), title, |t.open| + k);
    OccursAfter(t.lead, BannerBody(t, week, category, title), title, |t.open| + k);
  }

  lemma MiddleShows(t: BannerTemplate, week: string, category: string, title: string)
    ensures var caption := Caption(t, week, category);
            var mid := Middle(t, week, category, title);
            OccursAt(mid, caption, |t.labelOpen|) &&
            OccursAt(mid, title, |t.labelOpen| + |caption| + |t.titleOpen|)
  {
    var caption := Caption(t, week, category);
    var x := t.labelOpen + caption + t.titleOpen;
    OccursSelf(caption);
    OccursAfter(t.labelOpen, caption, caption, 0);
    OccursBefore(t.labelOpen + caption, t.titleOpen, caption, |t.labelOpen|);
    OccursBefore(x, title, caption, |t.labelOpen|);
    OccursBefore(x + title, t.titleClose, caption, |t.labelOpen|);
    OccursSelf(title);
    OccursAfter(x, title, title, 0);
    OccursBefore(x + title, t.titleClose, title, |x|);
  }

  /** The new banner shows `Week <weekNumber> • <category>` and the raw, unescaped title. */
  lemma BannerShowsTopic(topic: CurrentTopic)
    ensures var b := NewBanner(topic);
            var k := |EngineBanner.lead| + |BannerOpen| + |EngineBanner.labelOpen|;
            var caption := "Week " + NatToString(topic.weekNumber) + " \U{2022} " + topic.topic.category;
            OccursAt(b, caption, k) &&
            OccursAt(b, topic.topic.title, k + |caption| + |EngineBanner.titleOpen|)
  {
    RenderedBannerShows(EngineBanner, NatToString(topic.weekNumber), topic.topic.category, topic.topic.title);
  }

  /** A match in `x` is a match in `a + x`, shifted by `|a|`. */
  lemma MatchAfter(g: Tags, a: string, x: string, m: Hit)
    requires IsMatch(g, x, m)
    ensures IsMatch(g, a + x, Hit(|a| + m.start, m.lazy1, m.lazy2, m.ws))
  {
    hide OccursAt;
    var n := Hit(|a| + m.start, m.lazy1, m.lazy2, m.ws);
    var c := CloseAt(g, m);
    assert WeekAt(g, n) == |a| + WeekAt(g, m) && CloseAt(g, n) == |a| + c;
    OccursAfter(a, x, g.open, m.start);
    OccursAfter(a, x, g.week, WeekAt(g, m));
    OccursAfter(a, x, g.close, c);
    SpacesAfter(a, x, c + |g.close|, m.ws);
    OccursAfter(a, x, g.close, c + |g.close| + m.ws);
  }

  /** A match in `x` is a match in `x + b`. */
  lemma MatchBefore(g: Tags, x: string, b: string, m: Hit)
    requires IsMatch(g, x, m)
    ensures IsMatch(g, x + b, m)
  {
    hide OccursAt;
    OccursBefore(x, b, g.open, m.start);
    OccursBefore(x, b, g.week, WeekAt(g, m));
    OccursBefore(x, b, g.close, CloseAt(g, m));
    SpacesBefore(x, b, CloseAt(g, m) + |g.close|, m.ws);
    OccursBefore(x, b, g.close, CloseAt(g, m) + |g.close| + m.ws);
  }

  /** The closing tags at the end of the banner: a closing tag, whitespace, a closing tag. */
  lemma ClosingShape(t: BannerTemplate)
    requires SpacesAt(t.closeLead, 0, |t.closeLead|)
    ensures var tail := t.close + t.closeLead + t.close;
            OccursAt(tail, t.close, 0) && SpacesAt(tail, |t.close|, |t.closeLead|) &&
            OccursAt(tail, t.close, |t.close| + |t.closeLead|)
  {
    OccursSelf(t.close);
    OccursBefore(t.close, t.closeLead, t.close, 0);
    OccursBefore(t.close + t.closeLead, t.close, t.close, 0);
    SpacesAfter(t.close, t.closeLead, 0, |t.closeLead|);
    SpacesBefore(t.close + t.closeLead, t.close, |t.close|, |t.closeLead|);
    OccursAfter(t.close + t.closeLead, t.close, t.close, 0);
  }

  /** The status lines hold the status tag, then a closing tag, whitespace and a closing tag. */
  lemma StatusLinesShape(t: BannerTemplate)
    requires SpacesAt(t.closeLead, 0, |t.closeLead|)
    ensures var s := StatusLines(t);
            var c := |t.weekOpen| + |t.status|;
            OccursAt(s, t.weekOpen, 0) && OccursAt(s, t.close, c) &&
            SpacesAt(s, c + |t.close|, |t.closeLead|) && OccursAt(s, t.close, c + |t.close| + |t.closeLead|)
  {
    var tail := t.close + t.closeLead + t.close;
    var head := t.weekOpen + t.status;
    ClosingShape(t);
    OccursSelf(t.weekOpen);
    OccursBefore(t.weekOpen, t.status, t.weekOpen, 0);
    OccursBefore(head, tail, t.weekOpen, 0);
    OccursAfter(head, tail, t.close, 0);
    SpacesAfter(head, tail, |t.close|, |t.closeLead|);
    OccursAfter(head, tail, t.close, |t.close| + |t.closeLead|);
  }

  /** The banner proper is a match of the pattern from its first character on. */
  lemma BannerBodyMatches(g: Tags, t: BannerTemplate, week: string, category: string, title: string)
    requires Shaped(t) && g.open == t.open && g.week == t.weekOpen && g.close == t.close
    ensures IsMatch(g, BannerBody(t, week, category, title),
                    Hit(0, |Middle(t, week, category, title)|, |t.status|, |t.closeLead|))
  {
    hide OccursAt;
    var mid := Middle(t, week, category, title);
    var st := StatusLines(t);
    var c := |t.weekOpen| + |t.status|;
    StatusLinesShape(t);
    OccursSelf(t.open);
    OccursBefore(t.open, mid, t.open, 0);
    OccursBefore(t.open + mid, st, t.open, 0);
    OccursAfter(t.open + mid, st, t.weekOpen, 0);
    OccursAfter(t.open + mid, st, t.close, c);
    SpacesAfter(t.open + mid, st, c + |t.close|, |t.closeLead|);
    OccursAfter(t.open + mid, st, t.close, c + |t.close| + |t.closeLead|);
  }

  /** The offsets of the match a rendered banner makes of itself. */
  function BannerHit(t: BannerTemplate, week: string, category: string, title: string): Hit {
    Hit(|t.lead|, |Middle(t, week, category, title)|, |t.status|, |t.closeLead|)
  }

  /** A rendered banner is a match of the pattern: its own opening tag, its status line and its
      two closing tags make the match, and the lead in front of it lies outside. */
  lemma RenderedBannerMatches(g: Tags, t: BannerTemplate, week: string, category: string, title: string)
    requires Shaped(t) && g.open == t.open && g.week == t.weekOpen && g.close == t.close
    ensures IsMatch(g, RenderBanner(t, week, category, title), BannerHit(t, week, category, title))
  {
    var m := Hit(0, |Middle(t, week, category, title)|, |t.status|, |t.closeLead|);
    BannerBodyMatches(g, t, week, category, title);
    MatchAfter(g, t.lead, BannerBody(t, week, category, title), m);
  }

  /** The new banner starts with a newline and is a match of the engine's pattern. */
  lemma NewBannerMatches(topic: CurrentTopic)
    ensures var b := NewBanner(topic);
            |b| > 0 && b[0] == '\n' &&
            IsMatch(EngineTags, b, BannerHit(EngineBanner, NatToString(topic.weekNumber), topic.topic.category, topic.topic.title))
  {
    EngineBannerShaped();
    RenderedBannerMatches(EngineTags, EngineBanner, NatToString(topic.weekNumber), topic.topic.category, topic.topic.title);
  }

  /** A match in `b` is a match wherever `b` is put. */
  lemma MatchInside(g: Tags, r: string, pre: string, b: string, post: string, n: Hit, k: nat)
    requires IsMatch(g, b, n) && r == pre + b + post && k == |pre|
    ensures IsMatch(g, r, Hit(k + n.start, n.lazy1, n.lazy2, n.ws))
  {
    hide IsMatch;
    MatchAfter(g, pre, b, n);
    MatchBefore(g, pre + b, post, Hit(|pre| + n.start, n.lazy1, n.lazy2, n.ws));
  }

  /** A match inside the inserted text is a match of the updated page, whichever branch
      inserted it; `k` is where the inserted text starts. */
  lemma AppliedPageMatches(g: Tags, html: string, found: Option<Hit>, mainAt: Option<nat>, b: string, n: Hit)
    returns (k: nat)
    requires found.Some? ==> End(g, found.value) <= |html|
    requires mainAt.Some? ==> mainAt.value + |g.main| <= |html|
    requires IsMatch(g, b, n) && (found.Some? || mainAt.Some?)
    ensures IsMatch(g, Apply(g, html, found, mainAt, b), Hit(k + n.start, n.lazy1, n.lazy2, n.ws))
  {
    hide IsMatch;
    var r := Apply(g, html, found, mainAt, b);
    match found
    case Some(f) =>
      k := f.start;
      MatchInside(g, r, html[..k], b, html[End(g, f)..], n, k);
    case None =>
      var p := mainAt.value + |g.main|;
      k := p + 1;
      MatchInside(g, r, html[..p] + "\n", b, html[p..], n, k);
  }

  /** A page the pattern matches is changed by an update whose text starts differently from
      the pattern's opening tag: the first match starts with that tag, and is replaced. */
  lemma UpdateChanges(g: Tags, html: string, b: string, m: Hit)
    requires ValidTags(g) && IsMatch(g, html, m)
    requires |g.open| > 0 && |b| > 0 && b[0] != g.open[0]
    ensures Update(g, html, b) != html
  {
    FindMatchIsFirst(g, html);
    var f := FindMatch(g, html).value;
    var r := Update(g, html, b);
    assert r[f.start] == b[0];
    assert html[f.start] == g.open[0];
  }

  /** A page the pattern matches is always changed by the update: the new banner starts with
      the newline of its lead, where the matched text starts with `<`. */
  lemma UpdateChangesMatchedPage(html: string, topic: CurrentTopic, m: Hit)
    requires IsMatch(EngineTags, html, m)
    ensures UpdateTopicBanner(html, topic) != html
  {
    EngineTagsValid();
    NewBannerMatches(topic);
    UpdateChanges(EngineTags, html, NewBanner(topic), m);
  }

  /** The update is not idempotent: once a banner is in place (by replacement or by the
      fallback), every further update matches it and changes the page again, because the lead
      before the banner's opening tag lies outside the pattern. */
  lemma UpdateNotIdempotent(html: string, topic: CurrentTopic, m: Hit)
    requires IsMatch(EngineTags, html, m) || Occurs(html, MainMarker)
    ensures UpdateTopicBanner(UpdateTopicBanner(html, topic), topic) != UpdateTopicBanner(html, topic)
  {
    var b := NewBanner(topic);
    var n := BannerHit(EngineBanner, NatToString(topic.weekNumber), topic.topic.category, topic.topic.title);
    EngineTagsValid();
    FindMatchIsFirst(EngineTags, html);
    NewBannerMatches(topic);
    var k := AppliedPageMatches(EngineTags, html, FindMatch(EngineTags, html), IndexOf(html, MainMarker), b, n);
    UpdateChanges(EngineTags, Update(EngineTags, html, b), b, Hit(k + n.start, n.lazy1, n.lazy2, n.ws));
  }

  // ---------------------------------------------------------------------------------------
  // The replacement pattern

  /** The banner up to the title. */
  function BeforeTitle(t: BannerTemplate, week: string, category: string): string {
    t.lead + t.open + t.labelOpen + Caption(t, week, category) + t.titleOpen
  }

  /** The banner after the title. */
  function AfterTitle(t: BannerTemplate): string {
    t.titleClose + StatusLines(t)
  }

  /** The title splits a rendered banner in two. */
  lemma {:induction false} BannerAroundTitle(t: BannerTemplate, week: string, category: string, title: string)
    ensures RenderBanner(t, week, category, title) == BeforeTitle(t, week, category) + title + AfterTitle(t)
  {
    var c := Caption(t, week, category);
    var st := StatusLines(t);
    calc {
      RenderBanner(t, week, category, title);
      t.lead + (t.open + (t.labelOpen + c + t.titleOpen + title + t.titleClose) + st);
      { assert t.open + (t.labelOpen + c + t.titleOpen + title + t.titleClose) + st
          == (t.open + t.labelOpen + c + t.titleOpen) + title + (t.titleClose + st); }
      t.lead + ((t.open + t.labelOpen + c + t.titleOpen) + title + (t.titleClose + st));
      { assert t.lead + ((t.open + t.labelOpen + c + t.titleOpen) + title + (t.titleClose + st))
          == (t.lead + t.open + t.labelOpen + c + t.titleOpen) + title + (t.titleClose + st); }
      BeforeTitle(t, week, category) + title + AfterTitle(t);
    }
  }

  /** The fixed text of a template holds no dollar sign. */
  predicate PlainTemplate(t: BannerTemplate) {
    NoDollar(t.lead) && NoDollar(t.open) && NoDollar(t.labelOpen) && NoDollar(t.weekWord) &&
    NoDollar(t.sep) && NoDollar(t.titleOpen) && NoDollar(t.titleClose) && NoDollar(t.weekOpen) &&
    NoDollar(t.status) && NoDollar(t.close) && NoDollar(t.closeLead)
  }

  lemma EngineBannerPlain()
    ensures PlainTemplate(EngineBanner)
  {
    EngineBannerHeadPlain();
    EngineBannerTailPlain();
  }

  lemma EngineBannerHeadPlain()
    ensures NoDollar(EngineBanner.lead) && NoDollar(EngineBanner.open) && NoDollar(EngineBanner.labelOpen)
    ensures NoDollar(EngineBanner.weekWord) && NoDollar(EngineBanner.sep)
  {
  }

  lemma EngineBannerTailPlain()
    ensures NoDollar(EngineBanner.titleOpen) && NoDollar(EngineBanner.titleClose) && NoDollar(EngineBanner.weekOpen)
    ensures NoDollar(EngineBanner.status) && NoDollar(EngineBanner.close) && NoDollar(EngineBanner.closeLead)
  {
  }

  /** The banner around the title holds no dollar sign when the template, the week and the
      category hold none. */
  lemma PlainAroundTitle(t: BannerTemplate, week: string, category: string)
    requires PlainTemplate(t) && NoDollar(week) && NoDollar(category)
    ensures NoDollar(BeforeTitle(t, week, category)) && NoDollar(AfterTitle(t))
  {
    NoDollarConcat(t.weekWord, week);
    NoDollarConcat(t.weekWord + week, t.sep);
    NoDollarConcat(t.weekWord + week + t.sep, category);
    var c := Caption(t, week, category);
    NoDollarConcat(t.lead, t.open);
    NoDollarConcat(t.lead + t.open, t.labelOpen);
    NoDollarConcat(t.lead + t.open + t.labelOpen, c);
    NoDollarConcat(t.lead + t.open + t.labelOpen + c, t.titleOpen);
    NoDollarConcat(t.close, t.closeLead);
    NoDollarConcat(t.close + t.closeLead, t.close);
    NoDollarConcat(t.weekOpen, t.status);
    NoDollarConcat(t.weekOpen + t.status, t.close + t.closeLead + t.close);
    NoDollarConcat(t.titleClose, StatusLines(t));
  }

  /** With no dollar sign in the title or the category, the script's replacement inserts the
      banner as it is, and agrees with the model. */
  lemma AsWrittenAgreesWithoutDollar(html: string, topic: CurrentTopic)
    requires NoDollar(topic.topic.title) && NoDollar(topic.topic.category)
    ensures UpdateTopicBannerAsWritten(html, topic) == UpdateTopicBanner(html, topic)
  {
    var w := NatToString(topic.weekNumber);
    var b := NewBanner(topic);
    var x := BeforeTitle(EngineBanner, w, topic.topic.category);
    EngineBannerPlain();
    NatToStringNoDollar(topic.weekNumber);
    PlainAroundTitle(EngineBanner, w, topic.topic.category);
    BannerAroundTitle(EngineBanner, w, topic.topic.category, topic.topic.title);
    NoDollarConcat(x, topic.topic.title);
    NoDollarConcat(x + topic.topic.title, AfterTitle(EngineBanner));
    match FindMatch(EngineTags, html)
    case Some(m) =>
      SubstitutePlain(b, html[..m.start], html[m.start..End(EngineTags, m)], html[End(EngineTags, m)..]);
    case None =>
  }

  /** The length of a match is at least that of its three tags. */
  lemma MatchLength(g: Tags, m: Hit)
    ensures End(g, m) - m.start >= |g.open| + |g.week| + 2 * |g.close|
  {
  }

  /** A title `$&` is not shown: the script puts the whole matched old banner where the title
      should be, so its page differs from the one with the banner inserted as it is. */
  lemma AsWrittenExpandsDollarAmp(html: string, topic: CurrentTopic, m: Hit)
    requires topic.topic.title == "$&" && NoDollar(topic.topic.category)
    requires IsMatch(EngineTags, html, m)
    ensures UpdateTopicBannerAsWritten(html, topic) != UpdateTopicBanner(html, topic)
  {
    var w := NatToString(topic.weekNumber);
    var cat := topic.topic.category;
    var x, y := BeforeTitle(EngineBanner, w, cat), AfterTitle(EngineBanner);
    EngineTagsValid();
    FindMatchIsFirst(EngineTags, html);
    var f := FindMatch(EngineTags, html).value;
    var matched := html[f.start..End(EngineTags, f)];
    EngineBannerPlain();
    NatToStringNoDollar(topic.weekNumber);
    PlainAroundTitle(EngineBanner, w, cat);
    BannerAroundTitle(EngineBanner, w, cat, "$&");
    SubstituteMatched(x, y, html[..f.start], matched, html[End(EngineTags, f)..]);
    MatchLength(EngineTags, f);
    assert |UpdateTopicBannerAsWritten(html, topic)| == |html| - |matched| + |x| + |matched| + |y|;
    assert |UpdateTopicBanner(html, topic)| == |html| - |matched| + |x| + 2 + |y|;
  }
}
