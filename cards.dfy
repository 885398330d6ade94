/** The post card markup of `createPostCard` and the slot time of `formatTimeString`. */
module Cards {
  import opened Strings
  import opened Escaping

  /** The fixed text of the card template, piece by piece: a card interleaves these pieces with
      the class token, the author's name, the badge, the time, the date and the escaped body. */
  datatype CardTemplate = CardTemplate(
    open: string,     // before the class token of the card
    openEnd: string,  // closes the opening tag
    avatar: string,   // the header, up to the class token of the avatar
    img: string,      // up to the picture's name
    alt: string,      // up to the author's name in the picture's `alt`
    author: string,   // up to the author's name in the author line
    ai: string,       // follows the author's name, before the badge
    time: string,     // up to the slot time
    slot: string,     // between the slot time and the date
    content: string,  // up to the escaped body
    close: string)    // the closing lines

  /** The template literal of `createPostCard`; the test engine's card uses the same text. */
  const EngineCard: CardTemplate := CardTemplate(
    "\n            <div class=\"message-card ",
    "\">",
    "\n                <div class=\"message-header\">\n                    <div class=\"avatar ",
    "\">\n                        <img src=\"",
    "-badge.jpg\" alt=\"",
    " AI\">\n                    </div>\n                    <div class=\"message-meta\">\n                        <div class=\"author-name\">",
    " AI ",
    "</div>\n                        <div class=\"message-time\">",
    " <span class=\"time-slot\">\U{2022} ",
    "</span></div>\n                    </div>\n                </div>\n                <div class=\"message-content\">\n                    ",
    "\n                </div>\n            </div>")

  /** The badge that marks a new post. */
  const NewBadge: string := "<span class=\"new-badge\">NIEUW</span>"

  /** The `badge` of `createPostCard`: the `NIEUW` span for a new post, nothing otherwise. */
  function Badge(isNew: bool): string {
    if isNew then NewBadge else ""
  }

  /** The opening tag of a card, carrying the class token. */
  function CardOpen(t: CardTemplate, cls: string): string {
    t.open + cls + t.openEnd
  }

  /** The author's name as the author line shows it, right before the badge. */
  function AuthorName(t: CardTemplate, upper: string): string {
    upper + t.ai
  }

  /** The card up to where the badge goes. */
  function BeforeBadge(t: CardTemplate, cls: string, upper: string): string {
    CardOpen(t, cls) + (t.avatar + cls + t.img + cls + t.alt + upper + t.author) + AuthorName(t, upper)
  }

  /** The card from the end of the author line to the start of the body. */
  function HeadAfterBadge(t: CardTemplate, time: string, date: string): string {
    t.time + time + t.slot + date + t.content
  }

  /** The template filled in. */
  function Render(t: CardTemplate, cls: string, upper: string, badge: string, time: string, date: string, body: string): string {
    BeforeBadge(t, cls, upper) + badge + (HeadAfterBadge(t, time, date) + body + t.close)
  }

  /** `createPostCard` of the engine: the perspective is the class token, its upper-cased form
      the author's name, and the body is the escaped content; `dateStr` is the formatted
      Amsterdam date, taken as given. */
  function CreatePostCard(perspective: string, time: string, content: string, isNew: bool, dateStr: string): string {
    Render(EngineCard, perspective, Upper(perspective), Badge(isNew), time, dateStr, Escape(content))
  }

  /** The offset of the body in a card. */
  function BodyStart(t: CardTemplate, cls: string, upper: string, badge: string, time: string, date: string): nat {
    |BeforeBadge(t, cls, upper)| + |badge| + |HeadAfterBadge(t, time, date)|
  }

  lemma BodyRegion(a: string, b: string, c: string, d: string, e: string)
    ensures var s := a + b + (c + d + e);
            |a| + |b| + |c| + |e| <= |s| && s[|a| + |b| + |c|..|s| - |e|] == d &&
            s[|s| - |e|..] == e
  {
    var s := a + b + (c + d + e);
    assert s == (a + b + c) + d + e;
    Slices3(a + b + c, d, e);
  }

  /** The body can be cut back out of any filled-in template: it sits between the head and the
      closing lines. */
  lemma RenderBody(t: CardTemplate, cls: string, upper: string, badge: string, time: string, date: string, body: string)
    ensures var card := Render(t, cls, upper, badge, time, date, body);
            var k := BodyStart(t, cls, upper, badge, time, date);
            k + |t.close| <= |card| && card[|card| - |t.close|..] == t.close &&
            card[k..|card| - |t.close|] == body
  {
    BodyRegion(BeforeBadge(t, cls, upper), badge, HeadAfterBadge(t, time, date), body, t.close);
  }

  /** The body region of a card filled in with escaped content (a post card is the engine's
      template filled in so) reads back as the content exactly, and is safe markup. */
  lemma RenderDecodes(t: CardTemplate, cls: string, upper: string, badge: string, time: string, date: string, content: string)
    ensures var card := Render(t, cls, upper, badge, time, date, Escape(content));
            var k := BodyStart(t, cls, upper, badge, time, date);
            k + |t.close| <= |card| &&
            Unescape(card[k..|card| - |t.close|]) == content &&
            SafeMarkup(card[k..|card| - |t.close|])
  {
    RenderBody(t, cls, upper, badge, time, date, Escape(content));
    UnescapeEscape(content);
    EscapeSafe(content);
  }

  /** Two cards with the same head differ whenever their contents differ. */
  lemma CardInjective(perspective: string, time: string, c1: string, c2: string, isNew: bool, dateStr: string)
    requires CreatePostCard(perspective, time, c1, isNew, dateStr) == CreatePostCard(perspective, time, c2, isNew, dateStr)
    ensures c1 == c2
  {
    hide Render, BodyStart, Escape, Upper;
    RenderBody(EngineCard, perspective, Upper(perspective), Badge(isNew), time, dateStr, Escape(c1));
    RenderBody(EngineCard, perspective, Upper(perspective), Badge(isNew), time, dateStr, Escape(c2));
    EscapeInjective(c1, c2);
  }

  lemma InsertBetween(a: string, x: string, b: string)
    ensures |a| <= |a + "" + b| && a + x + b == (a + "" + b)[..|a|] + x + (a + "" + b)[|a|..]
  {
    assert a + "" + b == a + b;
    assert (a + b)[..|a|] == a;
    assert (a + b)[|a|..] == b;
  }

  /** A badge is inserted right after the author's name into the card without one. */
  lemma RenderBadge(t: CardTemplate, cls: string, upper: string, badge: string, time: string, date: string, body: string)
    ensures var k := |BeforeBadge(t, cls, upper)|;
            var plain := Render(t, cls, upper, "", time, date, body);
            k <= |plain| && Render(t, cls, upper, badge, time, date, body) == plain[..k] + badge + plain[k..]
  {
    InsertBetween(BeforeBadge(t, cls, upper), badge, HeadAfterBadge(t, time, date) + body + t.close);
  }

  /** The `NIEUW` badge appears exactly for a new post: the new card is the other card with the
      badge inserted right after the author's name. */
  lemma BadgeOnlyWhenNew(perspective: string, time: string, content: string, dateStr: string)
    ensures var k := |BeforeBadge(EngineCard, perspective, Upper(perspective))|;
            var plain := CreatePostCard(perspective, time, content, false, dateStr);
            k <= |plain| &&
            CreatePostCard(perspective, time, content, true, dateStr) == plain[..k] + NewBadge + plain[k..]
  {
    RenderBadge(EngineCard, perspective, Upper(perspective), NewBadge, time, dateStr, Escape(content));
  }

  lemma PrefixAndMiddle(a: string, b: string, c: string, d: string, e: string)
    ensures OccursAt(a + b + c + d + e, a, 0) && OccursAt(a + b + c + d + e, c, |a| + |b|)
  {
    var s := a + b + c + d + e;
    assert s == a + (b + c + d + e);
    Slices3(a, b + c + d + e, "");
    assert s == (a + b) + c + (d + e);
    Slices3(a + b, c, d + e);
  }

  /** A card opens with its class token and shows the author's name right before the badge. */
  lemma RenderNamesAuthor(t: CardTemplate, cls: string, upper: string, badge: string, time: string, date: string, body: string)
    ensures var card := Render(t, cls, upper, badge, time, date, body);
            var k := |BeforeBadge(t, cls, upper)|;
            OccursAt(card, CardOpen(t, cls), 0) &&
            |AuthorName(t, upper)| <= k && OccursAt(card, AuthorName(t, upper), k - |AuthorName(t, upper)|)
  {
    PrefixAndMiddle(CardOpen(t, cls), t.avatar + cls + t.img + cls + t.alt + upper + t.author, AuthorName(t, upper),
                    badge, HeadAfterBadge(t, time, date) + body + t.close);
  }

  /** A post card carries the perspective as its class token and names the upper-cased
      perspective, followed by ` AI `, as its author. */
  lemma CardNamesAuthor(perspective: string, time: string, content: string, isNew: bool, dateStr: string)
    ensures var card := CreatePostCard(perspective, time, content, isNew, dateStr);
            var author := Upper(perspective) + " AI ";
            var k := |BeforeBadge(EngineCard, perspective, Upper(perspective))|;
            OccursAt(card, CardOpen(EngineCard, perspective), 0) &&
            |author| <= k && OccursAt(card, author, k - |author|)
  {
    RenderNamesAuthor(EngineCard, perspective, Upper(perspective), Badge(isNew), time, dateStr, Escape(content));
  }

  /** `padStart(width, pad)` on a string. */
  function PadStart(s: string, width: nat, pad: char): (r: string)
    ensures |r| == if |s| >= width then |s| else width
  {
    if |s| >= width then s else seq(width - |s|, _ => pad) + s
  }

  /** `formatTimeString`: the hour, zero-padded to two digits, then `:00`. */
  function FormatTimeString(hour: nat): (r: string)
    ensures hour < 100 ==> r == [DigitChar(hour / 10), DigitChar(hour % 10), ':', '0', '0']
    ensures hour >= 100 ==> r == NatToString(hour) + ":00"
  {
    SmallNatToString(hour);
    PadStart(NatToString(hour), 2, '0') + ":00"
  }

  /** Below 100 a number has one digit, or two digits without a leading zero. */
  lemma SmallNatToString(n: nat)
    ensures n < 10 ==> NatToString(n) == [DigitChar(n)]
    ensures 10 <= n < 100 ==> NatToString(n) == [DigitChar(n / 10), DigitChar(n % 10)]
  {
    if 10 <= n < 100 {
      assert NatToString(n / 10) == [DigitChar(n / 10)];
    }
  }

  /** The slot time reads back as the hour: it ends in `:00`, and the digits in front of it,
      at least two, denote the hour. */
  lemma FormatTimeReadsBack(hour: nat)
    ensures var r := FormatTimeString(hour);
            |r| >= 5 && r[|r| - 3..] == ":00" &&
            (forall i :: 0 <= i < |r| - 3 ==> IsDigit(r[i])) &&
            DecimalValue(r[..|r| - 3]) == hour
  {
    var r := FormatTimeString(hour);
    NatToStringValue(hour);
    SmallNatToString(hour);
    if hour < 10 {
      var d := r[..2];
      assert d == ['0', DigitChar(hour)];
      assert d[..1] == ['0'];
    } else if hour < 100 {
      assert r[..2] == NatToString(hour);
    } else {
      assert r[..|r| - 3] == NatToString(hour);
    }
  }

  /** Every card is non-empty: it starts with the template's opening lines. */
  lemma CardNonEmpty(perspective: string, time: string, content: string, isNew: bool, dateStr: string)
    ensures |CreatePostCard(perspective, time, content, isNew, dateStr)| >= |EngineCard.open| > 0
  {
  }
}
