/** `injectPost` of the engine (and `injectPosts` of the test engine, the same code): a block
    of cards is spliced in, after a newline, right after the first posts marker, else right
    after the first wall opening tag, else nowhere. */
module Injection {
  import opened Strings

  const PostsMarker: string := "<!-- POSTS_START -->"
  const WallMarker: string := "<div class=\"wall\">"

  /** Where the block goes: the end of the first posts marker, else the end of the first wall
      opening tag, else nowhere. */
  function InsertionPoint(html: string): (p: Option<nat>)
    ensures p.Some? ==> p.value <= |html|
  {
    match IndexOf(html, PostsMarker)
    case Some(m) => Some(m + |PostsMarker|)
    case None =>
      match IndexOf(html, WallMarker)
      case Some(w) => Some(w + |WallMarker|)
      case None => None
  }

  /** The insertion point is the end of the first posts marker when there is one, else the
      end of the first wall tag when there is one, and there is none without either. */
  lemma InsertionPointSpec(html: string)
    ensures var p := InsertionPoint(html);
            (p.None? <==> !Occurs(html, PostsMarker) && !Occurs(html, WallMarker)) &&
            (Occurs(html, PostsMarker) ==>
               p.Some? && p.value >= |PostsMarker| && FirstFrom(html, PostsMarker, 0, p.value - |PostsMarker|)) &&
            (!Occurs(html, PostsMarker) && Occurs(html, WallMarker) ==>
               p.Some? && p.value >= |WallMarker| && FirstFrom(html, WallMarker, 0, p.value - |WallMarker|))
  {
  }

  /** `html.slice(0, at) + '\n' + block + html.slice(at)`. */
  function SpliceAt(html: string, at: nat, block: string): (r: string)
    requires at <= |html|
    ensures |r| == |html| + 1 + |block|
    ensures r[..at] == html[..at] && r[at] == '\n' && r[at + 1..at + 1 + |block|] == block &&
            r[at + 1 + |block|..] == html[at..]
  {
    var r := html[..at] + "\n" + block + html[at..];
    assert r[at + 1..at + 1 + |block|] == block;
    r
  }

  /** `injectPost(html, postHtml)`. */
  function InjectPost(html: string, block: string): (r: string)
    ensures InsertionPoint(html).None? ==> r == html
    ensures InsertionPoint(html).Some? ==> r == SpliceAt(html, InsertionPoint(html).value, block)
  {
    match InsertionPoint(html)
    case Some(p) => SpliceAt(html, p, block)
    case None => html
  }

  /** Deleting the newline and the block gives the input back, and the document grows by
      exactly the block and its newline. */
  lemma InjectRemovable(html: string, block: string)
    requires InsertionPoint(html).Some?
    ensures var p := InsertionPoint(html).value;
            var r := InjectPost(html, block);
            |r| == |html| + |block| + 1 &&
            r[..p] + r[p + 1 + |block|..] == html
  {
    var p := InsertionPoint(html).value;
    assert html == html[..p] + html[p..];
  }

  /** The posts marker wins over the wall tag wherever the two occur; with neither, nothing is
      inserted. */
  lemma MarkerPriority(html: string, block: string)
    ensures Occurs(html, PostsMarker) ==>
              exists m: nat :: FirstFrom(html, PostsMarker, 0, m) &&
                          InjectPost(html, block) == SpliceAt(html, m + |PostsMarker|, block)
    ensures !Occurs(html, PostsMarker) && !Occurs(html, WallMarker) ==> InjectPost(html, block) == html
  {
    InsertionPointSpec(html);
    if Occurs(html, PostsMarker) {
      var m := InsertionPoint(html).value - |PostsMarker|;
      assert FirstFrom(html, PostsMarker, 0, m);
    }
  }

  /** A first occurrence that ends at or before `p` stays first when text is spliced in at `p`. */
  lemma FirstSurvivesSplice(html: string, pat: string, m: nat, block: string)
    requires IndexOf(html, pat) == Some(m) && m + |pat| <= |html|
    ensures IndexOf(SpliceAt(html, m + |pat|, block), pat) == Some(m)
  {
    var p := m + |pat|;
    var r := SpliceAt(html, p, block);
    OccursAtPrefix(html, r, p, pat, m);
    forall j: nat | j < m
      ensures !OccursAt(r, pat, j)
    {
      OccursAtPrefix(html, r, p, pat, j);
    }
    FirstFromUnique(r, pat, 0, m, IndexOf(r, pat).value);
  }

  /** Splicing right after the first posts marker keeps it the first one. */
  lemma KeepsPostsMarker(html: string, block: string, m: nat)
    requires IndexOf(html, PostsMarker) == Some(m)
    ensures m + |PostsMarker| <= |html|
    ensures InsertionPoint(SpliceAt(html, m + |PostsMarker|, block)) == Some(m + |PostsMarker|)
  {
    FirstSurvivesSplice(html, PostsMarker, m, block);
  }

  /** Splicing right after the first wall tag keeps it the first one, as long as no posts
      marker appears. */
  lemma KeepsWallMarker(html: string, block: string, w: nat)
    requires IndexOf(html, WallMarker) == Some(w)
    requires w + |WallMarker| <= |html|
    requires IndexOf(SpliceAt(html, w + |WallMarker|, block), PostsMarker).None?
    ensures InsertionPoint(SpliceAt(html, w + |WallMarker|, block)) == Some(w + |WallMarker|)
  {
    FirstSurvivesSplice(html, WallMarker, w, block);
  }

  /** Injection leaves the insertion point in place when the posts marker is there, or when the
      block brings in no posts marker: the marker (or tag) it used is still the first one. */
  lemma InjectKeepsPoint(html: string, block: string)
    requires InsertionPoint(html).Some?
    requires Occurs(html, PostsMarker) || !Occurs(InjectPost(html, block), PostsMarker)
    ensures InsertionPoint(InjectPost(html, block)) == InsertionPoint(html)
  {
    match IndexOf(html, PostsMarker)
    case Some(m) =>
      KeepsPostsMarker(html, block, m);
    case None =>
      var w := IndexOf(html, WallMarker).value;
      KeepsWallMarker(html, block, w);
  }

  /** Two splices at the same point: the second block lands right before the first. */
  lemma SpliceTwice(html: string, p: nat, first: string, second: string)
    requires p <= |html|
    ensures SpliceAt(SpliceAt(html, p, first), p, second) ==
            html[..p] + "\n" + second + "\n" + first + html[p..]
  {
    var r1 := SpliceAt(html, p, first);
    assert r1[..p] == html[..p];
    assert r1[p..] == "\n" + first + html[p..];
  }

  /** Newest first: a second injection lands right before the block of the first. */
  lemma NewestFirst(html: string, first: string, second: string)
    requires InsertionPoint(html).Some?
    requires Occurs(html, PostsMarker) || !Occurs(InjectPost(html, first), PostsMarker)
    ensures var p := InsertionPoint(html).value;
            InjectPost(InjectPost(html, first), second) ==
              html[..p] + "\n" + second + "\n" + first + html[p..]
  {
    InjectKeepsPoint(html, first);
    SpliceTwice(html, InsertionPoint(html).value, first, second);
  }

  /** A block joined from parts and spliced in at `at` puts part `i` at its offset in the
      block, right after `at` and the newline. */
  lemma SplicePlacesPart(html: string, at: nat, parts: seq<string>, i: nat)
    requires at <= |html| && i < |parts|
    ensures OccursAt(SpliceAt(html, at, Join(parts, "\n")), parts[i], at + 1 + JoinOffset(parts, "\n", i))
  {
    var block := Join(parts, "\n");
    JoinParts(parts, "\n", i);
    OccursInSlice(SpliceAt(html, at, block), at + 1, at + 1 + |block|, parts[i], JoinOffset(parts, "\n", i));
  }

  /** Injected parts sit right after the insertion point and its newline, each at its offset
      in the joined block. */
  lemma InjectPlacesPart(html: string, parts: seq<string>, i: nat)
    requires InsertionPoint(html).Some? && i < |parts|
    ensures OccursAt(InjectPost(html, Join(parts, "\n")), parts[i],
                     InsertionPoint(html).value + 1 + JoinOffset(parts, "\n", i))
  {
    SplicePlacesPart(html, InsertionPoint(html).value, parts, i);
  }
}
