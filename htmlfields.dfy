/** The HTML field extractors of the current site service: cover images,
    title and price, description and goods. Each takes a list of candidate
    selectors and returns what the first candidate that yields anything
    yields. A candidate "first;second" picks a selection with the cascade
    "first" from the document root; when "second" is non-empty, every node
    of that selection is narrowed further by the cascade "second", and a
    node whose narrowed selection is not legal is skipped. */
module HtmlFields {
  import opened Wrappers
  import opened GoText
  import opened Seqs
  import opened Markup
  import opened Cascade
  import opened Resource

  /** The selection the part of a candidate before ';' picks from the
      document. */
  function TopSelection(dom: Dom, root: Node, labelList: seq<string>): seq<Node>
    requires |labelList| >= 1
  {
    CascadeHTML(dom, [root], Split(labelList[0], LabelSeparate))
  }

  /** The selection one node of the first-level selection stands for:
      itself, or its narrowing by the part after ';', which must be legal. */
  function Refine(dom: Dom, labelList: seq<string>, n: Node): (r: Option<seq<Node>>)
    ensures !(|labelList| > 1 && labelList[1] != "") ==> r == Some([n])
    ensures r.Some? && |labelList| > 1 && labelList[1] != "" ==> HtmlLegal(dom, r.value)
  {
    if |labelList| > 1 && labelList[1] != "" then
      var sel := CascadeHTML(dom, [n], Split(labelList[1], LabelSeparate));
      if HtmlLegal(dom, sel) then Some(sel) else None
    else Some([n])
  }

  /** What one node contributes, given what `f` makes of a selection. */
  function NodeYield<T>(dom: Dom, labelList: seq<string>, f: seq<Node> -> seq<T>, n: Node): seq<T> {
    match Refine(dom, labelList, n)
      case None => []
      case Some(sel) => f(sel)
  }

  function PerNode<T>(dom: Dom, labelList: seq<string>, f: seq<Node> -> seq<T>): Node -> seq<T> {
    (n: Node) => NodeYield(dom, labelList, f, n)
  }

  /** What one candidate selector yields: nothing when its first-level
      selection is not legal, otherwise the contributions of its nodes in
      document order. */
  function Gather<T>(dom: Dom, root: Node, selector: string, f: seq<Node> -> seq<T>): seq<T> {
    var labelList := Split(selector, ListSeparate);
    var top := TopSelection(dom, root, labelList);
    if !HtmlLegal(dom, top) then [] else FlatMap(top, PerNode(dom, labelList, f))
  }

  /** A property every contribution has, every gathered item has. */
  lemma GatherFrom<T>(dom: Dom, root: Node, selector: string, f: seq<Node> -> seq<T>, P: T -> bool)
    requires forall sel: seq<Node>, y :: y in f(sel) ==> P(y)
    ensures forall y :: y in Gather(dom, root, selector, f) ==> P(y)
  {
    var labelList := Split(selector, ListSeparate);
    var top := TopSelection(dom, root, labelList);
    forall i | 0 <= i < |top| ensures forall y :: y in PerNode(dom, labelList, f)(top[i]) ==> P(y) {
      match Refine(dom, labelList, top[i])
        case None =>
        case Some(sel) => assert PerNode(dom, labelList, f)(top[i]) == f(sel);
    }
    FlatMapFrom(top, PerNode(dom, labelList, f), P);
  }

  /** The narrowing step for one node, as the extractors perform it. */
  method RefineNode(dom: Dom, labelList: seq<string>, n: Node) returns (r: Option<seq<Node>>)
    ensures r == Refine(dom, labelList, n)
  {
    if |labelList| > 1 && |labelList[1]| > 0 {
      var selc := IterativeHTML(dom, [n], labelList[1]);
      if !HtmlLegal(dom, selc) {
        return None;
      }
      return Some(selc);
    }
    return Some([n]);
  }

  // ----- attributes -----

  /** The value of the first attribute among `names` that the node carries
      with a non-empty value. */
  function FirstAttr(dom: Dom, n: Node, names: seq<string>): (r: Option<string>)
    ensures r.Some? ==> (r.value != "" &&
      exists k :: 0 <= k < |names| && dom.attr(n, names[k]) == Some(r.value)
                  && forall i :: 0 <= i < k ==> AttrValue(dom.attr(n, names[i])) == "")
    ensures r.None? ==> forall k :: 0 <= k < |names| ==> AttrValue(dom.attr(n, names[k])) == ""
    decreases |names|
  {
    if |names| == 0 then None
    else if AttrValue(dom.attr(n, names[0])) != "" then dom.attr(n, names[0])
    else
      var r := FirstAttr(dom, n, names[1..]);
      assert forall i :: 1 <= i < |names| ==> names[1..][i - 1] == names[i];
      assert r.Some? ==> (exists k :: 0 <= k < |names| && dom.attr(n, names[k]) == Some(r.value)
                                      && forall i :: 0 <= i < k ==> AttrValue(dom.attr(n, names[i])) == "") by {
        if r.Some? {
          var k :| 0 <= k < |names| - 1 && dom.attr(n, names[1..][k]) == Some(r.value)
                  && forall i :: 0 <= i < k ==> AttrValue(dom.attr(n, names[1..][i])) == "";
          assert dom.attr(n, names[k + 1]) == Some(r.value);
        }
      }
      r
  }

  /** The normalised URL of a non-empty source; nothing for "". */
  function URLIfAny(src: string, page: Page): (r: seq<string>)
    ensures |r| <= 1 && (r == [] <==> src == "")
  {
    if |src| > 0 then [GetResourceURL(src, page)] else []
  }

  // ----- cover -----

  const CoverAttrs: seq<string> := ["src", "data-src", "data-original"]

  /** The cover one img element gives. */
  function ImageCover(dom: Dom, page: Page, n: Node): seq<string> {
    match FirstAttr(dom, n, CoverAttrs)
      case None => []
      case Some(src) => [GetResourceURL(src, page)]
  }

  function CoverOfImage(dom: Dom, page: Page): Node -> seq<string> {
    (n: Node) => ImageCover(dom, page, n)
  }

  /** The cover images of a selection: for every img element below it, the
      first of src, data-src and data-original that is set and non-empty,
      made absolute. */
  function CoverImages(dom: Dom, sel: seq<Node>, page: Page): seq<string> {
    FlatMap(Find(dom, sel, "img"), CoverOfImage(dom, page))
  }

  /** parseCoverImages */
  method ParseCoverImages(dom: Dom, sel: seq<Node>, page: Page) returns (images: seq<string>)
    ensures images == CoverImages(dom, sel, page)
  {
    var imgs := Find(dom, sel, "img");
    images := [];
    var i := 0;
    while i < |imgs|
      invariant 0 <= i <= |imgs|
      invariant images == FlatMap(imgs[..i], CoverOfImage(dom, page))
    {
      FlatMapPrefix(imgs, i, CoverOfImage(dom, page));
      var n := imgs[i];
      i := i + 1;
      var imageSrc := AttrValue(dom.attr(n, "src"));
      if |imageSrc| <= 0 {
        imageSrc := AttrValue(dom.attr(n, "data-src"));
        if |imageSrc| <= 0 {
          imageSrc := AttrValue(dom.attr(n, "data-original"));
          if |imageSrc| <= 0 {
            continue;
          }
        }
      }
      images := images + [GetResourceURL(imageSrc, page)];
    }
    assert imgs[..|imgs|] == imgs;
  }

  function CoverFn(dom: Dom, page: Page): seq<Node> -> seq<string> {
    (sel: seq<Node>) => CoverImages(dom, sel, page)
  }

  function CoversOfCandidate(dom: Dom, root: Node, page: Page, selector: string): seq<string> {
    Gather(dom, root, selector, CoverFn(dom, page))
  }

  function CoverCandidate(dom: Dom, root: Node, page: Page): string -> seq<string> {
    (selector: string) => CoversOfCandidate(dom, root, page, selector)
  }

  /** The cover list parseCoverImagesHTML returns. */
  function CoverHTML(dom: Dom, root: Node, page: Page, selectors: seq<string>): seq<string> {
    FirstHit(selectors, CoverCandidate(dom, root, page))
  }

  /** parseCoverImagesHTML: the cover images of the first candidate that
      finds any. */
  method ParseCoverImagesHTML(dom: Dom, root: Node, page: Page, selectors: seq<string>) returns (images: seq<string>)
    ensures images == CoverHTML(dom, root, page, selectors)
  {
    var i := 0;
    while i < |selectors|
      invariant 0 <= i <= |selectors|
      invariant FirstHit(selectors[i..], CoverCandidate(dom, root, page)) == CoverHTML(dom, root, page, selectors)
    {
      var labelList := Split(selectors[i], ListSeparate);
      var selection := IterativeHTML(dom, [root], labelList[0]);
      var found: seq<string> := [];
      if HtmlLegal(dom, selection) {
        found := CoversOf(dom, labelList, selection, page);
      }
      if |found| > 0 {
        FirstHitHere(selectors, i, CoverCandidate(dom, root, page));
        return found;
      }
      FirstHitSkip(selectors, i, CoverCandidate(dom, root, page));
      i := i + 1;
    }
    return [];
  }

  /** The node loop of parseCoverImagesHTML. */
  method CoversOf(dom: Dom, labelList: seq<string>, selection: seq<Node>, page: Page) returns (found: seq<string>)
    ensures found == FlatMap(selection, PerNode(dom, labelList, CoverFn(dom, page)))
  {
    found := [];
    var k := 0;
    while k < |selection|
      invariant 0 <= k <= |selection|
      invariant found == FlatMap(selection[..k], PerNode(dom, labelList, CoverFn(dom, page)))
    {
      FlatMapPrefix(selection, k, PerNode(dom, labelList, CoverFn(dom, page)));
      var selc := RefineNode(dom, labelList, selection[k]);
      if selc.Some? {
        var imgs := ParseCoverImages(dom, selc.value, page);
        found := found + imgs;
      }
      k := k + 1;
    }
    assert selection[..|selection|] == selection;
  }

  /** Every cover URL is normalised: it holds no line break and no query. */
  lemma CoverHTMLClean(dom: Dom, root: Node, page: Page, selectors: seq<string>)
    ensures forall u :: u in CoverHTML(dom, root, page, selectors) ==> '\r' !in u && '\n' !in u && '?' !in u
  {
    var P := (u: string) => '\r' !in u && '\n' !in u && '?' !in u;
    forall sel: seq<Node> ensures forall u :: u in CoverImages(dom, sel, page) ==> P(u) {
      FlatMapFrom(Find(dom, sel, "img"), CoverOfImage(dom, page), P);
    }
    FirstHitSpec(selectors, CoverCandidate(dom, root, page));
    var r := CoverHTML(dom, root, page, selectors);
    if r != [] {
      var k :| 0 <= k < |selectors| && r == CoverCandidate(dom, root, page)(selectors[k]);
      GatherFrom(dom, root, selectors[k], CoverFn(dom, page), P);
    }
  }

  /** Each cover image comes from the first of src, data-src and
      data-original that the img element sets to a non-empty value; an img
      with none of them gives nothing. */
  lemma CoverOfImageChoice(dom: Dom, page: Page, n: Node)
    ensures AttrValue(dom.attr(n, "src")) != "" ==>
      CoverOfImage(dom, page)(n) == [GetResourceURL(dom.attr(n, "src").value, page)]
    ensures AttrValue(dom.attr(n, "src")) == "" && AttrValue(dom.attr(n, "data-src")) != "" ==>
      CoverOfImage(dom, page)(n) == [GetResourceURL(dom.attr(n, "data-src").value, page)]
    ensures (AttrValue(dom.attr(n, "src")) == "" && AttrValue(dom.attr(n, "data-src")) == "" &&
             AttrValue(dom.attr(n, "data-original")) != "") ==>
      CoverOfImage(dom, page)(n) == [GetResourceURL(dom.attr(n, "data-original").value, page)]
    ensures (AttrValue(dom.attr(n, "src")) == "" && AttrValue(dom.attr(n, "data-src")) == "" &&
             AttrValue(dom.attr(n, "data-original")) == "") ==> CoverOfImage(dom, page)(n) == []
  {
    assert CoverAttrs[1..] == ["data-src", "data-original"];
    assert CoverAttrs[1..][1..] == ["data-original"];
    assert CoverAttrs[1..][1..][1..] == [];
  }

  // ----- title and price -----

  /** The trimmed text of a selection, unless blank. */
  function TrimmedText(dom: Dom, sel: seq<Node>): seq<string> {
    var t := TrimSpace(Text(dom, sel));
    if t == "" then [] else [t]
  }

  function TextFn(dom: Dom): seq<Node> -> seq<string> {
    (sel: seq<Node>) => TrimmedText(dom, sel)
  }

  /** What parseTitleHTML makes of one candidate. */
  function JoinedTexts(dom: Dom, root: Node, selector: string): string {
    Join(Gather(dom, root, selector, TextFn(dom)), ",")
  }

  function TextCandidate(dom: Dom, root: Node): string -> string {
    (selector: string) => JoinedTexts(dom, root, selector)
  }

  /** The string parseTitleHTML (and, with the same code, parsePriceHTML)
      returns. */
  function TextHTML(dom: Dom, root: Node, selectors: seq<string>): string {
    FirstHit(selectors, TextCandidate(dom, root))
  }

  /** parseTitleHTML, and parsePriceHTML, whose body is the same: the
      trimmed, non-blank texts of the nodes of the first candidate that has
      any, joined with ",". */
  method ParseTextHTML(dom: Dom, root: Node, selectors: seq<string>) returns (title: string)
    ensures title == TextHTML(dom, root, selectors)
  {
    var i := 0;
    while i < |selectors|
      invariant 0 <= i <= |selectors|
      invariant FirstHit(selectors[i..], TextCandidate(dom, root)) == TextHTML(dom, root, selectors)
    {
      var labelList := Split(selectors[i], ListSeparate);
      var selection := IterativeHTML(dom, [root], labelList[0]);
      var titles: seq<string> := [];
      if HtmlLegal(dom, selection) {
        titles := TextsOf(dom, labelList, selection);
      }
      var joined := Join(titles, ",");
      if |joined| > 0 {
        FirstHitHere(selectors, i, TextCandidate(dom, root));
        return joined;
      }
      FirstHitSkip(selectors, i, TextCandidate(dom, root));
      i := i + 1;
    }
    return "";
  }

  /** The node loop of parseTitleHTML: the trimmed, non-blank text of
      every node whose narrowing is legal. */
  method TextsOf(dom: Dom, labelList: seq<string>, selection: seq<Node>) returns (titles: seq<string>)
    ensures titles == FlatMap(selection, PerNode(dom, labelList, TextFn(dom)))
  {
    titles := [];
    var k := 0;
    while k < |selection|
      invariant 0 <= k <= |selection|
      invariant titles == FlatMap(selection[..k], PerNode(dom, labelList, TextFn(dom)))
    {
      FlatMapPrefix(selection, k, PerNode(dom, labelList, TextFn(dom)));
      var selc := RefineNode(dom, labelList, selection[k]);
      if selc.Some? {
        var text := TrimSpace(Text(dom, selc.value));
        if |text| > 0 {
          titles := titles + [text];
        }
      }
      k := k + 1;
    }
    assert selection[..|selection|] == selection;
  }

  /** Every piece joined into a title is non-blank and trimmed. */
  predicate Trimmed(t: string) {
    t != "" && !IsSpace(t[0]) && !IsSpace(t[|t| - 1])
  }

  /** A title is either empty or neither starts nor ends with white space. */
  lemma TextHTMLTrimmed(dom: Dom, root: Node, selectors: seq<string>)
    ensures var r := TextHTML(dom, root, selectors); r == "" || Trimmed(r)
  {
    FirstHitSpec(selectors, TextCandidate(dom, root));
    var r := TextHTML(dom, root, selectors);
    if r != "" {
      var k :| 0 <= k < |selectors| && r == TextCandidate(dom, root)(selectors[k]);
      JoinedTextsTrimmed(dom, root, selectors[k]);
    }
  }

  /** What one candidate selector gives is empty or trimmed. */
  lemma JoinedTextsTrimmed(dom: Dom, root: Node, selector: string)
    ensures var r := JoinedTexts(dom, root, selector); r == "" || Trimmed(r)
  {
    var pieces := Gather(dom, root, selector, TextFn(dom));
    forall sel: seq<Node> ensures forall y :: y in TextFn(dom)(sel) ==> Trimmed(y) {
      TrimmedTextTrimmed(dom, sel);
    }
    GatherFrom(dom, root, selector, TextFn(dom), Trimmed);
    JoinOfTrimmed(pieces);
  }

  /** Trimmed pieces joined with "," make an empty or trimmed string. */
  lemma JoinOfTrimmed(pieces: seq<string>)
    requires forall y :: y in pieces ==> Trimmed(y)
    ensures var r := Join(pieces, ","); r == "" || Trimmed(r)
  {
    if pieces != [] {
      assert forall j :: 0 <= j < |pieces| ==> pieces[j] in pieces;
      JoinEnds(pieces, ",");
    }
  }

  lemma TrimmedTextTrimmed(dom: Dom, sel: seq<Node>)
    ensures forall y :: y in TrimmedText(dom, sel) ==> Trimmed(y)
  {
    TrimSpaceTrimmed(Text(dom, sel));
  }

  lemma TrimSpaceTrimmed(s: string)
    ensures TrimSpace(s) == "" || Trimmed(TrimSpace(s))
  {
  }

  /** The title is empty exactly when no candidate finds a node with
      non-blank text. */
  lemma TextHTMLEmptyIff(dom: Dom, root: Node, selectors: seq<string>)
    ensures TextHTML(dom, root, selectors) == "" <==>
      forall k :: 0 <= k < |selectors| ==> Gather(dom, root, selectors[k], TextFn(dom)) == []
  {
    FirstHitSpec(selectors, TextCandidate(dom, root));
    forall k | 0 <= k < |selectors|
      ensures TextCandidate(dom, root)(selectors[k]) == "" <==> Gather(dom, root, selectors[k], TextFn(dom)) == []
    {
      JoinedTextsEmptyIff(dom, root, selectors[k]);
    }
  }

  /** One candidate gives the empty string exactly when it gathers no text. */
  lemma JoinedTextsEmptyIff(dom: Dom, root: Node, selector: string)
    ensures JoinedTexts(dom, root, selector) == "" <==> Gather(dom, root, selector, TextFn(dom)) == []
  {
    var pieces := Gather(dom, root, selector, TextFn(dom));
    GatherFrom(dom, root, selector, TextFn(dom), (t: string) => t != "");
    forall j | 0 <= j < |pieces| ensures pieces[j] != "" {
      assert pieces[j] in pieces;
    }
    JoinEmptyIff(pieces, ",");
  }

  // ----- media inside a fragment -----

  const ImageAttrs: seq<string> := ["data-original", "src"]

  /** The image one img element of a description gives. */
  function ImageOf(dom: Dom, page: Page, n: Node): seq<string> {
    match FirstAttr(dom, n, ImageAttrs)
      case None => []
      case Some(src) => [GetResourceURL(src, page)]
  }

  function ImagePath(dom: Dom, page: Page): Node -> seq<string> {
    (n: Node) => ImageOf(dom, page, n)
  }

  /** The src values that the source elements of a video carry, including
      empty ones. */
  function SrcOf(dom: Dom, n: Node): seq<string> {
    match dom.attr(n, "src")
      case None => []
      case Some(v) => [v]
  }

  function PresentSrc(dom: Dom): Node -> seq<string> {
    (n: Node) => SrcOf(dom, n)
  }

  function URLOf(page: Page): string -> string {
    (u: string) => GetResourceURL(u, page)
  }

  /** The source a video names first: its src attribute if present, else
      its poster attribute if present, else the src of its last source
      element ("" when there is none or it has no src). */
  function VideoSource(dom: Dom, v: Node): string {
    if dom.attr(v, "src").Some? then dom.attr(v, "src").value
    else if dom.attr(v, "poster").Some? then dom.attr(v, "poster").value
    else
      var sources := Find(dom, [v], "source");
      if |sources| == 0 then "" else AttrValue(dom.attr(sources[|sources| - 1], "src"))
  }

  /** The further sources of a video: none when it has a src or a poster
      attribute, otherwise the src of every source element that has one. */
  function VideoSources(dom: Dom, v: Node): seq<string> {
    if dom.attr(v, "src").Some? || dom.attr(v, "poster").Some? then []
    else FlatMap(Find(dom, [v], "source"), PresentSrc(dom))
  }

  /** The media of one video element: its first source if non-empty, then
      its further sources, all resolved against the page. */
  function VideoMedia(dom: Dom, page: Page, v: Node): seq<string> {
    URLIfAny(VideoSource(dom, v), page) + Map(VideoSources(dom, v), URLOf(page))
  }

  function VideoPaths(dom: Dom, page: Page): Node -> seq<string> {
    (v: Node) => VideoMedia(dom, page, v)
  }

  /** What replaceImagePaths(desc) returns: the images of the fragment
      (data-original, else src), then the media of its videos. */
  function ImagePaths(dom: Dom, desc: string, page: Page): seq<string> {
    var root := dom.parse(desc);
    FlatMap(Find(dom, [root], "img"), ImagePath(dom, page))
      + FlatMap(Find(dom, [root], "video"), VideoPaths(dom, page))
  }

  /** The loop over the source elements of a video: the src values that
      are present, and the value of the last source element's src. */
  method SourceSrcs(dom: Dom, sources: seq<Node>) returns (videos: seq<string>, videoSrc: string)
    ensures videos == FlatMap(sources, PresentSrc(dom))
    ensures videoSrc == if |sources| == 0 then "" else AttrValue(dom.attr(sources[|sources| - 1], "src"))
  {
    videos := [];
    videoSrc := "";
    var j := 0;
    while j < |sources|
      invariant 0 <= j <= |sources|
      invariant videos == FlatMap(sources[..j], PresentSrc(dom))
      invariant videoSrc == if j == 0 then "" else AttrValue(dom.attr(sources[j - 1], "src"))
    {
      FlatMapPrefix(sources, j, PresentSrc(dom));
      var s := dom.attr(sources[j], "src");
      videoSrc := AttrValue(s);
      if s.Some? {
        videos := videos + [s.value];
      }
      j := j + 1;
    }
    assert sources[..|sources|] == sources;
  }

  /** The loop of replaceImagePaths that resolves every collected video
      source against the page. */
  method URLsOf(videos: seq<string>, page: Page) returns (urls: seq<string>)
    ensures urls == Map(videos, URLOf(page))
  {
    urls := [];
    var k := 0;
    while k < |videos|
      invariant 0 <= k <= |videos|
      invariant urls == Map(videos[..k], URLOf(page))
    {
      MapPrefix(videos, k, URLOf(page));
      urls := urls + [GetResourceURL(videos[k], page)];
      k := k + 1;
    }
    assert videos[..|videos|] == videos;
  }

  /** The body of the video loop of replaceImagePaths. */
  method VideoOf(dom: Dom, v: Node, page: Page) returns (media: seq<string>)
    ensures media == VideoMedia(dom, page, v)
  {
    var videos, videoSrc := SourcesOf(dom, v);
    media := [];
    if |videoSrc| > 0 {
      media := media + [GetResourceURL(videoSrc, page)];
    }
    var urls := URLsOf(videos, page);
    media := media + urls;
  }

  /** The attribute lookups of the video loop: src, else poster, else the
      source elements. */
  method SourcesOf(dom: Dom, v: Node) returns (videos: seq<string>, videoSrc: string)
    ensures videos == VideoSources(dom, v) && videoSrc == VideoSource(dom, v)
  {
    videos := [];
    var src := dom.attr(v, "src");
    videoSrc := AttrValue(src);
    if src.None? {
      var poster := dom.attr(v, "poster");
      videoSrc := AttrValue(poster);
      if poster.None? {
        var sources := Find(dom, [v], "source");
        videos, videoSrc := SourceSrcs(dom, sources);
      }
    }
  }

  /** The img loop of replaceImagePaths: data-original, else src. */
  method ImagesOf(dom: Dom, imgs: seq<Node>, page: Page) returns (images: seq<string>)
    ensures images == FlatMap(imgs, ImagePath(dom, page))
  {
    images := [];
    var i := 0;
    while i < |imgs|
      invariant 0 <= i <= |imgs|
      invariant images == FlatMap(imgs[..i], ImagePath(dom, page))
    {
      FlatMapPrefix(imgs, i, ImagePath(dom, page));
      var n := imgs[i];
      i := i + 1;
      var imageSrc := AttrValue(dom.attr(n, "data-original"));
      if |imageSrc| <= 0 {
        imageSrc := AttrValue(dom.attr(n, "src"));
        if |imageSrc| <= 0 {
          continue;
        }
      }
      images := images + [GetResourceURL(imageSrc, page)];
    }
    assert imgs[..|imgs|] == imgs;
  }

  /** The video loop of replaceImagePaths. */
  method VideosOf(dom: Dom, videos: seq<Node>, page: Page) returns (media: seq<string>)
    ensures media == FlatMap(videos, VideoPaths(dom, page))
  {
    media := [];
    var j := 0;
    while j < |videos|
      invariant 0 <= j <= |videos|
      invariant media == FlatMap(videos[..j], VideoPaths(dom, page))
    {
      FlatMapPrefix(videos, j, VideoPaths(dom, page));
      var more := VideoOf(dom, videos[j], page);
      media := media + more;
      j := j + 1;
    }
    assert videos[..|videos|] == videos;
  }

  /** replaceImagePaths */
  method ReplaceImagePaths(dom: Dom, desc: string, page: Page) returns (images: seq<string>)
    ensures images == ImagePaths(dom, desc, page)
  {
    var docDesc := dom.parse(desc);
    images := ImagesOf(dom, Find(dom, [docDesc], "img"), page);
    var media := VideosOf(dom, Find(dom, [docDesc], "video"), page);
    images := images + media;
  }

  /** A video with neither src nor poster whose last source element has a
      non-empty src lists that source twice: once before its source
      elements and once among them. */
  lemma VideoLastSourceTwice(dom: Dom, page: Page, v: Node)
    requires dom.attr(v, "src").None? && dom.attr(v, "poster").None?
    requires var sources := Find(dom, [v], "source");
      |sources| > 0 && AttrValue(dom.attr(sources[|sources| - 1], "src")) != ""
    ensures var sources := Find(dom, [v], "source");
      var m := VideoPaths(dom, page)(v);
      var u := GetResourceURL(dom.attr(sources[|sources| - 1], "src").value, page);
      |m| >= 2 && m[0] == u && m[|m| - 1] == u
  {
    var sources := Find(dom, [v], "source");
    var n := |sources| - 1;
    FlatMapPrefix(sources, n, PresentSrc(dom));
    assert sources[..n + 1] == sources;
  }

  /** A video whose src attribute is present, even empty, gives at most
      that one source, and nothing when it is empty. */
  lemma VideoSrcOnly(dom: Dom, page: Page, v: Node)
    requires dom.attr(v, "src").Some?
    ensures VideoPaths(dom, page)(v) == URLIfAny(dom.attr(v, "src").value, page)
  {
  }

  // ----- description -----

  /** What one line of a description fragment contributes: nothing when
      blank; otherwise the trimmed text of the line's document when it has
      any text, followed by the line's media. */
  function LineDesc(dom: Dom, page: Page, line: string): seq<string> {
    var h := TrimSpace(line);
    if h == "" then []
    else
      var t := Text(dom, [dom.parse(h)]);
      (if |t| > 0 then [TrimSpace(t)] else []) + ImagePaths(dom, h, page)
  }

  function DescOfLine(dom: Dom, page: Page): string -> seq<string> {
    (line: string) => LineDesc(dom, page, line)
  }

  /** What splitDescHTMLParse(html) returns. */
  function SplitDesc(dom: Dom, html: string, page: Page): seq<string> {
    FlatMap(Split(html, '\n'), DescOfLine(dom, page))
  }

  /** The body of the line loop of splitDescHTMLParse. */
  method DescribeLine(dom: Dom, line: string, page: Page) returns (items: seq<string>)
    ensures items == LineDesc(dom, page, line)
  {
    var h := TrimSpace(line);
    if |h| <= 0 {
      return [];
    }
    var text := Text(dom, [dom.parse(h)]);
    var lead: seq<string> := if |text| > 0 then [TrimSpace(text)] else [];
    var images := ReplaceImagePaths(dom, h, page);
    items := lead + images;
  }

  /** splitDescHTMLParse: a description fragment is read line by line. */
  method SplitDescHTMLParse(dom: Dom, html: string, page: Page) returns (descInfo: seq<string>)
    ensures descInfo == SplitDesc(dom, html, page)
  {
    var htmlList := Split(html, '\n');
    descInfo := DescribeLines(dom, htmlList, page);
  }

  /** The line loop of splitDescHTMLParse. */
  method DescribeLines(dom: Dom, htmlList: seq<string>, page: Page) returns (descInfo: seq<string>)
    ensures descInfo == FlatMap(htmlList, DescOfLine(dom, page))
  {
    descInfo := [];
    var i := 0;
    while i < |htmlList|
      invariant 0 <= i <= |htmlList|
      invariant descInfo == FlatMap(htmlList[..i], DescOfLine(dom, page))
    {
      FlatMapPrefix(htmlList, i, DescOfLine(dom, page));
      var more := DescribeLine(dom, htmlList[i], page);
      descInfo := descInfo + more;
      i := i + 1;
    }
    assert htmlList[..|htmlList|] == htmlList;
  }

  /** Lines are read independently: the description of two blocks of lines
      is the description of the first followed by that of the second. */
  lemma SplitDescLines(dom: Dom, page: Page, a: string, b: string)
    ensures SplitDesc(dom, a + "\n" + b, page) == SplitDesc(dom, a, page) + SplitDesc(dom, b, page)
  {
    SplitConcat(a, '\n', b);
    FlatMapConcat(Split(a, '\n'), Split(b, '\n'), DescOfLine(dom, page));
  }

  /** A blank line contributes nothing. */
  lemma SplitDescBlankLine(dom: Dom, page: Page, blank: string, b: string)
    requires '\n' !in blank && AllSpace(blank)
    ensures SplitDesc(dom, blank + "\n" + b, page) == SplitDesc(dom, b, page)
  {
    SplitDescLines(dom, page, blank, b);
    SplitConcatFirst(blank, '\n', b);
    FlatMapSingle(blank, DescOfLine(dom, page));
    TrimSpaceEmptyIff(blank);
    assert LineDesc(dom, page, blank) == [];
  }

  /** The description of a selection: its inner HTML read line by line. */
  function SelectionDesc(dom: Dom, page: Page, sel: seq<Node>): seq<string> {
    var h := Html(dom, sel);
    if h == "" then [] else SplitDesc(dom, h, page)
  }

  function DescFn(dom: Dom, page: Page): seq<Node> -> seq<string> {
    (sel: seq<Node>) => SelectionDesc(dom, page, sel)
  }

  function DescOfCandidate(dom: Dom, root: Node, page: Page, selector: string): seq<string> {
    Gather(dom, root, selector, DescFn(dom, page))
  }

  function DescCandidate(dom: Dom, root: Node, page: Page): string -> seq<string> {
    (selector: string) => DescOfCandidate(dom, root, page, selector)
  }

  /** The list parseDescHTML returns. */
  function DescHTML(dom: Dom, root: Node, page: Page, selectors: seq<string>): seq<string> {
    FirstHit(selectors, DescCandidate(dom, root, page))
  }

  /** parseDescHTML: the descriptions of the inner HTML of every node of
      the first candidate that gives any. */
  method ParseDescHTML(dom: Dom, root: Node, page: Page, selectors: seq<string>) returns (descs: seq<string>)
    ensures descs == DescHTML(dom, root, page, selectors)
  {
    var i := 0;
    while i < |selectors|
      invariant 0 <= i <= |selectors|
      invariant FirstHit(selectors[i..], DescCandidate(dom, root, page)) == DescHTML(dom, root, page, selectors)
    {
      var labelList := Split(selectors[i], ListSeparate);
      var selection := IterativeHTML(dom, [root], labelList[0]);
      var dataInfos: seq<string> := [];
      if HtmlLegal(dom, selection) {
        dataInfos := DescsOf(dom, labelList, selection, page);
      }
      if |dataInfos| > 0 {
        FirstHitHere(selectors, i, DescCandidate(dom, root, page));
        return dataInfos;
      }
      FirstHitSkip(selectors, i, DescCandidate(dom, root, page));
      i := i + 1;
    }
    return [];
  }

  /** The description is empty exactly when no candidate gives any item;
      a non-empty one is the items of the first candidate that gives some,
      every earlier candidate giving none. */
  lemma DescHTMLEmptyIff(dom: Dom, root: Node, page: Page, selectors: seq<string>)
    ensures var r := DescHTML(dom, root, page, selectors);
      (r == [] <==> forall k :: 0 <= k < |selectors| ==> DescOfCandidate(dom, root, page, selectors[k]) == [])
      && (r != [] ==>
            exists k :: 0 <= k < |selectors| && r == DescOfCandidate(dom, root, page, selectors[k])
                     && forall i :: 0 <= i < k ==> DescOfCandidate(dom, root, page, selectors[i]) == [])
  {
    FirstHitSpec(selectors, DescCandidate(dom, root, page));
  }

  /** The node loop of parseDescHTML. */
  method DescsOf(dom: Dom, labelList: seq<string>, selection: seq<Node>, page: Page) returns (dataInfos: seq<string>)
    ensures dataInfos == FlatMap(selection, PerNode(dom, labelList, DescFn(dom, page)))
  {
    dataInfos := [];
    var k := 0;
    while k < |selection|
      invariant 0 <= k <= |selection|
      invariant dataInfos == FlatMap(selection[..k], PerNode(dom, labelList, DescFn(dom, page)))
    {
      FlatMapPrefix(selection, k, PerNode(dom, labelList, DescFn(dom, page)));
      var selc := RefineNode(dom, labelList, selection[k]);
      if selc.Some? {
        var html := Html(dom, selc.value);
        if |html| > 0 {
          var more := SplitDescHTMLParse(dom, html, page);
          dataInfos := dataInfos + more;
        }
      }
      k := k + 1;
    }
    assert selection[..|selection|] == selection;
  }

  // ----- goods -----

  function RowOf(urlMD5: string, text: string): string -> seq<string> {
    (image: string) => [urlMD5, text, image]
  }

  /** The goods rows of one node: [page MD5, text, image] for each of its
      images, or one row with an empty image when it has none. */
  function GoodRows(urlMD5: string, text: string, images: seq<string>): (rows: seq<seq<string>>)
    ensures |rows| == if |images| == 0 then 1 else |images|
    ensures forall k :: 0 <= k < |rows| ==>
      rows[k] == [urlMD5, text, if |images| == 0 then "" else images[k]]
  {
    if |images| == 0 then [[urlMD5, text, ""]] else Map(images, RowOf(urlMD5, text))
  }

  method MakeGoodRows(urlMD5: string, text: string, images: seq<string>) returns (rows: seq<seq<string>>)
    ensures rows == GoodRows(urlMD5, text, images)
  {
    rows := [];
    if |images| <= 0 {
      rows := rows + [[urlMD5, text, ""]];
    }
    var k := 0;
    while k < |images|
      invariant 0 <= k <= |images|
      invariant |images| > 0 ==> rows == Map(images[..k], RowOf(urlMD5, text))
      invariant |images| == 0 ==> rows == [[urlMD5, text, ""]]
    {
      MapPrefix(images, k, RowOf(urlMD5, text));
      rows := rows + [[urlMD5, text, images[k]]];
      k := k + 1;
    }
    assert images[..|images|] == images;
  }

  /** The goods rows of a selection with non-empty inner HTML. */
  function SelectionGoods(dom: Dom, page: Page, urlMD5: string, sel: seq<Node>): seq<seq<string>> {
    var h := Html(dom, sel);
    if h == "" then [] else GoodRows(urlMD5, Text(dom, sel), ImagePaths(dom, h, page))
  }

  function GoodFn(dom: Dom, page: Page, urlMD5: string): seq<Node> -> seq<seq<string>> {
    (sel: seq<Node>) => SelectionGoods(dom, page, urlMD5, sel)
  }

  function GoodsOfCandidate(dom: Dom, root: Node, page: Page, urlMD5: string, selector: string): seq<seq<string>> {
    Gather(dom, root, selector, GoodFn(dom, page, urlMD5))
  }

  function GoodCandidate(dom: Dom, root: Node, page: Page, urlMD5: string): string -> seq<seq<string>> {
    (selector: string) => GoodsOfCandidate(dom, root, page, urlMD5, selector)
  }

  /** The rows parseGoodHTML returns. */
  function GoodHTML(dom: Dom, root: Node, page: Page, md5: string -> string, selectors: seq<string>): seq<seq<string>> {
    FirstHit(selectors, GoodCandidate(dom, root, page, md5(page.url)))
  }

  /** parseGoodHTML */
  method ParseGoodHTML(dom: Dom, root: Node, page: Page, md5: string -> string, selectors: seq<string>)
    returns (goods: seq<seq<string>>)
    ensures goods == GoodHTML(dom, root, page, md5, selectors)
  {
    var urlMD5 := md5(page.url);
    var i := 0;
    while i < |selectors|
      invariant 0 <= i <= |selectors|
      invariant FirstHit(selectors[i..], GoodCandidate(dom, root, page, urlMD5)) == GoodHTML(dom, root, page, md5, selectors)
    {
      var labelList := Split(selectors[i], ListSeparate);
      var selection := IterativeHTML(dom, [root], labelList[0]);
      var dataInfos: seq<seq<string>> := [];
      if HtmlLegal(dom, selection) {
        dataInfos := GoodsOf(dom, labelList, selection, page, urlMD5);
      }
      if |dataInfos| > 0 {
        FirstHitHere(selectors, i, GoodCandidate(dom, root, page, urlMD5));
        return dataInfos;
      }
      FirstHitSkip(selectors, i, GoodCandidate(dom, root, page, urlMD5));
      i := i + 1;
    }
    return [];
  }

  /** The node loop of parseGoodHTML. */
  method GoodsOf(dom: Dom, labelList: seq<string>, selection: seq<Node>, page: Page, urlMD5: string)
    returns (dataInfos: seq<seq<string>>)
    ensures dataInfos == FlatMap(selection, PerNode(dom, labelList, GoodFn(dom, page, urlMD5)))
  {
    dataInfos := [];
    var k := 0;
    while k < |selection|
      invariant 0 <= k <= |selection|
      invariant dataInfos == FlatMap(selection[..k], PerNode(dom, labelList, GoodFn(dom, page, urlMD5)))
    {
      FlatMapPrefix(selection, k, PerNode(dom, labelList, GoodFn(dom, page, urlMD5)));
      var selc := RefineNode(dom, labelList, selection[k]);
      if selc.Some? {
        var html := Html(dom, selc.value);
        if |html| > 0 {
          var text := Text(dom, selc.value);
          var images := ReplaceImagePaths(dom, html, page);
          var rows := MakeGoodRows(urlMD5, text, images);
          dataInfos := dataInfos + rows;
        }
      }
      k := k + 1;
    }
    assert selection[..|selection|] == selection;
  }

  /** The rows of one selection have three columns and start with the
      page MD5. */
  lemma SelectionGoodsRows(dom: Dom, page: Page, urlMD5: string, sel: seq<Node>)
    ensures forall row :: row in SelectionGoods(dom, page, urlMD5, sel) ==> |row| == 3 && row[0] == urlMD5
  {
    var h := Html(dom, sel);
    if h != "" {
      var rows := GoodRows(urlMD5, Text(dom, sel), ImagePaths(dom, h, page));
      assert forall k :: 0 <= k < |rows| ==> |rows[k]| == 3 && rows[k][0] == urlMD5;
    }
  }

  /** Every goods row has three columns and starts with the MD5 of the page
      URL. */
  lemma GoodHTMLRows(dom: Dom, root: Node, page: Page, md5: string -> string, selectors: seq<string>)
    ensures forall row :: row in GoodHTML(dom, root, page, md5, selectors) ==>
      |row| == 3 && row[0] == md5(page.url)
  {
    var urlMD5 := md5(page.url);
    var P := (row: seq<string>) => |row| == 3 && row[0] == urlMD5;
    FirstHitSpec(selectors, GoodCandidate(dom, root, page, urlMD5));
    var r := GoodHTML(dom, root, page, md5, selectors);
    if r != [] {
      var k :| 0 <= k < |selectors| && r == GoodCandidate(dom, root, page, urlMD5)(selectors[k]);
      forall sel: seq<Node> ensures forall row :: row in GoodFn(dom, page, urlMD5)(sel) ==> P(row) {
        SelectionGoodsRows(dom, page, urlMD5, sel);
      }
      GatherFrom(dom, root, selectors[k], GoodFn(dom, page, urlMD5), P);
    }
  }
}
