/** Resource URL normalisation (`GetResourceURL`) and media file naming
    (`generateImageName`). Both the current and the older site service carry
    identical copies of these two functions. */
module Resource {
  import opened GoText

  /** A page URL together with the scheme and host that url.Parse finds in
      it. */
  datatype Page = Page(url: string, scheme: string, host: string)

  /** The absolute form of a source of at least six characters, before
      clean-up: kept when it starts with "http", given the "http:" scheme
      when protocol-relative, rooted at the page's origin when it starts
      with "/", and otherwise appended to the page URL as it stands, with no
      separator. */
  function Absolute(src: string, page: Page): string
    requires |src| >= 6
  {
    if src[..4] == "http" then src
    else if src[..2] == "//" then "http:" + src
    else if src[..1] == "/" then page.scheme + "://" + page.host + src
    else page.url + src
  }

  /** Everything before the first '?'. */
  function CutQuery(u: string): (r: string)
    ensures '?' !in r
    ensures '?' !in u ==> r == u
    ensures |r| <= |u| && r == u[..|r|]
  {
    var i := IndexOf(u, '?');
    if i < 0 then u else u[..i]
  }

  /** The clean-up GetResourceURL applies after the prefix rule: carriage
      returns and line feeds removed, then the query cut off. */
  function CleanURL(u: string): string {
    CutQuery(RemoveAll(RemoveAll(u, '\r'), '\n'))
  }

  /** GetResourceURL(imageSrc, pageURL). Sources shorter than six
      characters give "". The result never holds a carriage return, a line
      feed or a '?'. */
  function GetResourceURL(src: string, page: Page): (r: string)
    ensures |src| < 6 ==> r == ""
    ensures '\r' !in r && '\n' !in r && '?' !in r
  {
    if |src| < 6 then ""
    else
      var r := CleanURL(Absolute(src, page));
      assert '\r' !in RemoveAll(RemoveAll(Absolute(src, page), '\r'), '\n') by {
        var u := RemoveAll(Absolute(src, page), '\r');
        RemoveAllCounts(u, '\n');
        assert multiset(RemoveAll(u, '\n'))['\r'] == multiset(u)['\r'] == 0;
      }
      r
  }

  /** The four prefix rules of GetResourceURL, each followed by the same
      clean-up. */
  lemma GetResourceURLCases(src: string, page: Page)
    requires |src| >= 6
    ensures HasPrefix(src, "http") ==> GetResourceURL(src, page) == CleanURL(src)
    ensures !HasPrefix(src, "http") && HasPrefix(src, "//") ==>
      GetResourceURL(src, page) == CleanURL("http:" + src)
    ensures !HasPrefix(src, "http") && !HasPrefix(src, "//") && HasPrefix(src, "/") ==>
      GetResourceURL(src, page) == CleanURL(page.scheme + "://" + page.host + src)
    ensures !HasPrefix(src, "http") && !HasPrefix(src, "/") ==>
      GetResourceURL(src, page) == CleanURL(page.url + src)
  {
    assert GetResourceURL(src, page) == CleanURL(Absolute(src, page));
    assert HasPrefix(src, "http") <==> src[..4] == "http";
    assert HasPrefix(src, "//") <==> src[..2] == "//";
    assert HasPrefix(src, "/") <==> src[..1] == "/";
    assert src[..2] == "//" ==> src[..1] == "/" by {
      assert src[..2][..1] == src[..1];
    }
  }

  /** The query is cut after line breaks are removed: the result is the
      cleaned absolute URL up to its first '?', and all of it when it has
      none. */
  lemma GetResourceURLCutsAtQuery(src: string, page: Page)
    requires |src| >= 6
    ensures var u := RemoveAll(RemoveAll(Absolute(src, page), '\r'), '\n');
      GetResourceURL(src, page) == u[..|GetResourceURL(src, page)|]
      && ('?' in u ==> |GetResourceURL(src, page)| < |u| && u[|GetResourceURL(src, page)|] == '?')
      && ('?' !in u ==> GetResourceURL(src, page) == u)
  {
  }

  /** Normalising a normalised absolute URL changes nothing. */
  lemma GetResourceURLIdempotent(src: string, page: Page)
    requires |GetResourceURL(src, page)| >= 6 && HasPrefix(GetResourceURL(src, page), "http")
    ensures GetResourceURL(GetResourceURL(src, page), page) == GetResourceURL(src, page)
  {
    var r := GetResourceURL(src, page);
    GetResourceURLCases(r, page);
    assert RemoveAll(r, '\r') == r;
    assert RemoveAll(r, '\n') == r;
  }

  /** A relative source on a page whose URL has a query string is cut at
      the page's own '?': the source is lost entirely. */
  lemma GetResourceURLPageQuery(src: string, page: Page)
    requires |src| >= 6 && !HasPrefix(src, "http") && !HasPrefix(src, "/")
    requires '\r' !in page.url && '\n' !in page.url && '?' in page.url
    requires '\r' !in src && '\n' !in src
    ensures GetResourceURL(src, page) == CutQuery(page.url)
  {
    GetResourceURLCases(src, page);
    var u := page.url + src;
    assert '\r' !in u && '\n' !in u;
    assert RemoveAll(RemoveAll(u, '\r'), '\n') == u;
    IndexOfConcat(page.url, src, '?');
  }

  /** The suffix generateImageName keeps: ".gif", ".png" or ".mp4" when the
      text from the last '.' is exactly that, ".jpg" in every other case
      (no '.' at all included). */
  function Extension(url: string): string {
    var i := LastIndexOf(url, '.');
    var suffix := if i >= 0 then url[i..] else "";
    if suffix == ".gif" then ".gif"
    else if suffix == ".png" then ".png"
    else if suffix == ".mp4" then ".mp4"
    else ".jpg"
  }

  /** generateImageName(url, rename): a non-empty rename is the name;
      otherwise the MD5 of the URL followed by its extension. */
  function GenerateImageName(url: string, rename: string, md5: string -> string): (name: string)
    ensures rename != "" ==> name == rename
    ensures rename == "" ==>
      exists ext :: ext in {".gif", ".png", ".mp4", ".jpg"} && name == md5(url) + ext
    ensures rename == "" ==> name == md5(url) + Extension(url)
  {
    if rename != "" then rename
    else
      var ext := Extension(url);
      assert ext in {".gif", ".png", ".mp4", ".jpg"};
      md5(url) + ext
  }

  /** A four-character suffix that starts with the only '.' it holds is what
      the last '.' of a URL ending in it starts. */
  lemma SuffixFromLastDot(url: string, ext: string)
    requires |ext| == 4 && ext[0] == '.' && '.' !in ext[1..]
    ensures HasSuffix(url, ext) <==> LastIndexOf(url, '.') >= 0 && url[LastIndexOf(url, '.')..] == ext
  {
    var i := LastIndexOf(url, '.');
    if HasSuffix(url, ext) {
      var j := |url| - 4;
      assert url[j..] == ext;
      assert url[j] == '.';
      assert forall k :: j < k < |url| ==> url[k] == ext[k - j] && ext[k - j] == ext[1..][k - j - 1];
      assert i == j;
    }
  }

  /** The name keeps ".gif", ".png" or ".mp4" exactly when the URL ends in
      it, and gets ".jpg" exactly when it ends in none of them. */
  lemma ExtensionIff(url: string)
    ensures Extension(url) == ".gif" <==> HasSuffix(url, ".gif")
    ensures Extension(url) == ".png" <==> HasSuffix(url, ".png")
    ensures Extension(url) == ".mp4" <==> HasSuffix(url, ".mp4")
    ensures Extension(url) == ".jpg" <==>
      !HasSuffix(url, ".gif") && !HasSuffix(url, ".png") && !HasSuffix(url, ".mp4")
  {
    SuffixFromLastDot(url, ".gif");
    SuffixFromLastDot(url, ".png");
    SuffixFromLastDot(url, ".mp4");
  }
}
