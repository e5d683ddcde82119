/** The resource service's product-page rules: the validity test of an
    extracted record, the discovery of the order page a product page links
    to, the choice of documents to extract from, and the lookup of one
    field of a stored record. */
module ResTackle {
  import opened Wrappers
  import opened GoText
  import opened Seqs
  import opened Markup
  import opened Cascade
  import opened Resource
  import opened Product
  import opened Assemble
  import opened HtmlFields
  import opened JsonFields
  import opened JsonAny
  import Registry

  // ----- checkResLegal -----

  /** checkResLegal: a record is worth keeping when it exists, has a cover
      and has a description. */
  function CheckResLegal(pi: Option<ProInfo>): (legal: bool)
    ensures legal <==> pi.Some? && pi.value.cover != [] && pi.value.desc != ""
  {
    pi.Some? && |pi.value.cover| > 0 && |pi.value.desc| > 0
  }

  /** A record assembled from no document, or from an empty body, is never
      legal; one assembled from a document is legal exactly when a cover
      candidate matched and the serialised description is non-empty. */
  lemma AssembledLegality(dom: Dom, page: Page, doc: Option<Node>, orderDoc: Option<Node>, body: Body,
                          labels: Registry.Labels, md5: string -> string, toJson: seq<string> -> string,
                          parseCurrency: string -> string)
    ensures doc.None? ==> !CheckResLegal(Some(CommonHTML(dom, page, doc, orderDoc, labels, md5, toJson).value))
    ensures |body.bytes| == 0 ==> !CheckResLegal(Some(CommonJSON(dom, page, body, labels, md5, toJson, parseCurrency)))
    ensures doc.Some? && CommonHTML(dom, page, doc, orderDoc, labels, md5, toJson).Returned? ==>
      (CheckResLegal(Some(CommonHTML(dom, page, doc, orderDoc, labels, md5, toJson).value)) <==>
         CoverHTML(dom, doc.value, page, labels.cover) != [] && toJson(DescHTML(dom, doc.value, page, labels.desc)) != "")
    ensures |body.bytes| > 0 ==>
      (CheckResLegal(Some(CommonJSON(dom, page, body, labels, md5, toJson, parseCurrency))) <==>
         CoverJSON(body, page, labels.cover) != [] && toJson(DescJSON(dom, body, page, labels.desc)) != "")
  {
    if doc.Some? {
      CommonHTMLFields(dom, page, doc.value, orderDoc, labels, md5, toJson);
    }
    if |body.bytes| > 0 {
      CommonJSONFields(dom, page, body, labels, md5, toJson, parseCurrency);
    }
  }

  /** The description is a serialisation: when the serialiser never gives
      the empty string (a JSON list is at least "null" or "[]"), the
      description test always passes and legality of an HTML record rests
      on its cover alone, even when no description candidate matched. */
  lemma LegalityRestsOnCover(dom: Dom, page: Page, main: Node, orderDoc: Option<Node>,
                             labels: Registry.Labels, md5: string -> string, toJson: seq<string> -> string)
    requires forall l :: toJson(l) != ""
    requires CommonHTML(dom, page, Some(main), orderDoc, labels, md5, toJson).Returned?
    ensures CheckResLegal(Some(CommonHTML(dom, page, Some(main), orderDoc, labels, md5, toJson).value))
        <==> CoverHTML(dom, main, page, labels.cover) != []
  {
    CommonHTMLFields(dom, page, main, orderDoc, labels, md5, toJson);
  }

  // ----- getOrderHref -----

  /** The selection an order label names: its '|'-separated labels found
      in turn from the document, with no legality test. */
  function OrderSelection(dom: Dom, root: Node, orderLabel: string): seq<Node> {
    ChainBy(HtmlStep(dom), [root], Split(orderLabel, LabelSeparate))
  }

  /** The href the Each loop leaves: the loop reads the attribute of the
      whole selection, that is of its first node, once per node. */
  function HrefOf(dom: Dom, sel: seq<Node>): string {
    if |sel| == 0 then "" else AttrValue(dom.attr(sel[0], "href"))
  }

  /** A found href, made absolute by the page URL up to its last '/' when
      that '/' is past the first character. */
  function JoinHref(pageURL: string, href: string): string {
    if |href| == 0 then ""
    else
      var index := LastIndexOf(pageURL, '/');
      if index > 0 then pageURL[..index] + href else href
  }

  /** The URL getOrderHref returns. */
  function OrderHref(dom: Dom, root: Node, pageURL: string, orderLabel: string): string {
    JoinHref(pageURL, HrefOf(dom, OrderSelection(dom, root, orderLabel)))
  }

  /** getOrderHref. */
  method GetOrderHref(dom: Dom, root: Node, pageURL: string, orderLabel: string) returns (r: string)
    ensures r == OrderHref(dom, root, pageURL, orderLabel)
  {
    var selectors := Split(orderLabel, LabelSeparate);
    var selection := Find(dom, [root], selectors[0]);
    var i := 1;
    while i < |selectors|
      invariant 1 <= i <= |selectors|
      invariant ChainBy(HtmlStep(dom), selection, selectors[i..]) == OrderSelection(dom, root, orderLabel)
    {
      assert selectors[i..][0] == selectors[i] && selectors[i..][1..] == selectors[i + 1..];
      selection := Find(dom, selection, selectors[i]);
      i := i + 1;
    }
    var href := "";
    var k := 0;
    while k < |selection|
      invariant 0 <= k <= |selection|
      invariant href == if k == 0 then "" else HrefOf(dom, selection)
    {
      href := AttrValue(Attr(dom, selection, "href"));
      k := k + 1;
    }
    if |href| > 0 {
      var index := LastIndexOf(pageURL, '/');
      if index > 0 {
        return pageURL[..index] + href;
      }
      return href;
    }
    return "";
  }

  /** getOrderHref gives "" exactly when the first node the label selects
      has no (or an empty) href, or the label selects nothing. Otherwise
      the result ends with the href, preceded by the page URL cut before
      its last '/' when that '/' is at an index above 0, and by nothing
      otherwise. The href comes from the first selected node whichever
      node is visited. */
  lemma OrderHrefMeaning(dom: Dom, root: Node, pageURL: string, orderLabel: string)
    ensures var sel := OrderSelection(dom, root, orderLabel);
      var href := if |sel| == 0 then "" else AttrValue(dom.attr(sel[0], "href"));
      var r := OrderHref(dom, root, pageURL, orderLabel);
      var index := LastIndexOf(pageURL, '/');
      (r == "" <==> href == "")
      && (href != "" && index > 0 ==> r == pageURL[..index] + href && '/' !in pageURL[index + 1..])
      && (href != "" && index <= 0 ==> r == href)
  {
    var index := LastIndexOf(pageURL, '/');
    if index > 0 {
      var tail := pageURL[index + 1..];
      assert forall k :: 0 <= k < |tail| ==> tail[k] == pageURL[index + 1 + k];
    }
  }

  /** An order URL built on a page URL keeps a '/' when the page URL has
      one before its last: "https://shop/p/1" gives "https://shop/p" + href. */
  lemma OrderHrefKeepsPath(pageURL: string, href: string, j: nat)
    requires href != "" && j < |pageURL| && pageURL[j] == '/' && j < LastIndexOf(pageURL, '/')
    ensures '/' in JoinHref(pageURL, href)
  {
    var index := LastIndexOf(pageURL, '/');
    assert JoinHref(pageURL, href)[j] == '/';
  }

  // ----- requestDocHTTP -----

  /** What one order label contributes to the search: nothing for an empty
      label, its href otherwise. */
  function LabelHref(dom: Dom, root: Node, pageURL: string): string -> string {
    (orderLabel: string) => if orderLabel == "" then "" else OrderHref(dom, root, pageURL, orderLabel)
  }

  /** The order URL of requestDocHTTP's loop: empty labels are skipped and
      the first label giving a non-empty URL wins. */
  function OrderURL(dom: Dom, root: Node, pageURL: string, orderLabels: seq<string>): string {
    FirstHit(orderLabels, LabelHref(dom, root, pageURL))
  }

  /** The loop over order labels, with its early break. */
  method FindOrderURL(dom: Dom, root: Node, pageURL: string, orderLabels: seq<string>) returns (orderURL: string)
    ensures orderURL == OrderURL(dom, root, pageURL, orderLabels)
  {
    orderURL := "";
    var i := 0;
    while i < |orderLabels|
      invariant 0 <= i <= |orderLabels|
      invariant FirstHit(orderLabels[i..], LabelHref(dom, root, pageURL)) == OrderURL(dom, root, pageURL, orderLabels)
    {
      var orderLabel := orderLabels[i];
      if |orderLabel| == 0 {
        FirstHitSkip(orderLabels, i, LabelHref(dom, root, pageURL));
        i := i + 1;
        continue;
      }
      orderURL := GetOrderHref(dom, root, pageURL, orderLabel);
      if |orderURL| > 0 {
        FirstHitHere(orderLabels, i, LabelHref(dom, root, pageURL));
        return;
      }
      FirstHitSkip(orderLabels, i, LabelHref(dom, root, pageURL));
      i := i + 1;
    }
    orderURL := "";
  }

  /** The order URL, when there is one, is the URL of a non-empty label all
      of whose predecessors are empty or give no URL; when there is none,
      every label is empty or gives no URL. */
  lemma OrderURLMeaning(dom: Dom, root: Node, pageURL: string, orderLabels: seq<string>)
    ensures var u := OrderURL(dom, root, pageURL, orderLabels);
      (u != "" ==> exists k :: 0 <= k < |orderLabels| && orderLabels[k] != ""
                     && u == OrderHref(dom, root, pageURL, orderLabels[k])
                     && forall m :: 0 <= m < k ==> LabelHref(dom, root, pageURL)(orderLabels[m]) == "")
      && (u == "" ==> forall m :: 0 <= m < |orderLabels| ==>
                        orderLabels[m] == "" || OrderHref(dom, root, pageURL, orderLabels[m]) == "")
  {
    FirstHitSpec(orderLabels, LabelHref(dom, root, pageURL));
    var u := OrderURL(dom, root, pageURL, orderLabels);
    if u != "" {
      var k :| 0 <= k < |orderLabels| && u == LabelHref(dom, root, pageURL)(orderLabels[k])
               && forall m :: 0 <= m < k ==> LabelHref(dom, root, pageURL)(orderLabels[m]) == [];
      assert orderLabels[k] != "";
    } else {
      forall m | 0 <= m < |orderLabels|
        ensures orderLabels[m] == "" || OrderHref(dom, root, pageURL, orderLabels[m]) == ""
      {
        assert LabelHref(dom, root, pageURL)(orderLabels[m]) == [];
      }
    }
  }

  /** The (doc, orderDoc) pair requestDocHTTP returns, None standing for
      nil. */
  datatype Docs = Docs(doc: Option<Node>, orderDoc: Option<Node>)

  /** The pair requestDocHTTP returns when `fetch` is the HTTP GET of a
      page (None when it fails). */
  function RequestDocs(dom: Dom, fetch: string -> Option<Node>, pageURL: string, orderLabels: seq<string>): Docs {
    var doc := fetch(pageURL);
    if doc.None? then Docs(None, None)
    else
      var orderURL := OrderURL(dom, doc.value, pageURL, orderLabels);
      if |orderLabels| > 0 && (orderURL == "" || '/' !in orderURL) then Docs(None, None)
      else if orderURL == "" then Docs(doc, None)
      else
        var orderDoc := fetch(orderURL);
        if orderDoc.None? then Docs(doc, None) else Docs(doc, orderDoc)
  }

  /** requestDocHTTP. */
  method RequestDocHTTP(dom: Dom, fetch: string -> Option<Node>, pageURL: string, orderLabels: seq<string>)
    returns (d: Docs)
    ensures d == RequestDocs(dom, fetch, pageURL, orderLabels)
  {
    var doc := fetch(pageURL);
    if doc.None? {
      return Docs(None, None);
    }
    var orderURL := FindOrderURL(dom, doc.value, pageURL, orderLabels);
    if |orderLabels| > 0 {
      if |orderURL| == 0 {
        return Docs(None, None);
      } else if '/' !in orderURL {
        return Docs(None, None);
      }
    }
    if |orderURL| == 0 {
      return Docs(doc, None);
    }
    var orderDoc := fetch(orderURL);
    if orderDoc.None? {
      return Docs(doc, None);
    }
    return Docs(doc, orderDoc);
  }

  /** The outcomes of requestDocHTTP. A failed page fetch gives (nil, nil).
      Without order labels the page alone is used. With order labels, a
      missing order URL or one without '/' gives (nil, nil), so the caller
      falls back to the web driver; otherwise the page comes with the order
      page, nil when its fetch fails. */
  lemma RequestDocsCases(dom: Dom, fetch: string -> Option<Node>, pageURL: string, orderLabels: seq<string>)
    ensures var d := RequestDocs(dom, fetch, pageURL, orderLabels);
      var doc := fetch(pageURL);
      (doc.None? ==> d == Docs(None, None))
      && (doc.Some? && |orderLabels| == 0 ==> d == Docs(doc, None))
      && (doc.Some? && |orderLabels| > 0 ==>
            var u := OrderURL(dom, doc.value, pageURL, orderLabels);
            (u == "" || '/' !in u ==> d == Docs(None, None))
            && (u != "" && '/' in u ==> d == Docs(doc, fetch(u))))
  {
  }

  /** An order document is only ever fetched for configured order labels
      and comes with the main document. */
  lemma OrderDocNeedsLabels(dom: Dom, fetch: string -> Option<Node>, pageURL: string, orderLabels: seq<string>)
    ensures var d := RequestDocs(dom, fetch, pageURL, orderLabels);
      d.orderDoc.Some? ==> |orderLabels| > 0 && d.doc.Some? && d.doc == fetch(pageURL)
                           && d.orderDoc == fetch(OrderURL(dom, d.doc.value, pageURL, orderLabels))
    ensures var d := RequestDocs(dom, fetch, pageURL, orderLabels);
      d.doc.None? <==>
        (fetch(pageURL).None? ||
         (|orderLabels| > 0 && var u := OrderURL(dom, fetch(pageURL).value, pageURL, orderLabels); u == "" || '/' !in u))
  {
  }

  // ----- getSpecifiedRes -----

  /** The `interface{}` getSpecifiedRes returns. */
  datatype Res = ResList(items: seq<string>) | ResText(text: string) | ResRows(rows: seq<seq<string>>)

  /** getSpecifiedRes. `toJson` serialises the whole record. */
  function GetSpecifiedRes(pi: ProInfo, resTitle: string, toJson: ProInfo -> string): (r: Res)
    ensures resTitle == "cover" ==> r == ResList(pi.cover)
    ensures resTitle == "title" ==> r == ResText(pi.title)
    ensures resTitle == "currency" ==> r == ResText(pi.currency)
    ensures resTitle == "price" ==> r == ResText(pi.price)
    ensures resTitle == "desc" ==> r == ResText(pi.desc)
    ensures resTitle == "good" ==> r == ResRows(pi.good)
    ensures resTitle == "spec" ==> r == ResRows(pi.spec)
    ensures resTitle !in FieldTitles ==> r == ResText(toJson(pi))
  {
    match resTitle
      case "cover" => ResList(pi.cover)
      case "title" => ResText(pi.title)
      case "currency" => ResText(pi.currency)
      case "price" => ResText(pi.price)
      case "desc" => ResText(pi.desc)
      case "good" => ResRows(pi.good)
      case "spec" => ResRows(pi.spec)
      case _ => ResText(toJson(pi))
  }

  /** The titles that name a single field. */
  const FieldTitles: set<string> := {"cover", "title", "currency", "price", "desc", "good", "spec"}

  /** Only a title outside the seven field names reaches the serialiser;
      the named fields are served as they are stored, and two records that
      agree on the named field give the same answer. Set, the HTML goods,
      has no title of its own. */
  lemma SpecifiedResServesFields(pi: ProInfo, other: ProInfo, resTitle: string,
                                 toJson1: ProInfo -> string, toJson2: ProInfo -> string)
    requires resTitle in FieldTitles
    requires pi.(setMeal := [], pageURL := "", template := "") == other.(setMeal := [], pageURL := "", template := "")
    ensures GetSpecifiedRes(pi, resTitle, toJson1) == GetSpecifiedRes(other, resTitle, toJson2)
  {
  }
}
