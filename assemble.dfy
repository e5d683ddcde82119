/** The common templates of the current site service: ParseInfoCommonHTML
    and ParseInfoCommonJSON fill a product record field by field, each field
    from its own list of candidate selectors. */
module Assemble {
  import opened Wrappers
  import opened Markup
  import opened JsonAny
  import opened Resource
  import opened Product
  import opened HtmlFields
  import opened HtmlSpec
  import opened JsonFields
  import opened JsonSpec
  import Registry

  const HtmlTemplate: string := "templateCommonHTML"
  const JsonTemplate: string := "templateCommonJson"

  // ----- templateCommonHTML -----

  /** The record ParseInfoCommonHTML returns, or the panic of its
      specification extractor. Cover, title, price and description come
      from the main document; the goods (stored as Set) and the
      specifications come from the order document when there is one. The
      page URL, not the order page's, keys and resolves both. */
  function CommonHTML(dom: Dom, page: Page, doc: Option<Node>, orderDoc: Option<Node>, labels: Registry.Labels,
                      md5: string -> string, toJson: seq<string> -> string): Outcome<ProInfo>
  {
    if doc.None? then Returned(Blank(page.url, HtmlTemplate))
    else
      var main := doc.value;
      var target := if orderDoc.Some? then orderDoc.value else main;
      match SpecHTML(dom, target, page, md5, labels.spec)
        case Panicked(why) => Panicked(why)
        case Returned(spec) =>
          Returned(ProInfo(page.url, HtmlTemplate, CoverHTML(dom, main, page, labels.cover),
                           TextHTML(dom, main, labels.title), TextHTML(dom, main, labels.price), "",
                           toJson(DescHTML(dom, main, page, labels.desc)),
                           GoodHTML(dom, target, page, md5, labels.good), [], spec))
  }

  /** ParseInfoCommonHTML. `toJson` serialises the description list. */
  method ParseInfoCommonHTML(dom: Dom, page: Page, doc: Option<Node>, orderDoc: Option<Node>, labels: Registry.Labels,
                             md5: string -> string, toJson: seq<string> -> string)
    returns (o: Outcome<ProInfo>)
    ensures o == CommonHTML(dom, page, doc, orderDoc, labels, md5, toJson)
  {
    var pi := Blank(page.url, HtmlTemplate);
    if doc.None? {
      return Returned(pi);
    }
    var main := doc.value;
    var cover := ParseCoverImagesHTML(dom, main, page, labels.cover);
    pi := pi.(cover := cover);
    var title := ParseTextHTML(dom, main, labels.title);
    pi := pi.(title := title);
    var price := ParseTextHTML(dom, main, labels.price);
    pi := pi.(price := price);
    var descs := ParseDescHTML(dom, main, page, labels.desc);
    pi := pi.(desc := toJson(descs));
    var goods, spec;
    if orderDoc.None? {
      goods := ParseGoodHTML(dom, main, page, md5, labels.good);
      spec := ParseSpecHTML(dom, main, page, md5, labels.spec);
    } else {
      goods := ParseGoodHTML(dom, orderDoc.value, page, md5, labels.good);
      spec := ParseSpecHTML(dom, orderDoc.value, page, md5, labels.spec);
    }
    pi := pi.(setMeal := goods);
    if spec.Panicked? {
      return Panicked(spec.reason);
    }
    pi := pi.(spec := spec.value);
    return Returned(pi);
  }

  /** Without a document the record holds only the page URL and the
      template name. */
  lemma CommonHTMLNilDoc(dom: Dom, page: Page, orderDoc: Option<Node>, labels: Registry.Labels,
                         md5: string -> string, toJson: seq<string> -> string)
    ensures var o := CommonHTML(dom, page, None, orderDoc, labels, md5, toJson);
      o.Returned? && o.value.pageURL == page.url && o.value.template == HtmlTemplate && IsBlank(o.value)
  {
  }

  /** With a document, the record panics exactly when the specification
      extractor panics on the document it reads; otherwise cover, title,
      price and description are drawn from the main document with their
      own candidate lists, the goods go to Set and the specifications to
      Spec from the order document when there is one, every goods row has
      three columns and every specification row five, all starting with
      the MD5 of the page URL, and Good and Currency stay empty. */
  lemma CommonHTMLFields(dom: Dom, page: Page, main: Node, orderDoc: Option<Node>, labels: Registry.Labels,
                         md5: string -> string, toJson: seq<string> -> string)
    ensures var o := CommonHTML(dom, page, Some(main), orderDoc, labels, md5, toJson);
      var target := if orderDoc.Some? then orderDoc.value else main;
      (o.Panicked? <==> SpecHTML(dom, target, page, md5, labels.spec).Panicked?)
      && (o.Returned? ==>
        var pi := o.value;
        pi.pageURL == page.url && pi.template == HtmlTemplate
        && pi.cover == CoverHTML(dom, main, page, labels.cover)
        && pi.title == TextHTML(dom, main, labels.title)
        && pi.price == TextHTML(dom, main, labels.price)
        && pi.desc == toJson(DescHTML(dom, main, page, labels.desc))
        && pi.setMeal == GoodHTML(dom, target, page, md5, labels.good)
        && pi.spec == SpecHTML(dom, target, page, md5, labels.spec).value
        && (forall row :: row in pi.setMeal ==> |row| == 3 && row[0] == md5(page.url))
        && (forall row :: row in pi.spec ==> |row| == 5 && row[0] == md5(page.url))
        && pi.good == [] && pi.currency == "")
  {
    var target := if orderDoc.Some? then orderDoc.value else main;
    GoodHTMLRows(dom, target, page, md5, labels.good);
    SpecFromRows(dom, target, page, md5(page.url), labels.spec);
  }

  /** The order document only changes Set and Spec, and an order document
      that is the main document itself changes nothing. */
  lemma CommonHTMLOrderDoc(dom: Dom, page: Page, main: Node, order1: Option<Node>, order2: Option<Node>,
                           labels: Registry.Labels, md5: string -> string, toJson: seq<string> -> string)
    ensures var o1, o2 := CommonHTML(dom, page, Some(main), order1, labels, md5, toJson),
                          CommonHTML(dom, page, Some(main), order2, labels, md5, toJson);
      o1.Returned? && o2.Returned? ==>
        o1.value.(setMeal := [], spec := []) == o2.value.(setMeal := [], spec := [])
    ensures CommonHTML(dom, page, Some(main), Some(main), labels, md5, toJson)
         == CommonHTML(dom, page, Some(main), None, labels, md5, toJson)
  {
  }

  // ----- templateCommonJSON -----

  /** The currency of a record, as the source computes it: parseCurrency of
      column 2 of the first goods row, or "" without goods. */
  function CurrencyAsWritten(good: seq<seq<string>>, parseCurrency: string -> string): string
    requires |good| > 0 ==> |good[0]| > 2
  {
    if |good| > 0 then parseCurrency(good[0][2]) else ""
  }

  /** The currency read from the text column of the first goods row. */
  function CurrencyIntended(good: seq<seq<string>>, parseCurrency: string -> string): string
    requires |good| > 0 ==> |good[0]| > 1
  {
    if |good| > 0 then parseCurrency(good[0][1]) else ""
  }

  /** The record ParseInfoCommonJSON returns. Every field comes from its
      own candidate list, all over the same body. The currency is read from
      the image column of the first goods row (CurrencyAsWritten). */
  function CommonJSON(dom: Dom, page: Page, body: Body, labels: Registry.Labels, md5: string -> string,
                      toJson: seq<string> -> string, parseCurrency: string -> string): ProInfo
  {
    if |body.bytes| == 0 then Blank(page.url, JsonTemplate)
    else
      var good := GoodJSON(body, page, md5, labels.good);
      GoodJSONImageEmpty(body, page, md5, labels.good);
      assert |good| > 0 ==> good[0] in good;
      ProInfo(page.url, JsonTemplate, CoverJSON(body, page, labels.cover), TitleJSON(body, labels.title),
              PriceJSON(dom, body, labels.price), CurrencyAsWritten(good, parseCurrency),
              toJson(DescJSON(dom, body, page, labels.desc)), [], good, SpecJSON(body, page, md5, labels.spec))
  }

  /** ParseInfoCommonJSON. A nil body and an empty one are alike: both have
      length 0. The currency is parsed from column 2 of the first goods
      row. */
  method ParseInfoCommonJSON(dom: Dom, page: Page, body: Body, labels: Registry.Labels, md5: string -> string,
                             toJson: seq<string> -> string, parseCurrency: string -> string)
    returns (pi: ProInfo)
    ensures pi == CommonJSON(dom, page, body, labels, md5, toJson, parseCurrency)
  {
    pi := Blank(page.url, JsonTemplate);
    if |body.bytes| == 0 {
      return;
    }
    var cover := ParseCoverImagesJSON(body, page, labels.cover);
    pi := pi.(cover := cover);
    var title := ParseTitleJSON(body, labels.title);
    pi := pi.(title := title);
    var price := ParsePriceJSON(dom, body, labels.price);
    pi := pi.(price := price);
    var descs := ParseDescJSON(dom, body, page, labels.desc);
    pi := pi.(desc := toJson(descs));
    var spec := ParseSpecJSON(body, page, md5, labels.spec);
    pi := pi.(spec := spec);
    var good := ParseGoodJSON(body, page, md5, labels.good);
    pi := pi.(good := good);
    if |pi.good| > 0 {
      GoodJSONImageEmpty(body, page, md5, labels.good);
      assert pi.good[0] in pi.good;
      pi := pi.(currency := parseCurrency(pi.good[0][2]));
    }
  }

  /** Without a body the record holds only the page URL and the template
      name. */
  lemma CommonJSONEmptyBody(dom: Dom, page: Page, body: Body, labels: Registry.Labels, md5: string -> string,
                            toJson: seq<string> -> string, parseCurrency: string -> string)
    requires |body.bytes| == 0
    ensures var pi := CommonJSON(dom, page, body, labels, md5, toJson, parseCurrency);
      pi.pageURL == page.url && pi.template == JsonTemplate && IsBlank(pi)
  {
  }

  /** With a body, each field is drawn from its own candidate list over
      that body and Set stays empty; the currency is "" without goods and
      parseCurrency("") with them, since column 2 of a JSON goods row is the
      empty image. */
  lemma CommonJSONFields(dom: Dom, page: Page, body: Body, labels: Registry.Labels, md5: string -> string,
                         toJson: seq<string> -> string, parseCurrency: string -> string)
    requires |body.bytes| > 0
    ensures var pi := CommonJSON(dom, page, body, labels, md5, toJson, parseCurrency);
      pi.pageURL == page.url && pi.template == JsonTemplate
      && pi.cover == CoverJSON(body, page, labels.cover)
      && pi.title == TitleJSON(body, labels.title)
      && pi.price == PriceJSON(dom, body, labels.price)
      && pi.desc == toJson(DescJSON(dom, body, page, labels.desc))
      && pi.spec == SpecJSON(body, page, md5, labels.spec)
      && pi.good == GoodJSON(body, page, md5, labels.good)
      && pi.setMeal == []
      && (pi.good == [] ==> pi.currency == "")
      && (pi.good != [] ==> pi.currency == parseCurrency(""))
  {
    GoodJSONImageEmpty(body, page, md5, labels.good);
    var good := GoodJSON(body, page, md5, labels.good);
    if good != [] {
      assert good[0] in good;
    }
  }

  /** The currency as written ignores the goods: column 2 of a JSON goods
      row is always the empty image, so any two pages with goods get the
      same currency, parseCurrency(""), whatever their goods say; and it
      differs from the currency of the goods text whenever that text parses
      to something else. */
  lemma CurrencyIgnoresGoods(page1: Page, body1: Body, page2: Page, body2: Body, md5: string -> string,
                             selectors: seq<string>, parseCurrency: string -> string)
    requires GoodJSON(body1, page1, md5, selectors) != [] && GoodJSON(body2, page2, md5, selectors) != []
    ensures var g1, g2 := GoodJSON(body1, page1, md5, selectors), GoodJSON(body2, page2, md5, selectors);
      |g1[0]| == 3 && |g2[0]| == 3
      && CurrencyAsWritten(g1, parseCurrency) == CurrencyAsWritten(g2, parseCurrency) == parseCurrency("")
      && (parseCurrency(g1[0][1]) != parseCurrency("") ==>
            CurrencyAsWritten(g1, parseCurrency) != CurrencyIntended(g1, parseCurrency))
  {
    var g1, g2 := GoodJSON(body1, page1, md5, selectors), GoodJSON(body2, page2, md5, selectors);
    GoodJSONImageEmpty(body1, page1, md5, selectors);
    GoodJSONImageEmpty(body2, page2, md5, selectors);
    assert g1[0] in g1 && g2[0] in g2;
  }

  /** Read from the text column, the currency of the JSON goods is
      parseCurrency of the rendering of the first value that the winning
      goods candidate reads. */
  lemma CurrencyIntendedReadsText(body: Body, page: Page, md5: string -> string, selectors: seq<string>,
                                  parseCurrency: string -> string)
    ensures var good := GoodJSON(body, page, md5, selectors);
      (|good| > 0 ==> |good[0]| > 1)
      && (good == [] ==> CurrencyIntended(good, parseCurrency) == "")
      && (good != [] ==>
            exists k :: 0 <= k < |selectors| && |Values(body, selectors[k])| > 0
                     && CurrencyIntended(good, parseCurrency) == parseCurrency(ToString(Values(body, selectors[k])[0])))
  {
    GoodJSONRows(body, page, md5, selectors);
  }
}
