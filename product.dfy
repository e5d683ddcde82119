/** The product record (ProInfo) the assemblers fill and the resource
    service checks and serves. */
module Product {

  /** ProInfo. Goods and specification rows are lists of columns; the HTML
      assembler puts its goods rows in `setMeal` (Set), the JSON one in `good`. */
  datatype ProInfo = ProInfo(
    pageURL: string,
    template: string,
    cover: seq<string>,
    title: string,
    price: string,
    currency: string,
    desc: string,
    setMeal: seq<seq<string>>,
    good: seq<seq<string>>,
    spec: seq<seq<string>>)

  /** A record carrying only its page URL and template name, every other
      field at its zero value. */
  function Blank(pageURL: string, template: string): ProInfo {
    ProInfo(pageURL, template, [], "", "", "", "", [], [], [])
  }

  /** Nothing was extracted into the record. */
  predicate IsBlank(pi: ProInfo) {
    pi.cover == [] && pi.title == "" && pi.price == "" && pi.currency == "" && pi.desc == ""
    && pi.setMeal == [] && pi.good == [] && pi.spec == []
  }
}
