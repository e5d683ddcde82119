/** The template registry of the current site service: every CSV row of
    the template file becomes a per-domain set of candidate-selector lists,
    keyed by the MD5 of the domain (`addSiteResource`), and the rows are fed
    to it one by one (the loop of `initSitesLabelMaps`). */
module Registry {
  import opened Wrappers
  import opened GoText

  /** The separator of candidate selectors inside one CSV field. */
  const CandidateSeparate: char := '+'

  /** LabelsParse: how a site's pages are read. `character` chooses the
      parser; every other field is a list of candidate selectors, tried in
      order. */
  datatype Labels = Labels(
    character: string,
    order: seq<string>,
    cover: seq<string>,
    title: seq<string>,
    price: seq<string>,
    desc: seq<string>,
    good: seq<string>,
    spec: seq<string>)

  /** The candidates of one CSV field: none for an empty field, otherwise
      the field split on '+'. */
  function FieldLabels(field: string): seq<string> {
    if field == "" then [] else Split(field, CandidateSeparate)
  }

  /** An empty field gives no candidate (not one empty candidate); a
      non-empty field gives '+'-free candidates that join back to it. */
  lemma FieldLabelsMeaning(field: string)
    ensures FieldLabels(field) == [] <==> field == ""
    ensures field != "" ==> Join(FieldLabels(field), [CandidateSeparate]) == field
    ensures forall k :: 0 <= k < |FieldLabels(field)| ==> CandidateSeparate !in FieldLabels(field)[k]
  {
    if field != "" {
      JoinOfSplit(field, CandidateSeparate);
    }
  }

  /** The template a row describes. The columns are domain, character,
      order, cover, title, price, desc, good, spec: the goods selectors come
      from column 7 and the specification selectors from column 8. */
  function LabelsOfRecord(record: seq<string>): Labels
    requires |record| >= 9
  {
    Labels(record[1], FieldLabels(record[2]), FieldLabels(record[3]), FieldLabels(record[4]),
           FieldLabels(record[5]), FieldLabels(record[6]), FieldLabels(record[7]), FieldLabels(record[8]))
  }

  /** A further row for a known domain: character and order are
      overwritten, every other list grows by the new row's candidates. */
  function Merge(stored: Labels, incoming: Labels): (m: Labels)
    ensures m.character == incoming.character && m.order == incoming.order
    ensures |m.cover| == |stored.cover| + |incoming.cover| && m.cover[..|stored.cover|] == stored.cover && m.cover[|stored.cover|..] == incoming.cover
    ensures |m.title| == |stored.title| + |incoming.title| && m.title[..|stored.title|] == stored.title && m.title[|stored.title|..] == incoming.title
    ensures |m.price| == |stored.price| + |incoming.price| && m.price[..|stored.price|] == stored.price && m.price[|stored.price|..] == incoming.price
    ensures |m.desc| == |stored.desc| + |incoming.desc| && m.desc[..|stored.desc|] == stored.desc && m.desc[|stored.desc|..] == incoming.desc
    ensures |m.good| == |stored.good| + |incoming.good| && m.good[..|stored.good|] == stored.good && m.good[|stored.good|..] == incoming.good
    ensures |m.spec| == |stored.spec| + |incoming.spec| && m.spec[..|stored.spec|] == stored.spec && m.spec[|stored.spec|..] == incoming.spec
  {
    Labels(incoming.character, incoming.order, stored.cover + incoming.cover, stored.title + incoming.title,
           stored.price + incoming.price, stored.desc + incoming.desc, stored.good + incoming.good,
           stored.spec + incoming.spec)
  }

  /** Merging is associative: feeding rows one by one gives what one merged
      row would give. */
  lemma MergeAssociative(a: Labels, b: Labels, c: Labels)
    ensures Merge(Merge(a, b), c) == Merge(a, Merge(b, c))
  {
    assert (a.cover + b.cover) + c.cover == a.cover + (b.cover + c.cover);
    assert (a.title + b.title) + c.title == a.title + (b.title + c.title);
    assert (a.price + b.price) + c.price == a.price + (b.price + c.price);
    assert (a.desc + b.desc) + c.desc == a.desc + (b.desc + c.desc);
    assert (a.good + b.good) + c.good == a.good + (b.good + c.good);
    assert (a.spec + b.spec) + c.spec == a.spec + (b.spec + c.spec);
  }

  /** The registry after a row of at least nine columns with a non-empty
      domain. */
  function Registered(maps: map<string, Labels>, record: seq<string>, md5: string -> string): map<string, Labels>
    requires |record| >= 9
  {
    var key := md5(record[0]);
    if key in maps then maps[key := Merge(maps[key], LabelsOfRecord(record))]
    else maps[key := LabelsOfRecord(record)]
  }

  /** A row touches only its own domain's entry: that entry is the incoming
      template when the domain was unknown, the merge otherwise, and every
      other domain keeps its template. */
  lemma RegisteredMeaning(maps: map<string, Labels>, record: seq<string>, md5: string -> string)
    requires |record| >= 9
    ensures var r := Registered(maps, record, md5); var key := md5(record[0]);
      key in r
      && (key !in maps ==> r[key] == LabelsOfRecord(record))
      && (key in maps ==> r[key] == Merge(maps[key], LabelsOfRecord(record)))
      && r.Keys == maps.Keys + {key}
      && forall k :: k in maps && k != key ==> r[k] == maps[k]
  {
  }

  /** Two rows for the same new domain leave the merge of their templates. */
  lemma RegisteredTwice(maps: map<string, Labels>, r1: seq<string>, r2: seq<string>, md5: string -> string)
    requires |r1| >= 9 && |r2| >= 9 && md5(r1[0]) == md5(r2[0]) && md5(r1[0]) !in maps
    ensures Registered(Registered(maps, r1, md5), r2, md5)[md5(r1[0])]
            == Merge(LabelsOfRecord(r1), LabelsOfRecord(r2))
  {
  }

  /** `for _, x := range src { dst = append(dst, x) }` */
  method AppendAll(dst: seq<string>, src: seq<string>) returns (r: seq<string>)
    ensures r == dst + src
  {
    r := dst;
    var i := 0;
    while i < |src|
      invariant 0 <= i <= |src|
      invariant r == dst + src[..i]
    {
      assert src[..i + 1] == src[..i] + [src[i]];
      r := r + [src[i]];
      i := i + 1;
    }
    assert src[..|src|] == src;
  }

  /** The site service's template map, SitesLabelMaps, keyed by the MD5
      of the domain. */
  class SiteService {
    var sitesLabelMaps: map<string, Labels>

    constructor ()
      ensures sitesLabelMaps == map[]
    {
      sitesLabelMaps := map[];
    }

    /** addSiteResource. A row that lacks one of the nine columns the
        function reads panics on the index, and an empty domain panics on
        purpose; either way the map is left as it was. */
    method AddSiteResource(record: seq<string>, md5: string -> string) returns (o: Outcome<()>)
      modifies this
      ensures (|record| < 9 || record[0] == "") <==> o.Panicked?
      ensures o.Panicked? ==> sitesLabelMaps == old(sitesLabelMaps)
      ensures o.Returned? ==> sitesLabelMaps == Registered(old(sitesLabelMaps), record, md5)
    {
      if |record| == 0 {
        return Panicked("index out of range");
      }
      var domain := record[0];
      if domain == "" {
        return Panicked("can not get domain str");
      }
      if |record| < 9 {
        return Panicked("index out of range");
      }
      var key := md5(domain);
      var incoming := LabelsOfRecord(record);
      if key in sitesLabelMaps {
        var lab := sitesLabelMaps[key];
        var cover := AppendAll(lab.cover, incoming.cover);
        var title := AppendAll(lab.title, incoming.title);
        var price := AppendAll(lab.price, incoming.price);
        var desc := AppendAll(lab.desc, incoming.desc);
        var good := AppendAll(lab.good, incoming.good);
        var spec := AppendAll(lab.spec, incoming.spec);
        lab := Labels(incoming.character, incoming.order, cover, title, price, desc, good, spec);
        sitesLabelMaps := sitesLabelMaps[key := lab];
        return Returned(());
      }
      sitesLabelMaps := sitesLabelMaps[key := incoming];
      return Returned(());
    }

    /** The row loop of initSitesLabelMaps, once the CSV text is decoded.
        A row with fewer than eleven columns is only logged, not skipped.
        After registering a row, the debug log reads column 9, so a row of
        exactly nine columns is registered and then panics. A panic ends
        the loading. */
    method LoadRecords(records: seq<seq<string>>, md5: string -> string) returns (o: Outcome<()>)
      modifies this
      ensures o.Returned? ==> forall k :: 0 <= k < |records| ==> |records[k]| >= 10 && records[k][0] != ""
      ensures o.Returned? ==> sitesLabelMaps == RegisteredAll(old(sitesLabelMaps), records, md5)
      ensures (forall k :: 0 <= k < |records| ==> |records[k]| >= 10 && records[k][0] != "") ==> o.Returned?
    {
      var i := 0;
      while i < |records|
        invariant 0 <= i <= |records|
        invariant forall k :: 0 <= k < i ==> |records[k]| >= 10 && records[k][0] != ""
        invariant sitesLabelMaps == RegisteredAll(old(sitesLabelMaps), records[..i], md5)
      {
        ghost var before := sitesLabelMaps;
        var r := AddSiteResource(records[i], md5);
        if r.Panicked? {
          return r;
        }
        if |records[i]| < 10 {
          return Panicked("index out of range");
        }
        RegisteredAllSnoc(old(sitesLabelMaps), records, i, md5);
        i := i + 1;
      }
      assert records[..|records|] == records;
      return Returned(());
    }
  }

  /** The registry after a sequence of well-formed rows, in order. */
  function RegisteredAll(maps: map<string, Labels>, records: seq<seq<string>>, md5: string -> string): map<string, Labels>
    requires forall k :: 0 <= k < |records| ==> |records[k]| >= 9
  {
    if |records| == 0 then maps
    else Registered(RegisteredAll(maps, records[..|records| - 1], md5), records[|records| - 1], md5)
  }

  lemma RegisteredAllSnoc(maps: map<string, Labels>, records: seq<seq<string>>, i: nat, md5: string -> string)
    requires i < |records| && forall k :: 0 <= k <= i ==> |records[k]| >= 9
    ensures RegisteredAll(maps, records[..i + 1], md5) == Registered(RegisteredAll(maps, records[..i], md5), records[i], md5)
  {
    var done := records[..i + 1];
    assert done[..i] == records[..i] && done[i] == records[i];
  }

  /** A domain that no row names keeps its template. */
  lemma {:induction false} RegisteredAllOthers(maps: map<string, Labels>, records: seq<seq<string>>, md5: string -> string, k: string)
    requires forall i :: 0 <= i < |records| ==> |records[i]| >= 9 && md5(records[i][0]) != k
    ensures k in RegisteredAll(maps, records, md5) <==> k in maps
    ensures k in maps ==> RegisteredAll(maps, records, md5)[k] == maps[k]
  {
    if |records| > 0 {
      var init := records[..|records| - 1];
      assert forall i :: 0 <= i < |init| ==> init[i] == records[i];
      RegisteredAllOthers(maps, init, md5, k);
    }
  }
}
