/** parseSpecJSON and its recursive walker iterativeLoopJSON. A selector is
    a chain of levels separated by ';' ending in a leaf. Each level is a
    cascade that must reach a legal value, optionally wrapped as
    "{titles:values}" (titles give the style key, values the cascade), and
    marked with a trailing '^' when its positions number the goods. The walk
    descends into every element of each level; at the leaf it emits one row
    [page MD5, style key, "good_<g>-num_<n>", rendered values ...], the
    values being the '|' cascades listed, separated by ',', inside "(...)". */
module JsonSpec {
  import opened GoText
  import opened Seqs
  import opened JsonAny
  import opened Cascade
  import opened Resource
  import opened Patterns
  import opened SpecKeys

  // ----- the leaf -----

  /** The cascades a leaf lists inside "(...)", or none without a group. */
  function StyleValues(leaf: string): seq<string> {
    match ValueGroup(leaf)
      case Some(g) => Split(g, ',')
      case None => []
  }

  function LeafValue(j: Json, cascade: string): string {
    ToString(CascadeJSON(j, Split(cascade, LabelSeparate)))
  }

  function LeafValueFn(j: Json): string -> string {
    (cascade: string) => LeafValue(j, cascade)
  }

  /** The row a leaf emits: three identifying columns, then one rendered
      value per listed cascade, each read from the leaf's own element. */
  function LeafRow(j: Json, leaf: string, urlMD5: string, styleKey: string, goodID: int, numID: int): seq<string> {
    [urlMD5, styleKey, SpecKey(goodID, numID)] + Map(StyleValues(leaf), LeafValueFn(j))
  }

  /** A leaf row holds the page MD5, the style key and the key of its
      positions, then exactly one rendering per listed cascade, in order. */
  lemma LeafRowShape(j: Json, leaf: string, urlMD5: string, styleKey: string, goodID: int, numID: int)
    ensures var row := LeafRow(j, leaf, urlMD5, styleKey, goodID, numID);
      var cascades := StyleValues(leaf);
      |row| == 3 + |cascades| && row[0] == urlMD5 && row[1] == styleKey && row[2] == SpecKey(goodID, numID)
      && forall k :: 0 <= k < |cascades| ==> row[3 + k] == LeafValue(j, cascades[k])
  {
    var cascades := StyleValues(leaf);
    var f := LeafValueFn(j);
    var row := [urlMD5, styleKey, SpecKey(goodID, numID)] + Map(cascades, f);
    HeadThenMap([urlMD5, styleKey, SpecKey(goodID, numID)], cascades, f);
    forall k | 0 <= k < |cascades| ensures row[3 + k] == LeafValue(j, cascades[k]) {
      assert row[3 + k] == f(cascades[k]);
    }
  }

  /** A leaf row starts with the three identifying columns. */
  lemma LeafRowStarts(j: Json, leaf: string, urlMD5: string, styleKey: string, goodID: int, numID: int)
    ensures StartsRow(urlMD5, LeafRow(j, leaf, urlMD5, styleKey, goodID, numID))
  {
    var row := LeafRow(j, leaf, urlMD5, styleKey, goodID, numID);
    assert row[0] == urlMD5;
  }

  /** The leaf branch of iterativeLoopJSON. */
  method LeafRowOf(j: Json, leaf: string, urlMD5: string, styleKey: string, goodID: int, numID: int)
    returns (data: seq<string>)
    ensures data == LeafRow(j, leaf, urlMD5, styleKey, goodID, numID)
  {
    var styleValues: seq<string> := [];
    var subGV := ValueGroup(leaf);
    if subGV.Some? {
      styleValues := Split(subGV.value, ',');
    }
    var values := RenderValues(j, styleValues);
    data := [urlMD5, styleKey, "good_" + Itoa(goodID) + "-num_" + Itoa(numID)] + values;
  }

  /** The loop over the listed cascades of a leaf. */
  method RenderValues(j: Json, styleValues: seq<string>) returns (values: seq<string>)
    ensures values == Map(styleValues, LeafValueFn(j))
  {
    values := [];
    var i := 0;
    while i < |styleValues|
      invariant 0 <= i <= |styleValues|
      invariant values == Map(styleValues[..i], LeafValueFn(j))
    {
      MapPrefix(styleValues, i, LeafValueFn(j));
      var it := IterativeJSON(j, Split(styleValues[i], LabelSeparate));
      values := values + [ToString(it)];
      i := i + 1;
    }
    assert styleValues[..|styleValues|] == styleValues;
  }

  // ----- a level -----

  /** What the part of a selector before its first ';' says: the cascade of
      the level, whether it numbers the goods, and the style key below it. */
  datatype Level = Level(iterSelector: string, mapping: bool, styleKey: string)

  /** A level part ending in '^' numbers the goods, and every '^' is then
      removed. A "{titles:values}" group whose split on ':' has two or more
      parts replaces the cascade by "values" and, when the cascade "titles"
      is legal, the style key by its rendering; any other group is left in
      the cascade. */
  function LevelOf(j: Json, part: string, styleKey: string): Level {
    var mapping := HasSuffix(part, "^");
    var sel := if mapping then RemoveAll(part, '^') else part;
    match StyleGroup(sel)
      case None => Level(sel, mapping, styleKey)
      case Some(g) =>
        var values := Split(g, ':');
        if |values| > 1 then
          var it := CascadeJSON(j, Split(values[0], LabelSeparate));
          Level(values[1], mapping, if JsonLegal(it) then ToString(it) else styleKey)
        else Level(sel, mapping, styleKey)
  }

  /** The level branch of iterativeLoopJSON, before the descent. */
  method LevelSetup(j: Json, part: string, styleKey: string) returns (lv: Level)
    ensures lv == LevelOf(j, part, styleKey)
  {
    var mappingFlag := false;
    var iterSelector := part;
    if HasSuffix(iterSelector, "^") {
      iterSelector := RemoveAll(iterSelector, '^');
      mappingFlag := true;
    }
    var key := styleKey;
    var subG := StyleGroup(iterSelector);
    if subG.Some? {
      var values := Split(subG.value, ':');
      if |values| > 1 {
        var iter := IterativeJSON(j, Split(values[0], LabelSeparate));
        if JsonLegal(iter) {
          key := ToString(iter);
        }
        iterSelector := values[1];
      }
    }
    return Level(iterSelector, mappingFlag, key);
  }

  /** The goods position element i of a level passes down: its own
      position on a '^' level, the inherited one otherwise. */
  function GoodAt(lv: Level, goodID: int, i: nat): int {
    if lv.mapping then i else goodID
  }

  /** The number element i of a level passes down: its own position on the
      first unmarked level below a goods level, the inherited one otherwise. */
  function NumAt(lv: Level, goodID: int, numID: int, i: nat): int {
    if !lv.mapping && goodID >= 0 && numID == -1 then i else numID
  }

  /** What iterativeLoopJSON leaves in the row list it is handed: the rows
      it finds for element j and the selector, appended to dataList in the
      order of the walk. */
  function LoopJSON(j: Json, selector: string, urlMD5: string, styleKey: string, goodID: int, numID: int,
                    dataList: seq<seq<string>>): seq<seq<string>>
    decreases |selector|, 0, 0
  {
    var index := IndexOf(selector, ListSeparate);
    if index == -1 then dataList + [LeafRow(j, selector, urlMD5, styleKey, goodID, numID)]
    else LevelRows(j, selector[..index], selector[index + 1..], urlMD5, styleKey, goodID, numID, dataList)
  }

  /** A level part followed by the rest of the selector: nothing is added
      when the level's cascade is not legal, otherwise every element is
      walked with the rest. */
  function LevelRows(j: Json, part: string, rest: string, urlMD5: string, styleKey: string, goodID: int, numID: int,
                     dataList: seq<seq<string>>): seq<seq<string>>
    decreases |rest|, 2, 0
  {
    var lv := LevelOf(j, part, styleKey);
    var iter := CascadeJSON(j, Split(lv.iterSelector, LabelSeparate));
    if !JsonLegal(iter) then dataList
    else LoopItems(iter, rest, urlMD5, lv, goodID, numID, Size(iter), dataList)
  }

  /** The row list after the walk of the first n elements of a level. */
  function LoopItems(iter: Json, rest: string, urlMD5: string, lv: Level, goodID: int, numID: int, n: nat,
                     dataList: seq<seq<string>>): seq<seq<string>>
    decreases |rest|, 1, n
  {
    if n == 0 then dataList
    else
      var before := LoopItems(iter, rest, urlMD5, lv, goodID, numID, n - 1, dataList);
      LoopJSON(At(iter, n - 1), rest, urlMD5, lv.styleKey, GoodAt(lv, goodID, n - 1), NumAt(lv, goodID, numID, n - 1), before)
  }

  /** A selector without ';' is a leaf: its one row is appended. */
  lemma LoopJSONLeaf(j: Json, selector: string, urlMD5: string, styleKey: string, goodID: int, numID: int,
                     dataList: seq<seq<string>>)
    requires ListSeparate !in selector
    ensures LoopJSON(j, selector, urlMD5, styleKey, goodID, numID, dataList)
         == dataList + [LeafRow(j, selector, urlMD5, styleKey, goodID, numID)]
  {
  }

  /** One more element walked: its rows follow those of the elements before. */
  lemma LoopItemsNext(iter: Json, rest: string, urlMD5: string, lv: Level, goodID: int, numID: int, i: nat,
                      dataList: seq<seq<string>>)
    ensures LoopItems(iter, rest, urlMD5, lv, goodID, numID, i + 1, dataList) ==
      LoopJSON(At(iter, i), rest, urlMD5, lv.styleKey, GoodAt(lv, goodID, i), NumAt(lv, goodID, numID, i),
               LoopItems(iter, rest, urlMD5, lv, goodID, numID, i, dataList))
  {
  }

  /** iterativeLoopJSON */
  method IterativeLoopJSON(j: Json, selector: string, urlMD5: string, styleKey: string, goodID: int, numID: int,
                           dataList: seq<seq<string>>)
    returns (r: seq<seq<string>>)
    ensures r == LoopJSON(j, selector, urlMD5, styleKey, goodID, numID, dataList)
    decreases |selector|, 0
  {
    var index := IndexOf(selector, ListSeparate);
    if index == -1 {
      var data := LeafRowOf(j, selector, urlMD5, styleKey, goodID, numID);
      return dataList + [data];
    }
    r := WalkLevel(j, selector[..index], selector[index + 1..], urlMD5, styleKey, goodID, numID, dataList);
  }

  /** The level branch of iterativeLoopJSON: the level's cascade is read
      and, when legal, each of its elements is walked with the rest. */
  method WalkLevel(j: Json, part: string, rest: string, urlMD5: string, styleKey: string, goodID: int, numID: int,
                   dataList: seq<seq<string>>)
    returns (r: seq<seq<string>>)
    ensures r == LevelRows(j, part, rest, urlMD5, styleKey, goodID, numID, dataList)
    decreases |rest|, 2
  {
    var lv := LevelSetup(j, part, styleKey);
    var iter := IterativeJSON(j, Split(lv.iterSelector, LabelSeparate));
    if !JsonLegal(iter) {
      return dataList;
    }
    r := DescendLevel(iter, rest, urlMD5, lv, goodID, numID, dataList);
  }

  /** The descent of iterativeLoopJSON into every element of a level. */
  method DescendLevel(iter: Json, rest: string, urlMD5: string, lv: Level, goodID: int, numID: int,
                      dataList: seq<seq<string>>)
    returns (r: seq<seq<string>>)
    ensures r == LoopItems(iter, rest, urlMD5, lv, goodID, numID, Size(iter), dataList)
    decreases |rest|, 1
  {
    var size := Size(iter);
    r := dataList;
    var good, num := goodID, numID;
    var numIDBak := numID;
    var i := 0;
    while i < size
      invariant 0 <= i <= size
      invariant r == LoopItems(iter, rest, urlMD5, lv, goodID, numID, i, dataList)
      invariant !lv.mapping ==> good == goodID
      invariant !(!lv.mapping && goodID >= 0 && numID == -1) ==> num == numID
    {
      if lv.mapping {
        good := i;
      }
      if !lv.mapping && good >= 0 && numIDBak == -1 {
        num := i;
      }
      assert good == GoodAt(lv, goodID, i) && num == NumAt(lv, goodID, numID, i);
      LoopItemsNext(iter, rest, urlMD5, lv, goodID, numID, i, dataList);
      r := IterativeLoopJSON(At(iter, i), rest, urlMD5, lv.styleKey, good, num, r);
      i := i + 1;
    }
  }

  // ----- parseSpecJSON -----

  /** What parseSpecJSON makes of one selector: nothing without a level,
      otherwise the walk from the body's root with no style key and no
      positions yet. */
  function SpecOfSelector(body: Body, urlMD5: string, selector: string): seq<seq<string>> {
    if IndexOf(selector, ListSeparate) == -1 then []
    else LoopJSON(body.root, selector, urlMD5, "", -1, -1, [])
  }

  function SpecCandidate(body: Body, urlMD5: string): string -> seq<seq<string>> {
    (selector: string) => SpecOfSelector(body, urlMD5, selector)
  }

  /** The rows parseSpecJSON returns. */
  function SpecJSON(body: Body, page: Page, md5: string -> string, selectors: seq<string>): seq<seq<string>> {
    FirstHit(selectors, SpecCandidate(body, md5(page.url)))
  }

  /** parseSpecJSON */
  method ParseSpecJSON(body: Body, page: Page, md5: string -> string, selectors: seq<string>)
    returns (rows: seq<seq<string>>)
    ensures rows == SpecJSON(body, page, md5, selectors)
  {
    var urlMD5 := md5(page.url);
    var i := 0;
    while i < |selectors|
      invariant 0 <= i <= |selectors|
      invariant FirstHit(selectors[i..], SpecCandidate(body, urlMD5)) == SpecJSON(body, page, md5, selectors)
    {
      var found: seq<seq<string>> := [];
      if IndexOf(selectors[i], ListSeparate) != -1 {
        found := IterativeLoopJSON(body.root, selectors[i], urlMD5, "", -1, -1, []);
      }
      if |found| > 0 {
        FirstHitHere(selectors, i, SpecCandidate(body, urlMD5));
        return found;
      }
      FirstHitSkip(selectors, i, SpecCandidate(body, urlMD5));
      i := i + 1;
    }
    return [];
  }

  // ----- properties -----

  predicate StartsRow(urlMD5: string, row: seq<string>) {
    |row| >= 3 && row[0] == urlMD5
  }

  /** Every row the walk adds has the three identifying columns and starts
      with the page MD5; the rows it was handed are kept. */
  lemma {:induction false} LoopJSONRows(j: Json, selector: string, urlMD5: string, styleKey: string, goodID: int, numID: int,
                                        acc: seq<seq<string>>)
    ensures forall row :: row in LoopJSON(j, selector, urlMD5, styleKey, goodID, numID, acc) ==> row in acc || StartsRow(urlMD5, row)
    decreases |selector|, 0, 0
  {
    var index := IndexOf(selector, ListSeparate);
    if index != -1 {
      LevelRowsRows(j, selector[..index], selector[index + 1..], urlMD5, styleKey, goodID, numID, acc);
    } else {
      LeafRowStarts(j, selector, urlMD5, styleKey, goodID, numID);
    }
  }

  lemma {:induction false} LevelRowsRows(j: Json, part: string, rest: string, urlMD5: string, styleKey: string, goodID: int, numID: int,
                                         acc: seq<seq<string>>)
    ensures forall row :: row in LevelRows(j, part, rest, urlMD5, styleKey, goodID, numID, acc) ==> row in acc || StartsRow(urlMD5, row)
    decreases |rest|, 2, 0
  {
    var lv := LevelOf(j, part, styleKey);
    var iter := CascadeJSON(j, Split(lv.iterSelector, LabelSeparate));
    if JsonLegal(iter) {
      LoopItemsRows(iter, rest, urlMD5, lv, goodID, numID, Size(iter), acc);
    }
  }

  lemma {:induction false} LoopItemsRows(iter: Json, rest: string, urlMD5: string, lv: Level, goodID: int, numID: int, n: nat,
                                         acc: seq<seq<string>>)
    ensures forall row :: row in LoopItems(iter, rest, urlMD5, lv, goodID, numID, n, acc) ==> row in acc || StartsRow(urlMD5, row)
    decreases |rest|, 1, n
  {
    if n > 0 {
      var before := LoopItems(iter, rest, urlMD5, lv, goodID, numID, n - 1, acc);
      LoopItemsRows(iter, rest, urlMD5, lv, goodID, numID, n - 1, acc);
      LoopJSONRows(At(iter, n - 1), rest, urlMD5, lv.styleKey, GoodAt(lv, goodID, n - 1), NumAt(lv, goodID, numID, n - 1), before);
    }
  }

  /** Every row of parseSpecJSON has the three identifying columns and
      starts with the MD5 of the page URL. */
  lemma SpecJSONRows(body: Body, page: Page, md5: string -> string, selectors: seq<string>)
    ensures forall row :: row in SpecJSON(body, page, md5, selectors) ==> StartsRow(md5(page.url), row)
  {
    FirstHitSpec(selectors, SpecCandidate(body, md5(page.url)));
    var r := SpecJSON(body, page, md5, selectors);
    if r != [] {
      var k :| 0 <= k < |selectors| && r == SpecCandidate(body, md5(page.url))(selectors[k]);
      LoopJSONRows(body.root, selectors[k], md5(page.url), "", -1, -1, []);
    }
  }

  /** The rows of a key-range shape: goods position and number both
      non-negative, the goods position below a bound. */
  ghost predicate KeyedRow(bound: int, row: seq<string>) {
    |row| >= 3 && exists g: nat, n: nat :: g < bound && row[2] == SpecKey(g, n)
  }

  /** Under a goods element g, the leaf rows of the first n elements of an
      unmarked level are keyed good_<g>-num_<k>, k the inner position. */
  lemma {:induction false} InnerItemsKeys(iter: Json, leaf: string, urlMD5: string, lv: Level, g: nat, bound: int, n: nat,
                                          acc: seq<seq<string>>)
    requires ListSeparate !in leaf && !lv.mapping && g < bound
    ensures forall row :: row in LoopItems(iter, leaf, urlMD5, lv, g, -1, n, acc) ==> row in acc || KeyedRow(bound, row)
  {
    if n > 0 {
      InnerItemsKeys(iter, leaf, urlMD5, lv, g, bound, n - 1, acc);
      var before := LoopItems(iter, leaf, urlMD5, lv, g, -1, n - 1, acc);
      var row := LeafRow(At(iter, n - 1), leaf, urlMD5, lv.styleKey, g, n - 1);
      LoopItemsNext(iter, leaf, urlMD5, lv, g, -1, n - 1, acc);
      LoopJSONLeaf(At(iter, n - 1), leaf, urlMD5, lv.styleKey, g, n - 1, before);
      assert KeyedRow(bound, row) by {
        assert row[2] == SpecKey(g, n - 1);
      }
      forall r | r in before + [row]
        ensures r in acc || KeyedRow(bound, r)
      {
        if r != row {
          assert r in before;
        }
      }
    }
  }

  /** A leaf under an unmarked level under goods element g: element k of
      the inner level is keyed good_<g>-num_<k>. */
  lemma InnerLevelKeys(j: Json, part: string, leaf: string, urlMD5: string, styleKey: string, g: nat, bound: int,
                       acc: seq<seq<string>>)
    requires ListSeparate !in part && ListSeparate !in leaf && !HasSuffix(part, "^") && g < bound
    ensures forall row :: row in LoopJSON(j, part + [ListSeparate] + leaf, urlMD5, styleKey, g, -1, acc) ==>
      row in acc || KeyedRow(bound, row)
  {
    var selector := part + [ListSeparate] + leaf;
    IndexOfSeparated(part, ListSeparate, leaf);
    assert selector[..|part|] == part && selector[|part| + 1..] == leaf;
    assert LoopJSON(j, selector, urlMD5, styleKey, g, -1, acc) == LevelRows(j, part, leaf, urlMD5, styleKey, g, -1, acc);
    var lv := LevelOf(j, part, styleKey);
    var iter := CascadeJSON(j, Split(lv.iterSelector, LabelSeparate));
    if JsonLegal(iter) {
      InnerItemsKeys(iter, leaf, urlMD5, lv, g, bound, Size(iter), acc);
    }
  }

  /** The goods elements of a '^' level, each walked with "specs;leaf". */
  lemma {:induction false} OuterItemsKeys(iter: Json, specs: string, leaf: string, urlMD5: string, lv: Level, n: nat,
                                          acc: seq<seq<string>>)
    requires ListSeparate !in specs && ListSeparate !in leaf && !HasSuffix(specs, "^") && lv.mapping
    requires n <= Size(iter)
    ensures forall row :: row in LoopItems(iter, specs + [ListSeparate] + leaf, urlMD5, lv, -1, -1, n, acc) ==>
      row in acc || KeyedRow(Size(iter), row)
  {
    if n > 0 {
      var rest := specs + [ListSeparate] + leaf;
      var before := LoopItems(iter, rest, urlMD5, lv, -1, -1, n - 1, acc);
      OuterItemsKeys(iter, specs, leaf, urlMD5, lv, n - 1, acc);
      InnerLevelKeys(At(iter, n - 1), specs, leaf, urlMD5, lv.styleKey, n - 1, Size(iter), before);
    }
  }

  /** The two-level layout "goods^;specs;leaf" that maps specification rows
      to goods: from the root, every row is keyed good_<g>-num_<k> with g an
      element position of the goods level and k one of the inner level. */
  lemma TwoLevelKeys(j: Json, goods: string, specs: string, leaf: string, urlMD5: string)
    requires ListSeparate !in goods && ListSeparate !in specs && ListSeparate !in leaf
    requires HasSuffix(goods, "^") && !HasSuffix(specs, "^")
    ensures var selector := goods + [ListSeparate] + specs + [ListSeparate] + leaf;
      var iter := CascadeJSON(j, Split(LevelOf(j, goods, "").iterSelector, LabelSeparate));
      forall row :: row in LoopJSON(j, selector, urlMD5, "", -1, -1, []) ==> KeyedRow(Size(iter), row)
  {
    var rest := specs + [ListSeparate] + leaf;
    var selector := goods + [ListSeparate] + rest;
    assert goods + [ListSeparate] + specs + [ListSeparate] + leaf == selector;
    IndexOfSeparated(goods, ListSeparate, rest);
    assert selector[..|goods|] == goods && selector[|goods| + 1..] == rest;
    assert LoopJSON(j, selector, urlMD5, "", -1, -1, []) == LevelRows(j, goods, rest, urlMD5, "", -1, -1, []);
    var lv := LevelOf(j, goods, "");
    var iter := CascadeJSON(j, Split(lv.iterSelector, LabelSeparate));
    if JsonLegal(iter) {
      OuterItemsKeys(iter, specs, leaf, urlMD5, lv, Size(iter), []);
    }
  }
}
