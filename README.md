# siteResService product extractor, modelled in Dafny

This project models the template-driven product extractor of the site
resource service. The service reads a product page, HTML or JSON, and
fills a product record with these fields:

- cover images;
- title and price;
- description (text lines and media);
- goods rows and specification rows;
- currency.

It fills each field from per-site templates. A template is a CSV row of
candidate selector expressions, registered under the MD5 of the site's
domain.

A selector expression is a cascade of labels joined by `|`. A `;` marks a
list level, `{title:value}` names the style labels of a specification,
`^` flags the goods level of a JSON specification, and `(a,b)` names the
values of a JSON leaf. Every extractor tries its candidates in order, and
the first candidate that yields anything wins.

The model covers:

- the template registry: `addSiteResource` and the row loop of `initSitesLabelMaps`. The map is a `map` field of a `SiteService` class, updated by methods;
- the cascade resolvers `iterativeHTML` and `iterativeJSON`, and `checkSelectionLegal`;
- resource URL normalisation (`GetResourceURL`) and media naming (`generateImageName`);
- every field extractor of the current site service (HTML and JSON cover, title, price, description, goods and specification), including the media scan of a description fragment (`replaceImagePaths`) and the recursive specification walk `iterativeLoopJSON`;
- the older site service in `src/task/sites/siteService.go`:
  - its registry with the older column layout;
  - its `iterativeHTML`, which ignores the first label;
  - its recursive `iterativeLoopHTML`;
- the record assemblers `ParseInfoCommonHTML` and `ParseInfoCommonJSON`;
- from `sitesResTackle.go`:
  - the legality test `checkResLegal`;
  - the order-page link `getOrderHref`;
  - the document choice of `requestDocHTTP`;
  - the field dispatch `getSpecifiedRes`.

How the model is built:

- **Loops.** Every method with a loop is proved equal to a specification function (`FlatMap`, `FirstHit`, `FlatMapOutcome`, or a recursive function of its own). What the source promises is then proved about that function as lemmas.
- **Panics.** A Go panic (an index out of range, `%` by zero, `log.Panic`) is the `Panicked` case of an `Outcome`.
- **Libraries.** goquery is a `Dom` value of lookup functions over opaque nodes (`Find`, `Text`, `Html`, `Attr`, children, `parse`). jsoniter's `Any` is a `Json` datatype with `Get`, `At`, `Size` and `ToString`.
- **Foreign functions.** MD5, `ToJson`, `parseCurrency` and the HTTP fetch are function-valued parameters. A parsed page URL is a `Page(url, scheme, host)` value.

Three functions appear in both site service files:

- `GetResourceURL` (current lines 323-351, old lines 319-347);
- `generateImageName` (current 371-394, old 367-390);
- `checkSelectionLegal` (current 511-528, old 469-487).

Each pair has the same text in both files, so one module models each
function. `Resource` models the first two and `Cascade` the third.

Where the code and its comments disagree, the model follows the code.
The comment at `src/taskservice/sites/siteService.go:94` lists the columns
as `spec,goods`. Lines 125-132 read column 7 as goods and column 8 as
spec, and so does the model.

## Model

| member | source | states |
|---|---|---|
| GoText.Split | src/taskservice/sites/siteService.go:96-132 | strings.Split on one separator: at least one piece, and no piece contains the separator |
| GoText.JoinOfSplit | src/taskservice/sites/siteService.go:96-132 | joining the pieces of a split with the separator gives back the original string |
| GoText.SplitOfJoin | src/taskservice/sites/siteService.go:1301-1372 | splitting a join of separator-free pieces gives back the pieces |
| GoText.TrimSpaceEmptyIff | src/taskservice/sites/siteService.go:686-728 | strings.TrimSpace is empty exactly when the string is all white space |
| GoText.TrimSpaceIdempotent | src/taskservice/sites/siteService.go:686-728 | trimming twice is trimming once |
| GoText.ItoaInjective | src/taskservice/sites/siteService.go:1255-1262 | strconv.Itoa maps distinct integers to distinct strings |
| SpecKeys.SpecKeyInjective | src/taskservice/sites/siteService.go:1262 | the key "good_<g>-num_<n>" determines g and n |
| Patterns.StyleMatch | src/taskservice/sites/siteService.go:72 | the pattern `\{(.*)\}` matches exactly when a '{' has a '}' later on its line, and the match is the group wrapped in braces |
| Patterns.EnclosedIff | src/taskservice/sites/siteService.go:72-73 | a bracketed group exists exactly when some opening bracket has a closing bracket later on the same line |
| Patterns.StyleGroupOfBracketed | src/taskservice/sites/siteService.go:72 | the group of "{g}" is g when g has no line break |
| Patterns.StyleGroupGreedy | src/taskservice/sites/siteService.go:72 | the match is greedy: for "{" + g + "}" + t with no line break in g and no '}' on the first line of t, the group is g, closing brackets inside g included |
| Registry.FieldLabelsMeaning | src/taskservice/sites/siteService.go:96-132 | an empty CSV field gives no candidates, not [""]; a non-empty one is split on '+' into pieces that join back to it |
| Registry.Merge | src/taskservice/sites/siteService.go:134-159 | a repeated domain takes the new character and order, and every other list is the stored list followed by the new one |
| Registry.MergeAssociative | src/taskservice/sites/siteService.go:134-159 | merging rows one at a time does not depend on how the merges are grouped |
| Registry.RegisteredMeaning | src/taskservice/sites/siteService.go:134-172 | after a row, its domain hash is present, holding a fresh template or the merge with the stored one; every other domain is unchanged |
| Registry.RegisteredTwice | src/taskservice/sites/siteService.go:134-172 | two rows of a new domain leave the merge of the two templates |
| Registry.AppendAll | src/taskservice/sites/siteService.go:139-156 | the append loops add the incoming entries after the stored ones, in order |
| Registry.SiteService.constructor | src/taskservice/sites/siteService.go:44-53 | the service starts with an empty template map |
| Registry.SiteService.AddSiteResource | src/taskservice/sites/siteService.go:95-173 | panics exactly when the row has fewer than nine columns or an empty domain, leaving the map unchanged; otherwise the map becomes the registered map |
| Registry.SiteService.LoadRecords | src/taskservice/sites/siteService.go:187-222 | loading completes exactly when every row has at least ten columns (the debug log reads column 9) and a domain; the map is then every row registered in order |
| Registry.RegisteredAllOthers | src/taskservice/sites/siteService.go:134-172 | a domain that no row names keeps its template, and stays absent when it was absent |
| Resource.GetResourceURL | src/taskservice/sites/siteService.go:323-351 | a source shorter than six characters gives ""; no result contains CR, LF or '?'; src/task/sites/siteService.go:319-347 is the same code |
| Resource.GetResourceURLCases | src/taskservice/sites/siteService.go:333-341 | an "http" source is kept; "//x" becomes "http://x"; "/x" becomes scheme://host/x; anything else is appended to the page URL with no separator; then CR/LF are removed and the URL is cut at '?' |
| Resource.GetResourceURLCutsAtQuery | src/taskservice/sites/siteService.go:343-350 | the result is the CR/LF-free absolute URL up to, not including, its first '?' |
| Resource.GetResourceURLIdempotent | src/taskservice/sites/siteService.go:323-351 | normalising an absolute "http" result again changes nothing |
| Resource.GetResourceURLPageQuery | src/taskservice/sites/siteService.go:339-350 | a relative source under a page URL with a query gives just the page URL before its query, so the source is lost |
| Resource.GenerateImageName | src/taskservice/sites/siteService.go:371-394 | a non-empty rename is returned unchanged; otherwise md5(url) followed by the extension that Extension picks from the URL, one of .gif, .png, .mp4 and .jpg; src/task/sites/siteService.go:367-390 is the same code |
| Resource.SuffixFromLastDot | src/taskservice/sites/siteService.go:378-390 | a four-character extension matches the suffix from the last '.' exactly when the URL ends with it |
| Resource.ExtensionIff | src/taskservice/sites/siteService.go:378-390 | the extension is ".gif", ".png" or ".mp4" exactly when the URL ends with it, and ".jpg" in every other case, including a URL with no '.' |
| Cascade.CheckSelectionLegalIff | src/taskservice/sites/siteService.go:511-528 | legal exactly when the mode matches the selection's kind and the rendering (Html or ToString) is non-empty; an unknown mode is illegal; src/task/sites/siteService.go:469-487 is the same code |
| Cascade.HtmlLegalIff | src/taskservice/sites/siteService.go:511-528 | an HTML selection is legal exactly when it is non-empty and its first node has non-empty inner HTML |
| Cascade.JsonLegalIff | src/taskservice/sites/siteService.go:511-528 | a JSON value is legal exactly when its ToString is non-empty |
| Cascade.CascadeStopsAtFirstEmpty | src/taskservice/sites/siteService.go:884-894 | the cascade equals the plain chain of labels up to and including the first illegal step; every earlier step is legal |
| Cascade.CascadeLegalIsChain | src/taskservice/sites/siteService.go:884-894 | a legal final selection means every label was applied |
| Cascade.CascadeAppend | src/taskservice/sites/siteService.go:884-894 | cascading l1 + l2 is cascading l1 and then, when that is legal, l2 |
| Cascade.IterativeHTML | src/taskservice/sites/siteService.go:884-894 | the loop computes the HTML cascade of the '|'-split selector |
| Cascade.IterativeJSON | src/taskservice/sites/siteService.go:608-617 | the loop computes the JSON cascade of the labels |
| Cascade.CascadeJSONLegal | src/taskservice/sites/siteService.go:608-617 | a legal JSON result is the value reached by every label |
| HtmlFields.Refine | src/taskservice/sites/siteService.go:574-581 | with no second part a node stands for itself; when it is narrowed, the narrowing is legal |
| HtmlFields.RefineNode | src/taskservice/sites/siteService.go:574-581 | the narrowing of one node by the part after ';' |
| HtmlFields.GatherFrom | src/taskservice/sites/siteService.go:566-597 | whatever holds of every per-selection result holds of a candidate's results |
| HtmlFields.FirstAttr | src/taskservice/sites/siteService.go:534-544 | the first non-empty attribute value in the given order, or none when all are empty |
| HtmlFields.URLIfAny | src/taskservice/sites/siteService.go:531-561 | an empty source gives nothing, any other exactly one URL |
| HtmlFields.ParseCoverImages | src/taskservice/sites/siteService.go:531-561 | the images of a selection: src, else data-src, else data-original, resolved against the page |
| HtmlFields.ParseCoverImagesHTML | src/taskservice/sites/siteService.go:564-605 | the cover images of the first candidate that yields any |
| HtmlFields.CoversOf | src/taskservice/sites/siteService.go:573-587 | the cover images of every node of the first-level selection, in order |
| HtmlFields.CoverHTMLClean | src/taskservice/sites/siteService.go:564-605 | no cover URL contains CR, LF or '?' |
| HtmlFields.CoverOfImageChoice | src/taskservice/sites/siteService.go:531-561 | which attribute gives an image's URL, case by case |
| HtmlFields.ParseTextHTML | src/taskservice/sites/siteService.go:686-728 | title (and price, same code at 777-819): the trimmed non-blank texts of the first candidate that has any, joined with "," |
| HtmlFields.TextsOf | src/taskservice/sites/siteService.go:694-710 | the trimmed non-blank texts of every node, in order |
| HtmlFields.TextHTMLTrimmed | src/taskservice/sites/siteService.go:686-728 | a title is "" or starts and ends with non-space |
| HtmlFields.JoinedTextsTrimmed | src/taskservice/sites/siteService.go:694-719 | one candidate's joined texts are "" or start and end with non-space |
| HtmlFields.TextHTMLEmptyIff | src/taskservice/sites/siteService.go:686-728 | the title is "" exactly when no candidate yields any text |
| HtmlFields.JoinedTextsEmptyIff | src/taskservice/sites/siteService.go:694-719 | a candidate's join is "" exactly when it yields no text |
| HtmlFields.SourceSrcs | src/taskservice/sites/siteService.go:430-436 | the src values present on the source elements, and the last one's src |
| HtmlFields.URLsOf | src/taskservice/sites/siteService.go:448-451 | every video source resolved against the page, in order |
| HtmlFields.VideoOf | src/taskservice/sites/siteService.go:424-451 | the media of one video: its first source when non-empty, then its further sources |
| HtmlFields.SourcesOf | src/taskservice/sites/siteService.go:424-443 | src, else poster, else the sources of the source elements |
| HtmlFields.ImagesOf | src/taskservice/sites/siteService.go:401-422 | the images of the fragment: data-original, else src, resolved against the page |
| HtmlFields.VideosOf | src/taskservice/sites/siteService.go:424-451 | the media of every video, in order |
| HtmlFields.ReplaceImagePaths | src/taskservice/sites/siteService.go:397-508 | the images of the fragment, then the media of its videos |
| HtmlFields.VideoLastSourceTwice | src/taskservice/sites/siteService.go:430-447 | a video with no src and no poster lists its last non-empty source twice, first and last |
| HtmlFields.VideoSrcOnly | src/taskservice/sites/siteService.go:424-447 | a video with a src attribute, even an empty one, contributes only that src |
| HtmlFields.DescribeLine | src/taskservice/sites/siteService.go:901-928 | a blank line gives nothing; any other line gives the trimmed text of its document when that text is non-empty before trimming, then its media |
| HtmlFields.SplitDescHTMLParse | src/taskservice/sites/siteService.go:897-931 | the description items of a fragment, line by line |
| HtmlFields.DescribeLines | src/taskservice/sites/siteService.go:900-928 | the loop over the lines concatenates each line's items |
| HtmlFields.SplitDescLines | src/taskservice/sites/siteService.go:897-931 | the items of "a\nb" are the items of a followed by the items of b |
| HtmlFields.SplitDescBlankLine | src/taskservice/sites/siteService.go:901-905 | a blank line adds nothing |
| HtmlFields.ParseDescHTML | src/taskservice/sites/siteService.go:934-977 | the description of the first candidate whose nodes yield any items |
| HtmlFields.DescsOf | src/taskservice/sites/siteService.go:942-959 | the items of every node of the first-level selection, in order |
| HtmlFields.DescHTMLEmptyIff | src/taskservice/sites/siteService.go:934-977 | the description is empty exactly when no candidate gives any item; a non-empty one is the items of the first candidate that gives some |
| HtmlFields.GoodRows | src/taskservice/sites/siteService.go:1059-1074 | one row [page MD5, text, image] per image, or one row with an empty image when there is none |
| HtmlFields.MakeGoodRows | src/taskservice/sites/siteService.go:1059-1074 | the row loop builds those rows |
| HtmlFields.ParseGoodHTML | src/taskservice/sites/siteService.go:1032-1093 | the goods rows of the first candidate that yields any |
| HtmlFields.GoodsOf | src/taskservice/sites/siteService.go:1041-1075 | the goods rows of every node, in order |
| HtmlFields.SelectionGoodsRows | src/taskservice/sites/siteService.go:1052-1074 | every goods row of a selection has three columns and starts with the page's MD5 |
| HtmlFields.GoodHTMLRows | src/taskservice/sites/siteService.go:1032-1093 | every goods row has three columns and starts with the page's MD5 |
| HtmlSpec.Dedup | src/taskservice/sites/siteService.go:1231-1239 | the de-duplicated titles hold the same titles, each once, first occurrences kept |
| HtmlSpec.StyleTitles | src/taskservice/sites/siteService.go:1231-1239 | the loop over the style nodes yields the de-duplicated trimmed titles |
| HtmlSpec.KeepTitle | src/taskservice/sites/siteService.go:1233-1238 | one step keeps the title list de-duplicated and the seen-map in step with it |
| HtmlSpec.StyleOf | src/taskservice/sites/siteService.go:1224-1242 | the style titles of a candidate are pairwise distinct |
| HtmlSpec.SpecRows | src/taskservice/sites/siteService.go:1256-1275 | one row [page MD5, title, key, text, image] per image, or one row with an empty image |
| HtmlSpec.MakeSpecRows | src/taskservice/sites/siteService.go:1256-1275 | the row loop builds those rows |
| HtmlSpec.ChildSpec | src/taskservice/sites/siteService.go:1248-1276 | a child with inner HTML panics exactly when there are no titles; otherwise child j of match i gets title titles[j mod N] and key "good_<i>-num_<floor(j/N)>" |
| HtmlSpec.SpecOfChild | src/taskservice/sites/siteService.go:1248-1276 | the rows of one value child |
| HtmlSpec.SpecOfChildren | src/taskservice/sites/siteService.go:1248-1276 | the rows of every child in order, stopping at the first panic |
| HtmlSpec.SpecOfValues | src/taskservice/sites/siteService.go:1247-1277 | the rows of every value node in order, stopping at the first panic |
| HtmlSpec.SpecOfSelection | src/taskservice/sites/siteService.go:1246-1278 | the rows of every first-level match in order, stopping at the first panic |
| HtmlSpec.StyleSetup | src/taskservice/sites/siteService.go:1223-1242 | the style titles and the value selector of a candidate |
| HtmlSpec.ParseSpecHTML | src/taskservice/sites/siteService.go:1211-1296 | the specification rows of the first candidate that yields any, or the first panic |
| HtmlSpec.SpecPositionsDistinct | src/taskservice/sites/siteService.go:1254-1262 | two children of one match never share both title and key |
| HtmlSpec.KeysDiffer | src/taskservice/sites/siteService.go:1262 | different groups under one match get different keys |
| HtmlSpec.SelectorPanicsWithoutTitles | src/taskservice/sites/siteService.go:1244-1254 | a candidate with no style titles but a value child with inner HTML panics (the modulo by zero) |
| HtmlSpec.MatchPanics | src/taskservice/sites/siteService.go:1247-1254 | the same panic at the level of one match |
| HtmlSpec.ValuePanics | src/taskservice/sites/siteService.go:1248-1254 | the same panic at the level of one value node |
| HtmlSpec.MatchSpecRows | src/taskservice/sites/siteService.go:1246-1278 | every row of a match has five columns, the page's MD5, one of the titles and a key |
| HtmlSpec.SpecFromRows | src/taskservice/sites/siteService.go:1211-1296 | every specification row has five columns and starts with the page's MD5 |
| JsonFields.Values | src/taskservice/sites/siteService.go:624-665 | the values a JSON candidate picks are all legal |
| JsonFields.ValuesCount | src/taskservice/sites/siteService.go:624-665 | a plain candidate picks its value if legal; a list candidate picks at most one value per element |
| JsonFields.ListValues | src/taskservice/sites/siteService.go:633-652 | the loop over the list elements keeps the legal values of the inner cascade |
| JsonFields.CandidateValues | src/taskservice/sites/siteService.go:624-665 | the values of one candidate |
| JsonFields.URLsOfValues | src/taskservice/sites/siteService.go:632-665 | every value's string resolved against the page |
| JsonFields.ParseCoverImagesJSON | src/taskservice/sites/siteService.go:620-683 | the cover URLs of the first candidate that picks any value |
| JsonFields.CoverJSONEmptyIff | src/taskservice/sites/siteService.go:620-683 | there are no cover URLs exactly when no candidate picks a value; a first candidate that picks values decides the result |
| JsonFields.CoverJSONClean | src/taskservice/sites/siteService.go:620-683 | no cover URL contains CR, LF or '?' |
| JsonFields.TrimmedStrings | src/taskservice/sites/siteService.go:743-753 | every value's trimmed string, in order |
| JsonFields.ParseTitleJSON | src/taskservice/sites/siteService.go:731-774 | the title of the first candidate whose joined strings are non-empty |
| JsonFields.TitleOfCandidateEmptyIff | src/taskservice/sites/siteService.go:741-756 | a candidate's title is "" exactly when it picks nothing or one value that trims to "" |
| JsonFields.PricesOf | src/taskservice/sites/siteService.go:832-862 | the trimmed non-blank price texts of every value, in order |
| JsonFields.ParsePriceJSON | src/taskservice/sites/siteService.go:822-881 | the price of the first candidate that yields any, joined with "," |
| JsonFields.PriceJSONTrimmed | src/taskservice/sites/siteService.go:822-881 | a price is "" or starts and ends with non-space |
| JsonFields.PriceJSONEmptyIff | src/taskservice/sites/siteService.go:822-881 | the price is "" exactly when no candidate yields any text |
| JsonFields.DescsOf | src/taskservice/sites/siteService.go:990-1011 | the description items of every value, in order |
| JsonFields.ParseDescJSON | src/taskservice/sites/siteService.go:980-1029 | the description of the first candidate that yields any items |
| JsonFields.DescOfCandidateLines | src/taskservice/sites/siteService.go:980-1029 | the items of a two-line value are the items of each line in turn |
| JsonFields.GoodsOf | src/taskservice/sites/siteService.go:1109-1136 | one goods row per value, in order |
| JsonFields.ParseGoodJSON | src/taskservice/sites/siteService.go:1098-1154 | the goods rows of the first candidate that picks any value |
| JsonFields.GoodsOfValues | src/taskservice/sites/siteService.go:1118-1135 | the row of each value is [page MD5, its string, ""] |
| JsonFields.GoodJSONRows | src/taskservice/sites/siteService.go:1098-1154 | non-empty goods come from one candidate, one row [page MD5, value string, ""] per value picked |
| JsonFields.GoodJSONImageEmpty | src/taskservice/sites/siteService.go:1123-1133 | every JSON goods row has three columns and an empty image column |
| JsonSpec.LeafRowShape | src/taskservice/sites/siteService.go:1304-1324 | a leaf row is [page MD5, style key, "good_<g>-num_<n>", one value per alternative inside "(...)"] |
| JsonSpec.LeafRowStarts | src/taskservice/sites/siteService.go:1304-1324 | a leaf row starts with the page MD5, the style key and a key |
| JsonSpec.LeafRowOf | src/taskservice/sites/siteService.go:1306-1322 | the leaf step builds that row |
| JsonSpec.RenderValues | src/taskservice/sites/siteService.go:1316-1321 | the string of every alternative's cascade, in order |
| JsonSpec.LevelSetup | src/taskservice/sites/siteService.go:1328-1348 | a level's style key, '^' flag and list cascade |
| JsonSpec.LoopItemsNext | src/taskservice/sites/siteService.go:1356-1368 | element i recurses with goodID i on a '^' level, and with numID i only when goodID >= 0 and numID was -1 |
| JsonSpec.IterativeLoopJSON | src/taskservice/sites/siteService.go:1301-1372 | the recursion computes the specification walk |
| JsonSpec.WalkLevel | src/taskservice/sites/siteService.go:1328-1371 | one list level: its setup, then its elements |
| JsonSpec.DescendLevel | src/taskservice/sites/siteService.go:1356-1369 | the loop over a level's elements, with the goodID/numID bookkeeping |
| JsonSpec.ParseSpecJSON | src/taskservice/sites/siteService.go:1376-1404 | the specification rows of the first candidate that yields any |
| JsonSpec.LoopJSONRows | src/taskservice/sites/siteService.go:1301-1372 | every row the walk adds starts with the page MD5 |
| JsonSpec.LevelRowsRows | src/taskservice/sites/siteService.go:1328-1371 | the same for one level |
| JsonSpec.LoopItemsRows | src/taskservice/sites/siteService.go:1356-1368 | the same for a level's elements |
| JsonSpec.SpecJSONRows | src/taskservice/sites/siteService.go:1376-1404 | every JSON specification row starts with the page MD5 |
| JsonSpec.InnerItemsKeys | src/taskservice/sites/siteService.go:1356-1368 | under a fixed goodID, an unflagged level keys its rows with that goodID and a numID |
| JsonSpec.InnerLevelKeys | src/taskservice/sites/siteService.go:1328-1368 | the same for a whole unflagged level |
| JsonSpec.OuterItemsKeys | src/taskservice/sites/siteService.go:1356-1368 | a '^' level keys its rows with goodIDs below its size |
| JsonSpec.TwoLevelKeys | src/taskservice/sites/siteService.go:1301-1372 | "goods^;specs;leaf" keys every row "good_<g>-num_<n>" with g below the goods count and n non-negative |
| OldSites.ColumnsAgainstCurrent | src/task/sites/siteService.go:91-128 | the older layout reads column 7 as Spec and column 8 as Set, where the current one reads them as Good and Spec; the other columns agree |
| OldSites.Merge | src/task/sites/siteService.go:130-155 | a repeated domain takes the new character and order and appends every other list after the stored one |
| OldSites.RegisteredMeaning | src/task/sites/siteService.go:130-168 | after a row, its domain holds a fresh template or the merge; other domains are unchanged; two rows of a new domain leave their merge |
| OldSites.SiteService.constructor | src/task/sites/siteService.go:44-56 | the older service starts with an empty template map |
| OldSites.SiteService.AddSiteResource | src/task/sites/siteService.go:91-169 | panics exactly when the row has fewer than nine columns or an empty domain, leaving the map as it was; otherwise the map becomes the registered map |
| OldSites.IterativeHTML | src/task/sites/siteService.go:777-784 | the loop applies the labels after the first, with no legality check |
| OldSites.FirstLabelIgnored | src/task/sites/siteService.go:777-784 | the first label never narrows the selection: a one-label selector leaves it as it is, and "first\|rest" applies only rest, as the current cascade of rest does when that is legal |
| OldSites.LeafLevel | src/task/sites/siteService.go:790-806 | a selector without ';' appends one row per match; a match without inner HTML is skipped |
| OldSites.StyleOfLevel | src/task/sites/siteService.go:809-814 | the style and the selection of a "{title:value}" level; fewer than two pieces panic |
| OldSites.IterativeLoopHTML | src/task/sites/siteService.go:787-827 | the recursion computes the row walk, or its first panic |
| OldSites.EachSibling | src/task/sites/siteService.go:821-824 | sibling i recurses with the levels grown by i+1 copies of "level-<level>" |
| OldSites.LeafRows | src/task/sites/siteService.go:790-806 | each leaf row has four columns [page MD5, style, levels joined with "-", html]; no html gives no rows; all html gives one row per match |
| OldSites.LoopHTMLLeaf | src/task/sites/siteService.go:790-806 | with no ';' the walk appends the leaf rows of the chained selection |
| OldSites.LoopHTMLAppends | src/task/sites/siteService.go:787-827 | the walk only appends: the rows given are a prefix of the result, and every row has four columns and starts with the page MD5 |
| OldSites.SiblingsAppends | src/task/sites/siteService.go:821-824 | the same for the loop over siblings |
| OldSites.SiblingsOfLeaf | src/task/sites/siteService.go:821-824 | over a leaf, the siblings append, in order, the leaf rows of each one under its grown levels |
| OldSites.TwoLevelKeys | src/task/sites/siteService.go:816-824 | "outer;inner" with no style appends, for sibling i of the outer matches, the inner leaf rows whose level key repeats "level-<level>" i+1 times |
| OldSites.StyleSelectorsKeepBraces | src/task/sites/siteService.go:809-814 | the older code splits the whole match "{a:b}" on ':', so Find receives "{a" and "b}"; the current code splits the group and receives a and b |
| Assemble.ParseInfoCommonHTML | src/taskservice/sites/templateCommonHTML.go:18-64 | the record the HTML assembler fills field by field |
| Assemble.CommonHTMLNilDoc | src/taskservice/sites/templateCommonHTML.go:19-30 | a nil document gives the blank record of "templateCommonHTML" |
| Assemble.CommonHTMLFields | src/taskservice/sites/templateCommonHTML.go:34-61 | cover, title, price and the serialised description come from the main document; Set and Spec come from the order document when there is one, otherwise from the main one; it panics exactly when the specification does |
| Assemble.CommonHTMLOrderDoc | src/taskservice/sites/templateCommonHTML.go:49-61 | the order document changes only Set and Spec, and passing the main document as order document changes nothing |
| Assemble.ParseInfoCommonJSON | src/taskservice/sites/templateCommonJSON.go:20-64 | the record the JSON assembler fills field by field, with the currency parsed from column 2 of the first goods row, as the source does |
| Assemble.CommonJSONEmptyBody | src/taskservice/sites/templateCommonJSON.go:21-31 | an empty body gives the blank record of "templateCommonJson" |
| Assemble.CommonJSONFields | src/taskservice/sites/templateCommonJSON.go:36-61 | every field comes from its own candidate list applied to the same body and Set stays empty; the currency is "" without goods, and parseCurrency("") with goods, because column 2 of a JSON goods row is always the empty image (see Findings) |
| Assemble.CurrencyIgnoresGoods | src/taskservice/sites/templateCommonJSON.go:59-61 | as written, any two bodies with goods get the same currency, parseCurrency(""), which differs from the currency of the goods text whenever that text parses to something else |
| Assemble.CurrencyIntendedReadsText | src/taskservice/sites/templateCommonJSON.go:59-61 | the intended currency is parsed from the text of the first goods value |
| ResTackle.CheckResLegal | src/taskservice/sitesResTackle.go:250-256 | legal exactly when the record exists, has a cover and has a description |
| ResTackle.AssembledLegality | src/taskservice/sitesResTackle.go:250-256 | a nil document or an empty body is never legal; otherwise legality is a non-empty cover and a non-empty serialised description |
| ResTackle.LegalityRestsOnCover | src/taskservice/sitesResTackle.go:250-256 | when serialisation never yields "", an assembled HTML record is legal exactly when it has a cover |
| ResTackle.GetOrderHref | src/taskservice/sitesResTackle.go:170-194 | the chain and Each loops compute the order link |
| ResTackle.OrderHrefMeaning | src/taskservice/sitesResTackle.go:184-193 | no href gives ""; otherwise the page URL before its last '/' followed by the href when that '/' is at index > 0, else the href unchanged |
| ResTackle.OrderHrefKeepsPath | src/taskservice/sitesResTackle.go:184-190 | a page URL with two '/' keeps a '/' in the joined link |
| ResTackle.FindOrderURL | src/taskservice/sitesResTackle.go:204-214 | the label loop with its early break computes the order URL |
| ResTackle.OrderURLMeaning | src/taskservice/sitesResTackle.go:204-214 | a non-empty order URL comes from the first non-empty label that yields one; an empty one means no label yields any |
| ResTackle.RequestDocHTTP | src/taskservice/sitesResTackle.go:197-246 | the document pair the function returns |
| ResTackle.RequestDocsCases | src/taskservice/sitesResTackle.go:197-246 | no page gives (nil, nil); no labels give (page, nil); labels whose URL is empty or has no '/' give (nil, nil); otherwise (page, fetched order page) |
| ResTackle.OrderDocNeedsLabels | src/taskservice/sitesResTackle.go:217-245 | an order document needs labels and is the fetch of the order URL; the main document is nil exactly in the fallback cases |
| ResTackle.GetSpecifiedRes | src/taskservice/sitesResTackle.go:485-512 | each of the seven titles returns its field; any other title returns the JSON of the whole record |
| ResTackle.SpecifiedResServesFields | src/taskservice/sitesResTackle.go:485-512 | for the seven titles the answer depends only on the field, not on the rest of the record or the serialiser |

## Left out

- Network and browser fetch (`requestDocWebDriver`, `GetDocWebDriver`, `redirectOrderPage` and its sleep, the HTTP client): the fetch is a function parameter from a URL to an optional document.
- The custom templates `templateCustomHTML1.go`, `templateCustomHTML2.go` and `templateCustomJSON1.go`: they issue HTTP requests inline.
- The older assemblers in `src/task/sites/`: they call extractors that the older site service in this model does not define.
- The older extractors, the older `initSitesLabelMaps` and the older `parseHTMLSpec`: only the older registry, cascade and walk are in the model.
- OldSites.IterativeLoopHTML: it takes the row list by value. The older `parseHTMLSpec` passes a nil `*[][]string`, which would panic on first use; that caller is not part of this model.
- OldSites.EachSibling: Go slice aliasing of the captured `levels` slice is not modelled; each sibling sees a fresh sequence, which gives the same rows because `strings.Join` copies.
- The uncalled current `iterativeLoopHTML` (`src/taskservice/sites/siteService.go:1159-1208`): nothing in the current service calls it. The walk is modelled on its older twin.
- The download channel sends in `replaceImagePaths`, the cover extractors and `TaskDownload`, and the `time.Now` image directory: they produce no result the caller reads.
- CSV decoding and file reading in `initSitesLabelMaps`: the model starts from the decoded rows (Registry.SiteService.LoadRecords). `csv.Reader` keeps its default `FieldsPerRecord` of 0, so a row whose column count differs from the first row's is a read error, on which the source calls `log.Panic` (src/taskservice/sites/siteService.go:194-200); LoadRecords registers such a row like any other.
- Logging: it has no effect on results, except where a debug log reads column 9, and that read is modelled.
- `sync.Map`: the concurrent map is a plain `map` field, because the extractor runs sequentially.
- The database, pub/sub, routing, the scheduler and the main loops: they are outside the extractor.
- goquery and jsoniter internals (CSS selection, HTML parsing, JSON decoding) are uninterpreted lookups; so are MD5, `ToJson`, `url.Parse` and `parseCurrency`. A failing `url.Parse` is not modelled, because callers pass an already parsed page.
- GoText.TrimSpace: it trims ASCII white space only; Unicode white space beyond ASCII is not modelled.
- Strings are sequences of characters standing for the bytes of Go strings; no encoding is modelled.

## Findings

| source | as written | input that shows it | evidently intended | confidence | as-written member | corrected member |
|---|---|---|---|---|---|---|
| src/taskservice/sites/templateCommonJSON.go:60 | the currency is parsed from column 2 of the first goods row, which is the image column and always "" for JSON goods (src/taskservice/sites/siteService.go:1123,1133) | a JSON page whose first goods value is "USD 12.00" gets the currency parseCurrency("") | the currency is parsed from column 1, the goods text | not executed | Assemble.CurrencyIgnoresGoods | Assemble.CurrencyIntendedReadsText |
