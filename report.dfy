/** The report generator: grouping the logged items by rating in
    first-appearance order, naming each group's HTML file from the configured
    folder names, and building each card's image path. */
module Report {
  import opened Wrappers
  import opened Text

  /** One entry of the report log: the image path, its rating label and the
      four rating probabilities. */
  datatype Item = Item(path: string, rating: string, probs: seq<real>)

  // ---------------------------------------------------------------------------
  // Grouping
  // ---------------------------------------------------------------------------

  /** The keys of `grouped` in insertion order: each rating once, in the order
      in which it first appears in the log. */
  function RatingOrder(data: seq<Item>): seq<string>
  {
    if |data| == 0 then []
    else
      var n := |data| - 1;
      var front := RatingOrder(data[..n]);
      if data[n].rating in front then front else front + [data[n].rating]
  }

  /** Each rating of the log is a key exactly once, and nothing else is. */
  lemma {:induction false} RatingOrderMembers(data: seq<Item>)
    ensures forall i, j :: 0 <= i < j < |RatingOrder(data)| ==> RatingOrder(data)[i] != RatingOrder(data)[j]
    ensures forall x :: x in RatingOrder(data) <==> exists k :: 0 <= k < |data| && data[k].rating == x
  {
    if |data| > 0 {
      var n := |data| - 1;
      RatingOrderMembers(data[..n]);
      assert forall k :: 0 <= k < n ==> data[..n][k] == data[k];
    }
  }

  /** The list `grouped[rating]` ends with: the items of that rating, in log order. */
  function Group(data: seq<Item>, rating: string): seq<Item>
  {
    if |data| == 0 then []
    else
      var n := |data| - 1;
      Group(data[..n], rating) + (if data[n].rating == rating then [data[n]] else [])
  }

  /** A group holds only items of the log with its rating. */
  lemma {:induction false} GroupMembers(data: seq<Item>, rating: string)
    ensures forall it :: it in Group(data, rating) ==> it in data && it.rating == rating
    ensures |Group(data, rating)| <= |data|
  {
    if |data| > 0 {
      var n := |data| - 1;
      GroupMembers(data[..n], rating);
      assert forall it :: it in data[..n] ==> it in data;
    }
  }

  /** A rating that never occurs has no items. */
  lemma GroupEmptyUnlessRated(data: seq<Item>, rating: string)
    ensures rating !in RatingOrder(data) ==> Group(data, rating) == []
  {
    var g := Group(data, rating);
    GroupMembers(data, rating);
    RatingOrderMembers(data);
    if |g| > 0 {
      assert g[0] in g;
      var k :| 0 <= k < |data| && data[k] == g[0];
      assert data[k].rating == rating;
    }
  }

  /** The grouping loop of `make_report`. The dictionary is `grouped`; `order`
      is the order in which its keys were inserted, which is the order
      `grouped.items()` visits them. */
  method GroupByRating(data: seq<Item>) returns (order: seq<string>, grouped: map<string, seq<Item>>)
    ensures order == RatingOrder(data)
    ensures forall r :: r in grouped <==> r in order
    ensures forall r :: r in grouped ==> grouped[r] == Group(data, r)
  {
    order := [];
    grouped := map[];
    for i := 0 to |data|
      invariant order == RatingOrder(data[..i])
      invariant forall r :: r in grouped <==> r in order
      invariant forall r :: r in grouped ==> grouped[r] == Group(data[..i], r)
    {
      var item := data[i];
      var rating := item.rating;
      assert data[..i + 1][..i] == data[..i];
      if rating !in grouped {
        GroupEmptyUnlessRated(data[..i], rating);
        grouped := grouped[rating := []];
        order := order + [rating];
      }
      grouped := grouped[rating := grouped[rating] + [item]];
    }
    assert data[..|data|] == data;
  }

  /** Grouping distributes over concatenation, and a single item goes to the
      group of its own rating: each group is the log filtered by rating, so
      its items keep their relative order. */
  lemma {:induction false} GroupAppend(a: seq<Item>, b: seq<Item>, rating: string)
    ensures Group(a + b, rating) == Group(a, rating) + Group(b, rating)
  {
    if |b| == 0 {
      assert a + b == a;
    } else {
      var n := |b| - 1;
      var last := if b[n].rating == rating then [b[n]] else [];
      assert (a + b)[..|a| + n] == a + b[..n];
      assert (a + b)[|a| + n] == b[n];
      assert Group(a + b, rating) == Group(a + b[..n], rating) + last;
      assert Group(b, rating) == Group(b[..n], rating) + last;
      GroupAppend(a, b[..n], rating);
      assert (Group(a, rating) + Group(b[..n], rating)) + last == Group(a, rating) + (Group(b[..n], rating) + last);
    }
  }

  lemma GroupSingleton(x: Item, rating: string)
    ensures Group([x], rating) == (if x.rating == rating then [x] else [])
  {
    assert [x][..0] == [];
  }

  /** Every log item lands in the group of its own rating, which is one of the
      log's ratings. */
  lemma ItemInOwnGroup(data: seq<Item>, k: int)
    requires 0 <= k < |data|
    ensures data[k].rating in RatingOrder(data)
    ensures data[k] in Group(data, data[k].rating)
  {
    RatingOrderMembers(data);
    ItemInGroup(data, k);
  }

  lemma {:induction false} ItemInGroup(data: seq<Item>, k: int)
    requires 0 <= k < |data|
    ensures data[k] in Group(data, data[k].rating)
  {
    var n := |data| - 1;
    var r := data[k].rating;
    var last := if data[n].rating == r then [data[n]] else [];
    assert Group(data, r) == Group(data[..n], r) + last;
    if k < n {
      ItemInGroup(data[..n], k);
      assert data[..n][k] == data[k];
    } else {
      assert last == [data[k]];
    }
  }

  /** Every log item lands in the group of its own rating and in no other. */
  lemma ItemInExactlyOneGroup(data: seq<Item>, k: int)
    requires 0 <= k < |data|
    ensures data[k].rating in RatingOrder(data)
    ensures forall r :: data[k] in Group(data, r) <==> r == data[k].rating
  {
    ItemInOwnGroup(data, k);
    forall r' ensures data[k] in Group(data, r') ==> r' == data[k].rating {
      GroupMembers(data, r');
    }
  }

  /** The ratings of a prefix of the log come first, in the same order, in the
      ratings of the whole log: a key once inserted keeps its place. */
  lemma {:induction false} RatingOrderPrefix(data: seq<Item>, i: int)
    requires 0 <= i <= |data|
    ensures RatingOrder(data[..i]) <= RatingOrder(data)
    decreases |data|
  {
    if i < |data| {
      var n := |data| - 1;
      assert data[..n][..i] == data[..i];
      RatingOrderPrefix(data[..n], i);
    } else {
      assert data[..i] == data;
    }
  }

  /** Groups are visited in first-appearance order: the rating of an earlier
      item comes before a rating that first appears later. */
  lemma FirstAppearanceOrder(data: seq<Item>, i: int, j: int)
    requires 0 <= i < j < |data|
    requires forall k :: 0 <= k < j ==> data[k].rating != data[j].rating
    ensures exists a, b ::
      && 0 <= a < b < |RatingOrder(data)|
      && RatingOrder(data)[a] == data[i].rating
      && RatingOrder(data)[b] == data[j].rating
  {
    var before := RatingOrder(data[..j]);
    RatingOrderMembers(data[..j]);
    RatingOrderPrefix(data, j + 1);
    assert data[..j + 1][..j] == data[..j];
    assert data[..j][i] == data[i];
    assert data[i].rating in before;
    assert data[j].rating !in before by {
      assert forall k :: 0 <= k < j ==> data[..j][k] == data[k];
    }
    assert RatingOrder(data[..j + 1]) == before + [data[j].rating];
    var a :| 0 <= a < |before| && before[a] == data[i].rating;
    var b := |before|;
    assert RatingOrder(data)[a] == data[i].rating;
    assert RatingOrder(data)[b] == data[j].rating;
  }

  /** The total size of the groups of `ratings`. */
  function Sizes(data: seq<Item>, ratings: seq<string>): nat
  {
    if |ratings| == 0 then 0 else |Group(data, ratings[0])| + Sizes(data, ratings[1..])
  }

  lemma {:induction false} SizesAddItem(d: seq<Item>, x: Item, ratings: seq<string>)
    requires forall i, j :: 0 <= i < j < |ratings| ==> ratings[i] != ratings[j]
    ensures Sizes(d + [x], ratings) == Sizes(d, ratings) + (if x.rating in ratings then 1 else 0)
  {
    if |ratings| > 0 {
      assert (d + [x])[..|d|] == d;
      SizesAddItem(d, x, ratings[1..]);
      assert x.rating in ratings <==> x.rating == ratings[0] || x.rating in ratings[1..];
      assert ratings[0] !in ratings[1..];
    }
  }

  lemma {:induction false} SizesAddRating(data: seq<Item>, ratings: seq<string>, r: string)
    ensures Sizes(data, ratings + [r]) == Sizes(data, ratings) + |Group(data, r)|
  {
    if |ratings| > 0 {
      assert (ratings + [r])[1..] == ratings[1..] + [r];
      SizesAddRating(data, ratings[1..], r);
    } else {
      assert [r][1..] == [];
    }
  }

  /** The group sizes add up to the number of log items. */
  lemma {:induction false} TotalSize(data: seq<Item>)
    ensures Sizes(data, RatingOrder(data)) == |data|
  {
    if |data| > 0 {
      var n := |data| - 1;
      var d := data[..n];
      var x := data[n];
      assert data == d + [x];
      TotalSize(d);
      var before := RatingOrder(d);
      RatingOrderMembers(d);
      SizesAddItem(d, x, before);
      if x.rating !in before {
        SizesAddRating(data, before, x.rating);
        SizesAddItem(d, x, before);
        GroupEmptyUnlessRated(d, x.rating);
        assert Group(data, x.rating) == [x];
      }
    }
  }

  // ---------------------------------------------------------------------------
  // Folder names and report file names
  // ---------------------------------------------------------------------------

  /** The part of `config.json` the report reads. */
  datatype Config = Config(folderNames: Option<map<string, string>>)

  /** `folder_mapping`: the config's `folder_names`, or empty when there is no
      config or it has none. */
  function FolderMapping(config: Option<Config>): map<string, string>
  {
    match config
    case None => map[]
    case Some(c) => c.folderNames.GetOr(map[])
  }

  /** `folder_mapping.get(rating, rating)`. */
  function FolderName(mapping: map<string, string>, rating: string): string
  {
    if rating in mapping then mapping[rating] else rating
  }

  /** A configured folder name replaces the rating; without a config, or
      without an entry for the rating, the rating itself is the folder name. */
  lemma FolderNameFromConfig(config: Option<Config>, rating: string)
    ensures config.None? ==> FolderName(FolderMapping(config), rating) == rating
    ensures config.Some? && config.value.folderNames.Some? && rating in config.value.folderNames.value ==>
      FolderName(FolderMapping(config), rating) == config.value.folderNames.value[rating]
    ensures (config.Some? ==> config.value.folderNames.None? || rating !in config.value.folderNames.value) ==>
      FolderName(FolderMapping(config), rating) == rating
  {
  }

  const ReportPrefix: string := "report_"
  const ReportSuffix: string := ".html"

  /** `f"report_{folder_name}.html"`. */
  function ReportFileName(folder: string): string
  {
    ReportPrefix + folder + ReportSuffix
  }

  /** The folder name a report file name was made from, if it has that shape. */
  function FolderOfReport(name: string): Option<string>
  {
    if |name| >= |ReportPrefix| + |ReportSuffix| &&
       name[..|ReportPrefix|] == ReportPrefix && name[|name| - |ReportSuffix|..] == ReportSuffix
    then Some(name[|ReportPrefix|..|name| - |ReportSuffix|])
    else None
  }

  /** The folder name can be read back from the file name, and every name it
      can be read back from is a report file name; so two groups share one
      report file exactly when their folder names agree. */
  lemma ReportFileNameRoundTrip(folder: string, name: string)
    ensures FolderOfReport(ReportFileName(folder)) == Some(folder)
    ensures FolderOfReport(name) == Some(folder) ==> ReportFileName(folder) == name
  {
    var n := ReportFileName(folder);
    assert n[..|ReportPrefix|] == ReportPrefix;
    assert n[|n| - |ReportSuffix|..] == ReportSuffix;
    assert n[|ReportPrefix|..|n| - |ReportSuffix|] == folder;
    if FolderOfReport(name) == Some(folder) {
      assert name == name[..|ReportPrefix|] + name[|ReportPrefix|..|name| - |ReportSuffix|] + name[|name| - |ReportSuffix|..];
    }
  }

  lemma SameReportFile(mapping: map<string, string>, r1: string, r2: string)
    ensures ReportFileName(FolderName(mapping, r1)) == ReportFileName(FolderName(mapping, r2)) <==>
      FolderName(mapping, r1) == FolderName(mapping, r2)
  {
    var f1, f2 := FolderName(mapping, r1), FolderName(mapping, r2);
    ReportFileNameRoundTrip(f1, ReportFileName(f1));
    ReportFileNameRoundTrip(f2, ReportFileName(f2));
  }

  // ---------------------------------------------------------------------------
  // Cards and pages
  // ---------------------------------------------------------------------------

  /** The image path a card shows: the path relative to the working directory
      (`None` when `os.path.relpath` raises `ValueError`, in which case the
      `file:///` URL of the absolute path is used), with backslashes made
      forward slashes. */
  function CardSource(absPath: string, relPath: Option<string>): (c: string)
    ensures '\\' !in c
    ensures relPath.Some? ==> c == Slashed(relPath.value)
    ensures relPath.None? ==> c == "file:///" + Slashed(absPath)
  {
    match relPath
    case Some(p) => Slashed(p)
    case None =>
      FileUrlSlashed(absPath);
      Slashed("file:///" + Slashed(absPath))
  }

  /** Rewriting the fallback URL a second time changes nothing. */
  lemma FileUrlSlashed(absPath: string)
    ensures Slashed("file:///" + Slashed(absPath)) == "file:///" + Slashed(absPath)
  {
    SlashedAppend("file:///", Slashed(absPath));
    SlashedNoBackslash("file:///");
    SlashedIdempotent(absPath);
  }

  /** What a card shows: its image path, the file name, and the four
      probabilities as bars. */
  datatype Card = Card(source: string, fileName: string, shares: seq<real>)

  /** The report's collaborators: `os.path.relpath` against the working
      directory and `os.path.basename`. */
  datatype ReportIo = ReportIo(relpath: string -> Option<string>, basename: string -> string)

  /** The card of one item, or `None` when it has fewer than four
      probabilities (the `IndexError` of `probs[3]`, which ends the run). */
  function CardOf(item: Item, io: ReportIo): Option<Card>
  {
    if |item.probs| < 4 then None
    else Some(Card(CardSource(item.path, io.relpath(item.path)), io.basename(item.path), item.probs[..4]))
  }

  /** The cards of one group, in group order, or `None` when an item is malformed. */
  function Cards(items: seq<Item>, io: ReportIo): (r: Option<seq<Card>>)
    ensures r.None? <==> exists k :: 0 <= k < |items| && |items[k].probs| < 4
    ensures r.Some? ==>
      && |r.value| == |items|
      && forall k :: 0 <= k < |items| ==> CardOf(items[k], io) == Some(r.value[k])
  {
    if |items| == 0 then Some([])
    else
      var n := |items| - 1;
      assert forall k :: 0 <= k < n ==> items[..n][k] == items[k];
      match Cards(items[..n], io)
      case None =>
        assert exists k :: 0 <= k < n && |items[..n][k].probs| < 4;
        None
      case Some(cs) =>
        match CardOf(items[n], io)
        case None => None
        case Some(c) => Some(cs + [c])
  }

  /** The `cards_html += ...` loop over one group. */
  method BuildCards(items: seq<Item>, io: ReportIo) returns (cards: Option<seq<Card>>)
    ensures cards == Cards(items, io)
  {
    var acc: seq<Card> := [];
    for i := 0 to |items|
      invariant Cards(items[..i], io) == Some(acc)
    {
      var item := items[i];
      assert items[..i + 1][..i] == items[..i];
      if |item.probs| < 4 {
        assert items[..i + 1][i] == item;
        assert Cards(items[..i + 1], io) == None;
        assert 0 <= i < |items| && |items[i].probs| < 4;
        return None;
      }
      var source := CardSource(item.path, io.relpath(item.path));
      acc := acc + [Card(source, io.basename(item.path), item.probs[..4])];
    }
    assert items[..|items|] == items;
    return Some(acc);
  }

  /** One generated report: its file name, its category heading, the count
      it displays and its cards. */
  datatype Page = Page(fileName: string, category: string, count: nat, cards: seq<Card>)

  /** The reports written, and whether the run reached its end (it does not
      when a malformed item raises). */
  datatype Reports = Reports(pages: seq<Page>, complete: bool)

  function PageFor(rating: string, items: seq<Item>, mapping: map<string, string>, io: ReportIo): Option<Page>
  {
    var folder := FolderName(mapping, rating);
    match Cards(items, io)
    case None => None
    case Some(cs) => Some(Page(ReportFileName(folder), folder, |items|, cs))
  }

  /** The pages for the groups of `ratings`, in that order, up to the first
      malformed group. */
  function PagesFor(ratings: seq<string>, data: seq<Item>, mapping: map<string, string>, io: ReportIo): Reports
  {
    if |ratings| == 0 then Reports([], true)
    else
      match PageFor(ratings[0], Group(data, ratings[0]), mapping, io)
      case None => Reports([], false)
      case Some(p) =>
        var rest := PagesFor(ratings[1..], data, mapping, io);
        Reports([p] + rest.pages, rest.complete)
  }

  function ReportOf(data: seq<Item>, mapping: map<string, string>, io: ReportIo): Reports
  {
    PagesFor(RatingOrder(data), data, mapping, io)
  }

  /** `make_report` from the loaded config and log onwards. */
  method MakeReport(data: seq<Item>, config: Option<Config>, io: ReportIo) returns (pages: seq<Page>, complete: bool)
    ensures Reports(pages, complete) == ReportOf(data, FolderMapping(config), io)
  {
    var folderMapping := FolderMapping(config);
    var order, grouped := GroupByRating(data);
    ghost var total := PagesFor(order, data, folderMapping, io);
    pages := [];
    for i := 0 to |order|
      invariant After(pages, PagesFor(order[i..], data, folderMapping, io)) == total
    {
      var rating := order[i];
      assert rating in order;
      var page := RenderGroup(rating, grouped[rating], folderMapping, io);
      PageStep(order, i, data, folderMapping, io, pages);
      if page.None? {
        return pages, false;
      }
      pages := pages + [page.value];
    }
    assert order[|order|..] == [];
    assert pages + [] == pages;
    complete := true;
  }

  /** The pages written so far, followed by the rest of a run. */
  function After(pages: seq<Page>, rest: Reports): Reports
  {
    Reports(pages + rest.pages, rest.complete)
  }

  /** The body of the loop over `grouped.items()` for one group: its folder
      name, its file name and its cards, or `None` when a card raises. */
  method RenderGroup(rating: string, items: seq<Item>, mapping: map<string, string>, io: ReportIo) returns (page: Option<Page>)
    ensures page == PageFor(rating, items, mapping, io)
  {
    var folderName := FolderName(mapping, rating);
    var htmlFileName := ReportFileName(folderName);
    var cards := BuildCards(items, io);
    if cards.None? {
      return None;
    }
    page := Some(Page(htmlFileName, folderName, |items|, cards.value));
  }

  /** One group of the report loop: a failed page ends the run there, and a
      page otherwise joins those before it. */
  lemma PageStep(order: seq<string>, i: int, data: seq<Item>, mapping: map<string, string>, io: ReportIo, pages: seq<Page>)
    requires 0 <= i < |order|
    ensures var page := PageFor(order[i], Group(data, order[i]), mapping, io);
      var here, next := PagesFor(order[i..], data, mapping, io), PagesFor(order[i + 1..], data, mapping, io);
      && (page.None? ==> After(pages, here) == Reports(pages, false))
      && (page.Some? ==> After(pages, here) == After(pages + [page.value], next))
  {
    var rest := order[i..];
    assert rest[0] == order[i] && rest[1..] == order[i + 1..];
    var page := PageFor(rest[0], Group(data, rest[0]), mapping, io);
    var next := PagesFor(rest[1..], data, mapping, io);
    match page
    case None =>
      assert PagesFor(rest, data, mapping, io) == Reports([], false);
      assert pages + [] == pages;
    case Some(p) =>
      assert PagesFor(rest, data, mapping, io) == Reports([p] + next.pages, next.complete);
      assert (pages + [p]) + next.pages == pages + ([p] + next.pages);
  }

  /** The sum of the counts the pages display. */
  function TotalCount(pages: seq<Page>): nat
  {
    if |pages| == 0 then 0 else pages[0].count + TotalCount(pages[1..])
  }

  /** What holds of each page produced for a list of ratings. */
  ghost predicate PageFits(p: Page, rating: string, data: seq<Item>, mapping: map<string, string>)
  {
    && p.category == FolderName(mapping, rating)
    && p.fileName == ReportFileName(p.category)
    && p.count == |p.cards| == |Group(data, rating)|
    && forall c :: c in p.cards ==> '\\' !in c.source
  }

  /** The pages for a list of ratings: at most one per rating, one per rating
      exactly when the run completes, and then their counts add up to the
      sizes of those groups. */
  lemma {:induction false} PagesForCounts(ratings: seq<string>, data: seq<Item>, mapping: map<string, string>, io: ReportIo)
    ensures |PagesFor(ratings, data, mapping, io).pages| <= |ratings|
    ensures PagesFor(ratings, data, mapping, io).complete ==>
      && |PagesFor(ratings, data, mapping, io).pages| == |ratings|
      && TotalCount(PagesFor(ratings, data, mapping, io).pages) == Sizes(data, ratings)
  {
    if |ratings| > 0 {
      PagesForCounts(ratings[1..], data, mapping, io);
      var rest := PagesFor(ratings[1..], data, mapping, io);
      match PageFor(ratings[0], Group(data, ratings[0]), mapping, io)
      case None =>
      case Some(p) =>
        assert PagesFor(ratings, data, mapping, io).pages == [p] + rest.pages;
        assert ([p] + rest.pages)[1..] == rest.pages;
    }
  }

  /** A rating's group renders: every item in it has its four probabilities. */
  ghost predicate Renders(data: seq<Item>, rating: string, io: ReportIo)
  {
    Cards(Group(data, rating), io).Some?
  }

  /** The run over a list of ratings completes exactly when every one of
      their groups renders. */
  lemma {:induction false} PagesForComplete(ratings: seq<string>, data: seq<Item>, mapping: map<string, string>, io: ReportIo)
    ensures PagesFor(ratings, data, mapping, io).complete <==>
      forall j :: 0 <= j < |ratings| ==> Renders(data, ratings[j], io)
  {
    if |ratings| > 0 {
      var tail := ratings[1..];
      PagesForComplete(tail, data, mapping, io);
      var first := Renders(data, ratings[0], io);
      assert PageFor(ratings[0], Group(data, ratings[0]), mapping, io).Some? == first;
      assert PagesFor(ratings, data, mapping, io).complete == (first && PagesFor(tail, data, mapping, io).complete);
      if first && PagesFor(tail, data, mapping, io).complete {
        forall j | 0 <= j < |ratings| ensures Renders(data, ratings[j], io) {
          if j > 0 { assert tail[j - 1] == ratings[j]; }
        }
      }
      if forall j :: 0 <= j < |ratings| ==> Renders(data, ratings[j], io) {
        forall j | 0 <= j < |tail| ensures Renders(data, tail[j], io) {
          assert tail[j] == ratings[j + 1];
        }
      }
    }
  }

  /** The page one rating's group yields fits that rating. */
  lemma PageForFits(rating: string, data: seq<Item>, mapping: map<string, string>, io: ReportIo)
    ensures PageFor(rating, Group(data, rating), mapping, io).Some? ==>
      PageFits(PageFor(rating, Group(data, rating), mapping, io).value, rating, data, mapping)
  {
    var items := Group(data, rating);
    match Cards(items, io)
    case None =>
    case Some(cs) =>
      var p := PageFor(rating, items, mapping, io).value;
      forall c | c in p.cards ensures '\\' !in c.source {
        var k :| 0 <= k < |cs| && cs[k] == c;
        assert CardOf(items[k], io) == Some(c);
      }
  }

  /** Page by page, each page fits the rating at the same position. */
  ghost predicate PagesFit(pages: seq<Page>, ratings: seq<string>, data: seq<Item>, mapping: map<string, string>)
    decreases |pages|
  {
    && |pages| <= |ratings|
    && (|pages| > 0 ==>
         PageFits(pages[0], ratings[0], data, mapping) && PagesFit(pages[1..], ratings[1..], data, mapping))
  }

  lemma {:induction false} PagesFitAt(pages: seq<Page>, ratings: seq<string>, data: seq<Item>, mapping: map<string, string>, j: int)
    requires PagesFit(pages, ratings, data, mapping) && 0 <= j < |pages|
    ensures j < |ratings| && PageFits(pages[j], ratings[j], data, mapping)
    decreases j
  {
    if j > 0 {
      PagesFitAt(pages[1..], ratings[1..], data, mapping, j - 1);
    }
  }

  /** Each page produced for a list of ratings fits the rating at its position. */
  lemma {:induction false} PagesForFit(ratings: seq<string>, data: seq<Item>, mapping: map<string, string>, io: ReportIo)
    ensures PagesFit(PagesFor(ratings, data, mapping, io).pages, ratings, data, mapping)
  {
    if |ratings| > 0 {
      PagesForFit(ratings[1..], data, mapping, io);
      PageForFits(ratings[0], data, mapping, io);
      var rest := PagesFor(ratings[1..], data, mapping, io);
      match PageFor(ratings[0], Group(data, ratings[0]), mapping, io)
      case None =>
        assert PagesFor(ratings, data, mapping, io).pages == [];
      case Some(p) =>
        var pages := PagesFor(ratings, data, mapping, io).pages;
        assert pages == [p] + rest.pages;
        assert pages[1..] == rest.pages;
    }
  }

  /** The reports of a log. Each page belongs to the group of the rating at its
      position, in first-appearance order; its file is named from the folder
      name; its displayed count is its group's size and its number of cards;
      no card path has a backslash. The run completes exactly when every item
      has at least four probabilities, and then there is one page per rating
      and the displayed counts add up to the number of log items. */
  lemma ReportPages(data: seq<Item>, mapping: map<string, string>, io: ReportIo)
    ensures ReportOf(data, mapping, io).complete <==> forall k :: 0 <= k < |data| ==> |data[k].probs| >= 4
    ensures ReportOf(data, mapping, io).complete ==>
      |ReportOf(data, mapping, io).pages| == |RatingOrder(data)| &&
      TotalCount(ReportOf(data, mapping, io).pages) == |data|
    ensures forall j :: 0 <= j < |ReportOf(data, mapping, io).pages| ==>
      && j < |RatingOrder(data)|
      && PageFits(ReportOf(data, mapping, io).pages[j], RatingOrder(data)[j], data, mapping)
  {
    var order := RatingOrder(data);
    PagesForCounts(order, data, mapping, io);
    PagesForComplete(order, data, mapping, io);
    PagesForFit(order, data, mapping, io);
    forall j | 0 <= j < |ReportOf(data, mapping, io).pages|
      ensures j < |order| && PageFits(ReportOf(data, mapping, io).pages[j], order[j], data, mapping)
    {
      PagesFitAt(ReportOf(data, mapping, io).pages, order, data, mapping, j);
    }
    TotalSize(data);
    WellFormedRenders(data, io);
    RendersWellFormed(data, io);
  }

  /** When every item has its four probabilities, every group renders. */
  lemma WellFormedRenders(data: seq<Item>, io: ReportIo)
    ensures (forall k :: 0 <= k < |data| ==> |data[k].probs| >= 4) ==>
      forall j :: 0 <= j < |RatingOrder(data)| ==> Renders(data, RatingOrder(data)[j], io)
  {
    if forall k :: 0 <= k < |data| ==> |data[k].probs| >= 4 {
      forall r ensures Renders(data, r, io) {
        var g := Group(data, r);
        GroupMembers(data, r);
        forall m | 0 <= m < |g| ensures |g[m].probs| >= 4 {
          assert g[m] in g;
          var k :| 0 <= k < |data| && data[k] == g[m];
        }
      }
    }
  }

  /** When every group of the log renders, every item has its four probabilities. */
  lemma RendersWellFormed(data: seq<Item>, io: ReportIo)
    ensures (forall j :: 0 <= j < |RatingOrder(data)| ==> Renders(data, RatingOrder(data)[j], io)) ==>
      forall k :: 0 <= k < |data| ==> |data[k].probs| >= 4
  {
    var order := RatingOrder(data);
    if forall j :: 0 <= j < |order| ==> Renders(data, order[j], io) {
      forall k | 0 <= k < |data| ensures |data[k].probs| >= 4 {
        ItemInOwnGroup(data, k);
        var j :| 0 <= j < |order| && order[j] == data[k].rating;
        RenderedItem(Group(data, order[j]), io, data[k]);
      }
    }
  }

  /** An item of a group that renders has its four probabilities. */
  lemma RenderedItem(items: seq<Item>, io: ReportIo, it: Item)
    requires Cards(items, io).Some? && it in items
    ensures |it.probs| >= 4
  {
    var m :| 0 <= m < |items| && items[m] == it;
  }
}
