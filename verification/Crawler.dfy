/** The list processing inside the crawler's page handlers (`fetch_home`,
    `fetch_reviews`, `fetch_blog_contents`, `fetch_photos`). The browser is
    not modelled: what it would return (element texts, attributes, image
    sizes, the page as seen on each pass) is given as input. Each handler is a
    method with the source's loop, proved against a specification function,
    and the raw dictionary it hands to the record validators is built here. */
module Crawler {
  import opened Wrappers
  import opened Seqs
  import opened Text
  import opened ReviewParser
  import opened Dtos

  // ---------------------------------------------------------------------------
  // fetch_home: opening-hours rows

  /** One `div.w9QyJ` row: the text of its day element and of its time element,
      `None` where the element is missing. */
  datatype DayRow = DayRow(day: Option<string>, time: Option<string>)

  predicate HasBoth(r: DayRow) {
    r.day.Some? && r.time.Some?
  }

  /** The hours list the loop builds: one stripped `(day, time)` pair per row
      holding both elements, in page order. */
  function HoursOf(rows: seq<DayRow>): (hours: seq<(string, string)>)
    ensures |hours| <= |rows|
    ensures forall h | h in hours :: exists r | r in rows && HasBoth(r) :: h == (Strip(r.day.value), Strip(r.time.value))
  {
    if rows == [] then []
    else
      var last := rows[|rows| - 1];
      var init := HoursOf(rows[..|rows| - 1]);
      if HasBoth(last) then init + [(Strip(last.day.value), Strip(last.time.value))] else init
  }

  function CountBoth(rows: seq<DayRow>): nat {
    if rows == [] then 0 else CountBoth(rows[..|rows| - 1]) + (if HasBoth(rows[|rows| - 1]) then 1 else 0)
  }

  /** Exactly the rows with both elements contribute, and every pair is stripped. */
  lemma {:induction false} HoursOfShape(rows: seq<DayRow>)
    ensures |HoursOf(rows)| == CountBoth(rows)
    ensures forall h | h in HoursOf(rows) :: Strip(h.0) == h.0 && Strip(h.1) == h.1
  {
    if rows != [] {
      HoursOfShape(rows[..|rows| - 1]);
      var last := rows[|rows| - 1];
      if HasBoth(last) {
        StripIdempotent(last.day.value);
        StripIdempotent(last.time.value);
      }
    }
  }

  /** The stripped texts of a row's two elements (rows lacking one are filtered out before). */
  function StripPair(r: DayRow): (string, string) {
    match r
    case DayRow(Some(day), Some(time)) => (Strip(day), Strip(time))
    case _ => ([], [])
  }

  /** The hours are the stripped pairs of the rows holding both elements, in
      page order: one pair per such row and nothing else. */
  lemma {:induction false} HoursOfIsFilterMap(rows: seq<DayRow>)
    ensures HoursOf(rows) == Map(Filter(rows, HasBoth), StripPair)
  {
    if rows != [] {
      var init, last := rows[..|rows| - 1], rows[|rows| - 1];
      HoursOfIsFilterMap(init);
      assert rows == init + [last];
      FilterAppend(init, [last], HasBoth);
      assert [last][1..] == [];
      var kept := if HasBoth(last) then [last] else [];
      assert Filter([last], HasBoth) == kept;
      MapAppend(Filter(init, HasBoth), kept, StripPair);
      assert kept != [] ==> kept[1..] == [];
    }
  }

  /** `for div in day_divs: ... if day_elem and time_elem: hours.append(...)`. */
  method CollectHours(rows: seq<DayRow>) returns (hours: seq<(string, string)>)
    ensures hours == HoursOf(rows)
  {
    hours := [];
    var i := 0;
    while i < |rows|
      invariant 0 <= i <= |rows|
      invariant hours == HoursOf(rows[..i])
    {
      var r := rows[i];
      assert rows[..i + 1][..i] == rows[..i];
      if r.day.Some? && r.time.Some? {
        hours := hours + [(Strip(r.day.value), Strip(r.time.value))];
      }
      i := i + 1;
    }
    assert rows[..i] == rows;
  }

  function HoursRaw(hours: seq<(string, string)>): (vs: seq<Value>)
    ensures |vs| == |hours|
    ensures forall k | 0 <= k < |hours| :: vs[k] == VDict(map["day" := VStr(hours[k].0), "time" := VStr(hours[k].1)])
  {
    if hours == [] then []
    else [VDict(map["day" := VStr(hours[0].0), "time" := VStr(hours[0].1)])] + HoursRaw(hours[1..])
  }

  /** The `home_data` dictionary. */
  function HomeRaw(name: string, address: string, businessHours: string, hours: seq<(string, string)>): Value {
    VDict(map[
      "name" := VStr(name),
      "address" := VStr(address),
      "business_hours" := VStr(businessHours),
      "hours" := VList(HoursRaw(hours))])
  }

  /** What `fetch_home` returns always passes `HomeDataDTO`, and the record holds
      the collected hours unchanged and in order. */
  lemma HomeRawValidates(name: string, address: string, businessHours: string, hours: seq<(string, string)>)
    ensures var r := ValidateHomeData(HomeRaw(name, address, businessHours, hours));
      && r.Ok?
      && r.value.name == name && r.value.address == address && r.value.businessHours == businessHours
      && |r.value.hours| == |hours|
      && forall k | 0 <= k < |hours| :: r.value.hours[k] == PlaceHoursDto(hours[k].0, hours[k].1)
  {
    var raw := HoursRaw(hours);
    forall k | 0 <= k < |raw| ensures ValidatePlaceHours(raw[k]) == Ok(PlaceHoursDto(hours[k].0, hours[k].1)) {
      assert raw[k] == DumpPlaceHours(PlaceHoursDto(hours[k].0, hours[k].1));
      PlaceHoursRoundTrip(PlaceHoursDto(hours[k].0, hours[k].1));
    }
  }

  // ---------------------------------------------------------------------------
  // fetch_reviews: the first four review cards

  /** The texts `fetch_reviews` keeps: the first four cards, each stripped. */
  function FirstCardTexts(cards: seq<string>): seq<string> {
    Map(Slice(cards, 0, 4), Strip)
  }

  /** The parsed reviews: one `parse_review_text` per kept text, in order. */
  function FirstReviews(cards: seq<string>): seq<ParsedReview> {
    Map(FirstCardTexts(cards), ParseReviewText)
  }

  /** At most four reviews, the k-th parsed from the k-th card on the page. */
  lemma FirstReviewsInPageOrder(cards: seq<string>)
    ensures |FirstReviews(cards)| == if |cards| < 4 then |cards| else 4
    ensures forall k | 0 <= k < |FirstReviews(cards)| :: FirstReviews(cards)[k] == ParseReviewText(Strip(cards[k]))
  {
    var texts := FirstCardTexts(cards);
    forall k | 0 <= k < |texts| ensures texts[k] == Strip(cards[k]) {
    }
  }

  /** `for r in review_elements[:4]: reviews.append(text.strip())`, then
      `for review in reviews: parsed_review_list.append(parse_review_text(review))`. */
  method FetchReviews(cards: seq<string>) returns (parsed: seq<ParsedReview>)
    ensures parsed == FirstReviews(cards)
  {
    var texts := MapEach(Slice(cards, 0, 4), Strip);
    parsed := MapEach(texts, ParseReviewText);
  }

  function OptCount(n: Option<nat>): Option<int> {
    if n.Some? then Some(n.value) else None
  }

  /** The `profile` dictionary of a parsed review. */
  function ProfileRaw(p: Profile): Value {
    VDict(map["review" := OptInt(OptCount(p.review)), "photo" := OptInt(OptCount(p.photo)), "follower" := OptInt(OptCount(p.follower))])
  }

  /** The dictionary `parse_review_text` returns. */
  function ReviewRaw(p: ParsedReview): Value {
    VDict(map[
      "author" := OptStr(p.author),
      "profile" := ProfileRaw(p.profile),
      "follow" := VBool(p.follow),
      "visit_info" := OptStr(p.visitInfo),
      "body" := VStr(p.body),
      "tags" := VList(StrValues(p.tags)),
      "review_more" := VBool(p.reviewMore),
      "extra_review_line" := OptStr(p.extraReviewLine),
      "visit_date" := OptStr(p.visitDate),
      "visit_count" := OptStr(p.visitCount),
      "receipt" := OptStr(p.receipt)])
  }

  /** The record a parsed review with an author becomes. */
  function ReviewDtoOf(p: ParsedReview): ReviewDto
    requires p.author.Some?
  {
    ReviewDto(
      p.author.value,
      Some(ProfileDto(OptCount(p.profile.review), OptCount(p.profile.photo), OptCount(p.profile.follower))),
      Some(p.follow), p.visitInfo, Some(p.body), Some(p.tags), Some(p.reviewMore),
      p.extraReviewLine, p.visitDate, p.visitCount, p.receipt)
  }

  /** A parsed review passes `ReviewDTO` exactly when it has an author, and then
      every field arrives unchanged. */
  lemma ReviewRawValidates(p: ParsedReview)
    ensures p.author.Some? ==> ValidateReview(ReviewRaw(p)) == Ok(ReviewDtoOf(p))
    ensures p.author.None? ==> ValidateReview(ReviewRaw(p)).Err?
  {
    if p.author.Some? {
      RawIsDump(p);
      ReviewRoundTrip(ReviewDtoOf(p));
    } else {
      assert ReviewRaw(p).fields["author"] == VNone;
    }
  }

  /** The dictionary of a parsed review with an author is the dump of its record. */
  lemma RawIsDump(p: ParsedReview)
    requires p.author.Some?
    ensures ReviewRaw(p) == DumpReview(ReviewDtoOf(p))
  {
    assert DumpProfile(ReviewDtoOf(p).profile.value) == ProfileRaw(p.profile);
  }

  /** The `review_data` dictionary. */
  function ReviewDataRaw(parsed: seq<ParsedReview>): Value {
    VDict(map["reviews" := VList(Map(parsed, ReviewRaw))])
  }

  /** `ReviewDataDTO(**review_data)` succeeds iff every parsed review has an
      author, and then holds one record per parsed review, in order. */
  lemma ReviewDataValidates(parsed: seq<ParsedReview>)
    ensures ValidateReviewData(ReviewDataRaw(parsed)).Ok? <==> forall k | 0 <= k < |parsed| :: parsed[k].author.Some?
    ensures ValidateReviewData(ReviewDataRaw(parsed)).Ok? ==>
      && |ValidateReviewData(ReviewDataRaw(parsed)).value.reviews| == |parsed|
      && forall k | 0 <= k < |parsed| :: ValidateReviewData(ReviewDataRaw(parsed)).value.reviews[k] == ReviewDtoOf(parsed[k])
  {
    var items := Map(parsed, ReviewRaw);
    forall k | 0 <= k < |parsed|
      ensures ValidateReview(items[k]).Ok? <==> parsed[k].author.Some?
      ensures parsed[k].author.Some? ==> ValidateReview(items[k]) == Ok(ReviewDtoOf(parsed[k]))
    {
      ReviewRawValidates(parsed[k]);
    }
  }

  /** Stripping keeps a text blank exactly when it was blank. */
  lemma StripKeepsBlankness(s: string)
    ensures IsBlank(Strip(s)) <==> IsBlank(s)
  {
  }

  /** End to end: the reviews `fetch_reviews` returns fail `ReviewDataDTO`
      exactly when one of the first four cards is whitespace only (its parse
      has no author). */
  lemma FetchedReviewsValidate(cards: seq<string>)
    ensures ValidateReviewData(ReviewDataRaw(FirstReviews(cards))).Ok? <==>
      forall k | 0 <= k < |cards| && k < 4 :: !IsBlank(cards[k])
  {
    FirstAuthors(cards);
    ValidatesIffAuthorsPresent(FirstReviews(cards), cards);
  }

  lemma ValidatesIffAuthorsPresent(parsed: seq<ParsedReview>, cards: seq<string>)
    requires |parsed| == if |cards| < 4 then |cards| else 4
    requires forall k | 0 <= k < |parsed| :: parsed[k].author.Some? <==> !IsBlank(cards[k])
    ensures ValidateReviewData(ReviewDataRaw(parsed)).Ok? <==> forall k | 0 <= k < |cards| && k < 4 :: !IsBlank(cards[k])
  {
    ReviewDataValidates(parsed);
  }

  /** The first reviews have one record per card among the first four, with
      an author exactly where the card is not whitespace only. */
  lemma FirstAuthors(cards: seq<string>)
    ensures |FirstReviews(cards)| == if |cards| < 4 then |cards| else 4
    ensures forall k | 0 <= k < |FirstReviews(cards)| :: FirstReviews(cards)[k].author.Some? <==> !IsBlank(cards[k])
  {
    var parsed := FirstReviews(cards);
    FirstReviewsInPageOrder(cards);
    forall k | 0 <= k < |parsed| ensures parsed[k].author.Some? <==> !IsBlank(cards[k]) {
      CardHasAuthor(cards[k]);
    }
  }

  /** A card's parse has an author exactly when the card is not whitespace only. */
  lemma CardHasAuthor(card: string)
    ensures ParseReviewText(Strip(card)).author.Some? <==> !IsBlank(card)
  {
    AuthorAbsentIffBlank(Strip(card));
    StripKeepsBlankness(card);
  }

  // ---------------------------------------------------------------------------
  // fetch_blog_contents: the post body and its images

  const ZeroWidthSpace: char := '\U{200B}'

  predicate Visible(c: char) {
    c != ZeroWidthSpace
  }

  /** `text.replace("​", "").strip()` for one text block. */
  function CleanBlock(text: string): string {
    Strip(Filter(text, Visible))
  }

  /** The post body: every block cleaned, concatenated in page order. */
  function BlogContent(blocks: seq<string>): string {
    Concat(Map(blocks, CleanBlock))
  }

  /** `for content in contents: sum_contents += clean_content`. */
  method ConcatBlocks(blocks: seq<string>) returns (content: string)
    ensures content == BlogContent(blocks)
  {
    content := [];
    var i := 0;
    while i < |blocks|
      invariant 0 <= i <= |blocks|
      invariant content == BlogContent(blocks[..i])
    {
      var clean := CleanBlock(blocks[i]);
      BlogContentStep(blocks, i);
      content := content + clean;
      i := i + 1;
    }
    assert blocks[..i] == blocks;
  }

  lemma BlogContentStep(blocks: seq<string>, i: nat)
    requires i < |blocks|
    ensures BlogContent(blocks[..i + 1]) == BlogContent(blocks[..i]) + CleanBlock(blocks[i])
  {
    var clean := CleanBlock(blocks[i]);
    assert blocks[..i + 1] == blocks[..i] + [blocks[i]];
    MapAppend(blocks[..i], [blocks[i]], CleanBlock);
    assert Map([blocks[i]], CleanBlock) == [clean];
    ConcatAppend(Map(blocks[..i], CleanBlock), [clean]);
    ConcatOne(clean);
  }

  /** A cleaned block holds no zero-width space, starts and ends with a
      visible non-whitespace character, and cleaning it again changes nothing. */
  lemma CleanBlockIsClean(text: string)
    ensures ZeroWidthSpace !in CleanBlock(text)
    ensures CleanBlock(text) != [] ==> !IsSpace(CleanBlock(text)[0]) && !IsSpace(CleanBlock(text)[|CleanBlock(text)| - 1])
    ensures CleanBlock(CleanBlock(text)) == CleanBlock(text)
  {
    var c := CleanBlock(text);
    CleanBlockVisible(text);
    FilterAllPass(c, Visible);
    StripTrimmed(c);
  }

  lemma CleanBlockVisible(text: string)
    ensures forall k | 0 <= k < |CleanBlock(text)| :: Visible(CleanBlock(text)[k])
  {
    var f := Filter(text, Visible);
    FilterMembers(text, Visible);
    var i, j := StripInfix(f);
    var c := CleanBlock(text);
    forall k | 0 <= k < |c| ensures Visible(c[k]) {
      assert c[k] == f[i + k];
      assert f[i + k] in f;
    }
  }

  /** The body holds no zero-width space at all. */
  lemma {:induction false} BlogContentHasNoZeroWidthSpace(blocks: seq<string>)
    ensures ZeroWidthSpace !in BlogContent(blocks)
  {
    if blocks != [] {
      CleanBlockIsClean(blocks[0]);
      BlogContentHasNoZeroWidthSpace(blocks[1..]);
      assert Map(blocks, CleanBlock) == [CleanBlock(blocks[0])] + Map(blocks[1..], CleanBlock);
    }
  }

  predicate NonEmptySrc(src: Option<string>) {
    src.Some? && src.value != []
  }

  function SrcText(src: Option<string>): string {
    if src.Some? then src.value else []
  }

  /** The image list: the non-empty `data-lazy-src` values, in page order. */
  function LazySources(srcs: seq<Option<string>>): seq<string> {
    Map(Filter(srcs, NonEmptySrc), SrcText)
  }

  /** `for element in image_elements: if src: image_list.append(src)`. */
  method CollectImageSources(srcs: seq<Option<string>>) returns (images: seq<string>)
    ensures images == LazySources(srcs)
  {
    images := [];
    var i := 0;
    while i < |srcs|
      invariant 0 <= i <= |srcs|
      invariant images == LazySources(srcs[..i])
    {
      var src := srcs[i];
      LazySourcesStep(srcs, i);
      if src.Some? && src.value != [] {
        images := images + [src.value];
      }
      i := i + 1;
    }
    assert srcs[..i] == srcs;
  }

  lemma LazySourcesStep(srcs: seq<Option<string>>, i: nat)
    requires i < |srcs|
    ensures LazySources(srcs[..i + 1])
         == LazySources(srcs[..i]) + (if NonEmptySrc(srcs[i]) then [srcs[i].value] else [])
  {
    var src := srcs[i];
    assert srcs[..i + 1] == srcs[..i] + [src];
    FilterAppend(srcs[..i], [src], NonEmptySrc);
    var one := Filter([src], NonEmptySrc);
    assert one == if NonEmptySrc(src) then [src] else [];
    MapAppend(Filter(srcs[..i], NonEmptySrc), one, SrcText);
    assert Map(one, SrcText) == if NonEmptySrc(src) then [src.value] else [];
  }

  /** Every collected source is non-empty and is one of the attribute values;
      every non-empty attribute value is collected. */
  lemma LazySourcesAreTheNonEmptyValues(srcs: seq<Option<string>>)
    ensures forall s | s in LazySources(srcs) :: s != [] && Some(s) in srcs
    ensures forall k | 0 <= k < |srcs| && NonEmptySrc(srcs[k]) :: srcs[k].value in LazySources(srcs)
  {
    var kept := Filter(srcs, NonEmptySrc);
    FilterMembers(srcs, NonEmptySrc);
    var images := LazySources(srcs);
    forall s | s in images ensures s != [] && Some(s) in srcs {
      var k :| 0 <= k < |images| && images[k] == s;
      assert kept[k] in kept;
    }
    forall k | 0 <= k < |srcs| && NonEmptySrc(srcs[k]) ensures srcs[k].value in images {
      assert srcs[k] in kept;
      var m :| 0 <= m < |kept| && kept[m] == srcs[k];
      assert images[m] == SrcText(kept[m]);
    }
  }

  /** The `blog_data` dictionary after `blog_data.update({"blog_url": blog_url})`:
      the title, nickname and date texts stripped, the `href` of the first blog
      link (`None` when the link has none). */
  function BlogRaw(title: string, nickname: string, date: string, blocks: seq<string>, srcs: seq<Option<string>>, href: Option<string>): Value {
    BlogDict(Strip(title), Strip(nickname), Strip(date), BlogContent(blocks), LazySources(srcs), href)
  }

  function BlogDict(title: string, author: string, date: string, content: string, images: seq<string>, href: Option<string>): Value {
    VDict(map[
      "title" := VStr(title),
      "author" := VStr(author),
      "date" := VStr(date),
      "content" := VStr(content),
      "images" := VList(StrValues(images)),
      "blog_url" := OptStr(href)])
  }

  /** `BlogDataDTO(**blog_data)` succeeds exactly when the link had an `href`,
      and the record carries what the handler collected. */
  lemma BlogRawValidates(title: string, nickname: string, date: string, blocks: seq<string>, srcs: seq<Option<string>>, href: Option<string>)
    ensures ValidateBlogData(BlogRaw(title, nickname, date, blocks, srcs, href)).Ok? <==> href.Some?
    ensures href.Some? ==>
      ValidateBlogData(BlogRaw(title, nickname, date, blocks, srcs, href)) == Ok(BlogDataDto(Strip(title), Strip(nickname), Strip(date), BlogContent(blocks), href.value, LazySources(srcs)))
  {
    BlogDictValidates(Strip(title), Strip(nickname), Strip(date), BlogContent(blocks), LazySources(srcs), href);
  }

  lemma BlogDictValidates(title: string, author: string, date: string, content: string, images: seq<string>, href: Option<string>)
    ensures ValidateBlogData(BlogDict(title, author, date, content, images, href)).Ok? <==> href.Some?
    ensures href.Some? ==>
      ValidateBlogData(BlogDict(title, author, date, content, images, href)) == Ok(BlogDataDto(title, author, date, content, href.value, images))
  {
    if href.Some? {
      var b := BlogDataDto(title, author, date, content, href.value, images);
      assert BlogDict(title, author, date, content, images, href) == DumpBlogData(b);
      BlogDataRoundTrip(b);
    } else {
      assert BlogDict(title, author, date, content, images, href).fields["blog_url"] == VNone;
    }
  }

  // ---------------------------------------------------------------------------
  // fetch_photos: the photo-tab loop

  /** One `img` element: its `src` attribute and its natural size. */
  datatype ImageElement = ImageElement(src: Option<string>, width: int, height: int)

  /** The smallest natural width and height a photo must have. */
  const MinSide: int := 300

  /** How many photos the handler wants (`large_images[:3]`). */
  const PhotoCount: nat := 3

  predicate IsLarge(e: ImageElement) {
    e.src.Some? && e.src.value != [] && e.width >= MinSide && e.height >= MinSide
  }

  function ImageSrc(e: ImageElement): string {
    if e.src.Some? then e.src.value else []
  }

  /** What one pass over the page appends: the sources of the large images, in order. */
  function LargeSources(page: seq<ImageElement>): seq<string> {
    Map(Filter(page, IsLarge), ImageSrc)
  }

  /** `large_images` after a pass over each snapshot in turn; it is never reset. */
  function Accumulated(pages: seq<seq<ImageElement>>): seq<string> {
    Concat(Map(pages, LargeSources))
  }

  /** The photos `fetch_photos` returns when the page looks like `pages[i]` on
      its i-th pass: the first three sources accumulated, once there are at
      least three; `None` if the snapshots run out first (the handler itself
      would go on scrolling forever). */
  function PhotoSelection(pages: seq<seq<ImageElement>>): Option<seq<string>> {
    var all := Accumulated(pages);
    if |all| >= PhotoCount then Some(all[..PhotoCount]) else None
  }

  lemma AccumulatedStep(pages: seq<seq<ImageElement>>, i: nat)
    requires i < |pages|
    ensures Accumulated(pages[..i + 1]) == Accumulated(pages[..i]) + LargeSources(pages[i])
  {
    assert pages[..i + 1] == pages[..i] + [pages[i]];
    MapAppend(pages[..i], [pages[i]], LargeSources);
    assert Map([pages[i]], LargeSources) == [LargeSources(pages[i])];
    ConcatAppend(Map(pages[..i], LargeSources), [LargeSources(pages[i])]);
    ConcatOne(LargeSources(pages[i]));
  }

  lemma AccumulatedPrefix(pages: seq<seq<ImageElement>>, i: nat)
    requires i <= |pages|
    ensures Accumulated(pages[..i]) <= Accumulated(pages)
  {
    assert pages == pages[..i] + pages[i..];
    MapAppend(pages[..i], pages[i..], LargeSources);
    ConcatAppend(Map(pages[..i], LargeSources), Map(pages[i..], LargeSources));
  }

  lemma LargeSourcesStep(page: seq<ImageElement>, j: nat)
    requires j < |page|
    ensures LargeSources(page[..j + 1]) == LargeSources(page[..j]) + (if IsLarge(page[j]) then [ImageSrc(page[j])] else [])
  {
    assert page[..j + 1] == page[..j] + [page[j]];
    FilterAppend(page[..j], [page[j]], IsLarge);
    MapAppend(Filter(page[..j], IsLarge), Filter([page[j]], IsLarge), ImageSrc);
  }

  /** One pass: `for i in range(count): ... if src: ... if w >= 300 and h >= 300:
      large_images.append(src)`. */
  method ScanPage(large: seq<string>, page: seq<ImageElement>) returns (large': seq<string>)
    ensures large' == large + LargeSources(page)
  {
    large' := large;
    var j := 0;
    while j < |page|
      invariant 0 <= j <= |page|
      invariant large' == large + LargeSources(page[..j])
    {
      var e := page[j];
      LargeSourcesStep(page, j);
      if e.src.Some? && e.src.value != [] {
        if e.width >= MinSide && e.height >= MinSide {
          large' := large' + [e.src.value];
        }
      }
      j := j + 1;
    }
    assert page[..j] == page;
  }

  /** `while has_more_images: <scan>; if len(large_images) < 3: scroll else:
      has_more_images = False`, then `large_images[:3]`. */
  method SelectPhotos(pages: seq<seq<ImageElement>>) returns (photos: Option<seq<string>>)
    ensures photos == PhotoSelection(pages)
  {
    var large: seq<string> := [];
    var hasMore := true;
    var i := 0;
    while hasMore && i < |pages|
      invariant 0 <= i <= |pages|
      invariant large == Accumulated(pages[..i])
      invariant hasMore <==> |large| < PhotoCount
    {
      AccumulatedStep(pages, i);
      large := ScanPage(large, pages[i]);
      if |large| < PhotoCount {
        // the page is scrolled and scanned again
      } else {
        hasMore := false;
      }
      i := i + 1;
    }
    AccumulatedPrefix(pages, i);
    if hasMore {
      assert pages[..i] == pages;
      photos := None;
    } else {
      assert large[..PhotoCount] == Accumulated(pages)[..PhotoCount];
      photos := Some(large[..PhotoCount]);
    }
  }

  /** Every selected photo is the source of a large image on one of the
      snapshots, at most three are returned, and they are the first ones
      accumulated; the loop stops only once three have been accumulated. */
  lemma PhotoSelectionFacts(pages: seq<seq<ImageElement>>)
    ensures PhotoSelection(pages).Some? <==> |Accumulated(pages)| >= PhotoCount
    ensures PhotoSelection(pages).Some? ==>
      && |PhotoSelection(pages).value| == PhotoCount
      && PhotoSelection(pages).value <= Accumulated(pages)
    ensures forall s | s in Accumulated(pages) ::
      exists i, k | 0 <= i < |pages| && 0 <= k < |pages[i]| :: IsLarge(pages[i][k]) && pages[i][k].src == Some(s)
  {
    forall s | s in Accumulated(pages)
      ensures exists i, k | 0 <= i < |pages| && 0 <= k < |pages[i]| :: IsLarge(pages[i][k]) && pages[i][k].src == Some(s)
    {
      var parts := Map(pages, LargeSources);
      ConcatMember(parts, s);
      var i :| 0 <= i < |parts| && s in parts[i];
      var kept := Filter(pages[i], IsLarge);
      FilterMembers(pages[i], IsLarge);
      var m :| 0 <= m < |kept| && ImageSrc(kept[m]) == s;
      assert kept[m] in pages[i];
      var k :| 0 <= k < |pages[i]| && pages[i][k] == kept[m];
    }
  }

  /** The handler rescans every element on each pass and never resets
      `large_images`, so an image still on the page when the loop scrolls
      is collected again: two large images seen on two passes give the first
      one twice. */
  lemma RescanCollectsDuplicates()
    ensures var a := ImageElement(Some("p1"), 640, 480);
            var b := ImageElement(Some("p2"), 640, 480);
            PhotoSelection([[a, b], [a, b]]) == Some(["p1", "p2", "p1"])
  {
    var a := ImageElement(Some("p1"), 640, 480);
    var b := ImageElement(Some("p2"), 640, 480);
    var page := [a, b];
    assert Filter(page, IsLarge) == page by {
      FilterAllPass(page, IsLarge);
    }
    assert LargeSources(page) == ["p1", "p2"];
    assert Map([page, page], LargeSources) == [["p1", "p2"], ["p1", "p2"]];
    ConcatOne(["p1", "p2"]);
    assert Accumulated([page, page]) == ["p1", "p2"] + ["p1", "p2"] == ["p1", "p2", "p1", "p2"];
    assert ["p1", "p2", "p1", "p2"][..3] == ["p1", "p2", "p1"];
  }

  /** The selection the loop evidently intends: the first three distinct
      sources, so that three different photos are downloaded. */
  function DistinctPhotoSelection(pages: seq<seq<ImageElement>>): (photos: Option<seq<string>>)
    ensures photos.Some? <==> |Dedup(Accumulated(pages))| >= PhotoCount
    ensures photos.Some? ==> |photos.value| == PhotoCount && NoDuplicates(photos.value)
    ensures photos.Some? ==> forall s | s in photos.value :: s in Accumulated(pages)
  {
    var distinct := Dedup(Accumulated(pages));
    if |distinct| >= PhotoCount then Some(distinct[..PhotoCount]) else None
  }

  /** One pass of the corrected loop: a large image's source is appended
      only if `large_images` does not hold it yet. */
  method ScanPageDistinct(large: seq<string>, ghost seen: seq<string>, page: seq<ImageElement>) returns (large': seq<string>)
    requires large == Dedup(seen)
    ensures large' == Dedup(seen + LargeSources(page))
  {
    large' := large;
    var j := 0;
    assert seen + LargeSources(page[..0]) == seen;
    while j < |page|
      invariant 0 <= j <= |page|
      invariant large' == Dedup(seen + LargeSources(page[..j]))
    {
      var e := page[j];
      DistinctScanStep(seen, page, j);
      if e.src.Some? && e.src.value != [] && e.width >= MinSide && e.height >= MinSide {
        var src := e.src.value;
        if src !in large' {
          large' := large' + [src];
        }
      }
      j := j + 1;
    }
    assert page[..j] == page;
  }

  /** One image of the corrected pass: a large image's source is kept unless
      already seen, anything else leaves the selection as it was. */
  lemma DistinctScanStep(seen: seq<string>, page: seq<ImageElement>, j: nat)
    requires j < |page|
    ensures var before := Dedup(seen + LargeSources(page[..j]));
            Dedup(seen + LargeSources(page[..j + 1])) ==
              if IsLarge(page[j]) && ImageSrc(page[j]) !in before then before + [ImageSrc(page[j])] else before
  {
    LargeSourcesStep(page, j);
    var prior := seen + LargeSources(page[..j]);
    if IsLarge(page[j]) {
      assert seen + LargeSources(page[..j + 1]) == prior + [ImageSrc(page[j])];
      DedupSnoc(prior, ImageSrc(page[j]));
    } else {
      assert seen + LargeSources(page[..j + 1]) == prior;
    }
  }

  /** The corrected loop, stopping once three distinct sources are collected. */
  method SelectDistinctPhotos(pages: seq<seq<ImageElement>>) returns (photos: Option<seq<string>>)
    ensures photos == DistinctPhotoSelection(pages)
  {
    var large: seq<string> := [];
    var hasMore := true;
    var i := 0;
    while hasMore && i < |pages|
      invariant 0 <= i <= |pages|
      invariant large == Dedup(Accumulated(pages[..i]))
      invariant hasMore <==> |large| < PhotoCount
    {
      AccumulatedStep(pages, i);
      large := ScanPageDistinct(large, Accumulated(pages[..i]), pages[i]);
      if |large| >= PhotoCount {
        hasMore := false;
      }
      i := i + 1;
    }
    AccumulatedPrefix(pages, i);
    if hasMore {
      assert pages[..i] == pages;
      photos := None;
    } else {
      var done := Accumulated(pages[..i]);
      var all := Accumulated(pages);
      assert all == done + all[|done|..];
      DedupPrefix(done, all[|done|..]);
      assert large[..PhotoCount] == Dedup(all)[..PhotoCount];
      photos := Some(large[..PhotoCount]);
    }
  }

  /** Deduplicating the sources `x, y` of a page seen twice, then a new `z`. */
  lemma DedupFirstPass(x: string, y: string)
    requires x != y
    ensures Dedup([x, y]) == [x, y]
  {
    assert [] + [x] == [x];
    DedupSnoc([], x);
    assert [x] + [y] == [x, y];
    DedupSnoc([x], y);
  }

  lemma DedupRescan(x: string, y: string)
    requires x != y
    ensures Dedup([x, y, x, y]) == [x, y]
  {
    var first := [x, y];
    DedupFirstPass(x, y);
    var again := first + [x];
    assert Dedup(again) == first by {
      DedupSnoc(first, x);
    }
    assert Dedup(again + [y]) == first by {
      DedupSnoc(again, y);
    }
    assert again + [y] == [x, y, x, y];
  }

  lemma DedupRescanThenNew(x: string, y: string, z: string)
    requires x != y && z != x && z != y
    ensures Dedup([x, y, x, y, z]) == [x, y, z]
  {
    DedupRescan(x, y);
    assert [x, y, x, y] + [z] == [x, y, x, y, z];
    DedupSnoc([x, y, x, y], z);
  }

  /** A pass over large images collects each one's source, in order. */
  lemma AllLargeSources(page: seq<ImageElement>)
    requires forall k | 0 <= k < |page| :: IsLarge(page[k])
    ensures LargeSources(page) == Map(page, ImageSrc)
  {
    FilterAllPass(page, IsLarge);
  }

  /** Two passes accumulate the first pass's sources followed by the second's. */
  lemma AccumulatedTwoPages(p: seq<ImageElement>, q: seq<ImageElement>)
    ensures Accumulated([p, q]) == LargeSources(p) + LargeSources(q)
  {
    AccumulatedStep([p, q], 1);
    assert [p, q][..1] == [p];
    assert [p, q][..2] == [p, q];
    AccumulatedStep([p], 0);
    assert [p][..0] == [];
    assert [p][..1] == [p];
  }

  /** Two large images with different sources, on a page scanned twice: the
      corrected loop has only two distinct photos and keeps scrolling. */
  lemma DistinctSkipsRescan(a: ImageElement, b: ImageElement)
    requires IsLarge(a) && IsLarge(b) && ImageSrc(a) != ImageSrc(b)
    ensures DistinctPhotoSelection([[a, b], [a, b]]).None?
  {
    var x, y := ImageSrc(a), ImageSrc(b);
    assert LargeSources([a, b]) == [x, y] by {
      AllLargeSources([a, b]);
    }
    AccumulatedTwoPages([a, b], [a, b]);
    assert Accumulated([[a, b], [a, b]]) == [x, y, x, y];
    DedupRescan(x, y);
  }

  /** The same page with a third large image added on the second pass: the
      corrected loop returns the three different sources. */
  lemma DistinctFindsThird(a: ImageElement, b: ImageElement, c: ImageElement)
    requires IsLarge(a) && IsLarge(b) && IsLarge(c)
    requires ImageSrc(a) != ImageSrc(b) && ImageSrc(c) != ImageSrc(a) && ImageSrc(c) != ImageSrc(b)
    ensures DistinctPhotoSelection([[a, b], [a, b, c]]) == Some([ImageSrc(a), ImageSrc(b), ImageSrc(c)])
  {
    var x, y, z := ImageSrc(a), ImageSrc(b), ImageSrc(c);
    AccumulatedRescanThenNew(a, b, c);
    DedupRescanThenNew(x, y, z);
    SelectionOfThreeDistinct([[a, b], [a, b, c]], [x, y, z]);
  }

  lemma AccumulatedRescanThenNew(a: ImageElement, b: ImageElement, c: ImageElement)
    requires IsLarge(a) && IsLarge(b) && IsLarge(c)
    ensures Accumulated([[a, b], [a, b, c]]) == [ImageSrc(a), ImageSrc(b), ImageSrc(a), ImageSrc(b), ImageSrc(c)]
  {
    var x, y, z := ImageSrc(a), ImageSrc(b), ImageSrc(c);
    assert LargeSources([a, b]) == [x, y] by {
      AllLargeSources([a, b]);
    }
    assert LargeSources([a, b, c]) == [x, y, z] by {
      AllLargeSources([a, b, c]);
    }
    AccumulatedTwoPages([a, b], [a, b, c]);
  }

  /** Exactly three distinct sources accumulated are what the corrected loop returns. */
  lemma SelectionOfThreeDistinct(pages: seq<seq<ImageElement>>, photos: seq<string>)
    requires Dedup(Accumulated(pages)) == photos && |photos| == PhotoCount
    ensures DistinctPhotoSelection(pages) == Some(photos)
  {
    assert photos[..PhotoCount] == photos;
  }

  /** On the rescanned page the corrected loop keeps scrolling instead of
      returning a duplicate. */
  lemma DistinctSelectionSkipsRescan()
    ensures var a := ImageElement(Some("p1"), 640, 480);
            var b := ImageElement(Some("p2"), 640, 480);
            DistinctPhotoSelection([[a, b], [a, b]]).None?
  {
    var a := ImageElement(Some("p1"), 640, 480);
    var b := ImageElement(Some("p2"), 640, 480);
    DistinctSkipsRescan(a, b);
  }

  /** Once a third image appears, the corrected loop returns three different photos. */
  lemma DistinctSelectionFindsThird()
    ensures var a := ImageElement(Some("p1"), 640, 480);
            var b := ImageElement(Some("p2"), 640, 480);
            var c := ImageElement(Some("p3"), 300, 300);
            DistinctPhotoSelection([[a, b], [a, b, c]]) == Some(["p1", "p2", "p3"])
  {
    var a := ImageElement(Some("p1"), 640, 480);
    var b := ImageElement(Some("p2"), 640, 480);
    var c := ImageElement(Some("p3"), 300, 300);
    DistinctFindsThird(a, b, c);
  }

  /** The `photo_data` dictionary. */
  function PhotoRaw(images: seq<string>): Value {
    VDict(map["images" := VList(StrValues(images))])
  }

  /** Whatever the loop selects passes `PhotoDataDTO` unchanged. */
  lemma PhotoRawValidates(images: seq<string>)
    ensures ValidatePhotoData(PhotoRaw(images)) == Ok(PhotoDataDto(images))
  {
    PhotoDataRoundTrip(PhotoDataDto(images));
  }
}
