/** `DBManager.add_place_with_all`: one place with its opening hours, its
    reviews, its blog post with the post's images, and its photos, stored in
    one transaction. The place row is flushed first so that its id is known;
    every child row carries that id, the blog row is flushed so that its
    images can carry the blog's id, and the rows become visible only at the
    final commit. Any exception on the way leaves the database as it was. */
module Database {
  import opened Wrappers
  import opened Seqs
  import opened Text
  import opened BlogDate
  import opened Schema
  import opened Dtos

  /** The exceptions a call can raise. */
  datatype PersistError =
    | ProfileMissing  // `review_data.profile.review` on a review whose profile is `None`
    | TagsMissing     // `','.join(review_data.tags)` on a review whose tags are `None`
    | BadBlogDate     // `datetime.strptime(date_str, "%Y. %m. %d. %H:%M")` rejects the blog date
    | RowRejected     // the server refuses a row at a flush or at the commit

  /** Tags are stored comma-joined in one column. */
  const TagSeparator: char := ','

  // ---------------------------------------------------------------------------
  // The rows one call builds

  function PlaceRowOf(id: nat, h: HomeDataDto): PlaceRow {
    PlaceRow(id, Some(h.name), h.address, Some(h.businessHours))
  }

  function HoursRows(first: nat, placeId: nat, hours: seq<PlaceHoursDto>): seq<PlaceHoursRow> {
    seq(|hours|, k requires 0 <= k < |hours| => PlaceHoursRow(first + k, placeId, hours[k].day, hours[k].time))
  }

  /** A review the loop can turn into a row without raising. */
  predicate Storable(r: ReviewDto) {
    r.profile.Some? && r.tags.Some?
  }

  predicate Unstorable(r: ReviewDto) {
    !Storable(r)
  }

  /** What building the row of an unstorable review raises: the keyword
      arguments are evaluated in order, the profile before the tags. */
  function ReviewFailure(r: ReviewDto): PersistError {
    if r.profile.None? then ProfileMissing else TagsMissing
  }

  /** The `Review(...)` of one review: `review_date` from `visit_date`, the
      three profile counts from the profile, the tags comma-joined. */
  function ReviewRowOf(id: nat, placeId: nat, r: ReviewDto): ReviewRow
    requires Storable(r)
  {
    var p := r.profile.value;
    ReviewRow(id, placeId, r.author, r.visitDate, r.visitCount, p.review, p.photo, p.follower,
      r.follow, r.visitInfo, r.body, Some(Join(r.tags.value, [TagSeparator])), r.reviewMore,
      r.extraReviewLine, r.receipt)
  }

  /** The review rows, or the exception of the first review that cannot be stored. */
  function ReviewRows(first: nat, placeId: nat, rs: seq<ReviewDto>): Result<seq<ReviewRow>, PersistError> {
    match FirstIndex(rs, Unstorable)
    case Some(k) => Err(ReviewFailure(rs[k]))
    case None => Ok(seq(|rs|, k requires 0 <= k < |rs| => ReviewRowOf(first + k, placeId, rs[k])))
  }

  function BlogRowOf(id: nat, placeId: nat, b: BlogDataDto, date: DateTime): BlogRow {
    BlogRow(id, placeId, b.title, Some(b.author), Some(date), Some(b.content), Some(b.blogUrl))
  }

  function ImageRows(first: nat, blogId: nat, urls: seq<string>): seq<BlogImageRow> {
    seq(|urls|, k requires 0 <= k < |urls| => BlogImageRow(first + k, blogId, urls[k]))
  }

  function PhotoRows(first: nat, placeId: nat, urls: seq<string>): seq<PlacePhotoRow> {
    seq(|urls|, k requires 0 <= k < |urls| => PlacePhotoRow(first + k, placeId, urls[k]))
  }

  /** The blog post paired with its parsed date, or the exception `strptime`
      raises; no post, nothing to parse. */
  function DatedBlog(blog: Option<BlogDataDto>): Result<Option<(BlogDataDto, DateTime)>, PersistError> {
    match blog
    case None => Ok(None)
    case Some(b) =>
      match ParseBlogDate(b.date)
      case None => Err(BadBlogDate)
      case Some(d) => Ok(Some((b, d)))
  }

  /** The rows of one call, numbered on from the counters, once the review
      rows are built and the blog date is parsed. */
  function StageRows(c: Counters, place: HomeDataDto, reviewRows: seq<ReviewRow>, dated: Option<(BlogDataDto, DateTime)>, photos: PhotoDataDto): Tables {
    var blogRows := if dated.Some? then [BlogRowOf(c.blog, c.place, dated.value.0, dated.value.1)] else [];
    var imageRows := if dated.Some? then ImageRows(c.blogImage, c.blog, dated.value.0.images) else [];
    Tables([PlaceRowOf(c.place, place)], HoursRows(c.hours, c.place, place.hours), reviewRows,
      blogRows, imageRows, PhotoRows(c.photo, c.place, photos.images))
  }

  /** The rows one call stages before the commit, or the exception raised
      before the commit is reached: the place flush first, then the review
      loop, then the blog date. */
  function Staged(c: Counters, place: HomeDataDto, reviews: ReviewDataDto, blog: Option<BlogDataDto>, photos: PhotoDataDto): Result<Tables, PersistError> {
    if !PlaceRowFits(PlaceRowOf(c.place, place)) then Err(RowRejected)
    else match ReviewRows(c.review, c.place, reviews.reviews)
      case Err(e) => Err(e)
      case Ok(reviewRows) =>
        match DatedBlog(blog)
        case Err(e) => Err(e)
        case Ok(dated) => Ok(StageRows(c, place, reviewRows, dated, photos))
  }

  function AppendTables(t: Tables, s: Tables): Tables {
    Tables(t.places + s.places, t.hours + s.hours, t.reviews + s.reviews,
      t.blogs + s.blogs, t.blogImages + s.blogImages, t.photos + s.photos)
  }

  function Advanced(c: Counters, s: Tables): Counters {
    Counters(c.place + |s.places|, c.hours + |s.hours|, c.review + |s.reviews|,
      c.blog + |s.blogs|, c.blogImage + |s.blogImages|, c.photo + |s.photos|)
  }

  /** The outcome of one call: the committed tables and counters, or the
      exception, in which case nothing is stored. */
  function Persist(t: Tables, c: Counters, place: HomeDataDto, reviews: ReviewDataDto, blog: Option<BlogDataDto>, photos: PhotoDataDto): Result<(Tables, Counters), PersistError> {
    match Staged(c, place, reviews, blog, photos)
    case Err(e) => Err(e)
    case Ok(s) => if RowsFit(s) then Ok((AppendTables(t, s), Advanced(c, s))) else Err(RowRejected)
  }

  // ---------------------------------------------------------------------------
  // What the staged rows are

  /** The staged rows are numbered on from the counters and linked to the new
      place: one place row with the place counter's id, every child of the
      place carrying it, at most one blog row, and images only under the new
      blog. */
  predicate WellNumbered(s: Tables, c: Counters) {
    && |s.places| == 1 && s.places[0].id == c.place
    && (forall k | 0 <= k < |s.hours| :: s.hours[k].id == c.hours + k && s.hours[k].placeId == c.place)
    && (forall k | 0 <= k < |s.reviews| :: s.reviews[k].id == c.review + k && s.reviews[k].placeId == c.place)
    && |s.blogs| <= 1
    && (forall k | 0 <= k < |s.blogs| :: s.blogs[k].id == c.blog + k && s.blogs[k].placeId == c.place)
    && (forall k | 0 <= k < |s.blogImages| :: s.blogImages[k].id == c.blogImage + k && s.blogImages[k].blogId == c.blog)
    && (s.blogImages != [] ==> s.blogs != [])
    && (forall k | 0 <= k < |s.photos| :: s.photos[k].id == c.photo + k && s.photos[k].placeId == c.place)
  }

  lemma AppendKeepsRowsFit(t: Tables, s: Tables)
    requires RowsFit(t) && RowsFit(s)
    ensures RowsFit(AppendTables(t, s))
  {
  }

  lemma AppendKeepsForeignKeys(t: Tables, c: Counters, s: Tables)
    requires ForeignKeysHold(t) && WellNumbered(s, c)
    ensures ForeignKeysHold(AppendTables(t, s))
  {
    var t' := AppendTables(t, s);
    assert s.places[0] in t'.places;
    assert c.place in PlaceIds(t');
    assert PlaceIds(t) <= PlaceIds(t');
    assert BlogIds(t) <= BlogIds(t');
    if s.blogImages != [] {
      assert s.blogs[0] in t'.blogs;
      assert c.blog in BlogIds(t');
    }
    forall x | x in t'.hours ensures x.placeId in PlaceIds(t') {
      if x !in t.hours { var k :| 0 <= k < |s.hours| && s.hours[k] == x; }
    }
    forall x | x in t'.reviews ensures x.placeId in PlaceIds(t') {
      if x !in t.reviews { var k :| 0 <= k < |s.reviews| && s.reviews[k] == x; }
    }
    forall x | x in t'.blogs ensures x.placeId in PlaceIds(t') {
      if x !in t.blogs { var k :| 0 <= k < |s.blogs| && s.blogs[k] == x; }
    }
    forall x | x in t'.blogImages ensures x.blogId in BlogIds(t') {
      if x !in t.blogImages { var k :| 0 <= k < |s.blogImages| && s.blogImages[k] == x; }
    }
    forall x | x in t'.photos ensures x.placeId in PlaceIds(t') {
      if x !in t.photos { var k :| 0 <= k < |s.photos| && s.photos[k] == x; }
    }
  }

  lemma AppendKeepsKeysIssued(t: Tables, c: Counters, s: Tables)
    requires KeysIssued(t, c) && WellNumbered(s, c)
    ensures KeysIssued(AppendTables(t, s), Advanced(c, s))
  {
    AppendNumbered(t.places, s.places, PlaceKey, c.place);
    AppendNumbered(t.hours, s.hours, HoursKey, c.hours);
    AppendNumbered(t.reviews, s.reviews, ReviewKey, c.review);
    AppendNumbered(t.blogs, s.blogs, BlogKey, c.blog);
    AppendNumbered(t.blogImages, s.blogImages, BlogImageKey, c.blogImage);
    AppendNumbered(t.photos, s.photos, PhotoKey, c.photo);
  }

  /** Appending well-numbered rows that fit their columns to a consistent
      database keeps it consistent. */
  lemma AppendKeepsConsistency(t: Tables, c: Counters, s: Tables)
    requires Consistent(t, c)
    requires RowsFit(s) && WellNumbered(s, c)
    ensures Consistent(AppendTables(t, s), Advanced(c, s))
  {
    AppendKeepsRowsFit(t, s);
    AppendKeepsForeignKeys(t, c, s);
    AppendKeepsKeysIssued(t, c, s);
  }

  /** A call that reaches the commit has built every review row and parsed
      the blog date, and stages the rows built from them. */
  lemma StagedRows(c: Counters, place: HomeDataDto, reviews: ReviewDataDto, blog: Option<BlogDataDto>, photos: PhotoDataDto)
    requires Staged(c, place, reviews, blog, photos).Ok?
    ensures PlaceRowFits(PlaceRowOf(c.place, place))
    ensures ReviewRows(c.review, c.place, reviews.reviews).Ok?
    ensures DatedBlog(blog).Ok?
    ensures Staged(c, place, reviews, blog, photos).value
         == StageRows(c, place, ReviewRows(c.review, c.place, reviews.reviews).value, DatedBlog(blog).value, photos)
  {
  }

  /** Review rows are built for every review exactly when all of them are
      storable, each numbered on from `first`. */
  lemma ReviewRowsNumbered(first: nat, placeId: nat, rs: seq<ReviewDto>)
    ensures ReviewRows(first, placeId, rs).Ok? <==> forall k | 0 <= k < |rs| :: Storable(rs[k])
    ensures ReviewRows(first, placeId, rs).Ok? ==>
      && |ReviewRows(first, placeId, rs).value| == |rs|
      && forall k | 0 <= k < |rs| :: ReviewRows(first, placeId, rs).value[k] == ReviewRowOf(first + k, placeId, rs[k])
  {
  }

  /** The date is parsed only when there is a post, and the call fails
      exactly when it does not parse. */
  lemma DatedBlogParses(blog: Option<BlogDataDto>)
    ensures blog.None? ==> DatedBlog(blog) == Ok(None)
    ensures blog.Some? ==>
      && (DatedBlog(blog).Ok? <==> ParseBlogDate(blog.value.date).Some?)
      && (DatedBlog(blog).Ok? ==> DatedBlog(blog).value == Some((blog.value, ParseBlogDate(blog.value.date).value)))
  {
  }

  /** Rows staged with review rows numbered on from the review counter under
      the new place are well numbered. */
  lemma StageRowsWellNumbered(c: Counters, place: HomeDataDto, reviewRows: seq<ReviewRow>, dated: Option<(BlogDataDto, DateTime)>, photos: PhotoDataDto)
    requires forall k | 0 <= k < |reviewRows| :: reviewRows[k].id == c.review + k && reviewRows[k].placeId == c.place
    ensures WellNumbered(StageRows(c, place, reviewRows, dated, photos), c)
  {
  }

  /** Whatever a call stages is well numbered. */
  lemma StagedIsWellNumbered(c: Counters, place: HomeDataDto, reviews: ReviewDataDto, blog: Option<BlogDataDto>, photos: PhotoDataDto)
    requires Staged(c, place, reviews, blog, photos).Ok?
    ensures WellNumbered(Staged(c, place, reviews, blog, photos).value, c)
  {
    StagedRows(c, place, reviews, blog, photos);
    var rr := ReviewRows(c.review, c.place, reviews.reviews).value;
    ReviewRowsNumbered(c.review, c.place, reviews.reviews);
    StageRowsWellNumbered(c, place, rr, DatedBlog(blog).value, photos);
  }

  /** The flush that yields the place id comes first: a place row the server
      refuses fails the call before anything else is looked at. */
  lemma RejectedPlaceFailsFirst(t: Tables, c: Counters, place: HomeDataDto, reviews: ReviewDataDto, blog: Option<BlogDataDto>, photos: PhotoDataDto)
    requires !PlaceRowFits(PlaceRowOf(c.place, place))
    ensures Persist(t, c, place, reviews, blog, photos) == Err(RowRejected)
  {
  }

  /** A review without a profile or without tags makes the call raise; when
      the place row is accepted, the exception is the one of the first such review. */
  lemma UnstorableReviewFails(t: Tables, c: Counters, place: HomeDataDto, reviews: ReviewDataDto, blog: Option<BlogDataDto>, photos: PhotoDataDto, i: nat)
    requires i < |reviews.reviews| && Unstorable(reviews.reviews[i])
    requires forall k | 0 <= k < i :: Storable(reviews.reviews[k])
    ensures Persist(t, c, place, reviews, blog, photos).Err?
    ensures PlaceRowFits(PlaceRowOf(c.place, place)) ==>
      Persist(t, c, place, reviews, blog, photos) == Err(ReviewFailure(reviews.reviews[i]))
  {
    var f := FirstIndex(reviews.reviews, Unstorable);
    assert f.Some?;
    assert f.value == i;
  }

  /** A blog date that does not parse as `"%Y. %m. %d. %H:%M"` makes the call
      raise; nothing is stored. */
  lemma BadBlogDateFails(t: Tables, c: Counters, place: HomeDataDto, reviews: ReviewDataDto, b: BlogDataDto, photos: PhotoDataDto)
    requires ParseBlogDate(b.date).None?
    ensures Persist(t, c, place, reviews, Some(b), photos).Err?
    ensures PlaceRowFits(PlaceRowOf(c.place, place)) && (forall k | 0 <= k < |reviews.reviews| :: Storable(reviews.reviews[k])) ==>
      Persist(t, c, place, reviews, Some(b), photos) == Err(BadBlogDate)
  {
  }

  // ---------------------------------------------------------------------------
  // What a successful call does to the database

  /** A call that returns normally commits what it staged. */
  lemma PersistCommits(t: Tables, c: Counters, place: HomeDataDto, reviews: ReviewDataDto, blog: Option<BlogDataDto>, photos: PhotoDataDto)
    requires Persist(t, c, place, reviews, blog, photos).Ok?
    ensures Staged(c, place, reviews, blog, photos).Ok?
    ensures RowsFit(Staged(c, place, reviews, blog, photos).value)
    ensures Persist(t, c, place, reviews, blog, photos).value
         == (AppendTables(t, Staged(c, place, reviews, blog, photos).value), Advanced(c, Staged(c, place, reviews, blog, photos).value))
  {
  }

  /** On success each table grows by exactly the rows of this call, and the
      rows that were there before are untouched, in place. */
  lemma PersistAppendsExactly(t: Tables, c: Counters, place: HomeDataDto, reviews: ReviewDataDto, blog: Option<BlogDataDto>, photos: PhotoDataDto)
    requires Persist(t, c, place, reviews, blog, photos).Ok?
    ensures var t' := Persist(t, c, place, reviews, blog, photos).value.0;
      && t.places <= t'.places && t.hours <= t'.hours && t.reviews <= t'.reviews
      && t.blogs <= t'.blogs && t.blogImages <= t'.blogImages && t.photos <= t'.photos
      && |t'.places| == |t.places| + 1
      && |t'.hours| == |t.hours| + |place.hours|
      && |t'.reviews| == |t.reviews| + |reviews.reviews|
      && |t'.blogs| == |t.blogs| + (if blog.Some? then 1 else 0)
      && |t'.blogImages| == |t.blogImages| + (if blog.Some? then |blog.value.images| else 0)
      && |t'.photos| == |t.photos| + |photos.images|
  {
    PersistCommits(t, c, place, reviews, blog, photos);
    StagedRows(c, place, reviews, blog, photos);
    ReviewRowsNumbered(c.review, c.place, reviews.reviews);
    DatedBlogParses(blog);
  }

  /** On success the new place gets the place counter's id, which no stored
      place had; every hours, review, blog and photo row of the call carries
      it, and every image row carries the id of the new blog row. */
  lemma PersistLinksNewPlace(t: Tables, c: Counters, place: HomeDataDto, reviews: ReviewDataDto, blog: Option<BlogDataDto>, photos: PhotoDataDto)
    requires Consistent(t, c)
    requires Persist(t, c, place, reviews, blog, photos).Ok?
    ensures var t' := Persist(t, c, place, reviews, blog, photos).value.0;
      && c.place !in PlaceIds(t)
      && t'.places[|t.places|] == PlaceRowOf(c.place, place)
      && (forall k | |t.hours| <= k < |t'.hours| :: t'.hours[k].placeId == c.place)
      && (forall k | |t.reviews| <= k < |t'.reviews| :: t'.reviews[k].placeId == c.place)
      && (forall k | |t.blogs| <= k < |t'.blogs| :: t'.blogs[k].placeId == c.place && t'.blogs[k].id == c.blog)
      && (forall k | |t.photos| <= k < |t'.photos| :: t'.photos[k].placeId == c.place)
      && (forall k | |t.blogImages| <= k < |t'.blogImages| :: t'.blogImages[k].blogId == c.blog)
      && (blog.Some? ==> c.blog !in BlogIds(t))
  {
    PersistCommits(t, c, place, reviews, blog, photos);
    StagedIsWellNumbered(c, place, reviews, blog, photos);
    StagedRows(c, place, reviews, blog, photos);
  }

  /** The columns of a stored review row, column by column: `review_date`
      from `visit_date`, the three profile counts from the profile, `tags` the
      comma-joined tags, the rest copied unchanged. */
  predicate StoresReview(row: ReviewRow, id: nat, placeId: nat, r: ReviewDto) {
    && r.profile.Some? && r.tags.Some?
    && row.id == id && row.placeId == placeId
    && row.author == r.author && row.reviewDate == r.visitDate && row.visitCount == r.visitCount
    && row.profileReview == r.profile.value.review && row.profilePhoto == r.profile.value.photo
    && row.profileFollower == r.profile.value.follower
    && row.follow == r.follow && row.visitInfo == r.visitInfo && row.body == r.body
    && row.tags == Some(Join(r.tags.value, [TagSeparator]))
    && row.reviewMore == r.reviewMore && row.extraReviewLine == r.extraReviewLine && row.receipt == r.receipt
  }

  /** The row built for a storable review stores it, and a row stores at most
      one review under a given id. */
  lemma ReviewRowStores(id: nat, placeId: nat, r: ReviewDto, row: ReviewRow)
    requires Storable(r)
    ensures StoresReview(ReviewRowOf(id, placeId, r), id, placeId, r)
    ensures StoresReview(row, id, placeId, r) ==> row == ReviewRowOf(id, placeId, r)
  {
  }

  /** On success the k-th new review row stores the k-th review. */
  lemma PersistReviewColumns(t: Tables, c: Counters, place: HomeDataDto, reviews: ReviewDataDto, blog: Option<BlogDataDto>, photos: PhotoDataDto)
    requires Persist(t, c, place, reviews, blog, photos).Ok?
    ensures var t' := Persist(t, c, place, reviews, blog, photos).value.0;
      && |t'.reviews| == |t.reviews| + |reviews.reviews|
      && forall k | 0 <= k < |reviews.reviews| :: StoresReview(t'.reviews[|t.reviews| + k], c.review + k, c.place, reviews.reviews[k])
  {
    PersistCommits(t, c, place, reviews, blog, photos);
    StagedRows(c, place, reviews, blog, photos);
    AppendedReviewRows(t, Staged(c, place, reviews, blog, photos).value, c, reviews.reviews);
  }

  /** Appending the review rows built from `rs` puts a row storing the k-th
      review at offset k past the old rows. */
  lemma AppendedReviewRows(t: Tables, s: Tables, c: Counters, rs: seq<ReviewDto>)
    requires ReviewRows(c.review, c.place, rs).Ok? && s.reviews == ReviewRows(c.review, c.place, rs).value
    ensures |AppendTables(t, s).reviews| == |t.reviews| + |rs|
    ensures forall k | 0 <= k < |rs| :: StoresReview(AppendTables(t, s).reviews[|t.reviews| + k], c.review + k, c.place, rs[k])
  {
    ReviewRowsNumbered(c.review, c.place, rs);
    var all := AppendTables(t, s).reviews;
    forall k | 0 <= k < |rs| ensures StoresReview(all[|t.reviews| + k], c.review + k, c.place, rs[k]) {
      assert all[|t.reviews| + k] == s.reviews[k];
      ReviewRowStores(c.review + k, c.place, rs[k], s.reviews[k]);
    }
  }

  /** On success the blog row holds the parsed date, and the other columns are
      the post's fields. */
  lemma PersistBlogColumns(t: Tables, c: Counters, place: HomeDataDto, reviews: ReviewDataDto, b: BlogDataDto, photos: PhotoDataDto)
    requires Persist(t, c, place, reviews, Some(b), photos).Ok?
    ensures var t' := Persist(t, c, place, reviews, Some(b), photos).value.0;
      && ParseBlogDate(b.date).Some?
      && t'.blogs[|t.blogs|] == BlogRow(c.blog, c.place, b.title, Some(b.author), ParseBlogDate(b.date), Some(b.content), Some(b.blogUrl))
      && forall k | 0 <= k < |b.images| :: t'.blogImages[|t.blogImages| + k].imageUrl == b.images[k]
  {
    PersistCommits(t, c, place, reviews, Some(b), photos);
    StagedRows(c, place, reviews, Some(b), photos);
    DatedBlogParses(Some(b));
  }

  /** A successful call keeps the database consistent: every row within its
      column limits, every foreign key naming a stored parent, and every id
      issued by its table's counter. */
  lemma PersistKeepsConsistency(t: Tables, c: Counters, place: HomeDataDto, reviews: ReviewDataDto, blog: Option<BlogDataDto>, photos: PhotoDataDto)
    requires Consistent(t, c)
    requires Persist(t, c, place, reviews, blog, photos).Ok?
    ensures Consistent(Persist(t, c, place, reviews, blog, photos).value.0, Persist(t, c, place, reviews, blog, photos).value.1)
  {
    PersistCommits(t, c, place, reviews, blog, photos);
    StagedIsWellNumbered(c, place, reviews, blog, photos);
    AppendKeepsConsistency(t, c, Staged(c, place, reviews, blog, photos).value);
  }

  // ---------------------------------------------------------------------------
  // The comma-joined tags column

  /** An empty tag list is stored as the empty string. */
  lemma NoTagsStoredEmpty()
    ensures Join([], [TagSeparator]) == ""
  {
  }

  /** Tags are recoverable from the column when there is at least one and none
      holds a comma. */
  lemma StoredTagsRecoverable(tags: seq<string>)
    requires |tags| >= 1
    requires forall k | 0 <= k < |tags| :: TagSeparator !in tags[k]
    ensures Split(Join(tags, [TagSeparator]), TagSeparator) == tags
  {
    SplitJoin(tags, TagSeparator);
  }

  /** A tag holding a comma cannot be told apart from two tags. */
  lemma StoredTagsLossy()
    ensures Join(["a,b"], [TagSeparator]) == Join(["a", "b"], [TagSeparator])
  {
    assert Join(["b"], [TagSeparator]) == "b";
    assert ["a", "b"][1..] == ["b"];
  }

  // ---------------------------------------------------------------------------
  // The manager

  class DbManager {
    var tables: Tables
    var counters: Counters

    ghost predicate Valid()
      reads this
    {
      Consistent(tables, counters)
    }

    /** A freshly created schema: six empty tables. */
    constructor ()
      ensures Valid()
      ensures tables == EmptyTables() && counters == InitialCounters()
    {
      tables := EmptyTables();
      counters := InitialCounters();
    }

    /** `add_place_with_all`: stage the rows in the source's order, then commit.
        The result is `None` when the call returns normally and the exception
        otherwise. */
    method AddPlaceWithAll(place: HomeDataDto, reviews: ReviewDataDto, blog: Option<BlogDataDto>, photos: PhotoDataDto)
        returns (raised: Option<PersistError>)
      requires Valid()
      modifies this
      ensures Valid()
      ensures var r := Persist(old(tables), old(counters), place, reviews, blog, photos);
        && (r.Ok? ==> raised.None? && tables == r.value.0 && counters == r.value.1)
        && (r.Err? ==> raised == Some(r.error) && tables == old(tables) && counters == old(counters))
    {
      var staged := StageCall(counters, place, reviews, blog, photos);
      if staged.Err? {
        return Some(staged.error);
      }
      if !RowsFit(staged.value) {
        // the server refuses a row at the blog flush or at the commit
        return Some(RowRejected);
      }
      PersistKeepsConsistency(tables, counters, place, reviews, blog, photos);
      tables := AppendTables(tables, staged.value);
      counters := Advanced(counters, staged.value);
      raised := None;
    }
  }

  // ---------------------------------------------------------------------------
  // The loops that build the rows

  /** The body of the `try` up to the commit: flush the place, add its hours,
      its reviews, its blog post and the post's images, and its photos. */
  method StageCall(c: Counters, place: HomeDataDto, reviews: ReviewDataDto, blog: Option<BlogDataDto>, photos: PhotoDataDto)
      returns (staged: Result<Tables, PersistError>)
    ensures staged == Staged(c, place, reviews, blog, photos)
  {
    var placeRow := PlaceRowOf(c.place, place);
    if !PlaceRowFits(placeRow) {
      // the flush that obtains `place.id` fails
      return Err(RowRejected);
    }
    var hoursRows := BuildHoursRows(c.hours, c.place, place.hours);
    var reviewRows := BuildReviewRows(c.review, c.place, reviews.reviews);
    if reviewRows.Err? {
      return Err(reviewRows.error);
    }
    var dated := DatedBlog(blog);
    if dated.Err? {
      return Err(dated.error);
    }
    var blogRows: seq<BlogRow> := [];
    var imageRows: seq<BlogImageRow> := [];
    if dated.value.Some? {
      var (b, date) := dated.value.value;
      blogRows := [BlogRowOf(c.blog, c.place, b, date)];
      // the blog row is flushed here so that `blog.id` is known
      imageRows := BuildImageRows(c.blogImage, c.blog, b.images);
    }
    var photoRows := BuildPhotoRows(c.photo, c.place, photos.images);
    staged := Ok(Tables([placeRow], hoursRows, reviewRows.value, blogRows, imageRows, photoRows));
  }

  /** `for h in place_data.hours: session.add(PlaceHours(place_id=place.id, **h.model_dump()))`. */
  method BuildHoursRows(first: nat, placeId: nat, hours: seq<PlaceHoursDto>) returns (rows: seq<PlaceHoursRow>)
    ensures rows == HoursRows(first, placeId, hours)
  {
    rows := [];
    for i := 0 to |hours|
      invariant |rows| == i
      invariant forall k | 0 <= k < i :: rows[k] == PlaceHoursRow(first + k, placeId, hours[k].day, hours[k].time)
    {
      rows := rows + [PlaceHoursRow(first + i, placeId, hours[i].day, hours[i].time)];
    }
  }

  /** The review loop: a row per review, or the exception of the first review
      whose profile or tags are missing. */
  method BuildReviewRows(first: nat, placeId: nat, rs: seq<ReviewDto>) returns (result: Result<seq<ReviewRow>, PersistError>)
    ensures result == ReviewRows(first, placeId, rs)
  {
    var rows: seq<ReviewRow> := [];
    for i := 0 to |rs|
      invariant |rows| == i
      invariant forall k | 0 <= k < i :: Storable(rs[k]) && rows[k] == ReviewRowOf(first + k, placeId, rs[k])
    {
      var r := rs[i];
      if r.profile.None? {
        assert FirstIndex(rs, Unstorable) == Some(i);
        return Err(ProfileMissing);
      }
      if r.tags.None? {
        assert FirstIndex(rs, Unstorable) == Some(i);
        return Err(TagsMissing);
      }
      rows := rows + [ReviewRowOf(first + i, placeId, r)];
    }
    assert FirstIndex(rs, Unstorable).None?;
    assert rows == seq(|rs|, k requires 0 <= k < |rs| => ReviewRowOf(first + k, placeId, rs[k]));
    result := Ok(rows);
  }

  /** `for image in blog_data.images: session.add(BlogImage(...))`. */
  method BuildImageRows(first: nat, blogId: nat, urls: seq<string>) returns (rows: seq<BlogImageRow>)
    ensures rows == ImageRows(first, blogId, urls)
  {
    rows := [];
    for i := 0 to |urls|
      invariant |rows| == i
      invariant forall k | 0 <= k < i :: rows[k] == BlogImageRow(first + k, blogId, urls[k])
    {
      rows := rows + [BlogImageRow(first + i, blogId, urls[i])];
    }
  }

  /** `for image in photo_data.images: session.add(PlacePhoto(...))`. */
  method BuildPhotoRows(first: nat, placeId: nat, urls: seq<string>) returns (rows: seq<PlacePhotoRow>)
    ensures rows == PhotoRows(first, placeId, urls)
  {
    rows := [];
    for i := 0 to |urls|
      invariant |rows| == i
      invariant forall k | 0 <= k < i :: rows[k] == PlacePhotoRow(first + k, placeId, urls[k])
    {
      rows := rows + [PlacePhotoRow(first + i, placeId, urls[i])];
    }
  }
}
