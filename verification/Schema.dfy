/** The relational schema: the six tables `place`, `place_hours`, `review`,
    `blog`, `blog_image` and `place_photo`, one row datatype each. A nullable
    column is an `Option`; a `String(n)` column holds at most `n` characters
    (the server rejects longer values); a `Text` column holds at most 65535
    bytes of its UTF-8 encoding (the connection's character set is utf8mb4);
    an `Integer` column holds a signed 32-bit value. `created_at` is filled in by the server and is not modelled. */
module Schema {
  import opened Wrappers
  import opened Seqs
  import opened BlogDate

  const IntMin: int := -0x8000_0000
  const IntMax: int := 0x7FFF_FFFF

  datatype PlaceRow = PlaceRow(id: nat, name: Option<string>, address: string, businessHours: Option<string>)

  datatype PlaceHoursRow = PlaceHoursRow(id: nat, placeId: nat, day: string, time: string)

  datatype ReviewRow = ReviewRow(
    id: nat,
    placeId: nat,
    author: string,
    reviewDate: Option<string>,
    visitCount: Option<string>,
    profileReview: Option<int>,
    profilePhoto: Option<int>,
    profileFollower: Option<int>,
    follow: Option<bool>,
    visitInfo: Option<string>,
    body: Option<string>,
    tags: Option<string>,
    reviewMore: Option<bool>,
    extraReviewLine: Option<string>,
    receipt: Option<string>)

  datatype BlogRow = BlogRow(
    id: nat,
    placeId: nat,
    title: string,
    author: Option<string>,
    date: Option<DateTime>,
    content: Option<string>,
    blogUrl: Option<string>)

  datatype BlogImageRow = BlogImageRow(id: nat, blogId: nat, imageUrl: string)

  datatype PlacePhotoRow = PlacePhotoRow(id: nat, placeId: nat, imageUrl: string)

  predicate FitsOpt(s: Option<string>, n: nat) {
    s.None? || |s.value| <= n
  }

  /** Bytes of one character in UTF-8. */
  function Utf8Width(c: char): (n: nat)
    ensures 1 <= n <= 4
  {
    if c as int < 0x80 then 1
    else if c as int < 0x800 then 2
    else if c as int < 0x1_0000 then 3
    else 4
  }

  /** Bytes of a text in UTF-8, the size MySQL counts a `TEXT` value in. */
  function Utf8Length(s: string): nat {
    if s == [] then 0 else Utf8Width(s[0]) + Utf8Length(s[1..])
  }

  /** A text takes at least one and at most four bytes per character. */
  lemma {:induction false} Utf8LengthBounds(s: string)
    ensures |s| <= Utf8Length(s) <= 4 * |s|
  {
    if s != [] {
      Utf8LengthBounds(s[1..]);
    }
  }

  /** Characters from U+0800 on (Hangul among them) take at least three bytes each. */
  lemma {:induction false} Utf8LengthWide(s: string)
    requires forall k | 0 <= k < |s| :: s[k] as int >= 0x800
    ensures Utf8Length(s) >= 3 * |s|
  {
    if s != [] {
      assert forall k | 0 <= k < |s[1..]| :: s[1..][k] == s[k + 1];
      Utf8LengthWide(s[1..]);
    }
  }

  const TextMaxBytes: nat := 65535

  predicate FitsText(s: Option<string>) {
    s.None? || Utf8Length(s.value) <= TextMaxBytes
  }

  predicate FitsInt(i: Option<int>) {
    i.None? || IntMin <= i.value <= IntMax
  }

  predicate PlaceRowFits(r: PlaceRow) {
    FitsOpt(r.name, 255) && |r.address| <= 255 && FitsOpt(r.businessHours, 255)
  }

  predicate PlaceHoursRowFits(r: PlaceHoursRow) {
    |r.day| <= 10 && |r.time| <= 50
  }

  predicate ReviewRowFits(r: ReviewRow) {
    && |r.author| <= 100
    && FitsOpt(r.reviewDate, 100)
    && FitsOpt(r.visitCount, 20)
    && FitsInt(r.profileReview) && FitsInt(r.profilePhoto) && FitsInt(r.profileFollower)
    && FitsOpt(r.visitInfo, 255)
    && FitsText(r.body)
    && FitsOpt(r.tags, 255)
    && FitsOpt(r.extraReviewLine, 255)
    && FitsOpt(r.receipt, 50)
  }

  predicate BlogRowFits(r: BlogRow) {
    |r.title| <= 255 && FitsOpt(r.author, 100) && FitsText(r.content) && FitsOpt(r.blogUrl, 255)
  }

  /** A blog body of more than 21845 Hangul characters does not fit its `Text` column. */
  lemma LongHangulBlogRejected(r: BlogRow)
    requires r.content.Some? && |r.content.value| > 21845
    requires forall k | 0 <= k < |r.content.value| :: '가' <= r.content.value[k] <= '힣'
    ensures !BlogRowFits(r)
  {
    Utf8LengthWide(r.content.value);
  }

  predicate BlogImageRowFits(r: BlogImageRow) {
    |r.imageUrl| <= 255
  }

  predicate PlacePhotoRowFits(r: PlacePhotoRow) {
    |r.imageUrl| <= 255
  }

  datatype Tables = Tables(
    places: seq<PlaceRow>,
    hours: seq<PlaceHoursRow>,
    reviews: seq<ReviewRow>,
    blogs: seq<BlogRow>,
    blogImages: seq<BlogImageRow>,
    photos: seq<PlacePhotoRow>)

  /** The next value of each table's auto-increment counter. */
  datatype Counters = Counters(place: nat, hours: nat, review: nat, blog: nat, blogImage: nat, photo: nat)

  function PlaceIds(t: Tables): set<nat> {
    set r | r in t.places :: r.id
  }

  function BlogIds(t: Tables): set<nat> {
    set r | r in t.blogs :: r.id
  }

  /** Every row satisfies its table's column constraints. */
  predicate RowsFit(t: Tables) {
    && (forall r | r in t.places :: PlaceRowFits(r))
    && (forall r | r in t.hours :: PlaceHoursRowFits(r))
    && (forall r | r in t.reviews :: ReviewRowFits(r))
    && (forall r | r in t.blogs :: BlogRowFits(r))
    && (forall r | r in t.blogImages :: BlogImageRowFits(r))
    && (forall r | r in t.photos :: PlacePhotoRowFits(r))
  }

  /** Every foreign key names an existing parent row. */
  predicate ForeignKeysHold(t: Tables) {
    && (forall r | r in t.hours :: r.placeId in PlaceIds(t))
    && (forall r | r in t.reviews :: r.placeId in PlaceIds(t))
    && (forall r | r in t.blogs :: r.placeId in PlaceIds(t))
    && (forall r | r in t.blogImages :: r.blogId in BlogIds(t))
    && (forall r | r in t.photos :: r.placeId in PlaceIds(t))
  }

  function PlaceKey(r: PlaceRow): int { r.id }
  function HoursKey(r: PlaceHoursRow): int { r.id }
  function ReviewKey(r: ReviewRow): int { r.id }
  function BlogKey(r: BlogRow): int { r.id }
  function BlogImageKey(r: BlogImageRow): int { r.id }
  function PhotoKey(r: PlacePhotoRow): int { r.id }

  /** Auto-increment keys: every counter starts at 1; in each table the ids
      rise strictly in insertion order (so they are unique), start at 1 and
      stay below the table's counter. */
  predicate KeysIssued(t: Tables, c: Counters) {
    && c.place >= 1 && c.hours >= 1 && c.review >= 1 && c.blog >= 1 && c.blogImage >= 1 && c.photo >= 1
    && StrictlyIncreasing(t.places, PlaceKey)
    && StrictlyIncreasing(t.hours, HoursKey)
    && StrictlyIncreasing(t.reviews, ReviewKey)
    && StrictlyIncreasing(t.blogs, BlogKey)
    && StrictlyIncreasing(t.blogImages, BlogImageKey)
    && StrictlyIncreasing(t.photos, PhotoKey)
    && (forall r | r in t.places :: 1 <= r.id < c.place)
    && (forall r | r in t.hours :: 1 <= r.id < c.hours)
    && (forall r | r in t.reviews :: 1 <= r.id < c.review)
    && (forall r | r in t.blogs :: 1 <= r.id < c.blog)
    && (forall r | r in t.blogImages :: 1 <= r.id < c.blogImage)
    && (forall r | r in t.photos :: 1 <= r.id < c.photo)
  }

  /** The invariant of a stored database. */
  predicate Consistent(t: Tables, c: Counters) {
    RowsFit(t) && ForeignKeysHold(t) && KeysIssued(t, c)
  }

  function EmptyTables(): Tables {
    Tables([], [], [], [], [], [])
  }

  function InitialCounters(): Counters {
    Counters(1, 1, 1, 1, 1, 1)
  }

  lemma EmptyIsConsistent()
    ensures Consistent(EmptyTables(), InitialCounters())
  {
  }

  /** Deleting a place through the ORM: the `all, delete-orphan` cascades on
      `Place.hours`, `Place.reviews`, `Place.blogs`, `Place.photos` and
      `Blog.images` remove its hours, reviews, blogs, photos and the images of
      those blogs together with it. */
  function DeletePlace(t: Tables, pid: nat): (r: Tables)
    ensures pid !in PlaceIds(r)
    ensures forall x | x in r.places :: x in t.places && x.id != pid
    ensures forall x | x in r.hours :: x in t.hours && x.placeId != pid
    ensures forall x | x in r.reviews :: x in t.reviews && x.placeId != pid
    ensures forall x | x in r.blogs :: x in t.blogs && x.placeId != pid
    ensures forall x | x in r.photos :: x in t.photos && x.placeId != pid
    ensures forall x | x in r.blogImages :: x in t.blogImages && forall b | b in t.blogs && b.id == x.blogId :: b.placeId != pid
    ensures forall x | x in t.places && x.id != pid :: x in r.places
    ensures forall x | x in t.hours && x.placeId != pid :: x in r.hours
    ensures forall x | x in t.reviews && x.placeId != pid :: x in r.reviews
    ensures forall x | x in t.blogs && x.placeId != pid :: x in r.blogs
    ensures forall x | x in t.photos && x.placeId != pid :: x in r.photos
    ensures forall x | x in t.blogImages && (forall b | b in t.blogs && b.id == x.blogId :: b.placeId != pid) :: x in r.blogImages
  {
    var gone := set b | b in t.blogs && b.placeId == pid :: b.id;
    FilterMembers(t.places, (p: PlaceRow) => p.id != pid);
    FilterMembers(t.hours, (h: PlaceHoursRow) => h.placeId != pid);
    FilterMembers(t.reviews, (v: ReviewRow) => v.placeId != pid);
    FilterMembers(t.blogs, (b: BlogRow) => b.placeId != pid);
    FilterMembers(t.blogImages, (i: BlogImageRow) => i.blogId !in gone);
    FilterMembers(t.photos, (p: PlacePhotoRow) => p.placeId != pid);
    Tables(
      Filter(t.places, (p: PlaceRow) => p.id != pid),
      Filter(t.hours, (h: PlaceHoursRow) => h.placeId != pid),
      Filter(t.reviews, (v: ReviewRow) => v.placeId != pid),
      Filter(t.blogs, (b: BlogRow) => b.placeId != pid),
      Filter(t.blogImages, (i: BlogImageRow) => i.blogId !in gone),
      Filter(t.photos, (p: PlacePhotoRow) => p.placeId != pid))
  }

  /** The cascade leaves no orphan behind: deleting a place keeps the database consistent,
      and the images of the place's blogs go with them. */
  lemma DeletePlaceKeepsConsistency(t: Tables, c: Counters, pid: nat)
    requires Consistent(t, c)
    ensures Consistent(DeletePlace(t, pid), c)
    ensures forall x, b | x in DeletePlace(t, pid).blogImages && b in t.blogs && b.id == x.blogId :: b.placeId != pid
  {
    DeletePlaceKeepsForeignKeys(t, pid);
    DeletePlaceKeepsKeysIssued(t, c, pid);
  }

  lemma DeletePlaceKeepsForeignKeys(t: Tables, pid: nat)
    requires ForeignKeysHold(t)
    ensures ForeignKeysHold(DeletePlace(t, pid))
    ensures forall x, b | x in DeletePlace(t, pid).blogImages && b in t.blogs && b.id == x.blogId :: b.placeId != pid
  {
    var r := DeletePlace(t, pid);
    forall x | x in r.hours ensures x.placeId in PlaceIds(r) {
      var p :| p in t.places && p.id == x.placeId;
      assert p in r.places;
    }
    forall x | x in r.reviews ensures x.placeId in PlaceIds(r) {
      var p :| p in t.places && p.id == x.placeId;
      assert p in r.places;
    }
    forall x | x in r.blogs ensures x.placeId in PlaceIds(r) {
      var p :| p in t.places && p.id == x.placeId;
      assert p in r.places;
    }
    forall x | x in r.photos ensures x.placeId in PlaceIds(r) {
      var p :| p in t.places && p.id == x.placeId;
      assert p in r.places;
    }
    forall x | x in r.blogImages ensures x.blogId in BlogIds(r) {
      var b :| b in t.blogs && b.id == x.blogId;
      assert b.placeId != pid;
      assert b in r.blogs;
    }
  }

  lemma DeletePlaceKeepsKeysIssued(t: Tables, c: Counters, pid: nat)
    requires KeysIssued(t, c)
    ensures KeysIssued(DeletePlace(t, pid), c)
  {
    var gone := set b | b in t.blogs && b.placeId == pid :: b.id;
    FilterKeepsIncreasing(t.places, (p: PlaceRow) => p.id != pid, PlaceKey);
    FilterKeepsIncreasing(t.hours, (h: PlaceHoursRow) => h.placeId != pid, HoursKey);
    FilterKeepsIncreasing(t.reviews, (v: ReviewRow) => v.placeId != pid, ReviewKey);
    FilterKeepsIncreasing(t.blogs, (b: BlogRow) => b.placeId != pid, BlogKey);
    FilterKeepsIncreasing(t.blogImages, (i: BlogImageRow) => i.blogId !in gone, BlogImageKey);
    FilterKeepsIncreasing(t.photos, (p: PlacePhotoRow) => p.placeId != pid, PhotoKey);
  }

  /** Deleting a blog: its images go with it (`Blog.images` cascade). */
  function DeleteBlog(t: Tables, bid: nat): (r: Tables)
    ensures bid !in BlogIds(r)
    ensures forall x | x in r.blogs :: x in t.blogs && x.id != bid
    ensures forall x | x in r.blogImages :: x in t.blogImages && x.blogId != bid
    ensures forall x | x in t.blogs && x.id != bid :: x in r.blogs
    ensures forall x | x in t.blogImages && x.blogId != bid :: x in r.blogImages
    ensures r.places == t.places && r.hours == t.hours && r.reviews == t.reviews && r.photos == t.photos
  {
    FilterMembers(t.blogs, (b: BlogRow) => b.id != bid);
    FilterMembers(t.blogImages, (i: BlogImageRow) => i.blogId != bid);
    t.(blogs := Filter(t.blogs, (b: BlogRow) => b.id != bid),
       blogImages := Filter(t.blogImages, (i: BlogImageRow) => i.blogId != bid))
  }

  lemma DeleteBlogKeepsConsistency(t: Tables, c: Counters, bid: nat)
    requires Consistent(t, c)
    ensures Consistent(DeleteBlog(t, bid), c)
  {
    DeleteBlogKeepsForeignKeys(t, bid);
    DeleteBlogKeepsKeysIssued(t, c, bid);
  }

  lemma DeleteBlogKeepsForeignKeys(t: Tables, bid: nat)
    requires ForeignKeysHold(t)
    ensures ForeignKeysHold(DeleteBlog(t, bid))
  {
    var r := DeleteBlog(t, bid);
    forall x | x in r.blogs ensures x.placeId in PlaceIds(r) {
      var p :| p in t.places && p.id == x.placeId;
      assert p in r.places;
    }
    forall x | x in r.blogImages ensures x.blogId in BlogIds(r) {
      var b :| b in t.blogs && b.id == x.blogId;
      assert b in r.blogs;
    }
  }

  lemma DeleteBlogKeepsKeysIssued(t: Tables, c: Counters, bid: nat)
    requires KeysIssued(t, c)
    ensures KeysIssued(DeleteBlog(t, bid), c)
  {
    FilterKeepsIncreasing(t.blogs, (b: BlogRow) => b.id != bid, BlogKey);
    FilterKeepsIncreasing(t.blogImages, (i: BlogImageRow) => i.blogId != bid, BlogImageKey);
  }
}
