/** The transfer records of `models/DTOs.py` as validators: each record type
    is a function from a raw value (what the crawler builds out of Python
    dictionaries and lists) to the typed record or a validation error. A field
    declared `str`, `bool`, `int` or `List[...]` must be present and of that
    kind; an `Optional[...]` field must be present but may be `None`; keys the
    record does not declare are ignored. */
module Dtos {
  import opened Wrappers
  import opened Seqs

  /** A raw Python value as the crawler produces it. */
  datatype Value =
    | VNone
    | VBool(b: bool)
    | VInt(i: int)
    | VStr(s: string)
    | VList(items: seq<Value>)
    | VDict(fields: map<string, Value>)

  datatype ValidationError =
    | NotAMapping
    | Missing(field: string)
    | WrongType(field: string)

  datatype PlaceHoursDto = PlaceHoursDto(day: string, time: string)

  datatype HomeDataDto = HomeDataDto(name: string, address: string, businessHours: string, hours: seq<PlaceHoursDto>)

  datatype ProfileDto = ProfileDto(review: Option<int>, photo: Option<int>, follower: Option<int>)

  datatype ReviewDto = ReviewDto(
    author: string,
    profile: Option<ProfileDto>,
    follow: Option<bool>,
    visitInfo: Option<string>,
    body: Option<string>,
    tags: Option<seq<string>>,
    reviewMore: Option<bool>,
    extraReviewLine: Option<string>,
    visitDate: Option<string>,
    visitCount: Option<string>,
    receipt: Option<string>)

  datatype ReviewDataDto = ReviewDataDto(reviews: seq<ReviewDto>)

  datatype BlogDataDto = BlogDataDto(title: string, author: string, date: string, content: string, blogUrl: string, images: seq<string>)

  datatype PhotoDataDto = PhotoDataDto(images: seq<string>)

  // ---------------------------------------------------------------------------
  // Field kinds

  predicate IsStrList(v: Value) {
    v.VList? && forall k | 0 <= k < |v.items| :: v.items[k].VStr?
  }

  /** A declared field that must be present. */
  function Field(d: map<string, Value>, key: string): (r: Result<Value, ValidationError>)
    ensures r.Ok? <==> key in d
    ensures r.Ok? ==> r.value == d[key]
  {
    if key in d then Ok(d[key]) else Err(Missing(key))
  }

  function StrField(d: map<string, Value>, key: string): (r: Result<string, ValidationError>)
    ensures r.Ok? <==> key in d && d[key].VStr?
    ensures r.Ok? ==> d[key] == VStr(r.value)
  {
    if key !in d then Err(Missing(key))
    else if d[key].VStr? then Ok(d[key].s)
    else Err(WrongType(key))
  }

  function OptStrField(d: map<string, Value>, key: string): (r: Result<Option<string>, ValidationError>)
    ensures r.Ok? <==> key in d && (d[key].VNone? || d[key].VStr?)
    ensures r.Ok? ==> (r.value.None? <==> d[key].VNone?)
    ensures r.Ok? && r.value.Some? ==> d[key] == VStr(r.value.value)
  {
    if key !in d then Err(Missing(key))
    else match d[key]
      case VNone => Ok(None)
      case VStr(s) => Ok(Some(s))
      case _ => Err(WrongType(key))
  }

  function OptIntField(d: map<string, Value>, key: string): (r: Result<Option<int>, ValidationError>)
    ensures r.Ok? <==> key in d && (d[key].VNone? || d[key].VInt?)
    ensures r.Ok? ==> (r.value.None? <==> d[key].VNone?)
    ensures r.Ok? && r.value.Some? ==> d[key] == VInt(r.value.value)
  {
    if key !in d then Err(Missing(key))
    else match d[key]
      case VNone => Ok(None)
      case VInt(i) => Ok(Some(i))
      case _ => Err(WrongType(key))
  }

  function OptBoolField(d: map<string, Value>, key: string): (r: Result<Option<bool>, ValidationError>)
    ensures r.Ok? <==> key in d && (d[key].VNone? || d[key].VBool?)
    ensures r.Ok? ==> (r.value.None? <==> d[key].VNone?)
    ensures r.Ok? && r.value.Some? ==> d[key] == VBool(r.value.value)
  {
    if key !in d then Err(Missing(key))
    else match d[key]
      case VNone => Ok(None)
      case VBool(b) => Ok(Some(b))
      case _ => Err(WrongType(key))
  }

  function Strings(vs: seq<Value>): (r: seq<string>)
    requires forall k | 0 <= k < |vs| :: vs[k].VStr?
    ensures |r| == |vs|
    ensures forall k | 0 <= k < |vs| :: vs[k] == VStr(r[k])
  {
    if vs == [] then [] else [vs[0].s] + Strings(vs[1..])
  }

  function StrListField(d: map<string, Value>, key: string): (r: Result<seq<string>, ValidationError>)
    ensures r.Ok? <==> key in d && IsStrList(d[key])
    ensures r.Ok? ==> d[key] == VList(StrValues(r.value))
  {
    if key !in d then Err(Missing(key))
    else if IsStrList(d[key]) then
      var xs := Strings(d[key].items);
      assert d[key].items == StrValues(xs);
      Ok(xs)
    else Err(WrongType(key))
  }

  function OptStrListField(d: map<string, Value>, key: string): (r: Result<Option<seq<string>>, ValidationError>)
    ensures r.Ok? <==> key in d && (d[key].VNone? || IsStrList(d[key]))
    ensures r.Ok? ==> (r.value.None? <==> d[key].VNone?)
    ensures r.Ok? && r.value.Some? ==> d[key] == VList(StrValues(r.value.value))
  {
    if key !in d then Err(Missing(key))
    else if d[key].VNone? then Ok(None)
    else match StrListField(d, key)
      case Ok(xs) => Ok(Some(xs))
      case Err(e) => Err(e)
  }

  function StrValues(xs: seq<string>): (vs: seq<Value>)
    ensures |vs| == |xs|
    ensures forall k | 0 <= k < |xs| :: vs[k] == VStr(xs[k])
  {
    if xs == [] then [] else [VStr(xs[0])] + StrValues(xs[1..])
  }

  function OptStr(s: Option<string>): Value {
    if s.Some? then VStr(s.value) else VNone
  }

  function OptInt(i: Option<int>): Value {
    if i.Some? then VInt(i.value) else VNone
  }

  function OptBool(b: Option<bool>): Value {
    if b.Some? then VBool(b.value) else VNone
  }

  /** A `List[Model]` field: every element validated in order; the first failure
      rejects the whole list. */
  function ValidateAll<T>(items: seq<Value>, f: Value -> Result<T, ValidationError>): (r: Result<seq<T>, ValidationError>)
    ensures r.Ok? <==> forall k | 0 <= k < |items| :: f(items[k]).Ok?
    ensures r.Ok? ==> |r.value| == |items| && forall k | 0 <= k < |items| :: f(items[k]) == Ok(r.value[k])
  {
    if items == [] then Ok([])
    else
      match f(items[0])
      case Err(e) => Err(e)
      case Ok(x) =>
        match ValidateAll(items[1..], f)
        case Err(e) =>
          assert forall k | 0 <= k < |items| - 1 :: items[1..][k] == items[k + 1];
          Err(e)
        case Ok(xs) =>
          assert forall k | 1 <= k < |items| :: items[k] == items[1..][k - 1];
          Ok([x] + xs)
  }

  // ---------------------------------------------------------------------------
  // The records

  /** `PlaceHoursDTO(**v)`: valid iff `day` and `time` are both present strings. */
  function ValidatePlaceHours(v: Value): (r: Result<PlaceHoursDto, ValidationError>)
    ensures r.Ok? <==> v.VDict? && StrField(v.fields, "day").Ok? && StrField(v.fields, "time").Ok?
    ensures r.Ok? ==> v.fields["day"] == VStr(r.value.day) && v.fields["time"] == VStr(r.value.time)
  {
    if !v.VDict? then Err(NotAMapping)
    else
      var d := v.fields;
      match StrField(d, "day")
      case Err(e) => Err(e)
      case Ok(day) =>
        match StrField(d, "time")
        case Err(e) => Err(e)
        case Ok(time) => Ok(PlaceHoursDto(day, time))
  }

  /** `h.model_dump()`. */
  function DumpPlaceHours(h: PlaceHoursDto): Value {
    VDict(map["day" := VStr(h.day), "time" := VStr(h.time)])
  }

  lemma PlaceHoursRoundTrip(h: PlaceHoursDto)
    ensures ValidatePlaceHours(DumpPlaceHours(h)) == Ok(h)
  {
  }

  /** `HomeDataDTO(**v)`: three present strings and a list each of whose
      elements is a valid `PlaceHoursDTO`. */
  function ValidateHomeData(v: Value): (r: Result<HomeDataDto, ValidationError>)
    ensures r.Ok? <==> && v.VDict?
                       && StrField(v.fields, "name").Ok?
                       && StrField(v.fields, "address").Ok?
                       && StrField(v.fields, "business_hours").Ok?
                       && "hours" in v.fields && v.fields["hours"].VList?
                       && forall k | 0 <= k < |v.fields["hours"].items| :: ValidatePlaceHours(v.fields["hours"].items[k]).Ok?
    ensures r.Ok? ==> && v.fields["name"] == VStr(r.value.name)
                      && v.fields["address"] == VStr(r.value.address)
                      && v.fields["business_hours"] == VStr(r.value.businessHours)
                      && |r.value.hours| == |v.fields["hours"].items|
                      && forall k | 0 <= k < |r.value.hours| :: ValidatePlaceHours(v.fields["hours"].items[k]) == Ok(r.value.hours[k])
  {
    if !v.VDict? then Err(NotAMapping)
    else
      var d := v.fields;
      match StrField(d, "name")
      case Err(e) => Err(e)
      case Ok(name) =>
        match StrField(d, "address")
        case Err(e) => Err(e)
        case Ok(address) =>
          match StrField(d, "business_hours")
          case Err(e) => Err(e)
          case Ok(bh) =>
            if "hours" !in d then Err(Missing("hours"))
            else if !d["hours"].VList? then Err(WrongType("hours"))
            else
              match ValidateAll(d["hours"].items, ValidatePlaceHours)
              case Err(e) => Err(e)
              case Ok(hours) => Ok(HomeDataDto(name, address, bh, hours))
  }

  /** `ProfileDTO(**v)`: three present keys, each an integer or `None`. */
  function ValidateProfile(v: Value): (r: Result<ProfileDto, ValidationError>)
    ensures r.Ok? <==> && v.VDict?
                       && OptIntField(v.fields, "review").Ok?
                       && OptIntField(v.fields, "photo").Ok?
                       && OptIntField(v.fields, "follower").Ok?
    ensures r.Ok? ==> && v.fields["review"] == OptInt(r.value.review)
                      && v.fields["photo"] == OptInt(r.value.photo)
                      && v.fields["follower"] == OptInt(r.value.follower)
  {
    if !v.VDict? then Err(NotAMapping)
    else
      var d := v.fields;
      match OptIntField(d, "review")
      case Err(e) => Err(e)
      case Ok(review) =>
        match OptIntField(d, "photo")
        case Err(e) => Err(e)
        case Ok(photo) =>
          match OptIntField(d, "follower")
          case Err(e) => Err(e)
          case Ok(follower) => Ok(ProfileDto(review, photo, follower))
  }

  function DumpProfile(p: ProfileDto): Value {
    VDict(map["review" := OptInt(p.review), "photo" := OptInt(p.photo), "follower" := OptInt(p.follower)])
  }

  lemma ProfileDumpRoundTrip(p: ProfileDto)
    ensures ValidateProfile(DumpProfile(p)) == Ok(p)
  {
  }

  /** The `profile` field: `None`, or a valid profile mapping. */
  function OptProfileField(d: map<string, Value>, key: string): (r: Result<Option<ProfileDto>, ValidationError>)
    ensures r.Ok? <==> key in d && (d[key].VNone? || ValidateProfile(d[key]).Ok?)
    ensures r.Ok? ==> (r.value.None? <==> d[key].VNone?)
    ensures r.Ok? && r.value.Some? ==> ValidateProfile(d[key]) == Ok(r.value.value)
  {
    if key !in d then Err(Missing(key))
    else if d[key].VNone? then Ok(None)
    else match ValidateProfile(d[key])
      case Ok(p) => Ok(Some(p))
      case Err(e) => Err(e)
  }

  /** `ReviewDTO(**v)`: `author` must be a string; every other field must be
      present and may be `None`. */
  function ValidateReview(v: Value): (r: Result<ReviewDto, ValidationError>)
    ensures v.VDict? && "author" in v.fields && !v.fields["author"].VStr? ==> r.Err?
    ensures r.Ok? <==> && v.VDict?
                       && StrField(v.fields, "author").Ok?
                       && OptProfileField(v.fields, "profile").Ok?
                       && OptBoolField(v.fields, "follow").Ok?
                       && OptStrField(v.fields, "visit_info").Ok?
                       && OptStrField(v.fields, "body").Ok?
                       && OptStrListField(v.fields, "tags").Ok?
                       && OptBoolField(v.fields, "review_more").Ok?
                       && OptStrField(v.fields, "extra_review_line").Ok?
                       && OptStrField(v.fields, "visit_date").Ok?
                       && OptStrField(v.fields, "visit_count").Ok?
                       && OptStrField(v.fields, "receipt").Ok?
    ensures r.Ok? ==> && v.fields["author"] == VStr(r.value.author)
                      && v.fields["visit_date"] == OptStr(r.value.visitDate)
                      && v.fields["body"] == OptStr(r.value.body)
  {
    if !v.VDict? then Err(NotAMapping)
    else
      var d := v.fields;
      match StrField(d, "author")
      case Err(e) => Err(e)
      case Ok(author) =>
      match OptProfileField(d, "profile")
      case Err(e) => Err(e)
      case Ok(profile) =>
      match OptBoolField(d, "follow")
      case Err(e) => Err(e)
      case Ok(follow) =>
      match OptStrField(d, "visit_info")
      case Err(e) => Err(e)
      case Ok(visitInfo) =>
      match OptStrField(d, "body")
      case Err(e) => Err(e)
      case Ok(body) =>
      match OptStrListField(d, "tags")
      case Err(e) => Err(e)
      case Ok(tags) =>
      match OptBoolField(d, "review_more")
      case Err(e) => Err(e)
      case Ok(reviewMore) =>
      match OptStrField(d, "extra_review_line")
      case Err(e) => Err(e)
      case Ok(extra) =>
      match OptStrField(d, "visit_date")
      case Err(e) => Err(e)
      case Ok(visitDate) =>
      match OptStrField(d, "visit_count")
      case Err(e) => Err(e)
      case Ok(visitCount) =>
      match OptStrField(d, "receipt")
      case Err(e) => Err(e)
      case Ok(receipt) =>
        Ok(ReviewDto(author, profile, follow, visitInfo, body, tags, reviewMore, extra, visitDate, visitCount, receipt))
  }

  function DumpReview(r: ReviewDto): Value {
    VDict(map[
      "author" := VStr(r.author),
      "profile" := if r.profile.Some? then DumpProfile(r.profile.value) else VNone,
      "follow" := OptBool(r.follow),
      "visit_info" := OptStr(r.visitInfo),
      "body" := OptStr(r.body),
      "tags" := if r.tags.Some? then VList(StrValues(r.tags.value)) else VNone,
      "review_more" := OptBool(r.reviewMore),
      "extra_review_line" := OptStr(r.extraReviewLine),
      "visit_date" := OptStr(r.visitDate),
      "visit_count" := OptStr(r.visitCount),
      "receipt" := OptStr(r.receipt)])
  }

  /** `ReviewDataDTO(**v)`: valid iff every element of `reviews` is a valid review. */
  function ValidateReviewData(v: Value): (r: Result<ReviewDataDto, ValidationError>)
    ensures r.Ok? <==> && v.VDict? && "reviews" in v.fields && v.fields["reviews"].VList?
                       && forall k | 0 <= k < |v.fields["reviews"].items| :: ValidateReview(v.fields["reviews"].items[k]).Ok?
    ensures r.Ok? ==> && |r.value.reviews| == |v.fields["reviews"].items|
                      && forall k | 0 <= k < |r.value.reviews| :: ValidateReview(v.fields["reviews"].items[k]) == Ok(r.value.reviews[k])
  {
    if !v.VDict? then Err(NotAMapping)
    else if "reviews" !in v.fields then Err(Missing("reviews"))
    else if !v.fields["reviews"].VList? then Err(WrongType("reviews"))
    else
      match ValidateAll(v.fields["reviews"].items, ValidateReview)
      case Err(e) => Err(e)
      case Ok(reviews) => Ok(ReviewDataDto(reviews))
  }

  /** `BlogDataDTO(**v)`: five present strings and a list of strings; nothing is optional. */
  function ValidateBlogData(v: Value): (r: Result<BlogDataDto, ValidationError>)
    ensures r.Ok? <==> && v.VDict?
                       && StrField(v.fields, "title").Ok?
                       && StrField(v.fields, "author").Ok?
                       && StrField(v.fields, "date").Ok?
                       && StrField(v.fields, "content").Ok?
                       && StrField(v.fields, "blog_url").Ok?
                       && StrListField(v.fields, "images").Ok?
    ensures r.Ok? ==> && v.fields["title"] == VStr(r.value.title)
                      && v.fields["author"] == VStr(r.value.author)
                      && v.fields["date"] == VStr(r.value.date)
                      && v.fields["content"] == VStr(r.value.content)
                      && v.fields["blog_url"] == VStr(r.value.blogUrl)
                      && v.fields["images"] == VList(StrValues(r.value.images))
  {
    if !v.VDict? then Err(NotAMapping)
    else
      var d := v.fields;
      match StrField(d, "title")
      case Err(e) => Err(e)
      case Ok(title) =>
      match StrField(d, "author")
      case Err(e) => Err(e)
      case Ok(author) =>
      match StrField(d, "date")
      case Err(e) => Err(e)
      case Ok(date) =>
      match StrField(d, "content")
      case Err(e) => Err(e)
      case Ok(content) =>
      match StrField(d, "blog_url")
      case Err(e) => Err(e)
      case Ok(url) =>
      match StrListField(d, "images")
      case Err(e) => Err(e)
      case Ok(images) => Ok(BlogDataDto(title, author, date, content, url, images))
  }

  /** `PhotoDataDTO(**v)`: valid iff `images` is a list of strings. */
  function ValidatePhotoData(v: Value): (r: Result<PhotoDataDto, ValidationError>)
    ensures r.Ok? <==> v.VDict? && StrListField(v.fields, "images").Ok?
    ensures r.Ok? ==> v.fields["images"] == VList(StrValues(r.value.images))
  {
    if !v.VDict? then Err(NotAMapping)
    else
      match StrListField(v.fields, "images")
      case Err(e) => Err(e)
      case Ok(images) => Ok(PhotoDataDto(images))
  }

  // ---------------------------------------------------------------------------
  // `model_dump()` of every record, and validation accepting it back unchanged

  lemma {:induction false} StringsOfStrValues(xs: seq<string>)
    ensures Strings(StrValues(xs)) == xs
  {
    if xs != [] {
      StringsOfStrValues(xs[1..]);
      assert StrValues(xs)[1..] == StrValues(xs[1..]);
    }
  }

  lemma ValidateAllOfDumps<T>(xs: seq<T>, dump: T -> Value, f: Value -> Result<T, ValidationError>)
    requires forall x :: f(dump(x)) == Ok(x)
    ensures ValidateAll(Map(xs, dump), f) == Ok(xs)
  {
    var items := Map(xs, dump);
    forall k | 0 <= k < |items| ensures f(items[k]) == Ok(xs[k]) {
      assert items[k] == dump(xs[k]);
    }
    var r := ValidateAll(items, f);
    assert r.Ok?;
    assert r.value == xs;
  }

  function DumpHomeData(h: HomeDataDto): Value {
    VDict(map[
      "name" := VStr(h.name),
      "address" := VStr(h.address),
      "business_hours" := VStr(h.businessHours),
      "hours" := VList(Map(h.hours, DumpPlaceHours))])
  }

  lemma HomeDataRoundTrip(h: HomeDataDto)
    ensures ValidateHomeData(DumpHomeData(h)) == Ok(h)
  {
    forall x: PlaceHoursDto ensures ValidatePlaceHours(DumpPlaceHours(x)) == Ok(x) {
      PlaceHoursRoundTrip(x);
    }
    ValidateAllOfDumps(h.hours, DumpPlaceHours, ValidatePlaceHours);
  }

  lemma ReviewRoundTrip(r: ReviewDto)
    ensures ValidateReview(DumpReview(r)) == Ok(r)
  {
    DumpedReviewHead(r);
    DumpedReviewProfile(r);
    DumpedReviewTail(r);
  }

  /** The profile of a dumped review reads back. */
  lemma DumpedReviewProfile(r: ReviewDto)
    ensures OptProfileField(DumpReview(r).fields, "profile") == Ok(r.profile)
  {
    var d := DumpReview(r).fields;
    assert d["profile"] == if r.profile.Some? then DumpProfile(r.profile.value) else VNone;
    if r.profile.Some? {
      ProfileDumpRoundTrip(r.profile.value);
    }
  }

  /** The author, follow flag, visit information and body of a dumped review read back. */
  lemma DumpedReviewHead(r: ReviewDto)
    ensures var d := DumpReview(r).fields;
      && StrField(d, "author") == Ok(r.author)
      && OptBoolField(d, "follow") == Ok(r.follow)
      && OptStrField(d, "visit_info") == Ok(r.visitInfo)
      && OptStrField(d, "body") == Ok(r.body)
  {
    var d := DumpReview(r).fields;
    assert d["author"] == VStr(r.author);
    assert d["follow"] == OptBool(r.follow);
    assert d["visit_info"] == OptStr(r.visitInfo);
    assert d["body"] == OptStr(r.body);
  }

  /** The tags and the remaining optional strings of a dumped review read back. */
  lemma DumpedReviewTail(r: ReviewDto)
    ensures var d := DumpReview(r).fields;
      && OptStrListField(d, "tags") == Ok(r.tags)
      && OptBoolField(d, "review_more") == Ok(r.reviewMore)
      && OptStrField(d, "extra_review_line") == Ok(r.extraReviewLine)
      && OptStrField(d, "visit_date") == Ok(r.visitDate)
      && OptStrField(d, "visit_count") == Ok(r.visitCount)
      && OptStrField(d, "receipt") == Ok(r.receipt)
  {
    var d := DumpReview(r).fields;
    assert d["tags"] == if r.tags.Some? then VList(StrValues(r.tags.value)) else VNone;
    if r.tags.Some? {
      StringsOfStrValues(r.tags.value);
    }
    assert d["review_more"] == OptBool(r.reviewMore);
    assert d["extra_review_line"] == OptStr(r.extraReviewLine);
    assert d["visit_date"] == OptStr(r.visitDate);
    assert d["visit_count"] == OptStr(r.visitCount);
    assert d["receipt"] == OptStr(r.receipt);
  }

  function DumpReviewData(d: ReviewDataDto): Value {
    VDict(map["reviews" := VList(Map(d.reviews, DumpReview))])
  }

  lemma ReviewDataRoundTrip(d: ReviewDataDto)
    ensures ValidateReviewData(DumpReviewData(d)) == Ok(d)
  {
    forall x: ReviewDto ensures ValidateReview(DumpReview(x)) == Ok(x) {
      ReviewRoundTrip(x);
    }
    ValidateAllOfDumps(d.reviews, DumpReview, ValidateReview);
  }

  function DumpBlogData(b: BlogDataDto): Value {
    VDict(map[
      "title" := VStr(b.title),
      "author" := VStr(b.author),
      "date" := VStr(b.date),
      "content" := VStr(b.content),
      "blog_url" := VStr(b.blogUrl),
      "images" := VList(StrValues(b.images))])
  }

  lemma BlogDataRoundTrip(b: BlogDataDto)
    ensures ValidateBlogData(DumpBlogData(b)) == Ok(b)
  {
    StringsOfStrValues(b.images);
  }

  function DumpPhotoData(p: PhotoDataDto): Value {
    VDict(map["images" := VList(StrValues(p.images))])
  }

  lemma PhotoDataRoundTrip(p: PhotoDataDto)
    ensures ValidatePhotoData(DumpPhotoData(p)) == Ok(p)
  {
    StringsOfStrValues(p.images);
  }
}
