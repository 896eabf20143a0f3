# Naver Map place crawler — verified model of its data logic

The crawler opens a place on Naver Map and collects five kinds of data:

- its home tab: name, road address, business hours, and one `(day, time)` row per weekday;
- the first four visitor reviews, each parsed from the card's rendered text;
- the first blog review: title, author, publish date, body text and image sources;
- up to three large photos from the photo tab.

Each of these passes a pydantic record check (`HomeDataDTO`, `ReviewDataDTO`,
`BlogDataDTO`, `PhotoDataDTO`). `DBManager.add_place_with_all` then stores everything in
six MySQL tables in one transaction.

This project models the parts that compute something and proves what they promise.

- **`Text`** holds the Python string operations the crawler relies on:
  - `str.strip()`, whitespace being exactly what `str.isspace()` accepts;
  - `str.split` on one character, and `sep.join`;
  - substring tests and decimal digits.
- **`Seqs`** holds the list idioms: comprehension filters, `next(...)` over a generator, `any`, take-while loops, clamped slices and deduplication.
- **`ReviewParser`** is `parse_review_text`. Every field of the returned dictionary is stated line by line:
  - the author;
  - the `리뷰 N사진 N팔로워 N` profile, matched like `re.search`;
  - the follow flag, the visit information and the body;
  - the tags (`re.findall` of `[가-힣A-Za-z0-9\s]+`, then the strip/filter comprehension);
  - the four "first line such that" fields.
- **`Dtos`** has one validator per pydantic record over a raw Python value:
  - a required field must be present and of its kind;
  - an `Optional[...]` field without a default must be present but may be `None`;
  - undeclared keys are ignored;
  - a list field is valid only if every element is.

  Each validator is paired with the record's `model_dump` and a round-trip lemma.
- **`Crawler`** holds the list processing inside `fetch_home`, `fetch_reviews`, `fetch_blog_contents` and `fetch_photos`:
  - The browser is replaced by its answers: element texts, attributes, image sizes, and the page as seen on each pass of the photo loop.
  - Each loop is a method proved against a specification function.
  - Lemmas tie the dictionaries the handlers build to the record validators.
- **`BlogDate`** is `datetime.strptime(date, "%Y. %m. %d. %H:%M")` with the grammar Python's `_strptime` builds for it:
  - four year digits;
  - one- or two-digit fields in range;
  - a run of whitespace for each space of the format;
  - full consumption of the text, then a calendar check.
- **`Schema`** has the six ORM tables as row datatypes. It includes:
  - the column limits: nullability, `String(n)` lengths, the 65535-byte UTF-8 size of `Text` columns, 32-bit `Integer`s;
  - foreign keys and auto-increment ids;
  - the `all, delete-orphan` cascades, as delete operations that keep the database consistent.
- **`Database`** has the `DbManager` class, which holds the six tables and the auto-increment counters. Its `AddPlaceWithAll` method stages the rows in the source's order:
  1. the place row, flushed for its id;
  2. the hours;
  3. the reviews, with the tags comma-joined;
  4. the blog post, whose date is parsed, then flushed for its id, then the post's images;
  5. the photos.

  It then commits them all, or leaves tables and counters untouched when an exception is raised. The pure function `Persist` is its specification, and the lemmas about `Persist` state what a call stores.

## Model

| member | source | states |
|---|---|---|
| Seqs.FilterMembers | main.py:299 | a comprehension filter keeps exactly the elements that pass its test |
| Seqs.FirstWhere | main.py:331 | `next((x for x in s if p(x)), None)`: a passing element with no passing element before it; `None` exactly when nothing passes |
| Seqs.Any | main.py:313 | `any(p(x) for x in s)` holds iff some position passes |
| Seqs.TakeWhile | main.py:324-327 | the loop that appends until the first failing element: a prefix, all passing, and the element after it fails |
| Seqs.Slice | main.py:317 | Python's clamped slice `s[lo:hi]` in every case of the bounds |
| Text.Strip | main.py:299 | `strip()` is empty iff the text is whitespace only; otherwise it starts and ends with a non-whitespace character |
| Text.StripInfix | main.py:299 | what `strip()` keeps is an infix with only whitespace cut off on either side |
| Text.Split | main.py:299 | `split('\n')` gives at least one piece and no piece holds the separator |
| Text.JoinSplit | main.py:299 | joining the pieces of `split` with the separator gives the text back |
| ReviewParser.NonBlankLines | main.py:299 | the lines kept are exactly the pieces of `split('\n')` that are not whitespace only, unstripped |
| ReviewParser.ParsedAuthor | main.py:302 | the author is the first non-blank line, and `None` exactly when there is none |
| ReviewParser.AuthorAbsentIffBlank | main.py:299-302 | the author is missing exactly when the whole review text is whitespace |
| ReviewParser.SplitBlank | main.py:299 | cutting at a whitespace separator leaves only blank pieces iff the text is whitespace only |
| ReviewParser.DigitsAtSound | main.py:305 | `(\d+)` matches exactly where a digit stands, consumes the whole run and reads it in decimal |
| ReviewParser.PrefixedNumberAtSound | main.py:305 | a `<label>(\d+)` match starts with the label and then reads the whole digit run |
| ReviewParser.SearchProfile | main.py:305 | `re.search`: the match at the leftmost position where the pattern matches; `None` iff it matches nowhere |
| Seqs.FirstFrom | main.py:305 | the scan behind `re.search`: the first position from `i` on where the pattern matches, none before it; nothing found only when no position matches |
| ReviewParser.MatchProfileSound | main.py:305 | a match reads three non-empty digit strings that really stand in the line as `리뷰 d1사진 d2팔로워 d3`, the last not followed by a digit |
| ReviewParser.MatchProfileComplete | main.py:305 | wherever `리뷰 d1사진 d2팔로워 d3` stands (last digit run complete), the pattern matches there with those values |
| ReviewParser.ProfileRoundTrip | main.py:305-310 | counts written as `리뷰 N사진 M팔로워 K` are read back as N, M, K |
| ReviewParser.ParseProfile | main.py:305-310 | the three counts are all present or all `None`, and present only when line 1 exists and matches |
| ReviewParser.ParsedProfile | main.py:305-310 | the parsed profile has all three counts or none, and none without a second non-blank line |
| ReviewParser.ParsedProfileValues | main.py:305-310 | with a matching line 1 the counts are the three captured numbers in order; otherwise all three are `None` |
| ReviewParser.ParsedFollow | main.py:313 | `follow` iff one of the first four non-blank lines contains "follow" |
| ReviewParser.ParsedVisitInfo | main.py:316-320 | the visit information is the first of lines 2 to 5 holding one of the seven visit words, and `None` exactly when none of them does |
| ReviewParser.BodyLines | main.py:323-327 | `lines[4:]` up to, not including, the first line with "더보기": empty with four lines or fewer, otherwise a prefix of `lines[4:]`, no kept line holds the marker, the next one does |
| ReviewParser.BodyWithoutMarker | main.py:323-328 | with no "더보기" anywhere the body lines are all lines from index 4 |
| ReviewParser.ParsedBody | main.py:323-328 | the body is empty with four lines or fewer, and without a marker is lines 4 onwards joined by single spaces |
| ReviewParser.TagRuns | main.py:334 | `re.findall` of the class pattern yields non-empty runs of class characters |
| ReviewParser.TagRunsMaximal | main.py:334 | the runs are maximal: the line is the runs alternating with gaps free of class characters, every gap between two runs non-empty |
| ReviewParser.TagRunsUnique | main.py:334 | conversely, any cut of the line into maximal runs is the one `re.findall` returns |
| ReviewParser.TagRunsCoverClass | main.py:334 | the runs, concatenated, are exactly the class characters of the line in order |
| ReviewParser.TagsWellFormed | main.py:335 | every tag is non-empty, has no surrounding whitespace, holds class characters only, hence no `+` |
| ReviewParser.OverflowTestIsDead | main.py:334-335 | the `!= "+4"` test never removes anything: the tags are the non-empty stripped runs |
| ReviewParser.PlusPrefixedTag | main.py:334-335 | a `+` before a trimmed run of class characters is dropped and the run is one tag |
| ReviewParser.OverflowLineTag | main.py:334-335 | the line `+4 친절해요` gives the tag `4 친절해요` |
| ReviewParser.ReviewTags | main.py:331-335 | tags come only from a line holding `+` or "음식이 맛있어요", and each is well formed |
| ReviewParser.ReviewTagsOfFirstTagLine | main.py:331-335 | the tags are the stripped, non-blank runs of the first line holding `+` or "음식이 맛있어요"; none without such a line |
| ReviewParser.ParsedTags | main.py:331-335 | the tag line is the first line holding `+` or "음식이 맛있어요"; the tags are its stripped non-blank runs, none without it, each well formed |
| ReviewParser.ParsedFirstLines | main.py:338-343 | extra-review line, visit date (`\d{4}년` at the start), visit count and receipt are each the first line passing their test, `None` iff none does |
| ReviewParser.ParsedReviewMore | main.py:352 | `review_more` iff some non-blank line holds "더보기" |
| Dtos.StrField | models/DTOs.py:5-6 | a `str` field is accepted iff present and a string, and yields that string |
| Dtos.OptStrField | models/DTOs.py:23-24 | an `Optional[str]` field is accepted iff present and a string or `None`; `None` maps to `None` |
| Dtos.OptIntField | models/DTOs.py:15-17 | an `Optional[int]` field is accepted iff present and an integer or `None` |
| Dtos.OptBoolField | models/DTOs.py:22 | an `Optional[bool]` field is accepted iff present and a boolean or `None` |
| Dtos.StrListField | models/DTOs.py:41 | a `List[str]` field is accepted iff present and a list of strings, yielding them in order |
| Dtos.OptStrListField | models/DTOs.py:25 | an `Optional[List[str]]` field is accepted iff present and `None` or a list of strings |
| Dtos.OptProfileField | models/DTOs.py:21 | an `Optional[ProfileDTO]` field is accepted iff present and `None` or a valid profile |
| Dtos.ValidateAll | models/DTOs.py:12 | a `List[Model]` is valid iff every element is; the records come in the same order |
| Dtos.ValidatePlaceHours | models/DTOs.py:4-6 | valid iff `day` and `time` are present strings, which the record carries |
| Dtos.PlaceHoursRoundTrip | models/DTOs.py:4-6 | validating a dumped hours record gives it back |
| Dtos.ValidateHomeData | models/DTOs.py:8-12 | valid iff three present strings and a list of valid hours, carried in order |
| Dtos.HomeDataRoundTrip | models/DTOs.py:8-12 | validating a dumped home record gives it back |
| Dtos.ValidateProfile | models/DTOs.py:14-17 | valid iff the three counts are present, each an integer or `None` |
| Dtos.ProfileDumpRoundTrip | models/DTOs.py:14-17 | validating a dumped profile gives it back |
| Dtos.ValidateReview | models/DTOs.py:19-30 | a present non-string `author` is rejected; valid iff `author` is a string and every other field is present with its kind or `None` |
| Dtos.ReviewRoundTrip | models/DTOs.py:19-30 | validating a dumped review gives every field back |
| Dtos.ValidateReviewData | models/DTOs.py:32-33 | valid iff every element of `reviews` is a valid review; one record per element, in order |
| Dtos.ReviewDataRoundTrip | models/DTOs.py:32-33 | validating dumped review data gives it back |
| Dtos.ValidateBlogData | models/DTOs.py:35-41 | valid iff the five string fields are present strings and `images` a list of strings; nothing optional |
| Dtos.BlogDataRoundTrip | models/DTOs.py:35-41 | validating a dumped blog record gives it back |
| Dtos.ValidatePhotoData | models/DTOs.py:43-44 | valid iff `images` is a list of strings |
| Dtos.PhotoDataRoundTrip | models/DTOs.py:43-44 | validating a dumped photo record gives it back |
| Crawler.HoursOf | main.py:116-125 | each hour pair comes from a row holding both elements, stripped; never more pairs than rows |
| Crawler.HoursOfShape | main.py:116-125 | there are as many pairs as rows holding both elements, and each text is already stripped |
| Crawler.HoursOfIsFilterMap | main.py:116-125 | the hours are the stripped pairs of exactly the rows holding both elements, one per row, in page order |
| Crawler.CollectHours | main.py:116-125 | the loop appends exactly the hours list of the specification |
| Crawler.HomeRawValidates | main.py:127-132 | the `home_data` dictionary always passes `HomeDataDTO`, with the hours unchanged and in order |
| Crawler.FirstReviewsInPageOrder | main.py:145-154 | at most four reviews, the k-th parsed from the k-th card's stripped text |
| Crawler.FetchReviews | main.py:145-154 | the two loops produce exactly those parsed reviews |
| Crawler.FirstAuthors | main.py:145-154 | each of the first four cards yields a review with an author iff the card is not whitespace only |
| Crawler.CardHasAuthor | main.py:148-153 | a stripped card parses with an author iff it is not whitespace only |
| Crawler.ReviewRawValidates | main.py:345-357 | a parsed review passes `ReviewDTO` iff it has an author, and then every field arrives unchanged |
| Crawler.RawIsDump | main.py:345-357 | the dictionary of a parsed review with an author is the dump of its record |
| Crawler.ReviewDataValidates | main.py:157-159 | `ReviewDataDTO(**review_data)` succeeds iff every parsed review has an author, one record each in order |
| Crawler.FetchedReviewsValidate | main.py:73-74 | the fetched reviews fail validation iff one of the first four cards is whitespace only |
| Crawler.ConcatBlocks | main.py:207-210 | `sum_contents +=` over the blocks computes the body of the specification |
| Crawler.CleanBlockIsClean | main.py:209 | a cleaned block has no U+200B, no surrounding whitespace, and cleaning it again changes nothing |
| Crawler.CleanBlockVisible | main.py:209 | no character of a cleaned block is U+200B |
| Crawler.BlogContentHasNoZeroWidthSpace | main.py:207-210 | the concatenated body holds no U+200B |
| Crawler.CollectImageSources | main.py:214-219 | the loop appends exactly the non-empty `data-lazy-src` values in order |
| Crawler.LazySourcesAreTheNonEmptyValues | main.py:214-219 | every collected source is a non-empty attribute value, and every non-empty value is collected |
| Crawler.BlogRawValidates | main.py:197-229 | `BlogDataDTO(**blog_data)` succeeds iff the blog link had an `href`, and carries the stripped texts, the body and the sources |
| Crawler.ScanPage | main.py:252-259 | one pass appends the sources of the images with a `src` and natural size at least 300 by 300, in order |
| Crawler.SelectPhotos | main.py:245-283 | the `while has_more_images` loop over the page snapshots returns the selection of the specification |
| Crawler.PhotoSelectionFacts | main.py:252-283 | the loop stops iff three sources have accumulated; it returns exactly three, a prefix of the accumulated list; each came from a large image with that `src` |
| Crawler.RescanCollectsDuplicates | main.py:252-268 | two large images seen on two passes give `["p1", "p2", "p1"]` |
| Crawler.DistinctPhotoSelection | main.py:252-283 | the corrected selection: present iff three distinct sources were seen; three pairwise different sources, all seen |
| Crawler.ScanPageDistinct | main.py:252-259 | the corrected pass appends a large image's source only if not already held |
| Crawler.SelectDistinctPhotos | main.py:245-283 | the corrected loop returns the corrected selection |
| Crawler.DistinctSkipsRescan | main.py:252-268 | on a rescanned page of two large images the corrected loop keeps scrolling |
| Crawler.DistinctFindsThird | main.py:252-268 | once a third large image appears the corrected loop returns the three different sources |
| Crawler.PhotoRawValidates | main.py:282-284 | whatever the loop selects passes `PhotoDataDTO` unchanged |
| BlogDate.DaysInMonth | models/db_manager.py:124 | 28 to 31 days; 29 exactly for February of a leap year |
| BlogDate.TakeField | models/db_manager.py:124 | a field is one or two leading digits whose value lies in the field's range |
| BlogDate.ParseBlogDate | models/db_manager.py:124 | every date `strptime` returns is a real calendar date-time |
| BlogDate.ParseBlogDatePieces | models/db_manager.py:124 | a text in the format (four year digits, one- or two-digit fields in range, a whitespace run for each format space) is accepted exactly when its fields form a calendar date, and is read as that date |
| BlogDate.ParseBlogDateSound | models/db_manager.py:124 | conversely, every accepted text is in that format with nothing before or after, and the result is the date its fields name |
| BlogDate.AcceptedShape | models/db_manager.py:124 | an accepted text starts with four digits and a full stop and ends with a digit |
| BlogDate.RejectDashedDate | models/db_manager.py:124 | `2023-08-15 14:30` is refused |
| BlogDate.RejectTrailingText | models/db_manager.py:124 | `2023. 8. 5. 9:07x` is refused |
| BlogDate.ParseFormatBlogDate | models/db_manager.py:124 | parsing the zero-padded text of in-range fields gives them back iff they form a calendar date |
| BlogDate.ParseExampleDate | models/db_manager.py:124 | `2023. 08. 15. 14:30` is read as 15 August 2023, 14:30 |
| BlogDate.RejectImpossibleDate | models/db_manager.py:124 | `2023. 02. 30. 10:00` is refused |
| BlogDate.ParseLenientDate | models/db_manager.py:124 | `2023.  8. 5. 9:07` is accepted: one-digit fields and a run of spaces |
| Schema.Utf8LengthBounds | models/models.py:44 | a text's UTF-8 size, which a `Text` column limits, is one to four bytes per character |
| Schema.LongHangulBlogRejected | models/models.py:58 | a blog body of more than 21845 Hangul characters exceeds the 65535 bytes of its `Text` column |
| Schema.EmptyIsConsistent | models/models.py:11-79 | empty tables with counters at 1 satisfy every column, key and id invariant |
| Schema.DeletePlace | models/models.py:17-20 | deleting a place removes it, its hours, reviews, blogs and photos, and the images of those blogs, and only those |
| Schema.DeletePlaceKeepsConsistency | models/models.py:17-20 | the place cascade leaves no orphan and keeps the database consistent |
| Schema.DeletePlaceKeepsForeignKeys | models/models.py:17-20 | after the place cascade every foreign key still names a stored parent |
| Schema.DeletePlaceKeepsKeysIssued | models/models.py:13-75 | deleting rows keeps every table's ids rising, unique and below its counter |
| Schema.DeleteBlog | models/models.py:61 | deleting a blog removes it and its images only, other tables untouched |
| Schema.DeleteBlogKeepsConsistency | models/models.py:61 | the blog cascade keeps the database consistent |
| Schema.DeleteBlogKeepsForeignKeys | models/models.py:61 | after the blog cascade every image names a stored blog |
| Schema.DeleteBlogKeepsKeysIssued | models/models.py:54-67 | deleting a blog keeps the ids issued by the counters |
| Database.DbManager.AddPlaceWithAll | models/db_manager.py:84-148 | on success the tables and counters are those of `Persist`; on an exception it is re-raised and nothing changes; consistency is kept |
| Database.StageCall | models/db_manager.py:88-142 | the body of the `try` stages exactly the rows of `Staged`, or the first exception |
| Database.BuildHoursRows | models/db_manager.py:97-98 | one hours row per entry, numbered on, under the new place |
| Database.BuildReviewRows | models/db_manager.py:101-119 | one review row per review, or the exception of the first review lacking a profile or tags |
| Database.BuildImageRows | models/db_manager.py:137-138 | one image row per blog image, under the new blog |
| Database.BuildPhotoRows | models/db_manager.py:141-142 | one photo row per photo URL, under the new place |
| Database.StagedRows | models/db_manager.py:88-142 | a call that reaches the commit had an acceptable place row, built every review row and parsed the blog date |
| Database.ReviewRowsNumbered | models/db_manager.py:101-119 | review rows exist iff every review is storable, the k-th numbered `first + k` |
| Database.DatedBlogParses | models/db_manager.py:122-124 | the date is parsed only when there is a post; the call fails exactly when it does not parse |
| Database.StagedIsWellNumbered | models/db_manager.py:88-142 | staged rows: one place with the next id, every child under it, ids consecutive, images under the new blog |
| Database.RejectedPlaceFailsFirst | models/db_manager.py:88-94 | a place row the server refuses fails the call at the first flush |
| Database.UnstorableReviewFails | models/db_manager.py:101-119 | a review without a profile or tags makes the call raise the first such review's exception |
| Database.BadBlogDateFails | models/db_manager.py:123-124 | an unparsable blog date makes the call raise; nothing is stored |
| Database.PersistCommits | models/db_manager.py:145 | a call that returns normally appends exactly what it staged and advances the counters |
| Database.PersistAppendsExactly | models/db_manager.py:97-142 | one place, one row per hours entry, review, blog image and photo, at most one blog; old rows untouched in place |
| Database.PersistLinksNewPlace | models/db_manager.py:88-142 | the new place has a fresh id that every child row carries; every image carries the new blog's fresh id |
| Database.ReviewRowStores | models/db_manager.py:103-118 | the review row maps `visit_date` to `review_date`, the profile counts to their columns, tags comma-joined, the rest copied |
| Database.PersistReviewColumns | models/db_manager.py:103-118 | on success the k-th new review row stores the k-th review |
| Database.PersistBlogColumns | models/db_manager.py:125-138 | on success the blog row holds the parsed date and the post's fields, and the image rows its URLs in order |
| Database.AppendKeepsConsistency | models/db_manager.py:145 | committing well-numbered rows that fit their columns keeps the database consistent |
| Database.PersistKeepsConsistency | models/db_manager.py:84-148 | a successful call keeps every column limit, foreign key and id invariant |
| Database.NoTagsStoredEmpty | models/db_manager.py:114 | an empty tag list is stored as the empty string |
| Database.StoredTagsRecoverable | models/db_manager.py:114 | tags are recoverable from the column when there is at least one and none holds a comma |
| Database.StoredTagsLossy | models/db_manager.py:114 | a tag holding a comma cannot be told apart from two tags |

## Left out

- The browser. Navigation, selectors, clicks, frames and timed waits are not modelled: their results are inputs, such as the element texts, attributes and natural sizes, and the page seen on each photo pass.
- Image downloads, file writes and `random.sample`: network, file-system I/O and randomness.
- The exception-swallowing tail of `fetch_photos`, which logs and returns `None`; the model has no exceptions in that handler.
- The command line, the async lifecycle, engine and session setup, `create_database_if_not_exists`, `create_all_tables`, `aclose`, `session_scope` and the example queries. These are MySQL and SQLAlchemy I/O. The `DbManager` constructor starts from empty tables instead.
- The server's `created_at` timestamps.
- The configuration loader and the logger (configs/config.py and utils/logger.py are not part of this model).
- Concurrency: one call at a time; the async session's interleavings are not modelled.
- ReviewParser.DigitsAt, ReviewParser.StartsWithYear, BlogDate.TakeField and BlogDate.ParseBlogDate: `\d` is taken as the ASCII digits. Python's `re` (in the profile pattern and in `re.match(r"\d{4}년", l)`) and `strptime`'s field patterns also accept other Unicode decimal digits, which the model rejects.
- Crawler.SelectPhotos: returns `None` when the given snapshots run out before three sources have accumulated. The source has no exit then and scrolls forever, so its termination is not claimed.
- A page with no blog link makes `fetch_blog` raise when it reads the missing element's `href`. A link without `href` makes `page.goto(None)` raise at main.py:190, before any dictionary is built. Crawler.BlogRawValidates instead builds the dictionary with a `None` URL and shows that `BlogDataDTO` refuses it; either way nothing is stored.
- Dtos.ValidateProfile: pydantic's lax coercions (numeric strings or integral floats as `int`, `"true"` or `1` as `bool`) are not modelled. The crawler only produces values of the declared kinds, and the model accepts exactly those.
- Dtos.ValidateReview: its own contract ties only `author`, `visit_date` and `body` to the input. The remaining fields are pinned by `Dtos.ReviewRoundTrip` and `Crawler.ReviewRawValidates`.
- Dtos: validation stops at the first failing field, where pydantic collects every error. Only acceptance and the record are modelled, not the error text.
- Database.DbManager.AddPlaceWithAll: a failed call restores the auto-increment counters too. A MySQL server would keep the consumed ids, leaving gaps that do not affect any property stated here.
- Database.DbManager.AddPlaceWithAll: the server rejecting a row (a `String(n)` value over `n` characters, a `Text` value over 65535 UTF-8 bytes, an out-of-range integer) is one `RowRejected` outcome. Server-specific truncation modes are not modelled.
- Database: `if blog_data:` is true for every `BlogDataDTO` instance. The blog is an `Option`, so that the "no post" case the code guards against is covered too.
- ReviewParser.ReviewTags: its own contract states only where tags come from and their shape. Their values are stated by `ReviewParser.ReviewTagsOfFirstTagLine` and `ReviewParser.ParsedTags`.
- BlogDate.ParseBlogDate: its own contract states only that the result is a calendar date. The format is stated in both directions by `BlogDate.ParseBlogDatePieces` and `BlogDate.ParseBlogDateSound`.
- BlogDate.ParseBlogDate: the result is not range-checked against MySQL's `DATETIME` limits, and the year must be at least 1 as Python requires.
- Strings are sequences of Unicode scalar values with no normalisation. U+200B is not whitespace for `strip()` and is removed only by the explicit `replace`.

## Findings

| source | as written | input that shows it | evidently intended | confidence | as-written member | corrected member |
|---|---|---|---|---|---|---|
| main.py:252-268 | every pass rescans all image elements and appends to `large_images`, which is never reset, and `large_images[:3]` is returned | two large images `p1`, `p2` still on the page after one scroll: the result is `["p1", "p2", "p1"]`, and the same photo is downloaded twice | three different photos: a source already collected is not appended again | medium, not executed | Crawler.RescanCollectsDuplicates | Crawler.SelectDistinctPhotos |
