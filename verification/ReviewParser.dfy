/** `parse_review_text`: the line-oriented extractor that turns the rendered
    text of one review card into a review record. Every field is read
    independently; a field whose pattern is absent is `None` rather than a guess. */
module ReviewParser {
  import opened Wrappers
  import opened Seqs
  import opened Text

  /** The author's profile counts; all three are present or all absent. */
  datatype Profile = Profile(review: Option<nat>, photo: Option<nat>, follower: Option<nat>)

  /** The dictionary `parse_review_text` returns. */
  datatype ParsedReview = ParsedReview(
    author: Option<string>,
    profile: Profile,
    follow: bool,
    visitInfo: Option<string>,
    body: string,
    tags: seq<string>,
    reviewMore: bool,
    extraReviewLine: Option<string>,
    visitDate: Option<string>,
    visitCount: Option<string>,
    receipt: Option<string>)

  /** The "show more" marker. */
  const MoreMarker: string := "더보기"
  const FollowMarker: string := "follow"
  /** Visit-context words: visit, reservation, waiting, entry, daily life, acquaintance, colleague. */
  const VisitTokens: seq<string> := ["방문", "예약", "대기", "입장", "일상", "지인", "동료"]
  /** The tag that, besides a `+`, marks the tag line ("the food is tasty"). */
  const TagAnchor: string := "음식이 맛있어요"
  const ExtraReviewsPhrase: string := "개의 리뷰가 더 있습니다"
  const VisitCountPhrase: string := "번째 방문"
  const ReceiptWord: string := "영수증"
  const VerifiedWord: string := "인증"
  /** The overflow marker the tag filter tests for. */
  const OverflowMarker: string := "+4"

  const ReviewLabel: string := "리뷰 "
  const PhotoLabel: string := "사진 "
  const FollowerLabel: string := "팔로워 "

  predicate IsContentLine(l: string) {
    !IsBlank(l)
  }

  /** `[line for line in text.split('\n') if line.strip()]`: the lines are kept unstripped. */
  function NonBlankLines(text: string): (lines: seq<string>)
    ensures forall l | l in lines :: !IsBlank(l) && l in Split(text, '\n')
    ensures forall l | l in Split(text, '\n') && !IsBlank(l) :: l in lines
  {
    FilterMembers(Split(text, '\n'), IsContentLine);
    Filter(Split(text, '\n'), IsContentLine)
  }

  // ---------------------------------------------------------------------------
  // Profile line: re.search(r'리뷰 (\d+)사진 (\d+)팔로워 (\d+)', line)

  /** `(\d+)` at position `i`: the value of the maximal digit run there and the
      position after it. */
  function DigitsAt(line: string, i: nat): (r: Option<(nat, nat)>)
    requires i <= |line|
    ensures r.Some? ==> i < r.value.1 <= |line|
  {
    var n := DigitRunLength(line, i);
    if n == 0 then None else Some((ParseNat(line[i..i + n]), i + n))
  }

  /** `(\d+)` matches exactly where a digit stands, takes the whole run of
      digits, and reads it as a decimal number. */
  lemma DigitsAtSound(line: string, i: nat)
    requires i <= |line|
    ensures var r := DigitsAt(line, i);
      && (r.None? <==> i == |line| || !IsDigit(line[i]))
      && (r.Some? ==> AllDigits(line[i..r.value.1]) && r.value.0 == ParseNat(line[i..r.value.1]))
      && (r.Some? ==> r.value.1 == |line| || !IsDigit(line[r.value.1]))
  {
  }

  /** `<prefix>(\d+)` at position `i`. */
  function PrefixedNumberAt(line: string, i: nat, prefix: string): (r: Option<(nat, nat)>)
    requires i <= |line|
    ensures r.Some? ==> i + |prefix| < r.value.1 <= |line|
  {
    if prefix <= line[i..] then DigitsAt(line, i + |prefix|) else None
  }

  /** A `<prefix>(\d+)` match starts with the prefix, and what follows is the
      whole run of digits it read. */
  lemma PrefixedNumberAtSound(line: string, i: nat, prefix: string)
    requires i <= |line|
    ensures var r := PrefixedNumberAt(line, i, prefix);
      && (r.Some? ==> line[i..i + |prefix|] == prefix)
      && (r.Some? ==> AllDigits(line[i + |prefix|..r.value.1]) && r.value.0 == ParseNat(line[i + |prefix|..r.value.1]))
      && (r.Some? ==> r.value.1 == |line| || !IsDigit(line[r.value.1]))
  {
    if prefix <= line[i..] {
      assert line[i..i + |prefix|] == line[i..][..|prefix|];
      DigitsAtSound(line, i + |prefix|);
    }
  }

  /** The profile pattern anchored at position `i`: the three counts. Each `(\d+)`
      is followed by a non-digit or the end, so the greedy match takes the whole run. */
  function MatchProfileAt(line: string, i: nat): (r: Option<(nat, nat, nat)>)
    requires i <= |line|
  {
    var m1 := PrefixedNumberAt(line, i, ReviewLabel);
    if m1.None? then None else
    var m2 := PrefixedNumberAt(line, m1.value.1, PhotoLabel);
    if m2.None? then None else
    var m3 := PrefixedNumberAt(line, m2.value.1, FollowerLabel);
    if m3.None? then None else
    Some((m1.value.0, m2.value.0, m3.value.0))
  }

  /** `re.search`: the match at the leftmost position where the pattern matches. */
  function SearchProfile(line: string): (r: Option<(nat, nat, nat)>)
    ensures r.None? <==> forall j | 0 <= j <= |line| :: MatchProfileAt(line, j).None?
    ensures r.Some? ==> exists j | 0 <= j <= |line| ::
      MatchProfileAt(line, j) == r && forall k | 0 <= k < j :: MatchProfileAt(line, k).None?
  {
    var matches := (k: nat) => k <= |line| && MatchProfileAt(line, k).Some?;
    assert forall j | 0 <= j <= |line| :: matches(j) == MatchProfileAt(line, j).Some?;
    var pos := FirstFrom(matches, 0, |line|);
    if pos.None? then None else MatchProfileAt(line, pos.value)
  }

  /** `<prefix>` followed by the `n` digits at `i + |prefix|`, and then by the end or a
      non-digit, is read as that number. */
  lemma PrefixedNumberIn(line: string, i: nat, prefix: string, n: nat)
    requires i + |prefix| + n <= |line|
    requires line[i..i + |prefix|] == prefix
    requires n > 0 && AllDigits(line[i + |prefix|..i + |prefix| + n])
    requires i + |prefix| + n == |line| || !IsDigit(line[i + |prefix| + n])
    ensures PrefixedNumberAt(line, i, prefix)
         == Some((ParseNat(line[i + |prefix|..i + |prefix| + n]), i + |prefix| + n))
  {
    var j := i + |prefix|;
    assert line[i..][..|prefix|] == prefix;
    forall k | j <= k < j + n ensures IsDigit(line[k]) {
      assert line[k] == line[j..j + n][k - j];
    }
    RunAt(line, j, n, IsDigit);
  }

  /** The text the profile pattern matches, for the digit strings `d1`, `d2`, `d3`. */
  function ProfileText(d1: string, d2: string, d3: string): (w: string)
    ensures |w| == |ReviewLabel| + |d1| + |PhotoLabel| + |d2| + |FollowerLabel| + |d3|
  {
    (ReviewLabel + d1) + ((PhotoLabel + d2) + (FollowerLabel + d3))
  }

  /** One `<prefix>(\d+)` step that matched: the text there is the prefix and the digits read. */
  lemma PrefixedNumberSound(line: string, i: nat, prefix: string) returns (ds: string)
    requires i <= |line|
    requires PrefixedNumberAt(line, i, prefix).Some?
    ensures var e := PrefixedNumberAt(line, i, prefix).value.1;
      line[i..e] == prefix + ds && ds != [] && AllDigits(ds)
      && PrefixedNumberAt(line, i, prefix).value.0 == ParseNat(ds)
      && (e == |line| || !IsDigit(line[e]))
  {
    var e := PrefixedNumberAt(line, i, prefix).value.1;
    PrefixedNumberAtSound(line, i, prefix);
    ds := line[i + |prefix|..e];
    assert line[i..e] == line[i..i + |prefix|] + ds;
  }

  lemma SliceSplit3(line: string, i: nat, a: nat, b: nat, c: nat)
    requires i <= a <= b <= c <= |line|
    ensures line[i..c] == line[i..a] + (line[a..b] + line[b..c])
  {
  }

  /** A match gives back the digit strings it read: the pattern really occurs at
      `i`, and the last number is not followed by a further digit. */
  lemma MatchProfileSound(line: string, i: nat) returns (d1: string, d2: string, d3: string)
    requires i <= |line|
    requires MatchProfileAt(line, i).Some?
    ensures d1 != [] && AllDigits(d1) && d2 != [] && AllDigits(d2) && d3 != [] && AllDigits(d3)
    ensures ProfileText(d1, d2, d3) <= line[i..]
    ensures var n := i + |ProfileText(d1, d2, d3)|;
      n == |line| || !IsDigit(line[n])
    ensures MatchProfileAt(line, i) == Some((ParseNat(d1), ParseNat(d2), ParseNat(d3)))
  {
    var m1 := PrefixedNumberAt(line, i, ReviewLabel);
    var m2 := PrefixedNumberAt(line, m1.value.1, PhotoLabel);
    var m3 := PrefixedNumberAt(line, m2.value.1, FollowerLabel);
    var a, b, c := m1.value.1, m2.value.1, m3.value.1;
    d1 := PrefixedNumberSound(line, i, ReviewLabel);
    d2 := PrefixedNumberSound(line, a, PhotoLabel);
    d3 := PrefixedNumberSound(line, b, FollowerLabel);
    ProfileTextAt(line, i, a, b, c, d1, d2, d3);
  }

  /** Three adjacent `<label><digits>` pieces spell the profile text. */
  lemma ProfileTextAt(line: string, i: nat, a: nat, b: nat, c: nat, d1: string, d2: string, d3: string)
    requires i <= a <= b <= c <= |line|
    requires line[i..a] == ReviewLabel + d1
    requires line[a..b] == PhotoLabel + d2
    requires line[b..c] == FollowerLabel + d3
    ensures ProfileText(d1, d2, d3) <= line[i..]
    ensures i + |ProfileText(d1, d2, d3)| == c
  {
    SliceSplit3(line, i, a, b, c);
    assert line[i..c] == ProfileText(d1, d2, d3);
    assert line[i..][..c - i] == line[i..c];
  }

  /** Conversely, wherever `리뷰 <d1>사진 <d2>팔로워 <d3>` occurs (non-empty digit
      strings, the last not followed by a further digit), the pattern matches there
      and reads the three values. */
  lemma MatchProfileComplete(line: string, i: nat, d1: string, d2: string, d3: string)
    requires i <= |line|
    requires d1 != [] && AllDigits(d1) && d2 != [] && AllDigits(d2) && d3 != [] && AllDigits(d3)
    requires ProfileText(d1, d2, d3) <= line[i..]
    requires var n := i + |ProfileText(d1, d2, d3)|;
      n == |line| || !IsDigit(line[n])
    ensures MatchProfileAt(line, i) == Some((ParseNat(d1), ParseNat(d2), ParseNat(d3)))
  {
    var a := PrefixedStep(line, i, ReviewLabel, d1, (PhotoLabel + d2) + (FollowerLabel + d3));
    var b := PrefixedStep(line, a, PhotoLabel, d2, FollowerLabel + d3);
    assert (FollowerLabel + d3) + [] == FollowerLabel + d3;
    var c := PrefixedStep(line, b, FollowerLabel, d3, []);
    MatchFromSteps(line, i, a, b, ParseNat(d1), ParseNat(d2), ParseNat(d3));
  }

  /** The three `<label>(\d+)` steps matching one after another make up the profile match. */
  lemma MatchFromSteps(line: string, i: nat, a: nat, b: nat, n1: nat, n2: nat, n3: nat)
    requires i <= a <= b <= |line|
    requires PrefixedNumberAt(line, i, ReviewLabel) == Some((n1, a))
    requires PrefixedNumberAt(line, a, PhotoLabel) == Some((n2, b))
    requires PrefixedNumberAt(line, b, FollowerLabel).Some? && PrefixedNumberAt(line, b, FollowerLabel).value.0 == n3
    ensures MatchProfileAt(line, i) == Some((n1, n2, n3))
  {
  }

  /** Where the text at `i` starts with `prefix + ds + rest`, with `ds` a non-empty
      digit string and `rest` starting with a non-digit (or empty, with the end of
      the line or a non-digit after `ds`), `<prefix>(\d+)` reads `ds` there, and
      the text after it starts with `rest`. */
  lemma PrefixedStep(line: string, i: nat, prefix: string, ds: string, rest: string) returns (e: nat)
    requires i <= |line|
    requires (prefix + ds) + rest <= line[i..]
    requires ds != [] && AllDigits(ds)
    requires rest != [] ==> !IsDigit(rest[0])
    requires rest == [] ==> i + |prefix| + |ds| == |line| || !IsDigit(line[i + |prefix| + |ds|])
    ensures e == i + |prefix| + |ds| && e <= |line|
    ensures PrefixedNumberAt(line, i, prefix) == Some((ParseNat(ds), e))
    ensures rest <= line[e..]
  {
    e := i + |prefix| + |ds|;
    var w := (prefix + ds) + rest;
    assert forall k | 0 <= k < |w| :: line[i + k] == w[k] by {
      forall k | 0 <= k < |w| ensures line[i + k] == w[k] {
        assert line[i..][k] == w[k];
      }
    }
    assert line[i..i + |prefix|] == prefix by {
      forall k | 0 <= k < |prefix| ensures line[i..i + |prefix|][k] == prefix[k] {
        assert w[k] == prefix[k];
      }
    }
    assert line[i + |prefix|..e] == ds by {
      forall k | 0 <= k < |ds| ensures line[i + |prefix|..e][k] == ds[k] {
        assert w[|prefix| + k] == ds[k];
      }
    }
    if rest != [] {
      assert line[e] == w[|prefix| + |ds|] == rest[0];
    }
    forall k | 0 <= k < |rest| ensures line[e..][k] == rest[k] {
      assert w[|prefix| + |ds| + k] == rest[k];
    }
    PrefixedNumberIn(line, i, prefix, |ds|);
  }

  /** The counts written as `리뷰 N사진 M팔로워 K` are read back as N, M and K. */
  lemma ProfileRoundTrip(review: nat, photo: nat, follower: nat)
    ensures SearchProfile(ProfileText(ShowNat(review), ShowNat(photo), ShowNat(follower)))
         == Some((review, photo, follower))
  {
    var line := ProfileText(ShowNat(review), ShowNat(photo), ShowNat(follower));
    assert line[0..] == line;
    MatchProfileComplete(line, 0, ShowNat(review), ShowNat(photo), ShowNat(follower));
    ParseShowNat(review);
    ParseShowNat(photo);
    ParseShowNat(follower);
    assert MatchProfileAt(line, 0).Some?;
  }

  /** Line 1, if any, read as a profile; no line 1 or no match gives three `None`s (never zeros). */
  function ParseProfile(lines: seq<string>): (p: Profile)
    ensures p.review.Some? <==> p.photo.Some?
    ensures p.photo.Some? <==> p.follower.Some?
    ensures p.review.Some? ==> |lines| > 1 && SearchProfile(lines[1]).Some?
  {
    if |lines| <= 1 then Profile(None, None, None)
    else match SearchProfile(lines[1])
      case None => Profile(None, None, None)
      case Some((a, b, c)) => Profile(Some(a), Some(b), Some(c))
  }
  // ---------------------------------------------------------------------------
  // Tags: re.findall(r"[가-힣A-Za-z0-9\s]+", tag_line), stripped, empty and "+4" dropped

  /** One character of the class `[가-힣A-Za-z0-9\s]`. */
  predicate IsTagChar(c: char) {
    ('가' <= c <= '힣') || ('A' <= c <= 'Z') || ('a' <= c <= 'z') || ('0' <= c <= '9') || IsSpace(c)
  }

  predicate AllTagChars(t: string) {
    forall k | 0 <= k < |t| :: IsTagChar(t[k])
  }

  /** `re.findall` of a one-class `+` pattern: the maximal runs of class characters, left to right. */
  function TagRuns(s: string): (runs: seq<string>)
    ensures forall t | t in runs :: t != [] && AllTagChars(t)
    decreases |s|
  {
    if s == [] then []
    else if !IsTagChar(s[0]) then TagRuns(s[1..])
    else
      var n := RunLength(s, 0, IsTagChar);
      [s[..n]] + TagRuns(s[n..])
  }

  /** The runs hold exactly the class characters of the line, in order: nothing
      outside the class is kept and nothing inside it is lost. */
  lemma {:induction false} TagRunsCoverClass(s: string)
    ensures Concat(TagRuns(s)) == Filter(s, IsTagChar)
    decreases |s|
  {
    if s != [] {
      if !IsTagChar(s[0]) {
        TagRunsCoverClass(s[1..]);
        SkipNonClass(s);
      } else {
        var n := RunLength(s, 0, IsTagChar);
        TagRunsCoverClass(s[n..]);
        TakeClassRun(s);
      }
    }
  }

  /** A character outside the class starts no run and is dropped by the filter. */
  lemma SkipNonClass(s: string)
    requires s != [] && !IsTagChar(s[0])
    ensures TagRuns(s) == TagRuns(s[1..])
    ensures Filter(s, IsTagChar) == Filter(s[1..], IsTagChar)
  {
  }

  /** A character inside the class starts a run, which the filter keeps whole. */
  lemma TakeClassRun(s: string)
    requires s != [] && IsTagChar(s[0])
    ensures var n := RunLength(s, 0, IsTagChar);
      && Concat(TagRuns(s)) == s[..n] + Concat(TagRuns(s[n..]))
      && Filter(s, IsTagChar) == s[..n] + Filter(s[n..], IsTagChar)
  {
    ConcatFirstRun(s);
    FilterPassingPrefix(s, RunLength(s, 0, IsTagChar), IsTagChar);
  }

  lemma ConcatFirstRun(s: string)
    requires s != [] && IsTagChar(s[0])
    ensures var n := RunLength(s, 0, IsTagChar);
      Concat(TagRuns(s)) == s[..n] + Concat(TagRuns(s[n..]))
  {
    var n := RunLength(s, 0, IsTagChar);
    var runs := TagRuns(s);
    assert runs == [s[..n]] + TagRuns(s[n..]);
    assert runs[1..] == TagRuns(s[n..]);
  }

  predicate NoTagChars(g: string) {
    forall k | 0 <= k < |g| :: !IsTagChar(g[k])
  }

  /** `gaps[0] + runs[0] + gaps[1] + runs[1] + ... + gaps[|runs|]`. */
  function Interleave(gaps: seq<string>, runs: seq<string>): string
    requires |gaps| == |runs| + 1
    decreases |runs|
  {
    if runs == [] then gaps[0] else gaps[0] + runs[0] + Interleave(gaps[1..], runs[1..])
  }

  /** `s` cut into maximal runs of class characters: the runs alternate with
      gaps holding no class character, and every gap between two runs is
      non-empty, so no run could be extended or merged with its neighbour. */
  predicate MaximalRuns(s: string, gaps: seq<string>, runs: seq<string>) {
    && |gaps| == |runs| + 1
    && s == Interleave(gaps, runs)
    && (forall k | 0 <= k < |runs| :: runs[k] != [] && AllTagChars(runs[k]))
    && (forall k | 0 <= k < |gaps| :: NoTagChars(gaps[k]))
    && (forall k | 0 < k < |runs| :: gaps[k] != [])
  }

  /** One more character in front of the first gap is one more character in front of the text. */
  lemma InterleaveLongerGap(c: char, gaps: seq<string>, runs: seq<string>)
    requires |gaps| == |runs| + 1
    ensures Interleave([[c] + gaps[0]] + gaps[1..], runs) == [c] + Interleave(gaps, runs)
  {
    var longer := [[c] + gaps[0]] + gaps[1..];
    assert longer[1..] == gaps[1..];
  }

  /** The runs `re.findall` returns are the maximal runs of the line. */
  lemma {:induction false} TagRunsMaximal(s: string) returns (gaps: seq<string>)
    ensures MaximalRuns(s, gaps, TagRuns(s))
    decreases |s|
  {
    if s == [] {
      gaps := [[]];
    } else if !IsTagChar(s[0]) {
      var tail := TagRunsMaximal(s[1..]);
      gaps := [[s[0]] + tail[0]] + tail[1..];
      InterleaveLongerGap(s[0], tail, TagRuns(s[1..]));
      assert s == [s[0]] + s[1..];
      assert gaps[0] == [s[0]] + tail[0];
      assert forall k | 0 < k < |gaps| :: gaps[k] == tail[k];
    } else {
      var n := RunLength(s, 0, IsTagChar);
      var rest := s[n..];
      var runs := TagRuns(rest);
      var tail := TagRunsMaximal(rest);
      gaps := [[]] + tail;
      assert TagRuns(s) == [s[..n]] + runs;
      assert ([s[..n]] + runs)[1..] == runs;
      assert gaps[1..] == tail;
      assert s == s[..n] + rest;
      if runs != [] {
        FirstGapNonEmpty(rest, tail, runs);
      }
    }
  }

  /** After a maximal run the text goes on with a non-class character, so the
      gap before the next run is not empty. */
  lemma FirstGapNonEmpty(rest: string, gaps: seq<string>, runs: seq<string>)
    requires MaximalRuns(rest, gaps, runs) && runs != []
    requires rest != [] ==> !IsTagChar(rest[0])
    ensures gaps[0] != []
  {
    assert rest == gaps[0] + runs[0] + Interleave(gaps[1..], runs[1..]);
    assert rest[|gaps[0]|] == runs[0][0];
  }

  /** Conversely, the maximal runs of a line are exactly what `re.findall` returns:
      the cut into maximal runs is unique. */
  lemma {:induction false} TagRunsUnique(s: string, gaps: seq<string>, runs: seq<string>)
    requires MaximalRuns(s, gaps, runs)
    ensures runs == TagRuns(s)
    decreases |s|
  {
    if gaps[0] != [] {
      var c := gaps[0][0];
      var shorter := [gaps[0][1..]] + gaps[1..];
      assert [c] + shorter[0] == gaps[0] && shorter[1..] == gaps[1..];
      assert [[c] + shorter[0]] + shorter[1..] == gaps;
      InterleaveLongerGap(c, shorter, runs);
      assert s[1..] == Interleave(shorter, runs);
      assert forall k | 0 < k < |shorter| :: shorter[k] == gaps[k];
      assert NoTagChars(shorter[0]);
      TagRunsUnique(s[1..], shorter, runs);
    } else if runs != [] {
      var rest := Interleave(gaps[1..], runs[1..]);
      assert s == [] + runs[0] + rest;
      if |runs| > 1 {
        assert rest == gaps[1] + runs[1] + Interleave(gaps[2..], runs[2..]);
        assert rest[0] == gaps[1][0];
      }
      RunOfPrefix([], runs[0], rest, IsTagChar);
      var n := |runs[0]|;
      assert s[..n] == runs[0] && s[n..] == rest;
      assert forall k | 0 < k < |runs| - 1 :: gaps[1..][k] == gaps[k + 1];
      TagRunsUnique(rest, gaps[1..], runs[1..]);
      assert runs == [runs[0]] + runs[1..];
    }
  }

  /** `[t.strip() for t in runs if t.strip() and t.strip() != "+4"]`. */
  function CleanTags(runs: seq<string>): (tags: seq<string>)
    ensures |tags| <= |runs|
  {
    if runs == [] then []
    else
      var t := Strip(runs[0]);
      (if t != [] && t != OverflowMarker then [t] else []) + CleanTags(runs[1..])
  }

  /** The tags of a tag line. */
  function ExtractTags(line: string): (tags: seq<string>) {
    CleanTags(TagRuns(line))
  }

  /** A `+` in front of a run of class characters is dropped and the rest is
      kept as one tag, so `"+4 ..."` yields a tag starting with `4`, never `"+4"`. */
  lemma PlusPrefixedTag(s: string)
    requires s != [] && AllTagChars(s) && !IsSpace(s[0]) && !IsSpace(s[|s| - 1])
    ensures ExtractTags("+" + s) == [s]
  {
    var line := "+" + s;
    assert line[1..] == s;
    SkipNonClass(line);
    RunAt(s, 0, |s|, IsTagChar);
    assert s[..|s|] == s && s[|s|..] == [];
    assert TagRuns(s) == [s];
    StripTrimmed(s);
    assert [s][1..] == [];
  }

  /** The overflow line of the design: `"+4 친절해요"` gives the tag `"4 친절해요"`. */
  lemma OverflowLineTag()
    ensures ExtractTags("+4 친절해요") == ["4 친절해요"]
  {
    var s := "4 친절해요";
    assert "+4 친절해요" == "+" + s;
    assert AllTagChars(s) by {
      assert forall k | 0 <= k < |s| :: IsTagChar(s[k]);
    }
    PlusPrefixedTag(s);
  }

  /** Stripping a run of class characters leaves class characters only. */
  lemma StripKeepsTagChars(t: string)
    requires AllTagChars(t)
    ensures AllTagChars(Strip(t))
  {
    var r := Strip(t);
    var i, j := StripInfix(t);
    assert forall k | 0 <= k < |r| :: r[k] == t[i + k];
  }

  /** Every tag is non-empty, carries no surrounding whitespace, and consists of
      class characters only; in particular no tag contains `+`. */
  lemma {:induction false} TagsWellFormed(runs: seq<string>)
    requires forall t | t in runs :: AllTagChars(t)
    ensures forall t | t in CleanTags(runs) ::
      t != [] && !IsSpace(t[0]) && !IsSpace(t[|t| - 1]) && AllTagChars(t) && '+' !in t
  {
    if runs != [] {
      TagsWellFormed(runs[1..]);
      StripKeepsTagChars(runs[0]);
      var t := Strip(runs[0]);
    }
  }

  /** The `"+4"` exclusion never fires: `+` is not in the character class, so no
      run can strip to `"+4"`, and dropping the test changes nothing. */
  lemma {:induction false} OverflowTestIsDead(runs: seq<string>)
    requires forall t | t in runs :: AllTagChars(t)
    ensures CleanTags(runs) == Filter(StripAll(runs), NonEmpty)
  {
    if runs != [] {
      OverflowTestIsDead(runs[1..]);
      var t := Strip(runs[0]);
      StripKeepsTagChars(runs[0]);
      if t == OverflowMarker {
        assert false;
      }
      assert StripAll(runs) == [t] + StripAll(runs[1..]);
    }
  }

  predicate NonEmpty(t: string) {
    t != []
  }

  function StripAll(runs: seq<string>): (r: seq<string>)
    ensures |r| == |runs|
    ensures forall k | 0 <= k < |runs| :: r[k] == Strip(runs[k])
  {
    if runs == [] then [] else [Strip(runs[0])] + StripAll(runs[1..])
  }

  /** A line holding a `+` or the anchor tag: the line `next(...)` picks for tags. */
  predicate IsTagLine(l: string) {
    Contains(l, "+") || Contains(l, TagAnchor)
  }

  // ---------------------------------------------------------------------------
  // The other fields

  predicate HasVisitToken(l: string) {
    exists k | 0 <= k < |VisitTokens| :: Contains(l, VisitTokens[k])
  }

  predicate HasMoreMarker(l: string) {
    Contains(l, MoreMarker)
  }

  predicate NoMoreMarker(l: string) {
    !Contains(l, MoreMarker)
  }

  predicate HasFollowMarker(l: string) {
    Contains(l, FollowMarker)
  }

  predicate HasExtraReviews(l: string) {
    Contains(l, ExtraReviewsPhrase)
  }

  /** `re.match(r"\d{4}년", l)`: four digits then `년` at the start of the line. */
  predicate StartsWithYear(l: string) {
    |l| >= 5 && AllDigits(l[..4]) && l[4] == '년'
  }

  predicate HasVisitCount(l: string) {
    Contains(l, VisitCountPhrase)
  }

  predicate HasReceipt(l: string) {
    Contains(l, ReceiptWord) || Contains(l, VerifiedWord)
  }

  /** `lines[4:]` up to, not including, the first line holding the "more" marker. */
  function BodyLines(lines: seq<string>): (body: seq<string>)
    ensures |lines| <= 4 ==> body == []
    ensures |lines| > 4 ==> body <= lines[4..]
    ensures forall l | l in body :: !Contains(l, MoreMarker)
    ensures |lines| > 4 + |body| ==> Contains(lines[4 + |body|], MoreMarker)
  {
    TakeWhile(Slice(lines, 4, |lines|), NoMoreMarker)
  }

  /** A well-formed tag: non-empty, no surrounding whitespace, class characters only. */
  predicate WellFormedTag(t: string) {
    t != [] && !IsSpace(t[0]) && !IsSpace(t[|t| - 1]) && AllTagChars(t) && '+' !in t
  }

  /** The tags of the first line holding `+` or the anchor tag; none without such a line. */
  function ReviewTags(lines: seq<string>): (tags: seq<string>)
    ensures tags != [] ==> exists k | 0 <= k < |lines| :: IsTagLine(lines[k])
    ensures forall t | t in tags :: WellFormedTag(t)
  {
    match FirstWhere(lines, IsTagLine)
    case None => []
    case Some(line) =>
      TagsWellFormed(TagRuns(line));
      ExtractTags(line)
  }

  /** The tags are those of the first line holding `+` or the anchor tag:
      its maximal runs, stripped, with the blank ones dropped; without such
      a line there are none. */
  lemma ReviewTagsOfFirstTagLine(lines: seq<string>)
    ensures (forall k | 0 <= k < |lines| :: !IsTagLine(lines[k])) ==> ReviewTags(lines) == []
    ensures forall k | 0 <= k < |lines| && IsTagLine(lines[k]) && (forall j | 0 <= j < k :: !IsTagLine(lines[j])) ::
      ReviewTags(lines) == Filter(StripAll(TagRuns(lines[k])), NonEmpty)
  {
    var v := FirstWhere(lines, IsTagLine);
    FirstWhereIsFirstPassing(lines, IsTagLine);
    if v.Some? {
      OverflowTestIsDead(TagRuns(v.value));
    }
  }

  /** `parse_review_text(text)`. */
  function ParseReviewText(text: string): (r: ParsedReview)
  {
    var lines := NonBlankLines(text);
    ParsedReview(
      author := if |lines| > 0 then Some(lines[0]) else None,
      profile := ParseProfile(lines),
      follow := Any(Slice(lines, 0, 4), HasFollowMarker),
      visitInfo := FirstWhere(Slice(lines, 2, 6), HasVisitToken),
      body := Join(BodyLines(lines), " "),
      tags := ReviewTags(lines),
      reviewMore := Any(lines, HasMoreMarker),
      extraReviewLine := FirstWhere(lines, HasExtraReviews),
      visitDate := FirstWhere(lines, StartsWithYear),
      visitCount := FirstWhere(lines, HasVisitCount),
      receipt := FirstWhere(lines, HasReceipt))
  }

  /** The author is the first non-blank line, and missing only when there is none. */
  lemma ParsedAuthor(text: string)
    ensures var r := ParseReviewText(text); var lines := NonBlankLines(text);
      && (r.author.None? <==> lines == [])
      && (r.author.Some? ==> r.author.value == lines[0] && !IsBlank(r.author.value))
  {
  }

  /** The three profile counts are found together or not at all, and never on
      the first line. */
  lemma ParsedProfile(text: string)
    ensures var r := ParseReviewText(text);
      && (r.profile.review.Some? <==> r.profile.photo.Some?)
      && (r.profile.photo.Some? <==> r.profile.follower.Some?)
      && (r.profile.review.Some? ==> |NonBlankLines(text)| > 1)
  {
  }

  /** With a second non-blank line on which the pattern matches, the profile is
      the three numbers read there, in order; otherwise all three are `None`. */
  lemma ParsedProfileValues(text: string)
    ensures var r := ParseReviewText(text); var lines := NonBlankLines(text);
      && (|lines| > 1 && SearchProfile(lines[1]).Some? ==>
            var m := SearchProfile(lines[1]).value;
            r.profile == Profile(Some(m.0), Some(m.1), Some(m.2)))
      && (|lines| <= 1 || SearchProfile(lines[1]).None? ==> r.profile == Profile(None, None, None))
  {
  }

  /** `follow` holds exactly when one of the first four non-blank lines
      mentions "follow". */
  lemma ParsedFollow(text: string)
    ensures var r := ParseReviewText(text); var lines := NonBlankLines(text);
      r.follow <==> exists k | 0 <= k < |lines| && k < 4 :: HasFollowMarker(lines[k])
  {
    FollowInFirstFour(NonBlankLines(text));
  }

  /** `review_more` holds exactly when some non-blank line holds the "more" marker. */
  lemma ParsedReviewMore(text: string)
    ensures var r := ParseReviewText(text); var lines := NonBlankLines(text);
      r.reviewMore <==> exists k | 0 <= k < |lines| :: HasMoreMarker(lines[k])
  {
  }

  lemma FollowInFirstFour(lines: seq<string>)
    ensures Any(Slice(lines, 0, 4), HasFollowMarker) <==> exists k | 0 <= k < |lines| && k < 4 :: HasFollowMarker(lines[k])
  {
    var head := Slice(lines, 0, 4);
    assert forall k | 0 <= k < |head| :: head[k] == lines[k] && k < 4;
    assert |head| == if |lines| < 4 then |lines| else 4;
  }

  /** The body: nothing before the fifth non-blank line, and without a "more"
      marker every line from the fifth on, joined by single spaces. */
  lemma ParsedBody(text: string)
    ensures var r := ParseReviewText(text); var lines := NonBlankLines(text);
      && (|lines| <= 4 ==> r.body == [])
      && ((forall l | l in lines :: !HasMoreMarker(l)) ==> r.body == Join(Slice(lines, 4, |lines|), " "))
  {
    var lines := NonBlankLines(text);
    if forall l | l in lines :: !HasMoreMarker(l) {
      BodyWithoutMarker(lines);
    }
  }

  /** A field read as `next((l for l in lines if test(l)), None)` is the first
      line passing the test, and missing exactly when no line passes it. */
  predicate IsFirstPassing(lines: seq<string>, test: string -> bool, v: Option<string>) {
    && (v.None? <==> forall k | 0 <= k < |lines| :: !test(lines[k]))
    && (v.Some? ==> exists k | 0 <= k < |lines| :: lines[k] == v.value && test(lines[k]) && forall j | 0 <= j < k :: !test(lines[j]))
  }

  lemma FirstWhereIsFirstPassing(lines: seq<string>, test: string -> bool)
    ensures IsFirstPassing(lines, test, FirstWhere(lines, test))
  {
    var v := FirstWhere(lines, test);
    if v.None? {
      assert forall k | 0 <= k < |lines| :: lines[k] in lines;
    }
  }

  /** The extra-review notice, the visit date, the visit count and the receipt
      are each the first non-blank line passing their test, or `None`. */
  lemma ParsedFirstLines(text: string)
    ensures var r := ParseReviewText(text); var lines := NonBlankLines(text);
      && IsFirstPassing(lines, HasExtraReviews, r.extraReviewLine)
      && IsFirstPassing(lines, StartsWithYear, r.visitDate)
      && IsFirstPassing(lines, HasVisitCount, r.visitCount)
      && IsFirstPassing(lines, HasReceipt, r.receipt)
  {
    var lines := NonBlankLines(text);
    FirstWhereIsFirstPassing(lines, HasExtraReviews);
    FirstWhereIsFirstPassing(lines, StartsWithYear);
    FirstWhereIsFirstPassing(lines, HasVisitCount);
    FirstWhereIsFirstPassing(lines, HasReceipt);
  }

  /** The visit information is one of the third to sixth non-blank lines,
      and holds a visit token. */
  lemma ParsedVisitInfo(text: string)
    ensures var r := ParseReviewText(text); var lines := NonBlankLines(text);
      && IsFirstPassing(Slice(lines, 2, 6), HasVisitToken, r.visitInfo)
      && (r.visitInfo.Some? ==> exists k | 2 <= k < |lines| && k < 6 ::
            lines[k] == r.visitInfo.value && HasVisitToken(lines[k]))
  {
    var lines := NonBlankLines(text);
    FirstWhereIsFirstPassing(Slice(lines, 2, 6), HasVisitToken);
    VisitInfoInWindow(lines, ParseReviewText(text).visitInfo);
  }

  lemma VisitInfoInWindow(lines: seq<string>, v: Option<string>)
    requires v == FirstWhere(Slice(lines, 2, 6), HasVisitToken)
    ensures v.Some? ==> exists k | 2 <= k < |lines| && k < 6 :: lines[k] == v.value && HasVisitToken(lines[k])
  {
    if v.Some? {
      var window := Slice(lines, 2, 6);
      var j :| 0 <= j < |window| && window[j] == v.value;
      assert window[j] == lines[2 + j];
    }
  }

  /** Every tag is well formed, and there are tags only when some line holds
      a `+` or the tag anchor. */
  lemma ParsedTags(text: string)
    ensures var r := ParseReviewText(text); var lines := NonBlankLines(text);
      var tagLine := FirstWhere(lines, IsTagLine);
      && IsFirstPassing(lines, IsTagLine, tagLine)
      && (tagLine.None? ==> r.tags == [])
      && (tagLine.Some? ==> r.tags == Filter(StripAll(TagRuns(tagLine.value)), NonEmpty))
      && (forall t | t in r.tags :: WellFormedTag(t))
  {
    var lines := NonBlankLines(text);
    FirstWhereIsFirstPassing(lines, IsTagLine);
    var tagLine := FirstWhere(lines, IsTagLine);
    if tagLine.Some? {
      OverflowTestIsDead(TagRuns(tagLine.value));
    }
  }

  predicate AllBlank(parts: seq<string>) {
    forall k | 0 <= k < |parts| :: IsBlank(parts[k])
  }

  lemma AllBlankCons(h: string, t: seq<string>)
    ensures AllBlank([h] + t) <==> IsBlank(h) && AllBlank(t)
  {
    var ht := [h] + t;
    assert ht[0] == h;
    assert forall k | 0 <= k < |t| :: ht[k + 1] == t[k];
  }

  lemma IsBlankCons(c: char, s: string)
    ensures IsBlank([c] + s) <==> IsSpace(c) && IsBlank(s)
  {
    var cs := [c] + s;
    assert cs[0] == c;
    assert forall k | 0 <= k < |s| :: cs[k + 1] == s[k];
  }

  /** Cutting a text at a whitespace separator leaves only blank pieces exactly
      when the whole text is whitespace. */
  lemma {:induction false} SplitBlank(s: string, sep: char)
    requires IsSpace(sep)
    ensures AllBlank(Split(s, sep)) <==> IsBlank(s)
  {
    if s != [] {
      SplitBlank(s[1..], sep);
      var t := Split(s[1..], sep);
      assert s == [s[0]] + s[1..];
      IsBlankCons(s[0], s[1..]);
      if s[0] == sep {
        assert Split(s, sep) == [[]] + t;
        AllBlankCons([], t);
      } else {
        var h := [s[0]] + t[0];
        assert Split(s, sep) == [h] + t[1..];
        IsBlankCons(s[0], t[0]);
        AllBlankCons(h, t[1..]);
        AllBlankCons(t[0], t[1..]);
        assert t == [t[0]] + t[1..];
      }
    }
  }

  /** The author is missing exactly when the review text is whitespace only. */
  lemma AuthorAbsentIffBlank(text: string)
    ensures ParseReviewText(text).author.None? <==> IsBlank(text)
  {
    ParsedAuthor(text);
    var parts := Split(text, '\n');
    var lines := NonBlankLines(text);
    SplitBlank(text, '\n');
    if lines != [] {
      assert lines[0] in parts && !IsBlank(lines[0]);
    }
  }

  /** Without a "more" marker on any line, the body is every line from the fifth
      on, joined by single spaces. */
  lemma BodyWithoutMarker(lines: seq<string>)
    requires forall l | l in lines :: !Contains(l, MoreMarker)
    ensures BodyLines(lines) == Slice(lines, 4, |lines|)
  {
    assert forall k | 0 <= k < |lines| :: !Contains(lines[k], MoreMarker) by {
      forall k | 0 <= k < |lines| ensures !Contains(lines[k], MoreMarker) {
        assert lines[k] in lines;
      }
    }
  }
}
