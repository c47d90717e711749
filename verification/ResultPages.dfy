/**
  Reading a stored result page by page. Artifact pages are cut and continued by byte offsets; pages of a
  captured tool result are cut by bytes but continued by code points.
 */
module ResultPages {
  import opened Basics
  import opened Results
  import opened Utf8

  // ---------------------------------------------------------------- artifacts

  datatype Page = Page(offset: nat, nextOffset: Option<nat>, bytes: Bytes)

  predicate Fits(p: Page, sizeBytes: nat) {
    var end := p.offset + |p.bytes|;
    && end <= sizeBytes
    && (if p.nextOffset.None? then end == sizeBytes else p.nextOffset.value == end < sizeBytes && p.bytes != [])
  }

  /** Accepted answers, each to a request for the offset the one before it gave; `at` is the first request. */
  predicate Follows(pages: seq<Page>, sizeBytes: nat, at: nat)
    decreases |pages|
  {
    pages == []
    || (&& pages[0].offset == at
        && Fits(pages[0], sizeBytes)
        && (|pages| > 1 ==> pages[0].nextOffset.Some? && Follows(pages[1..], sizeBytes, pages[0].nextOffset.value)))
  }

  predicate Finished(pages: seq<Page>) {
    pages != [] && pages[|pages| - 1].nextOffset.None?
  }

  function Assembled(pages: seq<Page>): Bytes
    decreases |pages|
  {
    if pages == [] then [] else pages[0].bytes + Assembled(pages[1..])
  }

  /** Does every page hold the content at its place? */
  predicate Cut(pages: seq<Page>, content: Bytes) {
    forall i | 0 <= i < |pages| ::
      var p := pages[i];
      p.offset + |p.bytes| <= |content| && p.bytes == content[p.offset..p.offset + |p.bytes|]
  }

  /** Followed pages tile the artifact without gap or overlap; when the last offset is absent they reach its end. */
  lemma {:induction false} PagesTileTheArtifact(pages: seq<Page>, content: Bytes, at: nat)
    requires at <= |content| && Follows(pages, |content|, at) && Cut(pages, content)
    ensures at + |Assembled(pages)| <= |content|
    ensures Assembled(pages) == content[at..at + |Assembled(pages)|]
    ensures Finished(pages) ==> at + |Assembled(pages)| == |content|
    decreases |pages|
  {
    if pages != [] {
      var end := at + |pages[0].bytes|;
      assert pages[0].bytes == content[at..end];
      hide Cut;
      if |pages| > 1 {
        CutTail(pages, content);
        PagesTileTheArtifact(pages[1..], content, end);
      } else {
        assert Assembled(pages[1..]) == [];
      }
      var rest := Assembled(pages[1..]);
      assert rest == content[end..end + |rest|];
      Adjacent(content, at, end, end + |rest|);
      hide Follows, Fits, Finished;
      assert Assembled(pages) == pages[0].bytes + rest == content[at..end + |rest|];
    }
  }

  lemma Adjacent(content: Bytes, a: nat, b: nat, c: nat)
    requires a <= b <= c <= |content|
    ensures content[a..b] + content[b..c] == content[a..c]
  {
  }

  lemma CutTail(pages: seq<Page>, content: Bytes)
    requires |pages| > 1 && Cut(pages, content)
    ensures Cut(pages[1..], content) && (Finished(pages[1..]) <==> Finished(pages))
  {
    forall i | 0 <= i < |pages| - 1
      ensures pages[1..][i].offset + |pages[1..][i].bytes| <= |content|
        && pages[1..][i].bytes == content[pages[1..][i].offset..pages[1..][i].offset + |pages[1..][i].bytes|]
    {
      assert pages[1..][i] == pages[i + 1];
    }
  }

  /** Following offsets ends: there are never more pages than bytes left, or one page when none are left. */
  lemma {:induction false} PagesRunOut(pages: seq<Page>, sizeBytes: nat, at: nat)
    requires at <= sizeBytes && Follows(pages, sizeBytes, at)
    ensures |pages| <= if at < sizeBytes then sizeBytes - at else 1
    decreases |pages|
  {
    if |pages| > 1 {
      PagesRunOut(pages[1..], sizeBytes, pages[0].nextOffset.value);
    }
  }

  // ---------------------------------------------------------------- captured results

  datatype CapturedPage = CapturedPage(offset: nat, nextOffset: Option<nat>, originalBytes: nat, text: Text)

  /** Iterating a text yields its code points: a surrogate pair is one, a lone surrogate too. */
  function Points(t: Text): (n: nat)
    ensures n <= ByteLength(t)
    ensures n == 0 <==> t == []
    decreases |t|
  {
    if t == [] then 0
    else if Pair(t) then 1 + Points(t[2..])
    else 1 + Points(t[1..])
  }

  predicate FitsCapture(p: CapturedPage) {
    && p.offset + ByteLength(p.text) <= p.originalBytes
    && (p.nextOffset.Some? ==>
          && Points(p.text) > 0
          && p.nextOffset.value == p.offset + Points(p.text)
          && p.nextOffset.value < p.originalBytes)
    && (p.offset == 0 && p.nextOffset.None? ==> ByteLength(p.text) == p.originalBytes)
  }

  /** Code points add up at every cut that is not inside a surrogate pair. */
  lemma {:induction false} PointsOfConcat(a: Text, b: Text)
    requires !JoinsPair(a, b)
    ensures Points(a + b) == Points(a) + Points(b)
    decreases |a|
  {
    if a == [] {
      assert a + b == b;
    } else if |a| == 1 {
      assert (a + b)[1..] == b;
      assert !Pair(a + b);
      assert Points(a[1..]) == 0;
    } else if Pair(a) {
      assert (a + b)[2..] == a[2..] + b;
      PointsOfConcat(a[2..], b);
    } else {
      assert (a + b)[1..] == a[1..] + b;
      PointsOfConcat(a[1..], b);
    }
  }

  /** The page of `before + text + after` that starts after `before`, cut between code points. */
  function Genuine(before: Text, text: Text, after: Text): CapturedPage {
    var offset := Points(before);
    CapturedPage(
      offset,
      if after == [] then None else Some(offset + Points(text)),
      ByteLength(before + text + after),
      text)
  }

  predicate CutsBetweenPoints(before: Text, text: Text, after: Text) {
    !JoinsPair(before, text) && !JoinsPair(before + text, after)
  }

  lemma BytesAddUp(before: Text, text: Text, after: Text)
    requires CutsBetweenPoints(before, text, after)
    ensures ByteLength(before + text + after) == ByteLength(before) + ByteLength(text) + ByteLength(after)
  {
    ByteLengthOfConcat(before + text, after);
    ByteLengthOfConcat(before, text);
  }

  /** No genuine page is refused, whatever the mixture of offsets in code points and sizes in bytes. */
  lemma GenuinePagesFit(before: Text, text: Text, after: Text)
    requires CutsBetweenPoints(before, text, after)
    requires after != [] ==> text != []
    ensures FitsCapture(Genuine(before, text, after))
  {
    BytesAddUp(before, text, after);
  }

  /** The offset a genuine page gives is the offset of the genuine page after it. */
  lemma GenuineOffsetsContinue(before: Text, text: Text, next: Text, after: Text)
    requires CutsBetweenPoints(before, text, next + after) && next + after != []
    ensures Genuine(before, text, next + after).nextOffset == Some(Genuine(before + text, next, after).offset)
  {
    PointsOfConcat(before, text);
  }

  /** A page of the whole capture, cut between code points, which is empty only at the end. */
  ghost predicate PageOf(capture: Text, p: CapturedPage) {
    exists before: Text, text: Text, after: Text ::
      && capture == before + text + after && CutsBetweenPoints(before, text, after)
      && (after != [] ==> text != []) && p == Genuine(before, text, after)
  }

  /** Each page was asked for at the offset the one before it gave, up to one that gives none. */
  predicate Followed(pages: seq<CapturedPage>) {
    && pages != []
    && (forall i | 0 <= i < |pages| - 1 :: pages[i].nextOffset == Some(pages[i + 1].offset))
    && pages[|pages| - 1].nextOffset == None
  }

  function AssembledText(pages: seq<CapturedPage>): Text
    decreases |pages|
  {
    if pages == [] then [] else pages[0].text + AssembledText(pages[1..])
  }

  /** Two cuts between code points after equally many code points are the same cut. */
  lemma PointsDetermineTheCut(a: Text, b: Text, c: Text, d: Text)
    requires a + b == c + d && !JoinsPair(a, b) && !JoinsPair(c, d) && Points(a) == Points(c)
    ensures a == c && b == d
  {
    if |a| < |c| {
      LongerMeansMorePoints(a, b, c, d);
    } else if |c| < |a| {
      LongerMeansMorePoints(c, d, a, b);
    } else {
      assert (a + b)[..|a|] == a && (c + d)[..|a|] == c;
      assert (a + b)[|a|..] == b && (c + d)[|a|..] == d;
    }
  }

  lemma LongerMeansMorePoints(a: Text, b: Text, c: Text, d: Text)
    requires a + b == c + d && !JoinsPair(a, b) && |a| < |c|
    ensures Points(a) < Points(c)
  {
    var middle := c[|a|..];
    assert a == (a + b)[..|a|] == (c + d)[..|a|] == c[..|a|];
    assert c == a + middle;
    assert middle[0] == (c + d)[|a|] == (a + b)[|a|] == b[0];
    PointsOfConcat(a, middle);
  }

  /**
    Genuine pages of a capture, followed from the cut after `before`, concatenate to the rest of it, and
    there are at most as many as it has code points, or one when nothing is left.
   */
  lemma {:induction false} CapturedPagesConcatenate(pages: seq<CapturedPage>, before: Text, rest: Text)
    requires !JoinsPair(before, rest) && Followed(pages) && pages[0].offset == Points(before)
    requires forall p | p in pages :: PageOf(before + rest, p)
    ensures AssembledText(pages) == rest
    ensures |pages| <= if rest == [] then 1 else Points(rest)
    decreases |pages|
  {
    hide Points, JoinsPair, PageOf;
    assert pages[0] in pages;
    var after := FirstPage(pages[0], before, rest);
    if |pages| > 1 {
      FollowedTail(pages);
      CapturedPagesConcatenate(pages[1..], before + pages[0].text, after);
    } else {
      assert AssembledText(pages[1..]) == [];
    }
  }

  lemma FollowedTail(pages: seq<CapturedPage>)
    requires Followed(pages) && |pages| > 1
    ensures Followed(pages[1..]) && pages[0].nextOffset == Some(pages[1].offset)
  {
    assert forall i | 0 <= i < |pages| - 1 :: pages[1..][i] == pages[i + 1];
  }

  /** The page at a cut takes its text off the rest, and says whether and where the capture goes on. */
  lemma FirstPage(p: CapturedPage, before: Text, rest: Text) returns (after: Text)
    requires !JoinsPair(before, rest) && PageOf(before + rest, p) && p.offset == Points(before)
    ensures rest == p.text + after && before + rest == (before + p.text) + after
    ensures !JoinsPair(before + p.text, after)
    ensures p.nextOffset.None? ==> after == [] && (rest == [] || Points(rest) >= 1)
    ensures p.nextOffset.Some? ==>
      after != [] && p.nextOffset.value == Points(before + p.text) && Points(rest) >= 1 + Points(after) >= 2
  {
    var start: Text, text: Text, end: Text :|
      && before + rest == start + text + end && CutsBetweenPoints(start, text, end)
      && (end != [] ==> text != []) && p == Genuine(start, text, end);
    StartsHere(before, rest, start, text, end);
    after := end;
    PointsOfConcat(before, text);
    if after != [] {
      PointsOfConcat(text, after);
    }
    assert before + (text + after) == (before + text) + after;
  }

  /** A page at the offset of a cut starts at that cut. */
  lemma StartsHere(before: Text, rest: Text, start: Text, text: Text, after: Text)
    requires before + rest == start + text + after && CutsBetweenPoints(start, text, after)
    requires !JoinsPair(before, rest) && Points(before) == Points(start)
    ensures start == before && text + after == rest
    ensures !JoinsPair(before, text) && !JoinsPair(before + text, after) && (text != [] ==> !JoinsPair(text, after))
  {
    hide Points;
    assert start + text + after == start + (text + after);
    if text == [] {
      assert start + text == start && text + after == after;
    }
    PointsDetermineTheCut(before, rest, start, text + after);
  }

  /**
    A last page that leaves out the rest of the capture is noticed exactly when it is also the first page:
    at any later offset the check compares no total.
   */
  lemma LostEndGoesUnnoticedExactlyAfterTheFirstPage(before: Text, text: Text, lost: Text)
    requires CutsBetweenPoints(before, text, lost) && lost != []
    ensures FitsCapture(Genuine(before, text, lost).(nextOffset := None)) <==> before != []
  {
    BytesAddUp(before, text, lost);
  }

  /** Accepted answers of one capture, each to a request for the offset the one before it gave. */
  predicate FollowsCapture(pages: seq<CapturedPage>, originalBytes: nat, at: nat)
    decreases |pages|
  {
    pages == []
    || (&& pages[0].offset == at && pages[0].originalBytes == originalBytes && FitsCapture(pages[0])
        && (|pages| > 1 ==>
              pages[0].nextOffset.Some? && FollowsCapture(pages[1..], originalBytes, pages[0].nextOffset.value)))
  }

  function PointsBefore(pages: seq<CapturedPage>, n: nat): nat
    requires n <= |pages|
  {
    if n == 0 then 0 else PointsBefore(pages, n - 1) + Points(pages[n - 1].text)
  }

  lemma {:induction false} PointsBeforeShift(pages: seq<CapturedPage>, n: nat)
    requires 0 < n <= |pages|
    ensures PointsBefore(pages, n) == Points(pages[0].text) + PointsBefore(pages[1..], n - 1)
  {
    if n > 1 {
      PointsBeforeShift(pages, n - 1);
    }
  }

  /** The page starts after the code points of those before it, and neither it nor its offset goes too far. */
  predicate Placed(pages: seq<CapturedPage>, i: nat, originalBytes: nat, at: nat)
    requires i < |pages|
  {
    var p := pages[i];
    && p.offset == at + PointsBefore(pages, i)
    && p.offset + ByteLength(p.text) <= originalBytes
    && (p.nextOffset.Some? ==>
          p.offset < p.nextOffset.value < originalBytes && p.nextOffset.value == at + PointsBefore(pages, i + 1))
  }

  lemma PlacedLater(pages: seq<CapturedPage>, i: nat, originalBytes: nat, at: nat, next: nat)
    requires i + 1 < |pages| && next == at + Points(pages[0].text)
    requires Placed(pages[1..], i, originalBytes, next)
    ensures Placed(pages, i + 1, originalBytes, at)
  {
    PointsBeforeShift(pages, i + 1);
    PointsBeforeShift(pages, i + 2);
  }

  /**
    Whatever accepted pages hold: each starts after the code points of those before it, none reaches beyond the
    stated size, a single page that starts and ends a capture has all its bytes, and they run out.
   */
  lemma {:induction false} CapturedPagesRunOut(pages: seq<CapturedPage>, originalBytes: nat, at: nat)
    requires FollowsCapture(pages, originalBytes, at) && at <= originalBytes
    ensures forall i | 0 <= i < |pages| :: Placed(pages, i, originalBytes, at)
    ensures |pages| <= if at < originalBytes then originalBytes - at else 1
    ensures |pages| == 1 && at == 0 && pages[0].nextOffset.None? ==> ByteLength(pages[0].text) == originalBytes
    decreases |pages|
  {
    hide ByteLength, Points;
    if |pages| > 0 {
      assert PointsBefore(pages, 1) == PointsBefore(pages, 0) + Points(pages[0].text);
      assert Placed(pages, 0, originalBytes, at);
    }
    if |pages| > 1 {
      var next, rest := pages[0].nextOffset.value, pages[1..];
      CapturedPagesRunOut(rest, originalBytes, next);
      hide Placed;
      forall i | 1 <= i < |pages|
        ensures Placed(pages, i, originalBytes, at)
      {
        PlacedLater(pages, i - 1, originalBytes, at, next);
      }
    }
  }

  /** How many of the first n units complete a surrogate pair. */
  function SecondHalves(t: Text, n: nat): nat
    requires n <= |t|
  {
    if n == 0 then 0
    else SecondHalves(t, n - 1) + if n > 1 && High(t[n - 2]) && Low(t[n - 1]) then 1 else 0
  }

  /** Every unit is a code point of its own, unless it completes a surrogate pair. */
  lemma {:induction false} PointsAreUnitsLessSecondHalves(t: Text, n: nat)
    requires n <= |t|
    ensures Points(t[..n]) + SecondHalves(t, n) == n
  {
    if n == 1 {
      assert t[..1][1..] == [];
      assert Points(t[..1]) == 1 + Points([]);
    } else if n > 1 {
      PointsAreUnitsLessSecondHalves(t, n - 1);
      var before, last := t[..n - 1], t[n - 1..n];
      assert before + last == t[..n] && last[1..] == [];
      assert Points(last) == 1 + Points([]);
      if JoinsPair(before, last) {
        var start, high, pair := t[..n - 2], t[n - 2..n - 1], t[n - 2..n];
        assert start + high == before && start + pair == t[..n] && high[1..] == [] && pair[2..] == [];
        assert Points(high) == 1 + Points([]) && Points(pair) == 1 + Points([]);
        PointsOfConcat(start, high);
        PointsOfConcat(start, pair);
      } else {
        PointsOfConcat(before, last);
      }
    }
  }
}
