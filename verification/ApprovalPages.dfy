/**
  Approval listings: the decimal cursor a client sends back, and the check of each page it receives. The
  fields of an approval other than its sequence are not part of this model.
 */
module ApprovalPages {
  import opened Basics
  import opened Results

  const MAX_PAGE_ITEMS: nat := 64

  // ---------------------------------------------------------------- decimal text

  predicate Digit(c: char) {
    '0' <= c <= '9'
  }

  function DigitOf(n: nat): (c: char)
    requires n < 10
    ensures Digit(c) && c as int - '0' as int == n
  {
    ('0' as int + n) as char
  }

  function Print(n: nat): (s: string)
    ensures s != [] && forall i | 0 <= i < |s| :: Digit(s[i])
  {
    if n < 10 then [DigitOf(n)] else Print(n / 10) + [DigitOf(n % 10)]
  }

  /** The value of the first n digits. */
  function Parse(s: string, n: nat): nat
    requires n <= |s| && forall i | 0 <= i < |s| :: Digit(s[i])
  {
    if n == 0 then 0 else Parse(s, n - 1) * 10 + (s[n - 1] as int - '0' as int)
  }

  /** The pattern `[1-9][0-9]*` over the whole text. */
  predicate Numeral(s: string) {
    s != [] && s[0] != '0' && forall i | 0 <= i < |s| :: Digit(s[i])
  }

  /** A cursor is absent or a positive safe integer in decimal; a larger numeral rounds to no safe integer. */
  predicate AcceptsCursor(value: Option<string>) {
    value.None? || (Numeral(value.value) && Parse(value.value, |value.value|) <= MAX_SAFE_INTEGER)
  }

  lemma {:induction false} ParsePrefix(s: string, t: string, n: nat)
    requires n <= |s| && n <= |t| && s[..n] == t[..n]
    requires forall i | 0 <= i < |s| :: Digit(s[i])
    requires forall i | 0 <= i < |t| :: Digit(t[i])
    ensures Parse(s, n) == Parse(t, n)
  {
    if n > 0 {
      assert s[..n - 1] == s[..n][..n - 1] == t[..n][..n - 1] == t[..n - 1];
      assert s[n - 1] == s[..n][n - 1] == t[..n][n - 1] == t[n - 1];
      ParsePrefix(s, t, n - 1);
    }
  }

  lemma {:induction false} ParseUndoesPrint(n: nat)
    ensures Parse(Print(n), |Print(n)|) == n
    ensures n > 0 ==> Numeral(Print(n))
  {
    var s := Print(n);
    if n >= 10 {
      var head := Print(n / 10);
      ParseUndoesPrint(n / 10);
      assert s[..|head|] == head == head[..|head|];
      ParsePrefix(s, head, |head|);
      assert s[0] == head[0];
    } else {
      assert Parse(s, 1) == Parse(s, 0) * 10 + n;
    }
  }

  lemma {:induction false} PrintUndoesParse(s: string, n: nat)
    requires Numeral(s) && 0 < n <= |s|
    ensures Parse(s, n) > 0 && Print(Parse(s, n)) == s[..n]
  {
    var d := s[n - 1] as int - '0' as int;
    if n == 1 {
      assert Parse(s, 1) == Parse(s, 0) * 10 + d;
      assert s[..1] == [s[0]];
    } else {
      PrintUndoesParse(s, n - 1);
      var head := Parse(s, n - 1);
      assert (head * 10 + d) / 10 == head && (head * 10 + d) % 10 == d;
      assert s[..n] == s[..n - 1] + [s[n - 1]];
    }
  }

  /** The accepted cursors are exactly the printed positive safe integers, one text for each. */
  lemma CursorsAreExactlyThePrintedIntegers(s: string)
    ensures AcceptsCursor(Some(s)) <==> exists n: nat :: 1 <= n <= MAX_SAFE_INTEGER && s == Print(n)
  {
    if AcceptsCursor(Some(s)) {
      PrintUndoesParse(s, |s|);
      assert s[..|s|] == s;
      var n := Parse(s, |s|);
      assert 1 <= n <= MAX_SAFE_INTEGER && s == Print(n);
    }
    if n: nat :| 1 <= n <= MAX_SAFE_INTEGER && s == Print(n) {
      ParseUndoesPrint(n);
    }
  }

  // ---------------------------------------------------------------- one page

  /** A page whose items are decoded: their sequences are positive safe integers. */
  datatype Page = Page(sequences: seq<nat>, after: Option<string>, nextCursor: Option<string>, hasMore: bool)

  predicate Decoded(p: Page) {
    forall i | 0 <= i < |p.sequences| :: 1 <= p.sequences[i] <= MAX_SAFE_INTEGER
  }

  function From(after: Option<string>): nat
    requires AcceptsCursor(after)
  {
    if after.None? then 0 else Parse(after.value, |after.value|)
  }

  /** Strictly increasing, and above the floor. */
  predicate Rising(floor: nat, s: seq<nat>) {
    && (forall i | 0 <= i < |s| :: floor < s[i])
    && (forall i, j | 0 <= i < j < |s| :: s[i] < s[j])
  }

  function Last(floor: nat, s: seq<nat>): nat {
    if s == [] then floor else s[|s| - 1]
  }

  /** The cursor that continues after a page. */
  function Onward(after: Option<string>, s: seq<nat>): Option<string> {
    if s == [] then after else Some(Print(s[|s| - 1]))
  }

  predicate Accepted(p: Page, after: Option<string>)
    requires AcceptsCursor(after)
  {
    && |p.sequences| <= MAX_PAGE_ITEMS
    && p.after == after
    && Rising(From(after), p.sequences)
    && p.nextCursor == Onward(after, p.sequences)
    && (p.hasMore ==> |p.sequences| == MAX_PAGE_ITEMS)
  }

  lemma OnwardContinues(after: Option<string>, s: seq<nat>)
    requires AcceptsCursor(after)
    requires forall i | 0 <= i < |s| :: 1 <= s[i] <= MAX_SAFE_INTEGER
    ensures AcceptsCursor(Onward(after, s)) && From(Onward(after, s)) == Last(From(after), s)
  {
    if s != [] {
      ParseUndoesPrint(s[|s| - 1]);
    }
  }

  /** The reader's loop over the items, with its checks before and after. */
  method ReadPage(p: Page, after: Option<string>) returns (ok: bool)
    requires AcceptsCursor(after) && Decoded(p)
    ensures ok <==> Accepted(p, after)
  {
    if |p.sequences| > MAX_PAGE_ITEMS || p.after != after {
      return false;
    }
    var previous := From(after);
    var i := 0;
    while i < |p.sequences|
      invariant 0 <= i <= |p.sequences|
      invariant previous == Last(From(after), p.sequences[..i])
      invariant Rising(From(after), p.sequences[..i])
    {
      var sequence := p.sequences[i];
      if sequence <= previous {
        assert i > 0 ==> previous == p.sequences[i - 1];
        return false;
      }
      ExtendRising(From(after), p.sequences, i);
      previous := sequence;
      i := i + 1;
    }
    assert p.sequences[..i] == p.sequences;
    OnwardContinues(after, p.sequences);
    if !AcceptsCursor(p.nextCursor) {
      return false;
    }
    var expected := if p.sequences != [] then Some(Print(previous)) else after;
    return p.nextCursor == expected && (!p.hasMore || |p.sequences| == MAX_PAGE_ITEMS);
  }

  lemma ExtendRising(floor: nat, s: seq<nat>, n: nat)
    requires n < |s| && Rising(floor, s[..n]) && Last(floor, s[..n]) < s[n]
    ensures Rising(floor, s[..n + 1])
  {
    var longer, shorter := s[..n + 1], s[..n];
    assert forall i | 0 <= i < n :: longer[i] == shorter[i];
    assert forall i | 0 <= i < n :: shorter[i] <= Last(floor, shorter);
  }

  // ---------------------------------------------------------------- following the cursors

  /** Each page was asked for with the cursor the one before it gave. */
  predicate Chain(pages: seq<Page>, after: Option<string>)
    requires AcceptsCursor(after)
    decreases |pages|
  {
    pages == []
    || (Decoded(pages[0]) && Accepted(pages[0], after) && AcceptsCursor(pages[0].nextCursor)
        && Chain(pages[1..], pages[0].nextCursor))
  }

  function Listed(pages: seq<Page>): seq<nat>
    decreases |pages|
  {
    if pages == [] then [] else pages[0].sequences + Listed(pages[1..])
  }

  lemma RisingAppends(floor: nat, a: seq<nat>, b: seq<nat>)
    requires Rising(floor, a) && Rising(Last(floor, a), b)
    ensures Rising(floor, a + b) && Last(floor, a + b) == Last(Last(floor, a), b)
  {
    assert forall i | 0 <= i < |a| :: a[i] <= Last(floor, a);
    assert floor <= Last(floor, a);
    forall i, j | 0 <= i < j < |a + b| ensures (a + b)[i] < (a + b)[j] {
      if j >= |a| && i < |a| {
        assert a[i] <= Last(floor, a) < b[j - |a|];
      }
    }
  }

  /** Over any number of pages the listed sequences rise strictly: nothing is repeated or out of order. */
  lemma {:induction false} PagesRise(pages: seq<Page>, after: Option<string>)
    requires AcceptsCursor(after) && Chain(pages, after)
    ensures Rising(From(after), Listed(pages))
    decreases |pages|
  {
    if pages != [] {
      OnwardContinues(after, pages[0].sequences);
      PagesRise(pages[1..], pages[0].nextCursor);
      RisingAppends(From(after), pages[0].sequences, Listed(pages[1..]));
    }
  }

  /** A page that announces more moves the cursor on, by at least a full page of sequences. */
  lemma MoreMeansProgress(p: Page, after: Option<string>)
    requires AcceptsCursor(after) && Decoded(p) && Accepted(p, after) && p.hasMore
    ensures AcceptsCursor(p.nextCursor) && From(p.nextCursor) >= From(after) + MAX_PAGE_ITEMS
  {
    OnwardContinues(after, p.sequences);
    RisingIsDense(From(after), p.sequences, |p.sequences|);
  }

  lemma {:induction false} RisingIsDense(floor: nat, s: seq<nat>, n: nat)
    requires Rising(floor, s) && 0 < n <= |s|
    ensures s[n - 1] >= floor + n
  {
    if n > 1 {
      RisingIsDense(floor, s, n - 1);
      assert s[n - 2] < s[n - 1];
    }
  }

  /** The page answers the cursor that the one before it gave, and is full if it announces more. */
  predicate Linked(pages: seq<Page>, i: nat, after: Option<string>)
    requires i < |pages|
  {
    && pages[i].after == (if i == 0 then after else pages[i - 1].nextCursor)
    && (if pages[i].hasMore then |pages[i].sequences| == 64 else |pages[i].sequences| <= 64)
  }

  /** Over any number of pages each is linked to the one before it. */
  lemma {:induction false} PagesAreLinked(pages: seq<Page>, after: Option<string>, i: nat)
    requires AcceptsCursor(after) && Chain(pages, after) && i < |pages|
    ensures Linked(pages, i, after)
    decreases |pages|
  {
    hide AcceptsCursor, Rising, Decoded;
    if i > 0 {
      PagesAreLinked(pages[1..], pages[0].nextCursor, i - 1);
    }
  }

  /** The cursor that the last page gives is the last sequence listed so far; there are at most 64 to a page. */
  lemma {:induction false} CursorIsTheLastListed(pages: seq<Page>, after: Option<string>)
    requires AcceptsCursor(after) && Chain(pages, after) && pages != []
    ensures var last := pages[|pages| - 1].nextCursor;
      AcceptsCursor(last) && From(last) == Last(From(after), Listed(pages))
    ensures |Listed(pages)| <= 64 * |pages|
    decreases |pages|
  {
    var first, rest := pages[0], pages[1..];
    OnwardContinues(after, first.sequences);
    hide AcceptsCursor, From, Decoded;
    if rest == [] {
      assert Listed(pages) == first.sequences;
    } else {
      CursorIsTheLastListed(rest, first.nextCursor);
      LastOfConcat(From(after), first.sequences, Listed(rest));
    }
  }

  lemma LastOfConcat(floor: nat, a: seq<nat>, b: seq<nat>)
    ensures Last(floor, a + b) == Last(Last(floor, a), b)
  {
    if b == [] {
      assert a + b == a;
    }
  }

  // ---------------------------------------------------------------- the pages of a store

  /** The first n sequences of a store lie at or below the cursor, the others above it. */
  predicate CutAt(all: seq<nat>, n: nat, after: Option<string>)
    requires AcceptsCursor(after)
  {
    && n <= |all| && Rising(0, all)
    && (forall i | 0 <= i < |all| :: all[i] <= MAX_SAFE_INTEGER)
    && (forall i | 0 <= i < n :: all[i] <= From(after))
    && (forall i | n <= i < |all| :: From(after) < all[i])
  }

  /** The page that a store answers to a cursor: up to 64 sequences above it, and whether there are more. */
  function PageAt(all: seq<nat>, n: nat, after: Option<string>): Page
    requires n <= |all|
  {
    var end := if n + 64 <= |all| then n + 64 else |all|;
    Page(all[n..end], after, Onward(after, all[n..end]), end < |all|)
  }

  lemma GenuinePageIsAccepted(all: seq<nat>, n: nat, after: Option<string>)
    requires AcceptsCursor(after) && CutAt(all, n, after)
    ensures var p := PageAt(all, n, after);
      && Decoded(p) && Accepted(p, after) && AcceptsCursor(p.nextCursor)
      && (p.hasMore ==> CutAt(all, n + 64, p.nextCursor))
  {
    var p := PageAt(all, n, after);
    OnwardContinues(after, p.sequences);
    assert forall i | 0 <= i < |p.sequences| :: p.sequences[i] == all[n + i];
    if p.hasMore {
      assert From(p.nextCursor) == all[n + 63];
    }
  }

  function PagesFrom(all: seq<nat>, n: nat, after: Option<string>): seq<Page>
    requires n <= |all|
    decreases |all| - n
  {
    var p := PageAt(all, n, after);
    [p] + if p.hasMore then PagesFrom(all, n + 64, p.nextCursor) else []
  }

  /** Followed to the end, the pages of a store are all accepted and list everything above the cursor. */
  lemma {:induction false} GenuinePagesListEverything(all: seq<nat>, n: nat, after: Option<string>)
    requires AcceptsCursor(after) && CutAt(all, n, after)
    ensures var pages := PagesFrom(all, n, after);
      Chain(pages, after) && Listed(pages) == all[n..] && !pages[|pages| - 1].hasMore
    decreases |all| - n
  {
    var p, pages := PageAt(all, n, after), PagesFrom(all, n, after);
    GenuinePageIsAccepted(all, n, after);
    hide CutAt, Accepted, Decoded, AcceptsCursor, Onward;
    if p.hasMore {
      var rest := PagesFrom(all, n + 64, p.nextCursor);
      GenuinePagesListEverything(all, n + 64, p.nextCursor);
      assert pages[1..] == rest && pages[0] == p;
      Adjacent(all, n, n + 64);
    } else {
      assert pages == [p] && pages[1..] == [];
    }
  }

  lemma Adjacent(all: seq<nat>, a: nat, b: nat)
    requires a <= b <= |all|
    ensures all[a..b] + all[b..] == all[a..]
  {
  }
}
