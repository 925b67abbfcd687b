/** The reading plan built without the model: the books in order, `k`
    chapters a day within each book, for at most thirty days. A day is a
    `Span` of one book's chapters; the plan renders each span as
    `"<book> <first>"` or `"<book> <first>-<last>"`. The book table is a
    parameter `books`; the route passes `BOOKS`. */
module FallbackPlan {
  import opened Common
  import Text
  import opened Chapters
  import opened RouteCommon

  const MaxDays: int := 30
  const Motivation: string := "Keep up the great work!"

  function Min(a: int, b: int): int
  {
    if a <= b then a else b
  }

  /** A non-empty table whose every book has a chapter, as `BOOKS` is. */
  predicate ValidTable(books: seq<Book>)
  {
    |books| > 0 && forall i :: 0 <= i < |books| ==> books[i].chapters >= 1
  }

  lemma BooksTableValid()
    ensures ValidTable(BOOKS)
  {
    BooksNonEmpty();
  }

  /** Chapters `first` to `last` of the book at index `book` of the table. */
  datatype Span = Span(book: nat, first: int, last: int)

  /** The days that read book `b`, of `n` chapters, from chapter `ch` on,
      `k` chapters at a time, the last day taking what is left. */
  function BookSpans(b: nat, n: int, ch: int, k: int): (s: seq<Span>)
    requires k >= 1
    ensures forall i :: 0 <= i < |s| ==> s[i].book == b
    decreases n - ch + 1
  {
    if ch > n then []
    else [Span(b, ch, Min(ch + k - 1, n))] + BookSpans(b, n, ch + k, k)
  }

  /** The days that read every book from index `b` on. */
  function CoverFrom(books: seq<Book>, b: nat, k: int): (s: seq<Span>)
    requires b <= |books| && k >= 1
    ensures forall i :: 0 <= i < |s| ==> b <= s[i].book < |books|
    decreases |books| - b
  {
    if b == |books| then [] else BookSpans(b, books[b].chapters, 1, k) + CoverFrom(books, b + 1, k)
  }

  /** For `k <= 0` the chapter counter never passes the end of the first
      book, so only the thirty-day cut stops the loops: day `i + 1` starts at
      chapter `1 + i * k`. */
  function DegenerateSpans(books: seq<Book>, n: nat, k: int): (s: seq<Span>)
    requires |books| > 0
    ensures |s| == n
  {
    seq(n, i => Span(0, 1 + i * k, Min(1 + i * k + k - 1, books[0].chapters)))
  }

  /** The days of the plan, before rendering. */
  function FallbackSpans(books: seq<Book>, k: int): (s: seq<Span>)
    requires ValidTable(books)
    ensures |s| <= MaxDays
    ensures forall i :: 0 <= i < |s| ==> s[i].book < |books|
  {
    if k >= 1 then
      var cover := CoverFrom(books, 0, k);
      cover[..Min(MaxDays, |cover|)]
    else
      DegenerateSpans(books, MaxDays, k)
  }

  /** `"<first>"` for a one-chapter day, else `"<first>-<last>"`. */
  function RangeText(s: Span): string
  {
    if s.first == s.last then Text.IntToString(s.first)
    else Text.IntToString(s.first) + "-" + Text.IntToString(s.last)
  }

  /** Day `i + 1` of the plan, reading `s`. */
  function Reading(books: seq<Book>, i: nat, s: Span): (d: DailyReading)
    requires s.book < |books|
    ensures d.day == i + 1 && |d.chapters| == 1 && d.motivation == Motivation
  {
    DailyReading(i + 1, [books[s.book].name + " " + RangeText(s)], Motivation)
  }

  predicate InBooks(books: seq<Book>, spans: seq<Span>)
  {
    forall i :: 0 <= i < |spans| ==> spans[i].book < |books|
  }

  /** The rendered days, numbered from one. */
  function Readings(books: seq<Book>, spans: seq<Span>): (r: seq<DailyReading>)
    requires InBooks(books, spans)
    ensures |r| == |spans|
  {
    seq(|spans|, i requires 0 <= i < |spans| => Reading(books, i, spans[i]))
  }

  /** Day `i + 1` of the rendering reads the `i`-th span. */
  lemma ReadingAt(books: seq<Book>, spans: seq<Span>, i: int)
    requires InBooks(books, spans) && 0 <= i < |spans|
    ensures Readings(books, spans)[i] == Reading(books, i, spans[i])
    ensures Readings(books, spans)[i].day == i + 1
  {
  }

  /** The plan the route falls back to (the reference for the loop below). */
  function FallbackReadings(books: seq<Book>, k: int): (r: seq<DailyReading>)
    requires ValidTable(books)
    ensures |r| <= MaxDays
  {
    Readings(books, FallbackSpans(books, k))
  }

  lemma ReadingsAppend(books: seq<Book>, spans: seq<Span>, s: Span)
    requires InBooks(books, spans) && s.book < |books|
    ensures InBooks(books, spans + [s])
    ensures Readings(books, spans + [s]) == Readings(books, spans) + [Reading(books, |spans|, s)]
  {
    var (a, b) := (Readings(books, spans + [s]), Readings(books, spans) + [Reading(books, |spans|, s)]);
    assert |a| == |b|;
    forall i | 0 <= i < |a|
      ensures a[i] == b[i]
    {
      ReadingAt(books, spans + [s], i);
      if i < |spans| {
        assert (spans + [s])[i] == spans[i];
        ReadingAt(books, spans, i);
      }
    }
  }

  /** Thirty days planned are the reference's thirty days. */
  lemma Finished(books: seq<Book>, k: int, spans: seq<Span>, rest: seq<Span>)
    requires ValidTable(books) && |spans| == MaxDays
    requires k >= 1 ==> spans + rest == CoverFrom(books, 0, k)
    requires k <= 0 ==> spans == DegenerateSpans(books, MaxDays, k)
    ensures spans == FallbackSpans(books, k)
  {
    if k >= 1 {
      CoverPrefix(books, k, spans, rest);
    }
  }

  /** The days planned when the loops stop are the reference's: thirty days
      of the cover, or all of it. */
  lemma CoverPrefix(books: seq<Book>, k: int, spans: seq<Span>, rest: seq<Span>)
    requires ValidTable(books) && k >= 1
    requires spans + rest == CoverFrom(books, 0, k) && |spans| <= MaxDays
    requires |spans| < MaxDays ==> rest == []
    ensures spans == FallbackSpans(books, k)
  {
    var cover := CoverFrom(books, 0, k);
    if |spans| == MaxDays {
      assert cover[..MaxDays] == spans;
    } else {
      assert spans + [] == spans;
    }
  }

  /** One more day of the non-positive case. */
  lemma DegenerateAppend(books: seq<Book>, n: nat, k: int)
    requires |books| > 0
    ensures DegenerateSpans(books, n + 1, k)
            == DegenerateSpans(books, n, k) + [Span(0, 1 + n * k, Min(1 + n * k + k - 1, books[0].chapters))]
    ensures 1 + (n + 1) * k == 1 + n * k + k
  {
  }

  /** The day starting at chapter `ch` is the first of the days left. */
  lemma DayStep(b: nat, n: int, ch: int, k: int, after: seq<Span>)
    requires k >= 1 && ch <= n
    ensures BookSpans(b, n, ch, k) + after == [Span(b, ch, Min(ch + k - 1, n))] + (BookSpans(b, n, ch + k, k) + after)
  {
  }

  /** Moving the first day left from `rest` to the end of `spans`. */
  lemma Advance(spans: seq<Span>, rest: seq<Span>, x: Span, tail: seq<Span>)
    requires rest == [x] + tail
    ensures rest[1..] == tail && (spans + [x]) + tail == spans + rest
  {
  }

  /** `plan` renders `spans`, and `day` is the next day's number. */
  predicate Drafted(books: seq<Book>, day: int, plan: seq<DailyReading>, spans: seq<Span>)
  {
    day == |spans| + 1 && InBooks(books, spans) && plan == Readings(books, spans)
  }

  /** One day of the inner loop: chapters `ch` to `ch + k - 1` of book `bi`,
      cut at the end of the book. */
  method AddDay(books: seq<Book>, bi: nat, ch: int, k: int, plan: seq<DailyReading>, day: int,
                ghost spans: seq<Span>)
    returns (plan': seq<DailyReading>, ghost s: Span)
    requires ValidTable(books) && bi < |books|
    requires Drafted(books, day, plan, spans)
    ensures s == Span(bi, ch, Min(ch + k - 1, books[bi].chapters))
    ensures Drafted(books, day + 1, plan', spans + [s])
  {
    var book := books[bi];
    var endCh := Min(ch + k - 1, book.chapters);
    var chapterRange := RangeText(Span(bi, ch, endCh));
    s := Span(bi, ch, endCh);
    ReadingsAppend(books, spans, s);
    plan' := plan + [DailyReading(day, [book.name + " " + chapterRange], Motivation)];
  }

  /** The days planned before book `bi`: with `k >= 1` they and the cover of
      the books from `bi` on make up the whole cover; otherwise none yet. */
  predicate Started(books: seq<Book>, k: int, bi: nat, spans: seq<Span>)
    requires bi <= |books|
  {
    if k >= 1 then spans + CoverFrom(books, bi, k) == CoverFrom(books, 0, k)
    else bi == 0 && spans == []
  }

  /** Inside book `bi` at chapter `ch`: with `k >= 1` the days planned and
      the cover from `ch` on make up the whole cover; otherwise the days
      planned are the degenerate ones, all in the first book, and `ch` has
      moved by `k` a day. */
  predicate Within(books: seq<Book>, k: int, bi: nat, ch: int, spans: seq<Span>)
    requires bi < |books|
  {
    if k >= 1 then
      ch >= 1 && spans + (BookSpans(bi, books[bi].chapters, ch, k) + CoverFrom(books, bi + 1, k)) == CoverFrom(books, 0, k)
    else
      bi == 0 && ch <= 1 && ch == 1 + |spans| * k && spans == DegenerateSpans(books, |spans|, k)
  }

  lemma EnterBook(books: seq<Book>, k: int, bi: nat, spans: seq<Span>)
    requires ValidTable(books) && bi < |books| && Started(books, k, bi, spans)
    ensures Within(books, k, bi, 1, spans)
  {
    if k >= 1 {
      assert CoverFrom(books, bi, k) == BookSpans(bi, books[bi].chapters, 1, k) + CoverFrom(books, bi + 1, k);
    }
  }

  /** One more day keeps the walk inside the book, and the thirtieth day
      completes the reference plan. */
  lemma NextDay(books: seq<Book>, k: int, bi: nat, ch: int, spans: seq<Span>, s: Span)
    requires ValidTable(books) && bi < |books| && ch <= books[bi].chapters
    requires Within(books, k, bi, ch, spans) && |spans| < MaxDays
    requires s == Span(bi, ch, Min(ch + k - 1, books[bi].chapters))
    ensures Within(books, k, bi, ch + k, spans + [s])
    ensures |spans| + 1 == MaxDays ==> spans + [s] == FallbackSpans(books, k)
  {
    if k >= 1 {
      var after := BookSpans(bi, books[bi].chapters, ch + k, k) + CoverFrom(books, bi + 1, k);
      DayStep(bi, books[bi].chapters, ch, k, CoverFrom(books, bi + 1, k));
      Advance(spans, BookSpans(bi, books[bi].chapters, ch, k) + CoverFrom(books, bi + 1, k), s, after);
      if |spans| + 1 == MaxDays {
        Finished(books, k, spans + [s], after);
      }
    } else {
      DegenerateAppend(books, |spans|, k);
      if |spans| + 1 == MaxDays {
        assert spans + [s] == DegenerateSpans(books, MaxDays, k);
      }
    }
  }

  lemma LeaveBook(books: seq<Book>, k: int, bi: nat, ch: int, spans: seq<Span>)
    requires ValidTable(books) && bi < |books| && ch > books[bi].chapters
    requires Within(books, k, bi, ch, spans)
    ensures k >= 1 && Started(books, k, bi + 1, spans)
  {
    assert k >= 1;
    assert BookSpans(bi, books[bi].chapters, ch, k) == [];
    assert [] + CoverFrom(books, bi + 1, k) == CoverFrom(books, bi + 1, k);
  }

  /** The inner loop of the route: book `bi`, `k` chapters a day from its
      first chapter, until the book ends or thirty days are planned. */
  method PlanBook(books: seq<Book>, bi: nat, k: int, plan: seq<DailyReading>, day: int,
                  ghost spans: seq<Span>)
    returns (plan': seq<DailyReading>, day': int, ghost spans': seq<Span>)
    requires ValidTable(books) && bi < |books|
    requires day <= MaxDays && Drafted(books, day, plan, spans)
    requires Started(books, k, bi, spans)
    ensures day' <= MaxDays + 1 && Drafted(books, day', plan', spans')
    ensures day' > MaxDays ==> spans' == FallbackSpans(books, k)
    ensures day' <= MaxDays ==> k >= 1 && Started(books, k, bi + 1, spans')
  {
    plan', day', spans' := plan, day, spans;
    var ch := 1;
    EnterBook(books, k, bi, spans);
    while ch <= books[bi].chapters
      invariant day' <= MaxDays && Drafted(books, day', plan', spans')
      invariant Within(books, k, bi, ch, spans')
      decreases MaxDays - day'
    {
      ghost var s;
      plan', s := AddDay(books, bi, ch, k, plan', day', spans');
      NextDay(books, k, bi, ch, spans', s);
      spans' := spans' + [s];
      day' := day' + 1;
      if day' > MaxDays {
        return;
      }
      ch := ch + k;
    }
    LeaveBook(books, k, bi, ch, spans');
  }



  /** The two nested loops of the route: for each book, every `k`th chapter
      starts a day, and both loops stop once thirty days are planned. */
  method GenerateFallbackPlan(books: seq<Book>, k: int) returns (plan: seq<DailyReading>)
    requires ValidTable(books)
    ensures plan == FallbackReadings(books, k)
  {
    plan := [];
    ghost var spans: seq<Span> := [];
    var currentDay := 1;
    var bi := 0;
    while bi < |books|
      invariant 0 <= bi <= |books|
      invariant currentDay <= MaxDays && Drafted(books, currentDay, plan, spans)
      invariant Started(books, k, bi, spans)
      decreases |books| - bi
    {
      plan, currentDay, spans := PlanBook(books, bi, k, plan, currentDay, spans);
      if currentDay > MaxDays {
        return;
      }
      bi := bi + 1;
    }
    assert bi == |books| > 0 && k >= 1;
    assert CoverFrom(books, |books|, k) == [];
    CoverPrefix(books, k, spans, CoverFrom(books, |books|, k));
  }

  /** A day reads one to `k` chapters of one book, in ascending order, all
      inside the book. */
  predicate ValidSpan(books: seq<Book>, s: Span, k: int)
  {
    s.book < |books| && 1 <= s.first <= s.last <= books[s.book].chapters && s.last - s.first < k
  }

  /** Day `b` picks up where day `a` stopped: the next chapter of the same
      book, or the first chapter of the next book once `a` finished its book. */
  predicate Follows(books: seq<Book>, a: Span, b: Span)
  {
    a.book < |books|
    && ((b.book == a.book && b.first == a.last + 1)
        || (b.book == a.book + 1 && b.first == 1 && a.last == books[a.book].chapters))
  }

  predicate Chained(books: seq<Book>, s: seq<Span>)
  {
    forall i :: 0 <= i < |s| - 1 ==> Follows(books, s[i], s[i + 1])
  }

  /** Joining two chains end to start gives a chain. */
  lemma ChainedAppend(books: seq<Book>, a: seq<Span>, b: seq<Span>)
    requires Chained(books, a) && Chained(books, b)
    requires |a| > 0 && |b| > 0 ==> Follows(books, a[|a| - 1], b[0])
    ensures Chained(books, a + b)
  {
    var c := a + b;
    forall i | 0 <= i < |c| - 1
      ensures Follows(books, c[i], c[i + 1])
    {
      if i + 1 < |a| {
        assert c[i] == a[i] && c[i + 1] == a[i + 1];
      } else if i + 1 == |a| {
        assert c[i] == a[|a| - 1] && c[i + 1] == b[0];
      } else {
        assert c[i] == b[i - |a|] && c[i + 1] == b[i - |a| + 1];
      }
    }
  }

  /** One book's days are valid and chained, start at `ch` and end at the
      book's last chapter. */
  lemma {:induction false} BookSpansChained(books: seq<Book>, b: nat, ch: int, k: int)
    requires b < |books| && k >= 1 && ch >= 1
    ensures var s := BookSpans(b, books[b].chapters, ch, k);
            && (forall i :: 0 <= i < |s| ==> ValidSpan(books, s[i], k))
            && Chained(books, s)
            && (|s| > 0 <==> ch <= books[b].chapters)
            && (|s| > 0 ==> s[0].first == ch && s[|s| - 1].last == books[b].chapters)
    decreases books[b].chapters - ch + 1
  {
    var n := books[b].chapters;
    if ch <= n {
      var head := Span(b, ch, Min(ch + k - 1, n));
      var rest := BookSpans(b, n, ch + k, k);
      BookSpansChained(books, b, ch + k, k);
      assert BookSpans(b, n, ch, k) == [head] + rest;
      ChainedAppend(books, [head], rest);
      if |rest| == 0 {
        assert head.last == n;
      }
    }
  }

  /** The days for the books from index `b` on are valid and chained, start
      at the first chapter of book `b` and end at the last chapter of the
      last book. */
  lemma {:induction false} CoverChained(books: seq<Book>, b: nat, k: int)
    requires ValidTable(books) && b <= |books| && k >= 1
    ensures var s := CoverFrom(books, b, k);
            && (forall i :: 0 <= i < |s| ==> ValidSpan(books, s[i], k))
            && Chained(books, s)
            && (|s| > 0 <==> b < |books|)
            && (|s| > 0 ==> s[0].book == b && s[0].first == 1)
            && (|s| > 0 ==> s[|s| - 1].book == |books| - 1 && s[|s| - 1].last == books[|books| - 1].chapters)
    decreases |books| - b
  {
    if b < |books| {
      var head := BookSpans(b, books[b].chapters, 1, k);
      var rest := CoverFrom(books, b + 1, k);
      BookSpansChained(books, b, 1, k);
      CoverChained(books, b + 1, k);
      ChainedAppend(books, head, rest);
      var s := head + rest;
      assert s == CoverFrom(books, b, k);
      forall i | 0 <= i < |s|
        ensures ValidSpan(books, s[i], k)
      {
        if i < |head| {
          assert s[i] == head[i];
        } else {
          assert s[i] == rest[i - |head|];
        }
      }
      assert s[0] == head[0];
      if |rest| > 0 {
        assert s[|s| - 1] == rest[|rest| - 1];
      } else {
        assert s[|s| - 1] == head[|head| - 1];
      }
    }
  }

  /** For a positive daily amount the plan reads the books in order from the
      first chapter of the first book, never skipping or repeating a chapter,
      never spanning two books and never more than `k` chapters a day; when
      the whole table fits in thirty days it ends with the last chapter of
      the last book. */
  lemma FallbackReadsInOrder(books: seq<Book>, k: int)
    requires ValidTable(books) && k >= 1
    ensures var s := FallbackSpans(books, k);
            && (forall i :: 0 <= i < |s| ==> ValidSpan(books, s[i], k))
            && Chained(books, s)
            && |s| > 0 && s[0].book == 0 && s[0].first == 1
            && (|CoverFrom(books, 0, k)| <= MaxDays ==>
                  s[|s| - 1].book == |books| - 1 && s[|s| - 1].last == books[|books| - 1].chapters)
  {
    CoverChained(books, 0, k);
    var cover := CoverFrom(books, 0, k);
    var n := Min(MaxDays, |cover|);
    var s := FallbackSpans(books, k);
    assert s == cover[..n];
    ChainedPrefix(books, cover, n);
    forall i | 0 <= i < |s|
      ensures ValidSpan(books, s[i], k)
    {
      assert s[i] == cover[i];
    }
    if |cover| <= MaxDays {
      assert s == cover;
    }
  }

  lemma ChainedPrefix(books: seq<Book>, s: seq<Span>, n: nat)
    requires Chained(books, s) && n <= |s|
    ensures Chained(books, s[..n])
  {
    forall i | 0 <= i < n - 1
      ensures Follows(books, s[..n][i], s[..n][i + 1])
    {
      assert s[..n][i] == s[i] && s[..n][i + 1] == s[i + 1];
    }
  }

  /** A book read from chapter `ch`, `k` chapters a day, takes
      `ceil(m / k)` days for the `m` chapters left: the `d` days satisfy
      `(d - 1) * k < m <= d * k`. */
  lemma {:induction false} BookSpansCount(b: nat, n: int, ch: int, k: int)
    requires k >= 1
    ensures var d, m := |BookSpans(b, n, ch, k)|, n - ch + 1;
            (m > 0 ==> (d - 1) * k < m <= d * k) && (m <= 0 ==> d == 0)
    decreases n - ch + 1
  {
    if ch <= n {
      BookSpansCount(b, n, ch + k, k);
      var d' := |BookSpans(b, n, ch + k, k)|;
      assert |BookSpans(b, n, ch, k)| == d' + 1;
      assert (d' + 1) * k == d' * k + k;
    }
  }

  /** For a non-positive daily amount the plan has thirty days, all in the
      first book, each running backwards from `1 + i * k` to `(i + 1) * k`. */
  lemma DegeneratePlan(books: seq<Book>, k: int)
    requires ValidTable(books) && k <= 0
    ensures var s := FallbackSpans(books, k);
            && |s| == MaxDays
            && forall i :: 0 <= i < |s| ==> s[i] == Span(0, 1 + i * k, (i + 1) * k)
  {
    var s := FallbackSpans(books, k);
    forall i | 0 <= i < |s|
      ensures s[i] == Span(0, 1 + i * k, (i + 1) * k)
    {
      assert i * k <= 0;
      assert 1 + i * k + k - 1 == (i + 1) * k;
    }
  }

  /** Reading `k` chapters a day, the days of the books from index `b` on
      hold at least all their chapters. */
  lemma {:induction false} CoverHoldsAllChapters(books: seq<Book>, b: nat, k: int)
    requires b <= |books| && k >= 1
    ensures |CoverFrom(books, b, k)| * k >= SumChapters(books[b..])
    decreases |books| - b
  {
    if b < |books| {
      var n := books[b].chapters;
      var d := |BookSpans(b, n, 1, k)|;
      var e := |CoverFrom(books, b + 1, k)|;
      BookSpansCount(b, n, 1, k);
      assert d * k >= n;
      CoverHoldsAllChapters(books, b + 1, k);
      assert books[b..][1..] == books[b + 1..];
      assert SumChapters(books[b..]) == n + SumChapters(books[b + 1..]);
      assert |CoverFrom(books, b, k)| == d + e;
      Distribute(d, e, k);
    }
  }

  lemma Distribute(d: int, e: int, k: int)
    ensures (d + e) * k == d * k + e * k
  {
  }
}
