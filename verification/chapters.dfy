/** The Book of Mormon's book table and the reading-progress store: for each
    book name, the list of completed chapter numbers, kept ascending and free
    of duplicates by `toggleChapter`. */
module Chapters {
  import opened Common

  datatype Book = Book(name: string, chapters: nat)

  const BOOKS: seq<Book> := [
    Book("1 Nephi", 22),
    Book("2 Nephi", 33),
    Book("Jacob", 7),
    Book("Enos", 1),
    Book("Jarom", 1),
    Book("Omni", 1),
    Book("Words of Mormon", 1),
    Book("Mosiah", 29),
    Book("Alma", 63),
    Book("Helaman", 16),
    Book("3 Nephi", 30),
    Book("4 Nephi", 1),
    Book("Mormon", 9),
    Book("Ether", 15),
    Book("Moroni", 10)
  ]

  function SumChapters(books: seq<Book>): nat
  {
    if |books| == 0 then 0 else books[0].chapters + SumChapters(books[1..])
  }

  /** The sum of the fifteen books' chapter counts. */
  function GetTotalChapters(): (n: nat)
    ensures n == 239
  {
    TotalIs239();
    SumChapters(BOOKS)
  }

  /** Books 13 to 15 hold 34 chapters. */
  lemma TotalFrom12()
    ensures SumChapters(BOOKS[12..]) == 34
  {
    assert |BOOKS[15..]| == 0;
    SumStep(BOOKS, 14);
    SumStep(BOOKS, 13);
    SumStep(BOOKS, 12);
  }

  /** Books 10 to 15 hold 81 chapters. */
  lemma TotalFrom9()
    ensures SumChapters(BOOKS[9..]) == 81
  {
    TotalFrom12();
    SumStep(BOOKS, 11);
    SumStep(BOOKS, 10);
    SumStep(BOOKS, 9);
  }

  /** Books 7 to 15 hold 174 chapters. */
  lemma TotalFrom6()
    ensures SumChapters(BOOKS[6..]) == 174
  {
    TotalFrom9();
    SumStep(BOOKS, 8);
    SumStep(BOOKS, 7);
    SumStep(BOOKS, 6);
  }

  /** Books 4 to 15 hold 177 chapters. */
  lemma TotalFrom3()
    ensures SumChapters(BOOKS[3..]) == 177
  {
    TotalFrom6();
    SumStep(BOOKS, 5);
    SumStep(BOOKS, 4);
    SumStep(BOOKS, 3);
  }

  /** The suffix sums of the table, from the last book back to the first. */
  lemma TotalIs239()
    ensures SumChapters(BOOKS) == 239
  {
    TotalFrom3();
    SumStep(BOOKS, 2);
    SumStep(BOOKS, 1);
    SumStep(BOOKS, 0);
    assert BOOKS[0..] == BOOKS;
  }

  /** Peeling the first book off a suffix of the table. */
  lemma SumStep(books: seq<Book>, i: nat)
    requires i < |books|
    ensures SumChapters(books[i..]) == books[i].chapters + SumChapters(books[i + 1..])
  {
    assert books[i..][1..] == books[i + 1..];
  }

  /** Every book has at least one chapter. */
  lemma BooksNonEmpty()
    ensures |BOOKS| == 15
    ensures forall b :: 0 <= b < |BOOKS| ==> BOOKS[b].chapters >= 1
  {
  }

  /** Completed chapters per book name (a book never touched has no entry). */
  type Completed = map<string, seq<int>>

  predicate Ascending(xs: seq<int>)
  {
    forall i, j :: 0 <= i < j < |xs| ==> xs[i] <= xs[j]
  }

  predicate StrictlyAscending(xs: seq<int>)
  {
    forall i, j :: 0 <= i < j < |xs| ==> xs[i] < xs[j]
  }

  /** The store invariant: every book's list is sorted and duplicate-free. */
  predicate WellFormed(c: Completed)
  {
    forall b :: b in c ==> StrictlyAscending(c[b])
  }

  /** Inserts `x` into an ascending list in order. */
  function Insert(xs: seq<int>, x: int): (r: seq<int>)
    ensures |r| == |xs| + 1
    ensures multiset(r) == multiset(xs) + multiset{x}
    ensures forall y :: y in r <==> y in xs || y == x
    ensures Ascending(xs) ==> Ascending(r)
    ensures StrictlyAscending(xs) && x !in xs ==> StrictlyAscending(r)
  {
    if |xs| == 0 then [x]
    else if x < xs[0] then
      InsertFrontKeepsOrder(xs, x);
      [x] + xs
    else
      var rest := Insert(xs[1..], x);
      assert xs == [xs[0]] + xs[1..];
      ConsKeepsOrder(xs, rest, x);
      [xs[0]] + rest
  }

  lemma InsertFrontKeepsOrder(xs: seq<int>, x: int)
    requires |xs| > 0 && x < xs[0]
    ensures Ascending(xs) ==> Ascending([x] + xs)
    ensures StrictlyAscending(xs) && x !in xs ==> StrictlyAscending([x] + xs)
  {
    if Ascending(xs) {
      assert forall j :: 0 <= j < |xs| ==> xs[0] <= xs[j];
    }
    if StrictlyAscending(xs) {
      assert forall j :: 0 <= j < |xs| ==> xs[0] <= xs[j];
    }
  }

  lemma ConsKeepsOrder(xs: seq<int>, rest: seq<int>, x: int)
    requires |xs| > 0 && xs[0] <= x
    requires forall y :: y in rest <==> y in xs[1..] || y == x
    requires Ascending(xs[1..]) ==> Ascending(rest)
    requires StrictlyAscending(xs[1..]) && x !in xs[1..] ==> StrictlyAscending(rest)
    ensures Ascending(xs) ==> Ascending([xs[0]] + rest)
    ensures StrictlyAscending(xs) && x !in xs ==> StrictlyAscending([xs[0]] + rest)
  {
    if Ascending(xs) {
      assert Ascending(xs[1..]);
      forall j | 0 <= j < |rest| ensures xs[0] <= rest[j] {
        assert rest[j] in rest;
        if rest[j] != x {
          var k :| 0 <= k < |xs[1..]| && xs[1..][k] == rest[j];
          assert xs[k + 1] == rest[j];
        }
      }
    }
    if StrictlyAscending(xs) && x !in xs {
      assert StrictlyAscending(xs[1..]);
      forall j | 0 <= j < |rest| ensures xs[0] < rest[j] {
        assert rest[j] in rest;
        if rest[j] != x {
          var k :| 0 <= k < |xs[1..]| && xs[1..][k] == rest[j];
          assert xs[k + 1] == rest[j];
        }
      }
    }
  }

  /** `xs.sort((a, b) => a - b)`: ascending numeric order. */
  function SortAscending(xs: seq<int>): (r: seq<int>)
    ensures |r| == |xs|
    ensures multiset(r) == multiset(xs)
    ensures Ascending(r)
  {
    if |xs| == 0 then []
    else
      assert xs == xs[..|xs| - 1] + [xs[|xs| - 1]];
      Insert(SortAscending(xs[..|xs| - 1]), xs[|xs| - 1])
  }

  /** `xs.filter((c) => c !== x)`. */
  function RemoveAll(xs: seq<int>, x: int): (r: seq<int>)
    ensures |r| <= |xs|
    ensures forall y :: y in r <==> y in xs && y != x
    ensures x !in xs ==> r == xs
    ensures StrictlyAscending(xs) ==> StrictlyAscending(r)
    ensures StrictlyAscending(xs) && x in xs ==> |r| == |xs| - 1
  {
    if |xs| == 0 then []
    else
      var rest := RemoveAll(xs[1..], x);
      assert xs == [xs[0]] + xs[1..];
      HeadBelowTail(xs);
      if xs[0] == x then
        rest
      else
        ConsStrict(xs[0], rest);
        [xs[0]] + rest
  }

  /** In a strictly ascending list the head is below everything after it. */
  lemma HeadBelowTail(xs: seq<int>)
    requires |xs| > 0
    ensures StrictlyAscending(xs) ==> StrictlyAscending(xs[1..]) && forall y :: y in xs[1..] ==> xs[0] < y
  {
    if StrictlyAscending(xs) {
      forall y | y in xs[1..] ensures xs[0] < y {
        var k :| 0 <= k < |xs[1..]| && xs[1..][k] == y;
        assert xs[k + 1] == y;
      }
    }
  }

  lemma ConsStrict(h: int, t: seq<int>)
    ensures StrictlyAscending(t) && (forall y :: y in t ==> h < y) ==> StrictlyAscending([h] + t)
  {
    if StrictlyAscending(t) && (forall y :: y in t ==> h < y) {
      forall i, j | 0 <= i < j < |[h] + t| ensures ([h] + t)[i] < ([h] + t)[j] {
        if i == 0 {
          assert ([h] + t)[j] == t[j - 1] && t[j - 1] in t;
        }
      }
    }
  }

  /** `completed[book]?.includes(chapter) || false`. */
  predicate IsChapterCompleted(c: Completed, book: string, chapter: int)
  {
    book in c && chapter in c[book]
  }

  /** A chapter of a book never touched is not completed. */
  lemma UntouchedBookNotCompleted(c: Completed, book: string, chapter: int)
    requires book !in c
    ensures !IsChapterCompleted(c, book, chapter)
  {
  }

  /** One book's list after the toggle: the chapter dropped if present, else
      appended and the list sorted. */
  function ToggleList(list: seq<int>, chapter: int): (r: seq<int>)
    ensures chapter in r <==> chapter !in list
    ensures forall ch :: ch != chapter ==> (ch in r <==> ch in list)
    ensures StrictlyAscending(list) ==> StrictlyAscending(r)
  {
    if chapter in list then
      RemoveAll(list, chapter)
    else
      var sorted := SortAscending(list + [chapter]);
      assert forall y :: y in list + [chapter] <==> y in list || y == chapter;
      assert forall y :: y in sorted <==> y in multiset(sorted);
      assert StrictlyAscending(list) ==> sorted == Insert(list, chapter) by {
        if StrictlyAscending(list) {
          SortAppend(list, chapter);
        }
      }
      sorted
  }

  /** The toggle on the loaded record: create an empty list for a new book,
      then toggle the chapter in it. */
  function ToggleIn(c: Completed, book: string, chapter: int): (r: Completed)
    ensures r.Keys == c.Keys + {book}
    ensures IsChapterCompleted(r, book, chapter) == !IsChapterCompleted(c, book, chapter)
    ensures forall b, ch :: (b != book || ch != chapter) ==>
              IsChapterCompleted(r, b, ch) == IsChapterCompleted(c, b, ch)
    ensures forall b :: b in c && b != book ==> r[b] == c[b]
    ensures WellFormed(c) ==> WellFormed(r)
  {
    var list := if book in c then c[book] else [];
    UpdateOneBook(c, book, chapter, ToggleList(list, chapter));
    c[book := ToggleList(list, chapter)]
  }

  lemma UpdateOneBook(c: Completed, book: string, chapter: int, newList: seq<int>)
    requires var list := if book in c then c[book] else [];
             && (chapter in newList <==> chapter !in list)
             && (forall ch :: ch != chapter ==> (ch in newList <==> ch in list))
             && (StrictlyAscending(list) ==> StrictlyAscending(newList))
    ensures var r := c[book := newList];
            && r.Keys == c.Keys + {book}
            && (IsChapterCompleted(r, book, chapter) == !IsChapterCompleted(c, book, chapter))
            && (forall b, ch :: (b != book || ch != chapter) ==>
                  IsChapterCompleted(r, b, ch) == IsChapterCompleted(c, b, ch))
            && (forall b :: b in c && b != book ==> r[b] == c[b])
            && (WellFormed(c) ==> WellFormed(r))
  {
    var r := c[book := newList];
    forall b, ch | b != book || ch != chapter
      ensures IsChapterCompleted(r, b, ch) == IsChapterCompleted(c, b, ch)
    {
      if b != book {
        assert b in r <==> b in c;
        if b in c {
          assert r[b] == c[b];
        }
      }
    }
    if WellFormed(c) {
      forall b | b in r ensures StrictlyAscending(r[b]) {
        if b != book {
          assert r[b] == c[b];
        }
      }
    }
  }

  /** `toggleChapter`: load (default empty), toggle, save. On the server it
      changes nothing. */
  function ToggleChapter(slot: Slot<Completed>, book: string, chapter: int): (r: Slot<Completed>)
    ensures slot.Unavailable? ==> r == Unavailable
    ensures slot.Available? ==> r == Available(Some(ToggleIn(Load(slot, map[]), book, chapter)))
  {
    Save(slot, ToggleIn(Load(slot, map[]), book, chapter))
  }

  /** Inserting a value no smaller than every element appends it. */
  lemma {:induction false} InsertLargest(xs: seq<int>, x: int)
    requires forall k :: 0 <= k < |xs| ==> xs[k] <= x
    ensures Insert(xs, x) == xs + [x]
  {
    if |xs| > 0 {
      var tail := xs[1..];
      assert xs[0] <= x;
      forall k | 0 <= k < |tail|
        ensures tail[k] <= x
      {
        assert tail[k] == xs[k + 1];
      }
      InsertLargest(tail, x);
      ConsAppend(xs, x);
    }
  }

  lemma ConsAppend(xs: seq<int>, x: int)
    requires |xs| > 0
    ensures [xs[0]] + (xs[1..] + [x]) == xs + [x]
  {
  }

  /** Sorting a list that is already ascending leaves it as it is. */
  lemma {:induction false} SortAscendingSorted(xs: seq<int>)
    requires Ascending(xs)
    ensures SortAscending(xs) == xs
    decreases |xs|
  {
    if |xs| > 0 {
      var init, last := xs[..|xs| - 1], xs[|xs| - 1];
      assert SortAscending(xs) == Insert(SortAscending(init), last);
      AscendingInit(xs);
      SortAscendingSorted(init);
      assert forall k :: 0 <= k < |init| ==> init[k] <= last by {
        forall k | 0 <= k < |init| ensures init[k] <= last {
          assert init[k] == xs[k];
        }
      }
      InsertLargest(init, last);
      SplitLast(xs);
    }
  }

  lemma SplitLast(xs: seq<int>)
    requires |xs| > 0
    ensures xs[..|xs| - 1] + [xs[|xs| - 1]] == xs
  {
  }

  lemma AscendingInit(xs: seq<int>)
    requires |xs| > 0 && Ascending(xs)
    ensures Ascending(xs[..|xs| - 1])
  {
  }

  /** Appending to an ascending list and sorting is inserting in order. */
  lemma SortAppend(xs: seq<int>, x: int)
    requires Ascending(xs)
    ensures SortAscending(xs + [x]) == Insert(xs, x)
  {
    assert (xs + [x])[..|xs|] == xs;
    SortAscendingSorted(xs);
  }

  lemma {:induction false} RemoveInserted(xs: seq<int>, x: int)
    requires x !in xs
    ensures RemoveAll(Insert(xs, x), x) == xs
  {
    if |xs| == 0 {
      assert Insert(xs, x) == [x] + xs;
      RemoveHead(x, xs, x);
    } else if x < xs[0] {
      assert Insert(xs, x) == [x] + xs;
      RemoveHead(x, xs, x);
    } else {
      var rest := Insert(xs[1..], x);
      assert Insert(xs, x) == [xs[0]] + rest;
      RemoveHead(xs[0], rest, x);
      assert x !in xs[1..];
      RemoveInserted(xs[1..], x);
      assert xs == [xs[0]] + xs[1..];
    }
  }

  /** `RemoveAll` on a list given by its head and tail. */
  lemma RemoveHead(h: int, t: seq<int>, x: int)
    ensures RemoveAll([h] + t, x) == if h == x then RemoveAll(t, x) else [h] + RemoveAll(t, x)
  {
    assert ([h] + t)[1..] == t;
  }

  lemma {:induction false} InsertRemoved(xs: seq<int>, x: int)
    requires StrictlyAscending(xs) && x in xs
    ensures Insert(RemoveAll(xs, x), x) == xs
  {
    assert xs == [xs[0]] + xs[1..];
    if xs[0] == x {
      assert x !in xs[1..];
      if |xs| > 1 {
        assert x < xs[1];
      }
    } else {
      assert xs[0] < x;
      var rest := RemoveAll(xs[1..], x);
      assert RemoveAll(xs, x) == [xs[0]] + rest;
      assert ([xs[0]] + rest)[1..] == rest;
      InsertRemoved(xs[1..], x);
    }
  }

  /** On a sorted, duplicate-free list the per-book toggle is an involution. */
  lemma ToggleListTwice(list: seq<int>, chapter: int)
    requires StrictlyAscending(list)
    ensures ToggleList(ToggleList(list, chapter), chapter) == list
  {
    var once := ToggleList(list, chapter);
    if chapter in list {
      assert once == RemoveAll(list, chapter);
      SortAppend(once, chapter);
      InsertRemoved(list, chapter);
    } else {
      SortAppend(list, chapter);
      assert once == Insert(list, chapter);
      RemoveInserted(list, chapter);
    }
  }

  lemma UpdateOverwrites(c: Completed, book: string, first: seq<int>, second: seq<int>)
    ensures c[book := first][book := second] == c[book := second]
  {
  }

  lemma UpdateSame(c: Completed, book: string)
    requires book in c
    ensures c[book := c[book]] == c
  {
  }

  /** Toggling the same chapter twice restores every completion flag, and the
      record itself when the book already had a list. */
  lemma ToggleTwiceRestores(c: Completed, book: string, chapter: int)
    requires WellFormed(c)
    ensures forall b, ch :: IsChapterCompleted(ToggleIn(ToggleIn(c, book, chapter), book, chapter), b, ch)
                            == IsChapterCompleted(c, b, ch)
    ensures book in c ==> ToggleIn(ToggleIn(c, book, chapter), book, chapter) == c
  {
    ToggleTwiceOnBook(c, book, chapter);
  }

  lemma ToggleTwiceOnBook(c: Completed, book: string, chapter: int)
    requires StrictlyAscending(if book in c then c[book] else [])
    ensures forall b, ch :: IsChapterCompleted(ToggleIn(ToggleIn(c, book, chapter), book, chapter), b, ch)
                            == IsChapterCompleted(c, b, ch)
    ensures book in c ==> ToggleIn(ToggleIn(c, book, chapter), book, chapter) == c
  {
    var list := if book in c then c[book] else [];
    var once := c[book := ToggleList(list, chapter)];
    assert once == ToggleIn(c, book, chapter);
    var twice := once[book := ToggleList(once[book], chapter)];
    assert twice == ToggleIn(once, book, chapter);
    ToggleListTwice(list, chapter);
    assert once[book] == ToggleList(list, chapter);
    assert ToggleList(once[book], chapter) == list;
    assert twice == once[book := list];
    UpdateOverwrites(c, book, ToggleList(list, chapter), list);
    forall b, ch ensures IsChapterCompleted(twice, b, ch) == IsChapterCompleted(c, b, ch) {
      if b != book && b in c {
        assert twice[b] == c[b];
      }
    }
    if book in c {
      UpdateSame(c, book);
    }
  }

  lemma RemoveBookCard(c: Completed, b: string)
    requires b in c
    ensures |c - {b}| == |c| - 1
  {
    assert (c - {b}).Keys == c.Keys - {b};
  }

  /** `getCompletedCount`: the total length of all lists. */
  ghost function CompletedCount(c: Completed): nat
    decreases |c|
  {
    if |c| == 0 then 0
    else
      var b :| b in c;
      RemoveBookCard(c, b);
      |c[b]| + CompletedCount(c - {b})
  }

  lemma PickBook(c: Completed) returns (b: string)
    requires |c| > 0
    ensures b in c && CompletedCount(c) == |c[b]| + CompletedCount(c - {b})
  {
    b :| b in c && CompletedCount(c) == |c[b]| + CompletedCount(c - {b});
  }

  /** The count may be taken apart at any book. */
  lemma {:induction false} CountWithout(c: Completed, b: string)
    requires b in c
    ensures CompletedCount(c) == |c[b]| + CompletedCount(c - {b})
    decreases |c|
  {
    var b' := PickBook(c);
    if b' != b {
      var rest, rest' := c - {b'}, c - {b};
      RemoveBookCard(c, b');
      RemoveBookCard(c, b);
      assert b in rest && b' in rest';
      CountWithout(rest, b);
      CountWithout(rest', b');
      assert rest - {b} == rest' - {b'};
      assert rest[b] == c[b] && rest'[b'] == c[b'];
    }
  }

  /** Replacing one book's list changes the count by the difference in length. */
  lemma CountUpdate(c: Completed, b: string, xs: seq<int>)
    ensures CompletedCount(c[b := xs]) + (if b in c then |c[b]| else 0) == CompletedCount(c) + |xs|
  {
    var u := c[b := xs];
    CountWithout(u, b);
    assert u - {b} == c - {b};
    if b in c {
      CountWithout(c, b);
    } else {
      assert c - {b} == c;
    }
  }

  /** A toggle adds one completed chapter or removes one. */
  lemma ToggleChangesCountByOne(c: Completed, book: string, chapter: int)
    requires WellFormed(c)
    ensures CompletedCount(ToggleIn(c, book, chapter))
            == CompletedCount(c) + (if IsChapterCompleted(c, book, chapter) then -1 else 1)
  {
    var list := if book in c then c[book] else [];
    var r := ToggleIn(c, book, chapter);
    CountUpdate(c, book, r[book]);
    assert |r[book]| == |list| + (if chapter in list then -1 else 1);
  }

  /** `Math.round(100 * count / 239)`: the nearest integer, halves rounding up. */
  function ProgressOf(count: int): (p: int)
    ensures 478 * p - 239 <= 200 * count < 478 * p + 239
  {
    (200 * count + 239) / 478
  }

  /** The percentage stays within 0..100 while the count stays within the
      table: an empty store shows 0 and a complete one 100. */
  lemma ProgressBounds(count: int)
    requires 0 <= count <= 239
    ensures 0 <= ProgressOf(count) <= 100
    ensures count == 0 ==> ProgressOf(count) == 0
    ensures count == 239 ==> ProgressOf(count) == 100
  {
  }

  /** More completed chapters never show a lower percentage. */
  lemma ProgressMonotone(a: int, b: int)
    requires a <= b
    ensures ProgressOf(a) <= ProgressOf(b)
  {
  }

  /** `getProgress`. */
  ghost function GetProgress(c: Completed): (p: int)
    ensures CompletedCount(c) <= GetTotalChapters() ==> 0 <= p <= 100
  {
    ProgressOf(CompletedCount(c))
  }
}
