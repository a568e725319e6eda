/** Page lists with ellipses, and the slicing of a list into pages. */
module Pagination {

  datatype Item = Page(n: int) | Ellipsis

  // ---------------------------------------------------------------- the page list

  function Range(from: int, until: int): (r: seq<int>)
    ensures |r| == if from < until then until - from else 0
    ensures forall i :: 0 <= i < |r| ==> r[i] == from + i
  {
    if from < until then seq(until - from, i => from + i) else []
  }

  function Numbers(from: int, until: int): (items: seq<Item>)
    ensures |items| == if from < until then until - from else 0
    ensures forall i :: 0 <= i < |items| ==> items[i] == Page(from + i)
  {
    if from < until then seq(until - from, i => Page(from + i)) else []
  }

  function Max(a: int, b: int): int { if a < b then b else a }

  function Min(a: int, b: int): int { if a < b then a else b }

  /** An ellipsis when pages are left out, and nothing otherwise. */
  function Gap(wanted: bool): seq<Item> {
    if wanted then [Ellipsis] else []
  }

  function Middle(current: int, total: nat): seq<Item> {
    Gap(current > 2) + Numbers(Max(1, current - 1), Min(total - 2, current + 1) + 1)
  }

  function Tail(current: int, total: nat): seq<Item> {
    Gap(current < total - 3) + [Page(total - 1)]
  }

  function PageRange(current: int, total: nat): seq<Item> {
    if total <= 7 then Numbers(0, total) else [Page(0)] + (Middle(current, total) + Tail(current, total))
  }

  lemma NumbersOneMore(from: int, i: int)
    requires from <= i
    ensures Numbers(from, i + 1) == Numbers(from, i) + [Page(i)]
  {
  }

  lemma NumbersEmpty(from: int, until: int)
    requires until <= from
    ensures Numbers(from, until) == []
  {
  }

  /** The loop in the middle: the pages from `start` to `end`, both included. */
  method PushNumbers(before: seq<Item>, start: int, end: int) returns (pages: seq<Item>)
    ensures pages == before + Numbers(start, end + 1)
  {
    hide Numbers;
    pages := before;
    var i := start;
    NumbersEmpty(start, i);
    while i <= end
      invariant start <= i && (i == start || i <= end + 1)
      invariant pages == before + Numbers(start, i)
    {
      NumbersOneMore(start, i);
      pages := pages + [Page(i)];
      i := i + 1;
    }
    if i > end + 1 {
      NumbersEmpty(start, end + 1);
    }
  }

  lemma Regroup(first: seq<Item>, lead: seq<Item>, numbers: seq<Item>, gap: seq<Item>, last: seq<Item>)
    ensures first + lead + numbers + gap + last == first + ((lead + numbers) + (gap + last))
  {
  }

  method GetPageRange(current: int, total: nat) returns (pages: seq<Item>)
    ensures pages == PageRange(current, total)
  {
    hide Numbers, Max, Min;
    if total <= 7 {
      return Numbers(0, total);
    }
    pages := [];
    pages := pages + [Page(0)];
    assert pages == [Page(0)];
    if current > 2 {
      pages := pages + [Ellipsis];
    }
    assert pages == [Page(0)] + Gap(current > 2);
    pages := PushNumbers(pages, Max(1, current - 1), Min(total - 2, current + 1));
    ghost var before := pages;
    if current < total - 3 {
      pages := pages + [Ellipsis];
    }
    assert pages == before + Gap(current < total - 3);
    pages := pages + [Page(total - 1)];
    Regroup([Page(0)], Gap(current > 2), Numbers(Max(1, current - 1), Min(total - 2, current + 1) + 1),
            Gap(current < total - 3), [Page(total - 1)]);
  }

  /** The pages a list of items stands for after page `last`: an ellipsis stands for every page up to
      the next number. */
  function Expand(items: seq<Item>, last: int): seq<int> {
    if items == [] then []
    else if items[0].Page? then [items[0].n] + Expand(items[1..], items[0].n)
    else if |items| > 1 && items[1].Page? then Range(last + 1, items[1].n) + Expand(items[1..], items[1].n - 1)
    else Expand(items[1..], last)
  }

  lemma NumbersHead(from: int, until: int)
    requires from < until
    ensures Numbers(from, until) == [Page(from)] + Numbers(from + 1, until)
    ensures Range(from, until) == [from] + Range(from + 1, until)
  {
  }

  lemma RangeSplit(from: int, mid: int, until: int)
    requires from <= mid <= until
    ensures Range(from, until) == Range(from, mid) + Range(mid, until)
  {
  }

  lemma {:induction false} ExpandPage(n: int, rest: seq<Item>, last: int)
    ensures Expand([Page(n)] + rest, last) == [n] + Expand(rest, n)
  {
    assert ([Page(n)] + rest)[1..] == rest;
  }

  lemma {:induction false} ExpandNumbers(from: int, until: int, rest: seq<Item>, last: int)
    requires from <= until
    ensures Expand(Numbers(from, until) + rest, last)
            == Range(from, until) + Expand(rest, if from < until then until - 1 else last)
    decreases until - from
  {
    if from == until {
      assert Numbers(from, until) + rest == rest;
    } else {
      hide Numbers, Range, Expand;
      var tail := Numbers(from + 1, until) + rest;
      NumbersHead(from, until);
      assert Numbers(from, until) + rest == [Page(from)] + tail;
      ExpandPage(from, tail, last);
      ExpandNumbers(from + 1, until, rest, from);
    }
  }

  lemma {:induction false} ExpandEllipsis(next: int, rest: seq<Item>, last: int)
    ensures Expand([Ellipsis, Page(next)] + rest, last) == Range(last + 1, next) + ([next] + Expand(rest, next))
  {
    var items := [Ellipsis, Page(next)] + rest;
    assert items[1..] == [Page(next)] + rest;
    assert items[1..][1..] == rest;
  }

  lemma {:induction false} ExpandTail(current: int, total: nat, last: int)
    requires total > 7 && 0 <= current < total && last == Min(total - 2, current + 1)
    ensures Expand(Tail(current, total), last) == Range(last + 1, total)
  {
    var end := [Page(total - 1)];
    assert end == [Page(total - 1)] + [];
    ExpandPage(total - 1, [], last);
    if current < total - 3 {
      assert [Ellipsis] + end == [Ellipsis, Page(total - 1)] + [];
      ExpandEllipsis(total - 1, [], last);
    } else {
      assert [] + end == end;
    }
  }

  lemma {:induction false} ExpandMiddle(current: int, total: nat, rest: seq<Item>)
    requires total > 7 && 0 <= current < total
    ensures var end := Min(total - 2, current + 1);
            Expand(Middle(current, total) + rest, 0) == Range(1, end + 1) + Expand(rest, end)
  {
    var start, end := Max(1, current - 1), Min(total - 2, current + 1);
    var numbers := Numbers(start, end + 1);
    hide Numbers, Range, Expand;
    if current > 2 {
      var tail := Numbers(start + 1, end + 1) + rest;
      NumbersHead(start, end + 1);
      assert [Ellipsis] + numbers + rest == [Ellipsis, Page(start)] + tail;
      ExpandEllipsis(start, tail, 0);
      ExpandNumbers(start + 1, end + 1, rest, start);
      RangeSplit(1, start, end + 1);
    } else {
      assert [] + numbers + rest == numbers + rest;
      ExpandNumbers(start, end + 1, rest, 0);
    }
  }

  /** Compression loses nothing: with every ellipsis read as the gap it stands for, the list is all the
      pages in order. */
  lemma PageRangeLossless(current: int, total: nat)
    requires 0 <= current < total
    ensures Expand(PageRange(current, total), -1) == Range(0, total)
  {
    if total <= 7 {
      assert Numbers(0, total) + [] == Numbers(0, total);
      ExpandNumbers(0, total, [], -1);
    } else {
      hide Numbers, Range, Expand, Middle, Tail;
      var end := Min(total - 2, current + 1);
      ExpandPage(0, Middle(current, total) + Tail(current, total), -1);
      ExpandMiddle(current, total, Tail(current, total));
      ExpandTail(current, total, end);
      RangeParts(end, total);
    }
  }

  lemma RangeParts(end: int, total: nat)
    requires 0 <= end < total
    ensures Range(0, total) == [0] + (Range(1, end + 1) + Range(end + 1, total))
  {
  }

  /** It has at most seven entries, shows the first and the last page, its numbers strictly increase, and
      every ellipsis stands between two numbers and hides at least one page. */
  lemma PageRangeShape(current: int, total: nat)
    requires 0 <= current < total
    ensures |PageRange(current, total)| <= 7
    ensures PageRange(current, total)[0] == Page(0)
    ensures PageRange(current, total)[|PageRange(current, total)| - 1] == Page(total - 1)
    ensures forall i :: 0 <= i < |PageRange(current, total)| && PageRange(current, total)[i].Ellipsis? ==>
              HidesPages(PageRange(current, total), i)
    ensures Increasing(PageRange(current, total))
  {
    PageRangeIncreases(current, total);
    if total > 7 {
      var start, end := Max(1, current - 1), Min(total - 2, current + 1);
      var before, numbers, after := Gap(current > 2), Numbers(start, end + 1), Gap(current < total - 3);
      hide Increasing, Numbers, HidesPages, Gap;
      assert PageRange(current, total) == [Page(0)] + before + numbers + after + [Page(total - 1)];
      PiecesShape(Page(0), before, numbers, after, Page(total - 1));
    } else {
      hide Increasing, HidesPages;
    }
  }

  lemma PiecesShape(first: Item, before: seq<Item>, numbers: seq<Item>, after: seq<Item>, last: Item)
    requires first.Page? && last.Page? && numbers != [] && forall k :: 0 <= k < |numbers| ==> numbers[k].Page?
    requires before == [] || (before == [Ellipsis] && numbers[0].n - first.n >= 2)
    requires after == [] || (after == [Ellipsis] && last.n - numbers[|numbers| - 1].n >= 2)
    ensures var items := [first] + before + numbers + after + [last];
            forall i :: 0 <= i < |items| && items[i].Ellipsis? ==> HidesPages(items, i)
  {
  }

  ghost predicate Increasing(items: seq<Item>) {
    forall i, j :: 0 <= i < j < |items| && items[i].Page? && items[j].Page? ==> items[i].n < items[j].n
  }

  ghost predicate Within(items: seq<Item>, from: int, until: int) {
    forall i :: 0 <= i < |items| && items[i].Page? ==> from <= items[i].n < until
  }

  lemma IncreasingConcat(a: seq<Item>, b: seq<Item>, from: int, middle: int, until: int)
    requires Increasing(a) && Increasing(b) && Within(a, from, middle) && Within(b, middle, until)
    requires from <= middle <= until
    ensures Increasing(a + b) && Within(a + b, from, until)
  {
  }

  lemma PageRangeIncreases(current: int, total: nat)
    requires 0 <= current < total
    ensures Increasing(PageRange(current, total))
  {
    if total > 7 {
      var start, end := Max(1, current - 1), Min(total - 2, current + 1);
      IncreasingConcat(Gap(current > 2), Numbers(start, end + 1), 1, 1, end + 1);
      IncreasingConcat(Gap(current < total - 3), [Page(total - 1)], end + 1, end + 1, total);
      hide Increasing, Within, Gap, Numbers;
      IncreasingConcat(Middle(current, total), Tail(current, total), 1, end + 1, total);
      FirstPageAlone();
      IncreasingConcat([Page(0)], Middle(current, total) + Tail(current, total), 0, 1, total);
    }
  }

  lemma FirstPageAlone()
    ensures Increasing([Page(0)]) && Within([Page(0)], 0, 1)
  {
  }

  ghost predicate HidesPages(items: seq<Item>, i: int) {
    && 0 < i < |items| - 1
    && items[i - 1].Page? && items[i + 1].Page?
    && items[i + 1].n - items[i - 1].n >= 2
  }

  /** Pages are left out if and only if there are more than seven. */
  lemma EllipsisIff(current: int, total: nat)
    requires 0 <= current < total
    ensures Ellipsis in PageRange(current, total) <==> total > 7
  {
    hide Numbers;
    if total > 7 {
      var items := [Page(0)] + (Middle(current, total) + Tail(current, total));
      assert (if current > 2 then items[1] else items[|items| - 2]) == Ellipsis;
    } else {
      NumbersAreNumbers(0, total);
    }
  }

  lemma NumbersAreNumbers(from: int, until: int)
    ensures Ellipsis !in Numbers(from, until)
  {
  }

  /** The current page and both its neighbours are on the list. */
  lemma NeighboursShown(current: int, total: nat, k: int)
    requires 0 <= current < total && current - 1 <= k <= current + 1 && 0 <= k < total
    ensures Page(k) in PageRange(current, total)
  {
    var items := PageRange(current, total);
    if total <= 7 {
      assert items[k] == Page(k);
    } else if k == 0 {
      assert items[0] == Page(0);
    } else if k == total - 1 {
      assert items[|items| - 1] == Page(k);
    } else {
      var start, end := Max(1, current - 1), Min(total - 2, current + 1);
      assert Numbers(start, end + 1)[k - start] == Page(k);
      assert Page(k) in Numbers(start, end + 1);
    }
  }

  // ---------------------------------------------------------------- slicing

  function CeilDiv(n: nat, d: nat): nat
    requires d > 0
  {
    (n + d - 1) / d
  }

  function TotalPages(count: nat, size: nat): (pages: nat)
    requires size > 0
    ensures pages >= 1
  {
    Max(1, CeilDiv(count, size))
  }

  /** The source's `slice`: both ends are cut off at the length of the list. */
  function Slice<T>(items: seq<T>, start: nat, end: nat): seq<T>
    requires start <= end
  {
    if start >= |items| then [] else if end <= |items| then items[start..end] else items[start..]
  }

  function PageOf<T>(items: seq<T>, size: nat, page: nat): seq<T> {
    Slice(items, page * size, page * size + size)
  }

  lemma CeilDivBounds(n: nat, d: nat)
    requires d > 0
    ensures CeilDiv(n, d) * d >= n
    ensures n > 0 ==> CeilDiv(n, d) >= 1 && (CeilDiv(n, d) - 1) * d < n
  {
    var q := (n + d - 1) / d;
    assert n + d - 1 == q * d + (n + d - 1) % d;
    assert (q - 1) * d == q * d - d;
  }

  /** All the pages up to number `pages`, joined. */
  function Pages<T>(items: seq<T>, size: nat, pages: nat): seq<T> {
    if pages == 0 then [] else Pages(items, size, pages - 1) + PageOf(items, size, pages - 1)
  }

  lemma SlicesJoin<T>(items: seq<T>, start: nat, end: nat)
    requires start <= end
    ensures Slice(items, 0, start) + Slice(items, start, end) == Slice(items, 0, end)
  {
  }

  lemma {:induction false} PagesArePrefix<T>(items: seq<T>, size: nat, pages: nat)
    ensures Pages(items, size, pages) == Slice(items, 0, pages * size)
  {
    hide Slice;
    if pages == 0 {
      EmptySlice(items);
    } else {
      var start := (pages - 1) * size;
      PagesArePrefix(items, size, pages - 1);
      assert start + size == pages * size;
      SlicesJoin(items, start, start + size);
    }
  }

  lemma EmptySlice<T>(items: seq<T>)
    ensures Slice(items, 0, 0) == []
  {
  }

  lemma PageNotEmpty<T>(items: seq<T>, size: nat, page: nat)
    requires size > 0 && items != [] && page < TotalPages(|items|, size)
    ensures PageOf(items, size, page) != []
  {
    hide CeilDiv;
    CeilDivBounds(|items|, size);
    Below(page, TotalPages(|items|, size) - 1, size);
  }

  lemma AllPagesCover<T>(items: seq<T>, size: nat)
    requires size > 0
    ensures TotalPages(|items|, size) * size >= |items|
  {
    hide CeilDiv;
    CeilDivBounds(|items|, size);
  }

  /** The pages of a list are the list, cut up: joined they give it back, and none is empty unless the
      list is. */
  lemma {:induction false} PagesPartition<T>(items: seq<T>, size: nat)
    requires size > 0
    ensures Pages(items, size, TotalPages(|items|, size)) == items
    ensures forall p: nat :: p < TotalPages(|items|, size) && items != [] ==> PageOf(items, size, p) != []
  {
    hide PageOf, TotalPages, Pages, CeilDiv;
    var total := TotalPages(|items|, size);
    AllPagesCover(items, size);
    PagesArePrefix(items, size, total);
    forall p: nat | p < total && items != [] ensures PageOf(items, size, p) != [] {
      PageNotEmpty(items, size, p);
    }
  }

  /** There is always a page, and no more pages than the items need. */
  lemma TotalPagesIs(count: nat, size: nat)
    requires size > 0
    ensures count == 0 ==> TotalPages(count, size) == 1
    ensures count > 0 ==> (TotalPages(count, size) - 1) * size < count <= TotalPages(count, size) * size
  {
    hide CeilDiv;
    CeilDivBounds(count, size);
    if count == 0 {
      NoPagesNeeded(size);
    }
  }

  lemma NoPagesNeeded(size: nat)
    requires size > 0
    ensures CeilDiv(0, size) == 0
  {
  }

  /** A page that exists holds the items that follow those of the pages before it, as many as fit. */
  lemma ItemsOnPage<T>(items: seq<T>, size: nat, page: nat)
    requires size > 0 && page < TotalPages(|items|, size)
    ensures page * size <= |items|
    ensures PageOf(items, size, page)
            == items[page * size..if page * size + size < |items| then page * size + size else |items|]
  {
    hide TotalPages;
    TotalPagesIs(|items|, size);
    if |items| > 0 {
      Below(page, TotalPages(|items|, size) - 1, size);
    }
  }

  lemma Below(p: nat, q: nat, size: nat)
    ensures p <= q ==> p * size <= q * size
  {
    if p <= q {
      assert q * size == p * size + (q - p) * size;
      assert (q - p) * size >= 0;
    }
  }

  // ---------------------------------------------------------------- the page shown

  /** The page state of the view: the page asked for, the page size, and the filtered list. */
  datatype View<T> = View(page: int, size: nat, filtered: seq<T>)

  /** What the controls do. Another page can be asked for by number, or with the two arrows; filters and
      page size also reset the page, but only after the list has been shown once with the old one. */
  datatype Command<T> =
    | GoTo(page: nat)
    | Previous
    | Next
    | Resize(size: nat)
    | Filter(filtered: seq<T>)
    | ResetPage

  function CurrentPage<T>(v: View<T>): int
    requires v.size > 0
  {
    Min(v.page, TotalPages(|v.filtered|, v.size) - 1)
  }

  function Perform<T>(v: View<T>, command: Command<T>): (v': View<T>)
    requires v.size > 0
    ensures v'.size > 0
  {
    match command
    case GoTo(page) => v.(page := page)
    case Previous => v.(page := Max(0, CurrentPage(v) - 1))
    case Next => v.(page := Min(TotalPages(|v.filtered|, v.size) - 1, CurrentPage(v) + 1))
    case Resize(size) => if size > 0 then v.(size := size) else v
    case Filter(filtered) => v.(filtered := filtered)
    case ResetPage => v.(page := 0)
  }

  function PerformAll<T>(v: View<T>, commands: seq<Command<T>>): (v': View<T>)
    requires v.size > 0
    ensures v'.size > 0
    decreases |commands|
  {
    if commands == [] then v else PerformAll(Perform(v, commands[0]), commands[1..])
  }

  lemma {:induction false} PerformLast<T>(v: View<T>, commands: seq<Command<T>>, last: Command<T>)
    requires v.size > 0
    ensures PerformAll(v, commands + [last]) == Perform(PerformAll(v, commands), last)
    decreases |commands|
  {
    hide Perform;
    if commands == [] {
      assert commands + [last] == [last] && [last][1..] == [];
    } else {
      assert (commands + [last])[1..] == commands[1..] + [last];
      PerformLast(Perform(v, commands[0]), commands[1..], last);
    }
  }

  lemma {:induction false} PageStaysNatural<T>(v: View<T>, commands: seq<Command<T>>)
    requires v.size > 0 && v.page >= 0
    ensures PerformAll(v, commands).page >= 0
    decreases |commands|
  {
    if commands != [] {
      PageStaysNatural(Perform(v, commands[0]), commands[1..]);
    }
  }

  /** The caption "start-end" for a page. */
  function CaptionStart(page: nat, size: nat): int {
    page * size + 1
  }

  function CaptionEnd(page: nat, size: nat, count: nat): int {
    Min((page + 1) * size, count)
  }

  lemma CaptionCountsPage<T>(items: seq<T>, size: nat, page: nat)
    requires size > 0 && PageOf(items, size, page) != []
    ensures var start, end := CaptionStart(page, size), CaptionEnd(page, size, |items|);
            1 <= start <= end <= |items| && PageOf(items, size, page) == items[start - 1..end]
  {
    assert (page + 1) * size == page * size + size;
  }

  /** After any sequence of commands the page shown exists, is not empty unless the list is, and the
      caption names exactly the items on it. */
  lemma {:induction false} ShownPageInRange<T>(commands: seq<Command<T>>, all: seq<T>)
    ensures var v := PerformAll(View(0, 10, all), commands);
            0 <= CurrentPage(v) < TotalPages(|v.filtered|, v.size)
    ensures var v := PerformAll(View(0, 10, all), commands);
            v.filtered != [] ==>
              var start, end := CaptionStart(CurrentPage(v), v.size), CaptionEnd(CurrentPage(v), v.size, |v.filtered|);
              && 1 <= start <= end <= |v.filtered|
              && PageOf(v.filtered, v.size, CurrentPage(v)) == v.filtered[start - 1..end]
  {
    hide PageOf, CaptionStart, CaptionEnd, CeilDiv;
    PageStaysNatural(View(0, 10, all), commands);
    var v := PerformAll(View(0, 10, all), commands);
    var page: nat := CurrentPage(v);
    PagesPartition(v.filtered, v.size);
    if v.filtered != [] {
      assert PageOf(v.filtered, v.size, page) != [];
      CaptionCountsPage(v.filtered, v.size, page);
    }
  }

  /** The view after these commands, from its first page with ten items on each. */
  function Reached<T>(all: seq<T>, commands: seq<Command<T>>): (v: View<T>)
    ensures v.size > 0
  {
    PerformAll(View(0, 10, all), commands)
  }

  /** The page shown is number `page`, counted from 0, of these items. */
  ghost predicate Shows<T>(v: View<T>, page: int, items: seq<T>, size: nat) {
    && v.size == size > 0 && v.filtered == items
    && CurrentPage(v) == page >= 0 && page * size <= |items|
    && PageOf(v.filtered, v.size, page)
       == items[page * size..if page * size + size < |items| then page * size + size else |items|]
  }

  lemma ShowsCurrent<T>(v: View<T>)
    requires v.size > 0 && v.page >= 0
    ensures Shows(v, CurrentPage(v), v.filtered, v.size)
  {
    hide TotalPages, PageOf;
    ItemsOnPage(v.filtered, v.size, CurrentPage(v));
  }

  /** After any commands, going to a page shows that page, or the last one if there are not so many; the
      arrows move by one page and stop at the ends; a reset shows the first page. None of them changes the
      list or the page size. */
  lemma MovesPageShown<T>(all: seq<T>, commands: seq<Command<T>>, page: nat)
    ensures var v := Reached(all, commands);
            var last, now := TotalPages(|v.filtered|, v.size) - 1, CurrentPage(v);
            && 0 <= now <= last
            && Shows(Reached(all, commands + [GoTo(page)]), if page < last then page else last, v.filtered, v.size)
            && Shows(Reached(all, commands + [Next]), if now < last then now + 1 else last, v.filtered, v.size)
            && Shows(Reached(all, commands + [Previous]), if now > 0 then now - 1 else 0, v.filtered, v.size)
            && Shows(Reached(all, commands + [ResetPage]), 0, v.filtered, v.size)
  {
    hide TotalPages, PageOf, PerformAll, Shows;
    var v := Reached(all, commands);
    PageStaysNatural(View(0, 10, all), commands);
    MovesTo(all, commands, GoTo(page));
    MovesTo(all, commands, Next);
    MovesTo(all, commands, Previous);
    MovesTo(all, commands, ResetPage);
  }

  lemma MovesTo<T>(all: seq<T>, commands: seq<Command<T>>, command: Command<T>)
    ensures var v, v' := Reached(all, commands), Reached(all, commands + [command]);
            v' == Perform(v, command) && v.page >= 0 && Shows(v', CurrentPage(v'), v'.filtered, v'.size)
  {
    hide TotalPages, PageOf, PerformAll, Shows, Perform;
    PerformLast(View(0, 10, all), commands, command);
    PageStaysNatural(View(0, 10, all), commands);
    PageStaysNatural(View(0, 10, all), commands + [command]);
    ShowsCurrent(Reached(all, commands + [command]));
  }

  /** A new page size or a new filter keeps the page asked for, as far as there is one; the reset that
      follows is a command of its own. A page size of zero cannot be chosen. */
  lemma ChangesList<T>(all: seq<T>, commands: seq<Command<T>>, size: nat, filtered: seq<T>)
    requires size > 0
    ensures var v := Reached(all, commands);
            var resized, filtering := TotalPages(|v.filtered|, size) - 1, TotalPages(|filtered|, v.size) - 1;
            && Shows(Reached(all, commands + [Resize(size)]), if v.page < resized then v.page else resized,
                     v.filtered, size)
            && Shows(Reached(all, commands + [Filter(filtered)]), if v.page < filtering then v.page else filtering,
                     filtered, v.size)
  {
    hide TotalPages, PageOf, PerformAll, Shows;
    MovesTo(all, commands, Resize(size));
    MovesTo(all, commands, Filter(filtered));
  }
}
