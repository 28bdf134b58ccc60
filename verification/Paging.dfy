/**
  Sorting by price and cutting into pages (src/services/experience.service.ts).
  The library sort is stable (section 23.1.3.30 of ECMA-262, ES2023).
 */
module Paging {

  // ---------- the order ----------

  predicate Strictly(a: int, b: int, descending: bool) {
    if descending then a > b else a < b
  }

  predicate Distinct(rows: seq<nat>) {
    forall i, j :: 0 <= i < j < |rows| ==> rows[i] != rows[j]
  }

  predicate FetchedBefore(rows: seq<nat>, x: nat, y: nat) {
    exists i, j :: 0 <= i < j < |rows| && rows[i] == x && rows[j] == y
  }

  /** Rows go by price, and by fetched position among equals. */
  predicate GoesBefore(rows: seq<nat>, price: map<nat, int>, descending: bool, x: nat, y: nat)
    requires x in price && y in price
  {
    Strictly(price[x], price[y], descending) || (price[x] == price[y] && FetchedBefore(rows, x, y))
  }

  predicate Priced(rows: seq<nat>, price: map<nat, int>) {
    forall k :: 0 <= k < |rows| ==> rows[k] in price
  }

  predicate Ordered(rows: seq<nat>, price: map<nat, int>, descending: bool, s: seq<nat>)
    requires Priced(s, price)
  {
    forall i, j :: 0 <= i < j < |s| ==> GoesBefore(rows, price, descending, s[i], s[j])
  }

  /** Every row exactly once, in the chosen direction, ties as fetched. */
  predicate IsStableSort(rows: seq<nat>, price: map<nat, int>, descending: bool, sorted: seq<nat>)
    requires Priced(rows, price)
  {
    && multiset(sorted) == multiset(rows)
    && Priced(sorted, price)
    && Ordered(rows, price, descending, sorted)
  }

  // ---------- the sort ----------

  /** Put x behind every row that does not have to come after it. */
  function Insert(sorted: seq<nat>, price: map<nat, int>, descending: bool, x: nat): seq<nat>
    requires Priced(sorted, price) && x in price
  {
    if sorted == [] then [x]
    else
      var n := |sorted| - 1;
      if Strictly(price[x], price[sorted[n]], descending)
      then Insert(sorted[..n], price, descending, x) + [sorted[n]]
      else sorted + [x]
  }

  lemma {:induction false} InsertContents(sorted: seq<nat>, price: map<nat, int>, descending: bool, x: nat)
    requires Priced(sorted, price) && x in price
    ensures multiset(Insert(sorted, price, descending, x)) == multiset(sorted) + multiset{x}
    ensures Priced(Insert(sorted, price, descending, x), price)
  {
    if sorted != [] {
      var n := |sorted| - 1;
      assert sorted == sorted[..n] + [sorted[n]];
      if Strictly(price[x], price[sorted[n]], descending) {
        InsertContents(sorted[..n], price, descending, x);
      }
    }
  }

  function StableSort(rows: seq<nat>, price: map<nat, int>, descending: bool): (sorted: seq<nat>)
    requires Priced(rows, price)
    ensures Priced(sorted, price) && multiset(sorted) == multiset(rows)
  {
    if rows == [] then []
    else
      var n := |rows| - 1;
      var earlier := StableSort(rows[..n], price, descending);
      InsertContents(earlier, price, descending, rows[n]);
      assert rows == rows[..n] + [rows[n]];
      Insert(earlier, price, descending, rows[n])
  }

  lemma AppendOrdered(rows: seq<nat>, price: map<nat, int>, descending: bool, s: seq<nat>, y: nat)
    requires Priced(s, price) && y in price && Ordered(rows, price, descending, s)
    requires forall i :: 0 <= i < |s| ==> GoesBefore(rows, price, descending, s[i], y)
    ensures Ordered(rows, price, descending, s + [y])
  {
  }

  lemma InMultiset(s: seq<nat>, x: nat) returns (k: nat)
    requires x in multiset(s)
    ensures k < |s| && s[k] == x
  {
    k :| 0 <= k < |s| && s[k] == x;
  }

  /** Rows inserted ahead of the last one stay ahead of it. */
  lemma InsertAhead(rows: seq<nat>, sorted: seq<nat>, price: map<nat, int>, descending: bool, x: nat)
    requires Priced(sorted, price) && x in price && Ordered(rows, price, descending, sorted) && sorted != []
    requires Strictly(price[x], price[sorted[|sorted| - 1]], descending)
    ensures var n := |sorted| - 1;
            var front := Insert(sorted[..n], price, descending, x);
            Priced(front, price) && forall i :: 0 <= i < |front| ==>
                GoesBefore(rows, price, descending, front[i], sorted[n])
  {
    var n := |sorted| - 1;
    var front := Insert(sorted[..n], price, descending, x);
    InsertContents(sorted[..n], price, descending, x);
    forall i | 0 <= i < |front|
      ensures GoesBefore(rows, price, descending, front[i], sorted[n])
    {
      assert front[i] in multiset(front);
      if front[i] != x {
        var k := InMultiset(sorted[..n], front[i]);
      }
    }
  }

  /** x was fetched after everything in `sorted`. */
  lemma {:induction false} InsertSorted(rows: seq<nat>, sorted: seq<nat>, price: map<nat, int>, descending: bool,
      x: nat)
    requires Priced(sorted, price) && x in price && Ordered(rows, price, descending, sorted)
    requires forall i :: 0 <= i < |sorted| ==> FetchedBefore(rows, sorted[i], x)
    ensures Priced(Insert(sorted, price, descending, x), price)
    ensures Ordered(rows, price, descending, Insert(sorted, price, descending, x))
  {
    InsertContents(sorted, price, descending, x);
    if sorted != [] {
      var n := |sorted| - 1;
      if Strictly(price[x], price[sorted[n]], descending) {
        var front := Insert(sorted[..n], price, descending, x);
        InsertSorted(rows, sorted[..n], price, descending, x);
        InsertAhead(rows, sorted, price, descending, x);
        AppendOrdered(rows, price, descending, front, sorted[n]);
      } else {
        forall i | 0 <= i < |sorted|
          ensures GoesBefore(rows, price, descending, sorted[i], x)
        {
          assert i < n ==> GoesBefore(rows, price, descending, sorted[i], sorted[n]);
        }
        AppendOrdered(rows, price, descending, sorted, x);
      }
    }
  }

  lemma MorePositions(rows: seq<nat>, last: nat, x: nat, y: nat)
    ensures FetchedBefore(rows, x, y) ==> FetchedBefore(rows + [last], x, y)
    ensures x in rows ==> FetchedBefore(rows + [last], x, last)
  {
    if FetchedBefore(rows, x, y) {
      var i, j :| 0 <= i < j < |rows| && rows[i] == x && rows[j] == y;
      assert (rows + [last])[i] == x && (rows + [last])[j] == y;
    }
    if x in rows {
      var i :| 0 <= i < |rows| && rows[i] == x;
      assert (rows + [last])[i] == x && (rows + [last])[|rows|] == last;
    }
  }

  lemma {:induction false} StableSortIsStable(rows: seq<nat>, price: map<nat, int>, descending: bool)
    requires Priced(rows, price)
    ensures IsStableSort(rows, price, descending, StableSort(rows, price, descending))
  {
    if rows != [] {
      var n := |rows| - 1;
      var front := rows[..n];
      var earlier := StableSort(front, price, descending);
      StableSortIsStable(front, price, descending);
      assert rows == front + [rows[n]];
      forall i, j | 0 <= i < j < |earlier|
        ensures GoesBefore(rows, price, descending, earlier[i], earlier[j])
      {
        assert GoesBefore(front, price, descending, earlier[i], earlier[j]);
        MorePositions(front, rows[n], earlier[i], earlier[j]);
      }
      forall i | 0 <= i < |earlier|
        ensures FetchedBefore(rows, earlier[i], rows[n])
      {
        assert earlier[i] in multiset(front) by { assert earlier[i] in multiset(earlier); }
        MorePositions(front, rows[n], earlier[i], earlier[i]);
      }
      InsertSorted(rows, earlier, price, descending, rows[n]);
    }
  }

  /** On rows without duplicates the order leaves no choice. */
  lemma BeforeIsStrict(rows: seq<nat>, price: map<nat, int>, descending: bool, x: nat, y: nat)
    requires Distinct(rows) && x in price && y in price && GoesBefore(rows, price, descending, x, y)
    ensures !GoesBefore(rows, price, descending, y, x)
  {
  }

  /** The last row of an ordered list comes after all others. */
  lemma LastIsLast(rows: seq<nat>, price: map<nat, int>, descending: bool, s: seq<nat>, x: nat)
    requires Priced(s, price) && Ordered(rows, price, descending, s) && x in multiset(s) && x != s[|s| - 1]
    ensures x in price && GoesBefore(rows, price, descending, x, s[|s| - 1])
  {
  }

  lemma DropLast(s: seq<nat>)
    requires s != []
    ensures multiset(s[..|s| - 1]) == multiset(s) - multiset{s[|s| - 1]}
  {
    assert s == s[..|s| - 1] + [s[|s| - 1]];
  }

  lemma SameLast(rows: seq<nat>, price: map<nat, int>, descending: bool, s: seq<nat>, t: seq<nat>)
    requires Distinct(rows) && Priced(s, price) && Priced(t, price) && s != [] && t != []
    requires s[|s| - 1] in multiset(t) && t[|t| - 1] in multiset(s)
    requires Ordered(rows, price, descending, s) && Ordered(rows, price, descending, t)
    ensures s[|s| - 1] == t[|t| - 1]
  {
    var x, y := s[|s| - 1], t[|t| - 1];
    if x != y {
      LastIsLast(rows, price, descending, t, x);
      LastIsLast(rows, price, descending, s, y);
      BeforeIsStrict(rows, price, descending, x, y);
    }
  }

  lemma SameLength(s: seq<nat>, t: seq<nat>)
    requires multiset(s) == multiset(t)
    ensures |s| == |t|
    ensures s != [] ==> s[|s| - 1] in multiset(t) && t[|t| - 1] in multiset(s)
  {
  }

  lemma FrontOrdered(rows: seq<nat>, price: map<nat, int>, descending: bool, s: seq<nat>)
    requires s != [] && Priced(s, price) && Ordered(rows, price, descending, s)
    ensures Priced(s[..|s| - 1], price) && Ordered(rows, price, descending, s[..|s| - 1])
  {
  }

  /** Equal ends leave equal fronts to compare. */
  lemma FrontsMatch(rows: seq<nat>, price: map<nat, int>, descending: bool, s: seq<nat>, t: seq<nat>)
    requires Distinct(rows) && Priced(s, price) && Priced(t, price) && multiset(s) == multiset(t)
    requires Ordered(rows, price, descending, s) && Ordered(rows, price, descending, t) && s != []
    ensures |s| == |t| && s[|s| - 1] == t[|t| - 1]
    ensures multiset(s[..|s| - 1]) == multiset(t[..|t| - 1])
  {
    SameLength(s, t);
    SameLast(rows, price, descending, s, t);
    DropLast(s);
    DropLast(t);
  }

  lemma SameBySplit(s: seq<nat>, t: seq<nat>)
    requires |s| == |t| && (s != [] ==> s[..|s| - 1] == t[..|t| - 1] && s[|s| - 1] == t[|t| - 1])
    ensures s == t
  {
    if s != [] {
      assert s == s[..|s| - 1] + [s[|s| - 1]] && t == t[..|t| - 1] + [t[|t| - 1]];
    }
  }

  /** Two answers sorted with the same prices agree row by row: there is one stable sort. */
  lemma {:induction false} StableSortUnique(
    rows: seq<nat>, price: map<nat, int>, descending: bool, s: seq<nat>, t: seq<nat>)
    requires Distinct(rows) && Priced(s, price) && Priced(t, price) && multiset(s) == multiset(t)
    requires Ordered(rows, price, descending, s) && Ordered(rows, price, descending, t)
    ensures s == t
    decreases |s|
  {
    SameLength(s, t);
    if s != [] {
      FrontsMatch(rows, price, descending, s, t);
      FrontOrdered(rows, price, descending, s);
      FrontOrdered(rows, price, descending, t);
      StableSortUnique(rows, price, descending, s[..|s| - 1], t[..|t| - 1]);
      SameBySplit(s, t);
    }
  }

  // ---------- pages ----------

  function Min(a: nat, b: nat): nat {
    if a < b then a else b
  }

  /** Array slice: bounds beyond the end are cut off. */
  function Slice<T>(s: seq<T>, from: nat, to: nat): seq<T>
    requires from <= to
  {
    s[Min(from, |s|)..Min(to, |s|)]
  }

  function Page<T>(s: seq<T>, page: nat, pageSize: nat): seq<T>
    requires page >= 1
  {
    var offset := (page - 1) * pageSize;
    Slice(s, offset, offset + pageSize)
  }

  /** Zero for nothing, else the quotient rounded up. */
  function TotalPages(totalItems: nat, pageSize: nat): nat
    requires pageSize >= 1
  {
    if totalItems == 0 then 0 else (totalItems + pageSize - 1) / pageSize
  }

  /** Pages 1 to n, one after the other. */
  function Pages<T>(s: seq<T>, pageSize: nat, n: nat): seq<T> {
    if n == 0 then [] else Pages(s, pageSize, n - 1) + Page(s, n, pageSize)
  }

  lemma {:induction false} PagesArePrefix<T>(s: seq<T>, pageSize: nat, n: nat)
    ensures Pages(s, pageSize, n) == s[..Min(n * pageSize, |s|)]
  {
    if n > 0 {
      PagesArePrefix(s, pageSize, n - 1);
      assert n * pageSize == (n - 1) * pageSize + pageSize;
    }
  }

  lemma TotalPagesBounds(totalItems: nat, pageSize: nat)
    requires pageSize >= 1
    ensures totalItems <= TotalPages(totalItems, pageSize) * pageSize
    ensures totalItems > 0 ==> (TotalPages(totalItems, pageSize) - 1) * pageSize < totalItems
  {
    if totalItems > 0 {
      var n := totalItems + pageSize - 1;
      assert n == (n / pageSize) * pageSize + n % pageSize;
      assert (n / pageSize - 1) * pageSize == (n / pageSize) * pageSize - pageSize;
    }
  }

  lemma TimesGrows(a: nat, b: nat, c: nat)
    requires a <= b
    ensures a * c <= b * c
  {
  }

  /** The pages put together are the whole list, every page before the last is full, the last has a row, and later pages
      are empty. */
  lemma PagesCover<T>(s: seq<T>, pageSize: nat)
    requires pageSize >= 1
    ensures Pages(s, pageSize, TotalPages(|s|, pageSize)) == s
    ensures forall p :: 1 <= p <= TotalPages(|s|, pageSize) ==> Page(s, p, pageSize) != []
    ensures forall p :: 1 <= p < TotalPages(|s|, pageSize) ==> |Page(s, p, pageSize)| == pageSize
    ensures forall p :: p > TotalPages(|s|, pageSize) ==> Page(s, p, pageSize) == []
  {
    var last := TotalPages(|s|, pageSize);
    PagesArePrefix(s, pageSize, last);
    TotalPagesBounds(|s|, pageSize);
    forall p | p > last ensures Page(s, p, pageSize) == [] {
      TimesGrows(last, p - 1, pageSize);
    }
    forall p | 1 <= p < last ensures |Page(s, p, pageSize)| == pageSize {
      TimesGrows(p, last - 1, pageSize);
      assert p * pageSize == (p - 1) * pageSize + pageSize;
    }
    forall p | 1 <= p <= last ensures Page(s, p, pageSize) != [] {
      TimesGrows(p - 1, last - 1, pageSize);
    }
  }
}
