/**
 * The two queries the ledger runs on its table, as functions on the table's
 * contents: `ORDER BY fecha DESC, id DESC` (app.py:69) and
 * `DELETE FROM ventas WHERE id = %s` (app.py:82).
 */
module Listing {
  import opened Records

  /** `a` is listed before `b`: a later date, or the same date and a larger id. */
  predicate Precedes(a: Sale, b: Sale)
  {
    Later(a.date, b.date) || (a.date == b.date && a.id > b.id)
  }

  /** Rows strictly in listing order: newer date first, larger id first within a date. */
  predicate InListingOrder(rows: seq<Row>)
  {
    forall i, j :: 0 <= i < j < |rows| ==> Precedes(rows[i].sale, rows[j].sale)
  }

  /** No element is ever listed before an element to its left. */
  predicate Sorted(s: seq<Sale>)
  {
    forall i, j :: 0 <= i < j < |s| ==> !Precedes(s[j], s[i])
  }

  /** Ids are pairwise distinct by position (the table's primary key). */
  predicate UniqueIds(s: seq<Sale>)
  {
    forall i, j :: 0 <= i < |s| && 0 <= j < |s| && i != j ==> s[i].id != s[j].id
  }

  /** Two records present with the same id are the same record. */
  predicate IdsDetermine(s: seq<Sale>)
  {
    forall x, y :: x in s && y in s && x.id == y.id ==> x == y
  }

  /** `r` is `s` with some elements dropped and the rest in their original order. */
  predicate IsSubsequence(r: seq<Sale>, s: seq<Sale>)
    decreases |s|
  {
    if r == [] then true
    else if s == [] then false
    else if r[0] == s[0] then IsSubsequence(r[1..], s[1..])
    else IsSubsequence(r, s[1..])
  }

  lemma UniqueIdsDetermine(s: seq<Sale>)
    requires UniqueIds(s)
    ensures IdsDetermine(s)
  {
    forall x, y | x in s && y in s && x.id == y.id
      ensures x == y
    {
      var i :| 0 <= i < |s| && s[i] == x;
      var j :| 0 <= j < |s| && s[j] == y;
      assert i == j;
    }
  }

  lemma IdsDetermineSub(t: seq<Sale>, s: seq<Sale>)
    requires IdsDetermine(s)
    requires forall x :: x in t ==> x in s
    ensures IdsDetermine(t)
  {
  }

  /** Places `x` in front of the first element it is listed before. */
  function Insert(x: Sale, s: seq<Sale>): (r: seq<Sale>)
    ensures multiset(r) == multiset(s) + multiset{x}
  {
    if s == [] || Precedes(x, s[0]) then
      [x] + s
    else
      assert s == [s[0]] + s[1..];
      [s[0]] + Insert(x, s[1..])
  }

  lemma {:induction false} InsertSorted(x: Sale, s: seq<Sale>)
    requires Sorted(s)
    ensures Sorted(Insert(x, s))
  {
    if s != [] && !Precedes(x, s[0]) {
      var t := Insert(x, s[1..]);
      InsertSorted(x, s[1..]);
      forall y | y in t ensures !Precedes(y, s[0]) {
        assert y in multiset(t);
        if y != x {
          assert y in multiset(s[1..]);
          var k :| 0 <= k < |s[1..]| && s[1..][k] == y;
          assert s[k + 1] == y;
        }
      }
      assert Insert(x, s) == [s[0]] + t;
    }
  }

  /** The table in listing order: `ORDER BY fecha DESC, id DESC` (app.py:69). */
  function SortListing(s: seq<Sale>): (r: seq<Sale>)
    ensures multiset(r) == multiset(s)
    ensures |r| == |s|
    ensures Sorted(r)
  {
    if s == [] then []
    else
      assert s == [s[0]] + s[1..];
      InsertSorted(s[0], SortListing(s[1..]));
      Insert(s[0], SortListing(s[1..]))
  }

  /** Two sorted sequences holding the same records, no two of which share an id, are equal. */
  lemma {:induction false} SortedUnique(a: seq<Sale>, b: seq<Sale>)
    requires Sorted(a) && Sorted(b)
    requires multiset(a) == multiset(b)
    requires IdsDetermine(a)
    ensures a == b
  {
    if a == [] {
      assert |b| == |multiset(b)| == 0;
    } else {
      assert |b| == |multiset(b)| == |multiset(a)| == |a|;
      SortedHeads(a, b);
      TailMultiset(a);
      TailMultiset(b);
      IdsDetermineSub(a[1..], a);
      SortedUnique(a[1..], b[1..]);
    }
  }

  /** Both heads are listed no later than every record, and distinct records differ in id. */
  lemma SortedHeads(a: seq<Sale>, b: seq<Sale>)
    requires Sorted(a) && Sorted(b) && |a| > 0 && |b| > 0
    requires multiset(a) == multiset(b)
    requires IdsDetermine(a)
    ensures a[0] == b[0]
  {
    assert a[0] in multiset(b) && b[0] in multiset(a);
  }

  lemma TailMultiset(s: seq<Sale>)
    requires |s| > 0
    ensures multiset(s[1..]) == multiset(s) - multiset{s[0]}
  {
    assert s == [s[0]] + s[1..];
  }

  /** The listing depends only on the table's contents, not on the order rows were inserted. */
  lemma ListingIgnoresInsertionOrder(s1: seq<Sale>, s2: seq<Sale>)
    requires multiset(s1) == multiset(s2)
    requires IdsDetermine(s1)
    ensures SortListing(s1) == SortListing(s2)
  {
    var a, b := SortListing(s1), SortListing(s2);
    forall x | x in a ensures x in s1 {
      assert x in multiset(a);
    }
    IdsDetermineSub(a, s1);
    SortedUnique(a, b);
  }

  /** With the table's primary key the listing is strictly ordered: date descending,
      and id descending within one date. */
  lemma ListingOrder(s: seq<Sale>)
    requires UniqueIds(s)
    ensures InListingOrder(ListingOf(s))
    ensures forall i, j :: 0 <= i < j < |s| ==>
      ListingOf(s)[i].sale.date == ListingOf(s)[j].sale.date || Later(ListingOf(s)[i].sale.date, ListingOf(s)[j].sale.date)
    ensures forall i, j :: 0 <= i < j < |s| && ListingOf(s)[i].sale.date == ListingOf(s)[j].sale.date ==>
      ListingOf(s)[i].sale.id > ListingOf(s)[j].sale.id
  {
    var r := SortListing(s);
    var rows := ListingOf(s);
    UniqueIdsDetermine(s);
    forall i, j | 0 <= i < j < |r| ensures Precedes(r[i], r[j]) {
      assert r[i] in multiset(r) && r[j] in multiset(r);
      assert r[i] in s && r[j] in s;
      if r[i] == r[j] {
        DuplicateImpliesCount(r, i, j);
        CountImpliesDuplicate(s, r[i]);
        assert false;
      }
      assert r[i].id != r[j].id;
      assert !Precedes(r[j], r[i]);
    }
    assert forall i :: 0 <= i < |rows| ==> rows[i].sale == r[i];
  }

  lemma DuplicateImpliesCount(r: seq<Sale>, i: int, j: int)
    requires 0 <= i < j < |r| && r[i] == r[j]
    ensures multiset(r)[r[i]] >= 2
  {
    assert r == r[..j] + r[j..];
    assert r[i] in r[..j];
    assert r[j] == r[j..][0];
    assert multiset(r) == multiset(r[..j]) + multiset(r[j..]);
  }

  lemma {:induction false} CountImpliesDuplicate(s: seq<Sale>, x: Sale)
    requires multiset(s)[x] >= 2
    ensures !UniqueIds(s)
  {
    assert s == [s[0]] + s[1..];
    if s[0] == x {
      assert multiset(s[1..])[x] >= 1;
      var j :| 0 <= j < |s[1..]| && s[1..][j] == x;
      assert s[0] == x && s[j + 1] == x;
    } else {
      CountImpliesDuplicate(s[1..], x);
      var i, j :| 0 <= i < |s[1..]| && 0 <= j < |s[1..]| && i != j && s[1..][i].id == s[1..][j].id;
      assert s[i + 1].id == s[j + 1].id;
    }
  }

  /** The table after `DELETE FROM ventas WHERE id = id` (app.py:82). */
  function RemoveId(s: seq<Sale>, id: int): (r: seq<Sale>)
    ensures forall x :: multiset(r)[x] == if x.id == id then 0 else multiset(s)[x]
  {
    if s == [] then []
    else
      assert s == [s[0]] + s[1..];
      (if s[0].id == id then [] else [s[0]]) + RemoveId(s[1..], id)
  }

  /** Exactly the records carrying `id` are gone; every other record stays. */
  lemma RemoveIdMembers(s: seq<Sale>, id: int)
    ensures forall x :: x in RemoveId(s, id) <==> x in s && x.id != id
  {
    forall x ensures x in RemoveId(s, id) <==> x in s && x.id != id {
      assert x in RemoveId(s, id) <==> x in multiset(RemoveId(s, id));
      assert x in s <==> x in multiset(s);
    }
  }

  /** Deleting an id that is absent leaves the table as it was. */
  lemma {:induction false} RemoveAbsentId(s: seq<Sale>, id: int)
    requires forall i :: 0 <= i < |s| ==> s[i].id != id
    ensures RemoveId(s, id) == s
  {
    if s != [] {
      RemoveAbsentId(s[1..], id);
      assert s == [s[0]] + s[1..];
    }
  }

  /** The records that stay keep their relative order. */
  lemma {:induction false} RemoveIdSubsequence(s: seq<Sale>, id: int)
    ensures IsSubsequence(RemoveId(s, id), s)
  {
    if s != [] {
      var t := RemoveId(s[1..], id);
      RemoveIdSubsequence(s[1..], id);
      if s[0].id == id {
        RemoveIdMembers(s[1..], id);
        assert t == [] || t[0] != s[0] by {
          if t != [] { assert t[0] in t; }
        }
        assert RemoveId(s, id) == t;
      } else {
        assert RemoveId(s, id) == [s[0]] + t;
        assert ([s[0]] + t)[1..] == t;
      }
    }
  }

  /** A record listed no later than every record of a sorted sequence can head it. */
  lemma SortedCons(x: Sale, t: seq<Sale>)
    requires Sorted(t)
    requires forall y :: y in t ==> !Precedes(y, x)
    ensures Sorted([x] + t)
  {
    var r := [x] + t;
    forall i, j | 0 <= i < j < |r| ensures !Precedes(r[j], r[i]) {
      assert r[j] == t[j - 1];
      if i > 0 {
        assert r[i] == t[i - 1];
      }
    }
  }

  /** A record whose id no record of `t` carries can head `t` without repeating an id. */
  lemma UniqueCons(x: Sale, t: seq<Sale>)
    requires UniqueIds(t)
    requires forall y :: y in t ==> y.id != x.id
    ensures UniqueIds([x] + t)
  {
    var r := [x] + t;
    forall i, j | 0 <= i < |r| && 0 <= j < |r| && i != j
      ensures r[i].id != r[j].id
    {
      if i > 0 && j > 0 {
        assert r[i] == t[i - 1] && r[j] == t[j - 1];
      } else if i == 0 {
        assert r[j] == t[j - 1];
      } else {
        assert r[i] == t[i - 1];
      }
    }
  }

  /** Deleting from a sorted listing leaves it sorted. */
  lemma {:induction false} RemoveIdSorted(s: seq<Sale>, id: int)
    requires Sorted(s)
    ensures Sorted(RemoveId(s, id))
  {
    if s != [] {
      var tail := s[1..];
      assert Sorted(tail) by {
        forall i, j | 0 <= i < j < |tail| ensures !Precedes(tail[j], tail[i]) {
          assert tail[i] == s[i + 1] && tail[j] == s[j + 1];
        }
      }
      var t := RemoveId(tail, id);
      RemoveIdSorted(tail, id);
      if s[0].id != id {
        RemoveIdMembers(tail, id);
        forall y | y in t ensures !Precedes(y, s[0]) {
          var k :| 0 <= k < |tail| && tail[k] == y;
          assert s[k + 1] == y;
        }
        SortedCons(s[0], t);
        assert RemoveId(s, id) == [s[0]] + t;
      } else {
        assert RemoveId(s, id) == t;
      }
    }
  }

  /** Deleting keeps ids unique. */
  lemma {:induction false} RemoveIdUnique(s: seq<Sale>, id: int)
    requires UniqueIds(s)
    ensures UniqueIds(RemoveId(s, id))
  {
    if s != [] {
      var tail := s[1..];
      assert UniqueIds(tail) by {
        forall i, j | 0 <= i < |tail| && 0 <= j < |tail| && i != j ensures tail[i].id != tail[j].id {
          assert tail[i] == s[i + 1] && tail[j] == s[j + 1];
        }
      }
      var t := RemoveId(tail, id);
      RemoveIdUnique(tail, id);
      if s[0].id != id {
        RemoveIdMembers(tail, id);
        forall y | y in t ensures y.id != s[0].id {
          var k :| 0 <= k < |tail| && tail[k] == y;
          assert s[k + 1] == y;
        }
        UniqueCons(s[0], t);
        assert RemoveId(s, id) == [s[0]] + t;
      } else {
        assert RemoveId(s, id) == t;
      }
    }
  }

  lemma RemoveIdSameContents(s1: seq<Sale>, s2: seq<Sale>, id: int)
    requires multiset(s1) == multiset(s2)
    ensures multiset(RemoveId(s1, id)) == multiset(RemoveId(s2, id))
  {
    forall x ensures multiset(RemoveId(s1, id))[x] == multiset(RemoveId(s2, id))[x] {
    }
  }

  /** Deleting an id changes the listing by exactly that deletion: every other
      record keeps its place relative to the rest (app.py:69, app.py:82). */
  lemma DeleteKeepsListingOrder(s: seq<Sale>, id: int)
    requires IdsDetermine(s)
    ensures SortListing(RemoveId(s, id)) == RemoveId(SortListing(s), id)
  {
    var a := SortListing(RemoveId(s, id));
    var b := RemoveId(SortListing(s), id);
    RemoveIdSameContents(s, SortListing(s), id);
    RemoveIdMembers(s, id);
    forall x | x in a ensures x in s {
      assert x in multiset(a);
      assert x in RemoveId(s, id);
    }
    IdsDetermineSub(a, s);
    RemoveIdSorted(SortListing(s), id);
    SortedUnique(a, b);
  }

  /** The rows `obtener_ventas_df` returns: the table in listing order with the
      derived columns attached (app.py:69-73). */
  function ListingOf(s: seq<Sale>): (rows: seq<Row>)
    ensures |rows| == |s|
    ensures forall i :: 0 <= i < |rows| ==> rows[i].sale == SortListing(s)[i] && Derived(rows[i])
  {
    var sorted := SortListing(s);
    seq(|sorted|, i requires 0 <= i < |sorted| => Project(sorted[i]))
  }
}
