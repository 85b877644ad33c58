/**
 Keyset pagination (crates/server/src/pagination.rs) over the ordered index scans
 (crates/server/src/storage/index/sqlite_index.rs): a page is the next rows after a key.
 */
module Paging {
  import opened Basics

  const DEFAULT_LIMIT: nat := 100
  const MAX_LIMIT: nat := 1000

  function ClampLimit(limit: Option<nat>): (r: nat)
    ensures limit.None? ==> r == 100
    ensures limit == Some(0) ==> r == 1
    ensures limit.Some? && 1 <= limit.value <= 1000 ==> r == limit.value
    ensures limit.Some? && limit.value > 1000 ==> r == 1000
  {
    var l := match limit case None => DEFAULT_LIMIT case Some(n) => n;
    if l < 1 then 1 else if l > MAX_LIMIT then MAX_LIMIT else l
  }

  /** One page of rows plus the key to continue after, absent on the last page. */
  datatype Page<T> = Page(items: seq<T>, next: Option<Hash>)

  // The query behind `rows` asked for one row more than `limit`.
  method FromOverfetched<T>(rows: seq<T>, limit: nat, keyOf: T -> Hash) returns (page: Page<T>)
    requires limit >= 1
    ensures page == PageOf(rows, limit, keyOf)
    ensures page.items == rows[..Min(limit, |rows|)]
    ensures page.next == if |rows| > limit then Some(keyOf(rows[limit - 1])) else None
  {
    var kept := rows;
    var hasMore := |kept| > limit;
    if hasMore {
      kept := kept[..limit];
    }
    var next: Option<Hash> := None;
    if hasMore && kept != [] {
      next := Some(keyOf(kept[|kept| - 1]));
    }
    page := Page(kept, next);
  }

  function PageOf<T>(rows: seq<T>, limit: nat, keyOf: T -> Hash): Page<T>
    requires limit >= 1
  {
    if |rows| > limit then Page(rows[..limit], Some(keyOf(rows[limit - 1]))) else Page(rows, None)
  }

  // ---- the ordered scan ----

  ghost predicate Ascending(s: seq<Hash>) {
    forall i, j :: 0 <= i < j < |s| ==> s[i] < s[j]
  }

  ghost predicate IsLeast(keys: set<Hash>, m: Hash) {
    m in keys && forall k :: k in keys ==> m <= k
  }

  lemma {:induction false} HasLeast(keys: set<Hash>)
    requires keys != {}
    ensures exists m :: IsLeast(keys, m)
  {
    var k := Pick(keys);
    var rest := keys - {k};
    if rest == {} {
      assert forall j :: j in keys ==> j in rest || j == k;
      assert IsLeast(keys, k);
    } else {
      HasLeast(rest);
      var m :| IsLeast(rest, m);
      assert forall j :: j in keys ==> j in rest || j == k;
      assert IsLeast(keys, if k < m then k else m);
    }
  }

  ghost function Least(keys: set<Hash>): (m: Hash)
    requires keys != {}
    ensures IsLeast(keys, m)
  {
    HasLeast(keys);
    var m :| IsLeast(keys, m);
    m
  }

  ghost function SortedKeys(keys: set<Hash>): (s: seq<Hash>)
    ensures Ascending(s) && (forall k :: k in s <==> k in keys) && |s| == |keys|
  {
    if keys == {} then [] else [Least(keys)] + SortedKeys(keys - {Least(keys)})
  }

  predicate Beyond(after: Option<Hash>, key: Hash) {
    after.None? || key > after.value
  }

  ghost function RowsBeyond(keys: set<Hash>, after: Option<Hash>): set<Hash> {
    set k | k in keys && Beyond(after, k)
  }

  // WHERE key > after ORDER BY key LIMIT limit
  ghost function Scan(keys: set<Hash>, after: Option<Hash>, limit: nat): seq<Hash> {
    var rows := SortedKeys(RowsBeyond(keys, after));
    rows[..Min(limit, |rows|)]
  }

  ghost function ListPage(keys: set<Hash>, after: Option<Hash>, limit: nat): Page<Hash>
    requires limit >= 1
  {
    PageOf(Scan(keys, after, limit + 1), limit, (k: Hash) => k)
  }

  lemma {:induction false} PageIsPrefix(keys: set<Hash>, after: Option<Hash>, limit: nat)
    requires limit >= 1
    ensures var rows, page := SortedKeys(RowsBeyond(keys, after)), ListPage(keys, after, limit);
      && page.items == rows[..Min(limit, |rows|)]
      && (page.next.None? <==> |rows| <= limit)
      && (page.next.Some? ==> page.next.value == rows[limit - 1])
  {
    hide SortedKeys, RowsBeyond;
  }

  lemma {:induction false} RowsAre(keys: set<Hash>, after: Option<Hash>, k: Hash)
    ensures k in SortedKeys(RowsBeyond(keys, after)) <==> k in keys && Beyond(after, k)
  {
  }

  lemma {:induction false} AscendsAt(rows: seq<Hash>, i: nat, j: nat)
    requires Ascending(rows) && i < |rows| && j < |rows|
    ensures i < j ==> rows[i] < rows[j]
  {
  }

  // The first n of ascending rows are those up to the n-th.
  lemma {:induction false} PrefixHolds(rows: seq<Hash>, n: nat, k: Hash)
    requires Ascending(rows) && 0 < n <= |rows|
    ensures k in rows[..n] <==> k in rows && k <= rows[n - 1]
  {
    if k in rows[..n] {
      var i :| 0 <= i < n && rows[..n][i] == k;
      assert rows[i] == k && (i < n - 1 ==> rows[i] < rows[n - 1]);
    }
    if k in rows && k <= rows[n - 1] {
      var i :| 0 <= i < |rows| && rows[i] == k;
      AscendsAt(rows, n - 1, i);
      assert rows[..n][i] == k;
    }
  }

  // What a page holds: the first rows beyond the cursor, all of them on the last page.
  lemma {:induction false} PageHolds(keys: set<Hash>, after: Option<Hash>, limit: nat)
    requires limit >= 1
    ensures var page := ListPage(keys, after, limit);
      && Ascending(page.items)
      && (forall k :: k in page.items ==> k in keys && Beyond(after, k))
      && (page.next.None? ==> forall k :: k in keys && Beyond(after, k) ==> k in page.items)
      && (page.next.Some? ==>
            && |page.items| == limit && page.next.value == page.items[limit - 1]
            && forall k :: k in keys && Beyond(after, k) && k <= page.next.value ==> k in page.items)
  {
    hide ListPage, RowsBeyond, Beyond;
    PageIsPrefix(keys, after, limit);
    var rows, page := SortedKeys(RowsBeyond(keys, after)), ListPage(keys, after, limit);
    assert page.next.None? ==> page.items == rows;
    forall k
      ensures k in page.items ==> k in keys && Beyond(after, k)
      ensures k in keys && Beyond(after, k) && (page.next.Some? ==> k <= page.next.value) ==> k in page.items
    {
      RowsAre(keys, after, k);
      if page.next.Some? {
        PrefixHolds(rows, limit, k);
      }
    }
  }

  // ---- walking the pages ----

  /** One page request: the table as it stands at that moment, and the limit asked for. */
  datatype Request = Request(keys: set<Hash>, limit: Option<nat>)

  datatype Walked = Walked(items: seq<Hash>, finished: bool)

  // Follow cursors, one request per page, until a page has no next cursor.
  ghost function WalkPages(requests: seq<Request>, after: Option<Hash>): Walked {
    if requests == [] then Walked([], false)
    else
      var page := ListPage(requests[0].keys, after, ClampLimit(requests[0].limit));
      if page.next.None? then Walked(page.items, true)
      else
        var rest := WalkPages(requests[1..], page.next);
        Walked(page.items + rest.items, rest.finished)
  }

  // However the table changes between pages, keys come out strictly ascending: none twice.
  lemma {:induction false} WalkAscends(requests: seq<Request>, after: Option<Hash>)
    ensures Ascending(WalkPages(requests, after).items)
    ensures forall k :: k in WalkPages(requests, after).items ==> Beyond(after, k)
  {
    if requests != [] {
      PageHolds(requests[0].keys, after, ClampLimit(requests[0].limit));
      var page := ListPage(requests[0].keys, after, ClampLimit(requests[0].limit));
      if page.next.Some? {
        WalkAscends(requests[1..], page.next);
        var rest := WalkPages(requests[1..], page.next).items;
        AscendingJoin(page.items, rest, page.next.value);
        forall k | k in page.items + rest ensures Beyond(after, k) {
          if k in rest {
            assert page.next.value in page.items;
          }
        }
      }
    }
  }

  lemma {:induction false} AscendingJoin(a: seq<Hash>, b: seq<Hash>, last: Hash)
    requires Ascending(a) && Ascending(b) && a != [] && a[|a| - 1] == last
    requires forall k :: k in b ==> k > last
    ensures Ascending(a + b)
  {
    var all := a + b;
    forall i, j | 0 <= i < j < |all| ensures all[i] < all[j] {
      if i < |a| <= j {
        assert b[j - |a|] in b;
      }
    }
  }

  // A row present throughout a finished walk appears in it (and, ascending, exactly once).
  lemma {:induction false} WalkFindsStableRows(requests: seq<Request>, after: Option<Hash>, key: Hash)
    requires WalkPages(requests, after).finished
    requires Beyond(after, key) && forall i :: 0 <= i < |requests| ==> key in requests[i].keys
    ensures key in WalkPages(requests, after).items
  {
    PageHolds(requests[0].keys, after, ClampLimit(requests[0].limit));
    var page := ListPage(requests[0].keys, after, ClampLimit(requests[0].limit));
    if page.next.Some? && key > page.next.value {
      WalkFindsStableRows(requests[1..], page.next, key);
    }
  }

  lemma {:induction false} AscendingIsUnique(a: seq<Hash>, b: seq<Hash>)
    requires Ascending(a) && Ascending(b)
    requires forall k :: k in a <==> k in b
    ensures a == b
  {
    if a != [] {
      assert a[0] in a && a[0] in b;
    }
    if b != [] {
      assert b[0] in b && b[0] in a;
    }
    if a != [] && b != [] {
      var i :| 0 <= i < |b| && b[i] == a[0];
      var j :| 0 <= j < |a| && a[j] == b[0];
      assert a[0] == b[0];
      forall k ensures k in a[1..] <==> k in b[1..] {
        InTail(a, k);
        InTail(b, k);
      }
      AscendingIsUnique(a[1..], b[1..]);
      assert a == [a[0]] + a[1..] && b == [b[0]] + b[1..];
    }
  }

  lemma {:induction false} InTail(a: seq<Hash>, k: Hash)
    requires Ascending(a) && a != []
    ensures k in a[1..] <==> k in a && k != a[0]
  {
    if k in a[1..] {
      var i :| 0 <= i < |a[1..]| && a[1..][i] == k;
      assert a[i + 1] == k;
    }
    if k in a && k != a[0] {
      var i :| 0 <= i < |a| && a[i] == k;
      assert a[1..][i - 1] == k;
    }
  }

  // Over a fixed table a finished walk is the whole sorted table beyond the start, and the
  // walk finishes as soon as there are more requests than rows.
  lemma {:induction false} FixedTableWalk(requests: seq<Request>, keys: set<Hash>, after: Option<Hash>)
    requires forall i :: 0 <= i < |requests| ==> requests[i].keys == keys
    ensures WalkPages(requests, after).finished ==>
      WalkPages(requests, after).items == SortedKeys(RowsBeyond(keys, after))
    ensures |requests| > |RowsBeyond(keys, after)| ==> WalkPages(requests, after).finished
  {
    var walked := WalkPages(requests, after);
    if walked.finished {
      WalkAscends(requests, after);
      WalkStaysInTable(requests, keys, after);
      forall k ensures k in walked.items <==> k in SortedKeys(RowsBeyond(keys, after)) {
        if k in RowsBeyond(keys, after) {
          WalkFindsStableRows(requests, after, k);
        }
      }
      AscendingIsUnique(walked.items, SortedKeys(RowsBeyond(keys, after)));
    }
    if |requests| > |RowsBeyond(keys, after)| {
      WalkFinishes(requests, keys, after);
    }
  }

  lemma {:induction false} WalkStaysInTable(requests: seq<Request>, keys: set<Hash>, after: Option<Hash>)
    requires forall i :: 0 <= i < |requests| ==> requests[i].keys == keys
    ensures forall k :: k in WalkPages(requests, after).items ==> k in keys
  {
    if requests != [] {
      PageHolds(requests[0].keys, after, ClampLimit(requests[0].limit));
      var page := ListPage(requests[0].keys, after, ClampLimit(requests[0].limit));
      if page.next.Some? {
        WalkStaysInTable(requests[1..], keys, page.next);
      }
    }
  }

  lemma {:induction false} WalkFinishes(requests: seq<Request>, keys: set<Hash>, after: Option<Hash>)
    requires forall i :: 0 <= i < |requests| ==> requests[i].keys == keys
    requires |requests| > |RowsBeyond(keys, after)|
    ensures WalkPages(requests, after).finished
  {
    PageHolds(keys, after, ClampLimit(requests[0].limit));
    var page := ListPage(keys, after, ClampLimit(requests[0].limit));
    if page.next.Some? {
      var last := page.next.value;
      assert last in page.items;
      var here, there := RowsBeyond(keys, after), RowsBeyond(keys, page.next);
      assert there <= here - {last};
      SubsetCount(there, here - {last});
      WalkFinishes(requests[1..], keys, page.next);
    }
  }

  lemma {:induction false} SubsetCount<T>(a: set<T>, b: set<T>)
    requires a <= b
    ensures |a| <= |b|
  {
    if a != {} {
      var e :| e in a;
      SubsetCount(a - {e}, b - {e});
    }
  }
}
