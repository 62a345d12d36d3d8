/** Keyset pagination over case identifiers refines the sorted list, even while cases come and go. */
module CataloguePages {
  import opened Registry
  import opened Strings

  // ---------------------------------------------------------------- the order of identifiers

  ghost predicate Ascending(s: seq<string>) { forall i, j :: 0 <= i < j < |s| ==> StringLess(s[i], s[j]) }

  lemma AscendingIsDistinct(s: seq<string>)
    requires Ascending(s)
    ensures Distinct(s)
  {
    forall i, j | 0 <= i < j < |s| ensures s[i] != s[j] { Irreflexive(s[i]); }
  }

  // ---------------------------------------------------------------- the query

  predicate Precedes(after: Option<string>, id: string) { after.None? || StringLess(after.value, id) }

  /** The matching cases past the cursor. */
  function Past(ids: set<string>, after: Option<string>): set<string> { set id | id in ids && Precedes(after, id) }

  /** The first identifier of a set, by repeated comparison. */
  ghost predicate First(ids: set<string>, id: string) {
    id in ids && forall d :: d in ids && d != id ==> StringLess(id, d)
  }

  lemma {:induction false} HasFirst(ids: set<string>) returns (id: string)
    requires ids != {}
    ensures First(ids, id)
  {
    var x :| x in ids;
    if ids == {x} { return x; }
    var rest := ids - {x};
    assert ids == rest + {x};
    var m := HasFirst(rest);
    Connected(x, m);
    if StringLess(x, m) {
      forall d | d in ids && d != x ensures StringLess(x, d) { if d != m { Transitive(x, m, d); } }
      return x;
    }
    return m;
  }

  /** ORDER BY case_id */
  ghost function Ordered(ids: set<string>): seq<string>
    decreases |ids|
  {
    if ids == {} then []
    else
      FirstExists(ids);
      var id :| First(ids, id);
      [id] + Ordered(ids - {id})
  }

  lemma FirstExists(ids: set<string>)
    requires ids != {}
    ensures exists id :: First(ids, id)
  {
    var id := HasFirst(ids);
  }

  lemma {:induction false} OrderedIs(ids: set<string>)
    ensures Ascending(Ordered(ids)) && |Ordered(ids)| == |ids|
    ensures forall id :: id in Ordered(ids) <==> id in ids
    decreases |ids|
  {
    if ids != {} {
      FirstExists(ids);
      var s := Ordered(ids);
      var id := s[0];
      assert First(ids, id);
      assert s[1..] == Ordered(ids - {id});
      OrderedIs(ids - {id});
      forall i, j | 0 <= i < j < |s| ensures StringLess(s[i], s[j]) {
        if i == 0 { assert s[j] == s[1..][j - 1] && s[j] in ids - {id}; }
        else { assert s[i] == s[1..][i - 1] && s[j] == s[1..][j - 1]; }
      }
      forall d ensures d in s <==> d in ids { assert d in s <==> d == s[0] || d in s[1..]; }
    }
  }

  lemma HasHead(s: seq<string>)
    ensures s == [] || exists id :: id in s
  {
    if s != [] { assert s[0] in s; }
  }

  /** The ascending listing of a set is unique. */
  lemma {:induction false} SameListing(a: seq<string>, b: seq<string>)
    requires Ascending(a) && Ascending(b) && forall id :: id in a <==> id in b
    ensures a == b
  {
    if a == [] {
      HasHead(b);
    } else {
      assert a[0] in b && (b != [] ==> b[0] in a);
      assert a[0] == b[0] by {
        var i :| 0 <= i < |b| && b[i] == a[0];
        var j :| 0 <= j < |a| && a[j] == b[0];
        if i > 0 && j > 0 {
          Transitive(a[0], b[0], a[0]);
          Irreflexive(a[0]);
        }
      }
      forall id ensures id in a[1..] <==> id in b[1..] { SameTail(a, b, id); }
      SameListing(a[1..], b[1..]);
      assert a == [a[0]] + a[1..] && b == [b[0]] + b[1..];
    }
  }

  lemma SameTail(a: seq<string>, b: seq<string>, id: string)
    requires Ascending(a) && Ascending(b) && a != [] && b != [] && a[0] == b[0]
    requires forall d :: d in a <==> d in b
    ensures id in a[1..] <==> id in b[1..]
  {
    InTail(a, id);
    InTail(b, id);
  }

  lemma InTail(a: seq<string>, id: string)
    requires Ascending(a) && a != []
    ensures id in a[1..] <==> id in a && id != a[0]
  {
    Irreflexive(a[0]);
    assert id in a <==> id == a[0] || id in a[1..];
    if id in a[1..] {
      var i :| 0 <= i < |a[1..]| && a[1..][i] == id;
      assert StringLess(a[0], a[i + 1]);
    }
  }

  // ---------------------------------------------------------------- pages

  datatype Page = Page(items: seq<string>, next: Option<string>)

  /** One request: `page_size` + 1 rows are fetched, and the extra one only says there is more. */
  ghost function Request(ids: set<string>, after: Option<string>, size: nat): Page
    requires size > 0
  {
    var all := Ordered(Past(ids, after));
    var fetched := if |all| > size + 1 then all[..size + 1] else all;
    var items := if |fetched| > size then fetched[..size] else fetched;
    Page(items, if |fetched| > size then Some(items[|items| - 1]) else None)
  }

  lemma RequestIs(ids: set<string>, after: Option<string>, size: nat)
    requires size > 0
    ensures var p := Request(ids, after, size);
      && Ascending(p.items) && |p.items| == (if |Past(ids, after)| < size then |Past(ids, after)| else size)
      && (forall i :: 0 <= i < |p.items| ==> p.items[i] in ids && Precedes(after, p.items[i]))
      && (p.next.Some? <==> |Past(ids, after)| > size)
      && (p.next.Some? ==> p.items != [] && p.next.value == p.items[|p.items| - 1])
  {
    OrderedIs(Past(ids, after));
    var all := Ordered(Past(ids, after));
    forall i | 0 <= i < |all| ensures all[i] in ids && Precedes(after, all[i]) { assert all[i] in all; }
  }

  /** What a page leaves out comes after its last row. */
  lemma RequestLeaves(ids: set<string>, after: Option<string>, size: nat, id: string)
    requires size > 0 && id in Past(ids, after)
    ensures var p := Request(ids, after, size);
      id in p.items || (p.next.Some? && StringLess(p.next.value, id))
  {
    var all, p := Ordered(Past(ids, after)), Request(ids, after, size);
    OrderedIs(Past(ids, after));
    assert id in all;
    var i :| 0 <= i < |all| && all[i] == id;
    if i < |p.items| { assert p.items[i] == id; }
  }

  /** Following `next_cursor`: `tables[k]` is what matches when the k-th request runs. */
  datatype Walk = Walk(items: seq<string>, requests: nat, complete: bool)

  ghost function Follow(tables: seq<set<string>>, after: Option<string>, size: nat): Walk
    requires size > 0
    decreases |tables|
  {
    if tables == [] then Walk([], 0, false)
    else
      var p := Request(tables[0], after, size);
      if p.next.None? then Walk(p.items, 1, true)
      else
        var rest := Follow(tables[1..], p.next, size);
        Walk(p.items + rest.items, rest.requests + 1, rest.complete)
  }

  lemma AscendingJoin(a: seq<string>, b: seq<string>, mid: string)
    requires Ascending(a) && Ascending(b) && a != [] && a[|a| - 1] == mid
    requires forall i :: 0 <= i < |b| ==> StringLess(mid, b[i])
    ensures Ascending(a + b)
  {
    var s := a + b;
    forall i, j | 0 <= i < j < |s| ensures StringLess(s[i], s[j]) {
      if i < |a| <= j && i < |a| - 1 {
        assert StringLess(a[i], mid);
        Transitive(a[i], mid, b[j - |a|]);
      }
    }
  }

  /** Nothing is listed twice, whatever changes between requests; and a walk that reached its end
      has listed every case that matched at every request. */
  lemma {:induction false} WalkListsWhatStays(tables: seq<set<string>>, after: Option<string>, size: nat, stays: string)
    requires size > 0
    ensures var w := Follow(tables, after, size);
      && Ascending(w.items)
      && (forall i :: 0 <= i < |w.items| ==>
            Precedes(after, w.items[i]) && exists k :: 0 <= k < |tables| && w.items[i] in tables[k])
      && (w.complete && Precedes(after, stays) && (forall k :: 0 <= k < |tables| ==> stays in tables[k]) ==>
            stays in w.items)
    decreases |tables|
  {
    if tables != [] {
      RequestIs(tables[0], after, size);
      var p := Request(tables[0], after, size);
      forall i | 0 <= i < |p.items| ensures exists k :: 0 <= k < |tables| && p.items[i] in tables[k] {
        assert p.items[i] in tables[0];
      }
      if p.next.Some? {
        var rest := Follow(tables[1..], p.next, size);
        WalkListsWhatStays(tables[1..], p.next, size, stays);
        AscendingJoin(p.items, rest.items, p.next.value);
        RestListed(tables, after, p.next.value, rest.items);
        if Precedes(after, stays) && stays in tables[0] && stays !in p.items {
          RequestLeaves(tables[0], after, size, stays);
        }
      } else {
        assert Follow(tables, after, size) == Walk(p.items, 1, true);
        if Precedes(after, stays) && stays in tables[0] { RequestLeaves(tables[0], after, size, stays); }
      }
    }
  }

  lemma RestListed(tables: seq<set<string>>, after: Option<string>, mid: string, items: seq<string>)
    requires tables != [] && Precedes(after, mid)
    requires forall i :: 0 <= i < |items| ==>
      StringLess(mid, items[i]) && exists k :: 0 <= k < |tables[1..]| && items[i] in tables[1..][k]
    ensures forall i :: 0 <= i < |items| ==>
      Precedes(after, items[i]) && exists k :: 0 <= k < |tables| && items[i] in tables[k]
  {
    forall i | 0 <= i < |items|
      ensures Precedes(after, items[i]) && exists k :: 0 <= k < |tables| && items[i] in tables[k]
    {
      var k :| 0 <= k < |tables[1..]| && items[i] in tables[1..][k];
      assert items[i] in tables[k + 1];
      if after.Some? { Transitive(after.value, mid, items[i]); }
    }
  }

  // ---------------------------------------------------------------- unchanged tables

  /** `pages` of the payload. */
  function Pages(total: nat, size: nat): nat
    requires size > 0
  {
    if total == 0 then 0 else (total + size - 1) / size
  }

  function Repeat(ids: set<string>, n: nat): seq<set<string>> { seq(n, _ => ids) }

  lemma PastNext(ids: set<string>, after: Option<string>, size: nat)
    requires size > 0 && Request(ids, after, size).next.Some?
    ensures |Past(ids, Request(ids, after, size).next)| == |Past(ids, after)| - size
  {
    RequestIs(ids, after, size);
    var p := Request(ids, after, size);
    var here := set id | id in p.items;
    assert Past(ids, after) == here + Past(ids, p.next) by {
      forall id | id in Past(ids, p.next) ensures id in Past(ids, after) {
        assert p.next.value in p.items;
        if after.Some? { Transitive(after.value, p.next.value, id); }
      }
      forall id | id in Past(ids, after) ensures id in here || id in Past(ids, p.next) {
        RequestLeaves(ids, after, size, id);
      }
    }
    assert here !! Past(ids, p.next) by {
      forall id | id in here ensures !StringLess(p.next.value, id) {
        var i :| 0 <= i < |p.items| && p.items[i] == id;
        Irreflexive(id);
        if StringLess(p.next.value, id) {
          if i < |p.items| - 1 { Transitive(id, p.next.value, id); }
        }
      }
    }
    AscendingIsDistinct(p.items);
    SetOf(p.items);
  }

  lemma {:induction false} RequestsNeeded(ids: set<string>, after: Option<string>, size: nat, n: nat)
    requires size > 0 && n >= Pages(|Past(ids, after)|, size) && n > 0
    ensures var w := Follow(Repeat(ids, n), after, size);
      w.complete && w.requests == if Past(ids, after) == {} then 1 else Pages(|Past(ids, after)|, size)
    decreases n
  {
    RequestIs(ids, after, size);
    var p := Request(ids, after, size);
    var left := |Past(ids, after)|;
    if p.next.Some? {
      PastNext(ids, after, size);
      MorePages(left, size);
      assert Repeat(ids, n)[1..] == Repeat(ids, n - 1);
      RequestsNeeded(ids, p.next, size, n - 1);
    } else if left > 0 {
      OnePage(left, size);
    }
  }

  lemma MorePages(left: nat, size: nat)
    requires left > size > 0
    ensures Pages(left, size) == Pages(left - size, size) + 1 && Pages(left - size, size) > 0
  {
    assert (left + size - 1) / size == (left - size + size - 1) / size + 1 by {
      DivAdds(left - 1, size);
    }
    assert (left - size + size - 1) / size >= 1 by { DivAdds(left - size - 1, size); }
  }

  lemma DivAdds(a: nat, size: nat)
    requires size > 0
    ensures (a + size) / size == a / size + 1
  {
    assert (a + size) == (a / size + 1) * size + a % size;
    DivIs(a + size, size, a / size + 1, a % size);
  }

  lemma DivIs(x: nat, size: nat, q: nat, r: nat)
    requires size > 0 && r < size && x == q * size + r
    ensures x / size == q
  {
    var d := x / size - q;
    assert size * d == r - x % size;
    MultipleIsFar(size, d);
  }

  lemma {:induction false} MultipleIsFar(size: nat, d: int)
    ensures d == 0 || size * d >= size || size * d + size <= 0
    decreases if d < 0 then -d else d
  {
    if d > 1 { MultipleIsFar(size, d - 1); }
    if d < -1 { MultipleIsFar(size, d + 1); }
  }

  lemma OnePage(left: nat, size: nat)
    requires 0 < left <= size
    ensures Pages(left, size) == 1
  {
    DivIs(left + size - 1, size, 1, left - 1);
  }

  /** Over unchanged tables, following the cursors from the first page lists exactly the matching
      cases in order, once each, `total` of them, and asks for exactly `pages` pages. */
  lemma WalkIsTheSortedList(ids: set<string>, size: nat, n: nat)
    requires size > 0 && n > 0 && n >= Pages(|ids|, size)
    ensures var w := Follow(Repeat(ids, n), None, size);
      && w.complete && w.items == Ordered(ids) && |w.items| == |ids|
      && w.requests == (if ids == {} then 1 else Pages(|ids|, size))
  {
    var tables := Repeat(ids, n);
    var w := Follow(tables, None, size);
    assert Past(ids, None) == ids;
    RequestsNeeded(ids, None, size, n);
    OrderedIs(ids);
    forall id ensures id in w.items <==> id in ids {
      WalkListsWhatStays(tables, None, size, id);
    }
    WalkListsWhatStays(tables, None, size, "");
    SameListing(w.items, Ordered(ids));
  }
}
