/** The case list as a client walks it: filters, views, totals, and cursors passed as text. */
module CatalogueList {
  import opened Registry
  import P = CataloguePages
  import C = CatalogueCursor
  import E = CatalogueEligibility

  /** The filters of one listing; absent and empty filters select everything. */
  datatype Query = Query(tenant: string, query: Option<string>, packageId: Option<string>, status: Option<string>,
                         view: string)

  /** `like(q, text)` is the case-insensitive match of the stripped and escaped query. */
  datatype Lib = Lib(like: (string, string) -> bool, cursors: C.Lib)

  predicate Asked(o: Option<string>) { o.Some? && o.value != "" }

  predicate Matches(t: Tables, q: Query, id: string, lib: Lib)
    requires id in t.cases
  {
    var c := t.cases[id];
    && (Asked(q.query) ==>
          lib.like(q.query.value, id) || lib.like(q.query.value, c.packageId) || lib.like(q.query.value, c.status))
    && (Asked(q.packageId) ==> c.packageId == q.packageId.value)
    && (Asked(q.status) ==> c.status == q.status.value)
    && (if q.view == "signed" then c.hasSignedPlan
        else if q.view == "blocked" then c.blocked
        else q.view == "quality" ==> E.SqlScore(t, c, E.Present(t.profiles, id)) < 70)
  }

  function Matching(t: Tables, q: Query, lib: Lib): set<string> { set id | id in t.cases && Matches(t, q, id, lib) }

  function ScopeOf(q: Query): C.Scope { C.ScopeOf(q.tenant, q.query, q.packageId, q.status, q.view) }

  datatype Listing = Listing(items: seq<string>, next: Option<string>, total: nat)

  /** Every case identifier fits its column. */
  predicate Named(t: Tables) { forall id :: id in t.cases ==> C.CaseName(id) }

  /** The route and `list_cases` in case order; without a cursor the first page is meant. */
  ghost function ListPage(t: Tables, q: Query, cursor: Option<string>, size: nat, lib: Lib): Result<Listing, C.Error>
    requires size > 0
  {
    var ids := Matching(t, q, lib);
    if cursor.None? then Ok(Paged(ids, None, q, size, lib))
    else
      match C.CursorCase(cursor.value, ScopeOf(q), lib.cursors)
      case Err(e) => Err(e)
      case Ok(after) => Ok(Paged(ids, Some(after), q, size, lib))
  }

  ghost function Paged(ids: set<string>, after: Option<string>, q: Query, size: nat, lib: Lib): Listing
    requires size > 0
  {
    var p := P.Request(ids, after, size);
    Listing(p.items, if p.next.Some? then Some(C.EncodeCursor(p.next.value, ScopeOf(q), lib.cursors)) else None, |ids|)
  }

  /** A client that follows the cursors it is given; `tables[k]` is what the k-th request finds. */
  ghost function Browse(tables: seq<Tables>, q: Query, cursor: Option<string>, size: nat, lib: Lib)
    : Result<P.Walk, C.Error>
    requires size > 0
    decreases |tables|
  {
    if tables == [] then Ok(P.Walk([], 0, false))
    else
      match ListPage(tables[0], q, cursor, size, lib)
      case Err(e) => Err(e)
      case Ok(page) =>
        if page.next.None? then Ok(P.Walk(page.items, 1, true))
        else
          match Browse(tables[1..], q, page.next, size, lib)
          case Err(e) => Err(e)
          case Ok(rest) => Ok(P.Walk(page.items + rest.items, rest.requests + 1, rest.complete))
  }

  function MatchingAll(tables: seq<Tables>, q: Query, lib: Lib): seq<set<string>> {
    seq(|tables|, i requires 0 <= i < |tables| => Matching(tables[i], q, lib))
  }

  /** The text a client holds after case `after`; before the first page, none. */
  function CursorText(after: Option<string>, q: Query, lib: Lib): Option<string> {
    if after.None? then None else Some(C.EncodeCursor(after.value, ScopeOf(q), lib.cursors))
  }

  ghost predicate NamedAll(tables: seq<Tables>) { forall i :: 0 <= i < |tables| ==> Named(tables[i]) }

  lemma ListPageIs(t: Tables, q: Query, after: Option<string>, size: nat, lib: Lib)
    requires size > 0 && C.Lawful(lib.cursors) && (after.Some? ==> C.CaseName(after.value))
    ensures ListPage(t, q, CursorText(after, q, lib), size, lib) == Ok(Paged(Matching(t, q, lib), after, q, size, lib))
  {
    if after.Some? { C.CursorRoundTrip(after.value, ScopeOf(q), ScopeOf(q), lib.cursors); }
  }

  lemma PagedIs(ids: set<string>, after: Option<string>, q: Query, size: nat, lib: Lib)
    requires size > 0
    ensures var p, page := P.Request(ids, after, size), Paged(ids, after, q, size, lib);
      page.items == p.items && page.next == CursorText(p.next, q, lib)
  {
  }

  lemma BrowseTurn(tables: seq<Tables>, q: Query, cursor: Option<string>, size: nat, lib: Lib, page: Listing)
    requires size > 0 && tables != [] && ListPage(tables[0], q, cursor, size, lib) == Ok(page)
    ensures var rest := Browse(tables[1..], q, page.next, size, lib); var walk := Browse(tables, q, cursor, size, lib);
      && (page.next.None? ==> walk == Ok(P.Walk(page.items, 1, true)))
      && (page.next.Some? && rest.Ok? ==>
            walk == Ok(P.Walk(page.items + rest.value.items, rest.value.requests + 1, rest.value.complete)))
  {
  }

  lemma BrowseRequest(tables: seq<Tables>, q: Query, after: Option<string>, size: nat, lib: Lib, p: P.Page)
    requires size > 0 && C.Lawful(lib.cursors) && (after.Some? ==> C.CaseName(after.value))
    requires tables != [] && p == P.Request(Matching(tables[0], q, lib), after, size)
    ensures var rest := Browse(tables[1..], q, CursorText(p.next, q, lib), size, lib);
      var walk := Browse(tables, q, CursorText(after, q, lib), size, lib);
      && (p.next.None? ==> walk == Ok(P.Walk(p.items, 1, true)))
      && (p.next.Some? && rest.Ok? ==>
            walk == Ok(P.Walk(p.items + rest.value.items, rest.value.requests + 1, rest.value.complete)))
  {
    var ids := Matching(tables[0], q, lib);
    ListPageIs(tables[0], q, after, size, lib);
    PagedIs(ids, after, q, size, lib);
    BrowseTurn(tables, q, CursorText(after, q, lib), size, lib, Paged(ids, after, q, size, lib));
  }

  lemma TailMatches(tables: seq<Tables>, q: Query, lib: Lib)
    requires tables != []
    ensures MatchingAll(tables, q, lib)[1..] == MatchingAll(tables[1..], q, lib)
  {
  }

  lemma FollowTurn(all: seq<set<string>>, after: Option<string>, size: nat)
    requires size > 0 && all != []
    ensures var p, walk := P.Request(all[0], after, size), P.Follow(all, after, size);
      if p.next.None? then walk == P.Walk(p.items, 1, true)
      else
        var rest := P.Follow(all[1..], p.next, size);
        walk == P.Walk(p.items + rest.items, rest.requests + 1, rest.complete)
  {
  }

  /** The next page begins after a case of this one. */
  lemma NextIsNamed(t: Tables, q: Query, after: Option<string>, size: nat, lib: Lib)
    requires size > 0 && Named(t)
    ensures var next := P.Request(Matching(t, q, lib), after, size).next; next.Some? ==> C.CaseName(next.value)
  {
    P.RequestIs(Matching(t, q, lib), after, size);
  }

  /** No cursor the list hands out is ever refused, and following them is following the case order. */
  lemma {:induction false} BrowseIsFollow(tables: seq<Tables>, q: Query, after: Option<string>, size: nat, lib: Lib)
    requires size > 0 && C.Lawful(lib.cursors) && NamedAll(tables) && (after.Some? ==> C.CaseName(after.value))
    ensures Browse(tables, q, CursorText(after, q, lib), size, lib)
      == Ok(P.Follow(MatchingAll(tables, q, lib), after, size))
    decreases |tables|
  {
    if tables != [] {
      var all := MatchingAll(tables, q, lib);
      var p := P.Request(all[0], after, size);
      BrowseRequest(tables, q, after, size, lib, p);
      FollowTurn(all, after, size);
      TailMatches(tables, q, lib);
      NextIsNamed(tables[0], q, after, size, lib);
      if p.next.Some? { BrowseIsFollow(tables[1..], q, p.next, size, lib); }
    }
  }

  /** Over unchanged tables, a client that starts at the first page and follows `next_cursor` sees
      exactly the matching cases in case order, once each, `total` of them, in `pages` requests. */
  lemma BrowsingListsAll(t: Tables, q: Query, size: nat, n: nat, lib: Lib)
    requires size > 0 && C.Lawful(lib.cursors) && Named(t) && n > 0 && n >= P.Pages(|Matching(t, q, lib)|, size)
    ensures var ids := Matching(t, q, lib);
      var requests := if ids == {} then 1 else P.Pages(|ids|, size);
      Browse(seq(n, _ => t), q, None, size, lib) == Ok(P.Walk(P.Ordered(ids), requests, true))
      && |P.Ordered(ids)| == |ids| && ListPage(t, q, None, size, lib).value.total == |ids|
  {
    var tables := seq(n, _ => t);
    BrowseIsFollow(tables, q, None, size, lib);
    assert MatchingAll(tables, q, lib) == P.Repeat(Matching(t, q, lib), n);
    P.WalkIsTheSortedList(Matching(t, q, lib), size, n);
  }

  /** While cases change between requests, nothing is listed twice, and a walk that reaches its end has
      listed every case that matched all along. */
  lemma BrowsingMissesNothing(tables: seq<Tables>, q: Query, size: nat, lib: Lib, id: string)
    requires size > 0 && C.Lawful(lib.cursors) && NamedAll(tables)
    requires forall k :: 0 <= k < |tables| ==> id in Matching(tables[k], q, lib)
    ensures Browse(tables, q, None, size, lib).Ok?
    ensures var w := Browse(tables, q, None, size, lib).value;
      P.Ascending(w.items) && (w.complete ==> id in w.items)
  {
    BrowseIsFollow(tables, q, None, size, lib);
    P.WalkListsWhatStays(MatchingAll(tables, q, lib), None, size, id);
  }

  /** Under any other filters, the quality view selects exactly the cases among them whose displayed score
      is below 70. */
  lemma QualityViewMatches(t: Tables, q: Query, lib: Lib)
    requires q.view == "quality"
    ensures Matching(t, q, lib) == set id | id in Matching(t, q.(view := "all"), lib) && E.DisplayedScore(t, id) < 70
  {
    forall id | id in t.cases ensures E.SqlScore(t, t.cases[id], E.Present(t.profiles, id)) == E.DisplayedScore(t, id) {
      E.ScoresAgree(t, t.cases[id], E.Present(t.profiles, id));
    }
  }

  /** A cursor handed out by one listing continues another exactly when the two have one fingerprint;
      under any other tenant, filter or view it is refused. */
  lemma ForeignCursorsRefused(t: Tables, from: Query, q: Query, last: string, size: nat, lib: Lib)
    requires size > 0 && C.Lawful(lib.cursors) && C.CaseName(last)
    ensures ListPage(t, q, CursorText(Some(last), from, lib), size, lib)
      == if lib.cursors.fingerprint(ScopeOf(q)) == lib.cursors.fingerprint(ScopeOf(from))
         then Ok(Paged(Matching(t, q, lib), Some(last), q, size, lib)) else Err(C.ScopeMismatch)
  {
    C.CursorRoundTrip(last, ScopeOf(from), ScopeOf(q), lib.cursors);
  }
}
