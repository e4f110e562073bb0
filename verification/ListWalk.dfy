/** Following page tokens from the start, with any page sizes, while the registry changes between the
    pages (store/query_list.go, list_pagination.go). */
module ListWalk {
  import opened Text
  import opened Ordering
  import opened EntryMerge
  import opened Identities
  import opened Registry
  import opened RegistryRuns
  import opened ListQuery

  /** One request of a walk: the registry it meets and the page size it asks for. */
  datatype Visit = Visit(tables: Tables, pageSize: int)

  ghost function LastPage(visits: seq<Visit>, filter: Filter): Page
    requires visits != []
    decreases |visits|, 0
  {
    var last := visits[|visits| - 1];
    ListPage(last.tables, filter, last.pageSize, TokenBefore(visits, filter))
  }

  ghost function TokenBefore(visits: seq<Visit>, filter: Filter): PageToken
    requires visits != []
    decreases |visits| - 1, 1
  {
    if |visits| == 1 then NO_TOKEN else LastPage(visits[..|visits| - 1], filter).next
  }

  /** Everything the walk has returned so far. */
  ghost function Walked(visits: seq<Visit>, filter: Filter): seq<SurfaceIdentity> {
    if visits == [] then [] else Walked(visits[..|visits| - 1], filter) + LastPage(visits, filter).items
  }

  /** Every request but the first carries the token of the page before. */
  ghost predicate Following(visits: seq<Visit>, filter: Filter) {
    |visits| > 1 ==> TokenBefore(visits, filter) != NO_TOKEN && Following(visits[..|visits| - 1], filter)
  }

  /** The last page carries no token. */
  ghost predicate Finished(visits: seq<Visit>, filter: Filter) {
    visits != [] && Following(visits, filter) && LastPage(visits, filter).next == NO_TOKEN
  }

  ghost predicate AllKeyed(visits: seq<Visit>) {
    forall v | v in visits :: Keyed(v.tables)
  }

  // ---- One page ---------------------------------------------------------------------------------

  /** Nothing at or before the bound. */
  ghost predicate AllAfter(ids: seq<SurfaceIdentity>, bound: Option<SurfaceIdentity>) {
    bound.Some? ==> forall id | id in ids :: IdentityLess(bound.value, id)
  }

  ghost predicate IsPage(t: Tables, filter: Filter, bound: Option<SurfaceIdentity>, count: nat, page: Page) {
    && Sorted(IdentityLess, page.items)
    && AllAfter(page.items, bound)
    && (forall id | id in page.items :: id in Matching(t, filter))
    && (page.next == NO_TOKEN ==>
          && page.total == count + |page.items|
          && forall id | id in After(Matching(t, filter), bound) :: id in page.items)
    && (page.next != NO_TOKEN ==>
          && page.total == 0 && page.items != []
          && page.next == PageToken(Some(page.items[|page.items| - 1]), count + |page.items|)
          && (exists id :: id in After(Matching(t, filter), bound) && id !in page.items)
          && forall id | id in After(Matching(t, filter), bound) && id !in page.items ::
               IdentityLess(page.items[|page.items| - 1], id))
  }

  lemma MatchingIsTrimmed(t: Tables, filter: Filter)
    requires Keyed(t)
    ensures forall id | id in Matching(t, filter) :: TrimmedIdentity(id)
  {
    hide FilterAccepts, IdentityOf, TrimmedIdentity;
    forall id | id in t.entries ensures TrimmedIdentity(id) { IdentitiesAreTrimmed(Some(t.entries[id].definition)); }
  }

  lemma RowsCut(rows: seq<SurfaceIdentity>, size: nat)
    requires Sorted(IdentityLess, rows) && 0 < size < |rows|
    ensures Sorted(IdentityLess, rows[..size])
    ensures forall id | id in rows && id !in rows[..size] :: IdentityLess(rows[..size][size - 1], id)
  {
    hide IdentityLess;
    forall i | 0 <= i < size ensures rows[i] in rows[..size] { assert rows[..size][i] == rows[i]; }
    forall id | id in rows && id !in rows[..size] ensures IdentityLess(rows[size - 1], id) {
      var i :| 0 <= i < |rows| && rows[i] == id;
    }
  }

  /** The rows are the matching models behind the bound. */
  ghost predicate AreRows(t: Tables, filter: Filter, bound: Option<SurfaceIdentity>, rows: seq<SurfaceIdentity>) {
    Sorted(IdentityLess, rows) && forall id :: id in rows <==> id in After(Matching(t, filter), bound)
  }

  lemma PartOfRows(t: Tables, filter: Filter, bound: Option<SurfaceIdentity>, rows: seq<SurfaceIdentity>, size: nat)
    requires AreRows(t, filter, bound, rows) && size <= |rows|
    ensures AllAfter(rows[..size], bound) && forall id | id in rows[..size] :: id in Matching(t, filter)
  {
    hide Matching, IdentityLess, Sorted;
    forall id | id in rows[..size] ensures id in rows {}
  }

  lemma FullPage(t: Tables, filter: Filter, bound: Option<SurfaceIdentity>, count: nat, rows: seq<SurfaceIdentity>,
            size: nat)
    requires 0 < size < |rows| && AreRows(t, filter, bound, rows) && TrimmedIdentity(rows[size - 1])
    ensures IsPage(t, filter, bound, count, PageOf(rows, size, count))
  {
    hide Matching, TrimmedIdentity, IdentityLess, After;
    PartOfRows(t, filter, bound, rows, size);
    RowsCut(rows, size);
    NotTwice(rows, size);
    Token(rows[size - 1], count + size);
    assert rows[size] in rows;
    assert rows[..size][size - 1] == rows[size - 1];
    hide EncodePageToken, Sorted, AllAfter;
  }

  lemma PageOfRows(t: Tables, filter: Filter, bound: Option<SurfaceIdentity>, count: nat, rows: seq<SurfaceIdentity>,
            size: nat)
    requires size > 0 && AreRows(t, filter, bound, rows)
    requires forall id | id in Matching(t, filter) :: TrimmedIdentity(id)
    ensures IsPage(t, filter, bound, count, PageOf(rows, size, count))
  {
    hide Matching, TrimmedIdentity, IdentityLess;
    PartOfRows(t, filter, bound, rows, |rows|);
    assert rows[..|rows|] == rows;
    if |rows| > size {
      assert rows[size - 1] in rows;
      hide IsPage, PageOf, After, Sorted;
      FullPage(t, filter, bound, count, rows, size);
    }
  }

  lemma NotTwice(rows: seq<SurfaceIdentity>, size: nat)
    requires Sorted(IdentityLess, rows) && size < |rows|
    ensures rows[size] !in rows[..size]
  {
    IdentitiesAreOrdered();
    hide IdentityLess;
    forall i | 0 <= i < size ensures rows[i] != rows[size] { assert IdentityLess(rows[i], rows[size]); }
  }

  lemma Token(last: SurfaceIdentity, offset: nat)
    requires TrimmedIdentity(last)
    ensures EncodePageToken(last, offset) == PageToken(Some(last), offset)
  {
    hide TrimSpace;
  }

  /** The token of the walk so far, decoded: behind its last item, or the start. */
  ghost predicate IsBookmark(token: PageToken, walked: seq<SurfaceIdentity>) {
    if walked == [] then token == NO_TOKEN
    else token == PageToken(Some(walked[|walked| - 1]), |walked|) && TrimmedIdentity(walked[|walked| - 1])
  }

  function Bound(walked: seq<SurfaceIdentity>): Option<SurfaceIdentity> {
    if walked == [] then None else Some(walked[|walked| - 1])
  }

  lemma DecodeBookmark(token: PageToken, walked: seq<SurfaceIdentity>)
    requires IsBookmark(token, walked)
    ensures DecodePageToken(token) == PageToken(Bound(walked), |walked|)
  {
    hide TrimSpace;
  }

  /** A page fetched with a bookmark continues behind it. */
  lemma PageContinues(t: Tables, filter: Filter, pageSize: int, token: PageToken, walked: seq<SurfaceIdentity>)
    requires Keyed(t) && IsBookmark(token, walked)
    ensures IsPage(t, filter, Bound(walked), |walked|, ListPage(t, filter, pageSize, token))
  {
    DecodeBookmark(token, walked);
    MatchingIsTrimmed(t, filter);
    IdentitiesAreOrdered();
    hide Matching, TrimmedIdentity, IdentityLess, IsPage, Keyed, After, NormalizePageSize, DecodePageToken, PageOf;
    PageOfRows(t, filter, Bound(walked), |walked|, Rows(t, filter, PageToken(Bound(walked), |walked|)),
               NormalizePageSize(pageSize));
  }

  // ---- The walk ---------------------------------------------------------------------------------

  ghost predicate Everywhere(visits: seq<Visit>, filter: Filter, id: SurfaceIdentity) {
    forall v | v in visits :: id in Matching(v.tables, filter)
  }

  /** Every model that matched throughout has been returned, or lies behind the last item. */
  ghost predicate Covers(visits: seq<Visit>, filter: Filter, walked: seq<SurfaceIdentity>, more: bool) {
    forall id | Everywhere(visits, filter, id) && id !in walked ::
      more && walked != [] && IdentityLess(walked[|walked| - 1], id)
  }

  /** What holds after every page of a walk. */
  ghost predicate WalkedWell(visits: seq<Visit>, filter: Filter)
    requires visits != []
  {
    var walked, page := Walked(visits, filter), LastPage(visits, filter);
    && Sorted(IdentityLess, walked)
    && Covers(visits, filter, walked, page.next != NO_TOKEN)
    && (page.next == NO_TOKEN ==> page.total == |walked|)
    && (page.next != NO_TOKEN ==> page.total == 0 && IsBookmark(page.next, walked) && |walked| >= |visits|)
  }

  lemma SortedConcat(a: seq<SurfaceIdentity>, b: seq<SurfaceIdentity>)
    requires Sorted(IdentityLess, a) && Sorted(IdentityLess, b) && AllAfter(b, Bound(a))
    ensures Sorted(IdentityLess, a + b)
  {
    IdentitiesAreOrdered();
    hide IdentityLess;
    forall i, j | 0 <= i < j < |a + b| ensures IdentityLess((a + b)[i], (a + b)[j]) {
      if i < |a| <= j {
        assert b[j - |a|] in b;
        assert IdentityLess(a[|a| - 1], b[j - |a|]);
        assert i < |a| - 1 ==> IdentityLess(a[i], a[|a| - 1]);
      }
    }
  }

  /** A model that matches now and lies behind the walk so far is on the last page. */
  lemma LastPageHas(t: Tables, filter: Filter, before: seq<SurfaceIdentity>, page: Page, id: SurfaceIdentity)
    requires IsPage(t, filter, Bound(before), |before|, page) && id in Matching(t, filter)
    requires before != [] ==> IdentityLess(before[|before| - 1], id)
    ensures page.next == NO_TOKEN ==> id in page.items
    ensures page.next != NO_TOKEN
            ==> page.items != [] && (id in page.items || IdentityLess(page.items[|page.items| - 1], id))
  {
    hide Matching, IdentityLess;
    assert id in After(Matching(t, filter), Bound(before));
  }

  lemma Bookmarked(t: Tables, filter: Filter, before: seq<SurfaceIdentity>, page: Page)
    requires IsPage(t, filter, Bound(before), |before|, page) && page.next != NO_TOKEN
    requires forall id | id in Matching(t, filter) :: TrimmedIdentity(id)
    ensures IsBookmark(page.next, before + page.items) && page.items != [] && page.total == 0
  {
    hide Matching, IdentityLess, TrimmedIdentity;
    assert page.items[|page.items| - 1] in page.items;
  }

  lemma PageIsOrdered(t: Tables, filter: Filter, before: seq<SurfaceIdentity>, page: Page)
    requires IsPage(t, filter, Bound(before), |before|, page) && Sorted(IdentityLess, before)
    ensures Sorted(IdentityLess, before + page.items)
    ensures page.next == NO_TOKEN ==> page.total == |before + page.items|
  {
    hide Matching, IdentityLess;
    SortedConcat(before, page.items);
  }

  lemma CoversStep(visits: seq<Visit>, filter: Filter, before: seq<SurfaceIdentity>, page: Page)
    requires visits != [] && IsPage(visits[|visits| - 1].tables, filter, Bound(before), |before|, page)
    requires before == [] || Covers(visits[..|visits| - 1], filter, before, true)
    ensures Covers(visits, filter, before + page.items, page.next != NO_TOKEN)
  {
    hide Matching, IdentityLess, IsPage, Everywhere;
    var walked := before + page.items;
    forall id | Everywhere(visits, filter, id) && id !in walked
      ensures page.next != NO_TOKEN && walked != [] && IdentityLess(walked[|walked| - 1], id)
    {
      EverywhereBefore(visits, filter, id);
      LastPageHas(visits[|visits| - 1].tables, filter, before, page, id);
      assert page.items != [] ==> walked[|walked| - 1] == page.items[|page.items| - 1];
    }
  }

  /** One more page after a walk. */
  lemma WalkStep(visits: seq<Visit>, filter: Filter, before: seq<SurfaceIdentity>)
    requires visits != [] && Keyed(visits[|visits| - 1].tables)
    requires before == Walked(visits[..|visits| - 1], filter) && Sorted(IdentityLess, before)
    requires |before| >= |visits| - 1 && IsBookmark(TokenBefore(visits, filter), before)
    requires before == [] || Covers(visits[..|visits| - 1], filter, before, true)
    ensures WalkedWell(visits, filter)
  {
    var last, page := visits[|visits| - 1], LastPage(visits, filter);
    hide Matching, IdentityLess, Keyed, TrimmedIdentity, ListPage, LastPage, TokenBefore, IsPage, IsBookmark, Sorted,
      Covers;
    PageIsList(visits, filter);
    PageContinues(last.tables, filter, last.pageSize, TokenBefore(visits, filter), before);
    PageIsOrdered(last.tables, filter, before, page);
    MatchingIsTrimmed(last.tables, filter);
    assert Walked(visits, filter) == before + page.items;
    if page.next != NO_TOKEN { Bookmarked(last.tables, filter, before, page); }
    CoversStep(visits, filter, before, page);
  }

  lemma EverywhereBefore(visits: seq<Visit>, filter: Filter, id: SurfaceIdentity)
    requires visits != [] && Everywhere(visits, filter, id)
    ensures Everywhere(visits[..|visits| - 1], filter, id) && id in Matching(visits[|visits| - 1].tables, filter)
  {
    hide Matching;
    assert visits[|visits| - 1] in visits;
    forall v | v in visits[..|visits| - 1] ensures v in visits {}
  }

  lemma PageIsList(visits: seq<Visit>, filter: Filter)
    requires visits != []
    ensures var last := visits[|visits| - 1];
            LastPage(visits, filter) == ListPage(last.tables, filter, last.pageSize, TokenBefore(visits, filter))
  {
    hide ListPage;
  }

  lemma {:induction false} WalksWell(visits: seq<Visit>, filter: Filter)
    requires visits != [] && AllKeyed(visits) && Following(visits, filter)
    ensures WalkedWell(visits, filter)
    decreases |visits|
  {
    hide Keyed, IdentityLess, Matching, ListPage;
    var init, last := visits[..|visits| - 1], visits[|visits| - 1];
    assert last in visits && forall v | v in init :: v in visits;
    if |visits| == 1 {
      assert Walked(init, filter) == [];
    } else {
      WalksWell(init, filter);
    }
    WalkStep(visits, filter, Walked(init, filter));
  }

  /** However the registry changes between the pages: identities strictly increase, so none is
      returned twice; a finished walk has returned every model that matched throughout; its last page
      counts what it returned, and the pages before it count nothing. */
  lemma WalkIsComplete(visits: seq<Visit>, filter: Filter)
    requires AllKeyed(visits) && Finished(visits, filter)
    ensures var walked := Walked(visits, filter);
            && (forall i, j | 0 <= i < j < |walked| :: IdentityLess(walked[i], walked[j]) && walked[i] != walked[j])
            && (forall id | Everywhere(visits, filter, id) :: id in walked)
            && LastPage(visits, filter).total == |walked|
    ensures forall n | 0 < n < |visits| :: LastPage(visits[..n], filter).total == 0
  {
    WalksWell(visits, filter);
    IdentitiesAreOrdered();
    hide IdentityLess, Matching, ListPage, Keyed;
    forall n | 0 < n < |visits| ensures LastPage(visits[..n], filter).total == 0 { EarlierPage(visits, filter, n); }
  }

  lemma {:induction false} EarlierPage(visits: seq<Visit>, filter: Filter, n: nat)
    requires AllKeyed(visits) && Following(visits, filter) && 0 < n < |visits|
    ensures LastPage(visits[..n], filter).total == 0
    decreases |visits|
  {
    hide IdentityLess, Matching, ListPage, Keyed;
    var init := visits[..|visits| - 1];
    assert init[..n] == visits[..n] && forall v | v in init :: v in visits;
    if n == |visits| - 1 {
      WalksWell(init, filter);
      assert visits[..n] == init;
    } else {
      EarlierPage(init, filter, n);
    }
  }

  /** On a registry that does not change, a finished walk returns exactly the matching models, in order. */
  lemma FixedWalkIsExact(visits: seq<Visit>, filter: Filter, t: Tables)
    requires Keyed(t) && (forall v | v in visits :: v.tables == t) && Finished(visits, filter)
    ensures StrictTotal(IdentityLess) && Walked(visits, filter) == Enumerate(IdentityLess, Matching(t, filter))
  {
    WalksWell(visits, filter);
    WalkedMatch(visits, filter, t);
    IdentitiesAreOrdered();
    hide IdentityLess, Matching, ListPage, Keyed, StrictTotal, Walked;
    forall id | id in Matching(t, filter) ensures id in Walked(visits, filter) {
      assert Everywhere(visits, filter, id);
    }
    FixedOrder(Walked(visits, filter), Matching(t, filter));
  }

  lemma FixedOrder(walked: seq<SurfaceIdentity>, ids: set<SurfaceIdentity>)
    requires StrictTotal(IdentityLess) && Sorted(IdentityLess, walked) && forall id :: id in walked <==> id in ids
    ensures walked == Enumerate(IdentityLess, ids)
  {
    hide IdentityLess;
    SortedIsUnique(IdentityLess, walked, Enumerate(IdentityLess, ids));
  }

  /** Everything a walk returns matched when its page was fetched. */
  lemma {:induction false} WalkedMatch(visits: seq<Visit>, filter: Filter, t: Tables)
    requires Keyed(t) && (forall v | v in visits :: v.tables == t) && Following(visits, filter)
    ensures forall id | id in Walked(visits, filter) :: id in Matching(t, filter)
    decreases |visits|
  {
    hide IdentityLess, Matching, ListPage, Keyed;
    if visits != [] {
      var init, last := visits[..|visits| - 1], visits[|visits| - 1];
      assert last in visits && forall v | v in init :: v in visits;
      if |visits| > 1 {
        WalkedMatch(init, filter, t);
        WalksWell(init, filter);
      } else {
        assert Walked(init, filter) == [];
      }
      PageIsList(visits, filter);
      PageContinues(t, filter, last.pageSize, TokenBefore(visits, filter), Walked(init, filter));
    }
  }

  /** On a registry that does not change, a walk ends: it cannot go on for as many pages as there are
      matching models. */
  lemma FixedWalkTerminates(visits: seq<Visit>, filter: Filter, t: Tables)
    requires Keyed(t) && (forall v | v in visits :: v.tables == t) && visits != [] && Following(visits, filter)
    requires |visits| >= |Matching(t, filter)|
    ensures LastPage(visits, filter).next == NO_TOKEN
  {
    WalksWell(visits, filter);
    WalkedMatch(visits, filter, t);
    PageIsList(visits, filter);
    hide IdentityLess, Matching, ListPage, Keyed, Walked;
    var walked, page := Walked(visits, filter), LastPage(visits, filter);
    if page.next != NO_TOKEN {
      var next := RowBehind(visits, filter, t);
      assert next in Matching(t, filter) && next !in walked;
      SortedCount(walked, Matching(t, filter) - {next});
    }
  }

  /** A page with a token leaves a matching model for later. */
  lemma RowBehind(visits: seq<Visit>, filter: Filter, t: Tables) returns (id: SurfaceIdentity)
    requires Keyed(t) && (forall v | v in visits :: v.tables == t) && visits != [] && Following(visits, filter)
    requires LastPage(visits, filter).next != NO_TOKEN
    ensures id in Matching(t, filter) && id !in Walked(visits, filter)
  {
    hide Matching, ListPage, Keyed, IdentityLess;
    var init, last, page := visits[..|visits| - 1], visits[|visits| - 1], LastPage(visits, filter);
    assert last in visits && forall v | v in init :: v in visits;
    var before := Walked(init, filter);
    if |visits| > 1 { WalksWell(init, filter); } else { assert before == []; }
    PageIsList(visits, filter);
    PageContinues(t, filter, last.pageSize, TokenBefore(visits, filter), before);
    id :| id in After(Matching(t, filter), Bound(before)) && id !in page.items;
    if id in before { InFront(before, id); }
  }

  lemma InFront(walked: seq<SurfaceIdentity>, id: SurfaceIdentity)
    requires Sorted(IdentityLess, walked) && id in walked
    ensures !IdentityLess(walked[|walked| - 1], id)
  {
    IdentitiesAreOrdered();
    hide IdentityLess;
    var i :| 0 <= i < |walked| && walked[i] == id;
    assert i < |walked| - 1 ==> IdentityLess(walked[i], walked[|walked| - 1]);
  }

  lemma SortedCount(walked: seq<SurfaceIdentity>, ids: set<SurfaceIdentity>)
    requires Sorted(IdentityLess, walked) && forall id | id in walked :: id in ids
    ensures |walked| <= |ids|
    decreases |walked|
  {
    IdentitiesAreOrdered();
    hide IdentityLess;
    if walked != [] {
      var init, last := walked[..|walked| - 1], walked[|walked| - 1];
      assert last in walked;
      forall id | id in init ensures id in ids - {last} {
        var i :| 0 <= i < |init| && init[i] == id;
        assert walked[i] == id && IdentityLess(walked[i], last);
      }
      SortedCount(init, ids - {last});
    }
  }
}
