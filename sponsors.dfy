/**
 * The sponsors' attendee list: the applications are searched by the
 * applicant's name, shown eight to a page, and navigated with previous and
 * next controls around a window of numbered links and ellipses.
 */
module Sponsors {
  import opened Wrappers
  import opened Listing

  const ItemsPerPage: nat := 8

  datatype Applicant = Applicant(name: string, email: string)

  /** An application together with the user who filed it (only the fields the page shows). */
  datatype Application = Application(
    id: string, university: string, graduationYear: string, shirtSize: string,
    status: string, resumePath: string, user: Applicant)

  function ApplicantName(a: Application): string {
    a.user.name
  }

  // ---------------------------------------------------------------------------
  // The listed page
  // ---------------------------------------------------------------------------

  /** `filteredApplications`: the whole list for an empty term, otherwise the applications whose applicant's name matches. */
  function FilteredApplications(apps: seq<Application>, term: string): (r: seq<Application>)
    ensures |r| <= |apps|
    ensures forall i :: 0 <= i < |r| ==> r[i] in apps && NameMatches(ApplicantName, term, r[i])
    ensures forall i :: 0 <= i < |apps| && NameMatches(ApplicantName, term, apps[i]) ==> apps[i] in r
  {
    if term == "" then
      FilterEmptyTerm(apps, ApplicantName);
      apps
    else FilterByName(apps, ApplicantName, term)
  }

  /** The empty-term shortcut changes nothing: the listing is always the name filter. */
  lemma FilteredApplicationsIsFilter(apps: seq<Application>, term: string)
    ensures FilteredApplications(apps, term) == FilterByName(apps, ApplicantName, term)
  {
    if term == "" {
      FilterEmptyTerm(apps, ApplicantName);
    }
  }

  /** `totalPages`. */
  function PageCount(apps: seq<Application>, term: string): nat {
    TotalPages(|FilteredApplications(apps, term)|, ItemsPerPage)
  }

  /** `paginatedApplications`: at most eight applications, each a matching one. */
  function PaginatedApplications(apps: seq<Application>, term: string, page: int): (r: seq<Application>)
    requires page >= 1
    ensures |r| <= ItemsPerPage
    ensures forall i :: 0 <= i < |r| ==> r[i] in apps && NameMatches(ApplicantName, term, r[i])
  {
    FilteredApplicationsIsFilter(apps, term);
    Page(FilteredApplications(apps, term), page, ItemsPerPage)
  }

  // ---------------------------------------------------------------------------
  // The pagination bar
  // ---------------------------------------------------------------------------

  /** `showPage`: the first page, the last page, and the pages next to the current one. */
  predicate ShowPage(page: int, totalPages: int, pageNum: int) {
    pageNum == 1 || pageNum == totalPages || (pageNum >= page - 1 && pageNum <= page + 1)
  }

  /** `showEllipsisBefore`. */
  predicate EllipsisBefore(page: int, pageNum: int) {
    pageNum == page - 2 && page > 3
  }

  /** `showEllipsisAfter`. */
  predicate EllipsisAfter(page: int, totalPages: int, pageNum: int) {
    pageNum == page + 2 && page < totalPages - 2
  }

  datatype NavItem = PageLink(num: int, active: bool) | Ellipsis(num: int)

  /** What the map over the page numbers renders for `pageNum`; `None` is `return null`. */
  function Slot(page: int, totalPages: int, pageNum: int): Option<NavItem> {
    if EllipsisBefore(page, pageNum) || EllipsisAfter(page, totalPages, pageNum) then Some(Ellipsis(pageNum))
    else if !ShowPage(page, totalPages, pageNum) then None
    else Some(PageLink(pageNum, page == pageNum))
  }

  /** The rendered items for page numbers 1..k, in increasing order of page number. */
  function Items(page: int, totalPages: int, k: nat): (r: seq<NavItem>)
    ensures forall i :: 0 <= i < |r| ==> 1 <= r[i].num <= k && Slot(page, totalPages, r[i].num) == Some(r[i])
    ensures forall i, j :: 0 <= i < j < |r| ==> r[i].num < r[j].num
    ensures forall p :: 1 <= p <= k && Slot(page, totalPages, p).Some? ==> Slot(page, totalPages, p).value in r
  {
    if k == 0 then []
    else
      var prefix := Items(page, totalPages, k - 1);
      match Slot(page, totalPages, k)
      case None => prefix
      case Some(item) => prefix + [item]
  }

  /** The whole bar: previous control, the items, next control; the disabled flags are the `pointer-events-none` styling. */
  datatype NavBar = NavBar(previousDisabled: bool, items: seq<NavItem>, nextDisabled: bool)

  /** The bar is rendered only when there is more than one page. */
  function Navigation(page: int, totalPages: nat): Option<NavBar> {
    if totalPages > 1 then Some(NavBar(page == 1, Items(page, totalPages, totalPages), page == totalPages))
    else None
  }

  /** A numbered link for `p` is shown iff `p` is a page, is not an ellipsis slot, and is first, last or next to the current page; it is active iff it is the current page. */
  lemma LinkShownIff(page: int, totalPages: nat, p: int, active: bool)
    ensures PageLink(p, active) in Items(page, totalPages, totalPages) <==>
              && 1 <= p <= totalPages
              && !EllipsisBefore(page, p) && !EllipsisAfter(page, totalPages, p)
              && ShowPage(page, totalPages, p)
              && active == (p == page)
  {
    var r := Items(page, totalPages, totalPages);
    assert 1 <= p <= totalPages && Slot(page, totalPages, p).Some? ==> Slot(page, totalPages, p).value in r;
    if PageLink(p, active) in r {
      var i :| 0 <= i < |r| && r[i] == PageLink(p, active);
      assert Slot(page, totalPages, r[i].num) == Some(r[i]);
    }
  }

  /** An ellipsis stands at `p` iff `p` is a page and is `page - 2` with `page > 3`, or `page + 2` with `page < totalPages - 2`; it takes the place of any number there. */
  lemma EllipsisShownIff(page: int, totalPages: nat, p: int)
    ensures Ellipsis(p) in Items(page, totalPages, totalPages) <==>
              1 <= p <= totalPages && (EllipsisBefore(page, p) || EllipsisAfter(page, totalPages, p))
    ensures EllipsisBefore(page, p) || EllipsisAfter(page, totalPages, p) ==>
              forall a :: PageLink(p, a) !in Items(page, totalPages, totalPages)
  {
    var r := Items(page, totalPages, totalPages);
    assert 1 <= p <= totalPages && Slot(page, totalPages, p).Some? ==> Slot(page, totalPages, p).value in r;
    if Ellipsis(p) in r {
      var i :| 0 <= i < |r| && r[i] == Ellipsis(p);
      assert Slot(page, totalPages, r[i].num) == Some(r[i]);
    }
    forall a | PageLink(p, a) in r
      ensures !(EllipsisBefore(page, p) || EllipsisAfter(page, totalPages, p))
    {
      LinkShownIff(page, totalPages, p, a);
    }
  }

  /** The current page, when it is a page, is shown as a link and is the only active one. */
  lemma CurrentPageIsOnlyActive(page: int, totalPages: nat)
    requires 1 <= page <= totalPages
    ensures PageLink(page, true) in Items(page, totalPages, totalPages)
    ensures forall i :: 0 <= i < |Items(page, totalPages, totalPages)| ==>
              var item := Items(page, totalPages, totalPages)[i];
              item.PageLink? && item.active ==> item.num == page
  {
    var r := Items(page, totalPages, totalPages);
    assert Slot(page, totalPages, page) == Some(PageLink(page, true));
    forall i | 0 <= i < |r| && r[i].PageLink? && r[i].active
      ensures r[i].num == page
    {
      assert Slot(page, totalPages, r[i].num) == Some(r[i]);
    }
  }

  /** The first and the last page always get a link, wherever in range the current page is. */
  lemma FirstAndLastAreLinks(page: int, totalPages: nat)
    requires totalPages >= 1 && InRange(page, totalPages)
    ensures PageLink(1, page == 1) in Items(page, totalPages, totalPages)
    ensures PageLink(totalPages, page == totalPages) in Items(page, totalPages, totalPages)
  {
    assert Slot(page, totalPages, 1) == Some(PageLink(1, page == 1));
    assert Slot(page, totalPages, totalPages) == Some(PageLink(totalPages, page == totalPages));
  }

  /** The bar appears iff there is more than one page; previous is disabled on page 1 and next on the last page, and both ends are numbered links. */
  lemma BarShownIff(page: int, totalPages: nat)
    requires InRange(page, totalPages)
    ensures Navigation(page, totalPages).Some? <==> totalPages > 1
    ensures Navigation(page, totalPages).Some? ==>
              var bar := Navigation(page, totalPages).value;
              && (bar.previousDisabled <==> page == 1)
              && (bar.nextDisabled <==> page == totalPages)
              && PageLink(1, page == 1) in bar.items
              && PageLink(totalPages, page == totalPages) in bar.items
  {
    if totalPages > 1 {
      FirstAndLastAreLinks(page, totalPages);
    }
  }

  // ---------------------------------------------------------------------------
  // Navigation state
  // ---------------------------------------------------------------------------

  /** On a reachable state with a bar, the current page is a link of the bar and the only active one. */
  lemma ReachableStateShowsCurrentPage(page: int, totalPages: nat)
    requires InRange(page, totalPages) && totalPages > 1
    ensures Navigation(page, totalPages).Some?
    ensures PageLink(page, true) in Navigation(page, totalPages).value.items
  {
    CurrentPageIsOnlyActive(page, totalPages);
  }

  /** The page's React state: `searchTerm`, `page`, `applications` and `loading`. */
  class SponsorsPage {
    var searchTerm: string
    var page: int
    var applications: seq<Application>
    var loading: bool

    function PageTotal(): nat
      reads this
    {
      PageCount(applications, searchTerm)
    }

    ghost predicate Valid()
      reads this
    {
      InRange(page, PageTotal()) && (loading ==> page == 1)
    }

    /** The eight (or fewer) applications on screen. */
    function Shown(): (r: seq<Application>)
      reads this
      requires Valid()
      ensures |r| <= ItemsPerPage
    {
      PaginatedApplications(applications, searchTerm, page)
    }

    /** The pagination bar on screen, if any. */
    function Bar(): Option<NavBar>
      reads this
    {
      Navigation(page, PageTotal())
    }

    constructor ()
      ensures Valid()
      ensures searchTerm == "" && page == 1 && applications == [] && loading
    {
      searchTerm := "";
      page := 1;
      applications := [];
      loading := true;
    }

    /** The initial fetch has finished (`data.applications || []`, or still `[]` when it failed). */
    method FinishLoading(fetched: seq<Application>)
      requires Valid() && loading
      modifies this
      ensures Valid()
      ensures applications == fetched && !loading
      ensures searchTerm == old(searchTerm) && page == old(page)
    {
      applications := fetched;
      loading := false;
    }

    /** `handleSearch`: a new term always sends the view back to page 1; nothing else changes. */
    method HandleSearch(value: string)
      requires Valid() && !loading
      modifies this
      ensures Valid()
      ensures searchTerm == value && page == 1
      ensures applications == old(applications) && loading == old(loading)
    {
      searchTerm := value;
      page := 1;
    }

    /** `handlePageChange`: moves to a page the bar offers. */
    method HandlePageChange(newPage: int)
      requires Valid() && !loading
      requires InRange(newPage, PageTotal())
      modifies this`page
      ensures Valid() && page == newPage
    {
      page := newPage;
    }

    /** The previous control: one page back, but only from a page after the first. */
    method Previous()
      requires Valid() && !loading
      modifies this`page
      ensures Valid()
      ensures old(page) > 1 ==> page == old(page) - 1
      ensures old(page) <= 1 ==> page == old(page)
    {
      if page > 1 {
        HandlePageChange(page - 1);
      }
    }

    /** The next control: one page on, but only from a page before the last. */
    method Next()
      requires Valid() && !loading
      modifies this`page
      ensures Valid()
      ensures old(page) < PageTotal() ==> page == old(page) + 1
      ensures old(page) >= PageTotal() ==> page == old(page)
    {
      if page < PageTotal() {
        HandlePageChange(page + 1);
      }
    }

    /** A click on a numbered link of the bar. */
    method SelectPage(pageNum: int, active: bool)
      requires Valid() && !loading
      requires Bar().Some? && PageLink(pageNum, active) in Bar().value.items
      modifies this`page
      ensures Valid() && page == pageNum
    {
      LinkShownIff(page, PageTotal(), pageNum, active);
      HandlePageChange(pageNum);
    }
  }
}
