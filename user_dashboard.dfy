/**
 * The student dashboard: career profiles searched by the owner's name,
 * eight to a page, with a strip of "move to page" buttons.
 */
module UserDashboard {
  import opened Wrappers
  import opened Listing

  const ItemsPerPage: nat := 8

  /** At most this many numbered buttons: `Math.min(7, totalPages)`. */
  const StripLength: nat := 7

  datatype Owner = Owner(name: string)

  /** A career profile as the page holds it after the fetch (the fields it shows). */
  datatype Profile = Profile(
    id: string, userId: string, college: string, graduation: string,
    skills: seq<string>, resumePath: string, profilepictureUrl: Option<string>, user: Owner)

  function OwnerName(p: Profile): string {
    p.user.name
  }

  // ---------------------------------------------------------------------------
  // The listed page
  // ---------------------------------------------------------------------------

  /** `filteredUsers`: nothing while the profiles are still `null`, every profile for an empty term, otherwise the matches. */
  function FilteredUsers(users: Option<seq<Profile>>, term: string): (r: seq<Profile>)
    ensures users.None? ==> r == []
    ensures users.Some? ==> |r| <= |users.value|
    ensures users.Some? ==> forall i :: 0 <= i < |r| ==> r[i] in users.value && NameMatches(OwnerName, term, r[i])
    ensures users.Some? ==> forall i :: 0 <= i < |users.value| && NameMatches(OwnerName, term, users.value[i]) ==> users.value[i] in r
  {
    match users
    case None => []
    case Some(us) =>
      if term != "" then FilterByName(us, OwnerName, term)
      else
        FilterEmptyTerm(us, OwnerName);
        us
  }

  /** Once loaded, the listing is the name filter whatever the term; before that it is empty. */
  lemma FilteredUsersIsFilter(users: Option<seq<Profile>>, term: string)
    ensures users == None ==> FilteredUsers(users, term) == []
    ensures users.Some? ==> FilteredUsers(users, term) == FilterByName(users.value, OwnerName, term)
  {
    if users.Some? && term == "" {
      FilterEmptyTerm(users.value, OwnerName);
    }
  }

  function PageCount(users: Option<seq<Profile>>, term: string): nat {
    TotalPages(|FilteredUsers(users, term)|, ItemsPerPage)
  }

  function StartIndex(currentPage: int): int {
    (currentPage - 1) * ItemsPerPage
  }

  function EndIndex(currentPage: int): int {
    StartIndex(currentPage) + ItemsPerPage
  }

  /** `currentUsers`: `filteredUsers.slice(startIndex, endIndex)`. */
  function CurrentUsers(users: Option<seq<Profile>>, term: string, currentPage: int): (r: seq<Profile>)
    requires currentPage >= 1
    ensures |r| <= ItemsPerPage
    ensures forall i :: 0 <= i < |r| ==> r[i] in FilteredUsers(users, term)
  {
    JsSlice(FilteredUsers(users, term), StartIndex(currentPage), EndIndex(currentPage))
  }

  /** The profiles on screen are page `currentPage` of the listing: at most eight, the window `[start, start + 8)` clipped to the list. */
  lemma CurrentUsersIsPage(users: Option<seq<Profile>>, term: string, currentPage: int)
    requires currentPage >= 1
    ensures CurrentUsers(users, term, currentPage) == Page(FilteredUsers(users, term), currentPage, ItemsPerPage)
    ensures |CurrentUsers(users, term, currentPage)| <= ItemsPerPage
    ensures var f := FilteredUsers(users, term);
            StartIndex(currentPage) <= |f| ==>
              CurrentUsers(users, term, currentPage) == f[StartIndex(currentPage)..Min(EndIndex(currentPage), |f|)]
  {
    assert EndIndex(currentPage) == currentPage * ItemsPerPage;
  }

  // ---------------------------------------------------------------------------
  // The button strip
  // ---------------------------------------------------------------------------

  /** A "move to page" button; the highlighted one is drawn in orange. */
  datatype PageButton = PageButton(num: int, highlighted: bool)

  /** The buttons the map renders for array indices `index..count-1`: index `i` is page `i + 2`, or nothing when that is past the last page. */
  function StripFrom(totalPages: nat, currentPage: int, index: nat, count: nat): seq<PageButton>
    decreases count - index
  {
    if index >= count then []
    else
      var pageNum := index + 2;
      (if pageNum > totalPages then [] else [PageButton(pageNum, currentPage == pageNum)])
      + StripFrom(totalPages, currentPage, index + 1, count)
  }

  function NumberedButtons(totalPages: nat, currentPage: int): seq<PageButton> {
    StripFrom(totalPages, currentPage, 0, Min(StripLength, totalPages))
  }

  /** The extra button for the last page after the `...`: only when the last page is past the numbered buttons' reach. */
  function LastPageButton(totalPages: nat, currentPage: int): Option<PageButton> {
    if totalPages > StripLength + 1 then Some(PageButton(totalPages, currentPage == totalPages)) else None
  }

  datatype Strip = Strip(currentLabel: int, buttons: seq<PageButton>, last: Option<PageButton>)

  /** The strip is shown only when there is more than one page. */
  function PaginationStrip(totalPages: nat, currentPage: int): Option<Strip> {
    if totalPages > 1
    then Some(Strip(currentPage, NumberedButtons(totalPages, currentPage), LastPageButton(totalPages, currentPage)))
    else None
  }

  lemma {:induction false} StripFromConsecutive(totalPages: nat, currentPage: int, index: nat, count: nat)
    requires index <= count
    ensures var r := StripFrom(totalPages, currentPage, index, count);
            var hi := Min(count + 1, totalPages);
            && |r| == (if hi >= index + 2 then hi - index - 1 else 0)
            && forall i :: 0 <= i < |r| ==> r[i] == PageButton(index + 2 + i, currentPage == index + 2 + i)
    decreases count - index
  {
    if index < count {
      StripFromConsecutive(totalPages, currentPage, index + 1, count);
    }
  }

  /** The numbered buttons are pages `2..min(8, totalPages)` in increasing order, each highlighted iff it is the current page. */
  lemma NumberedButtonsAre(totalPages: nat, currentPage: int)
    ensures var b := NumberedButtons(totalPages, currentPage);
            && |b| == (if totalPages >= 2 then Min(8, totalPages) - 1 else 0)
            && forall i :: 0 <= i < |b| ==> b[i].num == i + 2 && b[i].highlighted == (currentPage == i + 2)
  {
    StripFromConsecutive(totalPages, currentPage, 0, Min(StripLength, totalPages));
  }

  /** No button ever leads to page 1. */
  lemma NoButtonForPageOne(totalPages: nat, currentPage: int)
    ensures forall i :: 0 <= i < |NumberedButtons(totalPages, currentPage)| ==>
              NumberedButtons(totalPages, currentPage)[i].num != 1
    ensures LastPageButton(totalPages, currentPage).Some? ==> LastPageButton(totalPages, currentPage).value.num != 1
  {
    NumberedButtonsAre(totalPages, currentPage);
  }

  /** The page numbers some button of the strip leads to. */
  ghost predicate HasButtonFor(totalPages: nat, currentPage: int, p: int) {
    || (exists i :: 0 <= i < |NumberedButtons(totalPages, currentPage)| && NumberedButtons(totalPages, currentPage)[i].num == p)
    || (LastPageButton(totalPages, currentPage).Some? && LastPageButton(totalPages, currentPage).value.num == p)
  }

  /** A page has a button iff it is one of `2..min(8, totalPages)`, or it is the last page and there are more than eight pages. */
  lemma HasButtonForIff(totalPages: nat, currentPage: int, p: int)
    ensures HasButtonFor(totalPages, currentPage, p) <==>
              (2 <= p <= Min(8, totalPages)) || (totalPages > 8 && p == totalPages)
  {
    NumberedButtonsAre(totalPages, currentPage);
    var b := NumberedButtons(totalPages, currentPage);
    if 2 <= p <= Min(8, totalPages) {
      assert b[p - 2].num == p;
    }
  }

  /** The strip appears iff there is more than one page; the extra last-page button appears iff there are more than eight, and it never repeats a numbered button. */
  lemma StripShownIff(totalPages: nat, currentPage: int)
    ensures PaginationStrip(totalPages, currentPage).Some? <==> totalPages > 1
    ensures LastPageButton(totalPages, currentPage).Some? <==> totalPages > 8
    ensures LastPageButton(totalPages, currentPage).Some? ==>
              forall i :: 0 <= i < |NumberedButtons(totalPages, currentPage)| ==>
                NumberedButtons(totalPages, currentPage)[i].num < LastPageButton(totalPages, currentPage).value.num
  {
    NumberedButtonsAre(totalPages, currentPage);
  }

  /** A button is highlighted iff its number is the current page. */
  lemma HighlightIffCurrent(totalPages: nat, currentPage: int)
    ensures forall i :: 0 <= i < |NumberedButtons(totalPages, currentPage)| ==>
              var b := NumberedButtons(totalPages, currentPage)[i]; b.highlighted <==> b.num == currentPage
    ensures LastPageButton(totalPages, currentPage).Some? ==>
              (LastPageButton(totalPages, currentPage).value.highlighted <==> currentPage == totalPages)
  {
    NumberedButtonsAre(totalPages, currentPage);
  }

  // ---------------------------------------------------------------------------
  // Navigation state
  // ---------------------------------------------------------------------------

  /** The page's React state: `searchTerm`, `currentPage` and `users` (`null` until the fetch completes). */
  class UserDashboardPage {
    var searchTerm: string
    var currentPage: int
    var users: Option<seq<Profile>>

    function PageTotal(): nat
      reads this
    {
      PageCount(users, searchTerm)
    }

    ghost predicate Valid()
      reads this
    {
      InRange(currentPage, PageTotal())
    }

    /** The profiles on screen. */
    function Shown(): (r: seq<Profile>)
      reads this
      requires Valid()
      ensures |r| <= ItemsPerPage
    {
      CurrentUsersIsPage(users, searchTerm, currentPage);
      CurrentUsers(users, searchTerm, currentPage)
    }

    function ButtonStrip(): Option<Strip>
      reads this
    {
      PaginationStrip(PageTotal(), currentPage)
    }

    constructor ()
      ensures Valid()
      ensures searchTerm == "" && currentPage == 1 && users == None
    {
      searchTerm := "";
      currentPage := 1;
      users := None;
    }

    /** The one fetch has finished; until then there are no pages, so the view is still on page 1. */
    method FinishLoading(fetched: seq<Profile>)
      requires Valid() && users == None
      modifies this
      ensures Valid()
      ensures users == Some(fetched)
      ensures searchTerm == old(searchTerm) && currentPage == 1
    {
      users := Some(fetched);
    }

    /** `handleSearchChange`: a new term always sends the view back to page 1. */
    method HandleSearchChange(value: string)
      requires Valid()
      modifies this
      ensures Valid()
      ensures searchTerm == value && currentPage == 1 && users == old(users)
    {
      searchTerm := value;
      currentPage := 1;
    }

    /** A click on a button of the strip. */
    method SelectPage(pageNum: int)
      requires Valid()
      requires ButtonStrip().Some? && HasButtonFor(PageTotal(), currentPage, pageNum)
      modifies this`currentPage
      ensures Valid() && currentPage == pageNum
    {
      HasButtonForIff(PageTotal(), currentPage, pageNum);
      currentPage := pageNum;
    }
  }
}
