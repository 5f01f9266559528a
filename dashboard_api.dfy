/**
 * The mock dashboard listing endpoint: `GET` reads `search`, `page` and
 * `itemsPerPage` from the query string, filters the built-in user table by
 * name ignoring case, and answers with one page of it together with the
 * page count, the echoed page number and the number of matches.
 */
module DashboardApi {
  import opened Wrappers
  import opened Listing

  datatype MockUser = MockUser(id: nat, name: string, college: string, graduation: string, description: string)

  const Description: string :=
    "Lorem ipsum dolor sit amet, consectetur adipiscing elit, sed do eiusmod tempor incididunt ut labore et dolore magna aliqua. Ut enim ad minim veniam, quis nostrud exercitation ullamco laboris nisi ut aliquip ex ea commodo consequat."

  function Student(id: nat, name: string): MockUser {
    MockUser(id, name, "OSU", "Sp 2027", Description)
  }

  /** The twelve built-in users the endpoint serves. */
  const MockUsers: seq<MockUser> := [
    Student(1, "John D"), Student(2, "Sarah M"), Student(3, "Mike R"), Student(4, "Emily K"),
    Student(5, "David L"), Student(6, "Anna P"), Student(7, "Chris B"), Student(8, "Lisa T"),
    Student(9, "Tom W"), Student(10, "Rachel G"), Student(11, "Alex H"), Student(12, "Jessica F")
  ]

  const DefaultPage: int := 1
  const DefaultItemsPerPage: int := 8

  /**
   * The query string after `parseInt`. `None` is a parameter that is absent
   * or empty: both fall back to the default through `||`.
   */
  datatype Query = Query(search: Option<string>, page: Option<int>, itemsPerPage: Option<int>)

  /** The JSON body of the answer. */
  datatype Response = Response(users: seq<MockUser>, totalPages: nat, currentPage: int, totalUsers: nat)

  function UserName(u: MockUser): string {
    u.name
  }

  function SearchTerm(q: Query): string {
    q.search.GetOr("")
  }

  function RequestedPage(q: Query): int {
    q.page.GetOr(DefaultPage)
  }

  function ItemsPerPage(q: Query): int {
    q.itemsPerPage.GetOr(DefaultItemsPerPage)
  }

  /** Queries whose page and page size the handler can serve (it does not guard against others). */
  predicate Servable(q: Query) {
    RequestedPage(q) >= 1 && ItemsPerPage(q) >= 1
  }

  /** The users of `table` that match the query's search term, in table order. */
  function Matches(table: seq<MockUser>, q: Query): seq<MockUser> {
    FilterByName(table, UserName, SearchTerm(q))
  }

  /**
   * The handler body over a user table (the route serves `MockUsers`):
   * at most one page of matching users, the page echoed, the match count,
   * and the least page count that holds every match; a page past the last
   * one is simply empty.
   */
  function Handle(table: seq<MockUser>, q: Query): (r: Response)
    requires Servable(q)
    ensures r.currentPage == RequestedPage(q)
    ensures |r.users| <= ItemsPerPage(q)
    ensures forall i :: 0 <= i < |r.users| ==>
              r.users[i] in table && NameMatches(UserName, SearchTerm(q), r.users[i])
    ensures r.totalUsers <= |table|
    ensures r.totalPages * ItemsPerPage(q) >= r.totalUsers
    ensures r.totalPages == 0 || (r.totalPages - 1) * ItemsPerPage(q) < r.totalUsers
    ensures r.users == [] <==> r.currentPage > r.totalPages
  {
    var term := SearchTerm(q);
    var page := RequestedPage(q);
    var n := ItemsPerPage(q);
    var filtered := FilterByName(table, UserName, term);
    PageEmptyIff(filtered, page, n);
    Response(Page(filtered, page, n), TotalPages(|filtered|, n), page, |filtered|)
  }

  /** `GET /api/dashboardApi`: at most the twelve built-in users match, and all twelve without a `search` parameter. */
  function Get(q: Query): (r: Response)
    requires Servable(q)
    ensures r.totalUsers <= 12 && |r.users| <= ItemsPerPage(q)
    ensures q.search == None ==> r.totalUsers == 12
  {
    NoSearchKeepsAll(MockUsers, Query(None, q.page, q.itemsPerPage));
    HandleIsPageOfMatches(MockUsers, q);
    Handle(MockUsers, q)
  }

  /** The returned users are exactly the requested window of the matches. */
  lemma HandleIsPageOfMatches(table: seq<MockUser>, q: Query)
    requires Servable(q)
    ensures Handle(table, q).users == Page(Matches(table, q), RequestedPage(q), ItemsPerPage(q))
    ensures Handle(table, q).totalUsers == |Matches(table, q)|
  {
  }

  /** A page that starts inside the matches is `matches[(page-1)*n .. min(page*n, count)]`. */
  lemma HandleWindow(table: seq<MockUser>, q: Query)
    requires Servable(q)
    requires (RequestedPage(q) - 1) * ItemsPerPage(q) <= |Matches(table, q)|
    ensures var p := RequestedPage(q); var n := ItemsPerPage(q); 0 <= (p - 1) * n && (p - 1) * n + n == p * n
    ensures var m := Matches(table, q); var p := RequestedPage(q); var n := ItemsPerPage(q);
            Handle(table, q).users == m[(p - 1) * n..Min(p * n, |m|)]
  {
    var m, p, n := Matches(table, q), RequestedPage(q), ItemsPerPage(q);
    MulMonotone(0, p - 1, n);
    HandleIsPageOfMatches(table, q);
    PageIsWindow(m, p, n);
  }

  /** Without a `search` parameter the term is empty and every user matches, in table order. */
  lemma NoSearchKeepsAll(table: seq<MockUser>, q: Query)
    requires q.search == None
    ensures Matches(table, q) == table
  {
    FilterEmptyTerm(table, UserName);
  }

  /** The users of pages 1..k, all other parameters fixed. */
  function ResponsePages(table: seq<MockUser>, search: Option<string>, n: int, k: nat): seq<MockUser>
    requires n >= 1
  {
    if k == 0 then []
    else ResponsePages(table, search, n, k - 1) + Handle(table, Query(search, Some(k), Some(n))).users
  }

  lemma {:induction false} ResponsePagesAreConcatPages(table: seq<MockUser>, search: Option<string>, n: int, k: nat)
    requires n >= 1
    ensures ResponsePages(table, search, n, k) == ConcatPages(Matches(table, Query(search, None, Some(n))), n, k)
  {
    if k > 0 {
      ResponsePagesAreConcatPages(table, search, n, k - 1);
    }
  }

  /** Requesting pages 1..totalPages in turn returns every match exactly once, in order. */
  lemma ResponsesPartitionMatches(table: seq<MockUser>, search: Option<string>, n: int)
    requires n >= 1
    ensures var q := Query(search, None, Some(n));
            ResponsePages(table, search, n, Handle(table, q).totalPages) == Matches(table, q)
  {
    var q := Query(search, None, Some(n));
    ResponsePagesAreConcatPages(table, search, n, Handle(table, q).totalPages);
    PagesPartition(Matches(table, q), n);
  }

  /** Any table of twelve users at the default size, without a search: pages 1, 2 and 3. */
  lemma TwelveUsersDefaultPages(table: seq<MockUser>)
    requires |table| == 12
    ensures Handle(table, Query(None, None, None)) == Response(table[..8], 2, 1, 12)
    ensures Handle(table, Query(None, Some(2), None)) == Response(table[8..], 2, 2, 12)
    ensures Handle(table, Query(None, Some(3), None)) == Response([], 2, 3, 12)
  {
    NoSearchKeepsAll(table, Query(None, None, None));
    PageIsWindow(table, 1, 8);
    PageIsWindow(table, 2, 8);
    assert table[8..Min(16, 12)] == table[8..];
  }

  /**
   * The built-in table with the defaults: the first eight users, two pages
   * and twelve users in all; page 2 holds the last four; page 3 is empty,
   * with no error.
   */
  lemma MockDefaultPages()
    ensures Get(Query(None, None, None)) == Response(MockUsers[..8], 2, 1, 12)
    ensures Get(Query(None, Some(2), None)) == Response(MockUsers[8..], 2, 2, 12)
    ensures Get(Query(None, Some(3), None)) == Response([], 2, 3, 12)
  {
    TwelveUsersDefaultPages(MockUsers);
  }

  /** Twelve users who all match, eight per page: page 2 holds the last four of them and there are two pages. */
  lemma TwelveMatchesSecondPage(table: seq<MockUser>, term: string)
    requires |table| == 12
    requires forall i :: 0 <= i < 12 ==> NameMatches(UserName, term, table[i])
    ensures var r := Handle(table, Query(Some(term), Some(2), Some(8)));
            r.users == table[8..] && r.totalPages == 2 && r.totalUsers == 12
  {
    FilterAllMatch(table, UserName, term);
  }
}
