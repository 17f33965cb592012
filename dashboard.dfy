/** The dashboard: the member's accepted rooms, twelve to a page, with Prev/Next controls
    and a Leave action per room. */
module Dashboard {
  import opened Base
  import opened Records

  const ROOMS_PER_PAGE := 12
  const ACCEPTED := "accepted"

  predicate IsAccepted(m: Membership)
  {
    m.status == ACCEPTED
  }

  /** The memberships the dashboard lists: those whose status is "accepted". */
  function AcceptedRooms(memberships: seq<Membership>): (r: seq<Membership>)
    ensures forall i :: 0 <= i < |r| ==> r[i] in memberships && r[i].status == ACCEPTED
    ensures forall i :: 0 <= i < |memberships| && memberships[i].status == ACCEPTED ==> memberships[i] in r
  {
    Filter(memberships, IsAccepted)
  }

  /** The accepted filter keeps the server's order: it splits over any cut of the list. */
  lemma AcceptedRoomsKeepOrder(a: seq<Membership>, b: seq<Membership>)
    ensures AcceptedRooms(a + b) == AcceptedRooms(a) + AcceptedRooms(b)
  {
    FilterDistributes(a, b, IsAccepted);
  }

  /** `Math.ceil(n / ROOMS_PER_PAGE)` on a list length. */
  function TotalPages(n: nat): nat
  {
    (n + ROOMS_PER_PAGE - 1) / ROOMS_PER_PAGE
  }

  /** `TotalPages` is the ceiling: the fewest pages of twelve that hold `n` rooms. */
  lemma TotalPagesIsCeiling(n: nat)
    ensures TotalPages(n) * ROOMS_PER_PAGE >= n
    ensures TotalPages(n) > 0 ==> (TotalPages(n) - 1) * ROOMS_PER_PAGE < n
    ensures TotalPages(n) == 0 <==> n == 0
  {
    var t := TotalPages(n);
    var q := n + ROOMS_PER_PAGE - 1;
    assert q == t * ROOMS_PER_PAGE + q % ROOMS_PER_PAGE;
  }

  /** JavaScript's conversion of a `slice` bound: a negative bound counts from the end,
      and both are clamped to the list. */
  function SliceBound(k: int, len: nat): (r: nat)
    ensures r <= len
  {
    if k < 0 then (if len + k < 0 then 0 else len + k)
    else if k > len then len else k
  }

  /** `Array.prototype.slice(start, end)`. */
  function JsSlice<T>(s: seq<T>, start: int, end: int): (r: seq<T>)
    ensures |r| <= |s|
  {
    var from := SliceBound(start, |s|);
    var to := SliceBound(end, |s|);
    if from < to then s[from..to] else []
  }

  /** `paginatedRooms`: the slice `[(p - 1) * 12, p * 12)` of the list. */
  function PageOf<T>(rooms: seq<T>, p: int): seq<T>
  {
    JsSlice(rooms, (p - 1) * ROOMS_PER_PAGE, p * ROOMS_PER_PAGE)
  }

  function Min(a: int, b: int): int
  {
    if a < b then a else b
  }

  /** A page from 1 on is the stretch of the list between its two bounds, and holds at most
      twelve rooms. */
  lemma PageIsBoundedSlice<T>(rooms: seq<T>, p: int)
    requires p >= 1
    ensures var lo := Min((p - 1) * ROOMS_PER_PAGE, |rooms|);
      PageOf(rooms, p) == rooms[lo..Min(p * ROOMS_PER_PAGE, |rooms|)]
    ensures |PageOf(rooms, p)| <= ROOMS_PER_PAGE
  {
  }

  /** Pages 1 to `k` laid end to end. */
  function PagesUpTo<T>(rooms: seq<T>, k: nat): seq<T>
  {
    if k == 0 then [] else PagesUpTo(rooms, k - 1) + PageOf(rooms, k)
  }

  lemma {:induction false} PagesUpToIsPrefix<T>(rooms: seq<T>, k: nat)
    ensures PagesUpTo(rooms, k) == rooms[..Min(k * ROOMS_PER_PAGE, |rooms|)]
  {
    if k > 0 {
      PagesUpToIsPrefix(rooms, k - 1);
      PageIsBoundedSlice(rooms, k);
      var lo := Min((k - 1) * ROOMS_PER_PAGE, |rooms|);
      var hi := Min(k * ROOMS_PER_PAGE, |rooms|);
      assert rooms[..lo] + rooms[lo..hi] == rooms[..hi];
    }
  }

  /** Paging loses nothing and repeats nothing: pages 1 to `TotalPages` laid end to end are
      the whole list, and every page beyond them is empty. */
  lemma PagesCoverList<T>(rooms: seq<T>, p: int)
    requires p > TotalPages(|rooms|)
    ensures PagesUpTo(rooms, TotalPages(|rooms|)) == rooms
    ensures PageOf(rooms, p) == []
  {
    TotalPagesIsCeiling(|rooms|);
    PagesUpToIsPrefix(rooms, TotalPages(|rooms|));
    assert (p - 1) * ROOMS_PER_PAGE >= TotalPages(|rooms|) * ROOMS_PER_PAGE;
  }

  /** The room at position `i` is shown on page `i / 12 + 1`, at place `i % 12`. */
  lemma RoomShownOnItsPage<T>(rooms: seq<T>, i: nat)
    requires i < |rooms|
    ensures var p := i / ROOMS_PER_PAGE + 1;
      i % ROOMS_PER_PAGE < |PageOf(rooms, p)| && PageOf(rooms, p)[i % ROOMS_PER_PAGE] == rooms[i]
  {
    var p := i / ROOMS_PER_PAGE + 1;
    assert i == (p - 1) * ROOMS_PER_PAGE + i % ROOMS_PER_PAGE;
    PageIsBoundedSlice(rooms, p);
  }

  /** The optional `room?._id` of a membership; the server record always embeds its room. */
  predicate InRoom(m: Membership, roomId: string)
  {
    m.room.id == roomId
  }

  /** The list after leaving a room: every membership whose room id differs, in order. */
  function RemainingRooms(rooms: seq<Membership>, roomId: string): (r: seq<Membership>)
    ensures forall i :: 0 <= i < |r| ==> r[i] in rooms && r[i].room.id != roomId
    ensures forall i :: 0 <= i < |rooms| && rooms[i].room.id != roomId ==> rooms[i] in r
  {
    Filter(rooms, m => !InRoom(m, roomId))
  }

  /** Leaving a room the list does not hold changes nothing; leaving one that sits at the end
      drops exactly that entry. */
  lemma LeaveDropsOnlyThatRoom(kept: seq<Membership>, left: Membership)
    requires forall i :: 0 <= i < |kept| ==> kept[i].room.id != left.room.id
    ensures RemainingRooms(kept, left.room.id) == kept
    ensures RemainingRooms(kept + [left], left.room.id) == kept
  {
    var p := (m: Membership) => !InRoom(m, left.room.id);
    FilterKeepsAll(kept, p);
    FilterDistributes(kept, [left], p);
  }

  /** `leaveRoom` never moves the current page: with twelve other rooms on page 1 and the
      thirteenth on page 2, leaving it from page 2 leaves the view on a page past the last,
      which shows nothing. */
  lemma LeaveCanStrandCurrentPage(kept: seq<Membership>, left: Membership)
    requires |kept| == ROOMS_PER_PAGE
    requires forall i :: 0 <= i < |kept| ==> kept[i].room.id != left.room.id
    ensures TotalPages(|kept + [left]|) == 2
    ensures var after := RemainingRooms(kept + [left], left.room.id);
      TotalPages(|after|) == 1 && PageOf(after, 2) == []
  {
    LeaveDropsOnlyThatRoom(kept, left);
  }

  /** The pagination controls are rendered only when there is more than one page. */
  predicate ShowPagination(roomCount: nat)
  {
    TotalPages(roomCount) > 1
  }

  /** The dashboard's state: the listed memberships, the page shown and the loading flag. */
  class DashboardView {
    var rooms: seq<Membership>
    var currentPage: int
    var loading: bool

    /** The page number never drops below 1. */
    predicate Valid()
      reads this
    {
      currentPage >= 1
    }

    /** `totalPages` for the current list. */
    function PageCount(): nat
      reads this
    {
      TotalPages(|rooms|)
    }

    /** `paginatedRooms` for the current list and page. */
    function Paginated(): seq<Membership>
      reads this
    {
      PageOf(rooms, currentPage)
    }

    constructor()
      ensures Valid()
      ensures rooms == [] && currentPage == 1 && loading
    {
      rooms := [];
      currentPage := 1;
      loading := true;
    }

    /** Completion of `GET /api/rooms`: a response replaces the list with its accepted
        memberships; a failure (which navigates to the login page) leaves it. Either way
        loading ends. */
    method OnRoomsLoaded(response: Option<seq<Membership>>)
      modifies this
      ensures response.Some? ==> rooms == AcceptedRooms(response.value)
      ensures response.None? ==> rooms == old(rooms)
      ensures currentPage == old(currentPage) && !loading
    {
      if response.Some? {
        rooms := AcceptedRooms(response.value);
      }
      loading := false;
    }

    /** `leaveRoom`: once the delete has resolved, the memberships of that room are dropped;
        a rejected delete leaves the list. The current page is not touched. */
    method LeaveRoom(roomId: string, deleted: bool)
      modifies this
      ensures deleted ==> rooms == RemainingRooms(old(rooms), roomId)
      ensures !deleted ==> rooms == old(rooms)
      ensures currentPage == old(currentPage) && loading == old(loading)
    {
      if deleted {
        rooms := RemainingRooms(rooms, roomId);
      }
    }

    /** A click on Prev: only possible while the controls show and the page is not 1. */
    method ClickPrev() returns (clicked: bool)
      requires Valid()
      modifies this
      ensures Valid()
      ensures clicked <==> ShowPagination(|rooms|) && old(currentPage) != 1
      ensures currentPage == if clicked then old(currentPage) - 1 else old(currentPage)
      ensures rooms == old(rooms) && loading == old(loading)
    {
      clicked := ShowPagination(|rooms|) && currentPage != 1;
      if clicked {
        currentPage := currentPage - 1;
      }
    }

    /** A click on Next: only possible while the controls show and the page is not the
        last one. */
    method ClickNext() returns (clicked: bool)
      requires Valid()
      modifies this
      ensures Valid()
      ensures clicked <==> ShowPagination(|rooms|) && old(currentPage) != PageCount()
      ensures currentPage == if clicked then old(currentPage) + 1 else old(currentPage)
      ensures rooms == old(rooms) && loading == old(loading)
    {
      clicked := ShowPagination(|rooms|) && currentPage != PageCount();
      if clicked {
        currentPage := currentPage + 1;
      }
    }
  }
}
