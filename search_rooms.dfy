/** The room search page: the public rooms filtered by name, each classified against the
    user's memberships to decide between "member", "pending" and a join button. */
module SearchRooms {
  import opened Base
  import opened JsText
  import opened Records

  /** What `getRoomStatus` returns: "none", "pending" or "member". */
  datatype RoomStatus = NoStatus | PendingStatus | MemberStatus

  predicate MembershipOf(roomId: string, m: Membership)
  {
    m.room.id == roomId
  }

  /** The status a membership record stands for. */
  function StatusOf(status: string): RoomStatus
  {
    if status == "pending" then PendingStatus
    else if status == "accepted" then MemberStatus
    else NoStatus
  }

  /** `getRoomStatus`: the first membership for the room decides; no membership is "none". */
  function GetRoomStatus(memberships: seq<Membership>, roomId: string): (r: RoomStatus)
    ensures (forall i :: 0 <= i < |memberships| ==> memberships[i].room.id != roomId) ==> r == NoStatus
  {
    match Find(memberships, m => MembershipOf(roomId, m))
    case None => NoStatus
    case Some(m) => StatusOf(m.status)
  }

  /** The first membership for the room decides its status, whatever follows it. */
  lemma FirstMembershipDecides(memberships: seq<Membership>, roomId: string, i: nat)
    requires i < |memberships| && memberships[i].room.id == roomId
    requires forall j :: 0 <= j < i ==> memberships[j].room.id != roomId
    ensures GetRoomStatus(memberships, roomId) == StatusOf(memberships[i].status)
  {
    FindIsFirstMatch(memberships, m => MembershipOf(roomId, m), i);
  }

  /** "member" exactly for an accepted first membership, "pending" exactly for a pending one;
      every other status, like no membership at all, is "none". */
  lemma StatusClassification(memberships: seq<Membership>, roomId: string)
    ensures var r := GetRoomStatus(memberships, roomId);
      && (r == MemberStatus <==> exists i :: FirstMembershipAt(memberships, roomId, i) && memberships[i].status == "accepted")
      && (r == PendingStatus <==> exists i :: FirstMembershipAt(memberships, roomId, i) && memberships[i].status == "pending")
  {
    var p := (m: Membership) => MembershipOf(roomId, m);
    var k := FirstIndex(memberships, p);
    if k.Some? {
      assert FirstMembershipAt(memberships, roomId, k.value);
      FindIsFirstMatch(memberships, p, k.value);
    }
  }

  /** Position `i` holds the first membership for the room. */
  predicate FirstMembershipAt(memberships: seq<Membership>, roomId: string, i: int)
  {
    && 0 <= i < |memberships| && memberships[i].room.id == roomId
    && forall j :: 0 <= j < i ==> memberships[j].room.id != roomId
  }

  /** The join button is rendered for status "none" only. */
  predicate ShowJoinButton(status: RoomStatus)
  {
    status == NoStatus
  }

  /** The join button is offered exactly when the user has no membership for the room, or
      the first one is neither pending nor accepted. */
  lemma JoinOfferedIff(memberships: seq<Membership>, roomId: string)
    ensures ShowJoinButton(GetRoomStatus(memberships, roomId)) <==>
      forall i :: FirstMembershipAt(memberships, roomId, i) ==>
        memberships[i].status != "pending" && memberships[i].status != "accepted"
  {
    StatusClassification(memberships, roomId);
  }

  predicate NameMatches(query: string, room: RoomRef)
  {
    ContainsIgnoringCase(room.name, query)
  }

  /** `filteredRooms`: the rooms whose name contains the query, ignoring case, in order. */
  function FilteredRooms(rooms: seq<RoomRef>, query: string): (r: seq<RoomRef>)
    ensures forall i :: 0 <= i < |r| ==> r[i] in rooms && ContainsIgnoringCase(r[i].name, query)
    ensures forall i :: 0 <= i < |rooms| && ContainsIgnoringCase(rooms[i].name, query) ==> rooms[i] in r
  {
    Filter(rooms, room => NameMatches(query, room))
  }

  /** An empty query lists every room, in the server's order. */
  lemma EmptyQueryListsAllRooms(rooms: seq<RoomRef>)
    ensures FilteredRooms(rooms, "") == rooms
  {
    forall i | 0 <= i < |rooms| ensures NameMatches("", rooms[i]) {
      EmptyQueryMatchesAll(rooms[i].name);
    }
    FilterKeepsAll(rooms, room => NameMatches("", room));
  }

  /** The filter keeps the server's order: it splits over any cut of the list. */
  lemma FilteredRoomsKeepOrder(a: seq<RoomRef>, b: seq<RoomRef>, query: string)
    ensures FilteredRooms(a + b, query) == FilteredRooms(a, query) + FilteredRooms(b, query)
  {
    FilterDistributes(a, b, room => NameMatches(query, room));
  }
}
