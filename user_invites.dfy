/** The invites inbox: the room invitations and friend requests addressed to the user,
    narrowed by one search box, each answered with a server call. */
module UserInvites {
  import opened Base
  import opened JsText
  import opened Records

  const ROOM_INVITE_ACCEPTED := "\U{2705} Room invite accepted!"
  const ROOM_INVITE_ACCEPT_FAILED := "Failed to accept room invite"
  const ROOM_INVITE_DECLINED := "\U{274C} Room invite declined!"
  const ROOM_INVITE_DECLINE_FAILED := "Failed to decline room invite"
  const FRIEND_INVITE_ACCEPTED := "\U{2705} Friend request accepted!"
  const FRIEND_INVITE_ACCEPT_FAILED := "Failed to accept friend request"
  const FRIEND_INVITE_DENIED := "\U{274C} Friend request declined!"
  const FRIEND_INVITE_DENY_FAILED := "Failed to decline friend request"

  predicate RoomNameMatches(query: string, invite: RoomInvite)
  {
    ContainsIgnoringCase(invite.room.name, query)
  }

  /** `invite.username || ""`: a friend request without a username is matched as empty. */
  function SenderName(invite: FriendInvite): string
  {
    OrDefault(invite.username, "")
  }

  predicate SenderMatches(query: string, invite: FriendInvite)
  {
    ContainsIgnoringCase(SenderName(invite), query)
  }

  /** `filteredRoomInvites`: the invitations whose room name contains the query, ignoring
      case, in order. */
  function FilteredRoomInvites(invites: seq<RoomInvite>, query: string): (r: seq<RoomInvite>)
    ensures forall i :: 0 <= i < |r| ==> r[i] in invites && ContainsIgnoringCase(r[i].room.name, query)
    ensures forall i :: 0 <= i < |invites| && ContainsIgnoringCase(invites[i].room.name, query) ==> invites[i] in r
  {
    Filter(invites, inv => RoomNameMatches(query, inv))
  }

  /** `filteredFriendInvites`: the requests whose sender name contains the query, ignoring
      case, in order. */
  function FilteredFriendInvites(invites: seq<FriendInvite>, query: string): (r: seq<FriendInvite>)
    ensures forall i :: 0 <= i < |r| ==> r[i] in invites && ContainsIgnoringCase(SenderName(r[i]), query)
    ensures forall i :: 0 <= i < |invites| && ContainsIgnoringCase(SenderName(invites[i]), query) ==> invites[i] in r
  {
    Filter(invites, inv => SenderMatches(query, inv))
  }

  /** A request without a username is listed only while the query is empty. */
  lemma NamelessSenderMatchesOnlyEmptyQuery(invite: FriendInvite, query: string)
    requires invite.username.None?
    ensures SenderMatches(query, invite) <==> query == ""
  {
    assert SenderName(invite) == "";
    IncludesIffOccurs(ToLower(""), ToLower(query));
    if query == "" {
      EmptyQueryMatchesAll("");
    }
  }

  /** An empty search shows every invitation and every request, in order. */
  lemma EmptySearchShowsAll(roomInvites: seq<RoomInvite>, friendInvites: seq<FriendInvite>)
    ensures FilteredRoomInvites(roomInvites, "") == roomInvites
    ensures FilteredFriendInvites(friendInvites, "") == friendInvites
  {
    forall i | 0 <= i < |roomInvites| ensures RoomNameMatches("", roomInvites[i]) {
      EmptyQueryMatchesAll(roomInvites[i].room.name);
    }
    FilterKeepsAll(roomInvites, inv => RoomNameMatches("", inv));
    forall i | 0 <= i < |friendInvites| ensures SenderMatches("", friendInvites[i]) {
      EmptyQueryMatchesAll(SenderName(friendInvites[i]));
    }
    FilterKeepsAll(friendInvites, inv => SenderMatches("", inv));
  }

  predicate ForRoom(roomId: string, invite: RoomInvite)
  {
    invite.room.id == roomId
  }

  /** `roomInvites.filter(inv => inv.room._id !== roomId)`: every invitation into another
      room, in order. */
  function WithoutRoomInvites(invites: seq<RoomInvite>, roomId: string): (r: seq<RoomInvite>)
    ensures forall i :: 0 <= i < |r| ==> r[i] in invites && r[i].room.id != roomId
    ensures forall i :: 0 <= i < |invites| && invites[i].room.id != roomId ==> invites[i] in r
  {
    Filter(invites, inv => !ForRoom(roomId, inv))
  }

  /** Answering a room's invitations drops all of them, however many were pending. */
  lemma AnswerDropsEveryInviteForRoom(invites: seq<RoomInvite>, roomId: string)
    ensures forall i :: 0 <= i < |invites| && invites[i].room.id == roomId ==>
      invites[i] !in WithoutRoomInvites(invites, roomId)
    ensures |WithoutRoomInvites(invites, roomId)| + CountForRoom(invites, roomId) == |invites|
  {
    CountDropped(invites, roomId);
  }

  /** How many of the invitations are into the room. */
  function CountForRoom(invites: seq<RoomInvite>, roomId: string): nat
  {
    if |invites| == 0 then 0
    else (if ForRoom(roomId, invites[0]) then 1 else 0) + CountForRoom(invites[1..], roomId)
  }

  lemma {:induction false} CountDropped(invites: seq<RoomInvite>, roomId: string)
    ensures |WithoutRoomInvites(invites, roomId)| + CountForRoom(invites, roomId) == |invites|
  {
    if |invites| > 0 {
      CountDropped(invites[1..], roomId);
    }
  }

  /** The inbox's state. */
  class InvitesInbox {
    var roomInvites: seq<RoomInvite>
    var friendInvites: seq<FriendInvite>
    var message: string
    var searchQuery: string

    constructor(roomInvites: seq<RoomInvite>, friendInvites: seq<FriendInvite>)
      ensures this.roomInvites == roomInvites && this.friendInvites == friendInvites
      ensures message == "" && searchQuery == ""
    {
      this.roomInvites := roomInvites;
      this.friendInvites := friendInvites;
      message := "";
      searchQuery := "";
    }

    /** The invitations the page lists. */
    function ShownRoomInvites(): seq<RoomInvite>
      reads this
    {
      FilteredRoomInvites(roomInvites, searchQuery)
    }

    /** The friend requests the page lists. */
    function ShownFriendInvites(): seq<FriendInvite>
      reads this
    {
      FilteredFriendInvites(friendInvites, searchQuery)
    }

    method SetSearchQuery(text: string)
      modifies this
      ensures searchQuery == text
      ensures roomInvites == old(roomInvites) && friendInvites == old(friendInvites) && message == old(message)
    {
      searchQuery := text;
    }

    /** `acceptRoomInvite`: on success every invitation into that room goes. */
    method AcceptRoomInvite(roomId: string, ok: bool)
      modifies this
      ensures ok ==> message == ROOM_INVITE_ACCEPTED && roomInvites == WithoutRoomInvites(old(roomInvites), roomId)
      ensures !ok ==> message == ROOM_INVITE_ACCEPT_FAILED && roomInvites == old(roomInvites)
      ensures friendInvites == old(friendInvites) && searchQuery == old(searchQuery)
    {
      if ok {
        message := ROOM_INVITE_ACCEPTED;
        roomInvites := WithoutRoomInvites(roomInvites, roomId);
      } else {
        message := ROOM_INVITE_ACCEPT_FAILED;
      }
    }

    /** `declineRoomInvite`: on success every invitation into that room goes. */
    method DeclineRoomInvite(roomId: string, ok: bool)
      modifies this
      ensures ok ==> message == ROOM_INVITE_DECLINED && roomInvites == WithoutRoomInvites(old(roomInvites), roomId)
      ensures !ok ==> message == ROOM_INVITE_DECLINE_FAILED && roomInvites == old(roomInvites)
      ensures friendInvites == old(friendInvites) && searchQuery == old(searchQuery)
    {
      if ok {
        message := ROOM_INVITE_DECLINED;
        roomInvites := WithoutRoomInvites(roomInvites, roomId);
      } else {
        message := ROOM_INVITE_DECLINE_FAILED;
      }
    }

    /** `acceptFriendInvite`: on success the sender's request goes. */
    method AcceptFriendInvite(senderId: UserId, ok: bool)
      modifies this
      ensures ok ==> message == FRIEND_INVITE_ACCEPTED && friendInvites == WithoutFriendInvite(old(friendInvites), senderId)
      ensures !ok ==> message == FRIEND_INVITE_ACCEPT_FAILED && friendInvites == old(friendInvites)
      ensures roomInvites == old(roomInvites) && searchQuery == old(searchQuery)
    {
      if ok {
        friendInvites := WithoutFriendInvite(friendInvites, senderId);
        message := FRIEND_INVITE_ACCEPTED;
      } else {
        message := FRIEND_INVITE_ACCEPT_FAILED;
      }
    }

    /** `denyFriendInvite`: on success the sender's request goes. */
    method DenyFriendInvite(senderId: UserId, ok: bool)
      modifies this
      ensures ok ==> message == FRIEND_INVITE_DENIED && friendInvites == WithoutFriendInvite(old(friendInvites), senderId)
      ensures !ok ==> message == FRIEND_INVITE_DENY_FAILED && friendInvites == old(friendInvites)
      ensures roomInvites == old(roomInvites) && searchQuery == old(searchQuery)
    {
      if ok {
        friendInvites := WithoutFriendInvite(friendInvites, senderId);
        message := FRIEND_INVITE_DENIED;
      } else {
        message := FRIEND_INVITE_DENY_FAILED;
      }
    }
  }
}
