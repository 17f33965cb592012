/** The server records the pages exchange, reduced to the fields the client logic reads. */
module Records {
  import opened Base

  type UserId = string

  /** A user as the server returns it (`{_id, username}`). */
  datatype User = User(id: UserId, username: string)

  /** A room as embedded in memberships, invites and search results (`{_id, name}`). */
  datatype RoomRef = RoomRef(id: string, name: string)

  /** A membership record from `GET /api/rooms`: the room, the approval status
      ("accepted", "pending", ...) and the member's role ("owner", "admin", ...). */
  datatype Membership = Membership(room: RoomRef, status: string, role: string)

  /** A pending friend request, keyed by the sender's id; the username may be missing. */
  datatype FriendInvite = FriendInvite(id: UserId, username: Option<string>)

  /** A pending invitation into a room. */
  datatype RoomInvite = RoomInvite(id: string, room: RoomRef)

  predicate IsUser(userId: UserId, u: User)
  {
    u.id == userId
  }

  /** `users.filter(u => u._id !== userId)`: everyone but that user, in order. */
  function WithoutUser(users: seq<User>, userId: UserId): (r: seq<User>)
    ensures forall i :: 0 <= i < |r| ==> r[i] in users && r[i].id != userId
    ensures forall i :: 0 <= i < |users| && users[i].id != userId ==> users[i] in r
  {
    Filter(users, u => !IsUser(userId, u))
  }

  /** Removing a user who is not listed changes nothing. */
  lemma WithoutAbsentUser(users: seq<User>, userId: UserId)
    requires forall i :: 0 <= i < |users| ==> users[i].id != userId
    ensures WithoutUser(users, userId) == users
  {
    FilterKeepsAll(users, u => !IsUser(userId, u));
  }

  /** Removal keeps the relative order of everyone else: it splits over any cut. */
  lemma WithoutUserSplits(a: seq<User>, b: seq<User>, userId: UserId)
    ensures WithoutUser(a + b, userId) == WithoutUser(a, userId) + WithoutUser(b, userId)
  {
    FilterDistributes(a, b, u => !IsUser(userId, u));
  }

  predicate SentBy(senderId: UserId, inv: FriendInvite)
  {
    inv.id == senderId
  }

  /** `friendInvites.filter(inv => inv._id !== senderId)`: every friend request but that
      sender's, in order. */
  function WithoutFriendInvite(invites: seq<FriendInvite>, senderId: UserId): (r: seq<FriendInvite>)
    ensures forall i :: 0 <= i < |r| ==> r[i] in invites && r[i].id != senderId
    ensures forall i :: 0 <= i < |invites| && invites[i].id != senderId ==> invites[i] in r
  {
    Filter(invites, inv => !SentBy(senderId, inv))
  }

  /** Answering a request from a sender who has none pending changes nothing. */
  lemma WithoutAbsentFriendInvite(invites: seq<FriendInvite>, senderId: UserId)
    requires forall i :: 0 <= i < |invites| ==> invites[i].id != senderId
    ensures WithoutFriendInvite(invites, senderId) == invites
  {
    FilterKeepsAll(invites, inv => !SentBy(senderId, inv));
  }
}
