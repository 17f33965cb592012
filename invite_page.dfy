/** The page that invites users into a room: a user search, the suggested friends, the
    pending friend requests, and the ids invited during this visit. */
module InvitePage {
  import opened Base
  import opened JsText
  import opened Records

  const INVITE_FAILED := "Error inviting user"

  /** The page's state. `message` is `None` where the server's success reply carried no
      message text (the page then holds `undefined`). */
  class InviteBoard {
    var query: string
    var results: seq<User>
    var message: Option<string>
    var friendInvites: seq<FriendInvite>
    var suggestedFriends: seq<User>
    var invitedUserIds: seq<UserId>

    constructor(friendInvites: seq<FriendInvite>, suggestedFriends: seq<User>)
      ensures query == "" && results == [] && message == Some("") && invitedUserIds == []
      ensures this.friendInvites == friendInvites && this.suggestedFriends == suggestedFriends
    {
      query := "";
      results := [];
      message := Some("");
      this.friendInvites := friendInvites;
      this.suggestedFriends := suggestedFriends;
      invitedUserIds := [];
    }

    /** The Invite button of a user, in the results or the suggestions, is disabled. */
    predicate InviteDisabled(userId: UserId)
      reads this
    {
      userId in invitedUserIds
    }

    method SetQuery(text: string)
      modifies this
      ensures query == text
      ensures results == old(results) && message == old(message) && friendInvites == old(friendInvites)
      ensures suggestedFriends == old(suggestedFriends) && invitedUserIds == old(invitedUserIds)
    {
      query := text;
    }

    /** `searchUsers`: a blank query sends nothing. Otherwise a response replaces the results
        (a missing list counts as empty) and a failure leaves them. */
    method SearchUsers(reply: Reply<Option<seq<User>>>) returns (requested: bool)
      modifies this
      ensures requested <==> !IsBlank(old(query))
      ensures requested && reply.Resolved? ==>
        results == (if reply.data.Some? then reply.data.value else [])
      ensures !(requested && reply.Resolved?) ==> results == old(results)
      ensures query == old(query) && message == old(message) && friendInvites == old(friendInvites)
      ensures suggestedFriends == old(suggestedFriends) && invitedUserIds == old(invitedUserIds)
    {
      if IsBlank(query) {
        return false;
      }
      requested := true;
      if reply.Resolved? {
        results := if reply.data.Some? then reply.data.value else [];
      }
    }

    /** `inviteUser`: on success the server's message is shown, the id joins the invited ids
        (its buttons are disabled from then on) and the user leaves both the suggestions and
        the results. On failure only the message changes, to the server's error or the
        default. */
    method InviteUser(userId: UserId, reply: Reply<Option<string>>)
      modifies this
      ensures reply.Resolved? ==>
        && message == reply.data
        && invitedUserIds == old(invitedUserIds) + [userId]
        && suggestedFriends == WithoutUser(old(suggestedFriends), userId)
        && results == WithoutUser(old(results), userId)
        && InviteDisabled(userId)
      ensures reply.Rejected? ==>
        && message == Some(OrDefault(reply.serverError, INVITE_FAILED))
        && invitedUserIds == old(invitedUserIds)
        && suggestedFriends == old(suggestedFriends)
        && results == old(results)
      ensures query == old(query) && friendInvites == old(friendInvites)
    {
      match reply
      case Rejected(error) =>
        message := Some(OrDefault(error, INVITE_FAILED));
      case Resolved(text) =>
        message := text;
        invitedUserIds := invitedUserIds + [userId];
        suggestedFriends := WithoutUser(suggestedFriends, userId);
        results := WithoutUser(results, userId);
    }

    /** `acceptFriendInvite`: the sender's request leaves the list once the server accepts. */
    method AcceptFriendInvite(senderId: UserId, ok: bool)
      modifies this
      ensures friendInvites == if ok then WithoutFriendInvite(old(friendInvites), senderId) else old(friendInvites)
      ensures query == old(query) && results == old(results) && message == old(message)
      ensures suggestedFriends == old(suggestedFriends) && invitedUserIds == old(invitedUserIds)
    {
      if ok {
        friendInvites := WithoutFriendInvite(friendInvites, senderId);
      }
    }

    /** `denyFriendInvite`: the sender's request leaves the list once the server rejects it. */
    method DenyFriendInvite(senderId: UserId, ok: bool)
      modifies this
      ensures friendInvites == if ok then WithoutFriendInvite(old(friendInvites), senderId) else old(friendInvites)
      ensures query == old(query) && results == old(results) && message == old(message)
      ensures suggestedFriends == old(suggestedFriends) && invitedUserIds == old(invitedUserIds)
    {
      if ok {
        friendInvites := WithoutFriendInvite(friendInvites, senderId);
      }
    }
  }
}
