/** The friends page: the friend list with removal, a user search, and friend requests
    remembered for the visit so that each user is asked at most once. */
module FriendsPage {
  import opened Base
  import opened JsText
  import opened Records

  const FRIEND_REMOVED := "Friend removed."
  const REMOVE_FAILED := "Failed to remove friend."
  const SEARCH_FAILED := "Error searching for users."
  const REQUEST_SENT := "Friend request sent."
  const REQUEST_FAILED := "Failed to send request."

  /** The page's state. */
  class FriendsBook {
    var friends: seq<User>
    var query: string
    var results: seq<User>
    var message: string
    var sentRequests: set<UserId>

    constructor(friends: seq<User>)
      ensures this.friends == friends
      ensures query == "" && results == [] && message == "" && sentRequests == {}
    {
      this.friends := friends;
      query := "";
      results := [];
      message := "";
      sentRequests := {};
    }

    /** The Add Friend button of a search result is disabled. */
    predicate AddDisabled(userId: UserId)
      reads this
    {
      userId in sentRequests
    }

    method SetQuery(text: string)
      modifies this
      ensures query == text
      ensures friends == old(friends) && results == old(results)
      ensures message == old(message) && sentRequests == old(sentRequests)
    {
      query := text;
    }

    /** `removeFriend`: on success the friend leaves the list. */
    method RemoveFriend(friendId: UserId, ok: bool)
      modifies this
      ensures ok ==> friends == WithoutUser(old(friends), friendId) && message == FRIEND_REMOVED
      ensures !ok ==> friends == old(friends) && message == REMOVE_FAILED
      ensures query == old(query) && results == old(results) && sentRequests == old(sentRequests)
    {
      if ok {
        friends := WithoutUser(friends, friendId);
        message := FRIEND_REMOVED;
      } else {
        message := REMOVE_FAILED;
      }
    }

    /** `searchUsers`: a blank query sends nothing. Otherwise a response replaces the
        results and clears the message; a failure only sets the message. */
    method SearchUsers(response: Option<seq<User>>) returns (requested: bool)
      modifies this
      ensures requested <==> !IsBlank(old(query))
      ensures !requested ==> results == old(results) && message == old(message)
      ensures requested && response.Some? ==> results == response.value && message == ""
      ensures requested && response.None? ==> results == old(results) && message == SEARCH_FAILED
      ensures friends == old(friends) && query == old(query) && sentRequests == old(sentRequests)
    {
      if IsBlank(query) {
        return false;
      }
      requested := true;
      match response
      case Some(users) =>
        results := users;
        message := "";
      case None =>
        message := SEARCH_FAILED;
    }

    /** `sendFriendRequest`: a user already asked is not asked again. Otherwise a success
        adds the user to the asked set, keeping everyone asked before, and shows the
        server's message or the default; a failure shows the server's message or its own
        default and asks nobody. */
    method SendFriendRequest(targetId: UserId, reply: Reply<Option<string>>) returns (sent: bool)
      modifies this
      ensures sent <==> targetId !in old(sentRequests)
      ensures !sent ==> sentRequests == old(sentRequests) && message == old(message)
      ensures sent && reply.Resolved? ==>
        sentRequests == old(sentRequests) + {targetId} && message == OrDefault(reply.data, REQUEST_SENT)
      ensures sent && reply.Rejected? ==>
        sentRequests == old(sentRequests) && message == OrDefault(reply.serverError, REQUEST_FAILED)
      ensures old(sentRequests) <= sentRequests
      ensures reply.Resolved? ==> AddDisabled(targetId)
      ensures friends == old(friends) && query == old(query) && results == old(results)
    {
      if targetId in sentRequests {
        return false;
      }
      sent := true;
      match reply
      case Resolved(text) =>
        sentRequests := sentRequests + {targetId};
        message := OrDefault(text, REQUEST_SENT);
      case Rejected(error) =>
        message := OrDefault(error, REQUEST_FAILED);
    }
  }
}
