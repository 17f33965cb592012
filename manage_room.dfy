/** The room management page: the owner kicks participants and accepts or denies join
    requests; each list changes only after the server call resolves. */
module ManageRoom {
  import opened Base
  import opened Records

  /** A pending join request (`{user: {_id, username}}`). */
  datatype JoinRequest = JoinRequest(user: User)

  const KICK_FAILED := "Failed to kick user"
  const ACCEPT_FAILED := "Failed to accept request"
  const DENY_FAILED := "Failed to deny request"

  predicate RequestFrom(userId: UserId, r: JoinRequest)
  {
    r.user.id == userId
  }

  /** The requests not sent by `userId`, in order. */
  function WithoutRequest(requests: seq<JoinRequest>, userId: UserId): (r: seq<JoinRequest>)
    ensures forall i :: 0 <= i < |r| ==> r[i] in requests && r[i].user.id != userId
    ensures forall i :: 0 <= i < |requests| && requests[i].user.id != userId ==> requests[i] in r
  {
    Filter(requests, r => !RequestFrom(userId, r))
  }

  /** `requests.find(r => r.user._id === userId)`. */
  function RequestOf(requests: seq<JoinRequest>, userId: UserId): (r: Option<JoinRequest>)
    ensures r.Some? ==> r.value in requests && r.value.user.id == userId
    ensures r.None? <==> forall i :: 0 <= i < |requests| ==> requests[i].user.id != userId
  {
    Find(requests, r => RequestFrom(userId, r))
  }

  /** With one request from a user, the lookup finds that request. */
  lemma AcceptFindsThatRequest(before: seq<JoinRequest>, req: JoinRequest, after: seq<JoinRequest>)
    requires forall i :: 0 <= i < |before| ==> before[i].user.id != req.user.id
    ensures RequestOf(before + [req] + after, req.user.id) == Some(req)
  {
    var all := before + [req] + after;
    assert all[|before|] == req;
    assert forall j :: 0 <= j < |before| ==> all[j] == before[j];
    FindIsFirstMatch(all, r => RequestFrom(req.user.id, r), |before|);
  }

  /** With one request from a user, accepting or denying takes exactly that request out of
      the list and keeps the others in order. */
  lemma AcceptDropsThatRequest(before: seq<JoinRequest>, req: JoinRequest, after: seq<JoinRequest>)
    requires forall i :: 0 <= i < |before| ==> before[i].user.id != req.user.id
    requires forall i :: 0 <= i < |after| ==> after[i].user.id != req.user.id
    ensures WithoutRequest(before + [req] + after, req.user.id) == before + after
  {
    var id := req.user.id;
    WithoutRequestSplits(before + [req], after, id);
    WithoutRequestSplits(before, [req], id);
    assert WithoutRequest([req], id) == [];
    KeepOthersRequests(before, id);
    KeepOthersRequests(after, id);
  }

  lemma WithoutRequestSplits(a: seq<JoinRequest>, b: seq<JoinRequest>, userId: UserId)
    ensures WithoutRequest(a + b, userId) == WithoutRequest(a, userId) + WithoutRequest(b, userId)
  {
    FilterDistributes(a, b, r => !RequestFrom(userId, r));
  }

  lemma KeepOthersRequests(requests: seq<JoinRequest>, userId: UserId)
    requires forall i :: 0 <= i < |requests| ==> requests[i].user.id != userId
    ensures WithoutRequest(requests, userId) == requests
  {
    FilterKeepsAll(requests, r => !RequestFrom(userId, r));
  }

  /** `isOwner`: the signed-in user is the room's owner. The page renders nothing but a
      loading text until `me` is known. */
  predicate IsOwner(me: Option<UserId>, ownerId: Option<UserId>)
  {
    me.Some? && ownerId == me
  }

  /** The Kick button beside a participant. */
  predicate KickOffered(me: Option<UserId>, ownerId: Option<UserId>, target: User)
  {
    IsOwner(me, ownerId) && ownerId != Some(target.id)
  }

  /** The owner is never offered a Kick button for themself, and nobody but the owner is
      offered one at all. */
  lemma KickNeverTargetsOwner(me: Option<UserId>, ownerId: Option<UserId>, target: User)
    ensures KickOffered(me, ownerId, target) ==> me.Some? && me == ownerId && target.id != me.value
    ensures me.Some? && target.id == me.value ==> !KickOffered(me, ownerId, target)
  {
  }

  /** The page's state once loaded. */
  class RoomManager {
    var participants: seq<User>
    var requests: seq<JoinRequest>
    var ownerId: Option<UserId>
    var me: Option<UserId>

    constructor(participants: seq<User>, requests: seq<JoinRequest>, ownerId: Option<UserId>, me: Option<UserId>)
      ensures this.participants == participants && this.requests == requests
      ensures this.ownerId == ownerId && this.me == me
    {
      this.participants := participants;
      this.requests := requests;
      this.ownerId := ownerId;
      this.me := me;
    }

    /** The pending-requests section is shown to the owner only. */
    predicate ShowRequests()
      reads this
    {
      IsOwner(me, ownerId)
    }

    /** `kickUser`: on success the user leaves the participants; on failure an alert. */
    method KickUser(userId: UserId, ok: bool) returns (alert: Option<string>)
      modifies this
      ensures ok ==> alert.None? && participants == WithoutUser(old(participants), userId)
      ensures !ok ==> alert == Some(KICK_FAILED) && participants == old(participants)
      ensures requests == old(requests) && ownerId == old(ownerId) && me == old(me)
    {
      if !ok {
        return Some(KICK_FAILED);
      }
      participants := WithoutUser(participants, userId);
      alert := None;
    }

    /** `acceptRequest`: once the server accepts, the requester's user is appended to the
        participants and their requests are dropped. With no request from that user the
        lookup throws before either list is set, and the failure alert shows. */
    method AcceptRequest(userId: UserId, ok: bool) returns (alert: Option<string>)
      modifies this
      ensures var found := RequestOf(old(requests), userId);
        if ok && found.Some? then
          && alert.None?
          && participants == old(participants) + [found.value.user]
          && requests == WithoutRequest(old(requests), userId)
        else
          alert == Some(ACCEPT_FAILED) && participants == old(participants) && requests == old(requests)
      ensures ownerId == old(ownerId) && me == old(me)
    {
      if !ok {
        return Some(ACCEPT_FAILED);
      }
      var found := RequestOf(requests, userId);
      if found.None? {
        return Some(ACCEPT_FAILED);
      }
      participants := participants + [found.value.user];
      requests := WithoutRequest(requests, userId);
      alert := None;
    }

    /** `denyRequest`: on success the user's requests are dropped; participants never change. */
    method DenyRequest(userId: UserId, ok: bool) returns (alert: Option<string>)
      modifies this
      ensures ok ==> alert.None? && requests == WithoutRequest(old(requests), userId)
      ensures !ok ==> alert == Some(DENY_FAILED) && requests == old(requests)
      ensures participants == old(participants) && ownerId == old(ownerId) && me == old(me)
    {
      if !ok {
        return Some(DENY_FAILED);
      }
      requests := WithoutRequest(requests, userId);
      alert := None;
    }
  }
}
