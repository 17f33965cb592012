# SecureWebChat front end: a verified model of its client logic

This project is a Dafny model of the client logic of the SecureWebChat front end, with proofs about that model.

- **Room chat session** (`RoomChat.jsx`). The model covers:
  - the ring of room keys by version, rebuilt by `roomKeys` and extended by `roomKeyUpdated`;
  - per-message key resolution, with its two placeholders;
  - the message buffer, fed by live `chatMessage` delivery and by history pages;
  - the backfill pager (`hasMore` and the in-flight flag);
  - the gate in front of `sendMessage`.
- **Device identity key** (`Login.jsx`). The model covers `generateOrGetKeyPair` over the `localStorage` slots "privateKey" and "publicKey", and the key checks `connectWallet` makes before it sends a login request.
- **List and set transitions after server calls** on the dashboard, room search, room management, invite, inbox and friends pages.

Each page whose handlers change its state is a class whose fields are that state. The room search page has no such handler in the model: its rooms, memberships and query are passed to its functions as arguments, and its loading flag is left out. Each event handler, or each completion of a server call, is a method. Each method's `ensures` gives the whole new state, usually as a pure function of the old state. The properties of those functions are proved as lemmas.

The model does not cover cryptography, I/O or time. They appear as parameters:
- RSA-OAEP unwrapping (section 7.1 of RFC 8017) and AES-GCM encryption and decryption (NIST SP 800-38D) are function parameters that return a value or `None`.
- Whether a private JWK imports is a predicate parameter. Key generation is given as its outcome.
- The 12 random IV bytes are a parameter.
- Each server reply or socket event is a method argument: a `Reply`, an `Option`, or an `ok: bool`.

Modules:
- `Base`: `Option`, `Reply`, and `filter`/`findIndex`/`find` as `Filter`/`FirstIndex`/`Find`.
- `JsText`: `trim`, ASCII `toLowerCase`, `includes`, and the `||` default.
- `Records`: the server records, and the id-keyed removals that several pages share.
- One module for each page: `RoomChat`, `Login`, `Dashboard`, `SearchRooms`, `ManageRoom`, `InvitePage`, `UserInvites` and `FriendsPage`.

## Behaviour kept as written

The model follows the code as written:
- **Sending.** `sendMessage` encrypts with the key for `room.currentKeyVersion`, loaded once at initialisation (`RoomChat.jsx:210`, `:229`). It does not use the highest version in the ring. A rotation therefore does not change the version used for sending.
- **After a rotation.** `roomKeyUpdated` adds the new key only to `keysByVersion` (`RoomChat.jsx:99-103`). Live decryption and backfill read `keysByVersionRef` (`RoomChat.jsx:74`, `:194`), which only `roomKeys` sets. Until the next `roomKeys` event, a live message under the new version shows the unknown-version placeholder. `RoomChat.RotationThenLiveDelivery` proves this.
- **Failed rotation.** A failed rotation unwrap raises a reload warning. It does not block sending.
- **Leaving a room.** Completions that arrive after leaving are not cancelled.
- **Rotation recipient.** The rotation handler looks up `encryptedKeys[me]` with the `me` its closure captured. The model takes that value as an explicit parameter. An absent `me` is looked up as the property name `"null"`. The effect that registers the handler depends only on `[id, navigate]` (`RoomChat.jsx:29-122`), so on a freshly mounted page the handler holds the `me` of the first render, which is `null` (`RoomChat.jsx:17`). `setMe` (`RoomChat.jsx:37`) reaches only later renders. With the wrapped keys listed by user id, every rotation is then ignored, until a route change runs the effect again while the page stays mounted. `RoomChat.RotationOnFirstMount` proves this for one rotation.

## Model

| member | source | states |
|---|---|---|
| Base.Filter | frontend/vite-project/src/components/Dashboard.jsx:24-26 | `filter` keeps exactly the elements that satisfy the predicate: every kept element comes from the input and satisfies it, every satisfying input element is kept, and the result is no longer than the input |
| Base.FilterDistributes | frontend/vite-project/src/components/RoomChat.jsx:152 | filtering splits over concatenation, so kept elements keep their relative order |
| Base.FirstIndex | frontend/vite-project/src/components/SearchRooms.jsx:58 | the index returned is the first position that satisfies the predicate; there is none exactly when no position does |
| Base.Find | frontend/vite-project/src/components/ManageRoom.jsx:65 | `find` returns a matching element from the list, and returns nothing exactly when no element matches |
| Base.FindIsFirstMatch | frontend/vite-project/src/components/SearchRooms.jsx:58 | the first matching element is what `find` returns |
| JsText.Trim | frontend/vite-project/src/components/InvitePage.jsx:43 | defines `String.prototype.trim`: whitespace and line terminators stripped from both ends; see `JsText.BlankIffAllWhitespace` |
| JsText.IsBlank | frontend/vite-project/src/components/InvitePage.jsx:43 | defines the pages' `!s.trim()` test; `JsText.BlankIffAllWhitespace` proves it holds exactly for all-whitespace texts |
| JsText.BlankIffAllWhitespace | frontend/vite-project/src/components/InvitePage.jsx:43 | `!s.trim()` holds exactly for texts made only of ECMAScript whitespace and line terminators, including the empty text |
| JsText.ToLower | frontend/vite-project/src/components/SearchRooms.jsx:54 | lower-casing keeps the length and maps each character on its own |
| JsText.Includes | frontend/vite-project/src/components/SearchRooms.jsx:54 | defines `String.prototype.includes` by recursion; `JsText.IncludesIffOccurs` and `JsText.EverythingIncludesEmpty` characterise it |
| JsText.IncludesIffOccurs | frontend/vite-project/src/components/SearchRooms.jsx:54 | `includes` holds exactly when the needle occurs at some position of the text |
| JsText.EverythingIncludesEmpty | frontend/vite-project/src/components/SearchRooms.jsx:54 | every text includes the empty text |
| JsText.ContainsIgnoringCase | frontend/vite-project/src/components/SearchRooms.jsx:54 | defines the search filters' test `text.toLowerCase().includes(query.toLowerCase())`; see `JsText.EmptyQueryMatchesAll` and `JsText.MatchIgnoresCase` |
| JsText.EmptyQueryMatchesAll | frontend/vite-project/src/components/UserInvites.jsx:99-105 | the case-insensitive match accepts every text when the query is empty |
| JsText.MatchIgnoresCase | frontend/vite-project/src/components/UserInvites.jsx:99-101 | the match gives the same answer when either side is lower-cased first |
| JsText.OrDefault | frontend/vite-project/src/components/InvitePage.jsx:70 | `text \|\| fallback` is the text when it is present and non-empty, otherwise the fallback |
| Records.WithoutUser | frontend/vite-project/src/components/FriendsPage.jsx:43 | removing a user by id keeps exactly the users with another id |
| Records.WithoutAbsentUser | frontend/vite-project/src/components/ManageRoom.jsx:51 | removing an id that is not listed changes nothing |
| Records.WithoutUserSplits | frontend/vite-project/src/components/InvitePage.jsx:65-68 | removal splits over concatenation, so the other users keep their order |
| Records.WithoutFriendInvite | frontend/vite-project/src/components/InvitePage.jsx:83-85 | answering a friend request keeps exactly the requests from other senders |
| Records.WithoutAbsentFriendInvite | frontend/vite-project/src/components/UserInvites.jsx:72 | answering for a sender with no pending request changes nothing |
| RoomChat.NatToDecimal | frontend/vite-project/src/components/RoomChat.jsx:77 | a version renders as a non-empty string of decimal digits |
| RoomChat.IntToDecimalRoundTrip | frontend/vite-project/src/components/RoomChat.jsx:77 | reading a rendered version back gives that version, negative ones included |
| RoomChat.UnknownKeyPlaceholderInjective | frontend/vite-project/src/components/RoomChat.jsx:77 | `[Unknown key version: v]` names its version exactly: equal placeholders mean equal versions |
| RoomChat.ResolveContent | frontend/vite-project/src/components/RoomChat.jsx:74-77 | defines per-message key resolution: the decrypted text, `[Failed to decrypt message]`, or the unknown-version placeholder; see `RoomChat.PlaceholdersTellCasesApart` and `RoomChat.ResolutionUsesOwnVersionOnly` |
| RoomChat.PlaceholdersTellCasesApart | frontend/vite-project/src/components/RoomChat.jsx:74-77 | no unknown-version placeholder equals `[Failed to decrypt message]`; a message whose version is missing shows neither that text nor a placeholder naming another version, so a missing key and a failed decryption are told apart |
| RoomChat.ResolutionUsesOwnVersionOnly | frontend/vite-project/src/components/RoomChat.jsx:142-145 | a message resolves by its own version alone: two maps that agree on that version give the same content |
| RoomChat.Displayed | frontend/vite-project/src/components/RoomChat.jsx:142-146 | defines `{ ...m, content }`: the record with its content resolved; see `RoomChat.DecryptPageKeepsRecords` |
| RoomChat.DecryptPage | frontend/vite-project/src/components/RoomChat.jsx:140-148 | defines the decryption of a history page, record by record; `RoomChat.DecryptPageKeepsRecords` proves what it keeps |
| RoomChat.DecryptPageKeepsRecords | frontend/vite-project/src/components/RoomChat.jsx:140-148 | decrypting a page keeps every record in order, with its id, user, version, IV and timestamp; only the content changes, to its resolved text |
| RoomChat.AppendUnseen | frontend/vite-project/src/components/RoomChat.jsx:79 | defines the live-delivery updater: append unless the id is buffered; see `RoomChat.LiveDeliveryKeepsIdsUnique` and `RoomChat.LiveDeliveryIdempotent` |
| RoomChat.LiveDeliveryKeepsIdsUnique | frontend/vite-project/src/components/RoomChat.jsx:79 | live delivery keeps buffer ids unique and the old buffer as a prefix, and the message's id is buffered afterwards |
| RoomChat.LiveDeliveryIdempotent | frontend/vite-project/src/components/RoomChat.jsx:79 | delivering the same message twice leaves the buffer as delivering it once |
| RoomChat.Unseen | frontend/vite-project/src/components/RoomChat.jsx:152 | defines `deduped`: the page entries whose id is not buffered; see `RoomChat.UnseenKeepsIdsUnique` |
| RoomChat.PrependUnseen | frontend/vite-project/src/components/RoomChat.jsx:150-154 | defines the backfill updater `[...deduped, ...prev]`; see `RoomChat.BackfillKeepsBufferAndPage`, `RoomChat.BackfillMerge` and `RoomChat.PageDuplicatesKept` |
| RoomChat.ApplyPage | frontend/vite-project/src/components/RoomChat.jsx:150-162 | defines how a completed page changes the buffer: prepended when backfilling, replacing it otherwise; used by `RoomChat.RoomSession.OnFetchResult` |
| RoomChat.UnseenKeepsIdsUnique | frontend/vite-project/src/components/RoomChat.jsx:152 | the page entries not yet buffered have unique ids when the page does |
| RoomChat.BackfillKeepsBufferAndPage | frontend/vite-project/src/components/RoomChat.jsx:150-154 | for any page and buffer, duplicates included: the old buffer is kept whole as a suffix, every entry comes from the page or the buffer, and every page id is buffered afterwards |
| RoomChat.BackfillMerge | frontend/vite-project/src/components/RoomChat.jsx:150-154 | prepending a page keeps ids unique and keeps the old buffer whole as a suffix; every entry comes from the page or the buffer, and every page id is buffered afterwards |
| RoomChat.PageDuplicatesKept | frontend/vite-project/src/components/RoomChat.jsx:152-153 | a page that holds the same id twice is prepended with both entries, because duplicates within a page are not removed |
| RoomChat.BuildRing | frontend/vite-project/src/components/RoomChat.jsx:62-67 | defines the ring the `roomKeys` loop builds, `None` when an unwrap throws; see `RoomChat.BuildRingFails` and `RoomChat.BuildRingContents` |
| RoomChat.BuildRingFails | frontend/vite-project/src/components/RoomChat.jsx:64-67 | building the ring fails exactly when some delivered entry fails to unwrap |
| RoomChat.BuildRingContents | frontend/vite-project/src/components/RoomChat.jsx:62-69 | a built ring holds exactly the delivered versions, each mapped to the key from the last entry delivered for it |
| RoomChat.Rotated | frontend/vite-project/src/components/RoomChat.jsx:99-103 | defines the rotation handler's map updater: a copy with the new version set; see `RoomChat.RotationIsAdditive` |
| RoomChat.RotationIsAdditive | frontend/vite-project/src/components/RoomChat.jsx:99-103 | adding a rotated key adds its version and keeps every other version with its key |
| RoomChat.SendKey | frontend/vite-project/src/components/RoomChat.jsx:209-211 | defines the key `sendMessage` encrypts with, or none when it returns early; `RoomChat.SendGate` states the gate by its conditions |
| RoomChat.SendGate | frontend/vite-project/src/components/RoomChat.jsx:209-211 | a send key is chosen exactly when the input is not blank, the socket exists, the room is loaded and the ring has a key for `room.currentKeyVersion`; the key chosen is that one |
| RoomChat.RoomSession.constructor | frontend/vite-project/src/components/RoomChat.jsx:14-27 | the session starts with empty state, an empty key map and ref, `hasMore` true and both in-flight flags down |
| RoomChat.RoomSession.SetInput | frontend/vite-project/src/components/RoomChat.jsx:316 | typing changes only the input |
| RoomChat.RoomSession.InitRoom | frontend/vite-project/src/components/RoomChat.jsx:37-47 | initialisation sets `me` and the room, empties the buffer, re-arms `hasMore`, and starts a replacing fetch from 0 with an empty key map |
| RoomChat.RoomSession.StartFetch | frontend/vite-project/src/components/RoomChat.jsx:128-136 | a fetch raises both in-flight flags and asks for 20 records from `skip` |
| RoomChat.RoomSession.AttachSocket | frontend/vite-project/src/components/RoomChat.jsx:110-111 | the socket becomes available and nothing else changes |
| RoomChat.RoomSession.OnRoomKeys | frontend/vite-project/src/components/RoomChat.jsx:62-71 | the unwrap loop builds the ring. If any unwrap fails, nothing changes and no fetch starts. Otherwise the key map and the ref both become the ring, and a replacing fetch from 0 starts with that ring |
| RoomChat.RoomSession.OnChatMessage | frontend/vite-project/src/components/RoomChat.jsx:73-81 | the message is resolved against the ref's key map, then appended unless its id is buffered; nothing else changes |
| RoomChat.RoomSession.OnOnlineUsers | frontend/vite-project/src/components/RoomChat.jsx:92 | presence is replaced wholesale |
| RoomChat.RoomSession.OnRoomKeyUpdated | frontend/vite-project/src/components/RoomChat.jsx:94-108 | with no truthy entry for the captured `me`, nothing changes. A failed unwrap changes nothing and warns to reload. Otherwise the new version is added to `keysByVersion` only; the ref and the room stay as they were |
| RoomChat.RoomSession.HandleScroll | frontend/vite-project/src/components/RoomChat.jsx:188-198 | a backfill starts exactly when the container is mounted, no fetch is in flight, `hasMore` holds and `scrollTop` < 100. It skips the buffered count, prepends, and uses the ref's key map |
| RoomChat.RoomSession.OnFetchResult | frontend/vite-project/src/components/RoomChat.jsx:140-174 | a page is decrypted with the request's map and then prepended without buffered ids, or else replaces the buffer. `hasMore` falls exactly on a page shorter than 20 and never rises. Both flags are cleared, after a failure too |
| RoomChat.RoomSession.SendMessage | frontend/vite-project/src/components/RoomChat.jsx:208-236 | nothing is emitted when the gate is closed or encryption fails. Otherwise the event carries the 12-byte IV and `room.currentKeyVersion`, a version held in the map, and the input is cleared |
| RoomChat.RotationThenLiveDelivery | frontend/vite-project/src/components/RoomChat.jsx:94-103 | after a successful rotation from version 1 to 2, a live version-1 message still decrypts, and a live version-2 message shows the unknown-version placeholder; the handler is given the `me` it holds after the effect has run again on a route change |
| RoomChat.RotationOnFirstMount | frontend/vite-project/src/components/RoomChat.jsx:94-96 | on a freshly mounted page the rotation handler holds the first render's `me`, which is `null`, so a rotation whose keys are listed by user id is ignored and the key map keeps only the old version |
| RoomChat.BackfillExhaustion | frontend/vite-project/src/components/RoomChat.jsx:166 | a first page of 7 records ends the history, and a scroll to the top then starts no fetch |
| Login.PatchMetadata | frontend/vite-project/src/components/Login.jsx:39-42 | defines the four assignments that patch a public JWK; `Login.PatchProperties` proves what they set and keep |
| Login.Reusable | frontend/vite-project/src/components/Login.jsx:19-36 | defines when the stored pair is reused: both slots present and parsed, no `d` in the public record, and the private record imports |
| Login.GenerateOrGet | frontend/vite-project/src/components/Login.jsx:14-83 | defines `generateOrGetKeyPair` on the two slots; see `Login.ReuseWhenValid`, `Login.InvalidPairIsWiped`, `Login.GenerationOutcome` and `Login.ReturnedKeyIsPatchedAndStored` |
| Login.Connect | frontend/vite-project/src/components/Login.jsx:109-122 | defines the key checks of `connectWallet`; see `Login.LoginNeverLeaksPrivateField`, `Login.ValidStoredPairLogsIn` and `Login.GenerationFailureBlocksLogin` |
| Login.PatchProperties | frontend/vite-project/src/components/Login.jsx:39-42 | the patch sets `alg`, `use`, `key_ops` and `ext`, and keeps every other member, the private exponent included; patching twice equals patching once |
| Login.ReuseWhenValid | frontend/vite-project/src/components/Login.jsx:19-45 | a validated stored pair is reused: the patched stored public key is returned and rewritten, the private slot is untouched, and the key has no `d` |
| Login.InvalidPairIsWiped | frontend/vite-project/src/components/Login.jsx:46-50 | a present pair that fails validation is removed from both slots. A failed generation then leaves both slots empty and returns nothing; a successful one stores its private key |
| Login.GenerationOutcome | frontend/vite-project/src/components/Login.jsx:55-82 | without a reusable pair, generation stores both records and returns the patched public key, never the private record; a failed generation returns null |
| Login.ReturnedKeyIsPatchedAndStored | frontend/vite-project/src/components/Login.jsx:70-78 | every returned key carries the encryption metadata and is the key the public slot then holds |
| Login.LoginNeverLeaksPrivateField | frontend/vite-project/src/components/Login.jsx:116-129 | a login request never carries a truthy `d`, and its key is the stored public key; a key with `d` blocks the login and empties both slots |
| Login.ValidStoredPairLogsIn | frontend/vite-project/src/components/Login.jsx:109-129 | a validated stored pair always leads to a login request with its patched public key |
| Login.GenerationFailureBlocksLogin | frontend/vite-project/src/components/Login.jsx:110-114 | a failed generation blocks the login with its own message |
| Login.IdentityKeyStore.constructor | frontend/vite-project/src/components/Login.jsx:15-16 | the store holds the two slots as found |
| Login.IdentityKeyStore.GenerateOrGetKeyPair | frontend/vite-project/src/components/Login.jsx:14-83 | the step-by-step reads, checks, patch assignments, removals and writes return the key and leave the slots that `GenerateOrGet` specifies |
| Login.IdentityKeyStore.ConnectWallet | frontend/vite-project/src/components/Login.jsx:109-122 | the login outcome and the slots afterwards are those `Connect` specifies |
| Dashboard.AcceptedRooms | frontend/vite-project/src/components/Dashboard.jsx:24-26 | the listed memberships are exactly those with status "accepted" |
| Dashboard.AcceptedRoomsKeepOrder | frontend/vite-project/src/components/Dashboard.jsx:24-26 | the accepted filter keeps the server's order |
| Dashboard.TotalPages | frontend/vite-project/src/components/Dashboard.jsx:46 | defines `Math.ceil(rooms.length / 12)`; `Dashboard.TotalPagesIsCeiling` proves it is that ceiling |
| Dashboard.TotalPagesIsCeiling | frontend/vite-project/src/components/Dashboard.jsx:46 | `totalPages` is the fewest pages of 12 that hold all rooms, and it is 0 exactly for no rooms |
| Dashboard.SliceBound | frontend/vite-project/src/components/Dashboard.jsx:47-50 | a `slice` bound is converted into the list's range |
| Dashboard.JsSlice | frontend/vite-project/src/components/Dashboard.jsx:47-50 | a slice is never longer than the list |
| Dashboard.PageOf | frontend/vite-project/src/components/Dashboard.jsx:47-50 | defines `paginatedRooms`; see `Dashboard.PageIsBoundedSlice`, `Dashboard.PagesCoverList` and `Dashboard.RoomShownOnItsPage` |
| Dashboard.PageIsBoundedSlice | frontend/vite-project/src/components/Dashboard.jsx:47-50 | page p is the stretch from (p-1)*12 to p*12, clamped to the list, and holds at most 12 rooms |
| Dashboard.PagesUpToIsPrefix | frontend/vite-project/src/components/Dashboard.jsx:47-50 | pages 1 to k, laid end to end, are the first k*12 rooms |
| Dashboard.PagesCoverList | frontend/vite-project/src/components/Dashboard.jsx:46-50 | pages 1 to `totalPages`, laid end to end, are the whole list; every later page is empty |
| Dashboard.RoomShownOnItsPage | frontend/vite-project/src/components/Dashboard.jsx:47-50 | the room at index i appears on page i/12+1, at place i%12 |
| Dashboard.RemainingRooms | frontend/vite-project/src/components/Dashboard.jsx:43 | leaving keeps exactly the memberships of other rooms |
| Dashboard.LeaveDropsOnlyThatRoom | frontend/vite-project/src/components/Dashboard.jsx:43 | leaving a room not in the list changes nothing; leaving the last entry's room drops exactly that entry |
| Dashboard.LeaveCanStrandCurrentPage | frontend/vite-project/src/components/Dashboard.jsx:43-46 | from 13 rooms on page 2, leaving the 13th leaves one page, and the current page 2 then shows nothing |
| Dashboard.ShowPagination | frontend/vite-project/src/components/Dashboard.jsx:124 | defines when the pagination controls render: more than one page; used by `Dashboard.DashboardView.ClickPrev` and `Dashboard.DashboardView.ClickNext` |
| Dashboard.DashboardView.constructor | frontend/vite-project/src/components/Dashboard.jsx:7-9 | the view starts with no rooms, on page 1, loading |
| Dashboard.DashboardView.OnRoomsLoaded | frontend/vite-project/src/components/Dashboard.jsx:18-34 | a response lists its accepted memberships; a failure keeps the list; loading ends either way |
| Dashboard.DashboardView.LeaveRoom | frontend/vite-project/src/components/Dashboard.jsx:39-44 | once the delete resolves, that room's memberships are dropped; the current page is never adjusted |
| Dashboard.DashboardView.ClickPrev | frontend/vite-project/src/components/Dashboard.jsx:124-131 | Prev acts exactly when the controls show and the page is not 1; it moves back one page, so the page stays at least 1 |
| Dashboard.DashboardView.ClickNext | frontend/vite-project/src/components/Dashboard.jsx:124-140 | Next acts exactly when the controls show and the page differs from `totalPages`; it moves forward one page |
| SearchRooms.StatusOf | frontend/vite-project/src/components/SearchRooms.jsx:60-62 | defines the status a membership stands for: "pending", "member" for "accepted", "none" otherwise; see `SearchRooms.StatusClassification` |
| SearchRooms.GetRoomStatus | frontend/vite-project/src/components/SearchRooms.jsx:57-59 | with no membership for the room, the status is "none" |
| SearchRooms.FirstMembershipDecides | frontend/vite-project/src/components/SearchRooms.jsx:58-62 | the first membership for the room decides its status |
| SearchRooms.StatusClassification | frontend/vite-project/src/components/SearchRooms.jsx:57-63 | the status is "member" exactly when the first membership is accepted, and "pending" exactly when it is pending |
| SearchRooms.JoinOfferedIff | frontend/vite-project/src/components/SearchRooms.jsx:96-103 | the join button shows exactly when there is no membership, or the first one is neither pending nor accepted |
| SearchRooms.FilteredRooms | frontend/vite-project/src/components/SearchRooms.jsx:53-55 | the listed rooms are exactly those whose name contains the query, ignoring case |
| SearchRooms.EmptyQueryListsAllRooms | frontend/vite-project/src/components/SearchRooms.jsx:53-55 | an empty query lists every room, in order |
| SearchRooms.FilteredRoomsKeepOrder | frontend/vite-project/src/components/SearchRooms.jsx:53-55 | the filter keeps the server's order |
| ManageRoom.WithoutRequest | frontend/vite-project/src/components/ManageRoom.jsx:66 | dropping a user's requests keeps exactly the requests from others |
| ManageRoom.RequestOf | frontend/vite-project/src/components/ManageRoom.jsx:65 | the lookup returns a listed request from that user, and returns nothing exactly when there is none |
| ManageRoom.AcceptFindsThatRequest | frontend/vite-project/src/components/ManageRoom.jsx:65 | the lookup finds the user's first request |
| ManageRoom.AcceptDropsThatRequest | frontend/vite-project/src/components/ManageRoom.jsx:66 | with one request from a user, accepting or denying removes exactly that one, and the others keep their order |
| ManageRoom.WithoutRequestSplits | frontend/vite-project/src/components/ManageRoom.jsx:80 | dropping requests splits over concatenation |
| ManageRoom.KeepOthersRequests | frontend/vite-project/src/components/ManageRoom.jsx:80 | dropping a user with no request changes nothing |
| ManageRoom.IsOwner | frontend/vite-project/src/components/ManageRoom.jsx:89 | defines `isOwner`: `me` is known and is the owner; see `ManageRoom.KickNeverTargetsOwner` |
| ManageRoom.KickOffered | frontend/vite-project/src/components/ManageRoom.jsx:110 | defines when a Kick button shows beside a participant; `ManageRoom.KickNeverTargetsOwner` proves who can see it and for whom |
| ManageRoom.KickNeverTargetsOwner | frontend/vite-project/src/components/ManageRoom.jsx:89-110 | Kick is offered only to the owner, and never beside the owner's own entry |
| ManageRoom.RoomManager.constructor | frontend/vite-project/src/components/ManageRoom.jsx:8-11 | the page holds the loaded lists, the owner and `me` |
| ManageRoom.RoomManager.KickUser | frontend/vite-project/src/components/ManageRoom.jsx:44-56 | after a successful call, that user leaves the participants; a failure alerts and changes nothing |
| ManageRoom.RoomManager.AcceptRequest | frontend/vite-project/src/components/ManageRoom.jsx:58-71 | after a successful call, the found requester is appended to the participants and their requests are dropped. With a failed call or no matching request, both lists are unchanged and the page alerts |
| ManageRoom.RoomManager.DenyRequest | frontend/vite-project/src/components/ManageRoom.jsx:73-85 | after a successful call, the user's requests are dropped; the participants never change |
| InvitePage.InviteBoard.constructor | frontend/vite-project/src/components/InvitePage.jsx:8-13 | the page starts with the loaded requests and suggestions, and with nothing invited |
| InvitePage.InviteBoard.InviteDisabled | frontend/vite-project/src/components/InvitePage.jsx:129 | defines when an Invite button is disabled: the id was invited during the visit; `InvitePage.InviteBoard.InviteUser` ensures it holds after a successful invite |
| InvitePage.InviteBoard.SetQuery | frontend/vite-project/src/components/InvitePage.jsx:115 | typing changes only the query |
| InvitePage.InviteBoard.SearchUsers | frontend/vite-project/src/components/InvitePage.jsx:42-54 | a search is sent exactly for a non-blank query. A response replaces the results, with a missing list counting as empty; a failure keeps them |
| InvitePage.InviteBoard.InviteUser | frontend/vite-project/src/components/InvitePage.jsx:56-72 | on success, the id is appended to the invited ids, so its buttons are disabled, and the user leaves the suggestions and the results. On failure only the message changes, to the server error or "Error inviting user" |
| InvitePage.InviteBoard.AcceptFriendInvite | frontend/vite-project/src/components/InvitePage.jsx:76-89 | the sender's request goes after a successful call only |
| InvitePage.InviteBoard.DenyFriendInvite | frontend/vite-project/src/components/InvitePage.jsx:91-104 | the sender's request goes after a successful call only |
| UserInvites.FilteredRoomInvites | frontend/vite-project/src/components/UserInvites.jsx:99-101 | the listed invitations are exactly those whose room name contains the query, ignoring case |
| UserInvites.SenderName | frontend/vite-project/src/components/UserInvites.jsx:104 | defines `invite.username || ""`; see `UserInvites.NamelessSenderMatchesOnlyEmptyQuery` |
| UserInvites.FilteredFriendInvites | frontend/vite-project/src/components/UserInvites.jsx:103-105 | the listed requests are exactly those whose sender name contains the query, ignoring case; a missing name counts as "" |
| UserInvites.NamelessSenderMatchesOnlyEmptyQuery | frontend/vite-project/src/components/UserInvites.jsx:104 | a request without a username is listed exactly while the query is empty |
| UserInvites.EmptySearchShowsAll | frontend/vite-project/src/components/UserInvites.jsx:99-105 | an empty search shows every invitation and every request, in order |
| UserInvites.WithoutRoomInvites | frontend/vite-project/src/components/UserInvites.jsx:43 | answering a room keeps exactly the invitations into other rooms |
| UserInvites.AnswerDropsEveryInviteForRoom | frontend/vite-project/src/components/UserInvites.jsx:58 | every invitation into the room goes, and the list shrinks by exactly their number |
| UserInvites.CountDropped | frontend/vite-project/src/components/UserInvites.jsx:43 | the kept invitations plus those into the room make up the whole list |
| UserInvites.InvitesInbox.constructor | frontend/vite-project/src/components/UserInvites.jsx:8-12 | the inbox starts with the loaded lists, no message and an empty search |
| UserInvites.InvitesInbox.SetSearchQuery | frontend/vite-project/src/components/UserInvites.jsx:127 | typing changes only the search |
| UserInvites.InvitesInbox.AcceptRoomInvite | frontend/vite-project/src/components/UserInvites.jsx:35-48 | success drops the room's invitations and shows "✅ Room invite accepted!"; failure shows "Failed to accept room invite" and keeps them |
| UserInvites.InvitesInbox.DeclineRoomInvite | frontend/vite-project/src/components/UserInvites.jsx:50-63 | success drops the room's invitations and shows "❌ Room invite declined!"; failure shows "Failed to decline room invite" and keeps them |
| UserInvites.InvitesInbox.AcceptFriendInvite | frontend/vite-project/src/components/UserInvites.jsx:65-78 | success drops the sender's request and shows "✅ Friend request accepted!"; failure shows "Failed to accept friend request" and keeps it |
| UserInvites.InvitesInbox.DenyFriendInvite | frontend/vite-project/src/components/UserInvites.jsx:80-93 | success drops the sender's request and shows "❌ Friend request declined!"; failure shows "Failed to decline friend request" and keeps it |
| FriendsPage.FriendsBook.constructor | frontend/vite-project/src/components/FriendsPage.jsx:6-14 | the page starts with the loaded friends and nothing searched or asked |
| FriendsPage.FriendsBook.AddDisabled | frontend/vite-project/src/components/FriendsPage.jsx:139 | defines when an Add Friend button is disabled: the user was asked during the visit; `FriendsPage.FriendsBook.SendFriendRequest` ensures it holds after a successful request |
| FriendsPage.FriendsBook.SetQuery | frontend/vite-project/src/components/FriendsPage.jsx:124 | typing changes only the query |
| FriendsPage.FriendsBook.RemoveFriend | frontend/vite-project/src/components/FriendsPage.jsx:36-49 | success removes the friend and shows "Friend removed."; failure shows "Failed to remove friend." and keeps the list |
| FriendsPage.FriendsBook.SearchUsers | frontend/vite-project/src/components/FriendsPage.jsx:52-68 | a search is sent exactly for a non-blank query. A response replaces the results and clears the message; a failure shows "Error searching for users." |
| FriendsPage.FriendsBook.SendFriendRequest | frontend/vite-project/src/components/FriendsPage.jsx:71-85 | a user already asked is not asked again. Success adds the target to the asked set, keeps every earlier member and disables its button. Each outcome shows the server's message or its own default |

## Left out

- Web Crypto itself is not modelled: RSA-OAEP key generation, import and unwrapping; AES-GCM encryption and decryption; random IVs. Neither is base64 or UTF-8 coding. These are foreign calls, given to the model as parameters that return a value or fail.
- The network and the socket are not modelled: axios requests, socket.io setup, `joinRoom`, and MetaMask/ethers signing (`Login.jsx:90-107`). Each reply is a method argument.
- Async interleaving is not modelled. Events are sequential calls, and a fetch is split into its start (`StartFetch`) and its completion (`OnFetchResult`).
- Rendering and DOM work are not modelled: scroll-height restoration, `scrollToBottom`, date formatting, `alert` texts other than the error messages above, navigation, and `window.location`.
- The `youAreKicked` and `userKicked` handlers are not modelled; they only navigate or log.
- Cancelling completions after a page unmounts is not modelled, and neither are the `initRoom` failure paths; both only navigate or log.
- Loading flags are modelled only in RoomChat and Dashboard. Elsewhere they only change what renders.
- The initial loads are not modelled in InvitePage, UserInvites, FriendsPage, ManageRoom or SearchRooms (`handleJoin`/`fetchData`). They replace lists with server data, which the constructors take as given.
- JsText.ToLower maps ASCII letters only, because full Unicode case mapping is not modelled. Strings are sequences of code points, not of UTF-16 units.
- Login.GenerateOrGet: any stored text that does not parse to a JSON object is one case, `Unparsable`. A record this page wrote reads back as the JWK it wrote.
- Login.Truthy: numbers are modelled as integers, because floating point and `NaN` are not modelled.
- ManageRoom.IsOwner: `me` is taken as known whenever it is present. The page renders only a loading text until then.
- Dashboard.RemainingRooms: every membership record is assumed to embed its room, so the `room?._id` optional chain is not modelled.
