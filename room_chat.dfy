/** The room chat session: the ring of room keys by version, per-message key
    resolution with its placeholders, the message buffer fed by live delivery and by
    history pages, the backfill pager and the gate in front of an outgoing message.

    Web Crypto is abstract: unwrapping a room key (RSA-OAEP), decrypting and encrypting
    a message (AES-GCM) are function parameters that either give a value or fail. */
module RoomChat {
  import opened Base
  import opened JsText
  import opened Records

  type MessageId = string
  type KeyVersion = int
  type Bytes = seq<bv8>

  /** `limit=20` in the history request, and the length below which a page ends the history. */
  const PAGE_SIZE: nat := 20
  /** `new Uint8Array(12)`: the AES-GCM IV length. */
  const IV_LENGTH: nat := 12
  /** Scrolling closer than this to the top of the list asks for older messages. */
  const SCROLL_THRESHOLD: int := 100
  const FAILED_TO_DECRYPT: string := "[Failed to decrypt message]"

  /** An imported AES-GCM `CryptoKey`; the page only ever holds a handle to it. */
  datatype AesKey = AesKey(handle: nat)

  type KeyRing = map<KeyVersion, AesKey>

  /** `decryptRoomKey`: RSA-OAEP unwrapping of a base64 room key with the stored private
      key, then AES-GCM import; `None` when any of these steps throws. */
  type Unwrapper = string -> Option<AesKey>

  /** The inner part of `tryDecrypt`: base64 decoding of content and IV, AES-GCM decryption
      and UTF-8 decoding; `None` when any of these steps throws. */
  type Decrypter = (string, string, AesKey) -> Option<string>

  /** AES-GCM encryption of the UTF-8 bytes of a text under an IV; `None` when it throws. */
  type Encrypter = (Bytes, AesKey, string) -> Option<Bytes>

  /** A chat message record; `content` is base64 ciphertext as delivered and the
      plaintext or a placeholder once resolved. */
  datatype Message = Message(id: MessageId, user: Option<User>, keyVersion: KeyVersion,
                             content: string, iv: string, createdAt: string)

  /** The room record as loaded at initialisation; only its current key version matters here. */
  datatype Room = Room(id: string, currentKeyVersion: Option<KeyVersion>)

  /** One entry of the `roomKeys` event: a version and this user's wrapped key for it. */
  datatype WrappedKey = WrappedKey(version: KeyVersion, encryptedKey: string)

  /** A history request `GET /rooms/{id}/messages?skip&limit` together with what its
      completion will use: the key ring it was started with and whether it prepends. */
  datatype FetchRequest = FetchRequest(keys: KeyRing, skip: nat, limit: nat, prepend: bool)

  /** The outgoing `chatMessage` event. Ciphertext and IV are the bytes before base64 encoding. */
  datatype OutgoingMessage = OutgoingMessage(roomId: string, message: Bytes, iv: Bytes, keyVersion: KeyVersion)

  /** What the `roomKeyUpdated` handler tells the user. */
  datatype RotationNotice = NotARecipient | KeyRotated | ReloadWarning

  // ---------------------------------------------------------------------------
  // The unknown-version placeholder names the version in decimal.

  function DigitChar(d: nat): char
    requires d < 10
  {
    ('0' as int + d) as char
  }

  /** The decimal rendering of a natural number, as a template literal prints it. */
  function NatToDecimal(n: nat): (r: string)
    ensures |r| > 0
    ensures forall i :: 0 <= i < |r| ==> '0' <= r[i] <= '9'
  {
    if n < 10 then [DigitChar(n)] else NatToDecimal(n / 10) + [DigitChar(n % 10)]
  }

  function IntToDecimal(v: int): string
  {
    if v < 0 then "-" + NatToDecimal(-v) else NatToDecimal(v)
  }

  /** The value of a string of decimal digits. */
  function DecimalValue(s: string): int
  {
    if |s| == 0 then 0 else DecimalValue(s[..|s| - 1]) * 10 + (s[|s| - 1] as int - '0' as int)
  }

  function ParseInt(s: string): int
  {
    if |s| > 0 && s[0] == '-' then -DecimalValue(s[1..]) else DecimalValue(s)
  }

  lemma {:induction false} NatToDecimalRoundTrip(n: nat)
    ensures DecimalValue(NatToDecimal(n)) == n
  {
    var r := NatToDecimal(n);
    if n >= 10 {
      NatToDecimalRoundTrip(n / 10);
      assert r[..|r| - 1] == NatToDecimal(n / 10);
    }
  }

  /** Printing a version and reading it back gives the version. */
  lemma IntToDecimalRoundTrip(v: int)
    ensures ParseInt(IntToDecimal(v)) == v
  {
    if v < 0 {
      NatToDecimalRoundTrip(-v);
      assert IntToDecimal(v)[1..] == NatToDecimal(-v);
    } else {
      NatToDecimalRoundTrip(v);
    }
  }

  /** `[Unknown key version: ${v}]`. */
  function UnknownKeyPlaceholder(v: KeyVersion): string
  {
    "[Unknown key version: " + IntToDecimal(v) + "]"
  }

  /** Distinct versions give distinct placeholders: the placeholder names its version exactly. */
  lemma UnknownKeyPlaceholderInjective(v: KeyVersion, w: KeyVersion)
    requires UnknownKeyPlaceholder(v) == UnknownKeyPlaceholder(w)
    ensures v == w
  {
    var prefix := "[Unknown key version: ";
    var a, b := UnknownKeyPlaceholder(v), UnknownKeyPlaceholder(w);
    assert IntToDecimal(v) == a[|prefix|..|a| - 1];
    assert IntToDecimal(w) == b[|prefix|..|b| - 1];
    IntToDecimalRoundTrip(v);
    IntToDecimalRoundTrip(w);
  }

  // ---------------------------------------------------------------------------
  // Per-message key resolution (live delivery and history alike).

  /** The text shown for a message: the decrypted text when the ring holds its version and
      decryption succeeds, `[Failed to decrypt message]` when decryption fails, and
      `[Unknown key version: v]` when the ring has no key for its version. */
  function ResolveContent(m: Message, ring: KeyRing, decrypt: Decrypter): string
  {
    if m.keyVersion in ring then
      match decrypt(m.content, m.iv, ring[m.keyVersion])
      case Some(text) => text
      case None => FAILED_TO_DECRYPT
    else UnknownKeyPlaceholder(m.keyVersion)
  }

  /** The two placeholders cannot be confused: no unknown-version placeholder reads as the
      decryption-failure text, and a message whose version the ring lacks shows neither
      that text nor a placeholder naming any version but its own. */
  lemma PlaceholdersTellCasesApart(m: Message, ring: KeyRing, decrypt: Decrypter)
    ensures forall v :: UnknownKeyPlaceholder(v) != FAILED_TO_DECRYPT
    ensures m.keyVersion !in ring ==>
      ResolveContent(m, ring, decrypt) != FAILED_TO_DECRYPT &&
      forall w :: ResolveContent(m, ring, decrypt) == UnknownKeyPlaceholder(w) ==> w == m.keyVersion
  {
    forall v ensures UnknownKeyPlaceholder(v) != FAILED_TO_DECRYPT {
      assert UnknownKeyPlaceholder(v)[1] == 'U' != FAILED_TO_DECRYPT[1];
    }
    forall w | m.keyVersion !in ring && ResolveContent(m, ring, decrypt) == UnknownKeyPlaceholder(w)
      ensures w == m.keyVersion
    {
      UnknownKeyPlaceholderInjective(m.keyVersion, w);
    }
  }

  /** A message is resolved by its own version only: two rings that agree on that version
      give the same text, so a ring that grows (a later version arrives) leaves every
      already-resolvable message resolving as before. */
  lemma ResolutionUsesOwnVersionOnly(m: Message, ring: KeyRing, ring': KeyRing, decrypt: Decrypter)
    requires m.keyVersion in ring <==> m.keyVersion in ring'
    requires m.keyVersion in ring ==> ring[m.keyVersion] == ring'[m.keyVersion]
    ensures ResolveContent(m, ring, decrypt) == ResolveContent(m, ring', decrypt)
  {
  }

  function Displayed(m: Message, ring: KeyRing, decrypt: Decrypter): Message
  {
    m.(content := ResolveContent(m, ring, decrypt))
  }

  /** The `Promise.all(res.data.map(...))` step of `fetchMessages`. */
  function DecryptPage(page: seq<Message>, ring: KeyRing, decrypt: Decrypter): seq<Message>
  {
    seq(|page|, i requires 0 <= i < |page| => Displayed(page[i], ring, decrypt))
  }

  /** Decrypting a page keeps every record, in order, with its id, sender, version, IV and
      timestamp; only the content changes, to the resolved text. */
  lemma DecryptPageKeepsRecords(page: seq<Message>, ring: KeyRing, decrypt: Decrypter)
    ensures |DecryptPage(page, ring, decrypt)| == |page|
    ensures forall i :: 0 <= i < |page| ==>
      var d := DecryptPage(page, ring, decrypt)[i];
      d.id == page[i].id && d.keyVersion == page[i].keyVersion && d.user == page[i].user &&
      d.iv == page[i].iv && d.createdAt == page[i].createdAt &&
      d.content == ResolveContent(page[i], ring, decrypt)
  {
  }

  // ---------------------------------------------------------------------------
  // The message buffer.

  /** `prev.some((m) => m._id === id)`. */
  predicate HasId(buffer: seq<Message>, id: MessageId)
  {
    exists i :: 0 <= i < |buffer| && buffer[i].id == id
  }

  predicate UniqueIds(buffer: seq<Message>)
  {
    forall i, j :: 0 <= i < j < |buffer| ==> buffer[i].id != buffer[j].id
  }

  /** The live-delivery updater: append unless the id is already buffered. */
  function AppendUnseen(buffer: seq<Message>, m: Message): seq<Message>
  {
    if HasId(buffer, m.id) then buffer else buffer + [m]
  }

  /** Live delivery never creates a second entry for an id: it keeps ids unique, leaves the
      old buffer as a prefix, and afterwards the message's id is buffered. */
  lemma LiveDeliveryKeepsIdsUnique(buffer: seq<Message>, m: Message)
    requires UniqueIds(buffer)
    ensures UniqueIds(AppendUnseen(buffer, m))
    ensures HasId(AppendUnseen(buffer, m), m.id)
    ensures buffer <= AppendUnseen(buffer, m)
  {
    var r := AppendUnseen(buffer, m);
    if !HasId(buffer, m.id) {
      assert r[|buffer|].id == m.id;
    }
  }

  /** Delivering the same message twice is the same as delivering it once. */
  lemma LiveDeliveryIdempotent(buffer: seq<Message>, m: Message)
    ensures AppendUnseen(AppendUnseen(buffer, m), m) == AppendUnseen(buffer, m)
  {
    if !HasId(buffer, m.id) {
      var r := buffer + [m];
      assert r[|buffer|].id == m.id;
    }
  }

  /** The page entries whose id is not yet buffered, in page order. */
  function Unseen(page: seq<Message>, buffer: seq<Message>): seq<Message>
  {
    Filter(page, (m: Message) => !HasId(buffer, m.id))
  }

  /** The backfill updater `[...deduped, ...prev]`. */
  function PrependUnseen(page: seq<Message>, buffer: seq<Message>): seq<Message>
  {
    Unseen(page, buffer) + buffer
  }

  /** How a completed page changes the buffer: prepended without already-buffered ids,
      or replacing the buffer outright. */
  function ApplyPage(buffer: seq<Message>, page: seq<Message>, prepend: bool): seq<Message>
  {
    if prepend then PrependUnseen(page, buffer) else page
  }

  lemma {:induction false} UnseenKeepsIdsUnique(page: seq<Message>, buffer: seq<Message>)
    requires UniqueIds(page)
    ensures UniqueIds(Unseen(page, buffer))
  {
    if |page| > 0 {
      var p := (m: Message) => !HasId(buffer, m.id);
      var rest := Filter(page[1..], p);
      assert UniqueIds(page[1..]) by {
        forall i, j | 0 <= i < j < |page[1..]| ensures page[1..][i].id != page[1..][j].id {
          assert page[1..][i] == page[i + 1] && page[1..][j] == page[j + 1];
        }
      }
      UnseenKeepsIdsUnique(page[1..], buffer);
      assert Unseen(page[1..], buffer) == rest;
      forall k | 0 <= k < |rest| ensures rest[k].id != page[0].id {
        var j :| 0 <= j < |page[1..]| && page[1..][j] == rest[k];
        assert page[j + 1] == rest[k];
      }
    }
  }

  /** Whatever the page and the buffer hold, duplicates included: the old buffer is kept
      whole as a suffix, every entry comes from the page or the buffer, and every id of the
      page is buffered afterwards. */
  lemma BackfillKeepsBufferAndPage(page: seq<Message>, buffer: seq<Message>)
    ensures var r := PrependUnseen(page, buffer);
      |buffer| <= |r| && r[|r| - |buffer|..] == buffer
    ensures forall i :: 0 <= i < |PrependUnseen(page, buffer)| ==>
      PrependUnseen(page, buffer)[i] in page || PrependUnseen(page, buffer)[i] in buffer
    ensures forall i :: 0 <= i < |page| ==> HasId(PrependUnseen(page, buffer), page[i].id)
  {
    var u := Unseen(page, buffer);
    var r := u + buffer;
    forall i | 0 <= i < |page| ensures HasId(r, page[i].id) {
      if HasId(buffer, page[i].id) {
        var k :| 0 <= k < |buffer| && buffer[k].id == page[i].id;
        assert r[|u| + k] == buffer[k];
      } else {
        assert page[i] in u;
        var k :| 0 <= k < |u| && u[k] == page[i];
        assert r[k] == u[k];
      }
    }
  }

  /** Backfill never creates a second entry for an id when the page and the buffer each have
      unique ids; the old buffer is kept whole as a suffix, every entry comes from the page
      or the buffer, and every id of the page is buffered afterwards. */
  lemma BackfillMerge(page: seq<Message>, buffer: seq<Message>)
    requires UniqueIds(page) && UniqueIds(buffer)
    ensures UniqueIds(PrependUnseen(page, buffer))
    ensures var r := PrependUnseen(page, buffer);
      |buffer| <= |r| && r[|r| - |buffer|..] == buffer
    ensures forall i :: 0 <= i < |PrependUnseen(page, buffer)| ==>
      PrependUnseen(page, buffer)[i] in page || PrependUnseen(page, buffer)[i] in buffer
    ensures forall i :: 0 <= i < |page| ==> HasId(PrependUnseen(page, buffer), page[i].id)
  {
    var u := Unseen(page, buffer);
    var r := u + buffer;
    UnseenKeepsIdsUnique(page, buffer);
    forall i, j | 0 <= i < j < |r| ensures r[i].id != r[j].id {
      if j < |u| {
        assert r[i] == u[i] && r[j] == u[j];
      } else if i >= |u| {
        assert r[i] == buffer[i - |u|] && r[j] == buffer[j - |u|];
      } else {
        assert r[i] == u[i] && !HasId(buffer, u[i].id);
        assert r[j] == buffer[j - |u|];
      }
    }
    BackfillKeepsBufferAndPage(page, buffer);
  }

  /** Duplicates inside one page are not removed: a page holding the same id twice is
      prepended with both entries. */
  lemma PageDuplicatesKept(a: Message, b: Message)
    requires a.id == b.id
    ensures PrependUnseen([a, b], []) == [a, b]
    ensures !UniqueIds(PrependUnseen([a, b], []))
  {
    var p := (m: Message) => !HasId([], m.id);
    assert [a, b][1..] == [b];
    assert [b][1..] == [];
    assert Filter([a, b], p) == [a] + Filter([b], p);
  }

  // ---------------------------------------------------------------------------
  // The key ring.

  /** The ring the `roomKeys` handler builds: entries unwrapped in order, a later entry for a
      version replacing an earlier one; `None` when any unwrap throws, which aborts the
      handler before the ring is set. */
  function BuildRing(keys: seq<WrappedKey>, unwrap: Unwrapper): Option<KeyRing>
  {
    if |keys| == 0 then Some(map[])
    else match BuildRing(keys[..|keys| - 1], unwrap)
      case None => None
      case Some(ring) =>
        match unwrap(keys[|keys| - 1].encryptedKey)
        case None => None
        case Some(k) => Some(ring[keys[|keys| - 1].version := k])
  }

  /** Entry `i` is the last one delivered for its version. */
  predicate LastForVersion(keys: seq<WrappedKey>, i: int)
    requires 0 <= i < |keys|
  {
    forall j :: i < j < |keys| ==> keys[j].version != keys[i].version
  }

  /** Building the ring fails exactly when some entry fails to unwrap. */
  lemma {:induction false} BuildRingFails(keys: seq<WrappedKey>, unwrap: Unwrapper)
    ensures BuildRing(keys, unwrap).None? <==>
      exists i :: 0 <= i < |keys| && unwrap(keys[i].encryptedKey).None?
  {
    if |keys| > 0 {
      var init := keys[..|keys| - 1];
      BuildRingFails(init, unwrap);
      if exists i :: 0 <= i < |init| && unwrap(init[i].encryptedKey).None? {
        var i :| 0 <= i < |init| && unwrap(init[i].encryptedKey).None?;
        assert keys[i] == init[i];
      }
      if exists i :: 0 <= i < |keys| && unwrap(keys[i].encryptedKey).None? {
        var i :| 0 <= i < |keys| && unwrap(keys[i].encryptedKey).None?;
        if i < |init| { assert keys[i] == init[i]; }
      }
    }
  }

  /** A built ring holds exactly the delivered versions, and each version maps to the key
      unwrapped from the last entry delivered for it. */
  lemma {:induction false} BuildRingContents(keys: seq<WrappedKey>, unwrap: Unwrapper)
    requires BuildRing(keys, unwrap).Some?
    ensures forall v :: v in BuildRing(keys, unwrap).value <==>
      exists i :: 0 <= i < |keys| && keys[i].version == v
    ensures forall i :: 0 <= i < |keys| && LastForVersion(keys, i) ==>
      unwrap(keys[i].encryptedKey).Some? &&
      BuildRing(keys, unwrap).value[keys[i].version] == unwrap(keys[i].encryptedKey).value
  {
    if |keys| > 0 {
      var n := |keys| - 1;
      var init := keys[..n];
      BuildRingContents(init, unwrap);
      BuildRingFails(keys, unwrap);
      var ring := BuildRing(keys, unwrap).value;
      forall v ensures v in ring <==> exists i :: 0 <= i < |keys| && keys[i].version == v {
        if exists i :: 0 <= i < |keys| && keys[i].version == v {
          var i :| 0 <= i < |keys| && keys[i].version == v;
          if i < n { assert init[i] == keys[i]; }
        }
        if v in ring && v != keys[n].version {
          var i :| 0 <= i < |init| && init[i].version == v;
          assert keys[i] == init[i];
        }
      }
      forall i | 0 <= i < |keys| && LastForVersion(keys, i)
        ensures unwrap(keys[i].encryptedKey).Some?
        ensures ring[keys[i].version] == unwrap(keys[i].encryptedKey).value
      {
        if i < n {
          assert init[i] == keys[i];
          assert LastForVersion(init, i);
        }
      }
    }
  }

  /** The `setKeysByVersion` updater of the rotation handler: a copy of the map with the
      new version set. */
  function Rotated(ring: KeyRing, version: KeyVersion, key: AesKey): KeyRing
  {
    ring[version := key]
  }

  /** A rotation adds its version with the new key and keeps every version already held,
      with its key, unless the rotation reuses that version number. */
  lemma RotationIsAdditive(ring: KeyRing, version: KeyVersion, key: AesKey)
    ensures Rotated(ring, version, key).Keys == ring.Keys + {version}
    ensures Rotated(ring, version, key)[version] == key
    ensures forall v :: v in ring && v != version ==> Rotated(ring, version, key)[v] == ring[v]
  {
  }

  /** The property the rotation handler looks up: `encryptedKeys[me]` with `me` converted to
      a property name, so an absent `me` (`null`) looks up "null". */
  function PropertyKey(me: Option<UserId>): string
  {
    match me
    case None => "null"
    case Some(u) => u
  }

  // ---------------------------------------------------------------------------
  // The session.

  /** Every piece of session state, for stating what an event changes and what it leaves. */
  datatype SessionState = SessionState(
    me: Option<UserId>, room: Option<Room>, messages: seq<Message>, input: string,
    hasSocket: bool, onlineUsers: seq<User>,
    keysByVersion: KeyRing, keysByVersionRef: KeyRing,
    hasMore: bool, loadingMore: bool, loadingMoreRef: bool)

  /** The key `sendMessage` would encrypt with, or `None` when it emits nothing before
      encrypting: blank input, an empty ring, no socket, no room loaded, or no key in the
      ring for `room.currentKeyVersion`. */
  function SendKey(s: SessionState): Option<AesKey>
  {
    if IsBlank(s.input) || |s.keysByVersion| == 0 || !s.hasSocket then None
    else if s.room.None? then None  // reading `room.currentKeyVersion` throws
    else match s.room.value.currentKeyVersion
      case None => None
      case Some(v) => if v in s.keysByVersion then Some(s.keysByVersion[v]) else None
  }

  /** The send gate, stated by its conditions: a key is chosen exactly when the input is
      not blank, the socket exists, the room is loaded and the ring has a key for the
      room's current version; that key is the ring's key for that version. */
  lemma SendGate(s: SessionState)
    ensures SendKey(s).Some? <==>
      !IsBlank(s.input) && s.hasSocket && s.room.Some? &&
      s.room.value.currentKeyVersion.Some? && s.room.value.currentKeyVersion.value in s.keysByVersion
    ensures SendKey(s).Some? ==> SendKey(s).value == s.keysByVersion[s.room.value.currentKeyVersion.value]
  {
    if s.room.Some? && s.room.value.currentKeyVersion.Some? &&
       s.room.value.currentKeyVersion.value in s.keysByVersion {
      assert s.room.value.currentKeyVersion.value in s.keysByVersion.Keys;
    }
  }

  /** The state of one `RoomChat` page: React state, the two refs the socket handlers read,
      and the room id from the route. */
  class RoomSession {
    const roomId: string
    var me: Option<UserId>
    var room: Option<Room>
    var messages: seq<Message>
    var input: string
    var hasSocket: bool
    var onlineUsers: seq<User>
    var keysByVersion: KeyRing
    var keysByVersionRef: KeyRing
    var hasMore: bool
    var loadingMore: bool
    var loadingMoreRef: bool

    ghost function State(): SessionState
      reads this
    {
      SessionState(me, room, messages, input, hasSocket, onlineUsers,
                   keysByVersion, keysByVersionRef, hasMore, loadingMore, loadingMoreRef)
    }

    constructor(roomId: string)
      ensures this.roomId == roomId
      ensures State() == SessionState(None, None, [], "", false, [], map[], map[], true, false, false)
    {
      this.roomId := roomId;
      me, room, messages, input := None, None, [], "";
      hasSocket, onlineUsers := false, [];
      keysByVersion, keysByVersionRef := map[], map[];
      hasMore, loadingMore, loadingMoreRef := true, false, false;
    }

    /** The input box's `onChange`. */
    method SetInput(text: string)
      modifies this
      ensures State() == old(State()).(input := text)
    {
      input := text;
    }

    /** `initRoom` once the user and the room are loaded: clears the buffer, re-arms the
        pager and starts the first history fetch with an empty key map. */
    method InitRoom(user: UserId, roomData: Room) returns (request: FetchRequest)
      modifies this
      ensures request == FetchRequest(map[], 0, PAGE_SIZE, false)
      ensures State() == old(State()).(me := Some(user), room := Some(roomData), messages := [],
                                       hasMore := true, loadingMore := true, loadingMoreRef := true)
    {
      me := Some(user);
      room := Some(roomData);
      messages := [];
      hasMore := true;
      request := StartFetch(map[], 0, false);
    }

    /** The synchronous start of `fetchMessages`: both in-flight flags go up. */
    method StartFetch(keys: KeyRing, skip: nat, prepend: bool) returns (request: FetchRequest)
      modifies this
      ensures request == FetchRequest(keys, skip, PAGE_SIZE, prepend)
      ensures State() == old(State()).(loadingMore := true, loadingMoreRef := true)
    {
      loadingMoreRef := true;
      loadingMore := true;
      request := FetchRequest(keys, skip, PAGE_SIZE, prepend);
    }

    /** The socket is created once the first fetch has settled (`setSocket(s)`). */
    method AttachSocket()
      modifies this
      ensures State() == old(State()).(hasSocket := true)
    {
      hasSocket := true;
    }

    /** The `roomKeys` handler. Unwraps the delivered entries one by one into a fresh map;
        if one throws, nothing changes and no fetch starts. Otherwise the state map and the
        ref are both replaced by exactly the delivered versions and a full history fetch
        starts with that map. */
    method OnRoomKeys(keys: seq<WrappedKey>, unwrap: Unwrapper) returns (request: Option<FetchRequest>)
      modifies this
      ensures BuildRing(keys, unwrap).None? ==> request.None? && State() == old(State())
      ensures BuildRing(keys, unwrap).Some? ==>
        var ring := BuildRing(keys, unwrap).value;
        request == Some(FetchRequest(ring, 0, PAGE_SIZE, false)) &&
        State() == old(State()).(keysByVersion := ring, keysByVersionRef := ring,
                                 loadingMore := true, loadingMoreRef := true)
    {
      var ring: KeyRing := map[];
      var i := 0;
      while i < |keys|
        invariant 0 <= i <= |keys|
        invariant BuildRing(keys[..i], unwrap) == Some(ring)
      {
        var unwrapped := unwrap(keys[i].encryptedKey);
        if unwrapped.None? {
          BuildRingFails(keys, unwrap);
          return None;
        }
        assert keys[..i + 1][..i] == keys[..i];
        ring := ring[keys[i].version := unwrapped.value];
        i := i + 1;
      }
      assert keys[..i] == keys;
      keysByVersion := ring;
      keysByVersionRef := ring;
      var started := StartFetch(ring, 0, false);
      request := Some(started);
    }

    /** The live `chatMessage` handler: the content is resolved against the ref's key map,
        then the message is appended unless its id is already buffered. */
    method OnChatMessage(msg: Message, decrypt: Decrypter)
      modifies this
      ensures State() == old(State()).(messages :=
        AppendUnseen(old(messages), Displayed(msg, old(keysByVersionRef), decrypt)))
    {
      var content: string;
      if msg.keyVersion in keysByVersionRef {
        var text := decrypt(msg.content, msg.iv, keysByVersionRef[msg.keyVersion]);
        content := if text.Some? then text.value else FAILED_TO_DECRYPT;
      } else {
        content := UnknownKeyPlaceholder(msg.keyVersion);
      }
      var delivered := msg.(content := content);
      if !HasId(messages, delivered.id) {
        messages := messages + [delivered];
      }
    }

    /** The `onlineUsers` handler: presence is replaced wholesale. */
    method OnOnlineUsers(users: seq<User>)
      modifies this
      ensures State() == old(State()).(onlineUsers := users)
    {
      onlineUsers := users;
    }

    /** The `roomKeyUpdated` handler, with the `me` its closure captured. No entry (or an
        empty one) for that user: nothing happens. An entry that fails to unwrap: nothing
        changes and the user is told to reload. Otherwise the new version is added to the
        state map; the ref used by live delivery and backfill, and the room's current
        version used for sending, are left as they were. */
    method OnRoomKeyUpdated(capturedMe: Option<UserId>, encryptedKeys: map<string, string>,
                            newKeyVersion: KeyVersion, unwrap: Unwrapper)
      returns (notice: RotationNotice)
      modifies this
      ensures var key := PropertyKey(capturedMe);
        if key !in encryptedKeys || encryptedKeys[key] == "" then
          notice == NotARecipient && State() == old(State())
        else match unwrap(encryptedKeys[key])
          case None => notice == ReloadWarning && State() == old(State())
          case Some(k) => (notice == KeyRotated &&
            State() == old(State()).(keysByVersion := Rotated(old(keysByVersion), newKeyVersion, k)))
    {
      var key := PropertyKey(capturedMe);
      if key !in encryptedKeys || encryptedKeys[key] == "" {
        return NotARecipient;
      }
      var newKey := unwrap(encryptedKeys[key]);
      if newKey.None? {
        return ReloadWarning;
      }
      keysByVersion := Rotated(keysByVersion, newKeyVersion, newKey.value);
      notice := KeyRotated;
    }

    /** `handleScroll`: ignored without a mounted container, while a fetch is in flight or
        once the history is exhausted; near the top it starts a backfill that skips the
        messages already buffered and decrypts with the ref's key map. */
    method HandleScroll(containerMounted: bool, scrollTop: int) returns (request: Option<FetchRequest>)
      modifies this
      ensures request.Some? <==>
        containerMounted && !old(loadingMoreRef) && old(hasMore) && scrollTop < SCROLL_THRESHOLD
      ensures request.Some? ==>
        request.value == FetchRequest(old(keysByVersionRef), |old(messages)|, PAGE_SIZE, true) &&
        State() == old(State()).(loadingMore := true, loadingMoreRef := true)
      ensures request.None? ==> State() == old(State())
    {
      if !containerMounted || loadingMoreRef || !hasMore {
        return None;
      }
      if scrollTop < SCROLL_THRESHOLD {
        loadingMoreRef := true;
        var started := StartFetch(keysByVersionRef, |messages|, true);
        request := Some(started);
      } else {
        request := None;
      }
    }

    /** The completion of `fetchMessages`. On success the page is decrypted with the
        request's key map and merged, and a page shorter than 20 records ends the history;
        on failure only the in-flight flags change. Both flags are cleared either way. */
    method OnFetchResult(request: FetchRequest, response: Option<seq<Message>>, decrypt: Decrypter)
      modifies this
      ensures response.None? ==> State() == old(State()).(loadingMore := false, loadingMoreRef := false)
      ensures response.Some? ==> State() == old(State()).(
        messages := ApplyPage(old(messages), DecryptPage(response.value, request.keys, decrypt), request.prepend),
        hasMore := old(hasMore) && |response.value| >= PAGE_SIZE,
        loadingMore := false, loadingMoreRef := false)
    {
      if response.Some? {
        var page := response.value;
        var decrypted := DecryptPage(page, request.keys, decrypt);
        if request.prepend {
          messages := Unseen(decrypted, messages) + messages;
        } else {
          messages := decrypted;
        }
        if |page| < PAGE_SIZE {
          hasMore := false;
        }
      }
      loadingMoreRef := false;
      loadingMore := false;
    }

    /** `sendMessage` with the 12 random IV bytes it draws. Nothing is emitted when the gate
        closes or encryption throws; otherwise the emitted event carries the room's current
        key version and the input is cleared. */
    method SendMessage(iv: Bytes, encrypt: Encrypter) returns (sent: Option<OutgoingMessage>)
      requires |iv| == IV_LENGTH
      modifies this
      ensures SendKey(old(State())).None? ==> sent.None? && State() == old(State())
      ensures SendKey(old(State())).Some? ==>
        match encrypt(iv, SendKey(old(State())).value, old(input))
        case None => sent.None? && State() == old(State())
        case Some(ciphertext) =>
          (sent == Some(OutgoingMessage(roomId, ciphertext, iv, old(room).value.currentKeyVersion.value)) &&
           State() == old(State()).(input := ""))
      ensures sent.Some? ==>
        |sent.value.iv| == IV_LENGTH && old(room).Some? &&
        old(room).value.currentKeyVersion == Some(sent.value.keyVersion) &&
        sent.value.keyVersion in old(keysByVersion)
    {
      if IsBlank(input) || |keysByVersion| == 0 || !hasSocket {
        return None;
      }
      if room.None? || room.value.currentKeyVersion.None? {
        return None;
      }
      var version := room.value.currentKeyVersion.value;
      if version !in keysByVersion {
        return None;
      }
      var ciphertext := encrypt(iv, keysByVersion[version], input);
      if ciphertext.None? {
        return None;
      }
      sent := Some(OutgoingMessage(roomId, ciphertext.value, iv, version));
      input := "";
    }
  }

  /** A rotation as the handlers run it: a ring holding version 1, a successful rotation to
      version 2, then two live messages. The version-1 message still decrypts with the
      retained key; the version-2 message shows the unknown-version placeholder, because
      rotation updates the state map but not the ref live delivery reads. The handler is
      given `Some("me")`: the `me` its closure holds once the effect has run again on a
      route change while the page stayed mounted (see `RotationOnFirstMount` for the first
      mount). */
  method RotationThenLiveDelivery(unwrap: Unwrapper, decrypt: Decrypter, first: Message, second: Message)
    returns (shown: seq<Message>, notice: RotationNotice)
    requires unwrap("wrapped-1") == Some(AesKey(1)) && unwrap("wrapped-2") == Some(AesKey(2))
    requires first.keyVersion == 1 && second.keyVersion == 2 && first.id != second.id
    ensures notice == KeyRotated
    ensures shown == [Displayed(first, map[1 := AesKey(1)], decrypt),
                      second.(content := UnknownKeyPlaceholder(2))]
  {
    var session := new RoomSession("room-1");
    var _ := session.InitRoom("me", Room("room-1", Some(1)));
    var ring := session.OnRoomKeys([WrappedKey(1, "wrapped-1")], unwrap);
    notice := session.OnRoomKeyUpdated(Some("me"), map["me" := "wrapped-2"], 2, unwrap);
    assert session.keysByVersionRef == map[1 := AesKey(1)];
    session.OnChatMessage(first, decrypt);
    session.OnChatMessage(second, decrypt);
    shown := session.messages;
  }

  /** A rotation on a freshly mounted page. The effect runs once, on the first render, so
      the `roomKeyUpdated` handler holds the `me` of that render, which is still `null`;
      setting `me` later only reaches later renders. The handler therefore looks up the
      property "null" and, with the wrapped keys listed by user id, ignores the rotation:
      the state map keeps only version 1. */
  method RotationOnFirstMount(unwrap: Unwrapper)
    returns (notice: RotationNotice, ring: KeyRing)
    requires unwrap("wrapped-1") == Some(AesKey(1)) && unwrap("wrapped-2") == Some(AesKey(2))
    ensures notice == NotARecipient
    ensures ring == map[1 := AesKey(1)]
  {
    var session := new RoomSession("room-1");
    var captured := session.me;
    var _ := session.InitRoom("me", Room("room-1", Some(1)));
    var _ := session.OnRoomKeys([WrappedKey(1, "wrapped-1")], unwrap);
    notice := session.OnRoomKeyUpdated(captured, map["me" := "wrapped-2"], 2, unwrap);
    ring := session.keysByVersion;
  }

  /** History exhaustion as the handlers run it: the first page holds 7 records, fewer than
      the 20 asked for, so the pager is exhausted and a scroll to the very top starts no
      further fetch. */
  method BackfillExhaustion(decrypt: Decrypter, page: seq<Message>)
    returns (scrolled: Option<FetchRequest>, more: bool)
    requires |page| == 7
    ensures !more && scrolled.None?
  {
    var session := new RoomSession("room-1");
    var first := session.InitRoom("me", Room("room-1", Some(1)));
    session.OnFetchResult(first, Some(page), decrypt);
    scrolled := session.HandleScroll(true, 0);
    more := session.hasMore;
  }
}
