/**
 * The coordinator's state and each event handler as a transition on it.
 *
 * A Registry holds the two dictionaries the server keeps (`clientRooms`,
 * `roomState`), the passage fetches it has issued and not yet settled, and
 * everything it has sent so far, in order. Each `On...` function is one
 * handler run to completion. Where the handler raises a TypeError part-way
 * (a property of an absent slot read or assigned, a passage that has not
 * arrived, a room deleted before its fetch settled) the changes made before the throw
 * are kept and nothing after it happens; the matching `...Throws` predicate
 * says when that is.
 */
module Transitions {
  import opened RaceTypes
  import Words

  datatype Registry = Registry(
    clientRooms: map<ConnId, Code>,
    roomState: map<Code, Room>,
    pending: seq<QuoteRequest>,
    outbox: seq<Message>)

  const Initial: Registry := Registry(map[], map[], [], [])

  /**
   * The guard `!roomCode || !roomState[roomCode]`: the sender's room, if the
   * sender has a non-empty code and a room is still stored under it.
   */
  function RoomOf(s: Registry, sender: ConnId): (c: Option<Code>)
    ensures c.Some? ==> sender in s.clientRooms && c.value == s.clientRooms[sender]
    ensures c.Some? ==> c.value != "" && c.value in s.roomState
    ensures sender in s.clientRooms && s.clientRooms[sender] != "" && s.clientRooms[sender] in s.roomState
        ==> c.Some?
  {
    if sender in s.clientRooms && s.clientRooms[sender] != "" && s.clientRooms[sender] in s.roomState
    then Some(s.clientRooms[sender])
    else None
  }

  /** The sender's room as stored; only meaningful when RoomOf finds one. */
  function SenderRoom(s: Registry, sender: ConnId): Room
    requires RoomOf(s, sender).Some?
  {
    s.roomState[RoomOf(s, sender).value]
  }

  /**
   * What every stored room satisfies: its two slots are never both marked
   * disconnected (such a room is deleted instead) and never both waiting for
   * a rematch (the second request resets the room instead).
   */
  ghost predicate RoomOk(room: Room) {
    && !(room.players.player1.disconnected && IsDisconnected(room.players.player2))
    && !(room.players.player1.playAgain && WantsRematch(room.players.player2))
  }

  ghost predicate Inv(s: Registry) {
    forall code :: code in s.roomState ==> RoomOk(s.roomState[code])
  }

  /** Every key other than `k` is bound in `m'` exactly as in `m`. */
  ghost predicate SameExcept<K(!new), V>(m: map<K, V>, m': map<K, V>, k: K) {
    forall x :: x != k ==> (x in m <==> x in m') && (x in m ==> m'[x] == m[x])
  }

  function Send(s: Registry, msgs: seq<Message>): Registry {
    s.(outbox := s.outbox + msgs)
  }

  // ---------------------------------------------------------------- create room

  /** `CreateRoom`: `code` is what the code generator returned for this request. */
  function OnCreateRoom(s: Registry, sender: ConnId, quoteLength: QuoteLength, code: Code): (r: Registry)
    ensures sender in r.clientRooms && r.clientRooms[sender] == code
    ensures SameExcept(s.clientRooms, r.clientRooms, sender)
    ensures code in r.roomState && SameExcept(s.roomState, r.roomState, code)
    ensures r.roomState[code].players == Players(StartSlot(sender), None)
    ensures r.roomState[code].quoteLength == quoteLength
    ensures r.roomState[code].testText.None?
    ensures r.pending == s.pending
    ensures r.outbox == s.outbox + [Message(ToConnection(sender), HasJoinedRoom(code)),
                                    Message(ToRoom(code), RoomState(r.roomState[code]))]
    ensures Inv(s) ==> Inv(r)
  {
    var room := Room(Players(StartSlot(sender), None), quoteLength, None);
    var s1 := s.(clientRooms := s.clientRooms[sender := code], roomState := s.roomState[code := room]);
    Send(s1, [Message(ToConnection(sender), HasJoinedRoom(code)), Message(ToRoom(code), RoomState(room))])
  }

  // ------------------------------------------------------------------ join room

  /** `JoinRoom`: the passage fetch it issues is recorded in `pending`. */
  function OnJoinRoom(s: Registry, sender: ConnId, code: Code): (r: Registry)
    ensures code !in s.roomState ==>
      && r.clientRooms == s.clientRooms
      && r.roomState == s.roomState
      && r.pending == s.pending
      && r.outbox == s.outbox + [Message(ToConnection(sender), JoinRoomError)]
    ensures code in s.roomState ==>
      && sender in r.clientRooms && r.clientRooms[sender] == code
      && SameExcept(s.clientRooms, r.clientRooms, sender)
      && code in r.roomState && SameExcept(s.roomState, r.roomState, code)
      && r.roomState[code].players.player1 == s.roomState[code].players.player1
      && r.roomState[code].players.player2 == Some(StartSlot(sender))
      && r.roomState[code].quoteLength == s.roomState[code].quoteLength
      && r.roomState[code].testText == s.roomState[code].testText
      && r.pending == s.pending + [QuoteRequest(code, s.roomState[code].quoteLength)]
      && r.outbox == s.outbox + [Message(ToConnection(sender), HasJoinedRoom(code)),
                                 Message(ToRoom(code), RoomState(r.roomState[code]))]
    ensures Inv(s) ==> Inv(r)
  {
    if code !in s.roomState then
      Send(s, [Message(ToConnection(sender), JoinRoomError)])
    else
      var room := s.roomState[code];
      var after := room.(players := room.players.(player2 := Some(StartSlot(sender))));
      var s1 := s.(clientRooms := s.clientRooms[sender := code],
                   roomState := s.roomState[code := after],
                   pending := s.pending + [QuoteRequest(code, room.quoteLength)]);
      Send(s1, [Message(ToConnection(sender), HasJoinedRoom(code)), Message(ToRoom(code), RoomState(after))])
  }

  // --------------------------------------------------------------- caret update

  /** The sender is taken for `player2` but the room has none: reading `.id` of `undefined` throws. */
  predicate CaretThrows(s: Registry, sender: ConnId) {
    && RoomOf(s, sender).Some?
    && var room := SenderRoom(s, sender);
       SlotOf(room.players, SenderTag(room.players, sender)).None?
  }

  /** `CaretPositionChange`: the sender's slot is replaced by a bare position. */
  function OnCaretPositionChange(s: Registry, sender: ConnId, wordIndex: int, charIndex: int): (r: Registry)
    ensures RoomOf(s, sender).None? || CaretThrows(s, sender) ==> r == s
    ensures RoomOf(s, sender).Some? && !CaretThrows(s, sender) ==>
      var code := RoomOf(s, sender).value;
      var room := s.roomState[code];
      var tag := SenderTag(room.players, sender);
      && r.clientRooms == s.clientRooms
      && r.pending == s.pending
      && code in r.roomState && SameExcept(s.roomState, r.roomState, code)
      && r.roomState[code].quoteLength == room.quoteLength
      && r.roomState[code].testText == room.testText
      && SlotOf(r.roomState[code].players, tag)
         == Some(Slot(SlotOf(room.players, tag).value.id, wordIndex, charIndex, None, false, false))
      && SlotOf(r.roomState[code].players, Opponent(tag)) == SlotOf(room.players, Opponent(tag))
      && r.outbox == s.outbox + [Message(ToRoomExceptSender(code, sender), CaretPositionChange(tag, wordIndex, charIndex))]
    ensures Inv(s) ==> Inv(r)
  {
    match RoomOf(s, sender)
    case None => s
    case Some(code) =>
      var room := s.roomState[code];
      var tag := SenderTag(room.players, sender);
      match SlotOf(room.players, tag)
      case None => s
      case Some(mine) =>
        var position := Slot(mine.id, wordIndex, charIndex, None, false, false);
        var after := room.(players := WithSlot(room.players, tag, position));
        Send(s.(roomState := s.roomState[code := after]),
             [Message(ToRoomExceptSender(code, sender), CaretPositionChange(tag, wordIndex, charIndex))])
  }

  // -------------------------------------------------------------- submit result

  /** The sender's slot exists but no passage is stored: `undefined.length` throws. */
  predicate ResultThrows(s: Registry, sender: ConnId) {
    && RoomOf(s, sender).Some?
    && var room := SenderRoom(s, sender);
       && SlotOf(room.players, SenderTag(room.players, sender)).Some?
       && room.testText.None?
  }

  /**
   * The caret update announcing that the sender reached the end of `text`:
   * addressed to the whole room, at the word after the last space.
   */
  function FinishCaret(code: Code, tag: PlayerTag, text: string): (m: Message)
    ensures m == Message(ToRoom(code), CaretPositionChange(tag, Words.Spaces(text), |Words.LastWord(text)|))
  {
    Words.SplitLength(text);
    Message(ToRoom(code), CaretPositionChange(tag, |Words.Split(text)| - 1, |Words.LastWord(text)|))
  }

  /** Sends both slots to the room when the opponent's slot holds a result. */
  function Disclose(s: Registry, code: Code, room: Room, opponent: PlayerTag): Registry {
    if HasResult(SlotOf(room.players, opponent))
    then Send(s, [Message(ToRoom(code), PlayersState(room.players))])
    else s
  }

  /** `Result`: store the payload, announce the finish, disclose when both are in. */
  function OnResult(s: Registry, sender: ConnId, result: Payload): (r: Registry)
    ensures RoomOf(s, sender).None? ==> r == s
    ensures RoomOf(s, sender).Some? ==>
      var code := RoomOf(s, sender).value;
      var room := s.roomState[code];
      var tag := SenderTag(room.players, sender);
      var mine := SlotOf(room.players, tag);
      && r.clientRooms == s.clientRooms
      && r.pending == s.pending
      && code in r.roomState && SameExcept(s.roomState, r.roomState, code)
      && var after := r.roomState[code];
      && after.quoteLength == room.quoteLength
      && after.testText == room.testText
      && SlotOf(after.players, Opponent(tag)) == SlotOf(room.players, Opponent(tag))
      && (mine.None? ==> after == room)
      && (mine.Some? ==> SlotOf(after.players, tag) == Some(mine.value.(result := Some(result))))
      && r.outbox == s.outbox
           + (if mine.Some? && room.testText.Some? then [FinishCaret(code, tag, room.testText.value)] else [])
           + (if !ResultThrows(s, sender) && HasResult(SlotOf(room.players, Opponent(tag)))
              then [Message(ToRoom(code), PlayersState(after.players))] else [])
    ensures Inv(s) ==> Inv(r)
  {
    match RoomOf(s, sender)
    case None => s
    case Some(code) =>
      var room := s.roomState[code];
      var tag := SenderTag(room.players, sender);
      match SlotOf(room.players, tag)
      case None => Disclose(s, code, room, Opponent(tag))
      case Some(mine) =>
        var after := room.(players := WithSlot(room.players, tag, mine.(result := Some(result))));
        var s1 := s.(roomState := s.roomState[code := after]);
        match after.testText
        case None => s1
        case Some(text) => Disclose(Send(s1, [FinishCaret(code, tag, text)]), code, after, Opponent(tag))
  }

  // ----------------------------------------------------------------- play again

  /**
   * A rematch reset with no `player2` (reading its `.id`), or a lone request
   * from a sender without a slot (assigning its `.playAgain`) or without an
   * opponent (reading its `.id`), throws: each touches `undefined`.
   */
  predicate PlayAgainThrows(s: Registry, sender: ConnId) {
    && RoomOf(s, sender).Some?
    && var room := SenderRoom(s, sender);
       var tag := SenderTag(room.players, sender);
       if WantsRematch(SlotOf(room.players, Opponent(tag))) then room.players.player2.None?
       else SlotOf(room.players, tag).None? || SlotOf(room.players, Opponent(tag)).None?
  }

  /** `PlayAgain`: reset the room when the opponent is waiting, else wait for the opponent. */
  function OnPlayAgain(s: Registry, sender: ConnId): (r: Registry)
    ensures RoomOf(s, sender).None? ==> r == s
    ensures RoomOf(s, sender).Some? ==>
      var code := RoomOf(s, sender).value;
      var room := s.roomState[code];
      var tag := SenderTag(room.players, sender);
      var mine := SlotOf(room.players, tag);
      var theirs := SlotOf(room.players, Opponent(tag));
      && r.clientRooms == s.clientRooms
      && code in r.roomState && SameExcept(s.roomState, r.roomState, code)
      && (WantsRematch(theirs) && room.players.player2.None? ==> r == s)
      && (WantsRematch(theirs) && room.players.player2.Some? ==>
            var renewed := r.roomState[code];
            && renewed.quoteLength == room.quoteLength
            && renewed.testText == Some("")
            && renewed.players == Players(StartSlot(room.players.player1.id), Some(StartSlot(room.players.player2.value.id)))
            && r.pending == s.pending + [QuoteRequest(code, room.quoteLength)]
            && r.outbox == s.outbox + [Message(ToRoom(code), RoomState(renewed))])
      && (!WantsRematch(theirs) && mine.None? ==> r == s)
      && (!WantsRematch(theirs) && mine.Some? ==>
            var after := r.roomState[code];
            && r.pending == s.pending
            && after.quoteLength == room.quoteLength
            && after.testText == room.testText
            && SlotOf(after.players, tag) == Some(mine.value.(playAgain := true))
            && SlotOf(after.players, Opponent(tag)) == theirs
            && r.outbox == s.outbox
                 + (if theirs.Some? then [Message(ToConnection(theirs.value.id), OpponentPlayAgain)] else []))
    ensures Inv(s) ==> Inv(r)
  {
    match RoomOf(s, sender)
    case None => s
    case Some(code) =>
      var room := s.roomState[code];
      var tag := SenderTag(room.players, sender);
      var theirs := SlotOf(room.players, Opponent(tag));
      if WantsRematch(theirs) then
        match room.players.player2
        case None => s
        case Some(second) =>
          var renewed := Room(Players(StartSlot(room.players.player1.id), Some(StartSlot(second.id))),
                            room.quoteLength, Some(""));
          var s1 := s.(roomState := s.roomState[code := renewed]);
          Send(s1, [Message(ToRoom(code), RoomState(renewed))])
            .(pending := s.pending + [QuoteRequest(code, room.quoteLength)])
      else
        match SlotOf(room.players, tag)
        case None => s
        case Some(mine) =>
          var after := room.(players := WithSlot(room.players, tag, mine.(playAgain := true)));
          var s1 := s.(roomState := s.roomState[code := after]);
          match theirs
          case None => s1
          case Some(opponent) => Send(s1, [Message(ToConnection(opponent.id), OpponentPlayAgain)])
  }

  // ------------------------------------------------------- leave or disconnect

  /** The opponent is still there but the sender has no slot: assigning `.disconnected` on `undefined` throws. */
  predicate LeaveThrows(s: Registry, sender: ConnId) {
    && RoomOf(s, sender).Some?
    && var room := SenderRoom(s, sender);
       var tag := SenderTag(room.players, sender);
       var theirs := SlotOf(room.players, Opponent(tag));
       && theirs.Some? && !theirs.value.disconnected
       && SlotOf(room.players, tag).None?
  }

  /** `handleRoomDisconnect`, run on `LeaveRoom` and on transport disconnect alike. */
  function OnLeave(s: Registry, sender: ConnId): (r: Registry)
    ensures RoomOf(s, sender).None? ==> r == s
    ensures RoomOf(s, sender).Some? ==>
      var code := RoomOf(s, sender).value;
      var room := s.roomState[code];
      var tag := SenderTag(room.players, sender);
      var mine := SlotOf(room.players, tag);
      var theirs := SlotOf(room.players, Opponent(tag));
      && r.clientRooms == s.clientRooms - {sender}
      && r.pending == s.pending
      && (theirs.None? || theirs.value.disconnected ==>
            r.roomState == s.roomState - {code} && r.outbox == s.outbox)
      && (theirs.Some? && !theirs.value.disconnected && mine.None? ==>
            r.roomState == s.roomState && r.outbox == s.outbox)
      && (theirs.Some? && !theirs.value.disconnected && mine.Some? ==>
            && code in r.roomState && SameExcept(s.roomState, r.roomState, code)
            && r.roomState[code].quoteLength == room.quoteLength
            && r.roomState[code].testText == room.testText
            && SlotOf(r.roomState[code].players, tag) == Some(mine.value.(disconnected := true))
            && SlotOf(r.roomState[code].players, Opponent(tag)) == theirs
            && r.outbox == s.outbox + [Message(ToConnection(theirs.value.id), OpponentDisconnected)])
    ensures Inv(s) ==> Inv(r)
  {
    match RoomOf(s, sender)
    case None => s
    case Some(code) =>
      var s1 := s.(clientRooms := s.clientRooms - {sender});
      var room := s.roomState[code];
      var tag := SenderTag(room.players, sender);
      var theirs := SlotOf(room.players, Opponent(tag));
      if theirs.None? || theirs.value.disconnected then
        s1.(roomState := s.roomState - {code})
      else
        match SlotOf(room.players, tag)
        case None => s1
        case Some(mine) =>
          var after := room.(players := WithSlot(room.players, tag, mine.(disconnected := true)));
          Send(s1.(roomState := s.roomState[code := after]),
               [Message(ToConnection(theirs.value.id), OpponentDisconnected)])
  }

  // ------------------------------------------------------ passage continuations

  function Without(pending: seq<QuoteRequest>, k: nat): (p: seq<QuoteRequest>)
    requires k < |pending|
    ensures |p| == |pending| - 1
    ensures forall i :: 0 <= i < k ==> p[i] == pending[i]
    ensures forall i :: k <= i < |p| ==> p[i] == pending[i + 1]
  {
    pending[..k] + pending[k + 1..]
  }

  /** The room fetch `k` was issued for is gone: `roomState[roomCode].testText` throws. */
  predicate QuoteThrows(s: Registry, k: nat)
    requires k < |s.pending|
  {
    s.pending[k].code !in s.roomState
  }

  /**
   * Fetch `k` resolved with `quote`: the passage is stored on whatever room is
   * now under the code, broadcast, and the countdown starts.
   */
  function OnQuoteFetched(s: Registry, k: nat, quote: string): (r: Registry)
    requires k < |s.pending|
    ensures r.clientRooms == s.clientRooms
    ensures r.pending == Without(s.pending, k)
    ensures QuoteThrows(s, k) ==> r.roomState == s.roomState && r.outbox == s.outbox
    ensures !QuoteThrows(s, k) ==>
      var code := s.pending[k].code;
      && code in r.roomState && SameExcept(s.roomState, r.roomState, code)
      && r.roomState[code].players == s.roomState[code].players
      && r.roomState[code].quoteLength == s.roomState[code].quoteLength
      && r.roomState[code].testText == Some(quote)
      && r.outbox == s.outbox + [Message(ToRoom(code), TestText(quote)), Message(ToRoom(code), CountdownStarted)]
    ensures Inv(s) ==> Inv(r)
  {
    var code := s.pending[k].code;
    var s1 := s.(pending := Without(s.pending, k));
    if code !in s.roomState then s1
    else
      var after := s.roomState[code].(testText := Some(quote));
      Send(s1.(roomState := s.roomState[code := after]),
           [Message(ToRoom(code), TestText(quote)), Message(ToRoom(code), CountdownStarted)])
  }

  /** Fetch `k` was rejected: nothing handles the rejection, so only the fetch is settled. */
  function OnQuoteFailed(s: Registry, k: nat): (r: Registry)
    requires k < |s.pending|
    ensures r.clientRooms == s.clientRooms && r.roomState == s.roomState && r.outbox == s.outbox
    ensures |r.pending| == |s.pending| - 1
    ensures multiset(r.pending) == multiset(s.pending) - multiset{s.pending[k]}
  {
    assert s.pending == s.pending[..k] + [s.pending[k]] + s.pending[k + 1..];
    s.(pending := Without(s.pending, k))
  }
}
