/**
 * Properties of the coordinator that relate several handlers or follow a run
 * of events: the room invariant over any run, the append-only event stream,
 * result disclosure, rematch negotiation, departure, and the end-to-end
 * scenarios of a create-join-race session.
 */
module RaceProperties {
  import opened RaceTypes
  import opened Transitions
  import Words

  /** The inbound events the server listens to, and the settling of its fetches. */
  datatype Input =
    | CreateRoomEvent(sender: ConnId, quoteLength: QuoteLength, code: Code)
    | JoinRoomEvent(sender: ConnId, code: Code)
    | CaretEvent(sender: ConnId, wordIndex: int, charIndex: int)
    | ResultEvent(sender: ConnId, result: Payload)
    | PlayAgainEvent(sender: ConnId)
    | LeaveRoomEvent(sender: ConnId)
    | DisconnectEvent(sender: ConnId)
    | QuoteFetchedEvent(k: nat, quote: string)
    | QuoteFailedEvent(k: nat)

  /**
   * Dispatch as registered on each connection: `LeaveRoom` and `disconnect`
   * share one handler. Only issued fetches settle, so a settling event for a
   * fetch that is not pending changes nothing. Whatever arrives, no event
   * already sent is removed or rewritten, and the room invariant is kept.
   */
  function Apply(s: Registry, i: Input): (r: Registry)
    ensures i.LeaveRoomEvent? || i.DisconnectEvent? ==> r == OnLeave(s, i.sender)
    ensures s.outbox <= r.outbox
    ensures Inv(s) ==> Inv(r)
  {
    match i
    case CreateRoomEvent(sender, len, code) => OnCreateRoom(s, sender, len, code)
    case JoinRoomEvent(sender, code) => OnJoinRoom(s, sender, code)
    case CaretEvent(sender, w, c) => OnCaretPositionChange(s, sender, w, c)
    case ResultEvent(sender, result) => OnResult(s, sender, result)
    case PlayAgainEvent(sender) => OnPlayAgain(s, sender)
    case LeaveRoomEvent(sender) => OnLeave(s, sender)
    case DisconnectEvent(sender) => OnLeave(s, sender)
    case QuoteFetchedEvent(k, quote) => if k < |s.pending| then OnQuoteFetched(s, k, quote) else s
    case QuoteFailedEvent(k) => if k < |s.pending| then OnQuoteFailed(s, k) else s
  }

  /** Events are handled one at a time, each to completion. */
  function Run(s: Registry, inputs: seq<Input>): Registry
    decreases |inputs|
  {
    if inputs == [] then s else Run(Apply(s, inputs[0]), inputs[1..])
  }

  /** What a step appended to the event stream. */
  function Sent(s: Registry, r: Registry): seq<Message>
    requires s.outbox <= r.outbox
  {
    r.outbox[|s.outbox|..]
  }

  ghost predicate Discloses(msgs: seq<Message>) {
    exists i :: 0 <= i < |msgs| && msgs[i].event.PlayersState?
  }

  // ------------------------------------------------------------ run invariants

  /** Over any sequence of events, no event already sent is removed or rewritten. */
  lemma {:induction false} RunOnlyAppends(s: Registry, inputs: seq<Input>)
    ensures s.outbox <= Run(s, inputs).outbox
    decreases |inputs|
  {
    if inputs != [] {
      RunOnlyAppends(Apply(s, inputs[0]), inputs[1..]);
    }
  }

  /**
   * From the empty server, whatever events arrive, no room ever has both slots
   * disconnected or both slots waiting for a rematch.
   */
  lemma {:induction false} RunKeepsInv(s: Registry, inputs: seq<Input>)
    requires Inv(s)
    ensures Inv(Run(s, inputs))
    decreases |inputs|
  {
    if inputs != [] {
      var s1 := Apply(s, inputs[0]);
      assert Inv(s1);
      RunKeepsInv(s1, inputs[1..]);
    }
  }

  lemma ReachableRoomsOk(inputs: seq<Input>, code: Code)
    requires code in Run(Initial, inputs).roomState
    ensures var room := Run(Initial, inputs).roomState[code];
      && !(room.players.player1.disconnected && IsDisconnected(room.players.player2))
      && !(room.players.player1.playAgain && WantsRematch(room.players.player2))
  {
    RunKeepsInv(Initial, inputs);
  }

  // ---------------------------------------------------------------- caret relay

  /** A position update is relayed to the sender's room except the sender, never echoed back. */
  lemma CaretNeverEchoed(s: Registry, sender: ConnId, wordIndex: int, charIndex: int)
    ensures var r := OnCaretPositionChange(s, sender, wordIndex, charIndex);
      && s.outbox <= r.outbox
      && |Sent(s, r)| <= 1
      && forall m :: m in Sent(s, r) ==> m.to == ToRoomExceptSender(RoomOf(s, sender).value, sender)
  {
    var r := OnCaretPositionChange(s, sender, wordIndex, charIndex);
    if RoomOf(s, sender).Some? && !CaretThrows(s, sender) {
      assert Sent(s, r) == r.outbox[|s.outbox|..];
    }
  }

  // ---------------------------------------------------------- result disclosure

  /**
   * When the sender's slot exists and the passage has arrived, the players'
   * state is disclosed exactly when, after storing the result, both slots
   * hold a result.
   */
  lemma ResultDisclosesIffBothFinished(s: Registry, sender: ConnId, result: Payload)
    requires RoomOf(s, sender).Some?
    requires SlotOf(SenderRoom(s, sender).players, SenderTag(SenderRoom(s, sender).players, sender)).Some?
    requires SenderRoom(s, sender).testText.Some?
    ensures var r := OnResult(s, sender, result);
      var code := RoomOf(s, sender).value;
      && s.outbox <= r.outbox && code in r.roomState
      && (Discloses(Sent(s, r)) <==>
            HasResult(Some(r.roomState[code].players.player1)) && HasResult(r.roomState[code].players.player2))
  {
    var r := OnResult(s, sender, result);
    var code := RoomOf(s, sender).value;
    var room := s.roomState[code];
    var tag := SenderTag(room.players, sender);
    var after := r.roomState[code];
    var caret := FinishCaret(code, tag, room.testText.value);
    assert HasResult(SlotOf(after.players, tag));
    assert SlotOf(after.players, Opponent(tag)) == SlotOf(room.players, Opponent(tag));
    assert after.players.player1 == SlotOf(after.players, Player1).value;
    if HasResult(SlotOf(room.players, Opponent(tag))) {
      var disclosure := Message(ToRoom(code), PlayersState(after.players));
      assert Sent(s, r) == [caret, disclosure];
      assert Sent(s, r)[1].event.PlayersState?;
    } else {
      assert Sent(s, r) == [caret];
      assert !HasResult(SlotOf(after.players, Opponent(tag)));
    }
  }

  /**
   * Both participants of a race submit: the room receives each one's finishing
   * caret and then one disclosure carrying both results.
   */
  lemma BothResultsDiscloseOnce(s: Registry, a: ConnId, b: ConnId, ra: Payload, rb: Payload, code: Code)
    requires a != b && code != ""
    requires a in s.clientRooms && s.clientRooms[a] == code
    requires b in s.clientRooms && s.clientRooms[b] == code
    requires code in s.roomState
    requires s.roomState[code].players.player1.id == a
    requires s.roomState[code].players.player2.Some? && s.roomState[code].players.player2.value.id == b
    requires s.roomState[code].players.player1.result.None?
    requires s.roomState[code].players.player2.value.result.None?
    requires s.roomState[code].testText.Some?
    ensures var r := OnResult(OnResult(s, a, ra), b, rb);
      var text := s.roomState[code].testText.value;
      && code in r.roomState
      && r.roomState[code].players.player1.result == Some(ra)
      && r.roomState[code].players.player2.Some?
      && r.roomState[code].players.player2.value.result == Some(rb)
      && r.outbox == s.outbox + [FinishCaret(code, Player1, text), FinishCaret(code, Player2, text),
                                 Message(ToRoom(code), PlayersState(r.roomState[code].players))]
  {
    var s1 := OnResult(s, a, ra);
    assert RoomOf(s, a) == Some(code);
    assert SenderTag(s.roomState[code].players, a) == Player1;
    assert s1.outbox == s.outbox + [FinishCaret(code, Player1, s.roomState[code].testText.value)];
    assert RoomOf(s1, b) == Some(code);
    assert SenderTag(s1.roomState[code].players, b) == Player2;
  }

  /** A single submission never discloses: the opponent has not finished. */
  lemma LoneResultDoesNotDisclose(s: Registry, sender: ConnId, result: Payload)
    requires RoomOf(s, sender).Some?
    requires !HasResult(SlotOf(SenderRoom(s, sender).players, Opponent(SenderTag(SenderRoom(s, sender).players, sender))))
    ensures var r := OnResult(s, sender, result); s.outbox <= r.outbox && !Discloses(Sent(s, r))
  {
    var r := OnResult(s, sender, result);
    var code := RoomOf(s, sender).value;
    var room := s.roomState[code];
    var tag := SenderTag(room.players, sender);
    if SlotOf(room.players, tag).Some? && room.testText.Some? {
      assert Sent(s, r) == [FinishCaret(code, tag, room.testText.value)];
    } else {
      assert Sent(s, r) == [];
    }
  }

  /**
   * The finishing caret's indexes: wordIndex counts the spaces of the passage,
   * and charIndex is the length of its final space-free run.
   */
  lemma FinishCaretPosition(code: Code, tag: PlayerTag, text: string)
    ensures var w := Words.LastWord(text);
      && FinishCaret(code, tag, text) == Message(ToRoom(code), CaretPositionChange(tag, Words.Spaces(text), |w|))
      && |w| <= |text|
      && ' ' !in text[|text| - |w|..]
      && (|w| < |text| ==> text[|text| - |w| - 1] == ' ')
  {
    Words.SplitLength(text);
    Words.LastWordIsFinalSuffix(text);
  }

  // ------------------------------------------------------------------- rematch

  /**
   * A rematch request resets the room (and fetches a new passage) exactly when
   * the opponent was already waiting and the room has two slots; the reset
   * room carries no result and no rematch flag.
   */
  lemma RematchResetsIffOpponentWaiting(s: Registry, sender: ConnId)
    requires RoomOf(s, sender).Some?
    ensures var r := OnPlayAgain(s, sender);
      var room := SenderRoom(s, sender);
      var code := RoomOf(s, sender).value;
      var theirs := SlotOf(room.players, Opponent(SenderTag(room.players, sender)));
      && (|r.pending| > |s.pending| <==> WantsRematch(theirs) && room.players.player2.Some?)
      && (|r.pending| > |s.pending| ==>
            && code in r.roomState
            && r.roomState[code].players.player1.result.None?
            && !r.roomState[code].players.player1.playAgain
            && r.roomState[code].players.player2.Some?
            && r.roomState[code].players.player2.value.result.None?
            && !r.roomState[code].players.player2.value.playAgain)
  {
  }

  /** Two participants asking in turn: the first waits and is announced, the second resets. */
  lemma RematchNegotiation(s: Registry, a: ConnId, b: ConnId, code: Code)
    requires a != b && code != ""
    requires a in s.clientRooms && s.clientRooms[a] == code
    requires b in s.clientRooms && s.clientRooms[b] == code
    requires code in s.roomState
    requires s.roomState[code].players.player1.id == a
    requires s.roomState[code].players.player2.Some? && s.roomState[code].players.player2.value.id == b
    requires !s.roomState[code].players.player2.value.playAgain
    ensures var s1 := OnPlayAgain(s, a);
      var s2 := OnPlayAgain(s1, b);
      && s1.outbox == s.outbox + [Message(ToConnection(b), OpponentPlayAgain)]
      && code in s2.roomState
      && s2.roomState[code] == Room(Players(StartSlot(a), Some(StartSlot(b))), s.roomState[code].quoteLength, Some(""))
      && s2.outbox == s1.outbox + [Message(ToRoom(code), RoomState(s2.roomState[code]))]
      && s2.pending == s.pending + [QuoteRequest(code, s.roomState[code].quoteLength)]
  {
    var s1 := OnPlayAgain(s, a);
    assert RoomOf(s, a) == Some(code);
    assert RoomOf(s1, b) == Some(code);
    assert SenderTag(s1.roomState[code].players, b) == Player2;
    assert s1.roomState[code].players.player1.playAgain;
  }

  // ----------------------------------------------------------------- departure

  /**
   * The first of two active participants to leave stays in the room marked
   * disconnected and the other is told once; when the other leaves too, the
   * room is deleted and nobody is told.
   */
  lemma DepartureScenario(s: Registry, a: ConnId, b: ConnId, code: Code)
    requires a != b && code != ""
    requires a in s.clientRooms && s.clientRooms[a] == code
    requires b in s.clientRooms && s.clientRooms[b] == code
    requires code in s.roomState
    requires s.roomState[code].players.player1.id == a
    requires !s.roomState[code].players.player1.disconnected
    requires s.roomState[code].players.player2.Some? && s.roomState[code].players.player2.value.id == b
    requires !s.roomState[code].players.player2.value.disconnected
    ensures var s1 := OnLeave(s, a);
      var s2 := OnLeave(s1, b);
      && a !in s1.clientRooms
      && code in s1.roomState && s1.roomState[code].players.player1.disconnected
      && s1.outbox == s.outbox + [Message(ToConnection(b), OpponentDisconnected)]
      && b !in s2.clientRooms
      && code !in s2.roomState
      && s2.outbox == s1.outbox
  {
    var s1 := OnLeave(s, a);
    assert RoomOf(s, a) == Some(code);
    assert RoomOf(s1, b) == Some(code);
    assert SenderTag(s1.roomState[code].players, b) == Player2;
  }

  /** The lone creator leaving deletes the room at once. */
  lemma LoneCreatorLeaving(s: Registry, a: ConnId, code: Code)
    requires code != ""
    ensures var s1 := OnCreateRoom(s, a, "short", code);
      var s2 := OnLeave(s1, a);
      code !in s2.roomState && a !in s2.clientRooms && s2.outbox == s1.outbox
  {
    var s1 := OnCreateRoom(s, a, "short", code);
    assert RoomOf(s1, a) == Some(code);
  }

  // ---------------------------------------------------------------- scenarios

  /**
   * Create with "medium" under code ABC123, join with ABC123, the passage
   * arrives: both slots are filled and the events are, in order, the creator's
   * acknowledgement, the one-slot snapshot, the joiner's acknowledgement, the
   * two-slot snapshot, the passage and the countdown.
   */
  lemma CreateJoinRaceScenario(a: ConnId, b: ConnId, quote: string)
    requires a != b
    ensures var s1 := OnCreateRoom(Initial, a, "medium", "ABC123");
      var s2 := OnJoinRoom(s1, b, "ABC123");
      |s2.pending| == 1 &&
      var s3 := OnQuoteFetched(s2, 0, quote);
      var one := Room(Players(StartSlot(a), None), "medium", None);
      var two := Room(Players(StartSlot(a), Some(StartSlot(b))), "medium", None);
      && s3.roomState == map["ABC123" := two.(testText := Some(quote))]
      && s3.clientRooms == map[a := "ABC123", b := "ABC123"]
      && s3.pending == []
      && s3.outbox == [
           Message(ToConnection(a), HasJoinedRoom("ABC123")),
           Message(ToRoom("ABC123"), RoomState(one)),
           Message(ToConnection(b), HasJoinedRoom("ABC123")),
           Message(ToRoom("ABC123"), RoomState(two)),
           Message(ToRoom("ABC123"), TestText(quote)),
           Message(ToRoom("ABC123"), CountdownStarted)]
  {
  }

  /** Joining a code that was never created: one error to the requester, no room. */
  lemma JoinUnknownScenario(b: ConnId)
    ensures var r := OnJoinRoom(Initial, b, "ZZZZZZ");
      && r.roomState == map[] && r.clientRooms == map[] && r.pending == []
      && r.outbox == [Message(ToConnection(b), JoinRoomError)]
  {
  }

  // ------------------------------------------------------------ orphaned rooms

  /** A stored room that no connection is mapped to: no later event can reach it. */
  ghost predicate Orphaned(s: Registry, code: Code) {
    code in s.roomState && forall x :: x in s.clientRooms ==> s.clientRooms[x] != code
  }

  /**
   * Creating a second room from the same connection remaps the connection and
   * leaves the first room stored with nobody mapped to it.
   */
  lemma RecreateOrphansRoom(a: ConnId, len: QuoteLength, c1: Code, c2: Code)
    requires c1 != c2
    ensures var s1 := OnCreateRoom(Initial, a, len, c1);
      var s2 := OnCreateRoom(s1, a, len, c2);
      !Orphaned(s1, c1) && Orphaned(s2, c1)
  {
    var s1 := OnCreateRoom(Initial, a, len, c1);
    var s2 := OnCreateRoom(s1, a, len, c2);
    assert s2.clientRooms == map[a := c2];
  }

  /**
   * Both participants ask for a rematch, each leaving right after asking: the
   * reset clears the first one's disconnected mark, so the second departure
   * finds an opponent still present and keeps the room, while both
   * connections have lost their entries.
   */
  lemma RematchAfterLeaveOrphansRoom(s: Registry, a: ConnId, b: ConnId, code: Code)
    requires a != b && code != ""
    requires s.clientRooms == map[a := code, b := code]
    requires code in s.roomState
    requires s.roomState[code].players.player1 == StartSlot(a)
    requires s.roomState[code].players.player2 == Some(StartSlot(b))
    ensures var s1 := OnPlayAgain(s, a);
      var s2 := OnLeave(s1, a);
      var s3 := OnPlayAgain(s2, b);
      var s4 := OnLeave(s3, b);
      && s4.clientRooms == map[]
      && Orphaned(s4, code)
  {
    var s1 := OnPlayAgain(s, a);
    assert RoomOf(s, a) == Some(code);
    assert s1.roomState[code].players.player1 == StartSlot(a).(playAgain := true);
    var s2 := OnLeave(s1, a);
    assert RoomOf(s1, a) == Some(code);
    assert s2.clientRooms == map[b := code];
    assert s2.roomState[code].players.player1.playAgain;
    assert s2.roomState[code].players.player2 == Some(StartSlot(b));
    var s3 := OnPlayAgain(s2, b);
    assert RoomOf(s2, b) == Some(code);
    assert SenderTag(s2.roomState[code].players, b) == Player2;
    assert s3.roomState[code].players == Players(StartSlot(a), Some(StartSlot(b)));
    var s4 := OnLeave(s3, b);
    assert RoomOf(s3, b) == Some(code);
    assert SenderTag(s3.roomState[code].players, b) == Player2;
    assert s4.clientRooms == map[];
  }

  // --------------------------------------------------------- where it throws

  /** The TypeErrors of the caret and departure handlers only hit a sender the room no longer lists. */
  lemma ListedSenderDoesNotThrow(s: Registry, sender: ConnId)
    requires RoomOf(s, sender).Some?
    requires SenderRoom(s, sender).players.player1.id == sender
          || (SenderRoom(s, sender).players.player2.Some? && SenderRoom(s, sender).players.player2.value.id == sender)
    ensures !CaretThrows(s, sender) && !LeaveThrows(s, sender)
  {
  }
}
