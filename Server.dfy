/**
 * The coordinator as the server runs it: the two module-level dictionaries,
 * the fetches in flight and the outgoing event stream are fields that each
 * handler updates in place. Every handler is proved to perform exactly the
 * corresponding transition of module Transitions and to keep its invariant.
 */
module RaceServer {
  import opened RaceTypes
  import Transitions
  import Words

  class Coordinator {
    var clientRooms: map<ConnId, Code>
    var roomState: map<Code, Room>
    var pending: seq<QuoteRequest>
    var outbox: seq<Message>

    function State(): Transitions.Registry
      reads this
    {
      Transitions.Registry(clientRooms, roomState, pending, outbox)
    }

    ghost predicate Valid()
      reads this
    {
      Transitions.Inv(State())
    }

    constructor ()
      ensures Valid() && State() == Transitions.Initial
    {
      clientRooms := map[];
      roomState := map[];
      pending := [];
      outbox := [];
    }

    /**
     * Helper: the guard shared by the handlers that start from
     * `clientRooms[socket.id]`, read from the fields.
     */
    method LookUp(sender: ConnId) returns (found: Option<Code>)
      ensures found == Transitions.RoomOf(State(), sender)
    {
      if sender !in clientRooms || clientRooms[sender] == "" || clientRooms[sender] !in roomState {
        return None;
      }
      return Some(clientRooms[sender]);
    }

    method CreateRoom(sender: ConnId, quoteLength: QuoteLength, code: Code)
      requires Valid()
      modifies this
      ensures Valid()
      ensures State() == Transitions.OnCreateRoom(old(State()), sender, quoteLength, code)
    {
      clientRooms := clientRooms[sender := code];
      roomState := roomState[code := Room(Players(StartSlot(sender), None), quoteLength, None)];
      outbox := outbox + [Message(ToConnection(sender), HasJoinedRoom(code))];
      outbox := outbox + [Message(ToRoom(code), RoomState(roomState[code]))];
    }

    method JoinRoom(sender: ConnId, code: Code)
      requires Valid()
      modifies this
      ensures Valid()
      ensures State() == Transitions.OnJoinRoom(old(State()), sender, code)
    {
      if code !in roomState {
        outbox := outbox + [Message(ToConnection(sender), JoinRoomError)];
        return;
      }
      clientRooms := clientRooms[sender := code];
      var room := roomState[code];
      roomState := roomState[code := room.(players := room.players.(player2 := Some(StartSlot(sender))))];
      outbox := outbox + [Message(ToConnection(sender), HasJoinedRoom(code))];
      pending := pending + [QuoteRequest(code, roomState[code].quoteLength)];
      outbox := outbox + [Message(ToRoom(code), RoomState(roomState[code]))];
    }

    method CaretPositionChange(sender: ConnId, wordIndex: int, charIndex: int) returns (threw: bool)
      requires Valid()
      modifies this
      ensures Valid()
      ensures State() == Transitions.OnCaretPositionChange(old(State()), sender, wordIndex, charIndex)
      ensures threw == Transitions.CaretThrows(old(State()), sender)
    {
      threw := false;
      var found := LookUp(sender);
      if found.None? {
        return;
      }
      var code := found.value;
      var room := roomState[code];
      var player := SenderTag(room.players, sender);
      var mine := SlotOf(room.players, player);
      if mine.None? {
        threw := true;
        return;
      }
      roomState := roomState[code := room.(players :=
        WithSlot(room.players, player, Slot(mine.value.id, wordIndex, charIndex, None, false, false)))];
      outbox := outbox + [Message(ToRoomExceptSender(code, sender), Event.CaretPositionChange(player, wordIndex, charIndex))];
    }

    method Result(sender: ConnId, result: Payload) returns (threw: bool)
      requires Valid()
      modifies this
      ensures Valid()
      ensures State() == Transitions.OnResult(old(State()), sender, result)
      ensures threw == Transitions.ResultThrows(old(State()), sender)
    {
      threw := false;
      var found := LookUp(sender);
      if found.None? {
        return;
      }
      var code := found.value;
      var player := SenderTag(roomState[code].players, sender);
      var opponentPlayer := Opponent(player);
      var mine := SlotOf(roomState[code].players, player);
      if mine.Some? {
        var room := roomState[code];
        roomState := roomState[code := room.(players := WithSlot(room.players, player, mine.value.(result := Some(result))))];
        if roomState[code].testText.None? {
          threw := true;
          return;
        }
        var typedWords := Words.Split(roomState[code].testText.value);
        outbox := outbox + [Message(ToRoom(code),
          Event.CaretPositionChange(player, |typedWords| - 1, |typedWords[|typedWords| - 1]|))];
      }
      if HasResult(SlotOf(roomState[code].players, opponentPlayer)) {
        outbox := outbox + [Message(ToRoom(code), PlayersState(roomState[code].players))];
      }
    }

    method PlayAgain(sender: ConnId) returns (threw: bool)
      requires Valid()
      modifies this
      ensures Valid()
      ensures State() == Transitions.OnPlayAgain(old(State()), sender)
      ensures threw == Transitions.PlayAgainThrows(old(State()), sender)
    {
      threw := false;
      var found := LookUp(sender);
      if found.None? {
        return;
      }
      var code := found.value;
      var state := roomState[code];
      var player := SenderTag(state.players, sender);
      var opponentPlayer := Opponent(player);
      if WantsRematch(SlotOf(state.players, opponentPlayer)) {
        if state.players.player2.None? {
          threw := true;
          return;
        }
        roomState := roomState[code := Room(
          Players(StartSlot(state.players.player1.id), Some(StartSlot(state.players.player2.value.id))),
          state.quoteLength,
          Some(""))];
        outbox := outbox + [Message(ToRoom(code), RoomState(roomState[code]))];
        pending := pending + [QuoteRequest(code, state.quoteLength)];
      } else {
        var mine := SlotOf(state.players, player);
        if mine.None? {
          threw := true;
          return;
        }
        roomState := roomState[code := state.(players := WithSlot(state.players, player, mine.value.(playAgain := true)))];
        var theirs := SlotOf(state.players, opponentPlayer);
        if theirs.None? {
          threw := true;
          return;
        }
        outbox := outbox + [Message(ToConnection(theirs.value.id), OpponentPlayAgain)];
      }
    }

    /** `handleRoomDisconnect`, registered for both `LeaveRoom` and `disconnect`. */
    method HandleRoomDisconnect(sender: ConnId) returns (threw: bool)
      requires Valid()
      modifies this
      ensures Valid()
      ensures State() == Transitions.OnLeave(old(State()), sender)
      ensures threw == Transitions.LeaveThrows(old(State()), sender)
    {
      threw := false;
      var found := LookUp(sender);
      if found.None? {
        return;
      }
      var code := found.value;
      clientRooms := clientRooms - {sender};
      var room := roomState[code];
      var player := SenderTag(room.players, sender);
      var opponentPlayerState := SlotOf(room.players, Opponent(player));
      if opponentPlayerState.None? || opponentPlayerState.value.disconnected {
        roomState := roomState - {code};
      } else {
        var mine := SlotOf(room.players, player);
        if mine.None? {
          threw := true;
          return;
        }
        roomState := roomState[code := room.(players := WithSlot(room.players, player, mine.value.(disconnected := true)))];
        outbox := outbox + [Message(ToConnection(opponentPlayerState.value.id), OpponentDisconnected)];
      }
    }

    /** The continuation of fetch `k` when it resolves with `quote`. */
    method OnQuoteFetched(k: nat, quote: string) returns (threw: bool)
      requires Valid()
      requires k < |pending|
      modifies this
      ensures Valid()
      ensures State() == Transitions.OnQuoteFetched(old(State()), k, quote)
      ensures threw == Transitions.QuoteThrows(old(State()), k)
    {
      var roomCode := pending[k].code;
      pending := pending[..k] + pending[k + 1..];
      threw := roomCode !in roomState;
      if threw {
        return;
      }
      roomState := roomState[roomCode := roomState[roomCode].(testText := Some(quote))];
      outbox := outbox + [Message(ToRoom(roomCode), TestText(quote))];
      outbox := outbox + [Message(ToRoom(roomCode), CountdownStarted)];
    }

    /** Fetch `k` was rejected; the rejection is not handled. */
    method OnQuoteFailed(k: nat)
      requires Valid()
      requires k < |pending|
      modifies this
      ensures Valid()
      ensures State() == Transitions.OnQuoteFailed(old(State()), k)
    {
      pending := pending[..k] + pending[k + 1..];
    }
  }
}
