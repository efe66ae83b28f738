/** The shared `gameState` record and the socket handlers that update it in
    place. Each handler returns, in order, the notifications it broadcasts,
    and is proved to leave the record exactly as the matching function of
    module Session describes. */
module Game {
  import opened Cards
  import opened Session
  import Properties

  class GameState {
    var players: map<string, Player>
    var currentPlayer: Option<nat>
    /** The deck; flips and matches write the flags of its cards in place. */
    var cards: array<Card>
    /** playersCurrentFlippedCards: card indices turned face-up this turn. */
    var pending: seq<int>
    /** Match counter keyed by seat number. */
    var matches: map<nat, Tally>
    var gameStarted: bool

    /** The record as a value. */
    function Snap(): Snapshot
      reads this, cards
    {
      Snapshot(players, currentPlayer, cards[..], pending, matches, gameStarted)
    }

    ghost predicate Valid()
      reads this, cards
    {
      Session.Valid(Snap())
    }

    /** The record the server starts with. */
    constructor ()
      ensures Valid() && Snap() == Initial() && fresh(cards)
    {
      players := map[];
      currentPlayer := None;
      cards := new Card[0];
      pending := [];
      matches := map[1 := Count(0), 2 := Count(0)];
      gameStarted := false;
    }

    /** player_joined. */
    method PlayerJoined(socketId: string, name: Option<string>) returns (events: seq<Event>)
      requires Valid()
      modifies this
      ensures Valid() && cards == old(cards)
      ensures Step(Snap(), events) == Join(old(Snap()), socketId, name)
    {
      Properties.JoinPreservesValid(Snap(), socketId, name);
      var playerNumber := |players| + 1;
      var player := Player(socketId, DisplayName(name, playerNumber), playerNumber, 0);
      players := players[socketId := player];
      events := [Event.PlayerJoined(socketId, playerNumber, player.name, |players|)];
    }

    /** flip_card. */
    method FlipCard(socketId: string, cardId: int) returns (events: seq<Event>)
      requires Valid()
      modifies this, cards
      ensures Valid() && cards == old(cards)
      ensures Step(Snap(), events) == Flip(old(Snap()), socketId, cardId)
    {
      ghost var before := Snap();
      Properties.FlipPreservesValid(before, socketId, cardId);
      if !gameStarted || cardId < 0 || cardId >= cards.Length {
        return [];
      }
      var card := cards[cardId];
      if card.matched {
        return [];
      }
      var playerName := NameOf(players, socketId);
      if card.flipped {
        cards[cardId] := card.(flipped := false);
        events := [CardFlippedFaceDown(cardId, socketId, playerName)];
        assert cards[..] == before.cards[cardId := card.(flipped := false)];
        return;
      }
      cards[cardId] := card.(flipped := true);
      pending := pending + [cardId];
      events := [CardFlipped(cardId, card.value, socketId, playerName)];
      assert cards[..] == before.cards[cardId := card.(flipped := true)];
      if |pending| == 2 {
        assert PendingInRange(Snap());
        var settled := ResolvePending(socketId);
        events := events + settled;
      }
    }

    /** The second half of flip_card: two cards are pending. */
    method ResolvePending(socketId: string) returns (events: seq<Event>)
      requires |pending| == 2 && PendingInRange(Snap())
      modifies this, cards
      ensures cards == old(cards)
      ensures Step(Snap(), events) == Resolve(old(Snap()), socketId)
    {
      ghost var before := Snap();
      var first, second := pending[0], pending[1];
      assert first in before.pending && second in before.pending;
      var firstCard := cards[first];
      var secondCard := cards[second];
      if firstCard.value == secondCard.value {
        cards[first] := cards[first].(matched := true);
        cards[second] := cards[second].(matched := true);
        ghost var once := before.cards[first := before.cards[first].(matched := true)];
        assert cards[..] == once[second := once[second].(matched := true)];
        var playerName := NameOf(players, socketId);
        if socketId in players {
          var player := players[socketId];
          players := players[socketId := player.(score := player.score + 1)];
          matches := Bump(matches, player.playerNumber);
        }
        events := [MatchFound([first, second], firstCard.value, socketId, playerName, matches)];
      } else {
        events := [NoMatch([first, second], NoMatchMessage)];
      }
      pending := [];
    }

    /** start_game: the deck is replaced by a fresh one. */
    method StartGame(socketId: string) returns (events: seq<Event>)
      requires Valid()
      modifies this
      ensures Valid() && fresh(cards)
      ensures Step(Snap(), events) == Start(old(Snap()), socketId)
    {
      Properties.StartPreservesValid(Snap(), socketId);
      cards := GenerateCardDeck();
      gameStarted := true;
      currentPlayer := Some(1);
      events := [GameStart(cards[..], 1, socketId)];
    }

    /** disconnect. */
    method Disconnect(socketId: string) returns (events: seq<Event>)
      requires Valid()
      modifies this
      ensures Valid() && cards == old(cards)
      ensures Step(Snap(), events) == Session.Disconnect(old(Snap()), socketId)
    {
      Properties.DisconnectPreservesValid(Snap(), socketId);
      events := [];
      if socketId in players {
        var playerNumber := players[socketId].playerNumber;
        players := players - {socketId};
        events := [PlayerLeft(socketId, playerNumber, |players|)];
      }
    }
  }
}
