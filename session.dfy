/** The shared game record and the four event handlers of the server, stated
    as functions from the record before an event to the record after it and
    the notifications broadcast while handling it. The class in module Game
    performs the same updates in place and is proved to agree with these. */
module Session {
  import opened Cards
  import Decimal

  datatype Option<T> = None | Some(value: T)

  /** A registry entry; the key it is stored under is its connection id. */
  datatype Player = Player(id: string, name: string, playerNumber: nat, score: nat)

  /** One entry of the per-seat match counter. Adding 1 to a key the counter
      does not have yields NaN in JavaScript, and NaN + 1 is NaN again. */
  datatype Tally = Count(n: nat) | NaN

  /** The notifications broadcast to every connected client. The field names
      are those of the payloads, except that PlayerJoined's `playerName`
      (always present) is called `joinedName` here, because the other events'
      `playerName` may be undefined. */
  datatype Event =
    | PlayerJoined(playerId: string, playerNumber: nat, joinedName: string, totalPlayers: nat)
    | CardFlipped(cardId: int, cardValue: string, playerId: string, playerName: Option<string>)
    | CardFlippedFaceDown(cardId: int, playerId: string, playerName: Option<string>)
    | MatchFound(matchedCards: seq<int>, cardValue: string, playerId: string,
                 playerName: Option<string>, scores: map<nat, Tally>)
    | NoMatch(flippedCards: seq<int>, message: string)
    | GameStart(cards: seq<Card>, currentPlayer: nat, playerId: string)
    | PlayerLeft(playerId: string, playerNumber: nat, totalPlayers: nat)

  /** The event name each notification is sent under. */
  function WireName(e: Event): string {
    match e
    case PlayerJoined(_, _, _, _) => "player_joined"
    case CardFlipped(_, _, _, _) => "card_flipped"
    case CardFlippedFaceDown(_, _, _) => "card_flipped_face-down"
    case MatchFound(_, _, _, _, _) => "match_found"
    case NoMatch(_, _) => "no_match"
    case GameStart(_, _, _) => "game_start"
    case PlayerLeft(_, _, _) => "player_left"
  }

  /** The shared game record. `pending` is the list of face-up cards of the
      current turn (playersCurrentFlippedCards); `matches` is keyed by seat
      number (key N stands for "playerN"). */
  datatype Snapshot = Snapshot(
    players: map<string, Player>,
    currentPlayer: Option<nat>,
    cards: seq<Card>,
    pending: seq<int>,
    matches: map<nat, Tally>,
    gameStarted: bool)

  /** The record after one handler and what it broadcast, in order. */
  datatype Step = Step(state: Snapshot, events: seq<Event>)

  const NoMatchMessage: string :=
    "No match! Flip the cards back manually and pass your turn to the next player."

  /** The record the server starts with. */
  function Initial(): (s: Snapshot)
    ensures Valid(s)
    ensures s.players == map[] && s.cards == [] && s.pending == []
    ensures !s.gameStarted && s.currentPlayer == None
    ensures s.matches == map[1 := Count(0), 2 := Count(0)]
  {
    Snapshot(map[], None, [], [], map[1 := Count(0), 2 := Count(0)], false)
  }

  /** The pending indices address cards of the current deck. */
  predicate PendingInRange(s: Snapshot) {
    forall p :: p in s.pending ==> 0 <= p < |s.cards|
  }

  /** What holds between events, from the initial record on. */
  predicate Valid(s: Snapshot) {
    && |s.pending| <= 1
    && PendingInRange(s)
    && (|s.cards| == 0 || |s.cards| == DeckSize)
    && (forall i :: 0 <= i < |s.cards| ==> s.cards[i].value == Deck()[i].value)
    && (s.gameStarted ==> |s.cards| == DeckSize)
    && (forall id :: id in s.players ==> s.players[id].id == id)
    && 1 in s.matches && s.matches[1].Count?
    && 2 in s.matches && s.matches[2].Count?
  }

  /** `playerData.name || "Player N"`: an absent or empty name is replaced. */
  function DisplayName(requested: Option<string>, seat: nat): (name: string)
    ensures |name| > 0
    ensures requested.Some? && requested.value != "" ==> name == requested.value
    ensures !(requested.Some? && requested.value != "") ==>
      |name| > 7 && name[..7] == "Player " && name[7..] == Decimal.NatToString(seat)
  {
    if requested.Some? && requested.value != "" then requested.value
    else "Player " + Decimal.NatToString(seat)
  }

  /** `gameState.players[id]?.name`. */
  function NameOf(players: map<string, Player>, id: string): (r: Option<string>)
    ensures r.Some? <==> id in players
    ensures r.Some? ==> r.value == players[id].name
  {
    if id in players then Some(players[id].name) else None
  }

  /** `matches["player" + seat] += 1`. */
  function Bump(matches: map<nat, Tally>, seat: nat): (r: map<nat, Tally>)
    ensures r.Keys == matches.Keys + {seat}
    ensures forall k :: k in matches && k != seat ==> r[k] == matches[k]
    ensures seat in matches && matches[seat].Count? ==> r[seat] == Count(matches[seat].n + 1)
    ensures !(seat in matches && matches[seat].Count?) ==> r[seat] == NaN
  {
    matches[seat := if seat in matches && matches[seat].Count? then Count(matches[seat].n + 1) else NaN]
  }

  /** player_joined: seat number is the current player count plus one. */
  function Join(s: Snapshot, socketId: string, requested: Option<string>): (r: Step)
    ensures socketId in r.state.players
    ensures r.state.players[socketId].playerNumber == |s.players| + 1
    ensures r.state.players[socketId].score == 0
    ensures |r.events| == 1 && r.events[0].PlayerJoined?
  {
    var seat := |s.players| + 1;
    var player := Player(socketId, DisplayName(requested, seat), seat, 0);
    var players := s.players[socketId := player];
    Step(s.(players := players), [PlayerJoined(socketId, seat, player.name, |players|)])
  }

  /** flip_card. */
  function Flip(s: Snapshot, socketId: string, cardId: int): (r: Step)
    requires PendingInRange(s)
    ensures |r.state.cards| == |s.cards| && PendingInRange(r.state)
  {
    if !s.gameStarted || cardId < 0 || cardId >= |s.cards| then Step(s, [])
    else
      var card := s.cards[cardId];
      if card.matched then Step(s, [])
      else if card.flipped then
        Step(s.(cards := s.cards[cardId := card.(flipped := false)]),
             [CardFlippedFaceDown(cardId, socketId, NameOf(s.players, socketId))])
      else
        var up := s.(cards := s.cards[cardId := card.(flipped := true)], pending := s.pending + [cardId]);
        var shown := CardFlipped(cardId, card.value, socketId, NameOf(s.players, socketId));
        if |up.pending| == 2 then
          var resolved := Resolve(up, socketId);
          Step(resolved.state, [shown] + resolved.events)
        else
          Step(up, [shown])
  }

  /** The second half of flip_card, run when two cards are pending. */
  function Resolve(s: Snapshot, socketId: string): (r: Step)
    requires PendingInRange(s) && |s.pending| == 2
    ensures |r.state.cards| == |s.cards| && r.state.pending == []
  {
    var first, second := s.pending[0], s.pending[1];
    assert first in s.pending && second in s.pending;
    var value := s.cards[first].value;
    if value == s.cards[second].value then
      var once := s.cards[first := s.cards[first].(matched := true)];
      var cards := once[second := once[second].(matched := true)];
      var players :=
        if socketId in s.players
        then s.players[socketId := s.players[socketId].(score := s.players[socketId].score + 1)]
        else s.players;
      var matches :=
        if socketId in s.players then Bump(s.matches, s.players[socketId].playerNumber) else s.matches;
      Step(s.(cards := cards, players := players, matches := matches, pending := []),
           [MatchFound([first, second], value, socketId, NameOf(s.players, socketId), matches)])
    else
      Step(s.(pending := []), [NoMatch([first, second], NoMatchMessage)])
  }

  /** start_game: a new deck, the game marked started and seat 1 to play. */
  function Start(s: Snapshot, socketId: string): (r: Step)
    ensures |r.state.cards| == DeckSize
    ensures forall i :: 0 <= i < DeckSize ==> !r.state.cards[i].flipped && !r.state.cards[i].matched
    ensures r.state.gameStarted && r.state.currentPlayer == Some(1)
    ensures |r.events| == 1 && r.events[0].GameStart?
  {
    Step(s.(cards := Deck(), gameStarted := true, currentPlayer := Some(1)),
         [GameStart(Deck(), 1, socketId)])
  }

  /** disconnect: the caller's entry, if any, is deleted. */
  function Disconnect(s: Snapshot, socketId: string): (r: Step)
    ensures r.state.players.Keys == s.players.Keys - {socketId}
    ensures |r.events| == if socketId in s.players then 1 else 0
  {
    if socketId in s.players then
      var players := s.players - {socketId};
      Step(s.(players := players), [PlayerLeft(socketId, s.players[socketId].playerNumber, |players|)])
    else
      Step(s, [])
  }
}
