# Memory game server: the shared game record and its socket handlers

This project models the server side of a two-player memory (card-matching)
game. One shared, mutable game record holds the registered players, the deck,
the list of cards turned face-up in the current turn (`playersCurrentFlippedCards`),
the per-seat match counter, the started flag and the seat to play. Four socket
handlers update it, one event at a time, each to completion:

- `player_joined` registers the caller under its connection id. Its seat number
  is the player count plus one, its score is 0, and its name is the requested
  one or, when that is absent or empty, `"Player N"`.
- `flip_card` ignores the event if the game has not started, the index names no
  card, or the card is matched. It turns a face-up card face-down. It turns a
  face-down card face-up and appends the index to the pending list. When two
  indices are pending it resolves them. Equal values mark both cards matched
  and credit a registered caller (score and `matches["playerN"]`). Unequal
  values change no card: the new card stays face-up and the pending card keeps
  its face (face-down, if it was turned back meanwhile). Either way the pending
  list is emptied.
- `start_game` deals the deck (no shuffle: card i and card i + 10 carry the
  i-th of ten animal symbols), sets the game started and gives the turn to seat 1.
- `disconnect` deletes the caller's entry, if there is one.

Every handler returns the notifications it broadcasts, as values of `Event`.

Structure:

- `deck.dfy`, module `Cards`: the card type, the fixed deck `Deck()`, the
  imperative builder `GenerateCardDeck` that fills an array pair by pair, and
  the lemma that every animal occurs exactly twice.
- `decimal.dfy`, module `Decimal`: decimal rendering of the seat number used in
  the default name, with its parser and the round-trip lemma.
- `session.dfy`, module `Session`: the record as a value (`Snapshot`), the
  notifications, the invariant `Valid`, and each handler as a function from
  the record before an event to the record after it plus its broadcasts.
- `properties.dfy`, module `Properties`: one lemma per handler branch, the
  preservation of `Valid` by every handler, and three lemmas that exhibit
  behaviours of the code as written (below).
- `trace.dfy`, module `Trace`: dispatching an event and runs of many events,
  with the properties that hold along every run.
- `game.dfy`, module `Game`: class `GameState`, whose fields are the record's
  fields (the deck is an `array<Card>` whose flags are written in place).
  Each handler is a method proved to leave the record exactly as the matching
  `Session` function says and to keep `Valid`.

The game-state record's seat counter is keyed by seat number: key N stands
for the JavaScript key `"playerN"`. Adding 1 to a key the object lacks gives
NaN in JavaScript, and NaN + 1 stays NaN. That case is the `NaN` value of
`Tally`. `Valid` shows that seats 1 and 2 always hold numbers.

Behaviours of the code as written, kept in the model and exhibited by lemmas:

- A card flipped up, down and up again matches itself. The face-down branch
  leaves the index pending, and the pair check never compares the two indices
  (`Properties.SelfMatchAfterReflip`).
- `start_game` does not clear the pending list. An index left pending before a
  new deal is paired with the first card turned up afterwards. It can be marked
  matched while it is still face-down (`Properties.StalePendingAfterRestart`).
- Seat numbers come from the current count. After a departure, the next joiner
  gets a seat number still held by another player (`Properties.SeatNumbersCollide`).
  A second `player_joined` on the same connection replaces its entry. The seat
  number then counts the old entry, and the registry does not grow
  (`Properties.JoinRegisters`).

The browser client (static/client.js) sends a `difficulty` with
`start_game` and emits `end_turn` and `reset_game`. The server code has no
handler for `end_turn` or `reset_game` and ignores the `difficulty`. It also
has no turn-ownership check, no turn lock, no game-over detection and no
shuffle; its comments describe a Fisher–Yates shuffle that is not implemented
(sockets/game.js:20-23). The model follows the code: the deck is always the
same 20 cards. The face-down notification is sent as `card_flipped_face-down`.

## Model

| member | source | states |
|---|---|---|
| `Cards.Deck` | sockets/game.js:5-19 | the deck has 20 cards; cards i and i + 10 both carry the i-th animal; every card is face-down and unmatched |
| `Cards.EachAnimalTwice` | sockets/game.js:6-19 | every animal occurs exactly twice among the deck's values, and no other value occurs |
| `Cards.AnimalsDistinct` | sockets/game.js:6 | the ten animal symbols are pairwise different |
| `Cards.GenerateCardDeck` | sockets/game.js:5-33 | the builder's loop fills a fresh array with exactly the deck `Deck()` |
| `Decimal.NatToString` | sockets/game.js:48 | the seat number in the default name is a non-empty string of decimal digits, a single digit exactly below 10, with no leading zero for a positive number |
| `Decimal.ParseNatToString` | sockets/game.js:48 | reading the rendered seat number back gives the seat number |
| `Decimal.NatToStringInjective` | sockets/game.js:48 | different seat numbers render differently, so the default names of different seats differ |
| `Session.Initial` | app.js:9-17 | the initial record has no players, no cards, nothing pending, the game not started, no seat to play and both seat counters at 0 (`{player1: 0, player2: 0}`), and satisfies `Valid` |
| `Session.Valid` | sockets/game.js:38-202 | the invariant kept between events: at most one pending index, each inside the deck; the deck empty or 20 cards with the deck's values; started only with a full deck; each player stored under its own id; seats 1 and 2 hold numeric counters. Preserved by `Properties.JoinPreservesValid`, `Properties.FlipPreservesValid`, `Properties.StartPreservesValid`, `Properties.DisconnectPreservesValid` |
| `Session.DisplayName` | sockets/game.js:48 | a non-empty requested name is the name; otherwise the name is "Player " followed by the seat's numeral; never empty |
| `Session.NameOf` | sockets/game.js:95 | `players[id]?.name`: defined exactly when the id is registered, and then that player's name |
| `Session.Bump` | sockets/game.js:138 | the counter gains the seat key; other keys unchanged; a numeric entry rises by 1; a missing or NaN entry becomes NaN |
| `Session.Join` | sockets/game.js:38-63 | the caller is registered with seat count + 1 and score 0, and one `player_joined` is sent; full contract in `Properties.JoinRegisters` and `Properties.JoinCount` |
| `Session.Start` | sockets/game.js:167-183 | the deck is 20 face-down unmatched cards, the game is started with seat 1 to play, one `game_start` is sent; full contract in `Properties.StartDeals` |
| `Session.Disconnect` | sockets/game.js:185-202 | the caller's key is removed from the registry; one `player_left` is sent exactly when it was registered; full contract in `Properties.DisconnectRemoves` |
| `Session.Flip` | sockets/game.js:67-164 | a flip keeps the deck size and keeps every pending index inside the deck; full contract in `Properties.FlipIgnored`, `Properties.FlipFaceDown`, `Properties.FlipFaceUp`, `Properties.FlipMatch`, `Properties.FlipMismatch` |
| `Session.Resolve` | sockets/game.js:118-163 | resolving a pair keeps the deck size and always empties the pending list; full contract in `Properties.FlipMatch` and `Properties.FlipMismatch` |
| `Properties.WireNamesDistinct` | sockets/game.js:55-194 | the seven notifications are broadcast under seven different event names (`player_joined`, `card_flipped_face-down`, `card_flipped`, `match_found`, `no_match`, `game_start`, `player_left`), so equal names mean the same kind |
| `Properties.JoinRegisters` | sockets/game.js:38-60 | the caller is stored under its id with seat count + 1, score 0 and the display name; other entries and fields are unchanged; one `player_joined` with the new total |
| `Properties.JoinCount` | sockets/game.js:42-46 | the registry grows by one for a new id and keeps its size when the id is already registered |
| `Properties.DefaultName` | sockets/game.js:48 | a non-empty requested name is kept; otherwise the name is "Player " followed by digits, without a leading zero for a positive seat, that read back as the seat number |
| `Properties.DisconnectRemoves` | sockets/game.js:185-202 | exactly the caller's entry is removed and the others keep their values, seat numbers included; `player_left` reports the seat and the remaining count; an unknown caller changes nothing and nothing is sent |
| `Properties.StartDeals` | sockets/game.js:167-180 | the new deck is 20 face-down unmatched cards in pairs i, i + 10; the game is started with seat 1 to play; players, scores, match counter and pending list are untouched; one `game_start` carrying the deck |
| `Properties.FlipIgnored` | sockets/game.js:70-83 | a flip sends nothing exactly when the game is not started, the index names no card, or the card is matched; in that case the record is unchanged |
| `Properties.FlipFaceDown` | sockets/game.js:87-98 | a face-up unmatched card is turned face-down; every other card, the pending list, players and scores are unchanged; one `card_flipped_face-down` |
| `Properties.FlipFaceUp` | sockets/game.js:100-118 | a face-down card is turned face-up and announced with its value; with nothing pending it becomes the only pending card and nothing else changes; with one pending the pending list ends empty after two notifications |
| `Properties.FlipMatch` | sockets/game.js:118-148 | equal values mark both cards matched and change no other card; a registered caller's score and its seat's counter entry rise by exactly 1 (NaN when the seat has no number), nothing else in the registry or counter changes; an unregistered caller changes neither; `card_flipped` then `match_found` with both indices and the new counter |
| `Properties.FlipMismatch` | sockets/game.js:149-161 | unequal values change no matched flag, no other card and no score; the new card stays face-up and the pending card keeps its face; the pending list is emptied; `card_flipped` then `no_match` with both indices |
| `Properties.FlipKeepsMatched` | sockets/game.js:79-132 | no flip changes a matched card in any way |
| `Properties.JoinPreservesValid` | sockets/game.js:38-63 | joining keeps the invariant |
| `Properties.StartPreservesValid` | sockets/game.js:167-183 | starting keeps the invariant, including the pending list inside the new deck |
| `Properties.DisconnectPreservesValid` | sockets/game.js:185-202 | disconnecting keeps the invariant |
| `Properties.FlipPreservesValid` | sockets/game.js:100-163 | from at most one pending card a flip leaves at most one pending card, all inside the deck; card values never change; seats 1 and 2 keep numeric counters |
| `Properties.SelfMatchAfterReflip` | sockets/game.js:87-138 | up, down, up on one card leaves its index pending twice, marks it matched, raises the caller's score by 1, and reports `match_found` for the pair [i, i] |
| `Properties.StalePendingAfterRestart` | sockets/game.js:121-173 | an index pending across `start_game` is matched by turning up its partner in the new deck, while the old card is still face-down |
| `Properties.SeatNumbersCollide` | sockets/game.js:42-51 | join a, join b, leave a, join c gives b and c the same seat number 2 |
| `Properties.FirstPairScenario` | sockets/game.js:13-16 | after a join and a start, turning up cards 0 and 10 matches both, gives the player score 1 and seat 1's counter 1, and reports `match_found` for [0, 10] |
| `Properties.FirstMismatchScenario` | sockets/game.js:100-161 | after a join and a start, turning up cards 0 and 1 leaves both face-up and unmatched, the score at 0, the pending list empty, and reports `no_match` for [0, 1] |
| `Trace.Apply` | sockets/game.js:38-202 | handling any one event from a valid record yields a valid record |
| `Trace.Run` | sockets/game.js:1-203 | every record reached by handling events one after another is valid, and at most one card is pending between events |
| `Trace.RunFromInitial` | app.js:9-17 | runs from the server's initial record keep at most one pending card |
| `Trace.StartedStaysStarted` | sockets/game.js:172 | once started, the game stays started with a full deck, whatever events follow |
| `Trace.ApplyKeepsMatched` | sockets/game.js:80-83 | an event other than `start_game` leaves every matched card unchanged |
| `Trace.MatchedIsPermanent` | sockets/game.js:80-132 | along any run without `start_game`, a matched card stays matched, keeps its face and its value |
| `Game.GameState.constructor` | app.js:9-17 | the object starts as the initial record and satisfies the invariant |
| `Game.GameState.PlayerJoined` | sockets/game.js:38-63 | the in-place update and its broadcasts are exactly those of `Session.Join`; the invariant is kept |
| `Game.GameState.FlipCard` | sockets/game.js:67-164 | the in-place card, pending, score and counter writes and the broadcasts are exactly those of `Session.Flip`; the invariant is kept |
| `Game.GameState.ResolvePending` | sockets/game.js:118-163 | with two cards pending, the in-place writes and the broadcast are exactly those of `Session.Resolve` |
| `Game.GameState.StartGame` | sockets/game.js:167-183 | a fresh deck array replaces the old one, and the record and broadcast are exactly those of `Session.Start`; the invariant is kept |
| `Game.GameState.Disconnect` | sockets/game.js:185-202 | the deletion and broadcast are exactly those of `Session.Disconnect`; the invariant is kept |

## Left out

- HTTP setup, static file serving and port binding (app.js:1-6, 19-32): not game logic.
- The transport: every `io.emit` is a broadcast and becomes an `Event` value returned by the handler. Connection ids are parameters. `console.log` output is not modelled.
- The `flippedCards` field of the initial record (app.js:13): no handler reads or writes it.
- The browser client (static/client.js): rendering, click wiring, random names, confetti and timers. Its own `gameState` only mirrors the server's.
- The `difficulty` payload of `start_game`, and the `end_turn` and `reset_game` events: the server has no handler for them and ignores the payload.
- Shuffling, turn ownership, turn locking and game-over detection: the server code does none of them.
- JavaScript's dynamic typing at the boundary. A card index is an integer here. A string index such as `"3"` would also address a card and be stored pending as a string. A name that is not a string, and a missing payload (which throws), are not modelled either.
- Message payloads as objects shared by reference: each notification carries the values at the moment it is sent, as socket.io serialises them then.
- JavaScript number limits: scores and counts are unbounded naturals.
