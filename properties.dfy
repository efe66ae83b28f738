/** What each handler of module Session promises, one lemma per handler or
    per branch, plus the invariant Valid that every handler preserves. */
module Properties {
  import opened Cards
  import opened Session
  import Decimal

  /** Every notification kind goes out under its own event name, so a client
      can tell the kinds apart by name alone. */
  lemma WireNamesDistinct(a: Event, b: Event)
    requires WireName(a) == WireName(b)
    ensures a.PlayerJoined? <==> b.PlayerJoined?
    ensures a.CardFlipped? <==> b.CardFlipped?
    ensures a.CardFlippedFaceDown? <==> b.CardFlippedFaceDown?
    ensures a.MatchFound? <==> b.MatchFound?
    ensures a.NoMatch? <==> b.NoMatch?
    ensures a.GameStart? <==> b.GameStart?
    ensures a.PlayerLeft? <==> b.PlayerLeft?
  {
  }

  // ---------------------------------------------------------------- registry

  /** player_joined stores the caller under its own id with the next seat
      number and a zero score; every other entry and every other field is
      kept. Joining again with an id already present replaces that entry. */
  lemma JoinRegisters(s: Snapshot, id: string, requested: Option<string>)
    ensures var seat := |s.players| + 1; var r := Join(s, id, requested);
      && r.state.players.Keys == s.players.Keys + {id}
      && r.state.players[id] == Player(id, DisplayName(requested, seat), seat, 0)
      && (forall k :: k in s.players && k != id ==> r.state.players[k] == s.players[k])
      && r.state == s.(players := r.state.players)
      && r.events == [PlayerJoined(id, seat, DisplayName(requested, seat), |r.state.players|)]
  {
  }

  /** The registry grows by one for a new id only; for an id already present
      the seat number counted the old entry, yet the total stays the same. */
  lemma JoinCount(s: Snapshot, id: string, requested: Option<string>)
    ensures |Join(s, id, requested).state.players| ==
      if id in s.players then |s.players| else |s.players| + 1
  {
    var players := Join(s, id, requested).state.players;
    assert players.Keys == s.players.Keys + {id};
    if id !in s.players {
      assert |players.Keys| == |s.players.Keys| + 1;
    } else {
      assert players.Keys == s.players.Keys;
    }
  }

  /** The stored name is the requested one when it is a non-empty string,
      and otherwise "Player " followed by the seat number in decimal. */
  lemma DefaultName(requested: Option<string>, seat: nat)
    ensures requested.Some? && requested.value != "" ==> DisplayName(requested, seat) == requested.value
    ensures !(requested.Some? && requested.value != "") ==>
      var n := DisplayName(requested, seat);
      && |n| > 7 && n[..7] == "Player "
      && Decimal.AllDigits(n[7..]) && Decimal.ParseNat(n[7..]) == seat
      && (seat > 0 ==> n[7] != '0')
  {
    if !(requested.Some? && requested.value != "") {
      var n := DisplayName(requested, seat);
      assert n[7..] == Decimal.NatToString(seat);
      Decimal.ParseNatToString(seat);
    }
  }

  /** disconnect deletes exactly the caller's entry and reports the seat it
      held and the number of players left; an unknown caller changes nothing. */
  lemma DisconnectRemoves(s: Snapshot, id: string)
    ensures var r := Disconnect(s, id);
      && r.state.players.Keys == s.players.Keys - {id}
      && (forall k :: k in r.state.players ==> r.state.players[k] == s.players[k])
      && r.state == s.(players := r.state.players)
      && (id in s.players ==>
            r.events == [PlayerLeft(id, s.players[id].playerNumber, |s.players| - 1)])
      && (id !in s.players ==> r == Step(s, []))
  {
    if id in s.players {
      var players := s.players - {id};
      assert players.Keys == s.players.Keys - {id};
      assert |s.players.Keys| == |players.Keys| + 1 by {
        assert s.players.Keys == players.Keys + {id};
      }
    } else {
      assert s.players - {id} == s.players;
    }
  }

  // ------------------------------------------------------------------- start

  /** start_game deals the fixed deck, marks the game started and gives the
      turn to seat 1. It does not touch the registry, the scores, the match
      counter or the pending list. */
  lemma StartDeals(s: Snapshot, id: string)
    ensures var r := Start(s, id);
      && |r.state.cards| == DeckSize
      && (forall i :: 0 <= i < DeckSize ==> !r.state.cards[i].flipped && !r.state.cards[i].matched)
      && (forall i :: 0 <= i < PairCount ==>
            r.state.cards[i].value == r.state.cards[i + PairCount].value == Animals[i])
      && r.state.gameStarted && r.state.currentPlayer == Some(1)
      && r.state.players == s.players && r.state.matches == s.matches
      && r.state.pending == s.pending
      && r.events == [GameStart(r.state.cards, 1, id)]
  {
  }

  // -------------------------------------------------------------------- flip

  predicate Accepts(s: Snapshot, cardId: int) {
    s.gameStarted && 0 <= cardId < |s.cards| && !s.cards[cardId].matched
  }

  /** flip_card broadcasts nothing exactly when the game has not started, the
      index addresses no card or the card is matched, and then nothing changes. */
  lemma FlipIgnored(s: Snapshot, id: string, cardId: int)
    requires PendingInRange(s)
    ensures var r := Flip(s, id, cardId); r.events == [] <==> !Accepts(s, cardId)
    ensures var r := Flip(s, id, cardId); r.events == [] ==> r.state == s
  {
  }

  /** Flipping a face-up card turns that card face-down and nothing else. */
  lemma FlipFaceDown(s: Snapshot, id: string, cardId: int)
    requires PendingInRange(s)
    requires Accepts(s, cardId) && s.cards[cardId].flipped
    ensures var r := Flip(s, id, cardId);
      && |r.state.cards| == |s.cards|
      && !r.state.cards[cardId].flipped
      && r.state.cards[cardId].value == s.cards[cardId].value && !r.state.cards[cardId].matched
      && (forall i :: 0 <= i < |s.cards| && i != cardId ==> r.state.cards[i] == s.cards[i])
      && r.state == s.(cards := r.state.cards)
      && r.events == [CardFlippedFaceDown(cardId, id, NameOf(s.players, id))]
  {
  }

  /** Flipping a face-down card turns it face-up and announces its value.
      With nothing pending it becomes the one pending card; with one card
      pending the pair is resolved and the pending list emptied. */
  lemma FlipFaceUp(s: Snapshot, id: string, cardId: int)
    requires PendingInRange(s)
    requires Accepts(s, cardId) && !s.cards[cardId].flipped
    ensures var r := Flip(s, id, cardId);
      && r.state.cards[cardId].flipped
      && r.state.cards[cardId].value == s.cards[cardId].value
      && |r.events| >= 1
      && r.events[0] == CardFlipped(cardId, s.cards[cardId].value, id, NameOf(s.players, id))
    ensures var r := Flip(s, id, cardId);
      s.pending == [] ==>
        && r.state.pending == [cardId]
        && r.state.cards[cardId] == s.cards[cardId].(flipped := true)
        && (forall i :: 0 <= i < |s.cards| && i != cardId ==> r.state.cards[i] == s.cards[i])
        && r.state == s.(cards := r.state.cards, pending := [cardId])
        && |r.events| == 1
    ensures var r := Flip(s, id, cardId);
      |s.pending| == 1 ==> r.state.pending == [] && |r.events| == 2
  {
    if |s.pending| == 1 {
      assert s.pending[0] in s.pending;
    }
  }

  /** The second face-up card shows the pending card's value: both cards are
      marked matched, and a registered caller's score and its seat's entry
      of the match counter go up by one (a seat the counter has no number
      for becomes NaN). An unregistered caller scores nothing. */
  lemma FlipMatch(s: Snapshot, id: string, first: int, cardId: int)
    requires s.pending == [first] && 0 <= first < |s.cards|
    requires Accepts(s, cardId) && !s.cards[cardId].flipped
    requires s.cards[first].value == s.cards[cardId].value
    ensures var r := Flip(s, id, cardId);
      && r.state.cards[first].matched && r.state.cards[cardId].matched
      && r.state.cards[cardId].flipped
      && r.state.cards[first].flipped == (s.cards[first].flipped || first == cardId)
      && (forall i :: 0 <= i < |s.cards| && i != first && i != cardId ==> r.state.cards[i] == s.cards[i])
      && (forall i :: 0 <= i < |s.cards| ==> r.state.cards[i].value == s.cards[i].value)
      && r.state.pending == []
      && r.state.gameStarted == s.gameStarted && r.state.currentPlayer == s.currentPlayer
      && r.events == [CardFlipped(cardId, s.cards[cardId].value, id, NameOf(s.players, id)),
                      MatchFound([first, cardId], s.cards[cardId].value, id, NameOf(s.players, id), r.state.matches)]
    ensures var r := Flip(s, id, cardId);
      id !in s.players ==> r.state.players == s.players && r.state.matches == s.matches
    ensures var r := Flip(s, id, cardId); var seat := if id in s.players then s.players[id].playerNumber else 0;
      id in s.players ==>
        && r.state.players.Keys == s.players.Keys
        && r.state.players[id] == s.players[id].(score := s.players[id].score + 1)
        && (forall k :: k in s.players && k != id ==> r.state.players[k] == s.players[k])
        && r.state.matches.Keys == s.matches.Keys + {seat}
        && (forall k :: k in s.matches && k != seat ==> r.state.matches[k] == s.matches[k])
        && (seat in s.matches && s.matches[seat].Count? ==> r.state.matches[seat] == Count(s.matches[seat].n + 1))
        && (!(seat in s.matches && s.matches[seat].Count?) ==> r.state.matches[seat] == NaN)
  {
    assert s.pending[0] in s.pending;
  }

  /** The second face-up card shows a different value: both stay face-up,
      no card is marked, no score moves, and the pending list is emptied. */
  lemma FlipMismatch(s: Snapshot, id: string, first: int, cardId: int)
    requires s.pending == [first] && 0 <= first < |s.cards|
    requires Accepts(s, cardId) && !s.cards[cardId].flipped
    requires s.cards[first].value != s.cards[cardId].value
    ensures var r := Flip(s, id, cardId);
      && r.state.cards[cardId].flipped
      && (forall i :: 0 <= i < |s.cards| && i != cardId ==> r.state.cards[i] == s.cards[i])
      && r.state.cards[cardId] == s.cards[cardId].(flipped := true)
      && r.state == s.(cards := r.state.cards, pending := [])
      && r.events == [CardFlipped(cardId, s.cards[cardId].value, id, NameOf(s.players, id)),
                      NoMatch([first, cardId], NoMatchMessage)]
  {
    assert s.pending[0] in s.pending;
  }

  /** No flip_card event changes a matched card in any way. */
  lemma FlipKeepsMatched(s: Snapshot, id: string, cardId: int)
    requires PendingInRange(s)
    ensures var r := Flip(s, id, cardId);
      forall i :: 0 <= i < |s.cards| && s.cards[i].matched ==> r.state.cards[i] == s.cards[i]
  {
    var r := Flip(s, id, cardId);
    if Accepts(s, cardId) && !s.cards[cardId].flipped && |s.pending| + 1 == 2 {
      assert s.pending[0] in s.pending;
    }
  }

  // -------------------------------------------------------------- invariant

  lemma JoinPreservesValid(s: Snapshot, id: string, requested: Option<string>)
    requires Valid(s)
    ensures Valid(Join(s, id, requested).state)
  {
  }

  lemma StartPreservesValid(s: Snapshot, id: string)
    requires Valid(s)
    ensures Valid(Start(s, id).state)
  {
  }

  lemma DisconnectPreservesValid(s: Snapshot, id: string)
    requires Valid(s)
    ensures Valid(Disconnect(s, id).state)
  {
  }

  /** Between events at most one card is pending: a second one is always
      resolved within the same event. */
  lemma FlipPreservesValid(s: Snapshot, id: string, cardId: int)
    requires Valid(s)
    ensures Valid(Flip(s, id, cardId).state)
  {
    var r := Flip(s, id, cardId);
    if Accepts(s, cardId) && !s.cards[cardId].flipped && |s.pending| == 1 {
      var first := s.pending[0];
      assert first in s.pending;
    }
  }

  // ----------------------------------------------------------------- quirks

  /** A card flipped up, down and up again is paired with itself: the face-down
      branch leaves its index pending and the pair check never compares the
      two indices, so the card is marked matched and the caller scores. */
  lemma SelfMatchAfterReflip(s: Snapshot, id: string, cardId: int)
    requires Valid(s) && s.pending == []
    requires Accepts(s, cardId) && !s.cards[cardId].flipped
    requires id in s.players
    ensures var s1 := Flip(s, id, cardId).state;
            var s2 := Flip(s1, id, cardId).state;
            var r := Flip(s2, id, cardId);
      && s1.pending == [cardId] && s2.pending == [cardId]
      && r.state.cards[cardId].matched && r.state.cards[cardId].flipped
      && r.state.players[id].score == s.players[id].score + 1
      && r.events[1] == MatchFound([cardId, cardId], s.cards[cardId].value, id, Some(s.players[id].name), r.state.matches)
  {
    var s1 := Flip(s, id, cardId).state;
    FlipFaceUp(s, id, cardId);
    var s2 := Flip(s1, id, cardId).state;
    FlipFaceDown(s1, id, cardId);
    assert s2.cards[cardId] == s.cards[cardId];
    FlipMatch(s2, id, cardId, cardId);
  }

  /** start_game keeps the pending list, so an index left pending from the
      previous deal is paired with the first card turned up in the new one:
      turning up its partner marks the old index matched while that card is
      still face-down. */
  lemma StalePendingAfterRestart(s: Snapshot, starter: string, id: string, k: int)
    requires Valid(s) && s.pending == [k] && 0 <= k < PairCount
    ensures var t := Start(s, starter).state;
            var r := Flip(t, id, k + PairCount);
      && t.pending == [k] && !t.cards[k].flipped
      && r.state.cards[k].matched && !r.state.cards[k].flipped
      && r.state.cards[k + PairCount].matched && r.state.cards[k + PairCount].flipped
      && r.events[1].MatchFound? && r.events[1].matchedCards == [k, k + PairCount]
  {
    var t := Start(s, starter).state;
    StartDeals(s, starter);
    FlipMatch(t, id, k, k + PairCount);
  }

  /** Seat numbers come from the player count, so after a departure the next
      joiner takes a seat number that is still in use. */
  lemma SeatNumbersCollide()
    ensures var s1 := Join(Initial(), "a", None).state;
            var s2 := Join(s1, "b", None).state;
            var s3 := Disconnect(s2, "a").state;
            var s4 := Join(s3, "c", None).state;
      && "b" in s4.players && "c" in s4.players
      && s4.players["b"].playerNumber == 2 && s4.players["c"].playerNumber == 2
  {
    var s1 := Join(Initial(), "a", None).state;
    JoinRegisters(Initial(), "a", None);
    assert s1.players.Keys == {"a"} && |s1.players| == 1;
    var s2 := Join(s1, "b", None).state;
    JoinRegisters(s1, "b", None);
    assert s2.players["b"].playerNumber == 2;
    assert s2.players.Keys == {"a", "b"};
    JoinCount(s1, "b", None);
    assert |s2.players| == 2;
    var s3 := Disconnect(s2, "a").state;
    DisconnectRemoves(s2, "a");
    assert s3.players.Keys == {"b"} && s3.players["b"].playerNumber == 2;
    assert |s3.players| == 1 by {
      assert |s3.players.Keys| == |{"b"}|;
    }
    JoinRegisters(s3, "c", None);
  }

  // --------------------------------------------------------------- scenarios

  /** The development deck puts a pair at 0 and 10: a registered player who
      starts the game and turns those two up scores one match for seat 1. */
  lemma FirstPairScenario()
    ensures var s1 := Join(Initial(), "p1", Some("Ann")).state;
            var s2 := Start(s1, "p1").state;
            var s3 := Flip(s2, "p1", 0).state;
            var r := Flip(s3, "p1", PairCount);
      && s3.pending == [0]
      && r.state.cards[0].matched && r.state.cards[PairCount].matched
      && r.state.players["p1"].score == 1
      && r.state.matches[1] == Count(1) && r.state.matches[2] == Count(0)
      && r.events[0] == CardFlipped(PairCount, "🐶", "p1", Some("Ann"))
      && r.events[1].MatchFound? && r.events[1].matchedCards == [0, PairCount]
  {
    var s1 := Join(Initial(), "p1", Some("Ann")).state;
    JoinRegisters(Initial(), "p1", Some("Ann"));
    assert "p1" in s1.players && s1.players["p1"].playerNumber == 1 && s1.players["p1"].name == "Ann";
    var s2 := Start(s1, "p1").state;
    StartDeals(s1, "p1");
    assert s2.cards[0] == Card("🐶", false, false) && s2.cards[PairCount] == Card("🐶", false, false);
    FlipFaceUp(s2, "p1", 0);
    var s3 := Flip(s2, "p1", 0).state;
    assert s3.players == s1.players && s3.matches == Initial().matches;
    assert s3.players["p1"] == Player("p1", "Ann", 1, 0) && s3.matches[1] == Count(0);
    FlipMatch(s3, "p1", 0, PairCount);
    var r := Flip(s3, "p1", PairCount);
    assert r.state.players["p1"] == Player("p1", "Ann", 1, 1);
    assert r.state.matches[1] == Count(1);
  }

  /** Turning up 0 and then 1 shows two different animals: both stay face-up,
      nothing is matched and no score moves. */
  lemma FirstMismatchScenario()
    ensures var s1 := Join(Initial(), "p1", None).state;
            var s2 := Start(s1, "p1").state;
            var s3 := Flip(s2, "p1", 0).state;
            var r := Flip(s3, "p1", 1);
      && r.state.cards[0].flipped && r.state.cards[1].flipped
      && !r.state.cards[0].matched && !r.state.cards[1].matched
      && r.state.players["p1"].score == 0 && r.state.pending == []
      && r.events[1] == NoMatch([0, 1], NoMatchMessage)
  {
    var s1 := Join(Initial(), "p1", None).state;
    JoinRegisters(Initial(), "p1", None);
    var s2 := Start(s1, "p1").state;
    StartDeals(s1, "p1");
    FlipFaceUp(s2, "p1", 0);
    var s3 := Flip(s2, "p1", 0).state;
    AnimalsDistinct();
    FlipMismatch(s3, "p1", 0, 1);
  }
}
