/** The server handles one event at a time, each to completion, against the
    one shared record; this module runs a whole sequence of events and
    states what holds along every such run. */
module Trace {
  import opened Cards
  import opened Session
  import Properties

  /** An inbound event together with the connection it arrived on. */
  datatype Input =
    | JoinRequest(socketId: string, name: Option<string>)
    | FlipRequest(socketId: string, cardId: int)
    | StartRequest(socketId: string)
    | DisconnectNotice(socketId: string)

  /** Dispatches one event to its handler. */
  function Apply(s: Snapshot, input: Input): (r: Step)
    requires Valid(s)
    ensures Valid(r.state)
  {
    match input
    case JoinRequest(id, name) =>
      Properties.JoinPreservesValid(s, id, name);
      Join(s, id, name)
    case FlipRequest(id, cardId) =>
      Properties.FlipPreservesValid(s, id, cardId);
      Flip(s, id, cardId)
    case StartRequest(id) =>
      Properties.StartPreservesValid(s, id);
      Start(s, id)
    case DisconnectNotice(id) =>
      Properties.DisconnectPreservesValid(s, id);
      Disconnect(s, id)
  }

  /** Handles the events in order; the broadcasts are concatenated. Every
      record reached is Valid, so between events at most one card is pending. */
  function Run(s: Snapshot, inputs: seq<Input>): (r: Step)
    requires Valid(s)
    ensures Valid(r.state) && |r.state.pending| <= 1
    decreases |inputs|
  {
    if inputs == [] then Step(s, [])
    else
      var first := Apply(s, inputs[0]);
      var rest := Run(first.state, inputs[1..]);
      Step(rest.state, first.events + rest.events)
  }

  /** Every run from the initial record stays within the invariant. */
  lemma RunFromInitial(inputs: seq<Input>)
    ensures Valid(Initial())
    ensures |Run(Initial(), inputs).state.pending| <= 1
  {
  }

  /** Once the game has started it stays started, and the deck is the full deck. */
  lemma {:induction false} StartedStaysStarted(s: Snapshot, inputs: seq<Input>)
    requires Valid(s) && s.gameStarted
    ensures Run(s, inputs).state.gameStarted
    ensures |Run(s, inputs).state.cards| == DeckSize
    decreases |inputs|
  {
    if inputs != [] {
      StartedStaysStarted(Apply(s, inputs[0]).state, inputs[1..]);
    }
  }

  predicate NoStart(inputs: seq<Input>) {
    forall k :: 0 <= k < |inputs| ==> !inputs[k].StartRequest?
  }

  /** One event other than start_game never changes a matched card. */
  lemma ApplyKeepsMatched(s: Snapshot, input: Input)
    requires Valid(s) && !input.StartRequest?
    ensures |Apply(s, input).state.cards| == |s.cards|
    ensures forall i :: 0 <= i < |s.cards| && s.cards[i].matched ==>
      Apply(s, input).state.cards[i] == s.cards[i]
  {
    if input.FlipRequest? {
      Properties.FlipKeepsMatched(s, input.socketId, input.cardId);
    }
  }

  /** Along any run without start_game, a matched card is never unmatched,
      never turned over and keeps its value: only a new deal resets it. */
  lemma {:induction false} MatchedIsPermanent(s: Snapshot, inputs: seq<Input>, i: int)
    requires Valid(s) && NoStart(inputs)
    requires 0 <= i < |s.cards| && s.cards[i].matched
    ensures |Run(s, inputs).state.cards| == |s.cards|
    ensures Run(s, inputs).state.cards[i] == s.cards[i]
    decreases |inputs|
  {
    if inputs != [] {
      ApplyKeepsMatched(s, inputs[0]);
      var next := Apply(s, inputs[0]).state;
      assert NoStart(inputs[1..]) by {
        forall k | 0 <= k < |inputs[1..]| ensures !inputs[1..][k].StartRequest? {
          assert inputs[1..][k] == inputs[k + 1];
        }
      }
      MatchedIsPermanent(next, inputs[1..], i);
    }
  }
}
