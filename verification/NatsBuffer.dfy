/** The bounded channel between the read loop and the scenario that consumes it. */
module NatsBuffer {
  import opened NatsWire

  const CAPACITY: nat := 64

  /** The channel with its history: what the loop parsed, what `Next` returned, and for
      each parsed message whether the buffer had room for it. */
  datatype Channel = Channel(buffer: seq<Message>, parsed: seq<Message>, returned: seq<Message>, room: seq<bool>)

  const EMPTY: Channel := Channel([], [], [], [])

  /** The non-blocking send: a full buffer drops the message. */
  function Offer(ch: Channel, m: Message): Channel {
    var fits := |ch.buffer| < CAPACITY;
    Channel(if fits then ch.buffer + [m] else ch.buffer, ch.parsed + [m], ch.returned, ch.room + [fits])
  }

  /** A receive that finds a message. */
  function Take(ch: Channel): Channel
    requires ch.buffer != []
  {
    ch.(buffer := ch.buffer[1..], returned := ch.returned + [ch.buffer[0]])
  }

  /** The messages that found room, in order. */
  function Kept(parsed: seq<Message>, room: seq<bool>): seq<Message>
    requires |parsed| == |room|
  {
    if parsed == [] then []
    else Kept(parsed[..|parsed| - 1], room[..|room| - 1]) + (if room[|room| - 1] then [parsed[|parsed| - 1]] else [])
  }

  /** What was returned, followed by what is buffered, is exactly what found room. */
  ghost predicate Faithful(ch: Channel) {
    && |ch.buffer| <= 64
    && |ch.parsed| == |ch.room|
    && ch.returned + ch.buffer == Kept(ch.parsed, ch.room)
  }

  lemma OfferKeepsFaithful(ch: Channel, m: Message)
    requires Faithful(ch)
    ensures Faithful(Offer(ch, m))
  {
    var ch' := Offer(ch, m);
    assert ch'.parsed[..|ch'.parsed| - 1] == ch.parsed && ch'.room[..|ch'.room| - 1] == ch.room;
    assert ch.returned + (ch.buffer + [m]) == ch.returned + ch.buffer + [m];
    assert Kept(ch.parsed, ch.room) + [] == Kept(ch.parsed, ch.room);
  }

  lemma TakeKeepsFaithful(ch: Channel)
    requires Faithful(ch) && ch.buffer != []
    ensures Faithful(Take(ch))
  {
    assert ch.returned + [ch.buffer[0]] + ch.buffer[1..] == ch.returned + ch.buffer;
  }

  // ----- Any interleaving of the loop and the consumer

  /** The loop parses a message, or the consumer receives (and times out when nothing is there). */
  datatype Turn = Parsed(message: Message) | Receive

  function Play(turns: seq<Turn>): Channel {
    if turns == [] then EMPTY
    else
      var ch := Play(turns[..|turns| - 1]);
      match turns[|turns| - 1]
      case Parsed(m) => Offer(ch, m)
      case Receive => if ch.buffer == [] then ch else Take(ch)
  }

  function ParsedIn(turns: seq<Turn>): seq<Message> {
    if turns == [] then []
    else
      var before := ParsedIn(turns[..|turns| - 1]);
      match turns[|turns| - 1]
      case Parsed(m) => before + [m]
      case Receive => before
  }

  /** `indices` picks the elements of `part` out of `whole`, in order. */
  ghost predicate Picks(indices: seq<nat>, whole: seq<Message>, part: seq<Message>) {
    && |indices| == |part|
    && (forall i :: 0 <= i < |indices| ==> indices[i] < |whole| && whole[indices[i]] == part[i])
    && (forall i, j :: 0 <= i < j < |indices| ==> indices[i] < indices[j])
  }

  lemma PicksExtend(indices: seq<nat>, whole: seq<Message>, part: seq<Message>, m: Message)
    requires Picks(indices, whole, part)
    ensures Picks(indices, whole + [m], part)
    ensures Picks(indices + [|whole|], whole + [m], part + [m])
  {
  }

  lemma {:induction false} KeptIsSubsequence(parsed: seq<Message>, room: seq<bool>) returns (indices: seq<nat>)
    requires |parsed| == |room|
    ensures Picks(indices, parsed, Kept(parsed, room))
    ensures forall k: nat :: k in indices <==> k < |room| && room[k]
  {
    indices := [];
    if parsed != [] {
      var n := |parsed| - 1;
      var earlier := Kept(parsed[..n], room[..n]);
      indices := KeptIsSubsequence(parsed[..n], room[..n]);
      PicksExtend(indices, parsed[..n], earlier, parsed[n]);
      assert parsed[..n] + [parsed[n]] == parsed;
      assert earlier + [] == earlier;
      assert room == room[..n] + [room[n]];
      if room[n] {
        indices := indices + [n];
      }
    }
  }

  /** In every interleaving: at most 64 messages wait; what was returned, followed by what
      waits, is a subsequence of what was parsed, in order; and message `k` is missing from
      it exactly when the buffer held 64 messages at the moment `k` was parsed. */
  lemma {:induction false} NothingElseIsLost(turns: seq<Turn>) returns (indices: seq<nat>)
    ensures var ch := Play(turns);
      && Faithful(ch)
      && ch.parsed == ParsedIn(turns)
      && Picks(indices, ch.parsed, ch.returned + ch.buffer)
      && (forall k: nat :: k in indices <==> k < |ch.parsed| && ch.room[k])
    ensures forall t: nat :: t < |turns| && turns[t].Parsed? ==> Remembers(Play(turns), turns, t)
    ensures forall t: nat :: t < |turns| && turns[t].Receive? ==> Received(turns, t)
  {
    PlayIsFaithful(turns);
    forall t: nat | t < |turns| && turns[t].Receive? ensures Received(turns, t) {
      assert turns[..t + 1][..t] == turns[..t];
    }
    forall t: nat | t < |turns| && turns[t].Parsed? ensures Remembers(Play(turns), turns, t) {
      PlayRemembers(turns, t);
    }
    indices := KeptIsSubsequence(Play(turns).parsed, Play(turns).room);
  }

  /** In turn `t` the consumer took the oldest message that was waiting, if there was one. */
  ghost predicate Received(turns: seq<Turn>, t: nat)
    requires t < |turns|
  {
    var before, after := Play(turns[..t]), Play(turns[..t + 1]);
    if before.buffer == [] then after == before
    else after.buffer == before.buffer[1..] && after.returned == before.returned + [before.buffer[0]]
  }

  /** The message parsed in turn `t`, and whether the buffer had room for it then. */
  ghost predicate Remembers(ch: Channel, turns: seq<Turn>, t: nat)
    requires t < |turns| && turns[t].Parsed?
  {
    var before := Play(turns[..t]);
    && |before.parsed| < |ch.parsed| == |ch.room|
    && ch.parsed[|before.parsed|] == turns[t].message
    && (ch.room[|before.parsed|] <==> |before.buffer| < 64)
  }

  lemma {:induction false} PlayIsFaithful(turns: seq<Turn>)
    ensures var ch := Play(turns); Faithful(ch) && ch.parsed == ParsedIn(turns)
  {
    if turns != [] {
      var n := |turns| - 1;
      PlayIsFaithful(turns[..n]);
      var ch := Play(turns[..n]);
      match turns[n] {
        case Parsed(m) => OfferKeepsFaithful(ch, m);
        case Receive => if ch.buffer != [] { TakeKeepsFaithful(ch); }
      }
    }
  }

  lemma {:induction false} PlayRemembers(turns: seq<Turn>, t: nat)
    requires t < |turns| && turns[t].Parsed?
    ensures Remembers(Play(turns), turns, t)
  {
    var n := |turns| - 1;
    PlayIsFaithful(turns[..n]);
    if t < n {
      PlayRemembers(turns[..n], t);
      assert turns[..n][..t] == turns[..t];
    }
  }
}
