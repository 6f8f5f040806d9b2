/** The subscriber's reader, byte by byte as it arrives, against `NatsWire.Events`. */
module NatsReader {
  import opened Text
  import opened NatsWire

  /** A buffered reader over a connection. Each network read delivers the next chunk;
      behind the last one the connection is closed. */
  class Reader {
    var buffered: string
    var chunks: seq<string>

    /** All bytes still to come, however they are split. */
    ghost function Unread(): string
      reads this
    {
      buffered + Concat(chunks)
    }

    /** A network read delivers at least one byte or fails. */
    ghost predicate Valid()
      reads this
    {
      forall i :: 0 <= i < |chunks| ==> chunks[i] != []
    }

    constructor (chunks: seq<string>)
      requires forall i :: 0 <= i < |chunks| ==> chunks[i] != []
      ensures Valid() && Unread() == Concat(chunks)
    {
      this.buffered := [];
      this.chunks := chunks;
    }

    /** `ReadString('\n')`: the next line, or everything that was left. */
    method ReadString() returns (line: string, ok: bool)
      requires Valid()
      modifies this
      ensures Valid()
      ensures ok == (LineLength(old(Unread())) > 0)
      ensures line + Unread() == old(Unread())
      ensures ok ==> |line| == LineLength(old(Unread()))
      ensures !ok ==> Unread() == []
    {
      while '\n' !in buffered && chunks != []
        invariant Valid()
        invariant Unread() == old(Unread())
        decreases |chunks|
      {
        assert buffered + (chunks[0] + Concat(chunks[1..])) == buffered + chunks[0] + Concat(chunks[1..]);
        buffered, chunks := buffered + chunks[0], chunks[1..];
      }
      var n := LineLength(buffered);
      ok := n > 0;
      if ok {
        SplitLine(buffered);
        line := buffered[..n];
        assert old(Unread()) == line + (buffered[n..] + Concat(chunks));
        FirstLine(line, buffered[n..] + Concat(chunks));
        buffered := buffered[n..];
      } else {
        line := buffered;
        assert old(Unread()) == buffered;
        buffered := [];
      }
    }

    /** One read into `p[from..]`: what is buffered, or else what one network read brings. */
    method Read(p: array<char>, from: nat) returns (n: nat, ok: bool)
      requires Valid() && from < p.Length
      modifies this, p
      ensures Valid()
      ensures ok <==> old(Unread()) != []
      ensures if ok then 0 < n <= p.Length - from else n == 0
      ensures n <= |old(Unread())|
      ensures p[..from] == old(p[..from])
      ensures p[from..from + n] == old(Unread())[..n]
      ensures Unread() == old(Unread())[n..]
    {
      if buffered == [] && chunks == [] {
        return 0, false;
      }
      if buffered == [] {
        NextChunk(chunks);
        buffered, chunks := chunks[0], chunks[1..];
      }
      hide Concat;
      ok := true;
      n := if |buffered| < p.Length - from then |buffered| else p.Length - from;
      forall i | 0 <= i < n {
        p[from + i] := buffered[i];
      }
      assert p[from..from + n] == buffered[..n];
      TakeBuffered(buffered, Concat(chunks), n);
      buffered := buffered[n..];
    }
  }

  lemma NextChunk(chunks: seq<string>)
    requires chunks != []
    ensures [] + Concat(chunks) == chunks[0] + Concat(chunks[1..])
  {
  }

  lemma TakeBuffered(buffered: string, rest: string, n: nat)
    requires n <= |buffered|
    ensures (buffered + rest)[..n] == buffered[..n]
    ensures (buffered + rest)[n..] == buffered[n..] + rest
  {
  }

  /** Fills `buffer` with as many reads as it takes, or up to the end of the stream. */
  method ReadFull(reader: Reader, buffer: array<char>) returns (read: nat, ok: bool)
    requires reader.Valid()
    modifies reader, buffer
    ensures reader.Valid()
    ensures ok <==> buffer.Length <= |old(reader.Unread())|
    ensures read == if ok then buffer.Length else |old(reader.Unread())|
    ensures buffer[..read] == old(reader.Unread())[..read]
    ensures reader.Unread() == old(reader.Unread())[read..]
  {
    read := 0;
    ghost var all := reader.Unread();
    while read < buffer.Length
      invariant read <= buffer.Length && read <= |all|
      invariant reader.Valid()
      invariant buffer[..read] == all[..read]
      invariant reader.Unread() == all[read..]
      decreases buffer.Length - read
    {
      var n, more := reader.Read(buffer, read);
      assert buffer[..read + n] == buffer[..read] + buffer[read..read + n];
      assert all[..read + n] == all[..read] + all[read..][..n];
      assert all[read..][n..] == all[read + n..];
      read := read + n;
      if !more {
        return read, false;
      }
    }
    ok := true;
  }

  datatype Outcome = Parsed(message: Message) | Failed | Panicked

  /** Parses a MSG header and takes its payload with the CRLF behind it. */
  method ReadMessage(reader: Reader, header: string) returns (outcome: Outcome)
    requires reader.Valid()
    modifies reader
    ensures reader.Valid()
    ensures outcome.Panicked? <==> ParseHeader(header).Some? && TooLong(ParseHeader(header).value.size)
    ensures outcome.Parsed? <==>
      && ParseHeader(header).Some? && !TooLong(ParseHeader(header).value.size)
      && ParseHeader(header).value.size + 2 <= |old(reader.Unread())|
    ensures outcome.Parsed? ==>
      var h := ParseHeader(header).value;
      && outcome.message == Message(h.subject, old(reader.Unread())[..h.size])
      && reader.Unread() == old(reader.Unread())[h.size + 2..]
  {
    var fields := Fields(header);
    if |fields| < 4 {
      return Failed;
    }
    var size := Atoi(fields[|fields| - 1]);
    if size.None? || size.value < 0 {
      return Failed;
    }
    if size.value + 2 > MAX_SLICE {
      return Panicked;
    }
    var payload := new char[size.value + 2];
    var n, ok := ReadFull(reader, payload);
    if !ok {
      return Failed;
    }
    assert payload[..size.value] == payload[..n][..size.value];
    outcome := Parsed(Message(fields[1], payload[..size.value]));
  }
}

/** The subscriber: its read loop and the consumer's `Next`, sharing a bounded channel. */
module NatsSubscriber {
  import opened Text
  import opened NatsWire
  import opened NatsBuffer
  import opened NatsReader

  function Delivered(events: seq<Event>): seq<Message> {
    if events == [] then []
    else (if events[0].Deliver? then [events[0].message] else []) + Delivered(events[1..])
  }

  lemma {:induction false} CountsConcat(a: seq<Event>, b: seq<Event>)
    ensures Delivered(a + b) == Delivered(a) + Delivered(b)
    ensures Pongs(a + b) == Pongs(a) + Pongs(b)
  {
    if a == [] {
      assert a + b == b;
    } else {
      CountsConcat(a[1..], b);
      assert (a + b)[1..] == a[1..] + b;
      var first := if a[0].Deliver? then [a[0].message] else [];
      Assoc(first, Delivered(a[1..]), Delivered(b));
    }
  }

  /** What the loop has done and what it will do make up the whole. */
  ghost predicate Progress(all: seq<Event>, done: seq<Event>, left: seq<Event>, pongs: nat, parsed: seq<Message>) {
    all == done + left && pongs == Pongs(done) && parsed == Delivered(done) && Panic !in done
  }

  lemma ProgressStarts(all: seq<Event>)
    ensures Progress(all, [], all, 0, [])
  {
  }

  lemma ProgressBy(all: seq<Event>, done: seq<Event>, e: Event, left: seq<Event>, pongs: nat, parsed: seq<Message>)
    requires Progress(all, done, [e] + left, pongs, parsed)
    ensures e.Pong? ==> Progress(all, done + [e], left, pongs + 1, parsed)
    ensures e.Deliver? ==> Progress(all, done + [e], left, pongs, parsed + [e.message])
  {
    CountsConcat(done, [e]);
    Assoc(done, [e], left);
    assert Delivered(done) + [] == Delivered(done);
  }

  /** The loop ends without a panic, or with one. */
  lemma ProgressEnds(all: seq<Event>, done: seq<Event>, left: seq<Event>, pongs: nat, parsed: seq<Message>)
    requires Progress(all, done, left, pongs, parsed) && (left == [] || left == [Panic])
    ensures pongs == Pongs(all) && parsed == Delivered(all)
    ensures Panic in all <==> left == [Panic]
  {
    CountsConcat(done, left);
    assert Delivered(left) == [] && Pongs(left) == 0;
    assert all == done + left && parsed + [] == parsed;
  }

  lemma NoLine(s: string, sends: nat)
    requires LineLength(s) == 0
    ensures Events(s, sends) == []
  {
  }

  /** One turn of the loop, branch by branch. */
  lemma LoopTurn(s: string, line: string, rest: string, sends: nat)
    requires s == line + rest && LineLength(s) == |line| > 0
    ensures var trimmed := TrimSpace(line);
      Events(s, sends) ==
        if IsPing(trimmed) then (if sends == 0 then [] else [Pong] + Events(rest, sends - 1))
        else if !IsMsg(trimmed) then Events(rest, sends)
        else
          var h := ParseHeader(trimmed);
          if h.None? then []
          else if TooLong(h.value.size) then [Panic]
          else if |rest| < h.value.size + 2 then []
          else [Deliver(Message(h.value.subject, rest[..h.value.size]))] + Events(rest[h.value.size + 2..], sends)
  {
    hide Events, TrimSpace, ParseHeader, IsPing, IsMsg;
    SplitLine(s);
    assert s[..|line|] == line;
    EventsOfLine(line, rest, sends);
  }

  /** One turn of the wait for the PONG. */
  lemma AwaitTurn(s: string, line: string, rest: string)
    requires s == line + rest
    ensures LineLength(s) == 0 ==> AwaitPong(s) == Closed
    ensures LineLength(s) == |line| > 0 ==>
      AwaitPong(s) ==
        if EqualFold(TrimSpace(line), "PONG") then Ready(rest)
        else if "-ERR" <= TrimSpace(line) then Rejected
        else AwaitPong(rest)
  {
    assert Lower("PONG") == "pong";
    if LineLength(s) == |line| > 0 {
      SplitLine(s);
      assert s[..|line|] == line;
      AwaitPongOfLine(line, rest);
    }
  }

  datatype Received = Got(message: Message) | ConnectionClosed | TimedOut

  class Subscriber {
    var messages: seq<Message>     // the channel's buffer
    var closed: bool
    ghost var history: Channel

    ghost predicate Valid()
      reads this
    {
      messages == history.buffer && Faithful(history)
    }

    constructor ()
      ensures Valid() && !closed && history == EMPTY
    {
      messages, closed, history := [], false, EMPTY;
    }

    /** The loop's non-blocking send. */
    method Deliver(message: Message)
      requires Valid()
      modifies this`messages, this`history
      ensures Valid() && history == Offer(old(history), message)
      ensures messages == if |old(messages)| < 64 then old(messages) + [message] else old(messages)
      ensures history.parsed == old(history.parsed) + [message] && history.returned == old(history.returned)
    {
      if |messages| < CAPACITY {
        messages := messages + [message];
      }
      OfferKeepsFaithful(history, message);
      history := Offer(history, message);
    }

    /** Waits for a message; `expired` says whether the timer wins the select. */
    method Next(expired: bool) returns (r: Received)
      requires Valid()
      modifies this`messages, this`history
      ensures Valid()
      ensures r == if expired then TimedOut
                   else if old(messages) != [] then Got(old(messages)[0])
                   else if closed then ConnectionClosed
                   else TimedOut
      ensures history == if r.Got? then Take(old(history)) else old(history)
      ensures messages == if r.Got? then old(messages)[1..] else old(messages)
      ensures r.Got? ==> history.returned == old(history.returned) + [r.message]
    {
      if expired {
        return TimedOut;
      }
      if messages == [] {
        return if closed then ConnectionClosed else TimedOut;
      }
      r := Got(messages[0]);
      messages := messages[1..];
      TakeKeepsFaithful(history);
      history := Take(history);
    }

    /** The consumer runs for a while: any number of calls of `Next`, any timeouts. */
    method Consume()
      requires Valid()
      modifies this`messages, this`history
      ensures Valid()
      ensures history.parsed == old(history.parsed) && history.room == old(history.room)
      ensures old(history.returned) <= history.returned
    {
      var calls: nat := *;
      while calls > 0
        invariant Valid()
        invariant history.parsed == old(history.parsed) && history.room == old(history.room)
        invariant old(history.returned) <= history.returned
        decreases calls
      {
        var expired: bool := *;
        var r := Next(expired);
        calls := calls - 1;
      }
    }

    /** The handshake: INFO, then three commands are written, then lines are skipped up to
        the PONG. `sends` is how many writes the connection takes. */
    method Subscribe(reader: Reader, sends: nat) returns (ready: bool)
      requires reader.Valid()
      modifies reader
      ensures reader.Valid()
      ensures ready == NatsWire.Subscribe(old(reader.Unread()), sends).Ready?
      ensures ready ==> NatsWire.Subscribe(old(reader.Unread()), sends) == Ready(reader.Unread())
      ensures ready ==>
        sends >= 3 && exists info, lines, pong :: Subscribed(old(reader.Unread()), info, lines, pong, reader.Unread())
    {
      hide LineLength, TrimSpace, AwaitPong, EqualFold, Subscribed;
      ghost var all := reader.Unread();
      var info, ok := reader.ReadString();
      if !ok {
        return false;
      }
      assert all[..|info|] == info && all[|info|..] == reader.Unread();
      if !("INFO " <= info) {
        return false;
      }
      if sends < 3 {
        return false;
      }
      ghost var outcome := AwaitPong(reader.Unread());
      while true
        invariant reader.Valid()
        invariant AwaitPong(reader.Unread()) == outcome
        decreases |reader.Unread()|
      {
        ghost var here := reader.Unread();
        var line, more := reader.ReadString();
        AwaitTurn(here, line, reader.Unread());
        if !more {
          return false;
        }
        var trimmed := TrimSpace(line);
        if EqualFold(trimmed, "PONG") {
          SubscribedExactly(all, sends, reader.Unread());
          return true;
        }
        if "-ERR" <= trimmed {
          return false;
        }
      }
    }

    /** Reads until the stream or the connection ends, the consumer running in between.
        What it parses and answers depends on the bytes alone, not on their chunks; a panic
        closes the channel too, and then ends the program. */
    method ReadLoop(reader: Reader, sends: nat) returns (pongs: nat, panicked: bool)
      requires Valid() && reader.Valid()
      modifies this, reader
      ensures Valid() && closed
      ensures history.parsed == old(history.parsed) + Delivered(Events(old(reader.Unread()), sends))
      ensures pongs == Pongs(Events(old(reader.Unread()), sends))
      ensures panicked <==> Panic in Events(old(reader.Unread()), sends)
    {
      hide Events, LineLength, TrimSpace, ParseHeader, Faithful, Progress, Delivered, Pongs, IsPing, EqualFold;
      pongs, panicked := 0, false;
      ghost var all := Events(reader.Unread(), sends);
      ghost var done: seq<Event>, parsed: seq<Message> := [], [];
      ghost var before := history.parsed;
      ProgressStarts(all);
      while true
        invariant Valid() && reader.Valid()
        invariant pongs <= sends
        invariant !panicked && Progress(all, done, Events(reader.Unread(), sends - pongs), pongs, parsed)
        invariant history.parsed == before + parsed
        decreases |reader.Unread()|
      {
        Consume();
        ghost var left := sends - pongs;
        ghost var here := reader.Unread();
        var line, ok := reader.ReadString();
        if !ok {
          NoLine(here, left);
          assert Progress(all, done, [], pongs, parsed);
          break;
        }
        ghost var rest := reader.Unread();
        var trimmed := TrimSpace(line);
        LoopTurn(here, line, rest, left);
        if IsPing(trimmed) {
          if pongs == sends {
            assert Progress(all, done, [], pongs, parsed);
            break;
          }
          ProgressBy(all, done, Pong, Events(rest, left - 1), pongs, parsed);
          done := done + [Pong];
          pongs := pongs + 1;
        } else if IsMsg(trimmed) {
          var outcome := ReadMessage(reader, trimmed);
          if outcome.Panicked? {
            assert Progress(all, done, [Panic], pongs, parsed);
            panicked := true;
            break;
          }
          if outcome.Failed? {
            assert Progress(all, done, [], pongs, parsed);
            break;
          }
          var message := outcome.message;
          Deliver(message);
          ProgressBy(all, done, Event.Deliver(message), Events(reader.Unread(), left), pongs, parsed);
          Assoc(before, parsed, [message]);
          done, parsed := done + [Event.Deliver(message)], parsed + [message];
        }
      }
      ProgressEnds(all, done, if panicked then [Panic] else [], pongs, parsed);
      closed := true;
    }
  }
}
