/** What the subscriber's read loop does with a stream of bytes, as a function of
    those bytes, and the frames a server prints. */
module NatsWire {
  import opened Text

  datatype Message = Message(subject: string, payload: string)

  /** What the read loop does: answer a PING, hand over a message, or panic. */
  datatype Event = Pong | Deliver(message: Message) | Panic

  /** The longest slice of bytes a 64-bit Go program can make. */
  const MAX_SLICE: int := 0x1_0000_0000_0000

  /** `make` panics at any longer one, and also where `size + 2` wraps around to a negative int. */
  predicate TooLong(size: nat) {
    size + 2 > MAX_SLICE
  }

  /** The length of the first line with its newline, or 0 if no newline has arrived. */
  function LineLength(s: string): (n: nat)
    ensures n <= |s|
    ensures n == 0 <==> '\n' !in s
    ensures n > 0 ==> s[n - 1] == '\n' && '\n' !in s[..n - 1]
  {
    if s == [] then 0
    else if s[0] == '\n' then 1
    else
      var n := LineLength(s[1..]);
      if n == 0 then 0
      else
        assert s[..n + 1 - 1] == [s[0]] + s[1..][..n - 1];
        n + 1
  }

  /** A complete line: its newline is at the end and nowhere else. */
  predicate IsLine(s: string) {
    s != [] && s[|s| - 1] == '\n' && '\n' !in s[..|s| - 1]
  }

  lemma {:induction false} FirstLine(line: string, tail: string)
    requires IsLine(line)
    ensures LineLength(line + tail) == |line|
    ensures (line + tail)[..|line|] == line && (line + tail)[|line|..] == tail
  {
    if |line| > 1 {
      assert line[0] == line[..|line| - 1][0];
      assert (line + tail)[1..] == line[1..] + tail;
      assert line[1..][..|line[1..]| - 1] == line[..|line| - 1][1..];
      FirstLine(line[1..], tail);
    }
  }

  lemma SplitLine(s: string)
    requires LineLength(s) > 0
    ensures IsLine(s[..LineLength(s)]) && s[..LineLength(s)] + s[LineLength(s)..] == s
  {
    var n := LineLength(s);
    assert s[..n][..n - 1] == s[..n - 1];
  }

  datatype Header = Header(subject: string, size: nat)

  /** `MSG <subject> <sid> [reply-to] <#bytes>`: at least four words, the last one a size. */
  function ParseHeader(line: string): Option<Header> {
    var fields := Fields(line);
    if |fields| < 4 then None
    else
      match Atoi(fields[|fields| - 1])
      case None => None
      case Some(size) => if size < 0 then None else Some(Header(fields[1], size))
  }

  predicate IsPing(line: string) { EqualFold(line, "PING") }

  predicate IsMsg(line: string) { "MSG " <= line }

  /** What the loop makes of one trimmed line. */
  datatype Act = Skip | Answer | ReadPayload(header: Header) | Stop | Overflow

  function Classify(line: string): Act {
    if IsPing(line) then Answer
    else if IsMsg(line) then
      match ParseHeader(line)
      case None => Stop
      case Some(h) => if TooLong(h.size) then Overflow else ReadPayload(h)
    else Skip
  }

  /** The events of the whole stream `s`, when the connection takes `sends` more writes.
      The loop ends at the end of the stream, at a malformed header, at a cut-off
      payload and at a PONG it cannot send, and it panics at an enormous payload size. */
  function Events(s: string, sends: nat): seq<Event>
    decreases |s|, 0
  {
    var n := LineLength(s);
    if n == 0 then [] else Proceed(Classify(TrimSpace(s[..n])), s[n..], sends)
  }

  /** The events from a line the loop has just read, with `rest` behind it. */
  function Proceed(act: Act, rest: string, sends: nat): seq<Event>
    decreases |rest|, 1
  {
    match act
    case Skip => Events(rest, sends)
    case Answer => if sends == 0 then [] else [Pong] + Events(rest, sends - 1)
    case Stop => []
    case Overflow => [Panic]
    case ReadPayload(h) =>
      if |rest| < h.size + 2 then []
      else [Deliver(Message(h.subject, rest[..h.size]))] + Events(rest[h.size + 2..], sends)
  }

  predicate ReadsPing(line: string) {
    Lower(TrimSpace(line)) == "ping"
  }

  predicate ReadsMsg(line: string) {
    var text := TrimSpace(line); |text| >= 4 && text[..4] == "MSG "
  }

  lemma PingIsNoMsg(line: string)
    ensures ReadsPing(line) ==> !ReadsMsg(line)
    ensures ReadsPing(line) <==> IsPing(TrimSpace(line))
    ensures ReadsMsg(line) <==> IsMsg(TrimSpace(line))
  {
    hide TrimSpace;
    var text := TrimSpace(line);
    assert Lower("PING") == "ping";
    assert ReadsMsg(line) ==> text[..4][0] == 'M' && Lower(text)[0] == 'm';
  }

  /** A PING in any letter case is answered, if the answer can be written; a line that is
      neither a PING nor a MSG is skipped. */
  lemma LineIsTaken(line: string, rest: string, sends: nat)
    requires IsLine(line) && !ReadsMsg(line)
    ensures Events(line + rest, sends) ==
      if !ReadsPing(line) then Events(rest, sends)
      else if sends == 0 then []
      else [Pong] + Events(rest, sends - 1)
  {
    hide Events, TrimSpace, ReadsPing, ReadsMsg, IsPing, IsMsg;
    PingIsNoMsg(line);
    EventsOfLine(line, rest, sends);
  }

  /** A MSG line of fewer than four words, or whose last word is no size, ends the loop. */
  lemma BadHeaderStops(line: string, rest: string, sends: nat)
    requires IsLine(line) && ReadsMsg(line)
    requires var words := Fields(TrimSpace(line));
      |words| < 4 || Atoi(words[|words| - 1]) == None || Atoi(words[|words| - 1]).value < 0
    ensures Events(line + rest, sends) == []
  {
    hide Events, TrimSpace, ReadsPing, ReadsMsg, IsPing, IsMsg, Fields, Atoi;
    PingIsNoMsg(line);
    EventsOfLine(line, rest, sends);
  }

  /** One turn of the loop. */
  lemma EventsOfLine(line: string, rest: string, sends: nat)
    requires IsLine(line)
    ensures Events(line + rest, sends) == Proceed(Classify(TrimSpace(line)), rest, sends)
  {
    FirstLine(line, rest);
  }

  /** A truncated stream yields a prefix of what the full stream yields. */
  lemma {:induction false} TruncationGivesPrefix(p: string, q: string, sends: nat)
    ensures Events(p, sends) <= Events(p + q, sends)
    decreases |p|, 0
  {
    hide Proceed, Classify, TrimSpace;
    var n := LineLength(p);
    if n > 0 {
      var line, rest := p[..n], p[n..];
      SplitLine(p);
      assert p + q == line + (rest + q);
      EventsOfLine(line, rest + q, sends);
      ProceedGivesPrefix(Classify(TrimSpace(line)), rest, q, sends);
    }
  }

  lemma {:induction false} ProceedGivesPrefix(act: Act, p: string, q: string, sends: nat)
    ensures Proceed(act, p, sends) <= Proceed(act, p + q, sends)
    decreases |p|, 1
  {
    hide Events;
    match act
    case Skip => TruncationGivesPrefix(p, q, sends);
    case Answer => if sends > 0 { TruncationGivesPrefix(p, q, sends - 1); }
    case Stop =>
    case Overflow =>
    case ReadPayload(h) =>
      if h.size + 2 <= |p| {
        PayloadGivesPrefix(h, p, q, sends);
      }
  }

  lemma {:induction false} PayloadGivesPrefix(h: Header, p: string, q: string, sends: nat)
    requires h.size + 2 <= |p|
    ensures Proceed(ReadPayload(h), p, sends) <= Proceed(ReadPayload(h), p + q, sends)
    decreases |p|, 0
  {
    hide Events;
    var after := p[h.size + 2..];
    TruncationGivesPrefix(after, q, sends);
    assert (p + q)[..h.size] == p[..h.size];
    assert (p + q)[h.size + 2..] == after + q;
    PrefixCons(Deliver(Message(h.subject, p[..h.size])), Events(after, sends), Events(after + q, sends));
  }

  lemma PrefixCons<T>(x: T, a: seq<T>, b: seq<T>)
    requires a <= b
    ensures [x] + a <= [x] + b
  {
  }

  // ----- Frames

  datatype Frame =
    | Ping
    | Msg(subject: string, sid: string, reply: Option<string>, payload: string)
    | Other(text: string)

  const CRLF: string := "\r\n"

  /** The words of a header; `words` are the subject, the sid and a reply-to, if any. */
  function HeaderWords(words: seq<string>, size: nat): (tokens: seq<string>)
    requires ValidWords(words)
    ensures 4 <= |tokens| && tokens[0] == "MSG" && tokens[1] == words[0] && tokens[|tokens| - 1] == Itoa(size)
    ensures AllTokens(tokens)
  {
    ["MSG"] + words + [Itoa(size)]
  }

  /** Subjects, sids and reply-to are non-empty and free of white space. */
  predicate ValidWords(words: seq<string>) {
    (|words| == 2 || |words| == 3) && AllTokens(words)
  }

  function Words(f: Frame): seq<string>
    requires f.Msg?
  {
    [f.subject, f.sid] + if f.reply.Some? then [f.reply.value] else []
  }

  /** Another line is any text without a newline that the loop cannot take for a PING or a
      MSG. A payload may hold anything that a slice can. */
  predicate ValidFrame(f: Frame) {
    match f
    case Ping => true
    case Msg(_, _, _, payload) => ValidWords(Words(f)) && !TooLong(|payload|)
    case Other(text) => '\n' !in text && !ReadsPing(text + CRLF) && !ReadsMsg(text + CRLF)
  }

  function HeaderLine(words: seq<string>, size: nat): string
    requires ValidWords(words)
  {
    Join(HeaderWords(words, size))
  }

  function Print(f: Frame): string
    requires ValidFrame(f)
  {
    match f
    case Ping => "PING" + CRLF
    case Msg(_, _, _, payload) => HeaderLine(Words(f), |payload|) + CRLF + payload + CRLF
    case Other(text) => text + CRLF
  }

  predicate AllValid(frames: seq<Frame>) {
    forall i :: 0 <= i < |frames| ==> ValidFrame(frames[i])
  }

  function PrintAll(frames: seq<Frame>): string
    requires AllValid(frames)
  {
    if frames == [] then [] else Print(frames[0]) + PrintAll(frames[1..])
  }

  /** What a reader should make of the frames. */
  function Meaning(frames: seq<Frame>): seq<Event> {
    if frames == [] then [] else MeaningOf(frames[0]) + Meaning(frames[1..])
  }

  function Pings(frames: seq<Frame>): nat {
    if frames == [] then 0 else (if frames[0].Ping? then 1 else 0) + Pings(frames[1..])
  }

  lemma CrlfLine(text: string)
    requires '\n' !in text
    ensures IsLine(text + CRLF)
    ensures text != [] && !IsSpace(text[0]) && !IsSpace(text[|text| - 1]) ==> TrimSpace(text + CRLF) == text
  {
    var s := text + CRLF;
    assert s[..|s| - 1] == text + "\r";
    if text != [] && !IsSpace(text[0]) && !IsSpace(text[|text| - 1]) {
      TrimSpaceSuffix(text, CRLF);
    }
  }

  lemma HeaderIsClean(words: seq<string>, size: nat)
    requires ValidWords(words)
    ensures var line := HeaderLine(words, size);
      IsLine(line + CRLF) && TrimSpace(line + CRLF) == line && IsMsg(line) && !IsPing(line) && Quiet(line + CRLF)
  {
    hide TrimSpace, Itoa;
    var tokens := HeaderWords(words, size);
    var line := Join(tokens);
    JoinEnds(tokens);
    CrlfLine(line);
    assert line == "MSG" + " " + Join(tokens[1..]);
    assert Lower(line)[0] == 'm' && Lower("PING")[0] == 'p' && Lower("PONG")[0] == 'p';
  }

  /** A header line is read back word by word, up to the largest size a slice can have;
      at any larger size the loop panics. */
  lemma HeaderReadsBack(words: seq<string>, size: nat)
    requires ValidWords(words) && size <= MAX_INT
    ensures var line := HeaderLine(words, size) + CRLF;
      && IsLine(line)
      && Classify(TrimSpace(line)) ==
           if size + 2 > 0x1_0000_0000_0000 then Overflow else ReadPayload(Header(words[0], size))
  {
    hide Fields, TrimSpace, Atoi, IsMsg, IsPing;
    HeaderIsClean(words, size);
    FieldsOfJoin(HeaderWords(words, size));
    AtoiOfItoa(size);
  }

  /** A payload that ends before its CRLF is not delivered, and ends the loop. */
  lemma CutOffPayloadStops(words: seq<string>, size: nat, rest: string, sends: nat)
    requires ValidWords(words) && size + 2 <= 0x1_0000_0000_0000 && |rest| < size + 2
    ensures Events(HeaderLine(words, size) + CRLF + rest, sends) == []
  {
    hide Events, TrimSpace, Classify, HeaderLine;
    HeaderReadsBack(words, size);
    EventsOfLine(HeaderLine(words, size) + CRLF, rest, sends);
  }

  lemma PingReadsBack()
    ensures IsLine("PING" + CRLF) && Classify(TrimSpace("PING" + CRLF)) == Answer
  {
    CrlfLine("PING");
  }

  lemma PayloadReadsBack(h: Header, payload: string, tail: string, sends: nat)
    requires h.size == |payload|
    ensures Proceed(ReadPayload(h), payload + CRLF + tail, sends)
         == [Deliver(Message(h.subject, payload))] + Events(tail, sends)
  {
    var rest := payload + CRLF + tail;
    assert rest[..|payload|] == payload;
    assert rest[|payload| + 2..] == tail;
  }

  function MeaningOf(f: Frame): seq<Event> {
    match f
    case Ping => [Pong]
    case Msg(subject, _, _, payload) => [Deliver(Message(subject, payload))]
    case Other(_) => []
  }

  /** One printed frame is read as that frame, and the loop stands right behind it. */
  lemma FrameReadsBack(f: Frame, tail: string, sends: nat)
    requires ValidFrame(f)
    requires f.Ping? ==> sends > 0
    ensures Events(Print(f) + tail, sends)
         == MeaningOf(f) + Events(tail, if f.Ping? then sends - 1 else sends)
  {
    hide Events, TrimSpace, Classify;
    match f
    case Ping =>
      PingReadsBack();
      EventsOfLine("PING" + CRLF, tail, sends);
    case Other(text) =>
      CrlfLine(text);
      LineIsTaken(text + CRLF, tail, sends);
      assert [] + Events(tail, sends) == Events(tail, sends);
    case Msg(subject, _, _, payload) => MsgReadsBack(f, tail, sends);
  }

  lemma MsgReadsBack(f: Frame, tail: string, sends: nat)
    requires f.Msg? && ValidFrame(f)
    ensures Events(Print(f) + tail, sends) == [Deliver(Message(f.subject, f.payload))] + Events(tail, sends)
  {
    hide Events, TrimSpace, Classify, HeaderLine, Proceed;
    var line := HeaderLine(Words(f), |f.payload|) + CRLF;
    var rest := f.payload + CRLF + tail;
    HeaderReadsBack(Words(f), |f.payload|);
    assert Print(f) + tail == line + rest;
    EventsOfLine(line, rest, sends);
    PayloadReadsBack(Header(f.subject, |f.payload|), f.payload, tail, sends);
  }

  /** Round trip: whatever the payloads contain, printed frames are read back as exactly
      their messages and PINGs, in order, and reading goes on behind the last frame. */
  lemma {:induction false} FramesReadBack(frames: seq<Frame>, tail: string, sends: nat)
    requires AllValid(frames)
    requires Pings(frames) <= sends
    ensures Events(PrintAll(frames) + tail, sends) == Meaning(frames) + Events(tail, sends - Pings(frames))
    decreases |frames|
  {
    hide Events, Print, MeaningOf, ValidFrame;
    if frames == [] {
      assert PrintAll(frames) + tail == tail;
      assert [] + Events(tail, sends) == Events(tail, sends);
    } else {
      var f := frames[0];
      var rest := PrintAll(frames[1..]) + tail;
      var left := if f.Ping? then sends - 1 else sends;
      assert PrintAll(frames) + tail == Print(f) + rest;
      FrameReadsBack(f, rest, sends);
      FramesReadBack(frames[1..], tail, left);
      Assoc(MeaningOf(f), Meaning(frames[1..]), Events(tail, sends - Pings(frames)));
    }
  }

  /** A header that announces more than a slice can hold ends the program there. */
  lemma OversizedPayloadPanics(words: seq<string>, size: nat, rest: string, sends: nat)
    requires ValidWords(words) && size <= MAX_INT
    ensures Events(HeaderLine(words, size) + CRLF + rest, sends) == [Panic] <==> size + 2 > 0x1_0000_0000_0000
  {
    hide Events, TrimSpace, Classify, HeaderLine, Proceed;
    HeaderReadsBack(words, size);
    EventsOfLine(HeaderLine(words, size) + CRLF, rest, sends);
    PayloadsDoNotPanic(Header(words[0], size), rest, sends);
  }

  lemma PayloadsDoNotPanic(h: Header, rest: string, sends: nat)
    ensures Proceed(Overflow, rest, sends) == [Panic] != Proceed(ReadPayload(h), rest, sends)
  {
    hide Events;
    var events := Proceed(ReadPayload(h), rest, sends);
    assert events != [] ==> events[0].Deliver?;
  }

  function Pongs(events: seq<Event>): nat {
    if events == [] then 0 else (if events[0].Pong? then 1 else 0) + Pongs(events[1..])
  }

  lemma {:induction false} PongsOfMeaning(frames: seq<Frame>)
    ensures Pongs(Meaning(frames)) == Pings(frames)
  {
    if frames != [] {
      PongsOfMeaning(frames[1..]);
      var rest := Meaning(frames[1..]);
      if frames[0].Other? {
        assert [] + rest == rest;
      } else {
        assert (MeaningOf(frames[0]) + rest)[1..] == rest;
      }
    }
  }

  lemma NothingReadsAsNothing(sends: nat)
    ensures Events([], sends) == []
  {
  }

  /** A complete conversation: one PONG for each PING and every message, nothing else. */
  lemma ConversationReadsBack(frames: seq<Frame>, sends: nat)
    requires AllValid(frames)
    requires Pings(frames) <= sends
    ensures Events(PrintAll(frames), sends) == Meaning(frames)
    ensures Pongs(Events(PrintAll(frames), sends)) == Pings(frames)
  {
    hide Events, PrintAll, Meaning, Pings, Pongs, AllValid, ValidFrame;
    FramesReadBack(frames, [], sends);
    NothingReadsAsNothing(sends - Pings(frames));
    AppendNothing(PrintAll(frames));
    AppendNothing(Meaning(frames));
    PongsOfMeaning(frames);
  }

  // ----- The handshake

  datatype Handshake =
    | Ready(rest: string)   // subscribed; the loop reads on from `rest`
    | BadGreeting
    | Rejected
    | Closed                // the stream ended, or a command could not be written

  predicate IsPong(line: string) { EqualFold(line, "PONG") }

  predicate IsError(line: string) { "-ERR" <= line }

  /** Waiting for the PONG skips any other line, a MSG header included. */
  function AwaitPong(s: string): Handshake
    decreases |s|
  {
    var n := LineLength(s);
    if n == 0 then Closed
    else
      var line := TrimSpace(s[..n]);
      if IsPong(line) then Ready(s[n..])
      else if IsError(line) then Rejected
      else AwaitPong(s[n..])
  }

  /** INFO, then CONNECT, SUB and PING are written, then the PONG is awaited. */
  function Subscribe(s: string, sends: nat): Handshake {
    var n := LineLength(s);
    if n == 0 then Closed
    else if !("INFO " <= s[..n]) then BadGreeting
    else if sends < 3 then Closed
    else AwaitPong(s[n..])
  }

  function Concat(parts: seq<string>): string {
    if parts == [] then [] else parts[0] + Concat(parts[1..])
  }

  predicate ReadsPong(line: string) {
    Lower(TrimSpace(line)) == "pong"
  }

  predicate ReadsError(line: string) {
    var text := TrimSpace(line); |text| >= 4 && text[..4] == "-ERR"
  }

  /** A line that neither ends the handshake nor fails it. */
  predicate Quiet(line: string) {
    !ReadsPong(line) && !ReadsError(line)
  }

  predicate AllQuiet(lines: seq<string>) {
    forall i :: 0 <= i < |lines| ==> Quiet(lines[i])
  }

  predicate AreLines(lines: seq<string>) {
    forall i :: 0 <= i < |lines| ==> IsLine(lines[i])
  }

  lemma AwaitPongOfLine(line: string, rest: string)
    requires IsLine(line)
    ensures AwaitPong(line + rest) ==
      if ReadsPong(line) then Ready(rest) else if ReadsError(line) then Rejected else AwaitPong(rest)
  {
    hide TrimSpace;
    FirstLine(line, rest);
    assert Lower("PONG") == "pong";
  }

  lemma PongLine()
    ensures IsLine("PONG" + CRLF) && ReadsPong("PONG" + CRLF)
  {
    hide TrimSpace;
    CrlfLine("PONG");
    assert Lower("PONG") == "pong";
  }

  lemma {:induction false} QuietLinesAreSkipped(lines: seq<string>, rest: string)
    requires AreLines(lines) && AllQuiet(lines)
    ensures AwaitPong(Concat(lines) + rest) == AwaitPong(rest)
  {
    hide AwaitPong, IsLine, ReadsPong, ReadsError;
    if lines == [] {
      AppendNothing(rest);
    } else {
      Assoc(lines[0], Concat(lines[1..]), rest);
      AwaitPongOfLine(lines[0], Concat(lines[1..]) + rest);
      QuietLinesAreSkipped(lines[1..], rest);
    }
  }

  /** The first line that is not quiet decides, whatever follows it: a PONG in any letter
      case ends the handshake, and an error, which starts with -ERR, rejects it. */
  lemma HandshakeOutcome(lines: seq<string>, line: string, rest: string)
    requires AreLines(lines) && AllQuiet(lines) && IsLine(line)
    ensures Lower(TrimSpace(line)) == "pong" ==> AwaitPong(Concat(lines) + (line + rest)) == Ready(rest)
    ensures |TrimSpace(line)| >= 4 && TrimSpace(line)[..4] == "-ERR" ==>
      AwaitPong(Concat(lines) + (line + rest)) == Rejected
  {
    hide AwaitPong, TrimSpace, AllQuiet;
    QuietLinesAreSkipped(lines, line + rest);
    AwaitPongOfLine(line, rest);
    assert ReadsError(line) ==> TrimSpace(line)[..4][0] == '-' && Lower(TrimSpace(line))[0] == '-';
  }

  /** Without such a line the handshake never ends well. */
  lemma HandshakeCutOff(lines: seq<string>, rest: string)
    requires AreLines(lines) && AllQuiet(lines) && '\n' !in rest
    ensures AwaitPong(Concat(lines) + rest) == Closed
  {
    QuietLinesAreSkipped(lines, rest);
  }

  /** The handshake ends exactly behind the PONG exactly if no line before it reads PONG, in
      any letter case, or starts with -ERR. */
  lemma {:induction false} HandshakeBoundary(lines: seq<string>, rest: string)
    requires AreLines(lines)
    ensures AwaitPong(Concat(lines) + ("PONG" + CRLF + rest)) == Ready(rest)
       <==> forall i :: 0 <= i < |lines| ==>
              Lower(TrimSpace(lines[i])) != "pong" && !("-ERR" <= TrimSpace(lines[i]))
    decreases |lines|
  {
    hide AwaitPong, TrimSpace, LineLength, Lower;
    var pong := "PONG" + CRLF;
    var s := Concat(lines) + (pong + rest);
    if lines == [] {
      assert s == pong + rest;
      PongLine();
      AwaitPongOfLine(pong, rest);
    } else {
      var after := Concat(lines[1..]) + (pong + rest);
      assert s == lines[0] + after;
      AwaitPongOfLine(lines[0], after);
      HandshakeBoundary(lines[1..], rest);
      assert |after| > |rest|;
    }
  }

  lemma QuietInWords(lines: seq<string>)
    ensures AllQuiet(lines) <==>
      forall i :: 0 <= i < |lines| ==> Lower(TrimSpace(lines[i])) != "pong" && !("-ERR" <= TrimSpace(lines[i]))
  {
    hide TrimSpace, Lower;
  }

  // ----- Whole sessions

  /** What the server sends: a greeting, then `early` until its PONG, then `late`. */
  function Session(info: string, early: string, late: string): string {
    info + CRLF + (early + ("PONG" + CRLF + late))
  }

  /** How a session starts: without a whole line it closes, without INFO it fails, without
      the writes of CONNECT, SUB and PING it closes, and then it waits for the PONG. */
  lemma Greeting(line: string, rest: string, sends: nat)
    requires IsLine(line)
    ensures Subscribe(line + rest, sends) ==
      if |line| < 5 || line[..5] != "INFO " then BadGreeting
      else if sends < 3 then Closed
      else AwaitPong(rest)
    ensures '\n' !in rest ==> Subscribe(rest, sends) == Closed
  {
    hide AwaitPong;
    FirstLine(line, rest);
  }

  /** A rejected subscription is reported as such, whatever the server sends behind the error. */
  lemma RejectionIsReported(info: string, lines: seq<string>, error: string, rest: string, sends: nat)
    requires IsLine(info) && |info| >= 5 && info[..5] == "INFO " && sends >= 3
    requires AreLines(lines) && AllQuiet(lines)
    requires IsLine(error) && |TrimSpace(error)| >= 4 && TrimSpace(error)[..4] == "-ERR"
    ensures Subscribe(info + (Concat(lines) + (error + rest)), sends) == Rejected
  {
    hide AwaitPong, Subscribe, IsLine, TrimSpace, AllQuiet;
    Greeting(info, Concat(lines) + (error + rest), sends);
    HandshakeOutcome(lines, error, rest);
  }

  /** `s` is an INFO line, quiet lines, a PONG line, and `rest`. */
  ghost predicate Subscribed(s: string, info: string, lines: seq<string>, pong: string, rest: string) {
    && IsLine(info) && |info| >= 5 && info[..5] == "INFO "
    && AreLines(lines)
    && (forall i :: 0 <= i < |lines| ==>
          Lower(TrimSpace(lines[i])) != "pong" && !("-ERR" <= TrimSpace(lines[i])))
    && IsLine(pong) && Lower(TrimSpace(pong)) == "pong"
    && s == info + (Concat(lines) + (pong + rest))
  }

  lemma {:induction false} AwaitedPong(s: string) returns (lines: seq<string>, pong: string)
    requires AwaitPong(s).Ready?
    ensures AreLines(lines) && AllQuiet(lines) && IsLine(pong) && ReadsPong(pong)
    ensures s == Concat(lines) + (pong + AwaitPong(s).rest)
    decreases |s|
  {
    SplitLine(s);
    var n := LineLength(s);
    AwaitPongOfLine(s[..n], s[n..]);
    hide ReadsPong, ReadsError, IsLine, TrimSpace, Concat, AreLines, AllQuiet, AwaitPong;
    NoLines();
    if ReadsPong(s[..n]) {
      lines, pong := [], s[..n];
      AppendNothing(s);
    } else {
      lines, pong := AwaitedPong(s[n..]);
      FirstQuiet(s[..n], lines);
      Assoc(s[..n], Concat(lines), pong + AwaitPong(s).rest);
      lines := [s[..n]] + lines;
    }
  }

  lemma NoLines()
    ensures AreLines([]) && AllQuiet([]) && Concat([]) == []
  {
  }

  lemma FirstQuiet(line: string, lines: seq<string>)
    requires IsLine(line) && Quiet(line) && AreLines(lines) && AllQuiet(lines)
    ensures AreLines([line] + lines) && AllQuiet([line] + lines)
    ensures Concat([line] + lines) == line + Concat(lines)
  {
    hide IsLine, Quiet;
    assert ([line] + lines)[1..] == lines;
  }

  /** The handshake succeeds exactly on such a stream, if its three commands can be written. */
  lemma SubscribedExactly(s: string, sends: nat, rest: string)
    ensures Subscribe(s, sends) == Ready(rest) <==>
      sends >= 3 && exists info, lines, pong :: Subscribed(s, info, lines, pong, rest)
  {
    hide AwaitPong, TrimSpace, Lower, Concat;
    if info, lines, pong :| Subscribed(s, info, lines, pong, rest) {
      QuietInWords(lines);
      Greeting(info, Concat(lines) + (pong + rest), sends);
      HandshakeOutcome(lines, pong, rest);
    }
    if Subscribe(s, sends) == Ready(rest) {
      SplitLine(s);
      var n := LineLength(s);
      var lines, pong := AwaitedPong(s[n..]);
      QuietInWords(lines);
      assert Subscribed(s, s[..n], lines, pong, rest);
    }
  }

  lemma GreetingReadsBack(info: string, early: string, late: string, sends: nat)
    requires "INFO " <= info && '\n' !in info && sends >= 3
    ensures Subscribe(Session(info, early, late), sends) == AwaitPong(early + ("PONG" + CRLF + late))
  {
    hide AwaitPong, LineLength;
    CrlfLine(info);
    FirstLine(info + CRLF, early + ("PONG" + CRLF + late));
  }

  /** A whole session: greeted, subscribed with only quiet lines before the PONG, the
      subscriber then reads exactly the frames that follow. */
  lemma SessionReadsBack(info: string, lines: seq<string>, frames: seq<Frame>, sends: nat)
    requires "INFO " <= info && '\n' !in info
    requires AreLines(lines) && AllQuiet(lines)
    requires AllValid(frames)
    requires 3 + Pings(frames) <= sends
    ensures var stream := Session(info, Concat(lines), PrintAll(frames));
      && Subscribe(stream, sends) == Ready(PrintAll(frames))
      && Events(Subscribe(stream, sends).rest, sends - 3) == Meaning(frames)
  {
    hide AwaitPong, Events, Subscribe, Quiet, IsLine, Session, AllValid, PrintAll;
    GreetingReadsBack(info, Concat(lines), PrintAll(frames), sends);
    QuietInWords(lines);
    HandshakeBoundary(lines, PrintAll(frames));
    ConversationReadsBack(frames, sends - 3);
  }

  /** The lines of a text that ends in a newline. */
  function Lines(s: string): (lines: seq<string>)
    requires s == [] || s[|s| - 1] == '\n'
    ensures Concat(lines) == s
    ensures AreLines(lines)
    decreases |s|
  {
    if s == [] then []
    else
      var n := LineLength(s);
      SplitLine(s);
      [s[..n]] + Lines(s[n..])
  }

  /** No line of the frame, its payload's lines included, reads PONG or starts with -ERR. */
  predicate QuietFrame(f: Frame) {
    match f
    case Ping => true
    case Other(text) => Quiet(text + CRLF)
    case Msg(_, _, _, payload) => AllQuiet(Lines(payload + CRLF))
  }

  lemma PingIsQuiet()
    ensures IsLine("PING" + CRLF) && Quiet("PING" + CRLF)
  {
    hide TrimSpace;
    CrlfLine("PING");
    assert Lower("PING")[1] == 'i';
    assert "PING"[0] == 'P' && "-ERR"[0] == '-';
  }

  /** The lines one frame puts on the wire. */
  function FrameLines(f: Frame): (lines: seq<string>)
    requires ValidFrame(f)
    ensures AreLines(lines)
    ensures Concat(lines) == Print(f)
    ensures AllQuiet(lines) <==> QuietFrame(f)
  {
    match f
    case Ping => PingIsQuiet(); ["PING" + CRLF]
    case Other(text) => CrlfLine(text); [text + CRLF]
    case Msg(_, _, _, payload) =>
      var header := HeaderLine(Words(f), |payload|) + CRLF;
      HeaderIsClean(Words(f), |payload|);
      assert header + (payload + CRLF) == Print(f);
      [header] + Lines(payload + CRLF)
  }

  lemma {:induction false} ConcatConcat(a: seq<string>, b: seq<string>)
    ensures Concat(a + b) == Concat(a) + Concat(b)
  {
    if a == [] {
      assert a + b == b && Concat(a) + Concat(b) == Concat(b);
    } else {
      ConcatConcat(a[1..], b);
      assert (a + b)[1..] == a[1..] + b;
      Assoc(a[0], Concat(a[1..]), Concat(b));
    }
  }

  lemma LinesConcat(a: seq<string>, b: seq<string>)
    ensures AreLines(a) && AreLines(b) ==> AreLines(a + b)
    ensures AllQuiet(a + b) <==> AllQuiet(a) && AllQuiet(b)
  {
    hide IsLine, Quiet;
    assert forall i :: 0 <= i < |b| ==> (a + b)[|a| + i] == b[i];
    assert forall i :: 0 <= i < |a| ==> (a + b)[i] == a[i];
  }

  function AllLines(frames: seq<Frame>): (lines: seq<string>)
    requires AllValid(frames)
  {
    if frames == [] then [] else FrameLines(frames[0]) + AllLines(frames[1..])
  }

  predicate QuietFrames(frames: seq<Frame>) {
    forall i :: 0 <= i < |frames| ==> QuietFrame(frames[i])
  }

  lemma FirstFrame(frames: seq<Frame>)
    requires AllValid(frames) && frames != []
    ensures ValidFrame(frames[0]) && AllValid(frames[1..])
    ensures PrintAll(frames) == Print(frames[0]) + PrintAll(frames[1..])
    ensures QuietFrames(frames) <==> QuietFrame(frames[0]) && QuietFrames(frames[1..])
  {
    hide Print, ValidFrame, QuietFrame;
  }

  lemma {:induction false} LinesOfFrames(frames: seq<Frame>)
    requires AllValid(frames)
    ensures AreLines(AllLines(frames)) && Concat(AllLines(frames)) == PrintAll(frames)
    ensures AllQuiet(AllLines(frames)) <==> QuietFrames(frames)
  {
    if frames != [] {
      hide FrameLines, Concat, AreLines, AllQuiet, QuietFrame, QuietFrames, AllValid, Print, PrintAll, ValidFrame;
      FirstFrame(frames);
      LinesOfFrames(frames[1..]);
      ConcatConcat(FrameLines(frames[0]), AllLines(frames[1..]));
      LinesConcat(FrameLines(frames[0]), AllLines(frames[1..]));
    }
  }

  /** Frames that arrive before the PONG are lost, messages included: the subscriber reads
      exactly the later frames if and only if no line of an early one is taken for the end
      of the handshake. */
  lemma EarlyFramesAreLost(info: string, early: seq<Frame>, late: seq<Frame>, sends: nat)
    requires "INFO " <= info && '\n' !in info
    requires AllValid(early) && AllValid(late)
    requires 3 + Pings(late) <= sends
    ensures var outcome := Subscribe(Session(info, PrintAll(early), PrintAll(late)), sends);
      && (outcome == Ready(PrintAll(late)) <==> QuietFrames(early))
      && (outcome == Ready(PrintAll(late)) ==> Events(outcome.rest, sends - 3) == Meaning(late))
  {
    hide AwaitPong, Events, Subscribe, Quiet, IsLine, Session, AllValid, PrintAll, QuietFrames, Concat, AllLines;
    GreetingReadsBack(info, PrintAll(early), PrintAll(late), sends);
    LinesOfFrames(early);
    QuietInWords(AllLines(early));
    HandshakeBoundary(AllLines(early), PrintAll(late));
    ConversationReadsBack(late, sends - 3);
  }

  /** An early message with a payload line PONG: the loop starts in the middle of the frame. */
  lemma EarlyMessageDesynchronizes()
    ensures var f := Msg("a", "1", None, "PONG" + CRLF + "x");
      ValidFrame(f) && AwaitPong(Print(f) + ("PONG" + CRLF)) == Ready("x" + CRLF + "PONG" + CRLF)
  {
    hide AwaitPong, TrimSpace, LineLength, EqualFold, HeaderLine;
    var f := Msg("a", "1", None, "PONG" + CRLF + "x");
    assert AllTokens(Words(f));
    var header := HeaderLine(Words(f), |f.payload|);
    var pong := "PONG" + CRLF;
    var rest := "x" + CRLF + "PONG" + CRLF;
    HeaderIsClean(Words(f), |f.payload|);
    assert Print(f) + pong == (header + CRLF) + (pong + rest);
    AwaitPongOfLine(header + CRLF, pong + rest);
    PongLine();
    AwaitPongOfLine(pong, rest);
  }
}
