/** The event stream of a query: the server's printer, and the page's parser that reads
    it back from whatever chunks arrive. */
module EventStream {
  import opened Wrappers
  import opened Sequences

  // ----- What the server prints -----

  /** An event with its data already encoded, or the comment that keeps the connection
      open. */
  datatype Frame = Sent(name: string, data: string) | Heartbeat

  function Print(f: Frame): string {
    match f
    case Sent(name, data) => "event: " + name + "\ndata: " + data + "\n\n"
    case Heartbeat => ": heartbeat\n\n"
  }

  function Body(frames: seq<Frame>): string {
    if frames == [] then "" else Print(frames[0]) + Body(frames[1..])
  }

  /** What the agent's run ends with: encoded answer or encoded error detail. */
  datatype Outcome = Answered(data: string) | Failed(data: string)

  function OutcomeFrame(o: Outcome): Frame {
    match o
    case Answered(data) => Sent("answer", data)
    case Failed(data) => Sent("error", data)
  }

  function Heartbeats(n: nat): seq<Frame> { seq(n, _ => Heartbeat) }

  /** The frames of one query: a status, a heartbeat per wait that timed out, then one
      outcome. */
  function QueryFrames(status: string, timeouts: nat, outcome: Outcome): seq<Frame> {
    [Sent("status", status)] + Heartbeats(timeouts) + [OutcomeFrame(outcome)]
  }

  /** `timeouts` waits end without the agent being done, the next one with it. */
  method StreamQuery(status: string, timeouts: nat, outcome: Outcome) returns (frames: seq<Frame>)
    ensures frames == QueryFrames(status, timeouts, outcome)
    ensures |frames| == timeouts + 2 && frames[0] == Sent("status", status)
    ensures forall k | 0 < k <= timeouts :: frames[k] == Heartbeat
    ensures frames[timeouts + 1] == match outcome
                                    case Answered(data) => Sent("answer", data)
                                    case Failed(data) => Sent("error", data)
  {
    frames := [Sent("status", status)];
    var waits := 0;
    while waits < timeouts
      invariant waits <= timeouts && frames == [Sent("status", status)] + Heartbeats(waits)
    {
      frames := frames + [Heartbeat];
      waits := waits + 1;
      assert Heartbeats(waits) == Heartbeats(waits - 1) + [Heartbeat];
    }
    frames := frames + [OutcomeFrame(outcome)];
  }

  // ----- What the page reads -----

  datatype Event = Event(name: string, data: string)

  /** The characters that JavaScript's `trim` removes. */
  predicate Space(c: char) {
    || '\t' <= c <= '\r' || c == ' ' || c == '\U{A0}' || c == '\U{1680}' || '\U{2000}' <= c <= '\U{200A}'
    || c == '\U{2028}' || c == '\U{2029}' || c == '\U{202F}' || c == '\U{205F}' || c == '\U{3000}' || c == '\U{FEFF}'
  }

  function TrimLeft(s: string): string {
    if s != "" && Space(s[0]) then TrimLeft(s[1..]) else s
  }

  function TrimRight(s: string): string {
    if s != "" && Space(s[|s| - 1]) then TrimRight(s[..|s| - 1]) else s
  }

  function Trim(s: string): string { TrimRight(TrimLeft(s)) }

  /** WhiteSpace and LineTerminator, sections 12.2 and 12.3 of ECMA-262, one by one. */
  const WHITE: string :=
    "\t\n\U{B}\U{C}\r \U{A0}\U{1680}\U{2000}\U{2001}\U{2002}\U{2003}\U{2004}\U{2005}\U{2006}\U{2007}\U{2008}"
    + "\U{2009}\U{200A}\U{2028}\U{2029}\U{202F}\U{205F}\U{3000}\U{FEFF}"

  lemma SpaceIs(c: char)
    ensures Space(c) <==> c in WHITE
  {
  }

  predicate Spaces(s: string) { forall k | 0 <= k < |s| :: Space(s[k]) }

  lemma TrimLeftIs(s: string) returns (a: string)
    ensures s == a + TrimLeft(s) && Spaces(a) && (TrimLeft(s) != "" ==> !Space(TrimLeft(s)[0]))
  {
    if s != "" && Space(s[0]) {
      var b := TrimLeftIs(s[1..]);
      a := [s[0]] + b;
      Regroup([s[0]], b, TrimLeft(s));
    } else {
      a := "";
    }
  }

  lemma TrimRightIs(s: string) returns (b: string)
    ensures s == TrimRight(s) + b && Spaces(b)
    ensures TrimRight(s) != "" ==> !Space(TrimRight(s)[|TrimRight(s)| - 1]) && TrimRight(s)[0] == s[0]
  {
    if s != "" && Space(s[|s| - 1]) {
      var c := TrimRightIs(s[..|s| - 1]);
      b := c + [s[|s| - 1]];
      Regroup(TrimRight(s), c, [s[|s| - 1]]);
    } else {
      b := "";
    }
  }

  /** Trimming takes spaces off both ends, and all of them. */
  lemma TrimIs(s: string) returns (a: string, b: string)
    ensures s == a + Trim(s) + b && Spaces(a) && Spaces(b)
    ensures Trim(s) != "" ==> !Space(Trim(s)[0]) && !Space(Trim(s)[|Trim(s)| - 1])
  {
    a := TrimLeftIs(s);
    b := TrimRightIs(TrimLeft(s));
    Regroup(a, Trim(s), b);
  }

  /** The lines of a block. */
  function Lines(s: string): (r: seq<string>)
    ensures r != []
  {
    if s == "" then [""]
    else if s[0] == '\n' then [""] + Lines(s[1..])
    else [[s[0]] + Lines(s[1..])[0]] + Lines(s[1..])[1..]
  }

  datatype Fields = Fields(name: Option<string>, data: Option<string>)

  function ReadLine(f: Fields, line: string): Fields {
    if "event:" <= line then f.(name := Some(Trim(line[6..])))
    else if "data:" <= line then f.(data := Some(Trim(line[5..])))
    else f
  }

  function ReadLines(f: Fields, lines: seq<string>): Fields
    decreases |lines|
  {
    if lines == [] then f else ReadLines(ReadLine(f, lines[0]), lines[1..])
  }

  predicate SaysName(line: string) { "event:" <= line }

  predicate SaysData(line: string) { "data:" <= line }

  /** Line k is the last one that says the name; of later ones none does. */
  predicate LastName(lines: seq<string>, k: nat) {
    k < |lines| && SaysName(lines[k]) && forall j | k < j < |lines| :: !SaysName(lines[j])
  }

  predicate LastData(lines: seq<string>, k: nat) {
    k < |lines| && SaysData(lines[k]) && forall j | k < j < |lines| :: !SaysData(lines[j])
  }

  /** The last event line gives the name and the last data line the data, without the
      spaces around them. */
  lemma {:induction false} LastLinesCount(f: Fields, lines: seq<string>, k: nat)
    ensures (forall j | 0 <= j < |lines| :: !SaysName(lines[j])) ==> ReadLines(f, lines).name == f.name
    ensures LastName(lines, k) ==> ReadLines(f, lines).name == Some(Trim(lines[k][6..]))
    ensures (forall j | 0 <= j < |lines| :: !SaysData(lines[j])) ==> ReadLines(f, lines).data == f.data
    ensures LastData(lines, k) ==> ReadLines(f, lines).data == Some(Trim(lines[k][5..]))
    decreases |lines|
  {
    if lines != [] {
      var rest := lines[1..];
      assert forall j | 0 <= j < |rest| :: rest[j] == lines[j + 1];
      LastLinesCount(ReadLine(f, lines[0]), rest, if k == 0 then 0 else k - 1);
      assert SaysName(lines[0]) ==> lines[0][0] == 'e';
      assert SaysData(lines[0]) ==> lines[0][0] == 'd';
      if k > 0 {
        assert LastName(lines, k) ==> LastName(rest, k - 1);
        assert LastData(lines, k) ==> LastData(rest, k - 1);
      } else {
        assert LastName(lines, 0) ==> forall j | 0 <= j < |rest| :: !SaysName(rest[j]);
        assert LastData(lines, 0) ==> forall j | 0 <= j < |rest| :: !SaysData(rest[j]);
      }
    }
  }

  function Unlines(lines: seq<string>): string {
    if lines == [] then "" else if |lines| == 1 then lines[0] else lines[0] + "\n" + Unlines(lines[1..])
  }

  lemma UnlinesPush(c: char, rest: seq<string>)
    requires rest != []
    ensures Unlines([[c] + rest[0]] + rest[1..]) == [c] + Unlines(rest)
  {
    var ls := [[c] + rest[0]] + rest[1..];
    if |rest| > 1 {
      assert ls[1..] == rest[1..];
      Regroup([c], rest[0], "\n");
      Regroup([c], rest[0] + "\n", Unlines(rest[1..]));
    }
  }

  lemma UnlinesBreak(rest: seq<string>)
    requires rest != []
    ensures Unlines([""] + rest) == "\n" + Unlines(rest)
  {
    assert ([""] + rest)[1..] == rest;
  }

  /** The lines are what the line ends separate. */
  lemma {:induction false} LinesAre(s: string)
    ensures Unlines(Lines(s)) == s
    ensures forall k | 0 <= k < |Lines(s)| :: OneLine(Lines(s)[k])
  {
    if s != "" {
      LinesAre(s[1..]);
      if s[0] == '\n' {
        UnlinesBreak(Lines(s[1..]));
      } else {
        UnlinesPush(s[0], Lines(s[1..]));
      }
    }
  }

  /** The event of a block that has a non-empty name and data. */
  function FieldsEvent(f: Fields): seq<Event> {
    if f.name.Some? && f.name.value != "" && f.data.Some? then [Event(f.name.value, f.data.value)] else []
  }

  function BlockEvents(block: string): seq<Event> {
    FieldsEvent(ReadLines(Fields(None, None), Lines(block)))
  }

  predicate BreakAt(s: string, i: nat) { i + 1 < |s| && s[i] == '\n' && s[i + 1] == '\n' }

  /** The first empty line. */
  function FindBreak(s: string): (r: Option<nat>)
    ensures r.Some? ==> r.value + 1 < |s|
  {
    if |s| < 2 then None
    else if BreakAt(s, 0) then Some(0)
    else match FindBreak(s[1..])
      case Some(i) => Some(i + 1)
      case None => None
  }

  lemma FindsFirst(s: string)
    ensures FindBreak(s).Some? ==> BreakAt(s, FindBreak(s).value)
    ensures forall k: nat | FindBreak(s).None? || k < FindBreak(s).value :: !BreakAt(s, k)
  {
    if |s| >= 2 && !BreakAt(s, 0) {
      FindsFirst(s[1..]);
      forall k: nat | k > 0 ensures BreakAt(s, k) <==> BreakAt(s[1..], k - 1) {
      }
    }
  }

  /** The events of the complete blocks of a text, in order. */
  function Events(text: string): seq<Event>
    decreases |text|
  {
    match FindBreak(text)
    case Some(i) => BlockEvents(text[..i]) + Events(text[i + 2..])
    case None => []
  }

  /** What is left after the last complete block. */
  function Rest(text: string): string
    decreases |text|
  {
    match FindBreak(text)
    case Some(i) => Rest(text[i + 2..])
    case None => text
  }

  function Concat(chunks: seq<string>): string {
    if chunks == [] then "" else chunks[0] + Concat(chunks[1..])
  }

  // The reader: `buf` is what is left over when the next chunk arrives.

  /** The events delivered while these chunks arrive one after the other. */
  function ChunkEvents(buf: string, chunks: seq<string>): seq<Event>
    decreases |chunks|
  {
    if chunks == [] then [] else Events(buf + chunks[0]) + ChunkEvents(Rest(buf + chunks[0]), chunks[1..])
  }

  /** What is in the buffer after them. */
  function ChunkRest(buf: string, chunks: seq<string>): string
    decreases |chunks|
  {
    if chunks == [] then buf else ChunkRest(Rest(buf + chunks[0]), chunks[1..])
  }

  /** What the page shows for a query. */
  datatype Bubble = Answer(data: string) | Problem(data: string) | ConnectionClosed | Unreachable

  /** How the response ends: the last read reports that it is done, or a read is
      rejected. */
  datatype Ending = Done | Rejected

  function EventBubbles(e: Event): seq<Bubble> {
    if e.name == "answer" then [Answer(e.data)]
    else if e.name == "error" then [Problem(e.data)]
    else []
  }

  function Bubbles(es: seq<Event>): seq<Bubble> {
    if es == [] then [] else EventBubbles(es[0]) + Bubbles(es[1..])
  }

  class Page {
    var settled: bool
    var bubbles: seq<Bubble>
    /** The events that the callback was given. */
    ghost var delivered: seq<Event>

    constructor ()
      ensures !settled && bubbles == [] && delivered == []
    {
      settled, bubbles, delivered := false, [], [];
    }

    /** The callback of the submit handler. */
    method OnEvent(e: Event)
      modifies this
      ensures delivered == old(delivered) + [e]
      ensures bubbles == old(bubbles) + EventBubbles(e)
      ensures settled == (old(settled) || EventBubbles(e) != [])
    {
      delivered := delivered + [e];
      if e.name == "answer" {
        settled := true;
        bubbles := bubbles + [Answer(e.data)];
      } else if e.name == "error" {
        settled := true;
        bubbles := bubbles + [Problem(e.data)];
      }
    }

    /** One block: its last `event:` and `data:` lines. */
    method ReadBlock(block: string)
      modifies this
      ensures delivered == old(delivered) + BlockEvents(block)
      ensures bubbles == old(bubbles) + Bubbles(BlockEvents(block))
      ensures settled == (old(settled) || Bubbles(BlockEvents(block)) != [])
    {
      var lines := Lines(block);
      var eventName, dataLine: Option<string> := None, None;
      var n := 0;
      while n < |lines|
        invariant n <= |lines|
        invariant ReadLines(Fields(None, None), lines) == ReadLines(Fields(eventName, dataLine), lines[n..])
      {
        var line := lines[n];
        assert lines[n..][1..] == lines[n + 1..];
        if "event:" <= line {
          eventName := Some(Trim(line[6..]));
        } else if "data:" <= line {
          dataLine := Some(Trim(line[5..]));
        }
        n := n + 1;
      }
      if eventName.Some? && eventName.value != "" && dataLine.Some? {
        OnEvent(Event(eventName.value, dataLine.value));
        assert Bubbles(BlockEvents(block)) == EventBubbles(Event(eventName.value, dataLine.value)) + Bubbles([]);
      }
    }

    /** Each chunk is appended to the buffer, and every complete block taken off it. */
    method ReadStream(chunks: seq<string>) returns (buf: string)
      modifies this
      ensures buf == ChunkRest("", chunks)
      ensures delivered == old(delivered) + ChunkEvents("", chunks)
      ensures bubbles == old(bubbles) + Bubbles(ChunkEvents("", chunks))
      ensures settled == (old(settled) || Bubbles(ChunkEvents("", chunks)) != [])
    {
      buf := "";
      var n := 0;
      ghost var seen: seq<Event> := [];
      StartReading(chunks);
      while n < |chunks|
        invariant Reading(chunks, n, buf, seen) && FindBreak(buf).None?
        invariant delivered == old(delivered) + seen
        invariant bubbles == old(bubbles) + Bubbles(seen)
        invariant settled == (old(settled) || Bubbles(seen) != [])
      {
        NextChunk(chunks, n, buf, seen);
        buf := buf + chunks[n];
        n := n + 1;
        while FindBreak(buf).Some?
          invariant Reading(chunks, n, buf, seen)
          invariant delivered == old(delivered) + seen
          invariant bubbles == old(bubbles) + Bubbles(seen)
          invariant settled == (old(settled) || Bubbles(seen) != [])
          decreases |buf|
        {
          var idx := FindBreak(buf).value;
          var block := buf[..idx];
          NextBlock(chunks, n, buf, seen);
          BubblesAppend(seen, BlockEvents(block));
          Regroup(old(bubbles), Bubbles(seen), Bubbles(BlockEvents(block)));
          Regroup(old(delivered), seen, BlockEvents(block));
          seen := seen + BlockEvents(block);
          buf := buf[idx + 2..];
          ReadBlock(block);
        }
      }
      DoneReading(chunks, buf, seen);
    }

    /** The submit handler from the response on.  A rejected read ends in its catch
        branch, whatever has been shown. */
    method Submit(chunks: seq<string>, ending: Ending)
      modifies this
      ensures bubbles == old(bubbles) + Shown(Concat(chunks), ending)
    {
      settled := false;
      ChunksAtOnce("", chunks);
      assert "" + Concat(chunks) == Concat(chunks);
      var rest := ReadStream(chunks);
      if ending.Rejected? {
        bubbles := bubbles + [Unreachable];
      } else if !settled {
        bubbles := bubbles + [ConnectionClosed];
      }
    }
  }

  /** What a query adds to the page, given all the text that arrived and how it ended. */
  function Shown(text: string, ending: Ending): seq<Bubble> {
    if ending.Rejected? then Bubbles(Events(text)) + [Unreachable]
    else if Bubbles(Events(text)) == [] then [ConnectionClosed]
    else Bubbles(Events(text))
  }

  /** After n chunks, `seen` has been delivered, and `buf` is in the buffer, perhaps with
      complete blocks in it. */
  ghost predicate Reading(chunks: seq<string>, n: nat, buf: string, seen: seq<Event>) {
    && n <= |chunks|
    && ChunkEvents("", chunks) == seen + (Events(buf) + ChunkEvents(Rest(buf), chunks[n..]))
    && ChunkRest("", chunks) == ChunkRest(Rest(buf), chunks[n..])
  }

  lemma StartReading(chunks: seq<string>)
    ensures Reading(chunks, 0, "", [])
  {
    assert chunks[0..] == chunks && Events("") == [] && Rest("") == "";
    assert [] + ([] + ChunkEvents("", chunks)) == ChunkEvents("", chunks);
  }

  lemma NextChunk(chunks: seq<string>, n: nat, buf: string, seen: seq<Event>)
    requires n < |chunks| && Reading(chunks, n, buf, seen) && FindBreak(buf).None?
    ensures Reading(chunks, n + 1, buf + chunks[n], seen)
  {
    assert chunks[n..][1..] == chunks[n + 1..];
    assert [] + ChunkEvents(buf, chunks[n..]) == ChunkEvents(buf, chunks[n..]);
  }

  lemma NextBlock(chunks: seq<string>, n: nat, buf: string, seen: seq<Event>)
    requires Reading(chunks, n, buf, seen) && FindBreak(buf).Some?
    ensures Reading(chunks, n, buf[FindBreak(buf).value + 2..], seen + BlockEvents(buf[..FindBreak(buf).value]))
  {
    var i := FindBreak(buf).value;
    var es, rest, later := BlockEvents(buf[..i]), Events(buf[i + 2..]), ChunkEvents(Rest(buf), chunks[n..]);
    assert Events(buf) == es + rest && Rest(buf) == Rest(buf[i + 2..]);
    Regroup(es, rest, later);
    Regroup(seen, es, rest + later);
  }

  lemma DoneReading(chunks: seq<string>, buf: string, seen: seq<Event>)
    requires Reading(chunks, |chunks|, buf, seen) && FindBreak(buf).None?
    ensures ChunkEvents("", chunks) == seen && ChunkRest("", chunks) == buf
  {
    assert chunks[|chunks|..] == [] && seen + ([] + []) == seen;
  }

  lemma BubblesAppend(a: seq<Event>, b: seq<Event>)
    ensures Bubbles(a + b) == Bubbles(a) + Bubbles(b)
  {
    if a == [] {
      assert a + b == b;
    } else {
      assert (a + b)[1..] == a[1..] + b;
      BubblesAppend(a[1..], b);
    }
  }

  // ----- Any chunking -----

  lemma BreakIs(s: string, i: nat)
    requires BreakAt(s, i) && forall k | 0 <= k < i :: !BreakAt(s, k)
    ensures FindBreak(s) == Some(i)
  {
    FindsFirst(s);
  }

  /** A first empty line stays the first one when more text arrives. */
  lemma BreakStays(a: string, b: string)
    requires FindBreak(a).Some?
    ensures FindBreak(a + b) == FindBreak(a)
  {
    var i := FindBreak(a).value;
    FindsFirst(a);
    forall k | 0 <= k < i ensures !BreakAt(a + b, k) {
      assert !BreakAt(a, k);
    }
    BreakIs(a + b, i);
  }

  lemma TakesBlock(buf: string, more: string)
    requires FindBreak(buf).Some?
    ensures Events(buf + more)
         == BlockEvents(buf[..FindBreak(buf).value]) + Events(buf[FindBreak(buf).value + 2..] + more)
    ensures Rest(buf + more) == Rest(buf[FindBreak(buf).value + 2..] + more)
  {
    BreakStays(buf, more);
    var i := FindBreak(buf).value;
    assert (buf + more)[..i] == buf[..i] && (buf + more)[i + 2..] == buf[i + 2..] + more;
  }

  /** Reading a text in two parts, keeping what is left of the first, delivers the same
      events and leaves the same rest as reading it at once. */
  lemma {:induction false} TwoParts(a: string, b: string)
    ensures Events(a + b) == Events(a) + Events(Rest(a) + b)
    ensures Rest(a + b) == Rest(Rest(a) + b)
    decreases |a|
  {
    match FindBreak(a)
    case None =>
    case Some(i) =>
      TakesBlock(a, b);
      TwoParts(a[i + 2..], b);
      Regroup(BlockEvents(a[..i]), Events(a[i + 2..]), Events(Rest(a) + b));
  }

  lemma RestUnbroken(text: string)
    ensures FindBreak(Rest(text)).None?
    decreases |text|
  {
    if FindBreak(text).Some? {
      RestUnbroken(text[FindBreak(text).value + 2..]);
    }
  }

  /** However a text is cut into chunks, the reader delivers the events of its complete
      blocks, and is left with what follows the last one. */
  lemma {:induction false} ChunksAtOnce(buf: string, chunks: seq<string>)
    requires FindBreak(buf).None?
    ensures ChunkEvents(buf, chunks) == Events(buf + Concat(chunks))
    ensures ChunkRest(buf, chunks) == Rest(buf + Concat(chunks))
    decreases |chunks|
  {
    if chunks == [] {
      assert buf + Concat(chunks) == buf;
    } else {
      var t, more := buf + chunks[0], Concat(chunks[1..]);
      RestUnbroken(t);
      ChunksAtOnce(Rest(t), chunks[1..]);
      TwoParts(t, more);
      Regroup(buf, chunks[0], more);
    }
  }

  // ----- Reading back what was printed -----

  predicate OneLine(s: string) { '\n' !in s }

  predicate Plain(f: Frame) { f.Sent? ==> OneLine(f.name) && OneLine(f.data) }

  /** The name is one word or more, without outer spaces, and so is the data, which may
      be empty. */
  predicate Tidy(f: Frame) {
    f.Sent? ==> f.name != "" && Trim(f.name) == f.name && Trim(f.data) == f.data
  }

  function FrameEvents(f: Frame): seq<Event> {
    if f.Sent? then [Event(f.name, f.data)] else []
  }

  function FramesEvents(frames: seq<Frame>): seq<Event> {
    if frames == [] then [] else FrameEvents(frames[0]) + FramesEvents(frames[1..])
  }

  function Block(f: Frame): string {
    match f
    case Sent(name, data) => "event: " + name + "\n" + ("data: " + data)
    case Heartbeat => ": heartbeat"
  }

  lemma PrintIsBlock(f: Frame)
    ensures Print(f) == Block(f) + "\n\n"
  {
  }

  lemma LinesOne(a: string)
    requires OneLine(a)
    ensures Lines(a) == [a]
  {
    if a != "" {
      LinesOne(a[1..]);
      assert a == [a[0]] + a[1..];
    }
  }

  lemma LinesTwo(a: string, b: string)
    requires OneLine(a)
    ensures Lines(a + "\n" + b) == [a] + Lines(b)
  {
    if a == "" {
      assert (a + "\n" + b)[1..] == b;
    } else {
      LinesTwo(a[1..], b);
      assert (a + "\n" + b)[1..] == a[1..] + "\n" + b;
      assert a == [a[0]] + a[1..];
    }
  }

  lemma BlockLines(f: Frame)
    requires Plain(f)
    ensures Lines(Block(f)) == if f.Sent? then ["event: " + f.name, "data: " + f.data] else [": heartbeat"]
  {
    match f
    case Heartbeat => LinesOne(": heartbeat");
    case Sent(name, data) =>
      LinesTwo("event: " + name, "data: " + data);
      LinesOne("data: " + data);
  }

  lemma TrimSpace(s: string)
    ensures Trim(" " + s) == Trim(s)
  {
    assert (" " + s)[1..] == s;
  }

  lemma TwoLines(f: Fields, a: string, b: string)
    ensures ReadLines(f, [a, b]) == ReadLine(ReadLine(f, a), b)
  {
    assert [a, b][1..] == [b] && [b][1..] == [];
    assert ReadLines(ReadLine(f, a), [b]) == ReadLines(ReadLine(ReadLine(f, a), b), []);
  }

  lemma EventLine(f: Fields, name: string)
    ensures ReadLine(f, "event: " + name) == f.(name := Some(Trim(name)))
  {
    assert ("event: " + name)[6..] == " " + name;
    TrimSpace(name);
  }

  lemma DataLine(f: Fields, data: string)
    ensures ReadLine(f, "data: " + data) == f.(data := Some(Trim(data)))
  {
    var l := "data: " + data;
    assert l[0] == 'd' && l[5..] == " " + data;
    TrimSpace(data);
  }

  lemma CommentLine(f: Fields)
    ensures ReadLine(f, ": heartbeat") == f
  {
    assert ": heartbeat"[0] == ':';
  }

  /** The block of any one-line frame is read as the trimmed event, if that has a name. */
  lemma BlockReads(f: Frame)
    requires Plain(f)
    ensures BlockEvents(Block(f))
         == if f.Sent? && Trim(f.name) != "" then [Event(Trim(f.name), Trim(f.data))] else []
  {
    var f0 := Fields(None, None);
    BlockLines(f);
    match f
    case Heartbeat =>
      CommentLine(f0);
    case Sent(name, data) =>
      TwoLines(f0, "event: " + name, "data: " + data);
      EventLine(f0, name);
      DataLine(f0.(name := Some(Trim(name))), data);
  }

  /** No empty line in a block, or where it ends. */
  lemma BlockUnbroken(f: Frame, k: nat)
    requires Plain(f)
    ensures !BreakAt(Block(f) + "\n", k)
  {
    match f
    case Heartbeat =>
    case Sent(name, data) =>
      var l1, l2 := "event: " + name, "data: " + data;
      var b, m := l1 + "\n" + l2 + "\n", |l1|;
      assert Block(f) + "\n" == b;
      assert OneLine(l1) && OneLine(l2) && l2[0] == 'd';
      assert forall j | 0 <= j < m :: b[j] == l1[j] && b[j] in l1;
      assert forall j | m < j < |b| - 1 :: b[j] == l2[j - m - 1] && b[j] in l2;
      assert b[m + 1] == l2[0];
  }

  lemma FrameBreak(f: Frame, more: string)
    requires Plain(f)
    ensures FindBreak(Print(f) + more) == Some(|Block(f)|)
    ensures (Print(f) + more)[..|Block(f)|] == Block(f)
    ensures (Print(f) + more)[|Block(f)| + 2..] == more
  {
    var s := Print(f) + more;
    PrintIsBlock(f);
    assert s == Block(f) + "\n" + "\n" + more;
    forall k | 0 <= k < |Block(f)| ensures !BreakAt(s, k) {
      BlockUnbroken(f, k);
      assert s[k] == (Block(f) + "\n")[k] && s[k + 1] == (Block(f) + "\n")[k + 1];
    }
    BreakIs(s, |Block(f)|);
  }

  /** A frame that has not arrived in full delivers nothing. */
  lemma PartialFrame(f: Frame, p: string)
    requires Plain(f) && p < Print(f)
    ensures Events(p) == [] && Rest(p) == p
  {
    PrintIsBlock(f);
    var b := Block(f) + "\n";
    assert Print(f) == b + "\n" && |p| <= |b|;
    FindsFirst(p);
    forall k: nat ensures !BreakAt(p, k) {
      BlockUnbroken(f, k);
      if k + 1 < |p| {
        assert p[k] == Print(f)[k] == b[k] && p[k + 1] == Print(f)[k + 1] == b[k + 1];
      }
    }
  }

  /** The events of the frames that arrived in full, then those of what follows. */
  lemma {:induction false} ReadsFrames(frames: seq<Frame>, more: string)
    requires forall f | f in frames :: Plain(f) && Tidy(f)
    ensures Events(Body(frames) + more) == FramesEvents(frames) + Events(more)
    ensures Rest(Body(frames) + more) == Rest(more)
    decreases |frames|
  {
    if frames == [] {
      assert Body(frames) + more == more;
    } else {
      var f, rest := frames[0], Body(frames[1..]) + more;
      Regroup(Print(f), Body(frames[1..]), more);
      ReadsFrame(f, rest);
      ReadsFrames(frames[1..], more);
      Regroup(FrameEvents(f), FramesEvents(frames[1..]), Events(more));
    }
  }

  lemma ReadsFrame(f: Frame, more: string)
    requires Plain(f) && Tidy(f)
    ensures Events(Print(f) + more) == FrameEvents(f) + Events(more)
    ensures Rest(Print(f) + more) == Rest(more)
  {
    FrameBreak(f, more);
    BlockReads(f);
  }

  /** For every chunking of the printed frames, the reader delivers the events that were
      printed, in order, and ends with nothing in its buffer. */
  lemma RoundTrip(frames: seq<Frame>, chunks: seq<string>)
    requires (forall f | f in frames :: Plain(f) && Tidy(f)) && Concat(chunks) == Body(frames)
    ensures ChunkEvents("", chunks) == FramesEvents(frames) && ChunkRest("", chunks) == ""
  {
    ChunksAtOnce("", chunks);
    assert "" + Concat(chunks) == Body(frames) == Body(frames) + "";
    ReadsFrames(frames, "");
  }

  /** A one-line frame delivers its trimmed event if that has a name. */
  lemma ReadsPlain(f: Frame, more: string)
    requires Plain(f)
    ensures Events(Print(f) + more)
         == (if f.Sent? && Trim(f.name) != "" then [Event(Trim(f.name), Trim(f.data))] else []) + Events(more)
  {
    FrameBreak(f, more);
    BlockReads(f);
  }

  lemma {:induction false} NoMoreThanPrinted(frames: seq<Frame>)
    requires forall f | f in frames :: Plain(f)
    ensures |Events(Body(frames))| <= |FramesEvents(frames)|
    decreases |frames|
  {
    if frames != [] {
      ReadsPlain(frames[0], Body(frames[1..]));
      NoMoreThanPrinted(frames[1..]);
    }
  }

  /** One-line frames are all read back as they were printed if and only if they are
      all tidy. */
  lemma {:induction false} TidyIsNeeded(frames: seq<Frame>)
    requires forall f | f in frames :: Plain(f)
    ensures Events(Body(frames)) == FramesEvents(frames) <==> forall f | f in frames :: Tidy(f)
    decreases |frames|
  {
    if frames != [] {
      var f, rest := frames[0], frames[1..];
      ReadsPlain(f, Body(rest));
      NoMoreThanPrinted(rest);
      TidyIsNeeded(rest);
      var read, sent := Events(Body(rest)), FramesEvents(rest);
      assert forall g | g in frames :: g == f || g in rest;
      if Tidy(f) {
        SameTail(FrameEvents(f), read, sent);
      } else if Trim(f.name) != "" {
        var e := Event(Trim(f.name), Trim(f.data));
        assert ([e] + read)[0] == e && (FrameEvents(f) + sent)[0] == Event(f.name, f.data);
      }
    }
  }

  // ----- Streams that break off -----

  /** Any prefix of the printed frames holds some of them in full, and part of the
      next one. */
  lemma {:induction false} WholeFrames(frames: seq<Frame>, p: string) returns (n: nat)
    requires p <= Body(frames)
    ensures n <= |frames| && Body(frames[..n]) <= p
    ensures n < |frames| ==> p[|Body(frames[..n])|..] < Print(frames[n])
    ensures n == |frames| <==> p == Body(frames)
    decreases |frames|
  {
    if frames == [] {
      n := 0;
    } else if |p| < |Print(frames[0])| {
      n := 0;
      assert Body(frames)[..|p|] == p;
      assert p[0..] == p;
    } else {
      var f, p' := Print(frames[0]), p[|Print(frames[0])|..];
      SplitPrefix(f, Body(frames[1..]), p);
      n := WholeFrames(frames[1..], p');
      BodyStep(frames, n);
      ExtendPrefix(f, Body(frames[1..][..n]), p');
      n := n + 1;
    }
  }

  lemma SplitPrefix(f: string, b: string, p: string)
    requires p <= f + b && |f| <= |p|
    ensures p == f + p[|f|..] && p[|f|..] <= b
    ensures p[|f|..] == b <==> p == f + b
  {
    assert p == (f + b)[..|p|] == f + b[..|p| - |f|];
    assert b == b[..|p| - |f|] + b[|p| - |f|..];
  }

  lemma ExtendPrefix(f: string, b: string, p: string)
    requires b <= p
    ensures f + b <= f + p && (f + p)[|f + b|..] == p[|b|..]
  {
    assert p == b + p[|b|..];
    Regroup(f, b, p[|b|..]);
  }

  lemma BodyStep(frames: seq<Frame>, n: nat)
    requires n < |frames|
    ensures Body(frames[..n + 1]) == Print(frames[0]) + Body(frames[1..][..n])
  {
    assert frames[..n + 1][1..] == frames[1..][..n];
  }

  /** However much of it arrived, in whatever chunks, and however it ended: a query's
      stream shows its outcome, once, if all of it arrived.  One of the notices is shown if
      not - and also if the read after the outcome is rejected. */
  lemma ShowsOutcomeIffComplete(status: string, timeouts: nat, outcome: Outcome, p: string, ending: Ending)
    requires OneLine(status) && Trim(status) == status && OneLine(outcome.data) && Trim(outcome.data) == outcome.data
    requires p <= Body(QueryFrames(status, timeouts, outcome))
    ensures Shown(p, ending) ==
            if p == Body(QueryFrames(status, timeouts, outcome))
            then OutcomeBubbles(outcome) + (if ending.Rejected? then [Unreachable] else [])
            else [if ending.Rejected? then Unreachable else ConnectionClosed]
  {
    OutcomeArrived(status, timeouts, outcome, p);
  }

  lemma OutcomeArrived(status: string, timeouts: nat, outcome: Outcome, p: string)
    requires OneLine(status) && Trim(status) == status && OneLine(outcome.data) && Trim(outcome.data) == outcome.data
    requires p <= Body(QueryFrames(status, timeouts, outcome))
    ensures Bubbles(Events(p))
         == if p == Body(QueryFrames(status, timeouts, outcome)) then OutcomeBubbles(outcome) else []
  {
    var frames := QueryFrames(status, timeouts, outcome);
    var n := WholeFrames(frames, p);
    var q := p[|Body(frames[..n])|..];
    assert p == Body(frames[..n]) + q;
    if n < |frames| {
      OutcomeMissing(status, timeouts, outcome, n, q);
    } else {
      OutcomeThere(status, timeouts, outcome);
    }
  }

  lemma OutcomeMissing(status: string, timeouts: nat, outcome: Outcome, n: nat, q: string)
    requires OneLine(status) && Trim(status) == status && OneLine(outcome.data) && Trim(outcome.data) == outcome.data
    requires n < |QueryFrames(status, timeouts, outcome)| && q < Print(QueryFrames(status, timeouts, outcome)[n])
    ensures Bubbles(Events(Body(QueryFrames(status, timeouts, outcome)[..n]) + q)) == []
  {
    var frames := QueryFrames(status, timeouts, outcome);
    QueryFramesTidy(status, timeouts, outcome);
    ReadsFrames(frames[..n], q);
    PartialFrame(frames[n], q);
    NoOutcomeYet(status, timeouts, outcome, n);
    assert FramesEvents(frames[..n]) + [] == FramesEvents(frames[..n]);
  }

  lemma OutcomeThere(status: string, timeouts: nat, outcome: Outcome)
    requires OneLine(status) && Trim(status) == status && OneLine(outcome.data) && Trim(outcome.data) == outcome.data
    ensures Bubbles(Events(Body(QueryFrames(status, timeouts, outcome)))) == OutcomeBubbles(outcome)
  {
    var frames := QueryFrames(status, timeouts, outcome);
    QueryFramesTidy(status, timeouts, outcome);
    ReadsFrames(frames, "");
    assert Body(frames) + "" == Body(frames);
    AllShown(status, timeouts, outcome);
  }

  lemma AllShown(status: string, timeouts: nat, outcome: Outcome)
    ensures Bubbles(FramesEvents(QueryFrames(status, timeouts, outcome)) + Events("")) == OutcomeBubbles(outcome)
  {
    var frames := QueryFrames(status, timeouts, outcome);
    var a, e := frames[..|frames| - 1], OutcomeFrame(outcome);
    NoOutcomeYet(status, timeouts, outcome, |frames| - 1);
    assert frames == a + [e];
    FramesEventsAppend(a, [e]);
    assert FramesEvents([e]) == FrameEvents(e) + [];
    assert FramesEvents(frames) + Events("") == FramesEvents(a) + FrameEvents(e);
    BubblesAppend(FramesEvents(a), FrameEvents(e));
    assert Bubbles(FrameEvents(e)) == OutcomeBubbles(outcome) + [];
  }

  function OutcomeBubbles(o: Outcome): seq<Bubble> {
    match o
    case Answered(data) => [Answer(data)]
    case Failed(data) => [Problem(data)]
  }

  lemma QueryFramesTidy(status: string, timeouts: nat, outcome: Outcome)
    requires OneLine(status) && Trim(status) == status && OneLine(outcome.data) && Trim(outcome.data) == outcome.data
    ensures forall f | f in QueryFrames(status, timeouts, outcome) :: Plain(f) && Tidy(f)
  {
    assert Trim("status") == "status" && Trim("answer") == "answer" && Trim("error") == "error";
    forall f | f in QueryFrames(status, timeouts, outcome) ensures Plain(f) && Tidy(f) {
      assert f == Sent("status", status) || f == OutcomeFrame(outcome) || f == Heartbeat;
    }
  }

  lemma FramesEventsAppend(a: seq<Frame>, b: seq<Frame>)
    ensures FramesEvents(a + b) == FramesEvents(a) + FramesEvents(b)
  {
    if a == [] {
      assert a + b == b;
    } else {
      assert (a + b)[1..] == a[1..] + b;
      FramesEventsAppend(a[1..], b);
    }
  }

  /** Nothing but the last frame is an outcome. */
  lemma NoOutcomeYet(status: string, timeouts: nat, outcome: Outcome, n: nat)
    requires n < |QueryFrames(status, timeouts, outcome)|
    ensures Bubbles(FramesEvents(QueryFrames(status, timeouts, outcome)[..n])) == []
    decreases n
  {
    var frames := QueryFrames(status, timeouts, outcome);
    if n > 0 {
      NoOutcomeYet(status, timeouts, outcome, n - 1);
      assert frames[..n] == frames[..n - 1] + [frames[n - 1]];
      FramesEventsAppend(frames[..n - 1], [frames[n - 1]]);
      assert frames[n - 1] == Sent("status", status) || frames[n - 1] == Heartbeat;
      BubblesAppend(FramesEvents(frames[..n - 1]), FramesEvents([frames[n - 1]]));
      assert FramesEvents([frames[n - 1]]) == FrameEvents(frames[n - 1]) + [];
    }
  }
}
