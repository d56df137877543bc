/**
 The disk overflow: newline-delimited events, one file per agent and day, replayed in sorted order
 after a successful delivery.

 The encoder is a parameter (`Codec`). Faults of the disk and answers of the server are oracles.
 `OverflowWriter` appends to and deletes files in place; each method states the new files in full.
 */
module Overflow {
  import opened Wrappers
  import opened Http
  import opened FileNames

  const MAX_FILE_BYTES: nat := 50 * 1024 * 1024
  const CHUNK: nat := 100

  // ------------------------------------------------------------------ lines

  predicate IsBreak(c: char) { c == '\n' || c == '\r' }

  /** The characters str.strip removes. */
  predicate IsSpace(c: char) {
    var n := c as int;
    9 <= n <= 13 || 28 <= n <= 32 || n == 0x85 || n == 0xA0 || n == 0x1680 || 0x2000 <= n <= 0x200A
    || n == 0x2028 || n == 0x2029 || n == 0x202F || n == 0x205F || n == 0x3000
  }

  /** In ASCII text these are tab, line feed, vertical tab, form feed, carriage return, four separators and the blank. */
  lemma AsciiSpaces(c: char)
    requires c as int < 128
    ensures IsSpace(c) <==> c in "\t\n\U{0B}\U{0C}\r\U{1C}\U{1D}\U{1E}\U{1F} "
  {
  }

  function TrimLeft(s: string): string {
    if s != [] && IsSpace(s[0]) then TrimLeft(s[1..]) else s
  }

  function TrimRight(s: string): string {
    if s != [] && IsSpace(s[|s| - 1]) then TrimRight(s[..|s| - 1]) else s
  }

  function Trim(s: string): string {
    TrimRight(TrimLeft(s))
  }

  /** The pieces of a text between line breaks; `current` is the piece being read. */
  function Pieces(text: string, current: string): seq<string>
    decreases |text|
  {
    if text == [] then [current]
    else if IsBreak(text[0]) then [current] + Pieces(text[1..], "")
    else Pieces(text[1..], current + [text[0]])
  }

  /** The pieces that are not blank, trimmed. */
  function NonBlank(pieces: seq<string>): seq<string> {
    if pieces == [] then [] else
      (if Trim(pieces[0]) == "" then [] else [Trim(pieces[0])]) + NonBlank(pieces[1..])
  }

  /** The lines a replayer reads from a file. */
  function Lines(text: string): seq<string> {
    NonBlank(Pieces(text, ""))
  }

  datatype Codec<!E> = Codec(encode: E -> string, decode: string -> Option<E>)

  /** A text that survives being written as a line and read back: no breaks, no blanks around it. */
  predicate OneLine(s: string) {
    s != "" && (forall c :: c in s ==> !IsBreak(c)) && !IsSpace(s[0]) && !IsSpace(s[|s| - 1])
  }

  /** What JSON gives: every event is encoded on one line and decoded to itself. */
  ghost predicate Faithful<E(!new)>(c: Codec<E>) {
    forall e :: OneLine(c.encode(e)) && c.decode(c.encode(e)) == Some(e)
  }

  /** The events of the lines that decode, in order. */
  function DecodeAll<E>(c: Codec<E>, lines: seq<string>): seq<E> {
    if lines == [] then [] else
      var e := c.decode(lines[|lines| - 1]);
      DecodeAll(c, lines[..|lines| - 1]) + if e.Some? then [e.value] else []
  }

  // ------------------------------------------------------------ round trip

  lemma TrimOneLine(s: string)
    requires OneLine(s)
    ensures Trim(s) == s
  {
  }

  /** A line and its break, then the rest. */
  lemma {:induction false} PiecesBroken(line: string, c: char, rest: string, current: string)
    requires (forall ch :: ch in line ==> !IsBreak(ch)) && IsBreak(c)
    ensures Pieces(line + [c] + rest, current) == [current + line] + Pieces(rest, "")
    decreases |line|
  {
    var text := line + [c] + rest;
    if line == [] {
      assert text[1..] == rest && current + line == current;
    } else {
      assert text[1..] == line[1..] + [c] + rest;
      PiecesBroken(line[1..], c, rest, current + [line[0]]);
      assert current + [line[0]] + line[1..] == current + line;
    }
  }

  /** What a file may hold: events as they were written, and anything else on lines of its own. */
  datatype Item<E> = Event(event: E) | Junk(text: string)

  function ItemText<E>(c: Codec<E>, item: Item<E>): string {
    match item case Event(e) => c.encode(e) case Junk(s) => s
  }

  function TextOf<E>(c: Codec<E>, items: seq<Item<E>>): string {
    if items == [] then "" else ItemText(c, items[0]) + "\n" + TextOf(c, items[1..])
  }

  function EventsOf<E>(items: seq<Item<E>>): seq<E> {
    if items == [] then [] else
      (match items[0] case Event(e) => [e] case Junk(_) => []) + EventsOf(items[1..])
  }

  /** A corrupt or blank line: no line break inside, and it does not decode. */
  predicate Corrupt<E>(c: Codec<E>, s: string) {
    (forall ch :: ch in s ==> !IsBreak(ch)) && (Trim(s) == "" || c.decode(Trim(s)) == None)
  }

  lemma {:induction false} DecodeAllAppend<E>(c: Codec<E>, a: seq<string>, b: seq<string>)
    ensures DecodeAll(c, a + b) == DecodeAll(c, a) + DecodeAll(c, b)
    decreases |b|
  {
    if b == [] {
      assert a + b == a;
    } else {
      assert (a + b)[..|a + b| - 1] == a + b[..|b| - 1];
      DecodeAllAppend(c, a, b[..|b| - 1]);
    }
  }

  lemma DecodeOne<E>(c: Codec<E>, line: string)
    ensures DecodeAll(c, [line]) == match c.decode(line) case Some(e) => [e] case None => []
  {
    assert [line][..0] == [];
  }

  lemma LinesOfLine(line: string, c: char, rest: string)
    requires (forall ch :: ch in line ==> !IsBreak(ch)) && IsBreak(c)
    ensures Lines(line + [c] + rest) == (if Trim(line) == "" then [] else [Trim(line)]) + Lines(rest)
  {
    assert "" + line == line;
    PiecesBroken(line, c, rest, "");
    assert ([line] + Pieces(rest, ""))[1..] == Pieces(rest, "");
  }

  lemma DecodeItem<E(!new)>(c: Codec<E>, item: Item<E>)
    requires Faithful(c) && (item.Junk? ==> Corrupt(c, item.text))
    ensures var line := ItemText(c, item);
            && (forall ch :: ch in line ==> !IsBreak(ch))
            && DecodeAll(c, if Trim(line) == "" then [] else [Trim(line)])
               == match item case Event(e) => [e] case Junk(_) => []
  {
    var line := ItemText(c, item);
    DecodeOne(c, Trim(line));
    if item.Event? {
      assert OneLine(c.encode(item.event));
      TrimOneLine(line);
    }
  }

  /**
   Writing and reading: a file made of event lines, with corrupt lines anywhere between them, is
   read back as exactly the events, in order.
   */
  lemma {:induction false} ReadBackEvents<E(!new)>(c: Codec<E>, items: seq<Item<E>>)
    requires Faithful(c)
    requires forall i :: 0 <= i < |items| && items[i].Junk? ==> Corrupt(c, items[i].text)
    ensures DecodeAll(c, Lines(TextOf(c, items))) == EventsOf(items)
    decreases |items|
  {
    if items == [] {
      assert Pieces("", "") == [""];
    } else {
      var line, rest := ItemText(c, items[0]), items[1..];
      DecodeItem(c, items[0]);
      LinesOfLine(line, '\n', TextOf(c, rest));
      ReadBackEvents(c, rest);
      DecodeAllAppend(c, if Trim(line) == "" then [] else [Trim(line)], Lines(TextOf(c, rest)));
    }
  }

  predicate OnlySpaces(s: string) {
    forall c :: c in s ==> IsSpace(c)
  }

  lemma OneMoreSpace(c: char, spaces: string)
    requires IsSpace(c) && OnlySpaces(spaces)
    ensures OnlySpaces([c] + spaces) && OnlySpaces(spaces + [c])
  {
    assert forall x :: x in [c] + spaces || x in spaces + [c] ==> x == c || x in spaces;
  }

  lemma {:induction false} LeftTrimmed(s: string) returns (spaces: string)
    ensures OnlySpaces(spaces) && s == spaces + TrimLeft(s)
    ensures TrimLeft(s) != "" ==> !IsSpace(TrimLeft(s)[0])
    decreases |s|
  {
    if s != [] && IsSpace(s[0]) {
      var rest := LeftTrimmed(s[1..]);
      OneMoreSpace(s[0], rest);
      spaces := [s[0]] + rest;
      Regroup([s[0]], rest, TrimLeft(s[1..]));
    } else {
      spaces := "";
    }
  }

  lemma {:induction false} RightTrimmed(s: string) returns (spaces: string)
    ensures OnlySpaces(spaces) && s == TrimRight(s) + spaces
    ensures TrimRight(s) != "" ==> !IsSpace(TrimRight(s)[|TrimRight(s)| - 1])
    decreases |s|
  {
    if s != [] && IsSpace(s[|s| - 1]) {
      var rest := RightTrimmed(s[..|s| - 1]);
      OneMoreSpace(s[|s| - 1], rest);
      spaces := rest + [s[|s| - 1]];
      Regroup(TrimRight(s[..|s| - 1]), rest, [s[|s| - 1]]);
    } else {
      spaces := "";
    }
  }

  /** Trimming takes away the blanks at both ends, all of them and nothing else. */
  lemma TrimMeaning(s: string) returns (left: string, right: string)
    ensures OnlySpaces(left) && OnlySpaces(right) && s == left + (Trim(s) + right)
    ensures Trim(s) != "" ==> !IsSpace(Trim(s)[0]) && !IsSpace(Trim(s)[|Trim(s)| - 1])
  {
    left := LeftTrimmed(s);
    right := RightTrimmed(TrimLeft(s));
    var inner, t := Trim(s), TrimLeft(s);
    assert t == inner + right;
    assert inner != "" ==> t[0] == inner[0];
  }

  /** A line may end in any of the three ways in which text files end their lines. */
  lemma BreaksAreAlike(line: string, rest: string)
    requires forall c :: c in line ==> c != '\n' && c != '\r'
    ensures Lines(line + "\r" + rest) == Lines(line + "\n" + rest)
    ensures Lines(line + "\r\n" + rest) == Lines(line + "\n" + rest)
  {
    LinesOfLine(line, '\n', rest);
    LinesOfLine(line, '\r', rest);
    BlankLine(rest);
    LinesOfLine(line, '\r', "\n" + rest);
    assert line + "\r\n" + rest == line + "\r" + ("\n" + rest);
  }

  lemma BlankLine(rest: string)
    ensures Lines("\n" + rest) == Lines(rest)
  {
    LinesOfLine("", '\n', rest);
    assert "" + "\n" + rest == "\n" + rest;
  }

  // --------------------------------------------------------------- the server

  /** What log_batch gives its caller. */
  datatype Answer = Delivered | Unreachable | Refused | TooMany

  /** The client side of log_batch; `accepted` collects what the server confirmed, batch after batch. */
  class Server<E> {
    const replies: nat -> Reply<()>
    var calls: nat
    var accepted: seq<E>

    constructor (replies: nat -> Reply<()>)
      ensures this.replies == replies && calls == 0 && accepted == []
    {
      this.replies := replies;
      calls, accepted := 0, [];
    }

    method LogBatch(events: seq<E>) returns (answer: Answer)
      modifies this
      ensures answer.TooMany? <==> |events| > 100
      ensures answer.TooMany? ==> calls == old(calls) && accepted == old(accepted)
      ensures !answer.TooMany? ==>
                && calls == old(calls) + 1
                && answer == AnswerOf(replies(old(calls)))
                && accepted == old(accepted) + if answer.Delivered? then events else []
    {
      if |events| > CHUNK {
        return TooMany;
      }
      var result := Expect(replies(calls), 202);
      calls := calls + 1;
      match result {
        case Returned(_) =>
          accepted := accepted + events;
          return Delivered;
        case TransportError => return Unreachable;
        case ApiError(_) => return Refused;
      }
    }
  }

  function AnswerOf(reply: Reply<()>): (answer: Answer)
    ensures answer.Delivered? <==> reply.Response? && reply.code == 202 && reply.body.Some?
    ensures answer.Unreachable? <==> reply.NoReply?
    ensures !answer.TooMany?
  {
    match Expect(reply, 202)
    case Returned(_) => Delivered
    case TransportError => Unreachable
    case ApiError(_) => Refused
  }

  /** How many of the events, sent in chunks of a hundred from call number `calls` on, get accepted. */
  function Sent<E>(replies: nat -> Reply<()>, calls: nat, events: seq<E>): (n: nat)
    ensures n <= |events|
    decreases |events|
  {
    if events == [] then 0 else
      var k := if |events| <= CHUNK then |events| else CHUNK;
      if AnswerOf(replies(calls)).Delivered? then k + Sent(replies, calls + 1, events[k..]) else 0
  }

  /** What is accepted of a file is everything, or a whole number of chunks of a hundred. */
  lemma {:induction false} SentInChunks<E>(replies: nat -> Reply<()>, calls: nat, events: seq<E>)
    ensures var n := Sent(replies, calls, events);
            n == |events| || (n % 100 == 0 && n / 100 < CallsMade(replies, calls, events))
    decreases |events|
  {
    if events != [] {
      var k := if |events| <= CHUNK then |events| else CHUNK;
      SentInChunks(replies, calls + 1, events[k..]);
    }
  }

  /** How many calls that takes: the first chunk that is not accepted is the last one sent. */
  function CallsMade<E>(replies: nat -> Reply<()>, calls: nat, events: seq<E>): nat
    decreases |events|
  {
    if events == [] then 0 else
      var k := if |events| <= CHUNK then |events| else CHUNK;
      1 + if AnswerOf(replies(calls)).Delivered? then CallsMade(replies, calls + 1, events[k..]) else 0
  }

  // --------------------------------------------------------------- the writer

  /** The content of an overflow file: ASCII text, or bytes that are not UTF-8. */
  datatype File = Text(text: string) | Undecodable(size: nat)

  function Size(f: File): nat {
    match f case Text(t) => |t| case Undecodable(n) => n
  }

  function Longer(f: File, line: string): File {
    match f case Text(t) => Text(t + line) case Undecodable(n) => Undecodable(n + |line|)
  }

  function Extended(files: map<string, File>, path: string, line: string): File {
    if path in files then Longer(files[path], line) else Text(line)
  }

  /** The circumstances of one write: today's date, and which system calls work. */
  datatype WriteIo = WriteIo(day: string, statOk: bool, appendOk: bool)

  /** The circumstances of one replay: which system calls fail, and on which files. */
  datatype ReplayIo = ReplayIo(listOk: bool, unreadable: set<string>, undeletable: set<string>)

  datatype Store = Store(files: map<string, File>, dropCount: nat)

  predicate Full(files: map<string, File>, path: string, io: WriteIo) {
    io.statOk && path in files && Size(files[path]) >= MAX_FILE_BYTES
  }

  /** One write of one encoded line. */
  function Written(s: Store, agentId: string, line: string, io: WriteIo): Store {
    var path := FileName(agentId, io.day);
    if Full(s.files, path, io) then s.(dropCount := s.dropCount + 1)
    else if io.appendOk then s.(files := s.files[path := Extended(s.files, path, line + "\n")])
    else s
  }

  /** What a replay leaves behind: the files, what the server accepted, the calls made, and whether it raised. */
  datatype Replayed<E> = Replayed(files: map<string, File>, accepted: seq<E>, calls: nat, raised: bool)

  function ReplayOne<E>(
    c: Codec<E>, files: map<string, File>, path: string, replies: nat -> Reply<()>, calls: nat, io: ReplayIo): Replayed<E>
  {
    if path !in files || path in io.unreadable then Replayed(files, [], calls, false)
    else match files[path]
      case Undecodable(_) => Replayed(files, [], calls, true)
      case Text(text) =>
        var offered := DecodeAll(c, Lines(text));
        var n := Sent(replies, calls, offered);
        Replayed(if n == |offered| && path !in io.undeletable then files - {path} else files,
                 offered[..n], calls + CallsMade(replies, calls, offered), false)
  }

  /** The first k files one after another; the first one that raises ends the replay. */
  function ReplayFirst<E>(
    c: Codec<E>, files: map<string, File>, names: seq<string>, k: nat, replies: nat -> Reply<()>, calls: nat, io: ReplayIo):
    Replayed<E>
    requires k <= |names|
  {
    if k == 0 then Replayed(files, [], calls, false) else
      var before := ReplayFirst(c, files, names, k - 1, replies, calls, io);
      if before.raised then before else
        var one := ReplayOne(c, before.files, names[k - 1], replies, before.calls, io);
        Replayed(one.files, before.accepted + one.accepted, one.calls, one.raised)
  }

  function ReplayAll<E>(
    c: Codec<E>, files: map<string, File>, names: seq<string>, replies: nat -> Reply<()>, calls: nat, io: ReplayIo): Replayed<E>
  {
    ReplayFirst(c, files, names, |names|, replies, calls, io)
  }

  lemma {:induction false} RaisedStops<E>(
    c: Codec<E>, files: map<string, File>, names: seq<string>, k: nat, m: nat, replies: nat -> Reply<()>, calls: nat, io: ReplayIo)
    requires k <= m <= |names| && ReplayFirst(c, files, names, k, replies, calls, io).raised
    ensures ReplayFirst(c, files, names, m, replies, calls, io) == ReplayFirst(c, files, names, k, replies, calls, io)
    decreases m
  {
    if k < m {
      RaisedStops(c, files, names, k, m - 1, replies, calls, io);
    }
  }

  predicate IsOverflowName(name: string) {
    |name| >= |".ndjson"| && name[|name| - |".ndjson"|..] == ".ndjson"
  }

  ghost predicate EndsIn(name: string, suffix: string) {
    exists stem :: name == stem + suffix
  }

  /** What a replay lists: the names that end in .ndjson, of whatever agent and day. */
  lemma OverflowNameMeans(name: string)
    ensures IsOverflowName(name) <==> EndsIn(name, ".ndjson")
  {
    if IsOverflowName(name) {
      assert name == name[..|name| - |".ndjson"|] + ".ndjson";
    }
  }

  class OverflowWriter<E> {
    const codec: Codec<E>
    const agentId: string
    const writable: bool
    var files: map<string, File>
    var dropCount: nat

    function State(): Store
      reads this
    {
      Store(files, dropCount)
    }

    constructor (codec: Codec<E>, agentId: string, writable: bool, files: map<string, File>)
      ensures this.codec == codec && this.writable == writable && State() == Store(files, 0)
      ensures this.agentId == if agentId != "" then agentId else "unknown"
    {
      this.codec, this.writable := codec, writable;
      this.agentId := if agentId != "" then agentId else "unknown";
      this.files, dropCount := files, 0;
    }

    method Write(event: E, io: WriteIo)
      modifies this
      ensures State() == if writable then Written(old(State()), agentId, codec.encode(event), io) else old(State())
    {
      if !writable {
        return;
      }
      var path := FileName(agentId, io.day);
      if io.statOk && path in files && Size(files[path]) >= MAX_FILE_BYTES {
        dropCount := dropCount + 1;
        return;
      }
      var line := codec.encode(event) + "\n";
      if io.appendOk {
        files := files[path := Extended(files, path, line)];
      }
    }

    /** The decoding loop: lines that do not decode are skipped. */
    method Decode(lines: seq<string>) returns (events: seq<E>)
      ensures events == DecodeAll(codec, lines)
    {
      events := [];
      for i := 0 to |lines|
        invariant events == DecodeAll(codec, lines[..i])
      {
        assert lines[..i + 1][..i] == lines[..i];
        var e := codec.decode(lines[i]);
        if e.Some? {
          events := events + [e.value];
        }
      }
      assert lines[..|lines|] == lines;
    }

    /** The sending loop: stops at the first chunk that is not accepted. No chunk is ever too large. */
    method SendChunks(events: seq<E>, server: Server<E>) returns (allOk: bool)
      modifies server
      ensures server.accepted == old(server.accepted) + events[..Sent(server.replies, old(server.calls), events)]
      ensures server.calls == old(server.calls) + CallsMade(server.replies, old(server.calls), events)
      ensures allOk <==> Sent(server.replies, old(server.calls), events) == |events|
    {
      allOk := true;
      var i := 0;
      while i < |events|
        invariant 0 <= i <= |events| && allOk
        invariant server.accepted == old(server.accepted) + events[..i]
        invariant old(server.calls) + CallsMade(server.replies, old(server.calls), events)
                  == server.calls + CallsMade(server.replies, server.calls, events[i..])
        invariant Sent(server.replies, old(server.calls), events) == i + Sent(server.replies, server.calls, events[i..])
      {
        var k := if |events| - i <= CHUNK then |events| - i else CHUNK;
        Chunk(events, i, k);
        NextChunk(server.replies, server.calls, events, i, k);
        Regroup(old(server.accepted), events[..i], events[i..i + k]);
        var answer := server.LogBatch(events[i..i + k]);
        if answer != Delivered {
          return false;
        }
        i := i + k;
      }
    }

    /**
     Replays one file. It is deleted only when every chunk of its events was accepted; otherwise it
     stays as it is and a whole number of chunks has been accepted.
     */
    method ReplayFile(path: string, server: Server<E>, io: ReplayIo) returns (raised: bool)
      modifies this`files, server
      ensures var one := ReplayOne(codec, old(files), path, server.replies, old(server.calls), io);
              && files == one.files && raised == one.raised
              && server.accepted == old(server.accepted) + one.accepted && server.calls == one.calls
    {
      if path !in files || path in io.unreadable {
        return false;
      }
      if files[path].Undecodable? {
        return true;
      }
      var lines := Lines(files[path].text);
      if lines == [] {
        if path !in io.undeletable {
          files := files - {path};
        }
        return false;
      }
      var events := Decode(lines);
      var allOk := SendChunks(events, server);
      if allOk && path !in io.undeletable {
        files := files - {path};
      }
      return false;
    }

    /** The loop over the sorted names. */
    method ReplayEach(names: seq<string>, server: Server<E>, io: ReplayIo) returns (raised: bool)
      modifies this`files, server
      ensures var all := ReplayAll(codec, old(files), names, server.replies, old(server.calls), io);
              && files == all.files && raised == all.raised
              && server.accepted == old(server.accepted) + all.accepted && server.calls == all.calls
    {
      var i := 0;
      raised := false;
      while i < |names| && !raised
        invariant 0 <= i <= |names|
        invariant var done := ReplayFirst(codec, old(files), names, i, server.replies, old(server.calls), io);
                  && raised == done.raised && files == done.files && server.calls == done.calls
                  && server.accepted == old(server.accepted) + done.accepted
      {
        ghost var done := ReplayFirst(codec, old(files), names, i, server.replies, old(server.calls), io);
        raised := ReplayFile(names[i], server, io);
        ghost var one := ReplayOne(codec, done.files, names[i], server.replies, done.calls, io);
        assert ReplayFirst(codec, old(files), names, i + 1, server.replies, old(server.calls), io)
            == Replayed(one.files, done.accepted + one.accepted, one.calls, one.raised);
        Regroup(old(server.accepted), done.accepted, one.accepted);
        i := i + 1;
      }
      if raised {
        RaisedStops(codec, old(files), names, i, |names|, server.replies, old(server.calls), io);
      }
    }

    /** Replays all files of the directory that end in .ndjson, in the order of their names; `names` is the listing. */
    method Replay(server: Server<E>, io: ReplayIo) returns (raised: bool, names: seq<string>)
      modifies this`files, server
      ensures if writable && io.listOk then IsListing(names, set n | n in old(files) && IsOverflowName(n)) else names == []
      ensures forall n :: n in names <==> writable && io.listOk && n in old(files) && EndsIn(n, ".ndjson")
      ensures var all := ReplayAll(codec, old(files), names, server.replies, old(server.calls), io);
              && files == all.files && raised == all.raised
              && server.accepted == old(server.accepted) + all.accepted && server.calls == all.calls
    {
      raised, names := false, [];
      if !writable || !io.listOk {
        return;
      }
      forall n ensures IsOverflowName(n) <==> EndsIn(n, ".ndjson") {
        OverflowNameMeans(n);
      }
      var present := set n | n in files && IsOverflowName(n);
      ghost var listing := ListingExists(present);
      names :| IsListing(names, present);
      raised := ReplayEach(names, server, io);
    }
  }

  lemma Regroup<E>(a: seq<E>, b: seq<E>, c: seq<E>)
    ensures (a + b) + c == a + (b + c)
  {
  }

  lemma NextChunk<E>(replies: nat -> Reply<()>, calls: nat, events: seq<E>, i: nat, k: nat)
    requires i < |events| && k == if |events| - i <= CHUNK then |events| - i else CHUNK
    ensures var ok := AnswerOf(replies(calls)).Delivered?;
            && Sent(replies, calls, events[i..]) == (if ok then k + Sent(replies, calls + 1, events[i + k..]) else 0)
            && CallsMade(replies, calls, events[i..]) == 1 + if ok then CallsMade(replies, calls + 1, events[i + k..]) else 0
  {
    Chunk(events, i, k);
  }

  lemma Chunk<E>(events: seq<E>, i: nat, k: nat)
    requires i + k <= |events|
    ensures events[i..][..k] == events[i..i + k] && events[i..][k..] == events[i + k..]
    ensures events[..i] + events[i..i + k] == events[..i + k]
  {
  }
}
