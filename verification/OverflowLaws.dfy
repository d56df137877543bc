/** What the disk overflow promises over whole runs of writes and replays. */
module OverflowLaws {
  import opened Wrappers
  import opened Http
  import opened FileNames
  import opened Overflow

  // ------------------------------------------------------ replay loses nothing

  /** The events a file offers: those of its lines that decode. */
  function Offered<E>(c: Codec<E>, f: File): seq<E> {
    match f case Text(text) => DecodeAll(c, Lines(text)) case Undecodable(_) => []
  }

  /** Some stretch of `all` is exactly `part`. */
  ghost predicate Contains<E(!new)>(all: seq<E>, part: seq<E>) {
    exists before, after :: all == before + (part + after)
  }

  lemma ContainsMore<E(!new)>(a: seq<E>, b: seq<E>, part: seq<E>)
    requires Contains(a, part) || part == b
    ensures Contains(a + b, part)
  {
    if Contains(a, part) {
      var before, after :| a == before + (part + after);
      assert a + b == before + (part + (after + b));
    } else {
      assert a + b == a + (part + []);
    }
  }

  lemma OneLosesNothing<E>(
    c: Codec<E>, files: map<string, File>, name: string, replies: nat -> Reply<()>, calls: nat, io: ReplayIo, path: string)
    requires path in files
    ensures var one := ReplayOne(c, files, name, replies, calls, io);
            && (path in one.files ==> one.files[path] == files[path])
            && (path !in one.files ==>
                  files[path].Text? && path !in io.unreadable && one.accepted == Offered(c, files[path]))
  {
  }

  /**
   A replay changes no file, and deletes one only if it was readable text and the server accepted all
   the events it offers, together and in order. This holds wherever the replay stopped.
   */
  lemma {:induction false} ReplayLosesNothing<E(!new)>(
    c: Codec<E>, files: map<string, File>, names: seq<string>, k: nat, replies: nat -> Reply<()>, calls: nat, io: ReplayIo, path: string)
    requires k <= |names| && path in files
    ensures var r := ReplayFirst(c, files, names, k, replies, calls, io);
            && (path in r.files ==> r.files[path] == files[path])
            && (path !in r.files ==> files[path].Text? && path !in io.unreadable && Contains(r.accepted, Offered(c, files[path])))
  {
    if k > 0 {
      ReplayLosesNothing(c, files, names, k - 1, replies, calls, io, path);
      var before := ReplayFirst(c, files, names, k - 1, replies, calls, io);
      if !before.raised {
        var one := ReplayOne(c, before.files, names[k - 1], replies, before.calls, io);
        if path in before.files {
          OneLosesNothing(c, before.files, names[k - 1], replies, before.calls, io, path);
        }
        if files[path].Text? && path !in one.files {
          ContainsMore(before.accepted, one.accepted, Offered(c, files[path]));
        }
      }
    }
  }

  /** The files of `after` are files of `before`, unchanged; nothing was dropped in between. */
  ghost predicate OnlyDeleted(before: Store, after: Store) {
    && after.dropCount == before.dropCount
    && forall p :: p in after.files ==> p in before.files && after.files[p] == before.files[p]
  }

  /** A replay never creates a file and never changes one. */
  lemma {:induction false} ReplayOnlyDeletes<E>(
    c: Codec<E>, s: Store, names: seq<string>, k: nat, replies: nat -> Reply<()>, calls: nat, io: ReplayIo)
    requires k <= |names|
    ensures OnlyDeleted(s, s.(files := ReplayFirst(c, s.files, names, k, replies, calls, io).files))
  {
    if k > 0 {
      ReplayOnlyDeletes(c, s, names, k - 1, replies, calls, io);
    }
  }

  // --------------------------------------- one file that is not UTF-8 blocks the rest

  predicate Blocking(files: map<string, File>, io: ReplayIo, path: string) {
    path in files && path !in io.unreadable && files[path].Undecodable?
  }

  lemma OneRaises<E>(c: Codec<E>, files: map<string, File>, name: string, replies: nat -> Reply<()>, calls: nat, io: ReplayIo)
    ensures ReplayOne(c, files, name, replies, calls, io).raised <==> Blocking(files, io, name)
  {
  }

  lemma BlockingStays<E(!new)>(
    c: Codec<E>, files: map<string, File>, names: seq<string>, k: nat, replies: nat -> Reply<()>, calls: nat, io: ReplayIo, path: string)
    requires k <= |names|
    ensures Blocking(ReplayFirst(c, files, names, k, replies, calls, io).files, io, path) <==> Blocking(files, io, path)
  {
    ReplayOnlyDeletes(c, Store(files, 0), names, k, replies, calls, io);
    if path in files {
      ReplayLosesNothing(c, files, names, k, replies, calls, io, path);
    }
  }

  /** The k-th file makes a replay raise exactly if it is a blocking one, whatever went before. */
  lemma StepRaises<E(!new)>(
    c: Codec<E>, files: map<string, File>, names: seq<string>, k: nat, replies: nat -> Reply<()>, calls: nat, io: ReplayIo)
    requires 0 < k <= |names|
    ensures ReplayFirst(c, files, names, k, replies, calls, io).raised
            <==> ReplayFirst(c, files, names, k - 1, replies, calls, io).raised || Blocking(files, io, names[k - 1])
  {
    var before := ReplayFirst(c, files, names, k - 1, replies, calls, io);
    OneRaises(c, before.files, names[k - 1], replies, before.calls, io);
    BlockingStays(c, files, names, k - 1, replies, calls, io, names[k - 1]);
  }

  /** Some file among the first k is readable but not UTF-8. */
  ghost predicate AnyBlocking(files: map<string, File>, io: ReplayIo, names: seq<string>, k: nat)
    requires k <= |names|
  {
    exists i :: 0 <= i < k && Blocking(files, io, names[i])
  }

  lemma AnyBlockingStep(files: map<string, File>, io: ReplayIo, names: seq<string>, k: nat)
    requires 0 < k <= |names|
    ensures AnyBlocking(files, io, names, k) <==> AnyBlocking(files, io, names, k - 1) || Blocking(files, io, names[k - 1])
  {
  }

  /** A replay raises exactly when some listed file is readable but not UTF-8. */
  lemma {:induction false} RaisesAtUndecodable<E(!new)>(
    c: Codec<E>, files: map<string, File>, names: seq<string>, k: nat, replies: nat -> Reply<()>, calls: nat, io: ReplayIo)
    requires k <= |names|
    ensures ReplayFirst(c, files, names, k, replies, calls, io).raised <==> AnyBlocking(files, io, names, k)
  {
    if k > 0 {
      RaisesAtUndecodable(c, files, names, k - 1, replies, calls, io);
      StepRaises(c, files, names, k, replies, calls, io);
      AnyBlockingStep(files, io, names, k);
    }
  }

  lemma SortedIsDistinct(names: seq<string>, k: nat, later: nat)
    requires k <= later < |names| && Sorted(names)
    ensures names[later] !in names[..k]
  {
    LexIrreflexive(names[later]);
    forall i | 0 <= i < k ensures names[..k][i] != names[later] {
      assert LexLess(names[i], names[later]);
    }
  }

  lemma {:induction false} UnlistedFilesStay<E>(
    c: Codec<E>, files: map<string, File>, names: seq<string>, k: nat, replies: nat -> Reply<()>, calls: nat, io: ReplayIo, path: string)
    requires k <= |names| && path in files && path !in names[..k]
    ensures path in ReplayFirst(c, files, names, k, replies, calls, io).files
  {
    if k > 0 {
      assert names[..k] == names[..k - 1] + [names[k - 1]];
      UnlistedFilesStay(c, files, names, k - 1, replies, calls, io, path);
    }
  }

  /**
   A file that is readable but not UTF-8 stops every replay at its turn: no file listed after it is
   ever sent or deleted, however often the replay is repeated.
   */
  lemma UndecodableBlocksTheRest<E(!new)>(
    c: Codec<E>, files: map<string, File>, names: seq<string>, k: nat, later: nat, replies: nat -> Reply<()>, calls: nat, io: ReplayIo)
    requires k < later < |names| && Sorted(names) && Blocking(files, io, names[k]) && names[later] in files
    ensures var r := ReplayAll(c, files, names, replies, calls, io);
            && r == ReplayFirst(c, files, names, k + 1, replies, calls, io)
            && names[k] in r.files && r.files[names[k]] == files[names[k]]
            && names[later] in r.files && r.files[names[later]] == files[names[later]]
  {
    assert AnyBlocking(files, io, names, k + 1);
    RaisesAtUndecodable(c, files, names, k + 1, replies, calls, io);
    RaisedStops(c, files, names, k + 1, |names|, replies, calls, io);
    SortedIsDistinct(names, k + 1, later);
    UnlistedFilesStay(c, files, names, k + 1, replies, calls, io, names[later]);
    ReplayLosesNothing(c, files, names, k + 1, replies, calls, io, names[later]);
    ReplayLosesNothing(c, files, names, k + 1, replies, calls, io, names[k]);
  }

  // ------------------------------------------------------------ size and drops

  /** One line handed to the writer, with the circumstances. */
  datatype Line = Line(text: string, io: WriteIo)

  /** A writer's life: lines written, and files removed by successful replays. */
  datatype Op = Put(line: Line) | Remove(path: string)

  function Step(s: Store, agentId: string, op: Op): Store {
    match op
    case Put(line) => Written(s, agentId, line.text, line.io)
    case Remove(path) => s.(files := s.files - {path})
  }

  function RunOps(s: Store, agentId: string, ops: seq<Op>): Store
    decreases |ops|
  {
    if ops == [] then s else Step(RunOps(s, agentId, ops[..|ops| - 1]), agentId, ops[|ops| - 1])
  }

  ghost predicate Bounded(files: map<string, File>, limit: nat) {
    forall path :: path in files ==> Size(files[path]) < 50 * 1024 * 1024 + limit
  }

  /**
   As long as the size of an existing file can be read, no file grows past the cap by more than the
   last line written to it.
   */
  lemma {:induction false} FilesStayBounded(s: Store, agentId: string, ops: seq<Op>, longest: nat)
    requires Bounded(s.files, longest + 1)
    requires forall op :: op in ops && op.Put? ==> op.line.io.statOk && |op.line.text| <= longest
    ensures Bounded(RunOps(s, agentId, ops).files, longest + 1)
    decreases |ops|
  {
    if ops != [] {
      var last := ops[|ops| - 1];
      assert last in ops;
      FilesStayBounded(s, agentId, ops[..|ops| - 1], longest);
    }
  }

  /**
   A write grows the file of its day exactly when it can append to it and the file is below 50 MiB, or
   its size cannot be read; so a file at the cap grows exactly in the latter case.
   */
  lemma FullFileGrowsExactlyWhen(s: Store, agentId: string, line: Line)
    requires FileName(agentId, line.io.day) in s.files
    ensures var path := FileName(agentId, line.io.day);
            var after := Step(s, agentId, Put(line));
            && path in after.files
            && (Size(after.files[path]) > Size(s.files[path]) <==>
                  line.io.appendOk && (Size(s.files[path]) < 50 * 1024 * 1024 || !line.io.statOk))
  {
  }

  /** The lines of a run that met a full file. */
  function Refused(s: Store, agentId: string, ops: seq<Op>): seq<Line>
    decreases |ops|
  {
    if ops == [] then [] else
      var front, last := ops[..|ops| - 1], ops[|ops| - 1];
      var before := RunOps(s, agentId, front);
      Refused(s, agentId, front)
      + if last.Put? && Full(before.files, FileName(agentId, last.line.io.day), last.line.io) then [last.line] else []
  }

  /** The drop counter counts exactly the lines refused by a full file, over any run. */
  lemma {:induction false} DropCountIsExact(s: Store, agentId: string, ops: seq<Op>)
    ensures RunOps(s, agentId, ops).dropCount == s.dropCount + |Refused(s, agentId, ops)|
    decreases |ops|
  {
    if ops != [] {
      DropCountIsExact(s, agentId, ops[..|ops| - 1]);
    }
  }

  // ------------------------------------------------- write, then read back

  datatype Writing<E> = Writing(event: E, io: WriteIo)

  function RunWrites<E>(c: Codec<E>, agentId: string, s: Store, ws: seq<Writing<E>>): Store
    decreases |ws|
  {
    if ws == [] then s else
      var last := ws[|ws| - 1];
      Written(RunWrites(c, agentId, s, ws[..|ws| - 1]), agentId, c.encode(last.event), last.io)
  }

  /** The write reaches its file: the file is this one and not full, and the append works. */
  predicate Lands(s: Store, agentId: string, path: string, io: WriteIo) {
    FileName(agentId, io.day) == path && !Full(s.files, path, io) && io.appendOk
  }

  /** The events that reached a file, in the order they were written. */
  function Landed<E>(c: Codec<E>, agentId: string, s: Store, ws: seq<Writing<E>>, path: string): seq<E>
    decreases |ws|
  {
    if ws == [] then [] else
      var front, last := ws[..|ws| - 1], ws[|ws| - 1];
      Landed(c, agentId, s, front, path)
      + if Lands(RunWrites(c, agentId, s, front), agentId, path, last.io) then [last.event] else []
  }

  /** The file, if it is there, is text that ends with a line break or is empty. */
  predicate Whole(files: map<string, File>, path: string) {
    path in files ==> files[path].Text? && (files[path].text == "" || IsBreak(files[path].text[|files[path].text| - 1]))
  }

  function OfferedBy<E>(c: Codec<E>, files: map<string, File>, path: string): seq<E> {
    if path in files then Offered(c, files[path]) else []
  }

  lemma {:induction false} NonBlankAppend(a: seq<string>, b: seq<string>)
    ensures NonBlank(a + b) == NonBlank(a) + NonBlank(b)
    decreases |a|
  {
    if a == [] {
      assert a + b == b;
    } else {
      assert (a + b)[1..] == a[1..] + b;
      NonBlankAppend(a[1..], b);
    }
  }

  /** After a line break the pieces start afresh. */
  lemma {:induction false} PiecesAppend(t: string, u: string, current: string)
    requires t != [] && IsBreak(t[|t| - 1])
    ensures var ps := Pieces(t, current);
            |ps| >= 1 && ps[|ps| - 1] == "" && Pieces(t + u, current) == ps[..|ps| - 1] + Pieces(u, "")
    decreases |t|
  {
    assert (t + u)[1..] == t[1..] + u;
    if |t| > 1 {
      var next := if IsBreak(t[0]) then "" else current + [t[0]];
      PiecesAppend(t[1..], u, next);
      var rest := Pieces(t[1..], next);
      if IsBreak(t[0]) {
        assert ([current] + rest)[..|[current] + rest| - 1] == [current] + rest[..|rest| - 1];
      }
    } else {
      assert t[1..] == [] && t[1..] + u == u;
      assert Pieces(t, current) == [current, ""];
      assert [current, ""][..1] == [current];
    }
  }

  lemma LinesAppend(t: string, u: string)
    requires t == "" || IsBreak(t[|t| - 1])
    ensures Lines(t + u) == Lines(t) + Lines(u)
  {
    if t == "" {
      assert t + u == u && Pieces("", "") == [""];
    } else {
      PiecesAppend(t, u, "");
      var ps := Pieces(t, "");
      assert ps == ps[..|ps| - 1] + [""];
      NonBlankAppend(ps[..|ps| - 1], [""]);
      NonBlankAppend(ps[..|ps| - 1], Pieces(u, ""));
    }
  }

  /** One line appended to a file of whole lines is one more event offered. */
  lemma AppendedLineIsOffered<E(!new)>(c: Codec<E>, files: map<string, File>, path: string, e: E)
    requires Faithful(c) && Whole(files, path)
    ensures var f := Extended(files, path, c.encode(e) + "\n");
            Whole(files[path := f], path) && Offered(c, f) == OfferedBy(c, files, path) + [e]
  {
    var line := c.encode(e);
    assert OneLine(line) && c.decode(line) == Some(e);
    TrimOneLine(line);
    assert line + "\n" + "" == line + "\n";
    assert Pieces("", "") == [""];
    LinesOfLine(line, '\n', "");
    DecodeOne(c, line);
    if path in files {
      LinesAppend(files[path].text, line + "\n");
      DecodeAllAppend(c, Lines(files[path].text), [line]);
    }
  }

  lemma OneWriteIsOffered<E(!new)>(c: Codec<E>, agentId: string, s: Store, w: Writing<E>, path: string)
    requires Faithful(c) && Whole(s.files, path)
    ensures var t := Written(s, agentId, c.encode(w.event), w.io);
            && Whole(t.files, path)
            && OfferedBy(c, t.files, path) == OfferedBy(c, s.files, path) + if Lands(s, agentId, path, w.io) then [w.event] else []
  {
    if Lands(s, agentId, path, w.io) {
      AppendedLineIsOffered(c, s.files, path, w.event);
    }
  }

  lemma Regroup<E>(a: seq<E>, b: seq<E>, c: seq<E>)
    ensures (a + b) + c == a + (b + c)
  {
  }

  /**
   Written events are offered for replay, file by file, exactly as they were written: whatever the
   store, the days and the faults, a file of whole lines offers what it offered before and then the
   events that reached it, in order.
   */
  lemma {:induction false} WrittenEventsAreOffered<E(!new)>(c: Codec<E>, agentId: string, s: Store, ws: seq<Writing<E>>, path: string)
    requires Faithful(c) && Whole(s.files, path)
    ensures var t := RunWrites(c, agentId, s, ws);
            && Whole(t.files, path)
            && OfferedBy(c, t.files, path) == OfferedBy(c, s.files, path) + Landed(c, agentId, s, ws, path)
    decreases |ws|
  {
    if ws != [] {
      var front, last := ws[..|ws| - 1], ws[|ws| - 1];
      var most := RunWrites(c, agentId, s, front);
      WrittenEventsAreOffered(c, agentId, s, front, path);
      OneWriteIsOffered(c, agentId, most, last, path);
      var one := if Lands(most, agentId, path, last.io) then [last.event] else [];
      Regroup(OfferedBy(c, s.files, path), Landed(c, agentId, s, front, path), one);
    }
  }

  /** A file after some events have been appended to it, one line each. */
  function Grown<E>(c: Codec<E>, f: File, events: seq<E>): File
    decreases |events|
  {
    if events == [] then f
    else Longer(Grown(c, f, events[..|events| - 1]), c.encode(events[|events| - 1]) + "\n")
  }

  lemma GrownByOne<E>(c: Codec<E>, f: File, events: seq<E>, e: E)
    ensures Grown(c, f, events + [e]) == Longer(Grown(c, f, events), c.encode(e) + "\n")
  {
    assert (events + [e])[..|events|] == events;
  }

  lemma OneWriteAppends(agentId: string, s: Store, line: string, io: WriteIo, path: string)
    requires path in s.files
    ensures var t := Written(s, agentId, line, io);
            && path in t.files
            && t.files[path] == if Lands(s, agentId, path, io) then Longer(s.files[path], line + "\n") else s.files[path]
  {
  }

  /** Writes change a file that is there by appending to it the lines that reach it, and in no other way. */
  lemma {:induction false} WritesOnlyAppend<E>(c: Codec<E>, agentId: string, s: Store, ws: seq<Writing<E>>, path: string)
    requires path in s.files
    ensures var t := RunWrites(c, agentId, s, ws);
            path in t.files && t.files[path] == Grown(c, s.files[path], Landed(c, agentId, s, ws, path))
    decreases |ws|
  {
    if ws != [] {
      var front, last := ws[..|ws| - 1], ws[|ws| - 1];
      WritesOnlyAppend(c, agentId, s, front, path);
      OneWriteAppends(agentId, RunWrites(c, agentId, s, front), c.encode(last.event), last.io, path);
      var landed := Landed(c, agentId, s, front, path);
      GrownByOne(c, s.files[path], landed, last.event);
      assert landed + [] == landed;
    }
  }

  // ----------------------------------------------------- replayed across all files

  /** What the first k files offer, one file after another. */
  function OfferedFirst<E>(c: Codec<E>, files: map<string, File>, names: seq<string>, k: nat): seq<E>
    requires k <= |names|
  {
    if k == 0 then [] else OfferedFirst(c, files, names, k - 1) + OfferedBy(c, files, names[k - 1])
  }

  ghost predicate AlwaysUp(replies: nat -> Reply<()>) {
    forall i: nat :: AnswerOf(replies(i)).Delivered?
  }

  /** The server is up, and nothing is in the way of the replay. */
  ghost predicate Unhindered(files: map<string, File>, names: seq<string>, replies: nat -> Reply<()>, io: ReplayIo) {
    && AlwaysUp(replies)
    && (forall n :: n in names ==> n in files && files[n].Text? && n !in io.unreadable && n !in io.undeletable)
  }

  lemma {:induction false} AllSent<E>(replies: nat -> Reply<()>, calls: nat, events: seq<E>)
    requires AlwaysUp(replies)
    ensures Sent(replies, calls, events) == |events|
    decreases |events|
  {
    if events != [] {
      var k := if |events| <= CHUNK then |events| else CHUNK;
      AllSent(replies, calls + 1, events[k..]);
    }
  }

  lemma OneReplayed<E>(c: Codec<E>, files: map<string, File>, path: string, replies: nat -> Reply<()>, calls: nat, io: ReplayIo)
    requires AlwaysUp(replies)
    requires path in files && files[path].Text? && path !in io.unreadable && path !in io.undeletable
    ensures var one := ReplayOne(c, files, path, replies, calls, io);
            !one.raised && one.files == files - {path} && one.accepted == Offered(c, files[path])
  {
    AllSent(replies, calls, Offered(c, files[path]));
  }

  /** The files without the first k listed ones. */
  function Without(files: map<string, File>, names: seq<string>, k: nat): map<string, File>
    requires k <= |names|
  {
    if k == 0 then files else Without(files, names, k - 1) - {names[k - 1]}
  }

  lemma {:induction false} WithoutMeans(files: map<string, File>, names: seq<string>, k: nat, n: string)
    requires k <= |names|
    ensures n in Without(files, names, k) <==> n in files && n !in names[..k]
    ensures n in Without(files, names, k) ==> Without(files, names, k)[n] == files[n]
  {
    if k > 0 {
      WithoutMeans(files, names, k - 1, n);
      assert names[..k] == names[..k - 1] + [names[k - 1]];
    }
  }

  /**
   Unhindered, a replay sends everything that the listed files offer, file after file in the order of
   the listing, which for one agent is the order of the days, and deletes just those files.
   */
  lemma {:induction false} EverythingIsReplayed<E>(
    c: Codec<E>, files: map<string, File>, names: seq<string>, k: nat, replies: nat -> Reply<()>, calls: nat, io: ReplayIo)
    requires k <= |names| && Sorted(names) && Unhindered(files, names, replies, io)
    ensures var r := ReplayFirst(c, files, names, k, replies, calls, io);
            !r.raised && r.accepted == OfferedFirst(c, files, names, k) && r.files == Without(files, names, k)
  {
    if k > 0 {
      EverythingIsReplayed(c, files, names, k - 1, replies, calls, io);
      ReplayOneMore(c, files, names, k, replies, calls, io);
      NextIsReplayed(c, files, names, k, replies, ReplayFirst(c, files, names, k - 1, replies, calls, io).calls, io);
    }
  }

  lemma ReplayOneMore<E>(
    c: Codec<E>, files: map<string, File>, names: seq<string>, k: nat, replies: nat -> Reply<()>, calls: nat, io: ReplayIo)
    requires 0 < k <= |names| && !ReplayFirst(c, files, names, k - 1, replies, calls, io).raised
    ensures var before := ReplayFirst(c, files, names, k - 1, replies, calls, io);
            var one := ReplayOne(c, before.files, names[k - 1], replies, before.calls, io);
            ReplayFirst(c, files, names, k, replies, calls, io)
            == Replayed(one.files, before.accepted + one.accepted, one.calls, one.raised)
  {
  }

  lemma NextIsReplayed<E>(
    c: Codec<E>, files: map<string, File>, names: seq<string>, k: nat, replies: nat -> Reply<()>, calls: nat, io: ReplayIo)
    requires 0 < k <= |names| && Sorted(names) && Unhindered(files, names, replies, io)
    ensures var one := ReplayOne(c, Without(files, names, k - 1), names[k - 1], replies, calls, io);
            !one.raised && one.files == Without(files, names, k) && one.accepted == OfferedBy(c, files, names[k - 1])
  {
    var name := names[k - 1];
    assert name in names;
    SortedIsDistinct(names, k - 1, k - 1);
    WithoutMeans(files, names, k - 1, name);
    OneReplayed(c, Without(files, names, k - 1), name, replies, calls, io);
  }

  /** End to end: what a run of writes left in each file is what an unhindered replay sends, in listing order. */
  lemma WrittenEventsAreReplayed<E(!new)>(
    c: Codec<E>, agentId: string, s: Store, ws: seq<Writing<E>>, names: seq<string>,
    replies: nat -> Reply<()>, calls: nat, io: ReplayIo)
    requires Faithful(c) && Sorted(names) && (forall n :: n in names ==> Whole(s.files, n))
    requires Unhindered(RunWrites(c, agentId, s, ws).files, names, replies, io)
    ensures var r := ReplayAll(c, RunWrites(c, agentId, s, ws).files, names, replies, calls, io);
            && r.accepted == OfferedAndLanded(c, agentId, s, ws, names, |names|)
            && forall n :: n in r.files <==> n in RunWrites(c, agentId, s, ws).files && n !in names
  {
    var files := RunWrites(c, agentId, s, ws).files;
    EverythingIsReplayed(c, files, names, |names|, replies, calls, io);
    assert names[..|names|] == names;
    forall n ensures n in Without(files, names, |names|) <==> n in files && n !in names {
      WithoutMeans(files, names, |names|, n);
    }
    SumOfFiles(c, agentId, s, ws, names, |names|);
  }

  /** For each of the first k files: what it offered before the writes, then what reached it. */
  function OfferedAndLanded<E>(c: Codec<E>, agentId: string, s: Store, ws: seq<Writing<E>>, names: seq<string>, k: nat): seq<E>
    requires k <= |names|
  {
    if k == 0 then [] else
      OfferedAndLanded(c, agentId, s, ws, names, k - 1)
      + (OfferedBy(c, s.files, names[k - 1]) + Landed(c, agentId, s, ws, names[k - 1]))
  }

  lemma {:induction false} SumOfFiles<E(!new)>(c: Codec<E>, agentId: string, s: Store, ws: seq<Writing<E>>, names: seq<string>, k: nat)
    requires Faithful(c) && k <= |names| && forall n :: n in names ==> Whole(s.files, n)
    ensures OfferedFirst(c, RunWrites(c, agentId, s, ws).files, names, k) == OfferedAndLanded(c, agentId, s, ws, names, k)
  {
    if k > 0 {
      SumOfFiles(c, agentId, s, ws, names, k - 1);
      WrittenEventsAreOffered(c, agentId, s, ws, names[k - 1]);
    }
  }

  // -------------------------------------------- what is written is what is replayed

  /** The name of a file that a write creates, letter by letter: it is one that a replay lists. */
  lemma WrittenNames(agentId: string, day: string)
    ensures FileName(agentId, day) == agentId + "_" + day + ".ndjson"
    ensures EndsIn(FileName(agentId, day), ".ndjson") && IsOverflowName(FileName(agentId, day))
  {
    assert FileName(agentId, day) == (agentId + "_" + day) + ".ndjson";
    OverflowNameMeans(FileName(agentId, day));
  }

  const NO_FILES: Store := Store(map[], 0)

  /** From an empty directory on, every file is of the agent and some day, of whole lines, and will be listed. */
  lemma {:induction false} WrittenFiles<E(!new)>(c: Codec<E>, agentId: string, ws: seq<Writing<E>>, path: string)
    requires Faithful(c) && path in RunWrites(c, agentId, NO_FILES, ws).files
    ensures RunWrites(c, agentId, NO_FILES, ws).files[path].Text?
    ensures exists w :: w in ws && path == agentId + "_" + w.io.day + ".ndjson"
    ensures EndsIn(path, ".ndjson") && IsOverflowName(path)
    decreases |ws|
  {
    WrittenEventsAreOffered(c, agentId, NO_FILES, ws, path);
    var front, last := ws[..|ws| - 1], ws[|ws| - 1];
    if path in RunWrites(c, agentId, NO_FILES, front).files {
      WrittenFiles(c, agentId, front, path);
      var w :| w in front && path == agentId + "_" + w.io.day + ".ndjson";
      assert w in ws;
    } else {
      WrittenNames(agentId, last.io.day);
      assert last in ws;
    }
  }

  /** What reached each of the first k files, one file after another. */
  function LandedFirst<E>(c: Codec<E>, agentId: string, ws: seq<Writing<E>>, names: seq<string>, k: nat): seq<E>
    requires k <= |names|
  {
    if k == 0 then [] else LandedFirst(c, agentId, ws, names, k - 1) + Landed(c, agentId, NO_FILES, ws, names[k - 1])
  }

  lemma {:induction false} LandedIsOffered<E(!new)>(c: Codec<E>, agentId: string, ws: seq<Writing<E>>, names: seq<string>, k: nat)
    requires k <= |names|
    ensures OfferedAndLanded(c, agentId, NO_FILES, ws, names, k) == LandedFirst(c, agentId, ws, names, k)
  {
    if k > 0 {
      LandedIsOffered(c, agentId, ws, names, k - 1);
      assert [] + Landed(c, agentId, NO_FILES, ws, names[k - 1]) == Landed(c, agentId, NO_FILES, ws, names[k - 1]);
    }
  }

  /**
   The overflow as a whole. Whatever an agent has written to an empty directory, on whatever days and
   with whatever faults, the next replay that meets none sends exactly what reached each file, file
   after file, and leaves the directory empty: all the files that writes create are files that replays list.
   */
  lemma EverythingWrittenIsReplayed<E(!new)>(
    c: Codec<E>, agentId: string, ws: seq<Writing<E>>, names: seq<string>, replies: nat -> Reply<()>, calls: nat, io: ReplayIo)
    requires Faithful(c) && AlwaysUp(replies) && io.unreadable == {} && io.undeletable == {}
    requires var files := RunWrites(c, agentId, NO_FILES, ws).files;
             IsListing(names, set n | n in files && IsOverflowName(n))
    ensures var files := RunWrites(c, agentId, NO_FILES, ws).files;
            var r := ReplayAll(c, files, names, replies, calls, io);
            && IsListing(names, files.Keys)
            && r.files == map[] && !r.raised && r.accepted == LandedFirst(c, agentId, ws, names, |names|)
  {
    var files := RunWrites(c, agentId, NO_FILES, ws).files;
    forall n | n in files ensures files[n].Text? && IsOverflowName(n) {
      WrittenFiles(c, agentId, ws, n);
    }
    EverythingIsReplayed(c, files, names, |names|, replies, calls, io);
    WrittenEventsAreReplayed(c, agentId, NO_FILES, ws, names, replies, calls, io);
    LandedIsOffered(c, agentId, ws, names, |names|);
  }

  /** The same of the writer itself: a life of writes and then a replay, from an empty directory to an empty one. */
  method WriteThenReplay<E(!new)>(c: Codec<E>, agentId: string, ws: seq<Writing<E>>, server: Server<E>, io: ReplayIo)
    returns (writer: OverflowWriter<E>, names: seq<string>)
    requires Faithful(c) && agentId != ""
    requires AlwaysUp(server.replies) && io.listOk && io.unreadable == {} && io.undeletable == {}
    modifies server
    ensures fresh(writer) && writer.files == map[]
    ensures IsListing(names, RunWrites(c, agentId, NO_FILES, ws).files.Keys)
    ensures server.accepted == old(server.accepted) + LandedFirst(c, agentId, ws, names, |names|)
  {
    writer := new OverflowWriter(c, agentId, true, map[]);
    for i := 0 to |ws|
      invariant fresh(writer) && writer.writable && writer.codec == c && writer.agentId == agentId
      invariant writer.State() == RunWrites(c, agentId, NO_FILES, ws[..i])
      invariant server.accepted == old(server.accepted) && server.calls == old(server.calls)
    {
      assert ws[..i + 1][..i] == ws[..i];
      writer.Write(ws[i].event, ws[i].io);
    }
    assert ws[..|ws|] == ws;
    var raised;
    raised, names := writer.Replay(server, io);
    EverythingWrittenIsReplayed(c, agentId, ws, names, server.replies, old(server.calls), io);
  }

  /** A file under any other name is neither read nor deleted nor changed. */
  lemma OtherNamesAreLeftAlone<E(!new)>(
    c: Codec<E>, files: map<string, File>, names: seq<string>, replies: nat -> Reply<()>, calls: nat, io: ReplayIo, path: string)
    requires IsListing(names, set n | n in files && IsOverflowName(n))
    requires path in files && !EndsIn(path, ".ndjson")
    ensures var r := ReplayAll(c, files, names, replies, calls, io);
            path in r.files && r.files[path] == files[path]
    ensures ReplayAll(c, files - {path}, names, replies, calls, io).accepted == ReplayAll(c, files, names, replies, calls, io).accepted
  {
    OverflowNameMeans(path);
    assert names[..|names|] == names;
    UnlistedFilesStay(c, files, names, |names|, replies, calls, io, path);
    ReplayOnlyDeletes(c, Store(files, 0), names, |names|, replies, calls, io);
    UnlistedIsNotSent(c, files, names, |names|, replies, calls, io, path);
  }

  lemma {:induction false} UnlistedIsNotSent<E>(
    c: Codec<E>, files: map<string, File>, names: seq<string>, k: nat, replies: nat -> Reply<()>, calls: nat, io: ReplayIo, path: string)
    requires k <= |names| && path !in names
    ensures var r, q := ReplayFirst(c, files, names, k, replies, calls, io), ReplayFirst(c, files - {path}, names, k, replies, calls, io);
            q.files == r.files - {path} && q.accepted == r.accepted && q.calls == r.calls && q.raised == r.raised
  {
    if k > 0 {
      UnlistedIsNotSent(c, files, names, k - 1, replies, calls, io, path);
      var before := ReplayFirst(c, files, names, k - 1, replies, calls, io);
      if !before.raised {
        assert names[k - 1] != path;
        UnlistedIsNotRead(c, before.files, names[k - 1], replies, before.calls, io, path);
      }
    }
  }

  lemma UnlistedIsNotRead<E>(
    c: Codec<E>, files: map<string, File>, name: string, replies: nat -> Reply<()>, calls: nat, io: ReplayIo, path: string)
    requires name != path
    ensures var r, q := ReplayOne(c, files, name, replies, calls, io), ReplayOne(c, files - {path}, name, replies, calls, io);
            q.files == r.files - {path} && q.accepted == r.accepted && q.calls == r.calls && q.raised == r.raised
  {
    assert (files - {path}) - {name} == (files - {name}) - {path};
  }

  /** An unhindered replay of a directory leaves just the files that no writer wrote. */
  lemma OnlyOtherNamesAreLeft<E(!new)>(
    c: Codec<E>, files: map<string, File>, names: seq<string>, replies: nat -> Reply<()>, calls: nat, io: ReplayIo, n: string)
    requires IsListing(names, set n | n in files && IsOverflowName(n)) && Unhindered(files, names, replies, io)
    ensures var r := ReplayAll(c, files, names, replies, calls, io);
            && !r.raised && r.accepted == OfferedFirst(c, files, names, |names|)
            && (n in r.files <==> n in files && !EndsIn(n, ".ndjson")) && (n in r.files ==> r.files[n] == files[n])
  {
    EverythingIsReplayed(c, files, names, |names|, replies, calls, io);
    assert names[..|names|] == names;
    WithoutMeans(files, names, |names|, n);
    OverflowNameMeans(n);
  }

  // ---------------------------------------------------- each file has its own turn

  /**
   Which files a replay deletes: unless one before it cannot be decoded, a listed file goes exactly if
   every chunk of what it offers is accepted at its turn and it can be deleted. What the server made of
   the files before it does not matter.
   */
  lemma DeletedExactlyWhen<E(!new)>(
    c: Codec<E>, files: map<string, File>, names: seq<string>, k: nat, replies: nat -> Reply<()>, calls: nat, io: ReplayIo)
    requires k < |names| && Sorted(names) && names[k] in files && !AnyBlocking(files, io, names, k + 1)
    ensures var turn := ReplayFirst(c, files, names, k, replies, calls, io).calls;
            names[k] !in ReplayAll(c, files, names, replies, calls, io).files <==>
              && names[k] !in io.unreadable && names[k] !in io.undeletable
              && Sent(replies, turn, Offered(c, files[names[k]])) == |Offered(c, files[names[k]])|
  {
    OwnTurnDecides(c, files, names, k, replies, calls, io);
    LaterNamesDiffer(names, k);
    LaterFilesLeave(c, files, names, k + 1, |names|, replies, calls, io, names[k]);
  }

  lemma LaterNamesDiffer(names: seq<string>, k: nat)
    requires k < |names| && Sorted(names)
    ensures names[k] !in names[k + 1..|names|]
  {
    LexIrreflexive(names[k]);
    forall i | k < i < |names| ensures names[i] != names[k] {
      assert LexLess(names[k], names[i]);
    }
  }

  lemma OwnTurnDecides<E(!new)>(
    c: Codec<E>, files: map<string, File>, names: seq<string>, k: nat, replies: nat -> Reply<()>, calls: nat, io: ReplayIo)
    requires k < |names| && Sorted(names) && names[k] in files && !AnyBlocking(files, io, names, k + 1)
    ensures var turn := ReplayFirst(c, files, names, k, replies, calls, io).calls;
            names[k] !in ReplayFirst(c, files, names, k + 1, replies, calls, io).files <==>
              && names[k] !in io.unreadable && names[k] !in io.undeletable
              && Sent(replies, turn, Offered(c, files[names[k]])) == |Offered(c, files[names[k]])|
  {
    var before := ReplayFirst(c, files, names, k, replies, calls, io);
    AnyBlockingStep(files, io, names, k + 1);
    RaisesAtUndecodable(c, files, names, k, replies, calls, io);
    SortedIsDistinct(names, k, k);
    UnlistedFilesStay(c, files, names, k, replies, calls, io, names[k]);
    ReplayLosesNothing(c, files, names, k, replies, calls, io, names[k]);
    ReplayOneMore(c, files, names, k + 1, replies, calls, io);
    OneDeletes(c, before.files, names[k], replies, before.calls, io);
  }

  lemma OneDeletes<E>(c: Codec<E>, files: map<string, File>, path: string, replies: nat -> Reply<()>, calls: nat, io: ReplayIo)
    requires path in files && !Blocking(files, io, path)
    ensures path !in ReplayOne(c, files, path, replies, calls, io).files <==>
              && path !in io.unreadable && path !in io.undeletable
              && Sent(replies, calls, Offered(c, files[path])) == |Offered(c, files[path])|
  {
  }

  lemma OtherFileLeaves<E>(
    c: Codec<E>, files: map<string, File>, names: seq<string>, k: nat, replies: nat -> Reply<()>, calls: nat, io: ReplayIo, path: string)
    requires 0 < k <= |names| && names[k - 1] != path
    ensures path in ReplayFirst(c, files, names, k, replies, calls, io).files
            <==> path in ReplayFirst(c, files, names, k - 1, replies, calls, io).files
  {
  }

  /** A file whose turn is over stays as it is for the rest of the replay. */
  lemma {:induction false} LaterFilesLeave<E(!new)>(
    c: Codec<E>, files: map<string, File>, names: seq<string>, k: nat, m: nat, replies: nat -> Reply<()>, calls: nat, io: ReplayIo, path: string)
    requires k <= m <= |names| && path !in names[k..m]
    ensures path in ReplayFirst(c, files, names, m, replies, calls, io).files
            <==> path in ReplayFirst(c, files, names, k, replies, calls, io).files
    decreases m
  {
    if k < m {
      assert names[k..m] == names[k..m - 1] + [names[m - 1]];
      LaterFilesLeave(c, files, names, k, m - 1, replies, calls, io, path);
      OtherFileLeaves(c, files, names, m, replies, calls, io, path);
    }
  }
}
