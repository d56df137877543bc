/**
 Several threads writing to the overflow at once. A write is not one step: it tests the size of the
 file and then appends to it, or raises the drop counter by reading it and storing it back, and
 nothing keeps other writers out in between.

 A run is a sequence of states and the actions between them. The theorems say how far a file can grow
 past its cap, when a full file still grows, and when the drop counter is exact.
 */
module OverflowWriters {
  import opened FileNames
  import opened Overflow

  /** Where a writer is. */
  datatype Phase =
    | Idle
    | Passed(line: string, io: WriteIo)   // found room, about to append
    | TurnedAway                             // found none, about to read the counter
    | Counting(seen: nat)                 // about to store the counter

  /** `refusals` counts the refused writes that are over. */
  datatype State = State(store: Store, writers: seq<Phase>, refusals: nat)

  datatype Action =
    | Check(w: nat, line: string, io: WriteIo)
    | Append(w: nat)
    | Load(w: nat)
    | Bump(w: nat)
    | Remove(path: string)   // a replayer deletes a file

  predicate Enabled(s: State, a: Action) {
    match a
    case Check(w, _, _) => w < |s.writers| && s.writers[w].Idle?
    case Append(w) => w < |s.writers| && s.writers[w].Passed?
    case Load(w) => w < |s.writers| && s.writers[w].TurnedAway?
    case Bump(w) => w < |s.writers| && s.writers[w].Counting?
    case Remove(_) => true
  }

  function Move(s: State, w: nat, p: Phase): State
    requires w < |s.writers|
  {
    s.(writers := s.writers[w := p])
  }

  function AppendBy(agentId: string, s: State, w: nat): State
    requires Enabled(s, Append(w))
  {
    var p := s.writers[w];
    var path := FileName(agentId, p.io.day);
    var s' := Move(s, w, Idle);
    if p.io.appendOk
    then s'.(store := s.store.(files := s.store.files[path := Extended(s.store.files, path, p.line + "\n")]))
    else s'
  }

  function Do(agentId: string, s: State, a: Action): State
    requires Enabled(s, a)
  {
    match a
    case Check(w, line, io) =>
      Move(s, w, if Full(s.store.files, FileName(agentId, io.day), io) then TurnedAway else Passed(line, io))
    case Append(w) => AppendBy(agentId, s, w)
    case Load(w) => Move(s, w, Counting(s.store.dropCount))
    case Bump(w) =>
      Move(s, w, Idle).(store := s.store.(dropCount := s.writers[w].seen + 1), refusals := s.refusals + 1)
    case Remove(path) => s.(store := s.store.(files := s.store.files - {path}))
  }

  ghost predicate IsRun(agentId: string, states: seq<State>, actions: seq<Action>) {
    && |states| == |actions| + 1
    && forall i :: 0 <= i < |actions| ==> Enabled(states[i], actions[i]) && states[i + 1] == Do(agentId, states[i], actions[i])
  }

  /** A write that nobody interrupts is the write of the sequential model. */
  lemma UninterruptedWrite(agentId: string, s: State, w: nat, line: string, io: WriteIo)
    requires Enabled(s, Check(w, line, io))
    ensures var s1 := Do(agentId, s, Check(w, line, io));
            if s1.writers[w].Passed? then Do(agentId, s1, Append(w)).store == Written(s.store, agentId, line, io)
            else Enabled(s1, Load(w)) && Enabled(Do(agentId, s1, Load(w)), Bump(w))
                 && Do(agentId, Do(agentId, s1, Load(w)), Bump(w)).store == Written(s.store, agentId, line, io)
  {
  }

  // ------------------------------------------------------- how far a file grows

  function SizeOf(s: State, path: string): nat {
    if path in s.store.files then Size(s.store.files[path]) else 0
  }

  predicate HasPassed(agentId: string, p: Phase, path: string) {
    p.Passed? && FileName(agentId, p.io.day) == path
  }

  /** How many of the first n writers are between their check and their append to a file. */
  function PassedTo(agentId: string, writers: seq<Phase>, n: nat, path: string): nat
    requires n <= |writers|
  {
    if n == 0 then 0 else
      PassedTo(agentId, writers, n - 1, path) + if HasPassed(agentId, writers[n - 1], path) then 1 else 0
  }

  function PassedBy(agentId: string, s: State, path: string): nat {
    PassedTo(agentId, s.writers, |s.writers|, path)
  }

  /** How many bytes those of the first n writers are about to add. */
  function PendingTo(agentId: string, writers: seq<Phase>, n: nat, path: string): nat
    requires n <= |writers|
  {
    if n == 0 then 0 else
      PendingTo(agentId, writers, n - 1, path)
      + if HasPassed(agentId, writers[n - 1], path) then |writers[n - 1].line| + 1 else 0
  }

  function Pending(agentId: string, s: State, path: string): nat {
    PendingTo(agentId, s.writers, |s.writers|, path)
  }

  function Weight(agentId: string, p: Phase, path: string): nat {
    if HasPassed(agentId, p, path) then |p.line| + 1 else 0
  }

  lemma {:induction false} PendingMove(agentId: string, writers: seq<Phase>, w: nat, p: Phase, n: nat, path: string)
    requires w < |writers| && n <= |writers|
    ensures PendingTo(agentId, writers[w := p], n, path) + (if w < n then Weight(agentId, writers[w], path) else 0)
            == PendingTo(agentId, writers, n, path) + (if w < n then Weight(agentId, p, path) else 0)
  {
    if n > 0 {
      PendingMove(agentId, writers, w, p, n - 1, path);
    }
  }

  /** Every line waiting to be appended, its break included, is at most so long. */
  ghost predicate ShortLines(s: State, longest: nat) {
    forall w :: 0 <= w < |s.writers| && s.writers[w].Passed? ==> |s.writers[w].line| + 1 <= longest
  }

  lemma {:induction false} PendingBound(agentId: string, writers: seq<Phase>, n: nat, path: string, longest: nat)
    requires n <= |writers|
    requires forall w :: 0 <= w < |writers| && writers[w].Passed? ==> |writers[w].line| + 1 <= longest
    ensures PendingTo(agentId, writers, n, path) <= PassedTo(agentId, writers, n, path) * longest
  {
    if n > 0 {
      PendingBound(agentId, writers, n - 1, path, longest);
    }
  }

  lemma Times(a: nat, b: nat, c: nat)
    requires a <= b
    ensures a * c <= b * c
  {
  }

  /** All lines are short and all sizes can be read. */
  ghost predicate Ordinary(actions: seq<Action>, longest: nat) {
    forall i :: 0 <= i < |actions| && actions[i].Check? ==> actions[i].io.statOk && |actions[i].line| + 1 <= longest
  }

  /** At no time are more than m writers between their check and their append to the same file. */
  ghost predicate AtMost(agentId: string, states: seq<State>, m: nat) {
    forall i, path :: 0 <= i < |states| ==> PassedBy(agentId, states[i], path) <= m
  }

  ghost predicate NobodyWrites(s: State) {
    forall w :: 0 <= w < |s.writers| ==> s.writers[w].Idle?
  }

  /** No writer under way, and every file has room. */
  ghost predicate Start(s: State) {
    && NobodyWrites(s)
    && (forall path :: path in s.store.files ==> Size(s.store.files[path]) < MAX_FILE_BYTES)
  }

  /** What is in the file and what is about to be, together. */
  ghost predicate Within(agentId: string, s: State, m: nat, longest: nat) {
    && ShortLines(s, longest)
    && forall path :: SizeOf(s, path) + Pending(agentId, s, path) < MAX_FILE_BYTES + m * longest
  }

  lemma CheckStaysWithin(agentId: string, s: State, a: Action, m: nat, longest: nat, path: string)
    requires Within(agentId, s, m, longest) && Enabled(s, a) && a.Check? && a.io.statOk && |a.line| + 1 <= longest
    requires PassedBy(agentId, Do(agentId, s, a), path) <= m
    ensures var t := Do(agentId, s, a);
            SizeOf(t, path) + Pending(agentId, t, path) < MAX_FILE_BYTES + m * longest
  {
    var t := Do(agentId, s, a);
    assert SizeOf(s, path) + Pending(agentId, s, path) < MAX_FILE_BYTES + m * longest;
    PendingMove(agentId, s.writers, a.w, t.writers[a.w], |s.writers|, path);
    assert t.writers == s.writers[a.w := t.writers[a.w]];
    if HasPassed(agentId, t.writers[a.w], path) {
      assert SizeOf(t, path) < MAX_FILE_BYTES;
      assert ShortLines(t, longest);
      PendingBound(agentId, t.writers, |t.writers|, path, longest);
      Times(PassedBy(agentId, t, path), m, longest);
    }
  }

  lemma OtherStaysWithin(agentId: string, s: State, a: Action, m: nat, longest: nat, path: string)
    requires Within(agentId, s, m, longest) && Enabled(s, a) && !a.Check?
    ensures var t := Do(agentId, s, a);
            SizeOf(t, path) + Pending(agentId, t, path) < MAX_FILE_BYTES + m * longest
  {
    var t := Do(agentId, s, a);
    assert SizeOf(s, path) + Pending(agentId, s, path) < MAX_FILE_BYTES + m * longest;
    if !a.Remove? {
      PendingMove(agentId, s.writers, a.w, t.writers[a.w], |s.writers|, path);
      assert t.writers == s.writers[a.w := t.writers[a.w]];
    }
    if a.Append? {
      AppendSize(agentId, s, a.w, path);
    }
  }

  /** An append adds to its own file what was pending, and nothing to any other. */
  lemma AppendSize(agentId: string, s: State, w: nat, path: string)
    requires Enabled(s, Append(w))
    ensures var t := AppendBy(agentId, s, w);
            SizeOf(t, path) == SizeOf(s, path) + if s.writers[w].io.appendOk then Weight(agentId, s.writers[w], path) else 0
  {
  }

  lemma {:induction false} RunStaysWithin(agentId: string, states: seq<State>, actions: seq<Action>, m: nat, longest: nat, k: nat)
    requires IsRun(agentId, states, actions) && Start(states[0]) && Ordinary(actions, longest) && AtMost(agentId, states, m)
    requires k <= |actions|
    ensures Within(agentId, states[k], m, longest)
  {
    if k == 0 {
      forall path ensures Pending(agentId, states[0], path) == 0 {
        IdlePend(agentId, states[0].writers, |states[0].writers|, path);
      }
    } else {
      RunStaysWithin(agentId, states, actions, m, longest, k - 1);
      var s, a := states[k - 1], actions[k - 1];
      forall path ensures SizeOf(states[k], path) + Pending(agentId, states[k], path) < MAX_FILE_BYTES + m * longest {
        if a.Check? {
          assert PassedBy(agentId, states[k], path) <= m;
          CheckStaysWithin(agentId, s, a, m, longest, path);
        } else {
          OtherStaysWithin(agentId, s, a, m, longest, path);
        }
      }
    }
  }

  lemma {:induction false} IdlePend(agentId: string, writers: seq<Phase>, n: nat, path: string)
    requires n <= |writers| && forall w :: 0 <= w < n ==> !writers[w].Passed?
    ensures PendingTo(agentId, writers, n, path) == 0 && PassedTo(agentId, writers, n, path) == 0
  {
    if n > 0 {
      IdlePend(agentId, writers, n - 1, path);
    }
  }

  /** If at most m writers overlap on a file, it stays below its cap plus m lines. */
  lemma FilesStayBounded(agentId: string, states: seq<State>, actions: seq<Action>, m: nat, longest: nat, k: nat, path: string)
    requires IsRun(agentId, states, actions) && Start(states[0]) && Ordinary(actions, longest) && AtMost(agentId, states, m)
    requires k <= |actions|
    ensures SizeOf(states[k], path) < MAX_FILE_BYTES + m * longest
  {
    RunStaysWithin(agentId, states, actions, m, longest, k);
  }

  /** Whatever the schedule, N writers cannot take a file further than N lines past its cap. */
  lemma AnyScheduleIsBounded(agentId: string, states: seq<State>, actions: seq<Action>, longest: nat, k: nat, path: string)
    requires IsRun(agentId, states, actions) && Start(states[0]) && Ordinary(actions, longest) && k <= |actions|
    ensures SizeOf(states[k], path) < MAX_FILE_BYTES + |states[0].writers| * longest
  {
    var n := |states[0].writers|;
    forall i, p | 0 <= i < |states| ensures PassedBy(agentId, states[i], p) <= n {
      SameWriters(agentId, states, actions, i);
      PassedAtMost(agentId, states[i].writers, n, n, p);
    }
    FilesStayBounded(agentId, states, actions, n, longest, k, path);
  }

  lemma {:induction false} SameWriters(agentId: string, states: seq<State>, actions: seq<Action>, k: nat)
    requires IsRun(agentId, states, actions) && k <= |actions|
    ensures |states[k].writers| == |states[0].writers|
  {
    if k > 0 {
      SameWriters(agentId, states, actions, k - 1);
    }
  }

  lemma {:induction false} PassedAtMost(agentId: string, writers: seq<Phase>, n: nat, m: nat, path: string)
    requires n <= |writers| && forall w :: m <= w < n ==> !writers[w].Passed?
    ensures PassedTo(agentId, writers, n, path) <= m && PassedTo(agentId, writers, n, path) <= n
  {
    if n > 0 {
      PassedAtMost(agentId, writers, n - 1, m, path);
    }
  }

  // -------------------------------------------------------- the bound is exact

  ghost predicate Bounded(agentId: string, n: nat, m: nat, longest: nat, lines: nat) {
    forall states: seq<State>, actions: seq<Action>, k: nat, path: string ::
      IsRun(agentId, states, actions) && Start(states[0]) && |states[0].writers| == n && Ordinary(actions, longest)
      && AtMost(agentId, states, m) && k <= |actions|
      ==> SizeOf(states[k], path) < MAX_FILE_BYTES + lines * longest
  }

  /** So many copies of a line, each with its break. */
  function Copies(line: string, j: nat): string {
    if j == 0 then "" else Copies(line, j - 1) + (line + "\n")
  }

  lemma {:induction false} CopiesLength(line: string, j: nat)
    ensures |Copies(line, j)| == j * (|line| + 1)
  {
    if j > 0 {
      CopiesLength(line, j - 1);
    }
  }

  /** A file of some text, the first i writers about to append the same line, the first j of them done. */
  function Crowd(path: string, io: WriteIo, text: string, line: string, n: nat, m: nat, i: nat, j: nat): State
    requires j <= i <= m <= n
  {
    State(Store(map[path := Text(text + Copies(line, j))], 0),
          seq(n, w => if j <= w < i then Passed(line, io) else Idle), 0)
  }

  /** All check, then all append. */
  function CrowdStates(path: string, io: WriteIo, text: string, line: string, n: nat, m: nat): seq<State>
    requires m <= n
  {
    seq(2 * m + 1, k requires 0 <= k < 2 * m + 1 =>
      if k <= m then Crowd(path, io, text, line, n, m, k, 0) else Crowd(path, io, text, line, n, m, m, k - m))
  }

  function CrowdActions(io: WriteIo, line: string, m: nat): seq<Action> {
    seq(2 * m, k requires 0 <= k < 2 * m => if k < m then Check(k, line, io) else Append(k - m))
  }

  lemma CrowdChecks(agentId: string, io: WriteIo, text: string, line: string, n: nat, m: nat, i: nat)
    requires i < m <= n && |text| < MAX_FILE_BYTES
    ensures var path := FileName(agentId, io.day);
            var s, a := Crowd(path, io, text, line, n, m, i, 0), Check(i, line, io);
            Enabled(s, a) && Do(agentId, s, a) == Crowd(path, io, text, line, n, m, i + 1, 0)
  {
    var path := FileName(agentId, io.day);
    var s, t := Crowd(path, io, text, line, n, m, i, 0), Crowd(path, io, text, line, n, m, i + 1, 0);
    assert !Full(s.store.files, path, io);
    assert t.writers == s.writers[i := Passed(line, io)];
  }

  lemma CrowdAppends(agentId: string, io: WriteIo, text: string, line: string, n: nat, m: nat, j: nat)
    requires j < m <= n && io.appendOk
    ensures var path := FileName(agentId, io.day);
            var s, a := Crowd(path, io, text, line, n, m, m, j), Append(j);
            Enabled(s, a) && Do(agentId, s, a) == Crowd(path, io, text, line, n, m, m, j + 1)
  {
    var path := FileName(agentId, io.day);
    var s, t := Crowd(path, io, text, line, n, m, m, j), Crowd(path, io, text, line, n, m, m, j + 1);
    assert t.writers == s.writers[j := Idle];
    assert (text + Copies(line, j)) + (line + "\n") == text + Copies(line, j + 1);
    assert t.store.files == s.store.files[path := Extended(s.store.files, path, line + "\n")];
  }

  lemma CrowdRuns(agentId: string, io: WriteIo, text: string, line: string, n: nat, m: nat)
    requires m <= n && io.appendOk && |text| < MAX_FILE_BYTES
    ensures var path := FileName(agentId, io.day);
            IsRun(agentId, CrowdStates(path, io, text, line, n, m), CrowdActions(io, line, m))
  {
    var path := FileName(agentId, io.day);
    var states, actions := CrowdStates(path, io, text, line, n, m), CrowdActions(io, line, m);
    forall k | 0 <= k < |actions|
      ensures Enabled(states[k], actions[k]) && states[k + 1] == Do(agentId, states[k], actions[k])
    {
      if k < m {
        CrowdChecks(agentId, io, text, line, n, m, k);
      } else {
        CrowdAppends(agentId, io, text, line, n, m, k - m);
      }
    }
  }

  lemma CrowdIsAtMost(agentId: string, io: WriteIo, text: string, line: string, n: nat, m: nat)
    requires m <= n
    ensures AtMost(agentId, CrowdStates(FileName(agentId, io.day), io, text, line, n, m), m)
  {
    var own := FileName(agentId, io.day);
    var states := CrowdStates(own, io, text, line, n, m);
    forall k, path | 0 <= k < |states| ensures PassedBy(agentId, states[k], path) <= m {
      assert states[k] == if k <= m then Crowd(own, io, text, line, n, m, k, 0) else Crowd(own, io, text, line, n, m, m, k - m);
      PassedAtMost(agentId, states[k].writers, n, m, path);
    }
  }

  lemma CrowdIsOrdinary(io: WriteIo, line: string, m: nat)
    requires io.statOk
    ensures Ordinary(CrowdActions(io, line, m), |line| + 1)
  {
    var actions := CrowdActions(io, line, m);
    assert forall i :: 0 <= i < m ==> actions[i] == Check(i, line, io);
    assert forall i :: m <= i < |actions| ==> actions[i].Append?;
  }

  /** Any readable file with room, and any line: m writers that all check before one appends add m of it. */
  lemma CrowdGrows(agentId: string, io: WriteIo, text: string, line: string, n: nat, m: nat)
    requires m <= n && io.statOk && io.appendOk && |text| < MAX_FILE_BYTES
    ensures var path := FileName(agentId, io.day);
            var states, actions := CrowdStates(path, io, text, line, n, m), CrowdActions(io, line, m);
            && IsRun(agentId, states, actions) && Start(states[0]) && |states[0].writers| == n
            && Ordinary(actions, |line| + 1) && AtMost(agentId, states, m)
            && states[0].store.files == map[path := Text(text)]
            && SizeOf(states[|actions|], path) == |text| + m * (|line| + 1)
  {
    var path := FileName(agentId, io.day);
    var states := CrowdStates(path, io, text, line, n, m);
    CrowdRuns(agentId, io, text, line, n, m);
    CrowdIsAtMost(agentId, io, text, line, n, m);
    CrowdIsOrdinary(io, line, m);
    assert states[0] == Crowd(path, io, text, line, n, m, 0, 0) && text + Copies(line, 0) == text;
    assert states[2 * m] == if m == 0 then states[0] else Crowd(path, io, text, line, n, m, m, m);
    CopiesLength(line, m);
  }

  /** From one byte below the cap that takes the file past any smaller number of lines. */
  lemma CrowdOverflows(agentId: string, text: string, line: string, n: nat, m: nat, lines: nat)
    requires |text| == MAX_FILE_BYTES - 1 && lines < m <= n
    ensures !Bounded(agentId, n, m, |line| + 1, lines)
  {
    var io := WriteIo("", true, true);
    var path := FileName(agentId, io.day);
    var states, actions := CrowdStates(path, io, text, line, n, m), CrowdActions(io, line, m);
    CrowdGrows(agentId, io, text, line, n, m);
    Times(lines + 1, m, |line| + 1);
    assert SizeOf(states[|actions|], path) >= MAX_FILE_BYTES + lines * (|line| + 1);
  }

  /**
   Over all runs of N writers of which at most M overlap on a file, the size stays below the cap plus
   so many lines exactly if that many is at least M. In particular one line over the cap is the limit
   exactly if no writer passes its check between another's check and its append.
   */
  lemma BoundedExactlyWhen(agentId: string, n: nat, m: nat, longest: nat, lines: nat)
    requires longest >= 1 && m <= n
    ensures Bounded(agentId, n, m, longest, lines) <==> m <= lines
  {
    if m <= lines {
      forall states: seq<State>, actions: seq<Action>, k: nat, path: string |
        IsRun(agentId, states, actions) && Start(states[0]) && |states[0].writers| == n && Ordinary(actions, longest)
        && AtMost(agentId, states, m) && k <= |actions|
        ensures SizeOf(states[k], path) < MAX_FILE_BYTES + lines * longest
      {
        FilesStayBounded(agentId, states, actions, m, longest, k, path);
        Times(m, lines, longest);
      }
    } else {
      CopiesLength("", MAX_FILE_BYTES - 1);
      CrowdOverflows(agentId, Copies("", MAX_FILE_BYTES - 1), seq(longest - 1, _ => ' '), n, m, lines);
    }
  }

  // ------------------------------------------------------ when a full file grows

  predicate IsFull(s: State, path: string) { SizeOf(s, path) >= MAX_FILE_BYTES }

  /** Action m fills the file, and it is not deleted before state k. */
  ghost predicate FilledAt(states: seq<State>, actions: seq<Action>, m: nat, k: nat, path: string)
    requires |states| == |actions| + 1
  {
    && m < k <= |actions| && !IsFull(states[m], path) && IsFull(states[m + 1], path)
    && forall i :: m < i < k ==> actions[i] != Remove(path)
  }

  ghost predicate FilledSince(states: seq<State>, actions: seq<Action>, j: nat, k: nat, path: string)
    requires |states| == |actions| + 1
  {
    exists m: nat :: j <= m && FilledAt(states, actions, m, k, path)
  }

  lemma FullStep(agentId: string, s: State, a: Action, path: string)
    requires Enabled(s, a)
    ensures IsFull(s, path) && a != Remove(path) ==> IsFull(Do(agentId, s, a), path)
    ensures IsFull(Do(agentId, s, a), path) ==> a != Remove(path)
    ensures !IsFull(s, path) && IsFull(Do(agentId, s, a), path) ==> a.Append?
  {
    if a.Append? {
      AppendSize(agentId, s, a.w, path);
    }
  }

  /** Nobody deletes the file between two states. */
  ghost predicate Untouched(actions: seq<Action>, j: nat, k: nat, path: string)
    requires k <= |actions|
  {
    forall i :: j <= i < k ==> actions[i] != Remove(path)
  }

  lemma UntouchedStep(actions: seq<Action>, j: nat, k: nat, path: string)
    requires j <= k < |actions|
    ensures Untouched(actions, j, k + 1, path) <==> Untouched(actions, j, k, path) && actions[k] != Remove(path)
  {
  }

  lemma FilledStep(states: seq<State>, actions: seq<Action>, j: nat, k: nat, path: string)
    requires |states| == |actions| + 1 && j <= k < |actions|
    ensures FilledSince(states, actions, j, k + 1, path)
            <==> (actions[k] != Remove(path) && FilledSince(states, actions, j, k, path))
                 || (!IsFull(states[k], path) && IsFull(states[k + 1], path))
  {
    if FilledSince(states, actions, j, k, path) && actions[k] != Remove(path) {
      var m: nat :| j <= m && FilledAt(states, actions, m, k, path);
      assert FilledAt(states, actions, m, k + 1, path);
    }
    if FilledSince(states, actions, j, k + 1, path) {
      var m: nat :| j <= m && FilledAt(states, actions, m, k + 1, path);
      if m < k {
        assert FilledAt(states, actions, m, k, path) && actions[k] != Remove(path);
      }
    } else if !IsFull(states[k], path) && IsFull(states[k + 1], path) {
      assert FilledAt(states, actions, k, k + 1, path);
    }
  }

  /** Full at state j and not deleted since, or filled since. */
  ghost predicate FullSince(states: seq<State>, actions: seq<Action>, j: nat, k: nat, path: string)
    requires |states| == |actions| + 1 && j <= k <= |actions|
  {
    (IsFull(states[j], path) && Untouched(actions, j, k, path)) || FilledSince(states, actions, j, k, path)
  }

  lemma FullSinceStep(agentId: string, states: seq<State>, actions: seq<Action>, j: nat, k: nat, path: string)
    requires |states| == |actions| + 1 && j <= k < |actions|
    requires Enabled(states[k], actions[k]) && states[k + 1] == Do(agentId, states[k], actions[k])
    requires IsFull(states[k], path) <==> FullSince(states, actions, j, k, path)
    ensures IsFull(states[k + 1], path) <==> FullSince(states, actions, j, k + 1, path)
  {
    FullStep(agentId, states[k], actions[k], path);
    FilledStep(states, actions, j, k, path);
    UntouchedStep(actions, j, k, path);
  }

  lemma {:induction false} FullExactlyWhen(agentId: string, states: seq<State>, actions: seq<Action>, j: nat, k: nat, path: string)
    requires IsRun(agentId, states, actions) && j <= k <= |actions|
    ensures IsFull(states[k], path) <==> FullSince(states, actions, j, k, path)
    decreases k
  {
    if j < k {
      FullExactlyWhen(agentId, states, actions, j, k - 1, path);
      FullSinceStep(agentId, states, actions, j, k - 1, path);
    }
  }

  /**
   A line is appended to a full file exactly when, since the writer looked, the file was filled by
   another's append and not deleted, or it was full all along and its size could not be read.
   */
  lemma FullFileGrowsExactlyWhen(
    agentId: string, states: seq<State>, actions: seq<Action>, j: nat, k: nat, w: nat, line: string, io: WriteIo)
    requires IsRun(agentId, states, actions) && j < k < |actions|
    requires actions[j] == Check(w, line, io) && actions[k] == Append(w) && io.appendOk
    requires forall i :: j < i <= k ==> w < |states[i].writers| && states[i].writers[w] == Passed(line, io)
    ensures var path := FileName(agentId, io.day);
            && SizeOf(states[k + 1], path) == SizeOf(states[k], path) + |line| + 1
            && (IsFull(states[k], path) <==>
                  || FilledSince(states, actions, j, k, path)
                  || (!io.statOk && IsFull(states[j], path) && Untouched(actions, j, k, path)))
  {
    var path := FileName(agentId, io.day);
    AppendSize(agentId, states[k], w, path);
    assert states[j + 1] == Do(agentId, states[j], actions[j]);
    FullExactlyWhen(agentId, states, actions, j, k, path);
  }

  // ------------------------------------------------------------ the drop counter

  /** A writer stores the counter while another is about to. */
  predicate Collides(s: State, a: Action) {
    a.Bump? && exists v :: 0 <= v < |s.writers| && v != a.w && s.writers[v].Counting?
  }

  ghost predicate SomeCollision(states: seq<State>, actions: seq<Action>, k: nat)
    requires |states| == |actions| + 1 && k <= |actions|
  {
    exists i :: 0 <= i < k && Collides(states[i], actions[i])
  }

  /** The counter, or a value about to be stored in it, is behind. */
  predicate Behind(s: State) {
    s.store.dropCount < s.refusals
    || exists w :: 0 <= w < |s.writers| && s.writers[w].Counting? && s.writers[w].seen < s.refusals
  }

  predicate Counted(s: State) {
    && s.store.dropCount <= s.refusals
    && forall w :: 0 <= w < |s.writers| && s.writers[w].Counting? ==>
         s.writers[w].seen <= s.refusals && (s.writers[w].seen == s.refusals ==> s.store.dropCount == s.refusals)
  }

  lemma BumpStep(agentId: string, s: State, w: nat)
    requires Counted(s) && Enabled(s, Bump(w))
    ensures var t := Do(agentId, s, Bump(w));
            Counted(t) && (Behind(t) <==> Behind(s) || Collides(s, Bump(w)))
  {
    var t := Do(agentId, s, Bump(w));
    if v :| 0 <= v < |s.writers| && v != w && s.writers[v].Counting? {
      assert t.writers[v] == s.writers[v];
    }
  }

  lemma OtherCountStep(agentId: string, s: State, a: Action)
    requires Counted(s) && Enabled(s, a) && !a.Bump?
    ensures var t := Do(agentId, s, a);
            Counted(t) && (Behind(t) <==> Behind(s))
  {
    var t := Do(agentId, s, a);
    if v :| 0 <= v < |s.writers| && s.writers[v].Counting? && s.writers[v].seen < s.refusals {
      assert t.writers[v] == s.writers[v];
    }
    if v :| 0 <= v < |t.writers| && t.writers[v].Counting? && t.writers[v].seen < t.refusals {
      assert a == Load(v) || t.writers[v] == s.writers[v];
    }
  }

  lemma {:induction false} BehindExactlyWhen(agentId: string, states: seq<State>, actions: seq<Action>, k: nat)
    requires IsRun(agentId, states, actions) && NobodyWrites(states[0]) && states[0].store.dropCount == states[0].refusals
    requires k <= |actions|
    ensures Counted(states[k]) && (Behind(states[k]) <==> SomeCollision(states, actions, k))
  {
    if k > 0 {
      BehindExactlyWhen(agentId, states, actions, k - 1);
      var s, a := states[k - 1], actions[k - 1];
      if a.Bump? {
        BumpStep(agentId, s, a.w);
      } else {
        OtherCountStep(agentId, s, a);
      }
      CollisionStep(states, actions, k - 1);
    }
  }

  lemma CollisionStep(states: seq<State>, actions: seq<Action>, k: nat)
    requires |states| == |actions| + 1 && k < |actions|
    ensures SomeCollision(states, actions, k + 1) <==> SomeCollision(states, actions, k) || Collides(states[k], actions[k])
  {
  }

  /**
   Once no writer is about to store it, the drop counter equals the number of refused writes exactly
   when no writer ever stored it between another's reading and storing; otherwise it is too small.
   */
  lemma DropCountExactlyWhen(agentId: string, states: seq<State>, actions: seq<Action>, k: nat)
    requires IsRun(agentId, states, actions) && NobodyWrites(states[0]) && states[0].store.dropCount == states[0].refusals
    requires k <= |actions| && forall w :: 0 <= w < |states[k].writers| ==> !states[k].writers[w].Counting?
    ensures states[k].store.dropCount <= states[k].refusals
    ensures states[k].store.dropCount == states[k].refusals <==> !SomeCollision(states, actions, k)
  {
    BehindExactlyWhen(agentId, states, actions, k);
  }
}
