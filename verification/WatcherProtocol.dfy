/**
 * The configuration watcher as interleaved steps of a file writer, the notification callback with
 * its lossy bounded channel, and the receive, debounce, drain and reload loop.
 */
module WatcherProtocol {
  import opened Prelude
  import opened Reload

  const CAPACITY := 16

  datatype Phase = Idle | Debouncing | Draining | Reading | Reloading | Stopped

  /**
   * `files` are the contents the file ever had, the last one being current; `inFlight` counts change
   * events not yet delivered to the callback; `versions` are the versions read so far.
   */
  datatype System = System(
    files: seq<Option<Config>>,
    inFlight: nat,
    channel: nat,
    phase: Phase,
    versions: seq<nat>,
    live: Live)

  datatype Step =
    | Write(content: Option<Config>, coalesced: bool)
    | Spurious
    | Notify
    | Receive
    | Wake
    | DrainOne
    | DrainEnd
    | Read
    | TryReload
    | Shutdown

  function Version(s: System): int { |s.files| - 1 }

  function LastRead(s: System): int { if s.versions == [] then 0 else s.versions[|s.versions| - 1] }

  predicate Enabled(s: System, step: Step) {
    match step
    case Write(_, coalesced) => coalesced ==> s.inFlight > 0
    case Spurious => true
    case Notify => s.inFlight > 0
    case Receive => s.phase.Idle? && s.channel > 0
    case Wake => s.phase.Debouncing?
    case DrainOne => s.phase.Draining? && s.channel > 0
    case DrainEnd => s.phase.Draining? && s.channel == 0
    case Read => s.phase.Reading? && s.files != []
    case TryReload => s.phase.Reloading? && s.versions != [] && s.versions[|s.versions| - 1] < |s.files|
    case Shutdown => s.phase.Idle?
  }

  /** A write raises an event, or is folded into one still in flight; a full channel drops the token. */
  function Next(build: Builder, s: System, step: Step): System
    requires Enabled(s, step)
  {
    match step
    case Write(content, coalesced) =>
      s.(files := s.files + [content], inFlight := if coalesced then s.inFlight else s.inFlight + 1)
    case Spurious => s.(inFlight := s.inFlight + 1)
    case Notify => s.(inFlight := s.inFlight - 1, channel := if s.channel < CAPACITY then s.channel + 1 else s.channel)
    case Receive => s.(channel := s.channel - 1, phase := Debouncing)
    case Wake => s.(phase := Draining)
    case DrainOne => s.(channel := s.channel - 1)
    case DrainEnd => s.(phase := Reading)
    case Read => s.(versions := s.versions + [|s.files| - 1], phase := Reloading)
    case TryReload => s.(live := Attempt(build, s.live, s.files[s.versions[|s.versions| - 1]]), phase := Idle)
    case Shutdown => s.(phase := Stopped)
  }

  predicate CanRun(build: Builder, s: System, steps: seq<Step>)
    decreases |steps|
  {
    steps == [] || (Enabled(s, steps[0]) && CanRun(build, Next(build, s, steps[0]), steps[1..]))
  }

  function After(build: Builder, s: System, steps: seq<Step>): System
    requires CanRun(build, s, steps)
    decreases |steps|
  {
    if steps == [] then s else After(build, Next(build, s, steps[0]), steps[1..])
  }

  /** Started on the file the server was configured from. */
  predicate Initial(s: System, live: Live) {
    |s.files| == 1 && s.inFlight == 0 && s.channel == 0 && s.phase == Idle && s.versions == [] && s.live == live
  }

  // ---------------------------------------------------------------------------
  // No lost update
  // ---------------------------------------------------------------------------

  /** If the last version read is older than the file, word of it is still on its way. */
  predicate WordOnItsWay(s: System) {
    !s.phase.Stopped? && LastRead(s) < Version(s) ==>
      s.inFlight > 0 || s.channel > 0 || s.phase == Debouncing || s.phase == Draining || s.phase == Reading
  }

  predicate AllBelow(versions: seq<nat>, n: nat) { forall i | 0 <= i < |versions| :: versions[i] < n }

  predicate ReadsAreVersions(s: System) {
    s.files != [] && s.channel <= CAPACITY && AllBelow(s.versions, |s.files|)
  }

  function Contents(files: seq<Option<Config>>, versions: seq<nat>): seq<Option<Config>>
    requires AllBelow(versions, |files|)
  {
    seq(|versions|, i requires 0 <= i < |versions| => files[versions[i]])
  }

  /** Reloads tried so far: all versions read, but the one just read and not yet tried. */
  function Tried(s: System): seq<nat> {
    if s.phase.Reloading? && s.versions != [] then s.versions[..|s.versions| - 1] else s.versions
  }

  predicate LiveFollowsReads(build: Builder, start: Live, s: System)
    requires ReadsAreVersions(s)
  {
    && (s.phase.Reloading? ==> s.versions != [])
    && s.live == Attempts(build, start, Contents(s.files, Tried(s)))
  }

  predicate Invariant(build: Builder, start: Live, s: System) {
    ReadsAreVersions(s) && WordOnItsWay(s) && LiveFollowsReads(build, start, s)
  }

  lemma StepKeepsInvariant(build: Builder, start: Live, s: System, step: Step)
    requires Invariant(build, start, s) && Enabled(s, step)
    ensures Invariant(build, start, Next(build, s, step))
  {
    var n := Next(build, s, step);
    match step {
      case Write(_, _) => assert Contents(n.files, Tried(n)) == Contents(s.files, Tried(s));
      case Read => assert Tried(n) == Tried(s);
      case TryReload =>
        var k := |s.versions| - 1;
        assert Contents(n.files, Tried(n)) == Contents(s.files, Tried(s)) + [s.files[s.versions[k]]];
        var all := Contents(n.files, Tried(n));
        assert all[..|all| - 1] == Contents(s.files, Tried(s));
      case _ => assert Tried(n) == Tried(s);
    }
  }

  lemma {:induction false} RunsKeepInvariant(build: Builder, start: Live, s: System, steps: seq<Step>)
    requires Invariant(build, start, s) && CanRun(build, s, steps)
    ensures Invariant(build, start, After(build, s, steps))
    decreases |steps|
  {
    if steps != [] {
      StepKeepsInvariant(build, start, s, steps[0]);
      RunsKeepInvariant(build, start, Next(build, s, steps[0]), steps[1..]);
    }
  }

  predicate Quiescent(s: System) { s.phase == Idle && s.inFlight == 0 && s.channel == 0 }

  /**
   * In every interleaving, once nothing is in flight, the last reload attempted was of the current
   * file, and the live pipelines are those of the latest accepted contents the loop read.
   */
  lemma NoLostUpdate(build: Builder, start: Live, s0: System, steps: seq<Step>)
    requires Initial(s0, start) && CanRun(build, s0, steps)
    requires Quiescent(After(build, s0, steps))
    ensures var s := After(build, s0, steps);
            && LastRead(s) == Version(s)
            && ReadsAreVersions(s)
            && s.live == Attempts(build, start, Contents(s.files, s.versions))
            && (Version(s) > 0 && Accepted(build, s.files[Version(s)]) ==>
                  && s.live.current == s.files[Version(s)].value
                  && forall name | name in s.live.slots && name in build(s.live.current).value ::
                       s.live.slots[name] == build(s.live.current).value[name])
  {
    assert Contents(s0.files, []) == [];
    RunsKeepInvariant(build, start, s0, steps);
    var s := After(build, s0, steps);
    if Version(s) > 0 {
      var all := Contents(s.files, s.versions);
      assert all[|all| - 1] == s.files[Version(s)];
    }
  }

  /** A notification is dropped exactly when 16 are waiting already, and then nothing is lost. */
  lemma NotifyDropsIff(build: Builder, start: Live, s: System)
    requires Invariant(build, start, s) && Enabled(s, Notify)
    ensures var n := Next(build, s, Notify);
            && n.channel == (if s.channel == 16 then 16 else s.channel + 1)
            && Invariant(build, start, n) && Tried(n) == Tried(s) && n.files == s.files
  {
    StepKeepsInvariant(build, start, s, Notify);
  }

  // ---------------------------------------------------------------------------
  // The loop settles
  // ---------------------------------------------------------------------------

  predicate Internal(step: Step) { !step.Write? && !step.Spurious? && !step.Shutdown? }

  function Rank(p: Phase): nat {
    match p
    case Debouncing => 4
    case Draining => 3
    case Reading => 2
    case Reloading => 1
    case _ => 0
  }

  /** Steps the gateway can still take when nobody touches the directory. */
  function Work(s: System): nat { 6 * s.inFlight + 5 * s.channel + Rank(s.phase) }

  lemma {:induction false} InternalRunsAreShort(build: Builder, s: System, steps: seq<Step>)
    requires CanRun(build, s, steps) && forall step | step in steps :: Internal(step)
    ensures |steps| <= Work(s)
    decreases |steps|
  {
    if steps != [] {
      assert Internal(steps[0]);
      InternalRunsAreShort(build, Next(build, s, steps[0]), steps[1..]);
    }
  }

  predicate Stuck(s: System) {
    && !Enabled(s, Notify) && !Enabled(s, Receive) && !Enabled(s, Wake) && !Enabled(s, DrainOne)
    && !Enabled(s, DrainEnd) && !Enabled(s, Read) && !Enabled(s, TryReload)
  }

  /** A running loop that cannot move is quiescent, so every run without writes ends up to date. */
  lemma StuckIsQuiescent(build: Builder, start: Live, s: System)
    requires Invariant(build, start, s) && !s.phase.Stopped?
    ensures Stuck(s) <==> Quiescent(s)
    ensures Stuck(s) ==> LastRead(s) == Version(s)
  {
  }
}
