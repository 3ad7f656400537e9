/**
 * The benchmark orchestrator: a transport stage and one stage per scenario, whose results are saved
 * after each stage so that a run cut short is taken up where it stopped.
 */
module BenchmarkResume {
  import opened Options

  /** Timings are opaque here. */
  type Samples = seq<real>

  const ARTIFACT_VERSION: nat := 5
  const PAYLOAD_BYTES: seq<nat> := [32, 4 * 1024, 64 * 1024]

  datatype Rtt = Rtt(payloadBytes: nat, samples: Samples)
  datatype Scenario = Scenario(id: string, samples: Samples)

  /** What a saved state must share with the run that takes it up. */
  datatype Key = Key(version: nat, iterations: nat, warmup: nat, host: string, root: string)

  datatype Stored = Stored(key: Key, rtt: Option<seq<Rtt>>, scenarios: seq<Scenario>)

  datatype Disk = Absent | Garbled | Unreadable | File(stored: Stored)

  datatype Stage = Transport | Run(id: string)

  // Operations on the stored state

  /** Collecting into a map: the last entry with an id stays. */
  function ById(ss: seq<Scenario>): map<string, Scenario> {
    if ss == [] then map[] else ById(ss[..|ss| - 1])[ss[|ss| - 1].id := ss[|ss| - 1]]
  }

  /** Taking the definitions' entries out of the map, in their order. */
  function Pick(defs: seq<string>, m: map<string, Scenario>): seq<Scenario> {
    if defs == [] then []
    else if defs[0] in m then [m[defs[0]]] + Pick(defs[1..], m - {defs[0]})
    else Pick(defs[1..], m)
  }

  function Payloads(r: seq<Rtt>): seq<nat> {
    seq(|r|, i requires 0 <= i < |r| => r[i].payloadBytes)
  }

  function Sanitized(st: Stored, defs: seq<string>): Stored {
    st.(rtt := if st.rtt.Some? && Payloads(st.rtt.value) != PAYLOAD_BYTES then None else st.rtt,
        scenarios := Pick(defs, ById(st.scenarios)))
  }

  predicate HasScenario(st: Stored, id: string) {
    exists i :: 0 <= i < |st.scenarios| && st.scenarios[i].id == id
  }

  function Retained(ss: seq<Scenario>, id: string): seq<Scenario> {
    if ss == [] then []
    else Retained(ss[..|ss| - 1], id) + if ss[|ss| - 1].id != id then [ss[|ss| - 1]] else []
  }

  function RecordScenario(st: Stored, sc: Scenario): Stored {
    st.(scenarios := Retained(st.scenarios, sc.id) + [sc])
  }

  function RecordRtt(st: Stored, r: seq<Rtt>): Stored { st.(rtt := Some(r)) }

  function CountIn(st: Stored, defs: seq<string>): nat {
    if defs == [] then 0
    else CountIn(st, defs[..|defs| - 1]) + if HasScenario(st, defs[|defs| - 1]) then 1 else 0
  }

  function ResumedCount(st: Stored, defs: seq<string>): nat {
    (if st.rtt.Some? then 1 else 0) + CountIn(st, defs)
  }

  /** The report's scenarios: definitions without an entry are passed over. */
  function Report(defs: seq<string>, m: map<string, Scenario>): seq<Scenario> {
    if defs == [] then []
    else (if defs[0] in m then [m[defs[0]].(id := defs[0])] else []) + Report(defs[1..], m)
  }

  function Load(disk: Disk, key: Key, defs: seq<string>): Option<Stored> {
    match disk
    case Absent => Some(Stored(key, None, []))
    case Garbled => Some(Stored(key, None, []))
    case Unreadable => None
    case File(st) => if st.key == key then Some(Sanitized(st, defs)) else Some(Stored(key, None, []))
  }

  // What a state holds

  predicate Distinct(defs: seq<string>) {
    forall i, j | 0 <= i < j < |defs| :: defs[i] != defs[j]
  }

  function Held(st: Stored): map<string, Scenario> { ById(st.scenarios) }

  predicate Has(st: Stored, stage: Stage) {
    match stage
    case Transport => st.rtt.Some?
    case Run(id) => id in Held(st)
  }

  ghost predicate Named(m: map<string, Scenario>) { forall k <- m :: m[k].id == k }

  lemma {:induction false} ByIdNamed(ss: seq<Scenario>)
    ensures Named(ById(ss))
  {
    if ss != [] {
      ByIdNamed(ss[..|ss| - 1]);
    }
  }

  lemma {:induction false} HasScenarioIsHeld(st: Stored, id: string)
    ensures HasScenario(st, id) <==> id in Held(st)
    decreases |st.scenarios|
  {
    var ss := st.scenarios;
    if ss != [] {
      var front := st.(scenarios := ss[..|ss| - 1]);
      HasScenarioIsHeld(front, id);
      assert forall i | 0 <= i < |ss| - 1 :: front.scenarios[i] == ss[i];
    }
  }

  lemma {:induction false} RetainedById(ss: seq<Scenario>, id: string)
    ensures ById(Retained(ss, id)) == ById(ss) - {id}
  {
    if ss != [] {
      var front, last := ss[..|ss| - 1], ss[|ss| - 1];
      RetainedById(front, id);
      if last.id != id {
        assert (Retained(front, id) + [last])[..|Retained(front, id)|] == Retained(front, id);
      } else {
        assert Retained(front, id) + [] == Retained(front, id);
      }
    }
  }

  lemma ByIdAppend(ss: seq<Scenario>, sc: Scenario)
    ensures ById(ss + [sc]) == ById(ss)[sc.id := sc]
  {
    assert (ss + [sc])[..|ss|] == ss;
  }

  lemma PutBack(m: map<string, Scenario>, id: string, sc: Scenario)
    ensures (m - {id})[id := sc] == m[id := sc]
  {
  }

  /** Recording replaces the entry of that id and keeps the others. */
  lemma RecordHeld(st: Stored, sc: Scenario)
    ensures Held(RecordScenario(st, sc)) == Held(st)[sc.id := sc]
  {
    RetainedById(st.scenarios, sc.id);
    ByIdAppend(Retained(st.scenarios, sc.id), sc);
    PutBack(Held(st), sc.id, sc);
  }

  lemma {:induction false} ByIdFirst(first: Scenario, rest: seq<Scenario>)
    requires first.id !in ById(rest)
    ensures ById([first] + rest) == ById(rest)[first.id := first]
  {
    if rest == [] {
      assert [first] + rest == [first];
      assert [first][..0] == [];
    } else {
      var front, last := rest[..|rest| - 1], rest[|rest| - 1];
      ByIdFirst(first, front);
      assert ([first] + rest)[..|rest|] == [first] + front;
    }
  }

  lemma {:induction false} PickById(defs: seq<string>, m: map<string, Scenario>)
    requires Named(m)
    ensures ById(Pick(defs, m)) == map k | k in m && k in defs :: m[k]
  {
    if defs != [] {
      assert forall k :: k in defs <==> k == defs[0] || k in defs[1..];
      if defs[0] in m {
        var rest := Pick(defs[1..], m - {defs[0]});
        PickById(defs[1..], m - {defs[0]});
        ByIdFirst(m[defs[0]], rest);
      } else {
        PickById(defs[1..], m);
      }
    }
  }

  /** Sanitising keeps what the definitions name and nothing else. */
  lemma SanitizedHeld(st: Stored, defs: seq<string>)
    ensures Held(Sanitized(st, defs)) == map k | k in Held(st) && k in defs :: Held(st)[k]
  {
    ByIdNamed(st.scenarios);
    PickById(defs, Held(st));
  }

  // Runs of the orchestrator, one after the other, each cut off anywhere

  datatype Pc = AtTransport | SavingTransport | AtScenario(k: nat) | SavingScenario(k: nat)

  /** A process: its state in memory, the stages it found saved, the stages it ran. */
  datatype Process = Process(st: Stored, resumed: nat, ran: nat, pc: Pc)

  datatype Event = Ran(stage: Stage) | Saved(stage: Stage) | Finished(resumed: nat, ran: nat, report: seq<Scenario>)

  datatype World = World(disk: Disk, process: Option<Process>, log: seq<Event>)

  datatype Action =
    | Launch
    | Measure(r: seq<Rtt>)
    | SkipTransport
    | RunScenario(sc: Scenario)
    | SkipScenario
    | Save
    | Finish
    | Crash

  /** The definitions and the identity all these runs share. */
  datatype Setup = Setup(key: Key, defs: seq<string>)

  predicate Enabled(u: Setup, w: World, a: Action) {
    if a.Launch? then w.process.None? && Load(w.disk, u.key, u.defs).Some?
    else w.process.Some? &&
         var p := w.process.value;
         match a
         case Measure(r) => p.pc.AtTransport? && p.st.rtt.None? && Payloads(r) == PAYLOAD_BYTES
         case SkipTransport => p.pc.AtTransport? && p.st.rtt.Some?
         case RunScenario(sc) => p.pc.AtScenario? && p.pc.k < |u.defs| && sc.id == u.defs[p.pc.k]
             && !HasScenario(p.st, sc.id)
         case SkipScenario => p.pc.AtScenario? && p.pc.k < |u.defs| && HasScenario(p.st, u.defs[p.pc.k])
         case Save => p.pc.SavingTransport? || (p.pc.SavingScenario? && p.pc.k < |u.defs|)
         case Finish => p.pc == AtScenario(|u.defs|)
         case Crash => true
  }

  function Step(u: Setup, w: World, a: Action): World
    requires Enabled(u, w, a)
  {
    match a
    case Launch =>
      var st := Load(w.disk, u.key, u.defs).value;
      w.(process := Some(Process(st, ResumedCount(st, u.defs), 0, AtTransport)))
    case Measure(r) =>
      var p := w.process.value;
      w.(process := Some(Process(RecordRtt(p.st, r), p.resumed, p.ran + 1, SavingTransport)),
         log := w.log + [Ran(Transport)])
    case SkipTransport => w.(process := Some(w.process.value.(pc := AtScenario(0))))
    case RunScenario(sc) =>
      var p := w.process.value;
      w.(process := Some(Process(RecordScenario(p.st, sc), p.resumed, p.ran + 1, SavingScenario(p.pc.k))),
         log := w.log + [Ran(Run(sc.id))])
    case SkipScenario => w.(process := Some(w.process.value.(pc := AtScenario(w.process.value.pc.k + 1))))
    case Save =>
      var p := w.process.value;
      if p.pc.SavingTransport? then
        World(File(p.st), Some(p.(pc := AtScenario(0))), w.log + [Saved(Transport)])
      else
        World(File(p.st), Some(p.(pc := AtScenario(p.pc.k + 1))), w.log + [Saved(Run(u.defs[p.pc.k]))])
    case Finish =>
      var p := w.process.value;
      w.(process := None, log := w.log + [Finished(p.resumed, p.ran, Report(u.defs, Held(p.st)))])
    case Crash => w.(process := None)
  }

  // What is on the disk

  /** What a run launched now would find. */
  function OnDisk(u: Setup, w: World): Option<Stored> { Load(w.disk, u.key, u.defs) }

  ghost predicate Within(u: Setup, st: Stored) {
    && st.key == u.key
    && (st.rtt.Some? ==> Payloads(st.rtt.value) == PAYLOAD_BYTES)
    && forall k <- Held(st) :: k in u.defs
  }

  lemma LoadWithin(u: Setup, disk: Disk)
    requires Load(disk, u.key, u.defs).Some?
    ensures Within(u, Load(disk, u.key, u.defs).value)
  {
    if disk.File? {
      SanitizedHeld(disk.stored, u.defs);
    }
  }

  /** Saving and loading gives the same stages with the same samples. */
  lemma SavedLoads(u: Setup, st: Stored)
    requires Within(u, st)
    ensures Load(File(st), u.key, u.defs).Some?
    ensures Load(File(st), u.key, u.defs).value.rtt == st.rtt && Held(Load(File(st), u.key, u.defs).value) == Held(st)
  {
    SanitizedHeld(st, u.defs);
  }

  predicate SameStages(a: Stored, b: Stored) { a.rtt == b.rtt && Held(a) == Held(b) }

  /** The process has what is on the disk, and while saving one stage more. */
  ghost predicate InStep(u: Setup, p: Process, found: Stored) {
    match p.pc
    case AtTransport => SameStages(p.st, found)
    case AtScenario(_) => SameStages(p.st, found)
    case SavingTransport => p.st.rtt.Some? && found.rtt.None? && Held(p.st) == Held(found)
    case SavingScenario(k) =>
      k < |u.defs| && p.st.rtt == found.rtt && u.defs[k] !in Held(found) && u.defs[k] in Held(p.st)
      && Held(p.st) == Held(found)[u.defs[k] := Held(p.st)[u.defs[k]]]
  }

  ghost predicate DiskOk(u: Setup, w: World) {
    w.process.Some? ==>
      OnDisk(u, w).Some? && Within(u, w.process.value.st) && InStep(u, w.process.value, OnDisk(u, w).value)
  }

  lemma StepDiskOk(u: Setup, w: World, a: Action)
    requires Enabled(u, w, a) && DiskOk(u, w)
    ensures DiskOk(u, Step(u, w, a))
  {
    match a
    case Launch => LoadWithin(u, w.disk);
    case Measure(_) =>
    case RunScenario(sc) =>
      RecordHeld(w.process.value.st, sc);
      HasScenarioIsHeld(w.process.value.st, sc.id);
    case Save => SavedLoads(u, w.process.value.st);
    case _ =>
  }

  /** Everything saved is still there, with the same samples. */
  ghost predicate Grown(u: Setup, w: World, later: World) {
    OnDisk(u, w).Some? ==>
      && OnDisk(u, later).Some?
      && (OnDisk(u, w).value.rtt.Some? ==> OnDisk(u, later).value.rtt == OnDisk(u, w).value.rtt)
      && forall k <- Held(OnDisk(u, w).value) ::
        k in Held(OnDisk(u, later).value) && Held(OnDisk(u, later).value)[k] == Held(OnDisk(u, w).value)[k]
  }

  lemma StepGrown(u: Setup, w: World, a: Action)
    requires Enabled(u, w, a) && DiskOk(u, w)
    ensures Grown(u, w, Step(u, w, a))
  {
    if a.Save? {
      SavedLoads(u, w.process.value.st);
    }
  }

  predicate IsRun(u: Setup, w: World, run: seq<Action>)
    decreases run
  {
    run == [] || (Enabled(u, w, run[0]) && IsRun(u, Step(u, w, run[0]), run[1..]))
  }

  function After(u: Setup, w: World, run: seq<Action>): World
    requires IsRun(u, w, run)
    decreases run
  {
    if run == [] then w else After(u, Step(u, w, run[0]), run[1..])
  }

  /** Whatever was on the disk, and however the runs were cut off, what is saved stays. */
  lemma {:induction false} RunGrown(u: Setup, w: World, run: seq<Action>)
    requires DiskOk(u, w) && IsRun(u, w, run)
    ensures DiskOk(u, After(u, w, run)) && Grown(u, w, After(u, w, run))
    decreases run
  {
    if run != [] {
      StepDiskOk(u, w, run[0]);
      StepGrown(u, w, run[0]);
      RunGrown(u, Step(u, w, run[0]), run[1..]);
    }
  }

  predicate Kept(u: Setup, w: World, stage: Stage) {
    OnDisk(u, w).Some? && Has(OnDisk(u, w).value, stage)
  }

  lemma GrownKeeps(u: Setup, w: World, later: World, stage: Stage)
    requires Grown(u, w, later) && Kept(u, w, stage)
    ensures Kept(u, later, stage)
  {
  }

  /** A save puts its stage on the disk. */
  lemma SaveKeeps(u: Setup, w: World)
    requires Enabled(u, w, Save) && DiskOk(u, w)
    ensures var next := Step(u, w, Save);
            next.log[|w.log|].Saved? && Kept(u, next, next.log[|w.log|].stage)
  {
    SavedLoads(u, w.process.value.st);
  }

  lemma KeptNotRunNow(u: Setup, w: World, a: Action, stage: Stage)
    requires Enabled(u, w, a) && DiskOk(u, w) && Kept(u, w, stage)
    ensures w.log <= Step(u, w, a).log && Ran(stage) !in Step(u, w, a).log[|w.log|..]
  {
    if a.RunScenario? {
      HasScenarioIsHeld(w.process.value.st, a.sc.id);
    }
  }

  /** A stage found on the disk is never run again, by this run or any later one. */
  lemma {:induction false} NeverRunAgain(u: Setup, w: World, run: seq<Action>, stage: Stage)
    requires DiskOk(u, w) && IsRun(u, w, run) && Kept(u, w, stage)
    ensures w.log <= After(u, w, run).log && Ran(stage) !in After(u, w, run).log[|w.log|..]
    decreases run
  {
    if run != [] {
      var next := Step(u, w, run[0]);
      KeptNotRunNow(u, w, run[0], stage);
      StepDiskOk(u, w, run[0]);
      StepGrown(u, w, run[0]);
      GrownKeeps(u, w, next, stage);
      NeverRunAgain(u, next, run[1..], stage);
      var log := After(u, w, run).log;
      assert log[|w.log|..] == log[|w.log|..|next.log|] + log[|next.log|..];
      assert log[|w.log|..|next.log|] == next.log[|w.log|..];
    }
  }

  // The stages of one run add up

  lemma {:induction false} CountSame(a: Stored, b: Stored, defs: seq<string>)
    requires forall i | 0 <= i < |defs| :: HasScenario(a, defs[i]) <==> HasScenario(b, defs[i])
    ensures CountIn(a, defs) == CountIn(b, defs)
  {
    if defs != [] {
      CountSame(a, b, defs[..|defs| - 1]);
    }
  }

  lemma {:induction false} CountOneMore(a: Stored, b: Stored, defs: seq<string>, k: nat)
    requires k < |defs| && !HasScenario(a, defs[k]) && HasScenario(b, defs[k])
    requires forall i | 0 <= i < |defs| && i != k :: HasScenario(a, defs[i]) <==> HasScenario(b, defs[i])
    ensures CountIn(b, defs) == CountIn(a, defs) + 1
  {
    if k == |defs| - 1 {
      CountSame(a, b, defs[..k]);
    } else {
      CountOneMore(a, b, defs[..|defs| - 1], k);
    }
  }

  lemma {:induction false} CountAll(st: Stored, defs: seq<string>)
    requires forall i | 0 <= i < |defs| :: HasScenario(st, defs[i])
    ensures CountIn(st, defs) == |defs|
  {
    if defs != [] {
      CountAll(st, defs[..|defs| - 1]);
    }
  }

  /** How far a process has come. */
  predicate Reached(u: Setup, p: Process) {
    && (!p.pc.AtTransport? ==> p.st.rtt.Some?)
    && (p.pc.AtScenario? ==> p.pc.k <= |u.defs| && forall i | 0 <= i < p.pc.k :: HasScenario(p.st, u.defs[i]))
    && (p.pc.SavingScenario? ==> p.pc.k < |u.defs| && forall i | 0 <= i <= p.pc.k :: HasScenario(p.st, u.defs[i]))
  }

  predicate Tallied(u: Setup, p: Process) { p.resumed + p.ran == ResumedCount(p.st, u.defs) }

  predicate CountsOk(u: Setup, w: World) {
    w.process.Some? ==> Reached(u, w.process.value) && Tallied(u, w.process.value)
  }

  lemma RecordHas(st: Stored, sc: Scenario, id: string)
    ensures HasScenario(RecordScenario(st, sc), id) <==> id == sc.id || HasScenario(st, id)
  {
    RecordHeld(st, sc);
    HasScenarioIsHeld(st, id);
    HasScenarioIsHeld(RecordScenario(st, sc), id);
  }

  lemma RunScenarioCounts(u: Setup, st: Stored, sc: Scenario, k: nat)
    requires Distinct(u.defs) && k < |u.defs| && sc.id == u.defs[k] && !HasScenario(st, sc.id)
    ensures CountIn(RecordScenario(st, sc), u.defs) == CountIn(st, u.defs) + 1
    ensures forall i | 0 <= i < |u.defs| ::
              HasScenario(RecordScenario(st, sc), u.defs[i]) <==> i == k || HasScenario(st, u.defs[i])
  {
    var next := RecordScenario(st, sc);
    forall i | 0 <= i < |u.defs| ensures HasScenario(next, u.defs[i]) <==> i == k || HasScenario(st, u.defs[i]) {
      RecordHas(st, sc, u.defs[i]);
    }
    CountOneMore(st, next, u.defs, k);
  }

  lemma StepCountsOk(u: Setup, w: World, a: Action)
    requires Distinct(u.defs) && Enabled(u, w, a) && CountsOk(u, w)
    ensures CountsOk(u, Step(u, w, a))
  {
    match a
    case Measure(r) => CountSame(w.process.value.st, RecordRtt(w.process.value.st, r), u.defs);
    case RunScenario(sc) => RunScenarioCounts(u, w.process.value.st, sc, w.process.value.pc.k);
    case _ =>
  }

  lemma {:induction false} RunCountsOk(u: Setup, w: World, run: seq<Action>)
    requires Distinct(u.defs) && IsRun(u, w, run) && CountsOk(u, w)
    ensures CountsOk(u, After(u, w, run))
    decreases run
  {
    if run != [] {
      StepCountsOk(u, w, run[0]);
      RunCountsOk(u, Step(u, w, run[0]), run[1..]);
    }
  }

  lemma {:induction false} ReportAll(defs: seq<string>, m: map<string, Scenario>)
    requires Named(m) && forall i | 0 <= i < |defs| :: defs[i] in m
    ensures |Report(defs, m)| == |defs|
    ensures forall i | 0 <= i < |defs| :: Report(defs, m)[i] == m[defs[i]]
  {
    if defs != [] {
      ReportAll(defs[1..], m);
    }
  }

  /** A run that finishes, after any history from any disk, has found or run every stage exactly
      once, and its report is the definitions in order with the samples on the disk. */
  lemma FinishedRun(u: Setup, disk: Disk, run: seq<Action>)
    requires Distinct(u.defs) && IsRun(u, World(disk, None, []), run)
    requires Enabled(u, After(u, World(disk, None, []), run), Finish)
    ensures var w := After(u, World(disk, None, []), run);
            var done := Step(u, w, Finish).log[|w.log|];
            && done.Finished? && done.resumed + done.ran == 1 + |u.defs|
            && |done.report| == |u.defs| && OnDisk(u, w).Some? && OnDisk(u, w).value.rtt == w.process.value.st.rtt
            && forall i | 0 <= i < |u.defs| ::
                 && u.defs[i] in Held(OnDisk(u, w).value)
                 && done.report[i] == Held(OnDisk(u, w).value)[u.defs[i]] && done.report[i].id == u.defs[i]
  {
    RunGrown(u, World(disk, None, []), run);
    RunCountsOk(u, World(disk, None, []), run);
    var p := After(u, World(disk, None, []), run).process.value;
    WholeReport(u, p.st);
    ByIdNamed(p.st.scenarios);
  }

  // The code itself

  /** The scenarios the orchestrator runs. */
  const SCENARIO_IDS: seq<string> := [
    "isolate-startup", "prewarmed-isolate-startup", "cold-local-import", "warm-local-import",
    "same-context-local-import", "prewarmed-local-import", "host-local-import", "builtin-import",
    "hot-builtin-stream-import", "hot-builtin-stream-web-import", "hot-builtin-crypto-import",
    "hot-builtin-zlib-import", "hot-builtin-assert-import", "hot-builtin-url-import",
    "hot-projected-package-file-import", "large-package-import", "projected-package-import",
    "pdf-lib-startup", "jszip-startup", "jszip-end-to-end", "jszip-repeated-session-compressed"
  ]

  /** Length, first and thirteenth letter tell them apart. */
  const SCENARIO_MARKS: seq<(nat, char, char)> := [
    (15, 'i', 't'), (25, 'p', 'o'), (17, 'c', 'm'), (17, 'w', 'm'), (25, 's', '-'), (22, 'p', 'c'), (17, 'h', 'm'),
    (14, 'b', 'r'), (25, 'h', 's'), (29, 'h', 's'), (25, 'h', 'c'), (23, 'h', 'z'), (25, 'h', 'a'), (22, 'h', 'u'),
    (33, 'h', 'd'), (20, 'l', 'e'), (24, 'p', 'c'), (15, 'p', 't'), (13, 'j', 'p'), (16, 'j', '-'), (33, 'j', 'e')
  ]

  lemma ScenarioMarks(i: nat)
    requires i < |SCENARIO_IDS|
    ensures |SCENARIO_MARKS| == |SCENARIO_IDS| == 21 && 13 <= |SCENARIO_IDS[i]|
    ensures SCENARIO_MARKS[i] == (|SCENARIO_IDS[i]|, SCENARIO_IDS[i][0], SCENARIO_IDS[i][12])
  {
  }

  lemma ScenarioCount()
    ensures |SCENARIO_MARKS| == |SCENARIO_IDS| == 21
  {
  }

  lemma MarksDistinct(i: nat, j: nat)
    requires i < j < |SCENARIO_MARKS|
    ensures SCENARIO_MARKS[i] != SCENARIO_MARKS[j]
  {
  }

  lemma ScenarioIdsDistinct()
    ensures |SCENARIO_IDS| == 21 && Distinct(SCENARIO_IDS)
  {
    hide SCENARIO_IDS, SCENARIO_MARKS;
    ScenarioCount();
    forall i, j | 0 <= i < j < |SCENARIO_IDS| ensures SCENARIO_IDS[i] != SCENARIO_IDS[j] {
      ScenarioMarks(i);
      ScenarioMarks(j);
      MarksDistinct(i, j);
    }
  }

  /** The stages not found in `st`, transport first, then the first `k` definitions in order. */
  function Missing(st: Stored, defs: seq<string>, k: nat): seq<Stage>
    requires k <= |defs|
  {
    if k == 0 then (if st.rtt.None? then [Transport] else [])
    else Missing(st, defs, k - 1) + if HasScenario(st, defs[k - 1]) then [] else [Run(defs[k - 1])]
  }

  /** What a call depends on beside the disk: whether the directory can be made, what the two closures
      give, no value meaning that they fail, and whether the file can be replaced after a stage. */
  datatype Environment = Environment(dir: bool, measure: Option<seq<Rtt>>, scenario: string -> Option<Scenario>,
                                     saves: Stage -> bool)

  ghost predicate Sensible(env: Environment) {
    && (env.measure.Some? ==> Payloads(env.measure.value) == PAYLOAD_BYTES)
    && forall id :: env.scenario(id).Some? ==> env.scenario(id).value.id == id
  }

  /** The closure for the stage gives nothing, or what it gives cannot be saved. */
  predicate Fails(stage: Stage, env: Environment) {
    !env.saves(stage)
    || match stage
       case Transport => env.measure.None?
       case Run(id) => env.scenario(id).None?
  }

  /** The state has for the stage what its closure gave. */
  predicate Recorded(st: Stored, stage: Stage, env: Environment) {
    match stage
    case Transport => env.measure.Some? && st.rtt == env.measure
    case Run(id) => env.scenario(id).Some? && id in Held(st) && Held(st)[id] == env.scenario(id).value
  }

  ghost predicate AllRecorded(st: Stored, ran: seq<Stage>, env: Environment) {
    forall stage <- ran :: Recorded(st, stage, env)
  }

  lemma {:induction false} MissingGrows(st: Stored, defs: seq<string>, k: nat, n: nat)
    requires k <= n <= |defs|
    ensures Missing(st, defs, k) <= Missing(st, defs, n)
    decreases n
  {
    if k < n {
      MissingGrows(st, defs, k, n - 1);
    }
  }

  /** A new scenario disturbs nothing recorded before. */
  lemma RecordedStays(st: Stored, sc: Scenario, ran: seq<Stage>, env: Environment)
    requires AllRecorded(st, ran, env) && sc.id !in Held(st) && env.scenario(sc.id) == Some(sc)
    ensures AllRecorded(RecordScenario(st, sc), ran + [Run(sc.id)], env)
  {
    RecordHeld(st, sc);
    forall stage | stage in ran + [Run(sc.id)] ensures Recorded(RecordScenario(st, sc), stage, env) {
      if stage in ran {
        assert Recorded(st, stage, env);
      }
    }
  }

  /** How far a call has come: of the stages missing at first it ran those before the first failure. */
  ghost predicate RanUpTo(found: Stored, defs: seq<string>, ran: seq<Stage>, finished: bool, env: Environment) {
    var all := Missing(found, defs, |defs|);
    && ran <= all && (forall i | 0 <= i < |ran| :: !Fails(all[i], env))
    && if finished then ran == all else |ran| < |all| && Fails(all[|ran|], env)
  }

  lemma RanMeans(found: Stored, defs: seq<string>, ran: seq<Stage>, finished: bool, env: Environment)
    requires RanUpTo(found, defs, ran, finished, env)
    ensures finished <==> forall stage <- Missing(found, defs, |defs|) :: !Fails(stage, env)
  {
  }

  /** Where a call stands: its state is what is on the disk, what was there stays there, and the
      stages it ran are the ones it did not find. */
  ghost predicate Going(u: Setup, start: World, now: World, st: Stored, resumed: nat, ran: seq<Stage>) {
    && Within(u, st) && OnDisk(u, now).Some? && SameStages(st, OnDisk(u, now).value)
    && Grown(u, start, now) && (forall stage <- ran :: !Kept(u, start, stage))
    && resumed + |ran| == ResumedCount(st, u.defs)
  }

  lemma GoesOn(u: Setup, start: World, now: World, next: World, st: Stored, more: Stored, resumed: nat, ran: seq<Stage>,
               stage: Stage)
    requires OnDisk(u, start).Some? && Going(u, start, now, st, resumed, ran) && next.disk == File(more)
             && Within(u, more)
    requires !Has(st, stage) && ResumedCount(more, u.defs) == ResumedCount(st, u.defs) + 1
    requires (st.rtt.Some? ==> more.rtt == st.rtt)
             && forall k <- Held(st) :: k in Held(more) && Held(more)[k] == Held(st)[k]
    ensures Going(u, start, next, more, resumed, ran + [stage])
  {
    SavedLoads(u, more);
    if Kept(u, start, stage) {
      GrownKeeps(u, start, now, stage);
    }
  }

  /** The run-state file and the orchestrator that reads and replaces it. */
  class Orchestrator {
    var disk: Disk

    ghost function Now(): World
      reads this
    {
      World(disk, None, [])
    }

    /** `persist_benchmark_run_state`: the new file is written beside the old one and takes its place, or
        nothing changes. */
    method Persist(st: Stored, stage: Stage, env: Environment) returns (ok: bool)
      modifies this
      ensures ok <==> env.saves(stage)
      ensures disk == if ok then File(st) else old(disk)
    {
      ok := env.saves(stage);
      if ok {
        disk := File(st);
      }
    }

    method TransportStage(u: Setup, found: Stored, env: Environment, ghost resumed: nat, ghost start: World)
      returns (ok: bool, st: Stored, ran: seq<Stage>)
      requires OnDisk(u, start).Some? && Going(u, start, Now(), found, resumed, [])
      requires Sensible(env)
      modifies this
      ensures Going(u, start, Now(), st, resumed, ran)
      ensures ok ==> st.rtt.Some? && ran == Missing(found, u.defs, 0) && Held(st) == Held(found)
      ensures ok ==> forall i | 0 <= i < |u.defs| :: HasScenario(st, u.defs[i]) <==> HasScenario(found, u.defs[i])
      ensures ok <==> found.rtt.Some? || !Fails(Transport, env)
      ensures !ok ==> ran == []
      ensures ran == [] ==> disk == old(disk)
      ensures forall stage <- ran :: !Fails(stage, env) && stage == Transport && st.rtt == env.measure
    {
      st, ran := found, [];
      if st.rtt.None? {
        if env.measure.None? {
          return false, st, ran;
        }
        var more := RecordRtt(found, env.measure.value);
        var saved := Persist(more, Transport, env);
        if !saved {
          return false, st, ran;
        }
        st := more;
        CountSame(found, st, u.defs);
        GoesOn(u, start, old(Now()), Now(), found, st, resumed, [], Transport);
        assert [] + [Transport] == [Transport];
        ran := [Transport];
      }
      ok := true;
    }

    method ScenarioStage(u: Setup, before: Stored, k: nat, env: Environment, done: seq<Stage>, ghost resumed: nat,
                         ghost start: World)
      returns (ok: bool, st: Stored, ran: seq<Stage>)
      requires OnDisk(u, start).Some? && Going(u, start, Now(), before, resumed, done)
      requires Distinct(u.defs) && k < |u.defs| && before.rtt.Some? && Sensible(env)
      requires AllRecorded(before, done, env)
      modifies this
      ensures Going(u, start, Now(), st, resumed, ran) && st.rtt.Some? && AllRecorded(st, ran, env)
      ensures ok <==> HasScenario(before, u.defs[k]) || !Fails(Run(u.defs[k]), env)
      ensures ok ==>
                forall i | 0 <= i < |u.defs| :: HasScenario(st, u.defs[i]) <==> i == k || HasScenario(before, u.defs[i])
      ensures ran == done + if ok && !HasScenario(before, u.defs[k]) then [Run(u.defs[k])] else []
      ensures ran == done ==> disk == old(disk)
    {
      st, ran := before, done;
      if HasScenario(st, u.defs[k]) {
        return true, st, ran;
      }
      var result := env.scenario(u.defs[k]);
      if result.None? {
        return false, st, ran;
      }
      var more := RecordScenario(before, result.value);
      var saved := Persist(more, Run(u.defs[k]), env);
      if !saved {
        return false, st, ran;
      }
      ran := done + [Run(u.defs[k])];
      st := more;
      RunScenarioCounts(u, before, result.value, k);
      RecordHeld(before, result.value);
      HasScenarioIsHeld(before, u.defs[k]);
      RecordedStays(before, result.value, done, env);
      GoesOn(u, start, old(Now()), Now(), before, st, resumed, done, Run(u.defs[k]));
      ok := true;
    }

    /** The loop over the scenarios. */
    method ScenarioStages(u: Setup, before: Stored, env: Environment, done: seq<Stage>, ghost found: Stored,
                          ghost resumed: nat, ghost start: World)
      returns (ok: bool, st: Stored, ran: seq<Stage>)
      requires OnDisk(u, start).Some? && Going(u, start, Now(), before, resumed, done)
      requires Distinct(u.defs) && before.rtt.Some? && Progress(u, found, before, done, 0, env)
      requires Sensible(env)
      modifies this
      ensures Going(u, start, Now(), st, resumed, ran) && st.rtt.Some? && AllRecorded(st, ran, env)
      ensures RanUpTo(found, u.defs, ran, ok, env)
      ensures ok ==> forall i | 0 <= i < |u.defs| :: HasScenario(st, u.defs[i])
      ensures done <= ran && (ran == done ==> disk == old(disk))
    {
      hide Going, AllRecorded, Missing, HasScenario;
      st, ran := before, done;
      for k := 0 to |u.defs|
        invariant Going(u, start, Now(), st, resumed, ran) && st.rtt.Some?
                  && Progress(u, found, st, ran, k, env)
        invariant done <= ran && (ran == done ==> disk == old(disk))
      {
        ghost var was, had := st, ran;
        ok, st, ran := ScenarioStage(u, st, k, env, ran, resumed, start);
        if !ok {
          StopsHere(u, found, was, ran, k, env);
          return;
        }
        OneStageMore(u, found, was, st, had, ran, k, env);
      }
      ok := true;
    }

    /** `orchestrate_javascript_benchmark_report`: `ran` are the stages it ran and saved. */
    method Orchestrate(u: Setup, env: Environment)
      returns (r: Option<(seq<Scenario>, nat)>, ran: seq<Stage>)
      requires Distinct(u.defs) && Sensible(env)
      modifies this
      ensures u.key.iterations == 0 || !env.dir || old(disk).Unreadable? ==> r.None? && ran == [] && disk == old(disk)
      ensures u.key.iterations > 0 && env.dir && !old(disk).Unreadable? ==>
                && OnDisk(u, old(Now())).Some?
                && RanUpTo(OnDisk(u, old(Now())).value, u.defs, ran, r.Some?, env)
                && (r.Some? <==>
                  forall stage <- Missing(OnDisk(u, old(Now())).value, u.defs, |u.defs|) ::
                    !Fails(stage, env))
      ensures ran != [] ==> OnDisk(u, Now()).Some? && AllRecorded(OnDisk(u, Now()).value, ran, env)
      ensures ran == [] ==> disk == old(disk)
      ensures Grown(u, old(Now()), Now())
      ensures forall stage <- ran :: !Kept(u, old(Now()), stage)
      ensures r.Some? ==> r.value.1 + |ran| == 1 + |u.defs| && |r.value.0| == |u.defs|
      ensures r.Some? ==> Kept(u, Now(), Transport)
      ensures r.Some? ==> forall i | 0 <= i < |u.defs| ::
                Kept(u, Now(), Run(u.defs[i])) && r.value.0[i] == Held(OnDisk(u, Now()).value)[u.defs[i]]
    {
      hide AllRecorded, Missing, HasScenario, RanUpTo, Load, Report;
      ran := [];
      if u.key.iterations == 0 || !env.dir {
        return None, [];
      }
      LoadFails(disk, u);
      var loaded := Load(disk, u.key, u.defs);
      if loaded.None? {
        return None, [];
      }
      LoadWithin(u, disk);
      ghost var start := Now();
      var resumed := ResumedCount(loaded.value, u.defs);
      ghost var found := loaded.value;
      var ok, st;
      ok, st, ran := TransportStage(u, loaded.value, env, resumed, start);
      if !ok {
        NoTransport(u, found, env);
        RanMeans(found, u.defs, ran, false, env);
        return None, ran;
      }
      TransportDone(u, found, st, ran, env);
      ok, st, ran := ScenarioStages(u, st, env, ran, found, resumed, start);
      RanMeans(found, u.defs, ran, ok, env);
      SameRecorded(st, OnDisk(u, Now()).value, ran, env);
      if !ok {
        return None, ran;
      }
      WholeReport(u, st);
      return Some((Report(u.defs, Held(st)), resumed)), ran;
    }
  }

  /** `k` scenarios are settled: the stages run are those missing among them, and the rest is as it was. */
  ghost predicate Progress(u: Setup, found: Stored, st: Stored, ran: seq<Stage>, k: nat, env: Environment) {
    && k <= |u.defs| && ran == Missing(found, u.defs, k) && AllRecorded(st, ran, env)
    && (forall i | 0 <= i < k :: HasScenario(st, u.defs[i]))
    && (forall i | k <= i < |u.defs| :: HasScenario(st, u.defs[i]) <==> HasScenario(found, u.defs[i]))
    && forall i | 0 <= i < |ran| :: !Fails(ran[i], env)
  }

  lemma OneStageMore(u: Setup, found: Stored, st: Stored, next: Stored, ran: seq<Stage>, ran': seq<Stage>, k: nat,
                     env: Environment)
    requires k < |u.defs| && Progress(u, found, st, ran, k, env)
             && AllRecorded(next, ran', env)
    requires HasScenario(st, u.defs[k]) || !Fails(Run(u.defs[k]), env)
    requires forall i | 0 <= i < |u.defs| :: HasScenario(next, u.defs[i]) <==> i == k || HasScenario(st, u.defs[i])
    requires ran' == ran + if !HasScenario(st, u.defs[k]) then [Run(u.defs[k])] else []
    ensures Progress(u, found, next, ran', k + 1, env)
    ensures k + 1 == |u.defs| ==> RanUpTo(found, u.defs, ran', true, env)
  {
  }

  lemma StopsHere(u: Setup, found: Stored, st: Stored, ran: seq<Stage>, k: nat, env: Environment)
    requires k < |u.defs| && Progress(u, found, st, ran, k, env)
    requires !HasScenario(st, u.defs[k]) && Fails(Run(u.defs[k]), env)
    ensures RanUpTo(found, u.defs, ran, false, env)
  {
    assert Missing(found, u.defs, k + 1) == ran + [Run(u.defs[k])];
    MissingGrows(found, u.defs, k + 1, |u.defs|);
  }

  lemma NoTransport(u: Setup, found: Stored, env: Environment)
    requires found.rtt.None? && Fails(Transport, env)
    ensures RanUpTo(found, u.defs, [], false, env)
  {
    MissingGrows(found, u.defs, 0, |u.defs|);
  }

  lemma TransportDone(u: Setup, found: Stored, st: Stored, ran: seq<Stage>, env: Environment)
    requires ran == Missing(found, u.defs, 0)
             && forall stage <- ran :: !Fails(stage, env) && stage == Transport && st.rtt == env.measure
    requires forall i | 0 <= i < |u.defs| :: HasScenario(st, u.defs[i]) <==> HasScenario(found, u.defs[i])
    ensures Progress(u, found, st, ran, 0, env)
    ensures u.defs == [] ==> RanUpTo(found, u.defs, ran, true, env)
  {
    forall i | 0 <= i < |ran| ensures !Fails(ran[i], env) {
      assert ran[i] in ran;
    }
  }

  lemma SameRecorded(st: Stored, disk: Stored, ran: seq<Stage>, env: Environment)
    requires SameStages(st, disk) && AllRecorded(st, ran, env)
    ensures AllRecorded(disk, ran, env)
  {
    forall stage | stage in ran ensures Recorded(disk, stage, env) {
      assert Recorded(st, stage, env);
    }
  }

  lemma LoadFails(disk: Disk, u: Setup)
    ensures Load(disk, u.key, u.defs).None? <==> disk.Unreadable?
  {
  }

  lemma WholeReport(u: Setup, st: Stored)
    requires st.rtt.Some? && forall i | 0 <= i < |u.defs| :: HasScenario(st, u.defs[i])
    ensures ResumedCount(st, u.defs) == 1 + |u.defs| && |Report(u.defs, Held(st))| == |u.defs|
    ensures forall i | 0 <= i < |u.defs| :: u.defs[i] in Held(st) && Report(u.defs, Held(st))[i] == Held(st)[u.defs[i]]
  {
    CountAll(st, u.defs);
    forall i | 0 <= i < |u.defs| ensures u.defs[i] in Held(st) {
      HasScenarioIsHeld(st, u.defs[i]);
    }
    ByIdNamed(st.scenarios);
    ReportAll(u.defs, Held(st));
  }
}
