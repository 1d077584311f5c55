/**
 * The driver (`main`): the samples are processed one after another, each
 * through a fixed sequence of stages, and the first failing stage ends the
 * whole run, either with a named exit (`sys.exit('ERR_…')`) or with an
 * uncaught exception. External commands are represented by their exit status
 * and by the files they leave behind, all given in `Tools`.
 */
module Coordinator {
  import opened Wrappers
  import Text
  import Pairing
  import Hits
  import Fasta
  import Genotyping
  import Coverage
  import Sweep

  datatype Stage =
    | Import | Count | Sample | Blast | Choose | Extract | Genotype | Map | Assess
    | Trim | Normalise | Assemble | Evaluate | Remap | Report

  /** One attempted stage: the sample index (from 1), the stage, and the step within it. */
  datatype Event = Event(sample: nat, stage: Stage, step: nat)

  datatype ErrCode = ErrReads | ErrImport | ErrCount | ErrSample | ErrMap | ErrTrim | ErrNorm | ErrAsm

  /** How a run ends: normally, through `sys.exit` with a code, or by an exception raised at an event. */
  datatype Outcome = Completed | Exit(code: ErrCode) | Crash(at: Event)

  /** The outcome and the events attempted, in order. */
  datatype Trace = Trace(outcome: Outcome, events: seq<Event>)

  /** The command-line options that steer the control flow. */
  datatype Config = Config(
    inDir: string, fwdSig: string, revSig: string,
    normKList: string, normCList: string, untrustedContigs: bool)

  /** What the outside world answers. */
  datatype Tools = Tools(
    status: Event -> int,                   // exit status of the event's shell command
    countParses: nat -> bool,               // whether `int()` accepts the `wc -l` output of sample i
    lineCount: nat -> nat,                  // the number it yields
    trimLog: nat -> string,                 // Trimmomatic's standard error for sample i
    blastReport: nat -> seq<string>,        // the lines of blast/{i}.blast.tsv
    database: seq<string>,                  // the lines of the bundled reference database
    pileup: seq<Coverage.PileupRow>)        // the rows of map/1.segemehl_mapped.pile

  /** `map_reads` receives the sample index in its `threads` position and keeps its default index 1. */
  const MapIndex := 1

  /** The six commands of `map_reads`. */
  const MapSteps := 6

  /** The exit code of the stages that check their command's status. */
  function ExitCode(s: Stage): Option<ErrCode> {
    match s
    case Import => Some(ErrImport)
    case Count => Some(ErrCount)
    case Sample => Some(ErrSample)
    case Map => Some(ErrMap)
    case Trim => Some(ErrTrim)
    case Normalise => Some(ErrNorm)
    case Assemble => Some(ErrAsm)
    case _ => None
  }

  /** Whether the BLAST report has a hit row, so that a reference is found. */
  predicate Found(report: seq<string>) {
    exists j :: 0 <= j < |report| && !Hits.IsComment(report[j])
  }

  /** Whether `choose_reference` raises on a row without a second column. */
  predicate ChooseFails(report: seq<string>) {
    exists j :: 0 <= j < |report| && !Hits.IsComment(report[j]) && Hits.Accession(report[j]).None?
  }

  /** Whether `genotype` raises: a malformed hit row, or hits to divide by zero reads. */
  predicate GenotypeFails(report: seq<string>, lines: nat) {
    var keys := Hits.Keys(report, Genotyping.GenotypeOf);
    keys.None? || (keys.value != [] && lines == 0)
  }

  /** How an event ends the run, if it does. */
  function Check(tools: Tools, e: Event): (r: Option<Outcome>)
    ensures r != Some(Completed)
  {
    var i := e.sample;
    var failed := tools.status(e) != 0;
    match e.stage
    case Count =>
      if !tools.countParses(i) then Some(Crash(e)) else if failed then Some(Exit(ErrCount)) else None
    case Blast => if failed then Some(Crash(e)) else None
    case Choose => if ChooseFails(tools.blastReport(i)) then Some(Crash(e)) else None
    case Genotype => if GenotypeFails(tools.blastReport(i), tools.lineCount(i)) then Some(Crash(e)) else None
    case Assess => if i != MapIndex then Some(Crash(e)) else None
    case Trim =>
      if |Text.Split(tools.trimLog(i), "\n")| <= 25 then Some(Crash(e))
      else if failed then Some(Exit(ErrTrim))
      else None
    case _ => if ExitCode(e.stage).Some? && failed then Some(Exit(ExitCode(e.stage).value)) else None
  }

  /**
   * A stage exits only with its own code and only on a non-zero status; an
   * exception is raised at the event itself; and a checked stage whose command
   * fails always ends the run.
   */
  lemma CheckOutcomes(tools: Tools, e: Event)
    ensures var r := Check(tools, e);
      && (r.Some? && r.value.Exit? ==> ExitCode(e.stage) == Some(r.value.code) && tools.status(e) != 0)
      && (r.Some? && r.value.Crash? ==> r.value.at == e)
      && (ExitCode(e.stage).Some? && tools.status(e) != 0 ==> r.Some?)
  {}

  /** The steps `0 .. n-1` of one stage of sample `i`. */
  function Steps(i: nat, s: Stage, n: nat): seq<Event> {
    seq(n, j requires 0 <= j < n => Event(i, s, j))
  }

  function Front(i: nat): seq<Event> {
    [Event(i, Import, 0), Event(i, Count, 0), Event(i, Sample, 0), Event(i, Blast, 0)]
  }

  /** The stages that run only when a reference was found. */
  function WithReference(i: nat, found: bool): seq<Event> {
    if found then [Event(i, Extract, 0)] + ([Event(i, Genotype, 0)] + (Steps(i, Map, MapSteps) + [Event(i, Assess, 0)]))
    else []
  }

  function Back(cfg: Config, i: nat, found: bool): seq<Event> {
    var norm := Sweep.NormPlan(cfg.normKList, cfg.normCList);
    [Event(i, Trim, 0)] + Steps(i, Normalise, |norm|)
      + Steps(i, Assemble, |Sweep.AsmPlan(norm, found, cfg.untrustedContigs)|)
      + [Event(i, Evaluate, 0), Event(i, Remap, 0)]
  }

  /** The body of the loop over samples, for sample `i`. */
  function SamplePlan(cfg: Config, tools: Tools, i: nat): seq<Event> {
    var found := Found(tools.blastReport(i));
    Front(i) + ([Event(i, Choose, 0)] + (WithReference(i, found) + Back(cfg, i, found)))
  }

  /** The plan of each sample, as a function of its index. */
  function Plans(cfg: Config, tools: Tools): nat -> seq<Event> {
    (i: nat) => SamplePlan(cfg, tools, i)
  }

  /** The loop over samples `lo .. n`, in order. */
  function Loop(plan: nat -> seq<Event>, lo: nat, n: nat): seq<Event>
    decreases n + 1 - lo
  {
    if lo > n then [] else plan(lo) + Loop(plan, lo + 1, n)
  }

  /** The loop over `n` samples followed by `report(paths, i)` with the last index. */
  function Schedule(cfg: Config, tools: Tools, n: nat): seq<Event> {
    Loop(Plans(cfg, tools), 1, n) + [Event(n, Report, 0)]
  }

  /** `Check` for a fixed outside world. */
  function Checker(tools: Tools): Event -> Option<Outcome> {
    e => Check(tools, e)
  }

  /** Fail-fast execution: events run in order until the first one that ends the run. */
  function Run(check: Event -> Option<Outcome>, evs: seq<Event>): Trace {
    if evs == [] then Trace(Completed, [])
    else match check(evs[0])
      case Some(o) => Trace(o, [evs[0]])
      case None => var rest := Run(check, evs[1..]); Trace(rest.outcome, [evs[0]] + rest.events)
  }

  /** The number of samples `list_fastqs` pairs, 0 where it exits with `ERR_READS`. */
  function SampleCount(cfg: Config, listing: seq<string>): nat {
    var fwd := Pairing.Selected(cfg.inDir, listing, cfg.fwdSig, cfg.revSig, Pairing.Forward);
    var rev := Pairing.Selected(cfg.inDir, listing, cfg.fwdSig, cfg.revSig, Pairing.Reverse);
    if fwd == [] || rev == [] then 0 else |Pairing.Keyed(Pairing.Zip(fwd, rev), cfg.fwdSig)|
  }

  /** The whole program: `list_fastqs`, then the schedule over the samples it pairs. */
  function Spec(cfg: Config, tools: Tools, listing: seq<string>): Trace {
    var n := SampleCount(cfg, listing);
    if n == 0 then Trace(Exit(ErrReads), [])
    else Run(Checker(tools), Schedule(cfg, tools, n))
  }

  /** A trace preceded by events that all passed. */
  function After(done: seq<Event>, r: Trace): Trace {
    Trace(r.outcome, done + r.events)
  }

  /** A stage never reports normal completion of the whole run. */
  ghost predicate Stops(check: Event -> Option<Outcome>) {
    forall e :: check(e) != Some(Completed)
  }

  lemma CheckerStops(tools: Tools)
    ensures Stops(Checker(tools))
  {
    forall e ensures Checker(tools)(e) != Some(Completed) {
      assert Checker(tools)(e) == Check(tools, e);
    }
  }

  predicate AllPass(check: Event -> Option<Outcome>, evs: seq<Event>) {
    forall k :: 0 <= k < |evs| ==> check(evs[k]).None?
  }

  /**
   * Fail fast: the events attempted are a prefix of the schedule; the run
   * completes exactly when every event passes, and otherwise ends with the
   * outcome of the last event attempted, all earlier ones having passed.
   */
  lemma {:induction false} FailFast(check: Event -> Option<Outcome>, evs: seq<Event>)
    requires Stops(check)
    ensures var r := Run(check, evs);
      && |r.events| <= |evs| && r.events == evs[..|r.events|]
      && (r.outcome == Completed <==> r.events == evs && AllPass(check, evs))
      && (r.outcome != Completed ==>
            && r.events != []
            && check(r.events[|r.events| - 1]) == Some(r.outcome)
            && AllPass(check, r.events[..|r.events| - 1]))
    decreases |evs|
  {
    if evs != [] && check(evs[0]).None? {
      var rest := Run(check, evs[1..]);
      FailFast(check, evs[1..]);
      assert Run(check, evs).events == [evs[0]] + rest.events;
      assert evs == [evs[0]] + evs[1..];
      if rest.outcome != Completed {
        assert ([evs[0]] + rest.events)[..|rest.events|] == [evs[0]] + rest.events[..|rest.events| - 1];
      }
      if !AllPass(check, evs) {
        var k :| 0 <= k < |evs| && check(evs[k]).Some?;
        assert evs[1..][k - 1] == evs[k];
      }
    }
  }

  /** Running two schedules back to back: the second starts only if the first completes. */
  lemma {:induction false} RunAppend(check: Event -> Option<Outcome>, a: seq<Event>, b: seq<Event>)
    requires Stops(check)
    ensures Run(check, a + b) == if Run(check, a).outcome == Completed then After(a, Run(check, b)) else Run(check, a)
    decreases |a|
  {
    if a == [] {
      assert a + b == b;
    } else {
      assert (a + b)[0] == a[0] && (a + b)[1..] == a[1..] + b;
      if check(a[0]).None? {
        RunAppend(check, a[1..], b);
        Text.Assoc([a[0]], a[1..], Run(check, b).events);
        assert a == [a[0]] + a[1..];
      }
    }
  }

  /** One more schedule run after events that all passed. */
  lemma Advance(check: Event -> Option<Outcome>, done: seq<Event>, a: seq<Event>, b: seq<Event>)
    requires Stops(check)
    ensures var whole := After(done, Run(check, a + b));
      && (Run(check, a).outcome != Completed ==> whole == After(done, Run(check, a)))
      && (Run(check, a).outcome == Completed ==> whole == After(done + a, Run(check, b)))
  {
    RunAppend(check, a, b);
    var rb := Run(check, b).events;
    assert done + (a + rb) == (done + a) + rb;
  }

  /** A trace preceded by more events that passed, one block after another. */
  lemma AfterAfter(a: seq<Event>, b: seq<Event>, t: Trace)
    ensures After(a, After(b, t)) == After(a + b, t)
  {
    Text.Assoc(a, b, t.events);
  }

  /** One event, then the rest of a schedule. */
  lemma RunCons(check: Event -> Option<Outcome>, e: Event, rest: seq<Event>)
    ensures Run(check, [e] + rest) ==
      if check(e).Some? then Trace(check(e).value, [e]) else After([e], Run(check, rest))
  {
    assert ([e] + rest)[0] == e && ([e] + rest)[1..] == rest;
  }

  /** The run from position `i` of a schedule, one event further. */
  lemma RunStep(check: Event -> Option<Outcome>, evs: seq<Event>, i: nat)
    requires i < |evs|
    ensures Run(check, evs[i..]) ==
      if check(evs[i]).Some? then Trace(check(evs[i]).value, [evs[i]]) else After([evs[i]], Run(check, evs[i + 1..]))
  {
    assert evs[i..] == [evs[i]] + evs[i + 1..];
    RunCons(check, evs[i], evs[i + 1..]);
  }

  /** The loop over a list of commands, each checked as it finishes. */
  method RunEvents(check: Event -> Option<Outcome>, evs: seq<Event>) returns (r: Trace)
    ensures r == Run(check, evs)
  {
    var i := 0;
    while i < |evs|
      invariant 0 <= i <= |evs|
      invariant Run(check, evs) == After(evs[..i], Run(check, evs[i..]))
    {
      RunStep(check, evs, i);
      var c := check(evs[i]);
      assert evs[..i] + [evs[i]] == evs[..i + 1];
      if c.Some? {
        return Trace(c.value, evs[..i + 1]);
      }
      AfterAfter(evs[..i], [evs[i]], Run(check, evs[i + 1..]));
      i := i + 1;
    }
    assert evs[..i] == evs && evs[i..] == [];
    r := Trace(Completed, evs);
  }

  /**
   * What the runner relies on about `check`, which stands for `Checker(tools)`:
   * no stage completes the whole run, and the stages computed in-process
   * (choice, extraction, genotyping, coverage, report) end the run exactly as
   * `Check` says.
   */
  ghost predicate Consults(check: Event -> Option<Outcome>, tools: Tools) {
    && Stops(check)
    && (forall i: nat :: check(Event(i, Choose, 0))
          == if ChooseFails(tools.blastReport(i)) then Some(Crash(Event(i, Choose, 0))) else None)
    && (forall i: nat :: check(Event(i, Extract, 0)) == None)
    && (forall i: nat :: check(Event(i, Genotype, 0))
          == if GenotypeFails(tools.blastReport(i), tools.lineCount(i)) then Some(Crash(Event(i, Genotype, 0))) else None)
    && (forall i: nat :: check(Event(i, Assess, 0)) == if i != MapIndex then Some(Crash(Event(i, Assess, 0))) else None)
    && (forall i: nat :: check(Event(i, Report, 0)) == None)
  }

  lemma CheckerConsults(tools: Tools)
    ensures Consults(Checker(tools), tools)
  {
    CheckerStops(tools);
  }

  /** `extract_reference` on the bundled database: the length of the reference written. */
  method ExtractStage(tools: Tools, accession: string) returns (length: nat)
    ensures length == |Fasta.Extracted(accession, Fasta.Records(tools.database))|
  {
    var reference, written;
    reference, written, length := Fasta.ExtractReference(accession, tools.database);
  }

  /** `genotype` for sample `i`: whether it raises. */
  method GenotypeStage(tools: Tools, i: nat) returns (c: Option<Outcome>)
    ensures c == if GenotypeFails(tools.blastReport(i), tools.lineCount(i)) then Some(Crash(Event(i, Genotype, 0))) else None
  {
    var typing := Genotyping.Genotype(tools.blastReport(i), tools.lineCount(i));
    c := if typing.None? then Some(Crash(Event(i, Genotype, 0))) else None;
  }

  /**
   * `assess_coverage` for sample `i`: only the pileup of index `MapIndex` exists,
   * so any other sample raises opening it; that one is judged on its uncovered
   * sites against the length of the extracted reference.
   */
  method AssessStage(tools: Tools, i: nat, length: nat) returns (c: Option<Outcome>, a: Option<Coverage.Assessment>)
    ensures c == if i != MapIndex then Some(Crash(Event(i, Assess, 0))) else None
    ensures a.Some? <==> i == MapIndex
    ensures a.Some? ==>
      && a.value.uncovered == Coverage.Uncovered(tools.pileup)
      && a.value.regions == Coverage.Measure(a.value.uncovered).regions
      && a.value.largest == Coverage.Measure(a.value.uncovered).largest
      && a.value.verdict == Coverage.Judge(|Coverage.Uncovered(tools.pileup)|, length)
  {
    if i != MapIndex {
      return Some(Crash(Event(i, Assess, 0))), None;
    }
    var assessment := Coverage.AssessCoverage(tools.pileup, length);
    c, a := None, Some(assessment);
  }

  /** `map_reads` and then `assess_coverage`. */
  method RunMapping(check: Event -> Option<Outcome>, tools: Tools, i: nat, length: nat) returns (r: Trace)
    requires Consults(check, tools)
    ensures r == Run(check, Steps(i, Map, MapSteps) + [Event(i, Assess, 0)])
  {
    var ae := Event(i, Assess, 0);
    var maps := Steps(i, Map, MapSteps);
    var mapped := RunEvents(check, maps);
    RunAppend(check, maps, [ae]);
    if mapped.outcome != Completed {
      return mapped;
    }
    RunCompleted(check, maps);
    RunCons(check, ae, []);
    var c, assessment := AssessStage(tools, i, length);
    if c.Some? {
      return After(maps, Trace(c.value, [ae]));
    }
    r := After(maps, After([ae], Trace(Completed, [])));
  }

  /** The stages that need the reference: extraction, genotyping, mapping and coverage. */
  method RunWithReference(check: Event -> Option<Outcome>, tools: Tools, i: nat, accession: string) returns (r: Trace)
    requires Consults(check, tools)
    ensures r == Run(check, WithReference(i, true))
  {
    var ex, ge := Event(i, Extract, 0), Event(i, Genotype, 0);
    ghost var rest := Steps(i, Map, MapSteps) + [Event(i, Assess, 0)];
    var length := ExtractStage(tools, accession);
    RunCons(check, ex, [ge] + rest);
    var c := GenotypeStage(tools, i);
    RunCons(check, ge, rest);
    if c.Some? {
      return After([ex], Trace(c.value, [ge]));
    }
    var mapped := RunMapping(check, tools, i, length);
    r := After([ex], After([ge], mapped));
  }

  /** Everything after `choose_reference`: the reference stages when found, then trimming to evaluation. */
  method RunAfterChoice(check: Event -> Option<Outcome>, cfg: Config, tools: Tools, i: nat, found: bool, accession: string)
    returns (r: Trace)
    requires Consults(check, tools)
    ensures r == Run(check, WithReference(i, found) + Back(cfg, i, found))
  {
    var back := Back(cfg, i, found);
    if found {
      var head := RunWithReference(check, tools, i, accession);
      RunAppend(check, WithReference(i, true), back);
      if head.outcome != Completed {
        return head;
      }
      RunCompleted(check, WithReference(i, true));
      var tail := RunEvents(check, back);
      return After(WithReference(i, true), tail);
    }
    assert WithReference(i, false) + back == back;
    r := RunEvents(check, back);
  }

  /** One iteration of the loop over samples. */
  method RunSample(check: Event -> Option<Outcome>, cfg: Config, tools: Tools, i: nat) returns (r: Trace)
    requires Consults(check, tools)
    ensures r == Run(check, SamplePlan(cfg, tools, i))
  {
    var report := tools.blastReport(i);
    var ce := Event(i, Choose, 0);
    ghost var found := Found(report);
    ghost var rest := WithReference(i, found) + Back(cfg, i, found);
    var front := RunEvents(check, Front(i));
    RunAppend(check, Front(i), [ce] + rest);
    if front.outcome != Completed {
      return front;
    }
    RunCompleted(check, Front(i));
    var choice := Hits.ChooseReference(report);
    assert check(ce) == if choice.None? then Some(Crash(ce)) else None;
    RunCons(check, ce, rest);
    if choice.None? {
      return After(Front(i), Trace(Crash(ce), [ce]));
    }
    var hasReference := choice.value.Found?;
    var accession := if hasReference then choice.value.accession else "";
    var tail := RunAfterChoice(check, cfg, tools, i, hasReference, accession);
    r := After(Front(i), After([ce], tail));
  }

  lemma LoopUnfold(plan: nat -> seq<Event>, i: nat, n: nat, last: Event)
    requires i <= n
    ensures Loop(plan, i, n) + [last] == plan(i) + (Loop(plan, i + 1, n) + [last])
  {
    Text.Assoc(plan(i), Loop(plan, i + 1, n), [last]);
  }

  lemma RunCompleted(check: Event -> Option<Outcome>, evs: seq<Event>)
    requires Stops(check)
    ensures Run(check, evs).outcome == Completed ==> Run(check, evs).events == evs
  {
    FailFast(check, evs);
  }

  /** After the last sample, `report` runs and checks nothing. */
  lemma ReportPasses(check: Event -> Option<Outcome>, plans: nat -> seq<Event>, done: seq<Event>, n: nat)
    requires check(Event(n, Report, 0)) == None
    ensures After(done, Run(check, Loop(plans, n + 1, n) + [Event(n, Report, 0)]))
         == Trace(Completed, done + [Event(n, Report, 0)])
  {
    var last := Event(n, Report, 0);
    assert Loop(plans, n + 1, n) + [last] == [last];
    RunCons(check, last, []);
    assert [last] + [] == [last];
  }

  /** The loop of `main` over samples `1..n`, then `report(paths, i)` with the last index. */
  method RunSchedule(check: Event -> Option<Outcome>, cfg: Config, tools: Tools, n: nat) returns (r: Trace)
    requires Consults(check, tools)
    ensures r == Run(check, Schedule(cfg, tools, n))
  {
    var last := Event(n, Report, 0);
    ghost var schedule := Schedule(cfg, tools, n);
    ghost var plans := Plans(cfg, tools);
    var done: seq<Event> := [];
    var i := 1;
    while i <= n
      invariant 1 <= i <= n + 1
      invariant Run(check, schedule) == After(done, Run(check, Loop(plans, i, n) + [last]))
      decreases n + 1 - i
    {
      var sample := RunSample(check, cfg, tools, i);
      ghost var plan := SamplePlan(cfg, tools, i);
      ghost var later := Loop(plans, i + 1, n) + [last];
      LoopUnfold(plans, i, n, last);
      Advance(check, done, plan, later);
      if sample.outcome != Completed {
        return After(done, sample);
      }
      RunCompleted(check, plan);
      done := done + sample.events;
      i := i + 1;
    }
    ReportPasses(check, plans, done, n);
    r := Trace(Completed, done + [last]);
  }

  /**
   * `main`: pair the read files, run every sample in turn and finish with the
   * report, stopping at the first stage that exits or raises.
   */
  method Pipeline(cfg: Config, tools: Tools, listing: seq<string>) returns (r: Trace)
    ensures r == Spec(cfg, tools, listing)
  {
    var inputs := Pairing.ListFastqs(cfg.inDir, listing, cfg.fwdSig, cfg.revSig);
    if inputs.None? {
      return Trace(Exit(ErrReads), []);
    }
    CheckerConsults(tools);
    r := RunSchedule(Checker(tools), cfg, tools, |inputs.value.samples|);
  }

  /** The stages every sample reaches before the reference block, when nothing fails. */
  const Opening: set<Stage> := {Import, Count, Sample, Blast, Choose}

  /** The stages every sample reaches after the reference block, when nothing fails. */
  const Closing: set<Stage> := {Trim, Normalise, Assemble, Evaluate, Remap}

  /** The stages gated as a block on `reference_found`. */
  const Gated: set<Stage> := {Extract, Genotype, Map, Assess}

  /** The stages attempted for sample `i`. */
  function StagesOf(evs: seq<Event>, i: nat): set<Stage> {
    if evs == [] then {}
    else (if evs[0].sample == i then {evs[0].stage} else {}) + StagesOf(evs[1..], i)
  }

  lemma StagesOfOne(e: Event, i: nat)
    ensures StagesOf([e], i) == if e.sample == i then {e.stage} else {}
  {
    assert [e][1..] == [];
  }

  lemma {:induction false} StagesAppend(a: seq<Event>, b: seq<Event>, i: nat)
    ensures StagesOf(a + b, i) == StagesOf(a, i) + StagesOf(b, i)
    decreases |a|
  {
    if a == [] {
      assert a + b == b;
    } else {
      assert (a + b)[1..] == a[1..] + b;
      StagesAppend(a[1..], b, i);
    }
  }

  lemma {:induction false} StagesOfSteps(i: nat, s: Stage, m: nat)
    ensures StagesOf(Steps(i, s, m), i) == if m > 0 then {s} else {}
  {
    if m > 0 {
      assert Steps(i, s, m) == Steps(i, s, m - 1) + [Event(i, s, m - 1)];
      StagesAppend(Steps(i, s, m - 1), [Event(i, s, m - 1)], i);
      StagesOfOne(Event(i, s, m - 1), i);
      StagesOfSteps(i, s, m - 1);
    }
  }

  /** The sample indices of some events. */
  function SamplesIn(evs: seq<Event>): set<nat> {
    if evs == [] then {} else {evs[0].sample} + SamplesIn(evs[1..])
  }

  lemma SamplesInOne(e: Event)
    ensures SamplesIn([e]) == {e.sample}
  {
    assert [e][1..] == [];
  }

  lemma {:induction false} SamplesInAppend(a: seq<Event>, b: seq<Event>)
    ensures SamplesIn(a + b) == SamplesIn(a) + SamplesIn(b)
    decreases |a|
  {
    if a == [] {
      assert a + b == b;
    } else {
      assert (a + b)[1..] == a[1..] + b;
      SamplesInAppend(a[1..], b);
    }
  }

  lemma {:induction false} StepsSamples(i: nat, s: Stage, m: nat)
    ensures SamplesIn(Steps(i, s, m)) == if m > 0 then {i} else {}
  {
    if m > 0 {
      assert Steps(i, s, m) == Steps(i, s, m - 1) + [Event(i, s, m - 1)];
      SamplesInAppend(Steps(i, s, m - 1), [Event(i, s, m - 1)]);
      SamplesInOne(Event(i, s, m - 1));
      StepsSamples(i, s, m - 1);
    }
  }

  lemma FrontStages(i: nat)
    ensures SamplesIn(Front(i) + [Event(i, Choose, 0)]) == {i}
    ensures StagesOf(Front(i) + [Event(i, Choose, 0)], i) == Opening
  {
    var e0, e1, e2, e3, e4 := Event(i, Import, 0), Event(i, Count, 0), Event(i, Sample, 0), Event(i, Blast, 0), Event(i, Choose, 0);
    assert Front(i) + [e4] == [e0] + ([e1] + ([e2] + ([e3] + [e4])));
    StagesAppend([e3], [e4], i);
    StagesAppend([e2], [e3] + [e4], i);
    StagesAppend([e1], [e2] + ([e3] + [e4]), i);
    StagesAppend([e0], [e1] + ([e2] + ([e3] + [e4])), i);
    SamplesInAppend([e3], [e4]);
    SamplesInAppend([e2], [e3] + [e4]);
    SamplesInAppend([e1], [e2] + ([e3] + [e4]));
    SamplesInAppend([e0], [e1] + ([e2] + ([e3] + [e4])));
    StagesOfOne(e0, i);
    StagesOfOne(e1, i);
    StagesOfOne(e2, i);
    StagesOfOne(e3, i);
    StagesOfOne(e4, i);
    SamplesInOne(e0);
    SamplesInOne(e1);
    SamplesInOne(e2);
    SamplesInOne(e3);
    SamplesInOne(e4);
  }

  lemma WithReferenceStages(i: nat, found: bool)
    ensures SamplesIn(WithReference(i, found)) == if found then {i} else {}
    ensures StagesOf(WithReference(i, found), i) == if found then Gated else {}
  {
    if found {
      var ex, ge := [Event(i, Extract, 0)], [Event(i, Genotype, 0)];
      var ms, ae := Steps(i, Map, MapSteps), [Event(i, Assess, 0)];
      StagesAppend(ms, ae, i);
      StagesAppend(ge, ms + ae, i);
      StagesAppend(ex, ge + (ms + ae), i);
      StagesOfSteps(i, Map, MapSteps);
      SamplesInAppend(ms, ae);
      SamplesInAppend(ge, ms + ae);
      SamplesInAppend(ex, ge + (ms + ae));
      StepsSamples(i, Map, MapSteps);
      StagesOfOne(Event(i, Assess, 0), i);
      StagesOfOne(Event(i, Genotype, 0), i);
      StagesOfOne(Event(i, Extract, 0), i);
      SamplesInOne(Event(i, Assess, 0));
      SamplesInOne(Event(i, Genotype, 0));
      SamplesInOne(Event(i, Extract, 0));
    }
  }

  lemma PlanSizes(cfg: Config, found: bool)
    ensures var norm := Sweep.NormPlan(cfg.normKList, cfg.normCList);
      |norm| > 0 && |Sweep.AsmPlan(norm, found, cfg.untrustedContigs)| > 0
  {
    var norm := Sweep.NormPlan(cfg.normKList, cfg.normCList);
    Sweep.NormPlanShape(cfg.normKList, cfg.normCList, 0, 0);
    Sweep.AsmPlanShape(norm, found, cfg.untrustedContigs, 0);
  }

  /** The events after the reference block belong to sample `i`. */
  lemma BackSamples(cfg: Config, i: nat, found: bool)
    ensures SamplesIn(Back(cfg, i, found)) == {i}
  {
    var norm := Sweep.NormPlan(cfg.normKList, cfg.normCList);
    var asm := Sweep.AsmPlan(norm, found, cfg.untrustedContigs);
    PlanSizes(cfg, found);
    var tr := [Event(i, Trim, 0)];
    var ns := Steps(i, Normalise, |norm|);
    var asms := Steps(i, Assemble, |asm|);
    var ev := [Event(i, Evaluate, 0), Event(i, Remap, 0)];
    assert Back(cfg, i, found) == tr + ns + asms + ev;
    SamplesInAppend(tr, ns);
    SamplesInAppend(tr + ns, asms);
    SamplesInAppend(tr + ns + asms, ev);
    StepsSamples(i, Normalise, |norm|);
    StepsSamples(i, Assemble, |asm|);
    SamplesInOne(Event(i, Trim, 0));
    assert ev == [Event(i, Evaluate, 0)] + [Event(i, Remap, 0)];
    SamplesInAppend([Event(i, Evaluate, 0)], [Event(i, Remap, 0)]);
    SamplesInOne(Event(i, Evaluate, 0));
    SamplesInOne(Event(i, Remap, 0));
  }

  /** After the reference block, every sample is trimmed, normalised, assembled, evaluated and remapped. */
  lemma BackStages(cfg: Config, i: nat, found: bool)
    ensures StagesOf(Back(cfg, i, found), i) == Closing
  {
    var norm := Sweep.NormPlan(cfg.normKList, cfg.normCList);
    var asm := Sweep.AsmPlan(norm, found, cfg.untrustedContigs);
    PlanSizes(cfg, found);
    var tr := [Event(i, Trim, 0)];
    var ns := Steps(i, Normalise, |norm|);
    var asms := Steps(i, Assemble, |asm|);
    var ev := [Event(i, Evaluate, 0), Event(i, Remap, 0)];
    assert Back(cfg, i, found) == tr + ns + asms + ev;
    StagesAppend(tr, ns, i);
    StagesAppend(tr + ns, asms, i);
    StagesAppend(tr + ns + asms, ev, i);
    StagesOfSteps(i, Normalise, |norm|);
    StagesOfSteps(i, Assemble, |asm|);
    StagesOfOne(Event(i, Trim, 0), i);
    assert ev == [Event(i, Evaluate, 0)] + [Event(i, Remap, 0)];
    StagesAppend([Event(i, Evaluate, 0)], [Event(i, Remap, 0)], i);
    StagesOfOne(Event(i, Evaluate, 0), i);
    StagesOfOne(Event(i, Remap, 0), i);
  }

  /** Each sample's plan: its own events only, the reference stages exactly when a hit row exists. */
  lemma PlanStages(cfg: Config, tools: Tools, i: nat)
    ensures SamplesIn(SamplePlan(cfg, tools, i)) == {i}
    ensures StagesOf(SamplePlan(cfg, tools, i), i) == Opening + ((if Found(tools.blastReport(i)) then Gated else {}) + Closing)
  {
    var found := Found(tools.blastReport(i));
    var f, ce := Front(i), [Event(i, Choose, 0)];
    var wr, bk := WithReference(i, found), Back(cfg, i, found);
    Text.Assoc(f, ce, wr + bk);
    FrontStages(i);
    WithReferenceStages(i, found);
    BackSamples(cfg, i, found);
    BackStages(cfg, i, found);
    StagesAppend(wr, bk, i);
    StagesAppend(f + ce, wr + bk, i);
    SamplesInAppend(wr, bk);
    SamplesInAppend(f + ce, wr + bk);
  }

  lemma {:induction false} StagesOfAbsent(evs: seq<Event>, i: nat)
    requires i !in SamplesIn(evs)
    ensures StagesOf(evs, i) == {}
    decreases |evs|
  {
    if evs != [] {
      StagesOfAbsent(evs[1..], i);
    }
  }

  lemma {:induction false} StagesOfIndex(evs: seq<Event>, i: nat, s: Stage)
    requires s in StagesOf(evs, i)
    ensures exists k :: 0 <= k < |evs| && evs[k].sample == i && evs[k].stage == s
    decreases |evs|
  {
    if !(evs[0].sample == i && evs[0].stage == s) {
      StagesOfIndex(evs[1..], i, s);
      var k :| 0 <= k < |evs[1..]| && evs[1..][k].sample == i && evs[1..][k].stage == s;
      assert evs[k + 1] == evs[1..][k];
    }
  }

  lemma {:induction false} SamplesInIndex(evs: seq<Event>, k: nat)
    requires k < |evs|
    ensures evs[k].sample in SamplesIn(evs)
    decreases k
  {
    if k > 0 {
      SamplesInIndex(evs[1..], k - 1);
    }
  }

  /** Events in order of their sample index. */
  predicate Ordered(evs: seq<Event>) {
    forall k, l :: 0 <= k < l < |evs| ==> evs[k].sample <= evs[l].sample
  }

  lemma OrderedAppend(a: seq<Event>, b: seq<Event>, mid: nat)
    requires Ordered(a) && Ordered(b)
    requires forall x :: x in SamplesIn(a) ==> x <= mid
    requires forall x :: x in SamplesIn(b) ==> mid <= x
    ensures Ordered(a + b)
  {
    forall k, l | 0 <= k < l < |a + b| ensures (a + b)[k].sample <= (a + b)[l].sample {
      if l < |a| {
        assert (a + b)[k] == a[k] && (a + b)[l] == a[l];
      } else if k < |a| {
        SamplesInIndex(a, k);
        SamplesInIndex(b, l - |a|);
        assert (a + b)[k] == a[k] && (a + b)[l] == b[l - |a|];
      } else {
        assert (a + b)[k] == b[k - |a|] && (a + b)[l] == b[l - |a|];
      }
    }
  }

  /** Plans that each touch their own sample only. */
  ghost predicate OwnSamples(plan: nat -> seq<Event>) {
    forall i :: SamplesIn(plan(i)) <= {i}
  }

  /** The loop over samples `lo .. n` touches those samples only. */
  lemma {:induction false} LoopRange(plan: nat -> seq<Event>, lo: nat, n: nat)
    requires OwnSamples(plan)
    ensures forall x :: x in SamplesIn(Loop(plan, lo, n)) ==> lo <= x <= n
    decreases n + 1 - lo
  {
    if lo <= n {
      var a, b := plan(lo), Loop(plan, lo + 1, n);
      assert SamplesIn(a) <= {lo};
      LoopRange(plan, lo + 1, n);
      SamplesInAppend(a, b);
    }
  }

  lemma SingleSampleOrdered(a: seq<Event>, lo: nat)
    requires SamplesIn(a) <= {lo}
    ensures Ordered(a)
  {
    forall k, l | 0 <= k < l < |a| ensures a[k].sample <= a[l].sample {
      SamplesInIndex(a, k);
      SamplesInIndex(a, l);
    }
  }

  /** The loop over samples `lo .. n` visits them in order. */
  lemma {:induction false} LoopOrdered(plan: nat -> seq<Event>, lo: nat, n: nat)
    requires OwnSamples(plan)
    ensures Ordered(Loop(plan, lo, n))
    decreases n + 1 - lo
  {
    if lo <= n {
      var a, b := plan(lo), Loop(plan, lo + 1, n);
      assert SamplesIn(a) <= {lo};
      LoopRange(plan, lo + 1, n);
      LoopOrdered(plan, lo + 1, n);
      SingleSampleOrdered(a, lo);
      OrderedAppend(a, b, lo);
    }
  }

  /** In the loop over samples `lo .. n`, sample `i` goes through the stages of its own plan. */
  lemma {:induction false} LoopStages(plan: nat -> seq<Event>, lo: nat, n: nat, i: nat)
    requires OwnSamples(plan)
    ensures StagesOf(Loop(plan, lo, n), i) == if lo <= i <= n then StagesOf(plan(i), i) else {}
    decreases n + 1 - lo
  {
    if lo <= n {
      var a, b := plan(lo), Loop(plan, lo + 1, n);
      LoopStages(plan, lo + 1, n, i);
      StagesAppend(a, b, i);
      if i != lo {
        assert i !in SamplesIn(a) by {
          assert SamplesIn(a) <= {lo};
        }
        StagesOfAbsent(a, i);
      } else {
        LoopRange(plan, lo + 1, n);
        StagesOfAbsent(b, i);
      }
    }
  }

  lemma PlansOwnSamples(cfg: Config, tools: Tools)
    ensures OwnSamples(Plans(cfg, tools))
  {
    forall i ensures SamplesIn(Plans(cfg, tools)(i)) <= {i} {
      PlanStages(cfg, tools, i);
    }
  }

  /** The stages each sample goes through in the full schedule, the report coming with the last one. */
  lemma ScheduleStages(cfg: Config, tools: Tools, n: nat, i: nat)
    requires 1 <= i <= n
    ensures StagesOf(Schedule(cfg, tools, n), i)
         == Opening + ((if Found(tools.blastReport(i)) then Gated else {}) + Closing) + (if i == n then {Report} else {})
  {
    var plans := Plans(cfg, tools);
    PlansOwnSamples(cfg, tools);
    LoopStages(plans, 1, n, i);
    PlanStages(cfg, tools, i);
    StagesAppend(Loop(plans, 1, n), [Event(n, Report, 0)], i);
    StagesOfOne(Event(n, Report, 0), i);
  }

  lemma ScheduleOrdered(cfg: Config, tools: Tools, n: nat)
    ensures Ordered(Schedule(cfg, tools, n))
  {
    var plans := Plans(cfg, tools);
    PlansOwnSamples(cfg, tools);
    LoopRange(plans, 1, n);
    LoopOrdered(plans, 1, n);
    SamplesInOne(Event(n, Report, 0));
    OrderedAppend(Loop(plans, 1, n), [Event(n, Report, 0)], n);
  }

  /** How a run of the stage checks ends: the exit or exception comes from the last event attempted. */
  lemma {:induction false} RunExits(tools: Tools, evs: seq<Event>)
    ensures var r := Run(Checker(tools), evs);
      && (r.outcome.Exit? ==>
            && r.events != []
            && ExitCode(r.events[|r.events| - 1].stage) == Some(r.outcome.code)
            && tools.status(r.events[|r.events| - 1]) != 0
            && forall k :: 0 <= k < |r.events| - 1 && ExitCode(r.events[k].stage).Some? ==> tools.status(r.events[k]) == 0)
      && (r.outcome.Crash? ==> r.events != [] && r.outcome.at == r.events[|r.events| - 1])
  {
    var check := Checker(tools);
    CheckerStops(tools);
    FailFast(check, evs);
    var r := Run(check, evs);
    if r.outcome != Completed {
      var last := r.events[|r.events| - 1];
      assert check(last) == Check(tools, last);
      CheckOutcomes(tools, last);
      forall k | 0 <= k < |r.events| - 1 && ExitCode(r.events[k].stage).Some?
        ensures tools.status(r.events[k]) == 0
      {
        assert r.events[..|r.events| - 1][k] == r.events[k];
        assert check(r.events[k]) == Check(tools, r.events[k]);
        CheckOutcomes(tools, r.events[k]);
      }
    }
  }

  /** A prefix of events in sample order is in sample order. */
  lemma PrefixOrdered(evs: seq<Event>, m: nat)
    requires Ordered(evs) && m <= |evs|
    ensures Ordered(evs[..m])
  {
    forall k, l | 0 <= k < l < m ensures evs[..m][k].sample <= evs[..m][l].sample {
      assert evs[..m][k] == evs[k] && evs[..m][l] == evs[l];
    }
  }

  /**
   * Fail fast over the samples: the run attempts a prefix of the schedule,
   * sample by sample; an exit comes from the last event attempted, a checked
   * stage whose command returned a non-zero status, every earlier checked
   * stage having returned zero; an exception is raised at the last event.
   */
  lemma StopsAtFirstFailure(cfg: Config, tools: Tools, n: nat)
    ensures var sch := Schedule(cfg, tools, n);
      var r := Run(Checker(tools), sch);
      && |r.events| <= |sch| && r.events == sch[..|r.events|]
      && Ordered(r.events)
      && (r.outcome.Exit? ==>
            && r.events != []
            && ExitCode(r.events[|r.events| - 1].stage) == Some(r.outcome.code)
            && tools.status(r.events[|r.events| - 1]) != 0
            && forall k :: 0 <= k < |r.events| - 1 && ExitCode(r.events[k].stage).Some? ==> tools.status(r.events[k]) == 0)
      && (r.outcome.Crash? ==> r.events != [] && r.outcome.at == r.events[|r.events| - 1])
  {
    var sch := Schedule(cfg, tools, n);
    CheckerStops(tools);
    FailFast(Checker(tools), sch);
    ScheduleOrdered(cfg, tools, n);
    PrefixOrdered(sch, |Run(Checker(tools), sch).events|);
    RunExits(tools, sch);
  }

  /** When the run completes, every sample went through all of its stages, the reference block exactly when found. */
  lemma CompletedStages(cfg: Config, tools: Tools, n: nat, i: nat)
    requires 1 <= i <= n
    requires Run(Checker(tools), Schedule(cfg, tools, n)).outcome == Completed
    ensures StagesOf(Run(Checker(tools), Schedule(cfg, tools, n)).events, i)
         == Opening + ((if Found(tools.blastReport(i)) then Gated else {}) + Closing) + (if i == n then {Report} else {})
  {
    CheckerStops(tools);
    FailFast(Checker(tools), Schedule(cfg, tools, n));
    ScheduleStages(cfg, tools, n, i);
  }

  /**
   * `map_reads` always writes the index-1 pileup, so coverage assessment
   * raises for any later sample with a reference: a run completes only if no
   * sample after the first has a BLAST hit.
   */
  lemma LaterReferenceCrashes(cfg: Config, tools: Tools, n: nat, i: nat)
    requires 2 <= i <= n && Found(tools.blastReport(i))
    ensures Run(Checker(tools), Schedule(cfg, tools, n)).outcome != Completed
  {
    var sch := Schedule(cfg, tools, n);
    var k := AssessScheduled(cfg, tools, n, i);
    AssessCrashes(tools, sch[k]);
    CheckerStops(tools);
    EventFails(Checker(tools), sch, k);
  }

  /** Coverage assessment raises for every sample but the one `map_reads` wrote. */
  lemma AssessCrashes(tools: Tools, e: Event)
    requires e.stage == Assess && e.sample != MapIndex
    ensures Checker(tools)(e) == Some(Crash(e))
  {}

  /** Where coverage assessment of sample `i` sits in the schedule. */
  lemma AssessScheduled(cfg: Config, tools: Tools, n: nat, i: nat) returns (k: nat)
    requires 1 <= i <= n && Found(tools.blastReport(i))
    ensures k < |Schedule(cfg, tools, n)|
    ensures Schedule(cfg, tools, n)[k].sample == i && Schedule(cfg, tools, n)[k].stage == Assess
  {
    var sch := Schedule(cfg, tools, n);
    ScheduleStages(cfg, tools, n, i);
    StagesOfIndex(sch, i, Assess);
    k :| 0 <= k < |sch| && sch[k].sample == i && sch[k].stage == Assess;
  }

  /** A run in which some event would fail does not complete. */
  lemma EventFails(check: Event -> Option<Outcome>, evs: seq<Event>, k: nat)
    requires Stops(check) && k < |evs| && check(evs[k]).Some?
    ensures Run(check, evs).outcome != Completed
  {
    FailFast(check, evs);
  }


  /** `list_fastqs` pairs at least one sample exactly when both read directions have a file. */
  lemma SampleCountPositive(cfg: Config, listing: seq<string>)
    ensures var fwd := Pairing.Selected(cfg.inDir, listing, cfg.fwdSig, cfg.revSig, Pairing.Forward);
      var rev := Pairing.Selected(cfg.inDir, listing, cfg.fwdSig, cfg.revSig, Pairing.Reverse);
      SampleCount(cfg, listing) > 0 <==> fwd != [] && rev != []
  {
    var fwd := Pairing.Selected(cfg.inDir, listing, cfg.fwdSig, cfg.revSig, Pairing.Forward);
    var rev := Pairing.Selected(cfg.inDir, listing, cfg.fwdSig, cfg.revSig, Pairing.Reverse);
    if fwd != [] && rev != [] {
      var pairs := Pairing.Zip(fwd, rev);
      assert Pairing.Names(pairs, cfg.fwdSig)[0] in Pairing.Keyed(pairs, cfg.fwdSig);
    }
  }

  /** `ERR_READS` is the outcome exactly when no forward or no reverse read file is found, and nothing else runs then. */
  lemma ReadsExit(cfg: Config, tools: Tools, listing: seq<string>)
    ensures var fwd := Pairing.Selected(cfg.inDir, listing, cfg.fwdSig, cfg.revSig, Pairing.Forward);
      var rev := Pairing.Selected(cfg.inDir, listing, cfg.fwdSig, cfg.revSig, Pairing.Reverse);
      && (Spec(cfg, tools, listing).outcome == Exit(ErrReads) <==> fwd == [] || rev == [])
      && (fwd == [] || rev == [] ==> Spec(cfg, tools, listing).events == [])
  {
    SampleCountPositive(cfg, listing);
    var n := SampleCount(cfg, listing);
    if n > 0 {
      CheckerNeverReads(tools);
      RunKeepsOut(Checker(tools), Schedule(cfg, tools, n), Exit(ErrReads));
    }
  }

  /** No stage exits with `ERR_READS`: only `list_fastqs` does. */
  lemma CheckerNeverReads(tools: Tools)
    ensures forall e :: Checker(tools)(e) != Some(Exit(ErrReads))
  {
    forall e ensures Checker(tools)(e) != Some(Exit(ErrReads)) {
      var c := Check(tools, e);
      CheckOutcomes(tools, e);
      assert c.Some? && c.value.Exit? ==> ExitCode(e.stage) == Some(c.value.code);
    }
  }

  /** A run ends with an outcome only some event ends with. */
  lemma {:induction false} RunKeepsOut(check: Event -> Option<Outcome>, evs: seq<Event>, o: Outcome)
    requires o != Completed && forall e :: check(e) != Some(o)
    ensures Run(check, evs).outcome != o
    decreases |evs|
  {
    if evs != [] && check(evs[0]).None? {
      RunKeepsOut(check, evs[1..], o);
    }
  }
}
