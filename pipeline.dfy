/**
 * The job loop of main in main.go: split the script on line feeds, resolve the
 * speaker of every line, skip the lines left empty, and for the others name the
 * output files, build the speech-synthesis command and lay out the caption. Any
 * panic on a line stops the whole run; the lines before it have been produced.
 */
module Pipeline {
  import opened Options
  import opened Text
  import opened Speaker
  import opened Layout
  import opened Caption
  import opened Naming

  const LineSeparator: string := "\n"
  const OpenJtalk: string := "/usr/local/bin/open_jtalk"

  /** The settings the program reads from its configuration file. */
  datatype Config = Config(
    baseWidth: int,           // Image.BaseWidth
    baseHeight: int,          // Image.BaseHeight
    dict: string,             // Openjtalk.Dict
    directory: string,        // Output.Directory
    fileNameHeadText: int,    // Output.FileNameHeadText
    hts: seq<string>,         // Voice.Hts
    rgb: seq<seq<int>>,       // Voice.Rgb
    markers: seq<string>,     // Voice.NewLineReplacers
    images: seq<string>)      // Voice.Images

  /** Everything the program produces for one script line. */
  datatype Job = Job(
    ordinal: nat,
    voiceIndex: nat,
    text: string,
    baseName: string,
    wavFile: string,
    imgFile: string,
    voiceCommand: seq<seq<string>>,
    caption: Caption)

  /** Why a line stops the run. */
  datatype Failure =
    | NegativeHeadLength              // getHeadText slices with a negative bound
    | NoVoiceModel                    // Voice.Hts has no entry for the voice
    | NoColor                         // Voice.Rgb has no colour triple for the voice
    | LayoutRejected(reason: Rejection)

  datatype Abort = Abort(ordinal: nat, text: string, failure: Failure)

  datatype Step = Skip | Emit(job: Job) | Stop(abort: Abort)

  datatype Run = Run(jobs: seq<Job>, abort: Option<Abort>)

  /** `flag value` appears among the arguments after the program name. */
  predicate FlagValue(args: seq<string>, flag: string, value: string) {
    exists i :: 1 <= i < |args| - 1 && args[i] == flag && args[i + 1] == value
  }

  /**
   * createVoice: `echo text | open_jtalk -x dict -m model -ow wavFile` as two
   * argument vectors. The text is piped in by echo; open_jtalk reads the configured
   * dictionary and the voice's own model and writes the given clip.
   */
  function VoiceCommand(cfg: Config, text: string, wavFile: string, voiceIndex: nat): (cmd: seq<seq<string>>)
    requires voiceIndex < |cfg.hts|
    ensures |cmd| == 2 && cmd[0] == ["echo", text] && |cmd[1]| == 7 && cmd[1][0] == OpenJtalk
    ensures FlagValue(cmd[1], "-x", cfg.dict)
    ensures FlagValue(cmd[1], "-m", cfg.hts[voiceIndex])
    ensures FlagValue(cmd[1], "-ow", wavFile)
  {
    var synth := [OpenJtalk, "-x", cfg.dict, "-m", cfg.hts[voiceIndex], "-ow", wavFile];
    assert synth[1] == "-x" && synth[2] == cfg.dict;
    assert synth[3] == "-m" && synth[4] == cfg.hts[voiceIndex];
    assert synth[5] == "-ow" && synth[6] == wavFile;
    [["echo", text], synth]
  }

  /** What a job produced for line `k` of the script must be. */
  ghost predicate JobFor(cfg: Config, k: nat, line: string, job: Job) {
    && job.ordinal == k
    && Resolution(job.voiceIndex, job.text) == Resolve(line, cfg.markers)
    && job.text != ""
    && HeadText(job.text, cfg.fileNameHeadText).Some?
    && job.baseName == BaseName(cfg.directory, k, HeadText(job.text, cfg.fileNameHeadText).value)
    && job.wavFile == WavFile(job.baseName)
    && job.imgFile == PngFile(job.baseName)
    && job.voiceIndex < |cfg.hts|
    && job.voiceCommand == VoiceCommand(cfg, job.text, job.wavFile, job.voiceIndex)
    && ColorOf(cfg.rgb, job.voiceIndex) == Some(job.caption.color)
    && job.caption.width == cfg.baseWidth && job.caption.height == cfg.baseHeight
    && job.caption.portrait == PlacePortrait(cfg.images, job.voiceIndex, cfg.baseWidth, cfg.baseHeight)
    && !Plan(job.text, cfg.baseWidth, cfg.baseHeight).Rejected?
    && job.caption.rows == Rows(Plan(job.text, cfg.baseWidth, cfg.baseHeight))
    && RowsText(job.caption.rows) == job.text
  }

  /**
   * The resolved line passes every check of the loop body that can panic: a
   * non-negative head length, a voice model, a colour triple, and a layout that
   * is not refused.
   */
  predicate Accepted(cfg: Config, res: Resolution) {
    && HeadText(res.text, cfg.fileNameHeadText).Some?
    && res.voiceIndex < |cfg.hts|
    && ColorOf(cfg.rgb, res.voiceIndex).Some?
    && !Plan(res.text, cfg.baseWidth, cfg.baseHeight).Rejected?
  }

  /** The panic of a line that fails a check: the first failing check, in the program's order. */
  function FirstFailure(cfg: Config, res: Resolution): Failure
    requires !Accepted(cfg, res)
  {
    if HeadText(res.text, cfg.fileNameHeadText).None? then NegativeHeadLength
    else if res.voiceIndex >= |cfg.hts| then NoVoiceModel
    else if ColorOf(cfg.rgb, res.voiceIndex).None? then NoColor
    else LayoutRejected(Plan(res.text, cfg.baseWidth, cfg.baseHeight).reason)
  }

  /** The steps of the loop body after the line has been resolved to a non-empty text. */
  function Finish(cfg: Config, k: nat, res: Resolution): (r: Step)
    ensures !r.Skip?
  {
    match HeadText(res.text, cfg.fileNameHeadText)
    case None => Stop(Abort(k, res.text, NegativeHeadLength))
    case Some(head) =>
      var base := BaseName(cfg.directory, k, head);
      var wav := WavFile(base);
      if res.voiceIndex >= |cfg.hts| then Stop(Abort(k, res.text, NoVoiceModel))
      else
        match ColorOf(cfg.rgb, res.voiceIndex)
        case None => Stop(Abort(k, res.text, NoColor))
        case Some(color) =>
          var plan := Plan(res.text, cfg.baseWidth, cfg.baseHeight);
          if plan.Rejected? then Stop(Abort(k, res.text, LayoutRejected(plan.reason)))
          else
            var portrait := PlacePortrait(cfg.images, res.voiceIndex, cfg.baseWidth, cfg.baseHeight);
            var caption := Caption(cfg.baseWidth, cfg.baseHeight, color, portrait, Rows(plan));
            Emit(Job(k, res.voiceIndex, res.text, base, wav, PngFile(base),
                     VoiceCommand(cfg, res.text, wav, res.voiceIndex), caption))
  }

  /**
   * A resolved line gives a job exactly when every check passes, and otherwise
   * stops the run on the first check that fails.
   */
  lemma FinishOutcome(cfg: Config, k: nat, res: Resolution)
    ensures var r := Finish(cfg, k, res);
      && (r.Emit? <==> Accepted(cfg, res))
      && (r.Stop? ==> !Accepted(cfg, res) && r.abort == Abort(k, res.text, FirstFailure(cfg, res)))
      && (r.Emit? ==> RowsText(r.job.caption.rows) == res.text)
  {
    if Accepted(cfg, res) {
      RowsSpellText(res.text, cfg.baseWidth, cfg.baseHeight);
    }
  }

  /** One pass of the loop body for line `k`. */
  function ProcessLine(cfg: Config, k: nat, line: string): Step {
    var res := Resolve(line, cfg.markers);
    if res.text == "" then Skip else Finish(cfg, k, res)
  }

  /**
   * A line is skipped exactly when its text is empty after speaker resolution;
   * otherwise it gives the job it calls for, or stops the run naming itself.
   */
  lemma LineOutcome(cfg: Config, k: nat, line: string)
    ensures var r := ProcessLine(cfg, k, line);
      var res := Resolve(line, cfg.markers);
      && (r.Skip? <==> res.text == "")
      && (r.Emit? <==> res.text != "" && Accepted(cfg, res))
      && (r.Emit? ==> JobFor(cfg, k, line, r.job))
      && (r.Stop? ==> !Accepted(cfg, res) && r.abort == Abort(k, res.text, FirstFailure(cfg, res)))
  {
    var res := Resolve(line, cfg.markers);
    if res.text != "" {
      FinishOutcome(cfg, k, res);
    }
  }

  /** The loop body's outcome for every line of the script, each line on its own. */
  function LineSteps(cfg: Config, lines: seq<string>): (steps: seq<Step>)
    ensures |steps| == |lines|
  {
    seq(|lines|, k requires 0 <= k < |lines| => ProcessLine(cfg, k, lines[k]))
  }

  /** Step `k` is the loop body's outcome for line `k`. */
  lemma LineStepAt(cfg: Config, lines: seq<string>, k: nat)
    requires k < |lines|
    ensures LineSteps(cfg, lines)[k] == ProcessLine(cfg, k, lines[k])
  {
  }

  /** The step for line `k` speaks of line `k`. */
  predicate Numbered(steps: seq<Step>) {
    forall k :: 0 <= k < |steps| ==>
      (steps[k].Emit? ==> steps[k].job.ordinal == k) && (steps[k].Stop? ==> steps[k].abort.ordinal == k)
  }

  lemma LineStepsNumbered(cfg: Config, lines: seq<string>)
    ensures Numbered(LineSteps(cfg, lines))
  {
    forall k | 0 <= k < |lines| {
      LineOutcome(cfg, k, lines[k]);
    }
  }

  /** The loop's state after lines 0 .. n-1: the jobs done so far and, once a line panicked, why. */
  function RunSteps(steps: seq<Step>, n: nat): (r: Run)
    requires n <= |steps|
    ensures |r.jobs| <= n
    ensures r.abort.Some? ==> exists k :: 0 <= k < n && steps[k] == Stop(r.abort.value)
  {
    if n == 0 then Run([], None)
    else
      var prev := RunSteps(steps, n - 1);
      if prev.abort.Some? then prev
      else
        match steps[n - 1]
        case Skip => prev
        case Emit(job) => Run(prev.jobs + [job], None)
        case Stop(abort) => Run(prev.jobs, Some(abort))
  }

  /** The whole run over a script. */
  function RunScript(cfg: Config, script: string): (r: Run)
    ensures |r.jobs| <= |Split(script, LineSeparator)|
  {
    var lines := Split(script, LineSeparator);
    RunSteps(LineSteps(cfg, lines), |lines|)
  }

  /** The loop body as the program runs it: resolve the speaker in place, then finish a non-empty line. */
  method RunLine(cfg: Config, lines: seq<string>, k: nat) returns (step: Step)
    requires k < |lines|
    ensures step == LineSteps(cfg, lines)[k]
  {
    LineStepAt(cfg, lines, k);
    var voiceIndex, text := ResolveSpeaker(lines[k], cfg.markers);
    if text == "" {
      step := Skip;
    } else {
      step := Finish(cfg, k, Resolution(voiceIndex, text));
    }
  }

  /** The job loop over the lines of a script, line by line, stopping at the first panic. */
  method RunLines(cfg: Config, lines: seq<string>) returns (jobs: seq<Job>, abort: Option<Abort>)
    ensures Run(jobs, abort) == RunSteps(LineSteps(cfg, lines), |lines|)
  {
    ghost var steps := LineSteps(cfg, lines);
    jobs, abort := [], None;
    var k := 0;
    while k < |lines| && abort.None?
      invariant 0 <= k <= |lines|
      invariant Run(jobs, abort) == RunSteps(steps, k)
    {
      var step := RunLine(cfg, lines, k);
      RunStepsNext(steps, k);
      match step {
        case Skip =>
        case Emit(job) => jobs := jobs + [job];
        case Stop(failed) => abort := Some(failed);
      }
      k := k + 1;
    }
    if k < |lines| {
      AbortIsFinal(steps, k, |lines|);
    }
  }

  /** main's job loop: split the script on line feeds and run every line. */
  method ProcessScript(cfg: Config, script: string) returns (jobs: seq<Job>, abort: Option<Abort>)
    ensures Run(jobs, abort) == RunScript(cfg, script)
  {
    var lines := Split(script, LineSeparator);
    jobs, abort := RunLines(cfg, lines);
  }

  /** The step of line `k`, from the line's resolution. */
  lemma StepOfLine(cfg: Config, lines: seq<string>, k: nat, res: Resolution)
    requires k < |lines| && res == Resolve(lines[k], cfg.markers)
    ensures LineSteps(cfg, lines)[k] == if res.text == "" then Skip else Finish(cfg, k, res)
  {
  }

  /** One more pass of the loop on a run that has not stopped. */
  lemma RunStepsNext(steps: seq<Step>, k: nat)
    requires k < |steps| && RunSteps(steps, k).abort.None?
    ensures var prev := RunSteps(steps, k);
      RunSteps(steps, k + 1) == match steps[k]
        case Skip => prev
        case Emit(job) => Run(prev.jobs + [job], None)
        case Stop(abort) => Run(prev.jobs, Some(abort))
  {
  }

  /** Once a line has panicked nothing further happens. */
  lemma {:induction false} AbortIsFinal(steps: seq<Step>, k: nat, n: nat)
    requires k <= n <= |steps|
    requires RunSteps(steps, k).abort.Some?
    ensures RunSteps(steps, n) == RunSteps(steps, k)
    decreases n
  {
    if n > k {
      AbortIsFinal(steps, k, n - 1);
    }
  }

  /**
   * Every job is the one the loop body produced for its line, its ordinal is the
   * line's position, and the ordinals strictly increase.
   */
  lemma {:induction false} JobsFollowSteps(steps: seq<Step>, n: nat)
    requires n <= |steps| && Numbered(steps)
    ensures var jobs := RunSteps(steps, n).jobs;
      && (forall i :: 0 <= i < |jobs| ==> jobs[i].ordinal < n && steps[jobs[i].ordinal] == Emit(jobs[i]))
      && (forall i, j :: 0 <= i < j < |jobs| ==> jobs[i].ordinal < jobs[j].ordinal)
    decreases n
  {
    if n > 0 {
      JobsFollowSteps(steps, n - 1);
      var prev := RunSteps(steps, n - 1);
      assert var jobs := RunSteps(steps, n - 1).jobs;
        && (forall i, j :: 0 <= i < j < |jobs| ==> jobs[i].ordinal < jobs[j].ordinal);
      if prev.abort.None? && steps[n - 1].Emit? {
        var job := steps[n - 1].job;
        var jobs := prev.jobs + [job];
        assert RunSteps(steps, n).jobs == jobs;
        assert job.ordinal == n - 1;
        assert jobs[|prev.jobs|] == job;
        assert forall i :: 0 <= i < |prev.jobs| ==> jobs[i] == prev.jobs[i];
        assert forall i :: 0 <= i < |jobs| ==> jobs[i].ordinal < n && steps[jobs[i].ordinal] == Emit(jobs[i]);
      } else {
        assert RunSteps(steps, n).jobs == prev.jobs;
      }
    }
  }

  /** A panic is reported on the line that caused it, after every job. */
  lemma {:induction false} AbortAfterJobs(steps: seq<Step>, n: nat)
    requires n <= |steps| && Numbered(steps)
    ensures var r := RunSteps(steps, n);
      r.abort.Some? ==>
        && r.abort.value.ordinal < n
        && steps[r.abort.value.ordinal] == Stop(r.abort.value)
        && forall i :: 0 <= i < |r.jobs| ==> r.jobs[i].ordinal < r.abort.value.ordinal
    decreases n
  {
    if n > 0 {
      AbortAfterJobs(steps, n - 1);
      JobsFollowSteps(steps, n - 1);
    }
  }

  /**
   * No line is lost: every line before the panicking one (or every line, when no
   * line panicked) whose step is a job has its job in the run.
   */
  lemma {:induction false} JobsCoverSteps(steps: seq<Step>, n: nat)
    requires n <= |steps| && Numbered(steps)
    ensures var r := RunSteps(steps, n);
      forall k :: 0 <= k < n && steps[k].Emit? && (r.abort.None? || k < r.abort.value.ordinal) ==>
        exists i :: 0 <= i < |r.jobs| && r.jobs[i].ordinal == k
    decreases n
  {
    if n > 0 {
      JobsCoverSteps(steps, n - 1);
      AbortAfterJobs(steps, n - 1);
      var prev := RunSteps(steps, n - 1);
      var r := RunSteps(steps, n);
      if prev.abort.None? && steps[n - 1].Emit? {
        assert r.jobs == prev.jobs + [steps[n - 1].job];
        assert r.jobs[|prev.jobs|].ordinal == n - 1;
        assert forall i :: 0 <= i < |prev.jobs| ==> r.jobs[i] == prev.jobs[i];
      } else {
        assert r.jobs == prev.jobs;
      }
    }
  }

  /** A line's job meets what the line calls for. */
  lemma EmittedJobMeetsLine(cfg: Config, lines: seq<string>, k: nat)
    requires k < |lines|
    ensures LineSteps(cfg, lines)[k].Emit? ==> JobFor(cfg, k, lines[k], LineSteps(cfg, lines)[k].job)
  {
    LineOutcome(cfg, k, lines[k]);
  }

  /**
   * The jobs of a script, in order of their strictly increasing ordinals: each
   * carries the ordinal of its line in the split script and is what that line
   * calls for, so in particular no job comes from a line that is empty after
   * speaker resolution.
   */
  lemma ScriptJobsFollowLines(cfg: Config, script: string)
    ensures var lines := Split(script, LineSeparator);
      var jobs := RunScript(cfg, script).jobs;
      && (forall i :: 0 <= i < |jobs| ==>
            jobs[i].ordinal < |lines| && JobFor(cfg, jobs[i].ordinal, lines[jobs[i].ordinal], jobs[i]))
      && (forall i, j :: 0 <= i < j < |jobs| ==> jobs[i].ordinal < jobs[j].ordinal)
  {
    var lines := Split(script, LineSeparator);
    var steps := LineSteps(cfg, lines);
    var jobs := RunScript(cfg, script).jobs;
    assert jobs == RunSteps(steps, |lines|).jobs;
    LineStepsNumbered(cfg, lines);
    JobsFollowSteps(steps, |lines|);
    forall i | 0 <= i < |jobs|
      ensures jobs[i].ordinal < |lines| && JobFor(cfg, jobs[i].ordinal, lines[jobs[i].ordinal], jobs[i])
    {
      EmittedJobMeetsLine(cfg, lines, jobs[i].ordinal);
    }
  }

  /** A panic names the line that caused it and comes after every job. */
  lemma ScriptAbortAfterJobs(cfg: Config, script: string)
    ensures var lines := Split(script, LineSeparator);
      var r := RunScript(cfg, script);
      r.abort.Some? ==>
        && r.abort.value.ordinal < |lines|
        && ProcessLine(cfg, r.abort.value.ordinal, lines[r.abort.value.ordinal]) == Stop(r.abort.value)
        && forall i :: 0 <= i < |r.jobs| ==> r.jobs[i].ordinal < r.abort.value.ordinal
  {
    var lines := Split(script, LineSeparator);
    var steps := LineSteps(cfg, lines);
    assert RunScript(cfg, script) == RunSteps(steps, |lines|);
    LineStepsNumbered(cfg, lines);
    AbortAfterJobs(steps, |lines|);
  }

  /**
   * Every line whose text is non-empty after speaker resolution has its job,
   * unless an earlier line (or the line itself) panicked.
   */
  lemma ScriptCoversLines(cfg: Config, script: string)
    ensures var lines := Split(script, LineSeparator);
      var r := RunScript(cfg, script);
      forall k :: 0 <= k < |lines| && (r.abort.None? || k < r.abort.value.ordinal)
                  && Resolve(lines[k], cfg.markers).text != "" ==>
        exists i :: 0 <= i < |r.jobs| && r.jobs[i].ordinal == k
  {
    var lines := Split(script, LineSeparator);
    var steps := LineSteps(cfg, lines);
    var r := RunScript(cfg, script);
    assert r == RunSteps(steps, |lines|);
    LineStepsNumbered(cfg, lines);
    JobsCoverSteps(steps, |lines|);
    forall k | 0 <= k < |lines| && steps[k].Stop?
      ensures r.abort.Some? && r.abort.value.ordinal <= k
    {
      NotPastAbort(steps, k, |lines|);
    }
    forall k | 0 <= k < |lines| && (r.abort.None? || k < r.abort.value.ordinal)
                && Resolve(lines[k], cfg.markers).text != ""
      ensures exists i :: 0 <= i < |r.jobs| && r.jobs[i].ordinal == k
    {
      StepOfLine(cfg, lines, k, Resolve(lines[k], cfg.markers));
      assert !steps[k].Skip?;
    }
  }

  /** Every line that is non-empty after stripping passes the checks. */
  predicate AllAccepted(cfg: Config, lines: seq<string>) {
    forall k :: 0 <= k < |lines| && Resolve(lines[k], cfg.markers).text != "" ==>
      Accepted(cfg, Resolve(lines[k], cfg.markers))
  }

  /**
   * When every line that is non-empty after stripping passes the checks, the run
   * never panics and every such line has its job.
   */
  lemma AcceptedScriptHasEveryJob(cfg: Config, script: string)
    requires AllAccepted(cfg, Split(script, LineSeparator))
    ensures var lines := Split(script, LineSeparator);
      var r := RunScript(cfg, script);
      && r.abort.None?
      && forall k :: 0 <= k < |lines| && Resolve(lines[k], cfg.markers).text != "" ==>
           exists i :: 0 <= i < |r.jobs| && r.jobs[i].ordinal == k
  {
    var lines := Split(script, LineSeparator);
    var steps := LineSteps(cfg, lines);
    forall k | 0 <= k < |lines|
      ensures !steps[k].Stop?
    {
      var res := Resolve(lines[k], cfg.markers);
      StepOfLine(cfg, lines, k, res);
      if res.text != "" {
        assert Accepted(cfg, res);
        FinishOutcome(cfg, k, res);
      }
    }
    assert RunScript(cfg, script) == RunSteps(steps, |lines|);
    ScriptCoversLines(cfg, script);
  }

  /** A line whose step panics is never passed without the run stopping there or earlier. */
  lemma {:induction false} NotPastAbort(steps: seq<Step>, k: nat, n: nat)
    requires k < n <= |steps| && Numbered(steps)
    requires steps[k].Stop?
    ensures RunSteps(steps, n).abort.Some? && RunSteps(steps, n).abort.value.ordinal <= k
    decreases n
  {
    AbortAfterJobs(steps, n);
    if n - 1 > k {
      NotPastAbort(steps, k, n - 1);
    }
  }

  /** No two jobs of a run write to the same files. */
  lemma DistinctOutputFiles(cfg: Config, script: string)
    ensures var jobs := RunScript(cfg, script).jobs;
      forall i, j :: 0 <= i < j < |jobs| ==>
        jobs[i].wavFile != jobs[j].wavFile && jobs[i].imgFile != jobs[j].imgFile
  {
    var lines := Split(script, LineSeparator);
    var jobs := RunScript(cfg, script).jobs;
    ScriptJobsFollowLines(cfg, script);
    forall i, j | 0 <= i < j < |jobs|
      ensures jobs[i].wavFile != jobs[j].wavFile && jobs[i].imgFile != jobs[j].imgFile
    {
      SeparateFiles(cfg, lines, jobs[i], jobs[j]);
    }
  }

  lemma SeparateFiles(cfg: Config, lines: seq<string>, a: Job, b: Job)
    requires a.ordinal < |lines| && b.ordinal < |lines|
    requires JobFor(cfg, a.ordinal, lines[a.ordinal], a)
    requires JobFor(cfg, b.ordinal, lines[b.ordinal], b)
    requires a.ordinal != b.ordinal
    ensures a.wavFile != b.wavFile && a.imgFile != b.imgFile
  {
    var h1 := HeadText(a.text, cfg.fileNameHeadText).value;
    var h2 := HeadText(b.text, cfg.fileNameHeadText).value;
    if a.baseName == b.baseName {
      BaseNameInjective(cfg.directory, a.ordinal, h1, b.ordinal, h2);
    }
    OutputsShareBase(a.baseName);
    OutputsShareBase(b.baseName);
    assert |a.wavFile| == |a.baseName| + 4 && |b.wavFile| == |b.baseName| + 4;
  }
}
