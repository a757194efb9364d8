# text2talk: speaker segmentation and caption layout, in Dafny

text2talk turns a plain-text script into one voice clip and one caption image
per line. Each line may begin with a speaker marker; the marker selects the
voice (an Open JTalk model), the caption colour and an optional portrait, and is
removed from the text. The caption is a transparent canvas with the text drawn
on one row, split over two rows at the first ideographic full stop "。", or
refused when it is longer than two rows' worth of code points. Both output files
of a line are named after the line's position in the script and the first code
points of its text.

This project models the decision logic of `main.go`:

- `text.dfy` (module `Text`): the Go library routines the program relies on
  (`strings.HasPrefix`, `Index`, `Contains`, `Replace` with n = 1, `SplitN` with
  n = 2, `Split`, `strconv.Itoa`) on strings read as code points. `Join`,
  `HasSuffix` and `Atoi` are not called by the program; they are there only to
  state `JoinSplit`, `Speaker.LineIsRemovedMarkersThenText`,
  `ResolvedTextIsSuffix` and `AtoiItoa`.
- `speaker.dfy` (module `Speaker`): the marker loop, as a left fold
  (`ResolveUpTo`) and as the imperative loop the program runs (`ResolveSpeaker`).
- `layout.dfy` (module `Layout`): the character size, the per-row capacity,
  `get2LineText` and the single-row / two-row / refused decision of `drawText`.
- `caption.dfy` (module `Caption`): what `createImage` puts on the canvas:
  speaker colour, portrait square and text rows with their baseline band.
- `naming.dfy` (module `Naming`): `getHeadText` and the shared base of the
  `.wav` and `.png` names.
- `pipeline.dfy` (module `Pipeline`): the job loop of `main`, one step per line,
  stopping at the first panic, as a function (`RunScript`) and as the loop the
  program runs (`ProcessScript`).

Every Go `panic` that the decision logic can reach is a value here, not a
precondition. These are a negative `Output.FileNameHeadText`, a voice without a
`Voice.Hts` entry or `Voice.Rgb` triple, a zero character size (integer division
by zero) and an over-long text. The model reports such a panic as an `Abort`
naming the line and its text, and the run stops there.

Points of `main.go` that the model follows closely:

- Markers chain. The line is reassigned inside the marker loop, so each marker
  is tested against the text the earlier markers left (main.go:82-84). Several
  markers can therefore strip in a chain, and the last one that matched picks
  the voice. `Speaker.ChainedMarkersExample` shows the chain.
- No separator in file names. The base name is
  `Output.Directory + itoa(k) + "_" + head` (main.go:91), so any separator must
  be part of the configured directory.
- Empty lines. A line is skipped when its text is empty after marker stripping
  (main.go:88-90), so a line that holds only a marker produces nothing as well.
- No full stop. Without "。", `get2LineText` puts the whole text on the first
  row and leaves the second row empty (main.go:180), even when the text is
  longer than a row. `Layout.FallbackFirstRowOverflows` states what that implies.

## Model

| member | source | states |
|---|---|---|
| `Text.Index` | main.go:176-177 | the result is -1 or a position where the pattern occurs, and the pattern occurs at no earlier position (`strings.Index`, behind `Contains` and `SplitN`) |
| `Text.ReplaceFirst` | main.go:84 | `strings.Replace(s, m, "", 1)` leaves a text without `m` unchanged and, on a text that starts with `m`, removes exactly that leading `m` (also for an empty marker) |
| `Text.SplitFirst` | main.go:177 | `SplitN(s, sep, 2)` yields `[s]` when `sep` is absent, otherwise two parts with `parts[0] + sep + parts[1] == s` and no `sep` in `parts[0]` |
| `Text.Split` | main.go:77 | `strings.Split` yields at least one part and no part contains the separator |
| `Text.JoinSplit` | main.go:77 | splitting the script on line feeds loses nothing: joining the parts with line feeds gives the script back |
| `Text.Itoa` | main.go:91 | `strconv.Itoa` of an ordinal is a non-empty string of decimal digits |
| `Text.AtoiItoa` | main.go:91 | the decimal spelling of an ordinal reads back as that ordinal |
| `Text.ItoaInjective` | main.go:91 | different ordinals have different decimal spellings |
| `Speaker.ResolveUpTo` | main.go:79-86 | after each marker the text is no longer than the line and the voice index is 0 or the position of a marker already tried |
| `Speaker.ResolveSpeaker` | main.go:79-86 | the marker loop that updates `voiceIndex` and `text` in place ends in the state the left fold `Resolve` describes |
| `Speaker.Resolve` | main.go:79-86 | the resolved text is no longer than the line and the voice is 0 or the position of a configured marker |
| `Speaker.LineIsRemovedMarkersThenText` | main.go:81-85 | the line is exactly the matched markers, in the order the loop removed them, followed by the resolved text: every match removes that marker and only it, from the front |
| `Speaker.ResolvedTextIsSuffix` | main.go:84 | the resolved text is a suffix of the line |
| `Speaker.NoMatchKeepsLine` | main.go:79-86 | when no marker matched, the voice index is 0 and the text is the line unchanged |
| `Speaker.NoPrefixKeepsLine` | main.go:79-86 | when no marker is a prefix of the line, the voice index is 0 and the text is the line |
| `Speaker.LastMatchWins` | main.go:81-85 | the voice index is the position of the last marker that matched the text stripped so far, and that marker was the last one removed |
| `Speaker.ChainedMarkersExample` | main.go:81-85 | with markers "A:" and "B:", the line "A:B:hi" resolves to voice 1 and text "hi", though only "A:" is a prefix of the original line |
| `Layout.Quo` | main.go:154 | Go's integer division agrees with mathematical division on a non-negative dividend and a positive divisor |
| `Layout.QuoTruncates` | main.go:154 | the remainder `a - Quo(a, b) * b` is smaller than the divisor in magnitude and is zero or has the dividend's sign: the quotient truncates toward zero, unlike a floored division |
| `Layout.QuoFloor` | main.go:154 | for a non-negative dividend and a positive divisor the quotient is the number of whole divisors that fit, with a remainder in `[0, b)` |
| `Layout.CharSize` | main.go:145-154 | the character size `int(height / 6)` is the sixth of the height truncated toward zero, and it is zero (the division that follows panics) exactly for heights strictly between -6 and 6 |
| `Layout.MaxWidthChar` | main.go:154 | the capacity is the largest number of characters of the character size whose total width fits in `width * 4 / 5` |
| `Layout.TwoLineText` | main.go:174-181 | `get2LineText`: the two lines always concatenate to the text; with a "。" the first line ends in it and holds no other; without one the result is `(text, "")`, whatever `maxChar` is |
| `Layout.Plan` | main.go:148-169 | a zero character size is refused; otherwise the layout is a single row exactly when the count is below the capacity, refused exactly when it exceeds twice the capacity, two rows exactly in between; the refusal carries the panic message with the text |
| `Layout.BoundariesAreTwoLine` | main.go:156-164 | a text of exactly the capacity, or exactly twice it, is drawn on two rows |
| `Layout.RefusalQuotesText` | main.go:161-163 | a refusal for length carries a panic message that ends with the whole text |
| `Layout.SplitsAtFirstFullStop` | main.go:176-178 | with a "。", the two rows are the text up to and including the first "。" and the rest |
| `Layout.FallbackFirstRowOverflows` | main.go:174-180 | without a "。" the two-row layout is `(text, "")`, so the first row holds at least the capacity, which a single row was refused for |
| `Layout.CapacityExample` | main.go:145-154 | a 1280 x 720 canvas has character size 120 and a capacity of 8 code points per row |
| `Layout.NoFullStopExample` | main.go:156-180 | "おはようございます" (9 code points) on 1280 x 720 becomes two rows: the whole text and an empty row |
| `Layout.FirstFullStopAtSeven` | main.go:176-177 | the first "。" of "今日は晴れです。でも寒い" is at code point 7 |
| `Layout.FullStopExample` | main.go:164-178 | "今日は晴れです。でも寒い" on 1280 x 720 becomes the rows "今日は晴れです。" and "でも寒い" |
| `Caption.ColorOf` | main.go:118 | the colour is the voice's first three `Voice.Rgb` components, and there is one exactly when that indexing does not panic |
| `Caption.PlacePortrait` | main.go:124-130 | a portrait is drawn exactly when the voice has an entry in `Voice.Images`: a square of side width/5 at left 0, top height/12 |
| `Caption.PortraitLeftOfText` | main.go:129-130 | the portrait's right edge lies left of the text's left edge at 0.22 of the canvas width |
| `Caption.Rows` | main.go:156-168 | a refused layout draws no row and every other layout draws at least one |
| `Caption.RowsOfLayout` | main.go:156-168 | the rows of a layout spell its lines top row first, on strictly lower bands |
| `Caption.RowsSpellText` | main.go:156-180 | the rows of an accepted layout spell out the whole text: a text below the capacity sits alone on band 3; a longer one is on bands 2 and 4, split after the first "。", or whole on band 2 with band 4 empty when there is none |
| `Naming.HeadText` | main.go:191-198 | `getHeadText` panics exactly for a negative length; otherwise it returns the prefix of the text of length min(N, code-point count) |
| `Naming.BaseName` | main.go:91 | the base name is the directory, then the ordinal's decimal digits and "_", then the head |
| `Naming.WavFile` | main.go:92 | the clip's name is the base name followed by ".wav" |
| `Naming.PngFile` | main.go:93 | the image's name is the base name followed by ".png" |
| `Naming.OutputsShareBase` | main.go:91-93 | the `.wav` and `.png` names are the same base followed by the two extensions, and they differ |
| `Naming.BaseNameInjective` | main.go:91 | from a base name `directory + itoa(k) + "_" + head` the ordinal and the head are determined |
| `Pipeline.VoiceCommand` | main.go:183-189 | `createVoice` pipes the text through `echo` into `/usr/local/bin/open_jtalk`, whose seven-element argument vector gives the configured dictionary after `-x`, the voice's own model after `-m` and the clip's file after `-ow` |
| `Pipeline.FinishOutcome` | main.go:91-136 | after resolution (`Finish`) a line gives a job exactly when the head length is non-negative, the voice has a model and a colour triple and the layout is not refused; otherwise it stops on the first of these checks that fails, in the order main.go makes them, naming the line and its text; a job's caption rows spell the text |
| `Pipeline.LineOutcome` | main.go:78-136 | the loop body (`ProcessLine`) skips a line exactly when its text is empty after marker stripping, gives a job exactly when the text is non-empty and passes every check, and otherwise stops with the first failing check; a job carries the line's ordinal, voice and text, base name, `.wav` and `.png` names, the `open_jtalk` command, the voice's colour, the canvas size, the portrait `PlacePortrait` places and the rows `Rows(Plan(text))` draws, which spell the text |
| `Pipeline.RunLine` | main.go:79-108 | one pass of the loop body, resolving the speaker in place, gives the step `ProcessLine` describes for that line |
| `Pipeline.RunLines` | main.go:78-110 | the loop over the lines, stopping at the first panic, ends with the jobs and the abort that `RunSteps` describes |
| `Pipeline.ProcessScript` | main.go:77-110 | splitting the script and running the loop ends with the jobs and the abort that `RunScript` describes |
| `Pipeline.RunSteps` | main.go:78-110 | after `n` lines there are at most `n` jobs, and a stop is the step of one of those lines |
| `Pipeline.RunScript` | main.go:77-110 | a script gives at most one job per line of the split script |
| `Pipeline.AbortIsFinal` | main.go:96-107 | once a line has panicked, later lines change nothing |
| `Pipeline.JobsFollowSteps` | main.go:78-110 | every job is the step of the line whose ordinal it carries, and ordinals strictly increase |
| `Pipeline.AbortAfterJobs` | main.go:78-110 | a run's abort is the step of the line it names, and every job comes from an earlier line |
| `Pipeline.JobsCoverSteps` | main.go:78-110 | every line that gives a job and comes before the abort has its job in the run |
| `Pipeline.NotPastAbort` | main.go:96-107 | a run never continues past a line that panics |
| `Pipeline.ScriptJobsFollowLines` | main.go:77-93 | the jobs of a script are in strictly increasing order of their ordinal, which is the line's position in the split script (empty lines counted), and each is what its line calls for, so no job comes from a line left empty |
| `Pipeline.ScriptAbortAfterJobs` | main.go:96-107 | a run's panic names a line of the script whose loop body panics, and every job comes from an earlier line |
| `Pipeline.ScriptCoversLines` | main.go:77-110 | every line that is non-empty after stripping and lies before the panicking line (or anywhere, without a panic) has a job |
| `Pipeline.AcceptedScriptHasEveryJob` | main.go:77-110 | when every line that is non-empty after stripping passes the checks, the run never panics and every such line has its job |
| `Pipeline.DistinctOutputFiles` | main.go:91-93 | no two jobs of a run write to the same `.wav` or `.png` file |

## Left out

- Configuration loading through viper and TOML (`main.go:20-35`): the settings are the `Pipeline.Config` value.
- File and process I/O: reading the script (`readText`) and the portrait (`readImage`), the `mkdir` call, and the `open_jtalk` pipeline (`pipeline.Output`). The model builds that pipeline's two argument vectors, not the clip. It also leaves out running the pipeline's output through `sh -c`, and the errors of all these steps, so every external step is taken to succeed.
- The clip of a line that panics inside `createImage` (missing colour triple, zero character size, over-long text): the program synthesises the voice clip (main.go:94-104) before it builds the caption, so that line's `.wav` already exists when it panics. The model's `Abort` does not record that file.
- Rasterisation in gg and imaging: clearing the canvas, setting the colour, loading the font and its failure, the Lanczos resize, drawing, and writing the PNG. Creating a canvas of non-positive size is library behaviour that is not modelled.
- Floating point. The font size `height/6 * 96/72`, the text's x offset `0.22 * width` and the float baselines are left out. The baselines are kept as bands: 3, or 2 and 4, sixths of the height. `int(float64(height)/6)` is modelled as integer division truncated toward zero, which agrees with the float value for heights below 2^53.
- 64-bit integer overflow of `width * 4` and of the ordinal: integers are unbounded here.
- Bytes versus code points: the Go string routines work on UTF-8 bytes and are modelled on code points, which agree for the valid UTF-8 the program reads.
- Console output (`fmt.Println`).
