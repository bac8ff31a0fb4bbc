# manim-sideview, modelled in Dafny

manim-sideview is a VS Code extension that renders a Manim scene of the Python file in the
active editor and shows the result in a side panel. This project models the core of the
extension:

- choosing the settings a render uses: the extension's fallback settings, an optional
  `manim.cfg` file and the user's settings;
- the arguments a render is started with;
- what the renderer's output reveals: the media type and the Manim version;
- predicting where the rendered video or image is written, and what happens when the renderer
  finishes;
- the job list that lets a saved file be rendered again;
- the two small config-file parsers;
- the template engine that fills the player's HTML;
- the player panel and the pseudo-terminal the output is echoed to.

The files follow the source files:

| file | models |
|---|---|
| `wrappers.dfy` | `Option` and `Result`. |
| `text.dfy` | The JavaScript string built-ins the source relies on. It covers `trim`, `split`, `join`, `includes`, `replace` with a string or a global regular expression, `endsWith`, and the character classes `\s`, `\w` and `.`. |
| `globals.dfy` | `src/globals.ts`. |
| `config_parser.dfy`, `config_parser_legacy.dfy` | `src/configParser.ts` and `src/configparser.ts`. |
| `job.dfy` | `src/job.ts`. |
| `template_engine.dfy` | `src/templateEngine.ts`. |
| `player.dfy` | `src/player.ts`. |
| `pseudo_term.dfy` | `src/pseudoTerm.ts`. |
| `sideview.dfy` | `src/sideview.ts`. |

State the source changes in place is modelled as Dafny classes:

- `FALLBACK_CONFIG`;
- the legacy parser's two global regular expressions, with their `lastIndex`;
- the job registry;
- the media player;
- the pseudo-terminal;
- the child process;
- the controller `ManimSideview`.

Pure code is modelled as functions, with lemmas about them.

Everything outside the program is an input to the model:

- the editor;
- the files that exist;
- the user's settings and picks;
- the ids of spawned processes;
- the output chunks and the close event of a child process, delivered as method calls in the
  order they arrive.

Behaviours of the code worth knowing, which the model keeps:

- **Output type detection.** `outputFileType` Video is 0, which is falsy. Detection therefore
  runs again on every output chunk until an image has been seen (`Sideview.TypeAfterChunks`).
- **No output.** When no output was seen at all, the close handler looks for the **image** path
  and plays it as a video (`Sideview.UnseenOutputPredictsImage`).
- **Scene question.** When the renderer asks which scene to render, the process is killed but
  the job is kept.
- **Config file re-read.** `run` reads the configuration file again only for a new job, or for a
  job that already used one (`Sideview.RerunKeepsJob`).
- **Empty arguments.** Extra command-line arguments are split at single spaces, so two spaces in
  a row give an empty argument (`Sideview.EmptyTokensKept`).
- **Re-render.** A successful render always appends its configuration as a new job, duplicates
  included. The lookup keeps finding the first one (`Sideview.NewJobKeepsFirst`).
- **Unknown quality.** `runConfig` computes the video path before starting the process, so an
  unknown quality stops the render before anything is spawned (`Sideview.ManimSideview.RunConfig`).
- **First versus every occurrence.** Here the code differs from its documentation: the comment
  on `TemplateEngine.render` speaks of replacing the "first" occurrence. The code uses the `g`
  flag and replaces every occurrence (`TemplateEngine.EveryOccurrenceReplaced`).
- **Held-back first text.** The terminal holds back the very first text appended to it. The
  first render's command line therefore appears only together with the render's first output
  (`PseudoTerm.AppendingHoldsOnlyFirst`).

## Model

Each row names the member whose contract states the property. A function that only computes is
named in backticks in the row of the lemma or method about it.

| member | source | states |
|---|---|---|
| Globals.Updated | src/globals.ts:155-165 | Each of the five string settings takes the update's value when that value is given and non-empty, and keeps its old value otherwise. The quality map is untouched. |
| Globals.Fallback.constructor | src/globals.ts:136-150 | The fallback settings start as the shipped defaults: "./media", the video and image templates, quality "low", rate "15", and the six-entry quality map. |
| Globals.Fallback.UpdateFallbackManimCfg | src/globals.ts:155-165 | The new fallback settings are `Updated` of the old ones. |
| Globals.DefaultsAfterUpdate | src/globals.ts:48-56 | `DefaultMainConfig`: The default render settings read after an update carry every truthy updated value under the snake_case names. |
| Globals.SnakeCaseOptionsIgnored | src/globals.ts:161-165 | Options named `media_dir`, `video_dir` or `frame_rate` match no camelCase key. Such an update leaves the fallback settings unchanged. |
| Globals.InsertContext | src/globals.ts:239-247 | The loop's result is the payload with every context key applied in order, each applied to the previous round's result. |
| Globals.SubstitutedNoKeys | src/globals.ts:239-247 | `Substituted`: A payload holding none of the keys comes back unchanged. |
| Globals.SubstitutedRescans | src/globals.ts:239-247 | A later key also rewrites text that an earlier key produced: "{a}" becomes "x" under {a}→{b}, {b}→x. |
| Globals.SubstitutedFixpoint | src/globals.ts:239-247 | A payload that every round leaves alone comes back unchanged. |
| Globals.SubstituteStepReplaces | src/globals.ts:242-243 | For a non-empty key, the `includes` guard never changes the outcome: a round is a global replace. |
| Globals.SubstitutedFour | src/globals.ts:241-245 | A four-key context applies its keys one after the other. |
| Globals.QualityLabelCases | src/globals.ts:85-88 | `QualityLabel`: The quality label fails exactly when the quality is not in the map. A label whose last two characters already equal the frame rate is kept as it is. |
| Globals.QualityLabelPatchesRate | src/globals.ts:86-87 | When the last two characters occur only at the end of the label, exactly they are replaced by the frame rate. |
| Globals.QualityLabelFirstOccurrence | src/globals.ts:87 | Only the first occurrence is replaced, so "fourk" at 30 frames gives "2130p60" rather than "2160p30". |
| Globals.LowQualityLabel | src/globals.ts:85-88 | Quality "low" at 15 frames is labelled "480p15". |
| Globals.DefaultVideoPath | src/globals.ts:80-98 | Under the default settings, module m and scene s (both without `{`) predict "./media/videos/m/480p15/s.mp4". |
| Globals.VideoOutputPathLabel | src/globals.ts:80-98 | `VideoOutputPath`: With a known quality, the video path is the joined video directory with the label, media directory, module and scene substituted. |
| Globals.ImagePathKeepsQuality | src/globals.ts:101-114 | `ImageOutputPath`: The image path has no `{quality}` key, so an image directory of "{quality}" stays literally in the path. |
| ConfigParser.MatchAt | src/configParser.ts:20 | A match of `(\w+)\s*=\s*(.+)` at an index ends after it. Its value is non-empty, sits just before the match end, holds no line terminator and runs to the end of its line. |
| ConfigParser.MatchAtShape | src/configParser.ts:20 | A match at i has a non-empty word-character key starting at i, an `=` inside, and a value that ends the match at the end of the text or at a line terminator. Nothing matches where no word character starts. |
| ConfigParser.Parse | src/configParser.ts:23-37 | The result has at most the section "CLI". That section is present exactly when some match exists, and then holds the matches' pairs, a later key overwriting an earlier one. |
| ConfigParser.CollectedLastWins | src/configParser.ts:28-35 | `Collected`: An option is present iff some match names it, and it holds the value of the last such match. |
| ConfigParser.NoEqualsNoMatches | src/configParser.ts:20 | A text without `=` has no match. |
| ConfigParser.NoEqualsEmptyConfig | src/configParser.ts:23-37 | Such a text gives the empty configuration, without a "CLI" section. |
| ConfigParser.MatchesWellFormed | src/configParser.ts:20 | `Matches` and `MatchesFrom`: Every match has a word-character key and a non-empty, line-terminator-free value. |
| ConfigParser.LineMatches | src/configParser.ts:20 | Every line `key ws = ws value` is matched with exactly that key and value. |
| ConfigParser.ValueMayHoldEquals | src/configParser.ts:20 | "a = b = c" is the one option `a` with the value "b = c". |
| ConfigParser.KeyAcrossLineBreak | src/configParser.ts:20 | `\s*` before `=` crosses a line break: "a\n= b" is the option `a` with the value "b". |
| LegacyConfigParser.Parser.constructor | src/configparser.ts:19-21 | Both global patterns start with `lastIndex` 0. |
| LegacyConfigParser.Parser.Parse | src/configparser.ts:24-55 | The result is the pairs of the `map` pass over the lines split at "\n", stored under the final cursor. The pass starts from the `lastIndex` values left by the previous call. The pair pattern ends at 0. |
| LegacyConfigParser.Parser.MapLine | src/configparser.ts:30-44 | One callback: the pair attempt on the trimmed line, the "skip" attempt, and then the header attempt when there was no pair. |
| LegacyConfigParser.Store | src/configparser.ts:45-52 | The `forEach` pass stores every pair under the cursor and creates the section at the first pair. |
| LegacyConfigParser.SkipResets | src/configparser.ts:36 | The "skip" attempt never matches, so the pair pattern is back at 0 after every line. |
| LegacyConfigParser.PairMatchShape | src/configparser.ts:21 | `PairMatch`: An anchored pair match has a word key and a value that runs to the end of the trimmed line. |
| LegacyConfigParser.PairLine | src/configparser.ts:21 | Every `key ws = ws value` line is such a match, with exactly that key and value. |
| LegacyConfigParser.SectionMatchIff | src/configparser.ts:19 | `SectionMatch`: A header match exists iff the trimmed line is `[title]` for a non-empty word title. |
| LegacyConfigParser.ScanRecords | src/configparser.ts:28-44 | `ScanWith` and `Step`: The pass records, in order, the pair attempt of every line. |
| LegacyConfigParser.AttemptsAt | src/configparser.ts:31 | Entry k is the pair attempt on trimmed line k alone. |
| LegacyConfigParser.CursorFromHeader | src/configparser.ts:37-41 | The final cursor is "OUTCAST" or the title of some header line. |
| LegacyConfigParser.NoHeaderOutcast | src/configparser.ts:27 | Without header lines every pair is filed under "OUTCAST". |
| LegacyConfigParser.StoredUnderCursor | src/configparser.ts:45-52 | `Stored`: All pairs land in one section, under the final cursor. That section is present exactly when some pair matched, and holds the pairs with last-wins. |
| LegacyConfigParser.FoundEmpty | src/configparser.ts:46 | No pair is found iff every line's attempt failed. |
| LegacyConfigParser.PairLineKeepsSection | src/configparser.ts:37 | A pair line moves neither the cursor nor the header pattern. |
| LegacyConfigParser.HeaderRecognised | src/configparser.ts:38-41 | A header read with the header pattern at 0 moves the cursor to its title, and leaves `lastIndex` at the line's length. |
| LegacyConfigParser.HeaderMissed | src/configparser.ts:38 | With the header pattern past 0, any non-pair line fails and resets the pattern to 0, header or not. |
| LegacyConfigParser.ScanAppend | src/configparser.ts:28-44 | The pass over two runs of lines is the second pass continued from the end of the first. |
| LegacyConfigParser.PairLinesKeepSection | src/configparser.ts:30-44 | A run of pair lines keeps the cursor and the header pattern. |
| LegacyConfigParser.OneSectionFile | src/configparser.ts:28-44 | A header followed by pair lines records a miss and then the pairs, under that title when the header pattern was at 0, and under the old cursor otherwise. |
| LegacyConfigParser.IndentedPairLine | src/configparser.ts:11-12 | An indented `key = value` line with a one-word value is read as that pair, as in the doc example. |
| LegacyConfigParser.HeaderThenPairs | src/configparser.ts:8-14 | A fresh parser reading `[Title]` followed by pair lines gives {Title: the pairs, last wins}, as the doc example shows. |
| LegacyConfigParser.SecondHeaderMissed | src/configparser.ts:37-41 | As written: with two header lines in a row, the second is missed and the cursor stays at the first title. |
| LegacyConfigParser.RepeatedParseMovesPairs | src/configparser.ts:37-41 | As written: parsing the same one-section file twice files the pairs under the title the first time and under "OUTCAST" the second time. |
| LegacyConfigParser.CorrectedCursorIsLastHeader | src/configparser.ts:37-41 | Corrected: with a header pattern that is reset before each line, the cursor is the title of the last header line, or the start when there is none. |
| LegacyConfigParser.CorrectedStep | src/configparser.ts:37-41 | Corrected: a header line always moves the cursor to its title, and a pair line never does. |
| LegacyConfigParser.CorrectedSecondHeader | src/configparser.ts:37-41 | Corrected: for "[A]", "[B]" the cursor ends at "B". |
| Job.Job.constructor | src/job.ts:45-50 | A new job carries its configuration and output type, with status New. |
| Job.JobStatusManager.AddJob | src/job.ts:45-52 | A fresh New job replaces whatever was under `config.srcPath`; every other entry is kept. The item shows New. |
| Job.JobStatusManager.RemoveJob | src/job.ts:54-56 | Exactly `srcPath` leaves the registry. An absent path changes nothing. |
| Job.JobStatusManager.RemoveAllActiveJobs | src/job.ts:58-60 | The registry becomes empty. |
| Job.JobStatusManager.GetActiveJob | src/job.ts:70-79 | A non-empty path looks up that path. Otherwise the active editor's file is looked up, if it is a Python file. The result is null iff that entry is missing or there is no such editor. |
| Job.JobStatusManager.SetNew | src/job.ts:86-90 | Only the item changes: it shows New. |
| Job.JobStatusManager.SetRunning | src/job.ts:109-116 | The given job, if any, becomes Running and keeps its output type; the item shows Running. |
| Job.JobStatusManager.SetActive | src/job.ts:118-125 | The given job, if any, becomes Active and keeps its output type; the item shows Active. |
| Job.JobStatusManager.SetError | src/job.ts:127-134 | The given job, if any, becomes Error and keeps its output type; the item shows Error. |
| Job.JobStatusManager.RestoreStatus | src/job.ts:92-107 | The item shows the job's own status again. The job's status and output type are left unchanged. |
| TemplateEngine.TrueRender | src/templateEngine.ts:33-48 | `Rendered`: The document after every variable, in order, has replaced all case-insensitive occurrences of its pattern. |
| TemplateEngine.Render | src/templateEngine.ts:63-71 | The preamble is applied first, then the caller's variables, which is one pass over the preamble followed by the globals. |
| TemplateEngine.RenderedAppend | src/templateEngine.ts:63-71 | Rendering with two tables in turn equals rendering with their concatenation. |
| TemplateEngine.RenderedUnchanged | src/templateEngine.ts:33-48 | A document in which no pattern occurs comes back unchanged. |
| TemplateEngine.PatternOfResource | src/templateEngine.ts:35-39 | `Pattern`: The resource key " name.js" stands for the bare "name.js". |
| TemplateEngine.PreambleBraced | src/templateEngine.ts:15-20 | `Preamble`: The preamble fills `{{ cspSource }}` and `{{ nonce }}`. |
| TemplateEngine.PreambleResources | src/templateEngine.ts:11-20 | The preamble also replaces the bare `name.js` and `name.css`. |
| TemplateEngine.BracedPattern | src/templateEngine.ts:41-44 | `Pattern`: A name without a leading space is looked for between `{{ ` and ` }}`. |
| TemplateEngine.EveryOccurrenceReplaced | src/templateEngine.ts:33-48 | Both occurrences of a pattern, in any letter case, are replaced. This is "all", not "first". |
| Player.ProgressStyleQuoted | src/player.ts:29-39 | `ParseProgressStyle`: The style attribute always holds exactly two double quotes and no single quote, so no colour setting can break out of it. |
| Player.ColourUnquoted | src/player.ts:29-37 | The chosen colour never holds a quote of either kind. |
| Player.ProgressColourCases | src/player.ts:29-37 | `ProgressColour`: No colour or an empty one gives the base colour, and a colour with `;` or a quote gives it too. A `#` colour is kept. Any other colour becomes `var(--vscode-…);` with dots turned into dashes. |
| Player.MediaKeysPaired | src/player.ts:80-84 | `SourceKey` and `HideKey`: A video fills `videoDir` and hides the image. Anything else fills `imageDir` and hides the video. The two keys always differ. |
| Player.Panel.constructor | src/player.ts:58-79 | A panel created for some media shows it. |
| Player.MediaPlayer.constructor | src/player.ts:20-22 | No panel is open at the start. |
| Player.MediaPlayer.PlayMedia | src/player.ts:45-130 | The panel is reloaded iff a recent panel exists, and a fresh panel is made otherwise. Either way it becomes the recent panel and shows the media. |
| Player.MediaPlayer.Disposed | src/player.ts:119-127 | Only disposing the recent panel forgets it. |
| PseudoTerm.FormatTextFramed | src/pseudoTerm.ts:29 | `FormatText`: `formatText` puts `\r` at both ends and a `\r` beside each line break. |
| PseudoTerm.FramedNoBreak | src/pseudoTerm.ts:29 | A text without line feeds is only framed. |
| PseudoTerm.FramedConcat | src/pseudoTerm.ts:29 | Framing goes piece by piece, unless a `\r`/`\n` pair straddles the cut. |
| PseudoTerm.FormatTextLineFeed | src/pseudoTerm.ts:29 | A line feed after a first line becomes `\r\n\r`. |
| PseudoTerm.Prompt | src/pseudoTerm.ts:43 | The prompt is "(env)" or "MSV", then a space, the working directory and ">". |
| PseudoTerm.SplitBreaks | src/pseudoTerm.ts:29 | `text.split(/(\r?\n)/g)` always has an odd number of pieces, one more text than breaks. |
| PseudoTerm.ManimPseudoTerm.constructor | src/pseudoTerm.ts:35-49 | Nothing typed, nothing running, nothing written, nothing held back. |
| PseudoTerm.ManimPseudoTerm.Append | src/pseudoTerm.ts:113-122 | The output state becomes `Appending` of the old one. The first value is only held back. A later value is written after the held-back notes, with `\n` turned into `\n\r`, and the notes are cleared. The prompt environment, folder and line editor are kept. |
| PseudoTerm.ManimPseudoTerm.AppendLine | src/pseudoTerm.ts:132-149 | `LineAppended`: a first value is only held back and nothing else changes. A later one is written as by `append`, then the running flag is cleared and Enter pressed at the prompt. The prompt environment and folder are kept. |
| PseudoTerm.AppendingKeepsText | src/pseudoTerm.ts:113-122 | Nothing appended is lost or reordered: what has been written, followed by the held-back text, grows by exactly the value, with `\n` as `\n\r`. |
| PseudoTerm.AppendingHoldsOnlyFirst | src/pseudoTerm.ts:113-122 | From a fresh terminal only the first value is held back; the second is written together with it. |
| PseudoTerm.ManimPseudoTerm.NewPrompt | src/pseudoTerm.ts:144-149 | The terminal stops waiting for a render and presses Enter. |
| PseudoTerm.ManimPseudoTerm.HandleInput | src/pseudoTerm.ts:54-99 | `Input` states the keys. The editor's next state is `Input` of the key, including Enter falling through into Backspace. |
| PseudoTerm.EnterClearsLine | src/pseudoTerm.ts:59-93 | Enter always leaves an empty line and no running command. |
| PseudoTerm.TypeThenBackspace | src/pseudoTerm.ts:85-97 | Typing a character and then Backspace restores the line. |
| PseudoTerm.RunningIgnoresInput | src/pseudoTerm.ts:55-57 | While a command runs, every key is ignored. |
| PseudoTerm.CrlfConcat | src/pseudoTerm.ts:120 | The held-back notes and the value are converted as one text, which is the same as converting each. |
| PseudoTerm.CrlfNoBreak | src/pseudoTerm.ts:120 | A value without line feeds is written as it is. |
| Sideview.Overridden | src/sideview.ts:647-655 | Each of the four relevant flags the section holds overrides its setting. The image directory always comes from the defaults. |
| Sideview.OverrideFlags | src/sideview.ts:649-655 | The loop over the relevant flags computes `Overridden`. |
| Sideview.FileConfig | src/sideview.ts:613-658 | A loaded configuration always keeps the fallback image directory. |
| Sideview.FileWithoutPairsIgnored | src/sideview.ts:636-641 | A file without `=` has no `[CLI]` section and is ignored. |
| Sideview.FileQualityIsLastLine | src/sideview.ts:643-657 | The loaded quality is the value of the file's last `quality = …` line. |
| Sideview.CommandArgs | src/sideview.ts:384-388 | The arguments built by pushing are exactly `ArgList`. |
| Sideview.ArgListShape | src/sideview.ts:384-388 | `ArgList`: The first argument is the source path and the last is the trimmed scene name. With a config file there are exactly these two. Otherwise the middle arguments contain no space and join back to the trimmed extra arguments. |
| Sideview.CommandLineWithCfgFile | src/sideview.ts:417 | With a config file in use, the echoed `CommandLine` is the executable, the source file and the trimmed scene name, separated by spaces and ended by a line feed. |
| Sideview.EmptyTokensKept | src/sideview.ts:386 | "a  b" gives the three arguments a, "" and b. |
| Sideview.ScenePicks | src/sideview.ts:264-276 | One "$(run-all)" entry per scene class, then "$(refresh)" for a last-chosen name when there is one, then the custom-input entry. |
| Sideview.CleanSceneName | src/sideview.ts:302-312 | A scene name, when there is one, is non-empty and trimmed. |
| Sideview.PickedSceneClass | src/sideview.ts:277-308 | `RenderingSceneName`: Picking a scene class's entry gives back the class name. |
| Sideview.TypedSceneName | src/sideview.ts:289-312 | `RenderingSceneName`: A typed name without `$` comes back trimmed. A name of nothing but whitespace counts as no name. |
| Sideview.FirstWith | src/sideview.ts:345-347 | Used by `CfgPayload`: The first output block containing the key, if any. |
| Sideview.CollectOptions | src/sideview.ts:357-361 | Each option line is filed under its trimmed key, a later line overwriting an earlier one. |
| Sideview.CfgOptionCutAtColon | src/sideview.ts:359-360 | The value is cut at its own colon, so "media_dir: C:\media" gives "C". |
| Sideview.OptionLineMatched | src/sideview.ts:353 | `OptionMatchAt` and `OptionMatchesFrom`: A line `key: value` with a word key and a space-free value is one match. |
| Sideview.OptionLineRead | src/sideview.ts:359-360 | `CfgOption`: Such a line is read as the key and the trimmed value. |
| Sideview.OptionLineSplit | src/sideview.ts:359 | The line splits at its colon into the key and the rest. |
| Sideview.ManimSideview.SyncFallbackManimConfig | src/sideview.ts:344-362 | `CfgPayload` and `CfgShowOptions`: The fallback settings are updated with the options of the first block containing "CLI". Nothing changes without such a block or without a match. |
| Sideview.SomePng | src/sideview.ts:472-476 | True iff some finished file is a PNG. |
| Sideview.TypeAfterChunks | src/sideview.ts:464-481 | `AfterChunk` and `DetectedType`: From an unsettled type, the type ends as Image iff some chunk shows a PNG, and as Video otherwise. |
| Sideview.ImageIsFinal | src/sideview.ts:464 | Once an image has been seen, it stays. |
| Sideview.VersionIsFinal | src/sideview.ts:482 | A captured version is kept. |
| Sideview.VersionAfterChunks | src/sideview.ts:482-488 | Without a version yet, the captured version is the first one any chunk shows. |
| Sideview.FileReadyMessage | src/sideview.ts:465 | `FileReadyAt`: "File ready at '<path>'" yields exactly that path. |
| Sideview.FileReadyType | src/sideview.ts:465-480 | Such a chunk shows an image iff the path is a PNG. |
| Sideview.VersionBanner | src/sideview.ts:483-487 | `VersionAt` and `FirstVersion`: "Manim Community v<version>" yields that version. |
| Sideview.FirstJob | src/sideview.ts:600 | The index of the first job of the path; no earlier job has it. None iff no job has it. |
| Sideview.FirstJobIs | src/sideview.ts:600 | Those three properties single out `FirstJob`. |
| Sideview.ActiveJob | src/sideview.ts:587-600 | With a truthy path, the first job of that path. Otherwise the first job of the active editor's file, when that is a Python file. None iff there is no such job. |
| Sideview.NewJobKeepsFirst | src/sideview.ts:576-579 | Appending a job keeps every lookup that already found a job. A path found nowhere before now finds the new job. |
| Sideview.RemoveFirstJob | src/sideview.ts:217-223 | Removal takes out exactly the first job of the path, as a multiset. |
| Sideview.RemoveFirstJobExposesNext | src/sideview.ts:217-223 | After removal, a later duplicate is what the path finds. |
| Sideview.SkipPrefix | src/sideview.ts:600 | Jobs of other paths in front only shift where the path is found. |
| Sideview.Basename | src/sideview.ts:670 | The base name is the longest suffix of the path without `/`. |
| Sideview.BasenameOf | src/sideview.ts:670 | The base name is what follows the last `/`. |
| Sideview.ModuleOfScript | src/sideview.ts:670 | `ModuleName`: `<dir>/<m>.py` has the module name m. |
| Sideview.RunPlan | src/sideview.ts:129-200 | A plan to render again always names an existing job. |
| Sideview.PlanWith | src/sideview.ts:150-197 | A render-again plan names the active job. |
| Sideview.RerunKeepsJob | src/sideview.ts:152-183 | A file with a job re-renders its first job with only the settings and the config-file flag renewed. A job without a config file never starts using one and gets the current fallback settings. |
| Sideview.FreshJobConfig | src/sideview.ts:660-686 | `NewRunningConfig`: A new job is for the editor's file and uses the scene name settled on. It uses the config file exactly when one loaded, with those settings, and the defaults otherwise. |
| Sideview.Process.Kill | src/sideview.ts:207 | The process is marked killed. |
| Sideview.Execution.OnStdout | src/sideview.ts:453-490 | A killed process's output is ignored. Any other chunk is echoed to the terminal, when output goes there, and the scene question is followed by a line break (`StdoutEcho`). The scene question kills the process and reads nothing. Any other chunk updates the capture (`AfterChunk`), and the handler crashes exactly as `Crashes` says. |
| Sideview.Execution.OnStderr | src/sideview.ts:492-496 | An error chunk is echoed to the terminal, when output goes there, unless the process was killed. Nothing else changes. |
| Sideview.Execution.OnError | src/sideview.ts:498-502 | A process error's text is echoed to the terminal, when output goes there, unless the process was killed. |
| Sideview.DirectTerminal | src/sideview.ts:396-397 | The terminal moves to the render's folder and is marked running. Nothing else changes. |
| Sideview.PlayedOnlyOnSuccess | src/sideview.ts:504-569 | `CloseEnding`: Media is played iff the signal is not SIGTERM, the code is 0, the path could be predicted and the file exists. The played media is the predicted path. |
| Sideview.UnseenOutputPredictsImage | src/sideview.ts:542-554 | `PredictedMedia`: With no output seen, the image path is predicted, while the type played is Video. |
| Sideview.ManimSideview.constructor | src/sideview.ts:99-119 | No jobs, no process, no chosen config file, the item shown as active, no last chosen scene. |
| Sideview.ManimSideview.RefreshJobStatus | src/sideview.ts:121-127 | The item is shown as active iff the editor's file has a job, and is hidden otherwise. |
| Sideview.ManimSideview.Stop | src/sideview.ts:202-209 | The given process, or else the tracked one, is killed. It stays tracked. |
| Sideview.ManimSideview.RemoveAllJobs | src/sideview.ts:211-215 | No job is left, the chosen config file is forgotten, and the item is hidden. |
| Sideview.ManimSideview.RemoveCurrentJob | src/sideview.ts:217-223 | The first job of the editor's file, if any, is removed, and the status is refreshed. |
| Sideview.ManimSideview.SetConfigFilePath | src/sideview.ts:225-237 | The chosen path is stored without one leading separator; no choice keeps the old path. |
| Sideview.ManimSideview.NewJob | src/sideview.ts:576-579 | The configuration is appended and the item shows New. |
| Sideview.ManimSideview.SetRenderingScene | src/sideview.ts:239-254 | The editor's first job, if any, takes the scene name settled on. No job or no name changes nothing. |
| Sideview.ManimSideview.GetManimConfigFile | src/sideview.ts:613-658 | The result is `FileConfig` of the chosen file, or of `manim.cfg` beside the source. |
| Sideview.ManimSideview.ExecuteTerminalCommand | src/sideview.ts:406-452 | When output goes to the terminal, the command line is appended to it, and its prompt and typed line are kept. The tracked process, if any, is killed. A fresh process is tracked with an empty capture and with its handlers writing to that terminal. The item shows Running. |
| Sideview.ManimSideview.RunConfig | src/sideview.ts:374-404 | A render starts iff the video path can be predicted. When it cannot, nothing changes, the terminal included. When it starts, the command line has been appended to the terminal if output goes there (`CommandEchoed`). The terminal is then in the render's folder and running (`Launched`). |
| Sideview.ManimSideview.Launch | src/sideview.ts:384-403 | The arguments are `ArgList`. The terminal is directed when output goes to it. Then the command line is echoed and the process started (`Launched`, `CommandEchoed`). |
| Sideview.ManimSideview.Close | src/sideview.ts:504-573 | When output goes to the terminal, the closing line is appended by `appendLine` with a new prompt; the code shown is 1 after SIGTERM. A terminal that had received text before stops running. Then the render is settled as by `Settle`. The open panel is kept, or reused for the played media, as `Settle` states. |
| Sideview.ManimSideview.WriteClosing | src/sideview.ts:512-522 | The closing line is appended with `appendLine`. Afterwards the terminal is not running, unless the line was the first text it got and is only held back. |
| Text.DecimalSign | src/sideview.ts:514 | The code in the closing line carries a minus sign exactly when it is negative, and its digits read back as its magnitude. |
| Text.DigitsRoundTrip | src/sideview.ts:514 | The digits of a number read back as that number. |
| Sideview.ManimSideview.Settle | src/sideview.ts:524-572 | The tracked process is cleared when it is the closing one. SIGTERM sets Error only for the main process. A non-zero code or a missing file sets Error. A path that cannot be predicted changes nothing more. A found file is played with `PlayedType`, in the open panel when there is one and in a fresh panel otherwise, and its configuration appended as a new job. Every ending that plays nothing leaves the media player and its open panel as they were. A missing exit code counts as non-zero. |
| Sideview.ManimSideview.DecideRun | src/sideview.ts:129-197 | The plan is `RunPlan` of the current jobs, editor, files and picks. |
| Sideview.ManimSideview.Follow | src/sideview.ts:179-199 | A render-again updates the job in place before rendering. A fresh plan renders a new configuration. Skip starts nothing. Whenever no render starts (a skip, or an unknown quality), the process, its killed flag and the item are as they were. The terminal gets the command line exactly when a render starts, and is untouched otherwise (`PlanEchoed`). |
| Sideview.ManimSideview.Run | src/sideview.ts:129-200 | `run` follows `RunPlan`, and a run that starts no render, skipped or stopped by an unknown quality, changes neither the process, its killed flag, nor the item. The terminal gets the command line exactly when a render starts (`PlanEchoed`). |

## Left out

- Reading files, writing `manim.cfg.json`, spawning the renderer and the `cfg show` command are
  I/O. Their outcomes (file texts, output chunks, exit code and signal, process ids) are inputs.
- The scene-class regular expression over the source file is not modelled. The list of scene
  classes found is an input to `Sideview.ScenePicks`.
- `lastChosenSceneName` is never assigned in the source, so it is a constant `None`.
- The output channel is not modelled: when output does not go to the terminal, the echoed
  texts are dropped. The extension log, the notifications (including the one for a first
  loaded config file) and `focusOutputOnRun` are left out too.
- The awaits are not modelled. `playMedia` awaits before it records the new panel, so two
  overlapping closes can each open a panel; the close handler's `fs.stat(..).then` also runs
  later. In the model each close runs to its end before anything else happens.
- The spawn failure branch (code 911) is left out: spawning is I/O and always succeeds in the
  model. The elapsed time in the closing line is an input, given as its text.
- Text.Lower: letter case is folded for ASCII letters only, so the template engine's
  case-insensitive matching ignores other scripts' letter case.
- String lengths count characters (code points). JavaScript's `slice` counts UTF-16 code
  units, so Backspace in `PseudoTerm.Input` (`slice(0, -1)`) and the last two characters in
  `Globals.LastTwo` (`slice(-2)`) differ from the source for characters outside the Basic
  Multilingual Plane.
- Sideview.Basename: `path.basename` is modelled as the text after the last "/". Windows
  separators and a trailing separator are not handled as Node does.
- Globals.Updated: the `qualityMap` key may also be overwritten by `updateFallbackManimCfg`. Only
  the JSON read at start-up supplies it, so the model keeps the map unchanged. `saveUpdated` and
  the file write are left out.
- Globals.PathJoin: `path.join` is modelled as joining with "/" without `.`/`..` normalisation.
  `path.normalize` of chosen paths and the executable is left out.
- Regular expressions built from text (`insertContext`'s keys, the template engine's names) are
  treated as literal text. Metacharacters in them and `$` patterns in replacement values are not
  modelled.
- `RunningConfig` and jobs are modelled as values, not shared objects. An update of an active
  job is written back into the list, and aliasing between the job list and running renders is
  not captured. Two effects follow:
  - A scene set by `setRenderingScene` while a render runs changes, in the source, the object the
    close handler reads, so that close looks for the new scene's file. The model's render keeps
    the configuration it started with.
  - `newJob` after a render-again puts the same object in the list twice, so later updates of
    one entry show in the other. The model's two entries are independent copies.
- `getNonce`, the cache-breaking timestamp, the webview's HTML, message handling and icons, and
  the status-bar colours and texts are left out.
- PseudoTerm: `replace`, `clear`, `show`, `hide`, `dispose` and the intro text are left out,
  along with the awaited `exec`. A command's outcome is an input of `Input`.
- `src/gallery.ts`, `src/config.ts`, `src/extension.ts` (command registration) and the webview
  scripts are not part of this model.
- `TemplateEngine.createCSSRegex` and `renderDoc` are not used by the modelled core.

## Findings

| source | as written | input that shows it | evidently intended | confidence | as-written member | corrected member |
|---|---|---|---|---|---|---|
| src/configparser.ts:19-41 | The header pattern has the `g` flag and is only reset by a failed `exec`. After a recognised header its `lastIndex` is the line length, so the next non-pair line misses even when it is a header. The state also carries over into the next `parse` call. | The lines "[A]", "[B]", "x = 1" give {A: {x: "1"}}. Parsing "[T]", "x = 1" twice gives {T: …} and then {OUTCAST: …}. | Every line is tested from its start, so on every call the final cursor is the title of the last header line. Like the code, all pairs then go under that one title. | not executed | LegacyConfigParser.SecondHeaderMissed, LegacyConfigParser.RepeatedParseMovesPairs | LegacyConfigParser.CorrectedScan, LegacyConfigParser.CorrectedCursorIsLastHeader, LegacyConfigParser.CorrectedSecondHeader |
