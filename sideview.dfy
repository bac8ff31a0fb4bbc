/**
 * The render-session controller (src/sideview.ts, `ManimSideview`): which configuration a render
 * uses, the arguments it is started with, what its output reveals, what its end leaves behind,
 * and the list of jobs that lets a file be rendered again. The editor, the file system, the
 * settings, the user's picks and the ids of spawned processes are inputs; the events of a child
 * process (its output chunks and its close) are method calls made in the order they arrive.
 */
module Sideview {
  import opened Wrappers
  import opened Text
  import Globals
  import ConfigParser
  import Player
  import PseudoTerm
  import Job

  type RunningConfig = Globals.RunningConfig
  type ManimConfig = Globals.ManimConfig

  /** The files that exist, by path, each with its text when it can be read. */
  type Files = map<string, Option<string>>

  /** `KILL_MSG`: the renderer asking which scene to render; a process that asks is stopped. */
  const KillMsg: string :=
    "Choose number corresponding to desired scene/arguments.\r\n(Use comma separated list for multiple entries)\r\nChoice(s):  "

  /** The quick-pick entry that asks for a typed scene name instead. */
  const MoreOption: string := "I'll provide it myself!"

  /** `BASE_ARGS` and `BASE_MANIM_EXE` (src/globals.ts). */
  const BaseArgs: string := "-ql"
  const BaseManimExe: string := "manim"

  /** The options of the configuration file that a render takes over, in the order they are read. */
  const RelevantFlags: seq<string> := ["quality", "media_dir", "video_dir", "frame_rate"]

  /** A setting when it is truthy (present and non-empty), the default otherwise (`s || d`). */
  function OrDefault(o: Option<string>, default: string): string {
    if o.Some? && o.value != "" then o.value else default
  }

  // ---------------------------------------------------------------------------------------------
  // The configuration file (`getManimConfigFile`).

  /** Where the configuration file is looked for: the chosen file when one is set, otherwise
      `manim.cfg` in the folder of the source file. */
  function ConfigFilePath(manimCfgPath: string, rootPath: string): string {
    if manimCfgPath != "" then manimCfgPath else Globals.PathJoin(rootPath, "manim.cfg")
  }

  /** `manimConfig[flag] = value` for a relevant flag, which names a field of `ManimConfig`. */
  function WithFlag(mc: ManimConfig, flag: string, value: string): ManimConfig {
    if flag == "quality" then mc.(quality := value)
    else if flag == "media_dir" then mc.(mediaDir := value)
    else if flag == "video_dir" then mc.(videoDir := value)
    else if flag == "frame_rate" then mc.(frameRate := value)
    else mc
  }

  /** One round of the loop over the flags: a flag the section holds overrides its field. */
  function FlagStep(mc: ManimConfig, cli: map<string, string>, flag: string): ManimConfig {
    if flag in cli then WithFlag(mc, flag, cli[flag]) else mc
  }

  /** The configuration after visiting `flags` in order. */
  function OverriddenOn(mc: ManimConfig, cli: map<string, string>, flags: seq<string>): ManimConfig
    decreases |flags|
  {
    if flags == [] then mc
    else FlagStep(OverriddenOn(mc, cli, flags[..|flags| - 1]), cli, flags[|flags| - 1])
  }

  /** The section's value for `flag` when it has one, else `default`. */
  function FlagOr(cli: map<string, string>, flag: string, default: string): string {
    if flag in cli then cli[flag] else default
  }

  /**
   * The defaults with the relevant flags of the section: `quality`, `media_dir`, `video_dir` and
   * `frame_rate` are taken over when present (whatever their value), and `image_dir` never is.
   */
  function Overridden(defaults: ManimConfig, cli: map<string, string>): (r: ManimConfig)
    ensures r.quality == FlagOr(cli, "quality", defaults.quality)
    ensures r.mediaDir == FlagOr(cli, "media_dir", defaults.mediaDir)
    ensures r.videoDir == FlagOr(cli, "video_dir", defaults.videoDir)
    ensures r.frameRate == FlagOr(cli, "frame_rate", defaults.frameRate)
    ensures r.imageDir == defaults.imageDir
  {
    var fs := RelevantFlags;
    assert fs[..1][..0] == [] && fs[..2][..1] == fs[..1] && fs[..3][..2] == fs[..2];
    assert fs[..4][..3] == fs[..3] && fs[..4] == fs;
    assert fs[..1] == ["quality"] && fs[..2][1] == "media_dir" && fs[..3][2] == "video_dir";
    assert fs[3] == "frame_rate";
    assert OverriddenOn(defaults, cli, []) == defaults;
    assert OverriddenOn(defaults, cli, ["quality"]) ==
      FlagStep(OverriddenOn(defaults, cli, []), cli, "quality");
    var a1 := OverriddenOn(defaults, cli, fs[..1]);
    assert a1 == FlagStep(defaults, cli, "quality");
    var a2 := OverriddenOn(defaults, cli, fs[..2]);
    assert a2 == FlagStep(a1, cli, "media_dir");
    var a3 := OverriddenOn(defaults, cli, fs[..3]);
    assert a3 == FlagStep(a2, cli, "video_dir");
    var a4 := OverriddenOn(defaults, cli, fs);
    assert a4 == FlagStep(a3, cli, "frame_rate");
    a4
  }

  /** The loop of `getManimConfigFile` over the relevant flags. */
  method OverrideFlags(defaults: ManimConfig, cliConfig: map<string, string>)
    returns (manimConfig: ManimConfig)
    ensures manimConfig == Overridden(defaults, cliConfig)
  {
    manimConfig := defaults;
    for i := 0 to |RelevantFlags|
      invariant manimConfig == OverriddenOn(defaults, cliConfig, RelevantFlags[..i])
    {
      var flag := RelevantFlags[i];
      assert RelevantFlags[..i + 1][..i] == RelevantFlags[..i];
      if flag in cliConfig {
        manimConfig := WithFlag(manimConfig, flag, cliConfig[flag]);
      }
    }
    assert RelevantFlags[..|RelevantFlags|] == RelevantFlags;
  }

  /**
   * What the configuration file at `filePath` gives: nothing when it does not exist, cannot be
   * read, or holds no `key = value` line (the parser then makes no "CLI" section); otherwise the
   * fallback settings with the relevant flags of its section. The image folder is always the
   * fallback one.
   */
  function FileConfig(filePath: string, files: Files, fallback: Globals.InternalCfg)
    : (r: Option<ManimConfig>)
    ensures r.Some? ==> r.value.imageDir == fallback.imageDir
  {
    if filePath !in files || files[filePath].None? then None
    else
      var pairs := ConfigParser.Matches(files[filePath].value);
      if pairs == [] then None
      else Some(Overridden(Globals.DefaultMainConfig(fallback), ConfigParser.Collected(pairs)))
  }

  /** A file without an `=` sign, such as one holding only a `[CLI]` header, is ignored. */
  lemma FileWithoutPairsIgnored(filePath: string, text: string, files: Files,
                                fallback: Globals.InternalCfg)
    requires filePath in files && files[filePath] == Some(text) && '=' !in text
    ensures FileConfig(filePath, files, fallback) == None
  {
    ConfigParser.NoEqualsEmptyConfig(text);
  }

  /** The `quality` of a loaded file is the value of its last `quality = ...` line. */
  lemma FileQualityIsLastLine(filePath: string, text: string, files: Files,
                              fallback: Globals.InternalCfg, k: nat)
    requires filePath in files && files[filePath] == Some(text)
    requires var ms := ConfigParser.Matches(text);
      k < |ms| && ms[k].0 == "quality" && forall j :: k < j < |ms| ==> ms[j].0 != "quality"
    ensures FileConfig(filePath, files, fallback).Some?
    ensures FileConfig(filePath, files, fallback).value.quality == ConfigParser.Matches(text)[k].1
  {
    ConfigParser.CollectedLastWins(ConfigParser.Matches(text), "quality");
  }

  // ---------------------------------------------------------------------------------------------
  // The command line (`runConfig`).

  /** The arguments a render is started with: the source file, the flags of the settings split at
      every space unless a configuration file is in use, and the scene name, trimmed. */
  function ArgList(config: RunningConfig): seq<string> {
    [config.srcPath]
    + (if config.isUsingCfgFile then [] else Split(Trim(config.cliArgs), " "))
    + [Trim(config.sceneName)]
  }

  /** The line echoed before a render starts: the executable and the arguments, joined by single
      spaces. */
  function CommandLine(executable: string, args: seq<string>): string {
    executable + " " + Join(args, " ") + "\n"
  }

  /** With a configuration file in use, the echoed line names the executable, the source file and
      the trimmed scene name, and nothing else. */
  lemma CommandLineWithCfgFile(config: RunningConfig)
    requires config.isUsingCfgFile
    ensures CommandLine(config.executablePath, ArgList(config)) ==
      config.executablePath + " " + config.srcPath + " " + Trim(config.sceneName) + "\n"
  {
    var args := ArgList(config);
    assert args == [config.srcPath, Trim(config.sceneName)];
    assert Join(args, " ") == config.srcPath + " " + Join(args[1..], " ");
    assert args[1..] == [Trim(config.sceneName)];
  }

  /** `args`, built by pushing onto a list. */
  method CommandArgs(config: RunningConfig) returns (args: seq<string>)
    ensures args == ArgList(config)
  {
    args := [config.srcPath];
    if !config.isUsingCfgFile {
      args := args + Split(Trim(config.cliArgs), " ");
    }
    args := args + [Trim(config.sceneName)];
  }

  /**
   * The list starts with the source file and ends with the scene name; between them are the
   * space-free pieces that the trimmed flags are made of, joined by single spaces, or nothing when
   * a configuration file is in use.
   */
  lemma ArgListShape(config: RunningConfig)
    ensures var args := ArgList(config);
      |args| >= 2 && args[0] == config.srcPath && args[|args| - 1] == Trim(config.sceneName)
    ensures config.isUsingCfgFile ==> |ArgList(config)| == 2
    ensures var args := ArgList(config);
      !config.isUsingCfgFile ==>
        |args| >= 3 && Join(args[1..|args| - 1], " ") == Trim(config.cliArgs) &&
        forall p :: p in args[1..|args| - 1] ==> ' ' !in p
  {
    var flags := if config.isUsingCfgFile then [] else Split(Trim(config.cliArgs), " ");
    assert ArgList(config) == [config.srcPath] + flags + [Trim(config.sceneName)];
    Between(config.srcPath, flags, Trim(config.sceneName));
    if !config.isUsingCfgFile {
      SplitJoin(Trim(config.cliArgs), " ");
      SplitCharPieces(Trim(config.cliArgs), ' ');
    }
  }

  /** The pieces between the first and the last element. */
  lemma Between(first: string, mid: seq<string>, last: string)
    ensures var s := [first] + mid + [last];
      |s| == |mid| + 2 && s[0] == first && s[|s| - 1] == last && s[1..|s| - 1] == mid
  {
  }

  /** Two spaces in a row leave an empty argument between the flags around them. */
  lemma EmptyTokensKept(a: string, b: string)
    requires a != [] && b != [] && ' ' !in a && ' ' !in b
    requires !IsSpace(a[0]) && !IsSpace(b[|b| - 1])
    ensures Split(Trim(a + "  " + b), " ") == [a, "", b]
  {
    var s := a + "  " + b;
    assert s[0] == a[0] && s[|s| - 1] == b[|b| - 1];
    assert TrimStart(s) == s;
    assert TrimEnd(s) == s;
    assert s == a + [' '] + ([] + [' '] + b);
    SplitFirstChar(a, ' ', [] + [' '] + b);
    SplitFirstChar([], ' ', b);
    SplitNoChar(b, ' ');
  }

  // ---------------------------------------------------------------------------------------------
  // The scene name (`getRenderingSceneName`).

  /** The quick-pick entries: one per scene class found, then the last chosen scene when there is
      one, then the option to type a name. */
  function ScenePicks(sceneClasses: seq<string>, lastChosen: Option<string>): (r: seq<string>)
    ensures |r| == |sceneClasses| + (if OrDefault(lastChosen, "") != "" then 2 else 1)
    ensures forall k :: 0 <= k < |sceneClasses| ==> r[k] == "$(run-all) " + sceneClasses[k]
    ensures OrDefault(lastChosen, "") != "" ==> r[|sceneClasses|] == "$(refresh) " + lastChosen.value
    ensures r[|r| - 1] == MoreOption
    decreases |sceneClasses|
  {
    if sceneClasses == [] then
      (if OrDefault(lastChosen, "") != "" then ["$(refresh) " + lastChosen.value] else []) + [MoreOption]
    else ["$(run-all) " + sceneClasses[0]] + ScenePicks(sceneClasses[1..], lastChosen)
  }

  /** The chosen entry with the first `$(run-all)` and then the first `$(refresh)` dropped, and
      trimmed; nothing left means no name. */
  function CleanSceneName(choice: string): (r: Option<string>)
    ensures r.Some? ==> r.value != [] && !IsSpace(r.value[0]) && !IsSpace(r.value[|r.value| - 1])
  {
    var s := Trim(ReplaceFirst(ReplaceFirst(choice, "$(run-all)", ""), "$(refresh)", ""));
    if s == "" then None else Some(s)
  }

  /** The scene name settled on, from the entry picked (if any) and, when that is the option to
      type one, the name typed (if any); an empty pick or input counts as none. */
  function RenderingSceneName(pick: Option<string>, custom: Option<string>): Option<string> {
    if OrDefault(pick, "") == "" then None
    else if pick.value == MoreOption then
      if OrDefault(custom, "") == "" then None else CleanSceneName(custom.value)
    else CleanSceneName(pick.value)
  }

  /** Picking the entry of a scene class gives back the class's name. */
  lemma PickedSceneClass(name: string, custom: Option<string>)
    requires name != [] && forall c :: c in name ==> IsWordChar(c)
    ensures RenderingSceneName(Some("$(run-all) " + name), custom) == Some(name)
  {
    var choice := "$(run-all) " + name;
    var k := "$(run-all)";
    assert choice != MoreOption by {
      assert choice[0] != MoreOption[0];
    }
    assert OccursAt(choice, k, 0) by {
      assert choice[0..|k|] == k;
    }
    assert Find(choice, k) == Some(0);
    assert ReplaceFirst(choice, k, "") == " " + name by {
      assert choice[|k|..] == " " + name;
    }
    assert '$' !in " " + name;
    AbsentHead(" " + name, "$(refresh)", "");
    assert IsWordChar(name[0]) && IsWordChar(name[|name| - 1]);
    TrimPadded(" ", name);
  }

  /** A typed name without `$` comes back trimmed, unless nothing but whitespace was typed. */
  lemma TypedSceneName(typed: string)
    requires typed != [] && '$' !in typed
    ensures RenderingSceneName(Some(MoreOption), Some(typed)) ==
      (if Trim(typed) == "" then None else Some(Trim(typed)))
  {
    AbsentHead(typed, "$(run-all)", "");
    AbsentHead(typed, "$(refresh)", "");
  }

  // ---------------------------------------------------------------------------------------------
  // Reading the renderer's defaults from `cfg show` (`syncFallbackManimConfig`).

  /** `parts.findIndex(p => p.includes(k))`, as an option. */
  function FirstWith(parts: seq<string>, k: string): (r: Option<nat>)
    ensures r.Some? ==> r.value < |parts| && Contains(parts[r.value], k)
    ensures r.Some? ==> forall j :: 0 <= j < r.value ==> !Contains(parts[j], k)
    ensures r.None? ==> forall j :: 0 <= j < |parts| ==> !Contains(parts[j], k)
    decreases |parts|
  {
    if parts == [] then None
    else if Contains(parts[0], k) then Some(0)
    else match FirstWith(parts[1..], k)
      case None => None
      case Some(i) => Some(i + 1)
  }

  /** The output's blocks are separated by two blank lines; the payload is the first block that
      mentions "CLI", with its line breaks turned into spaces. */
  function CfgPayload(fullStdout: string): Option<string> {
    var blocks := Split(fullStdout, "\r\n\r\n\r\n");
    match FirstWith(blocks, "CLI")
    case None => None
    case Some(i) => Some(ReplaceAll(blocks[i], "\r\n", " ", false))
  }

  predicate NotBlank(c: char) {
    c != ' '
  }

  /** The end of `\s?([^ ]*)` starting at `v`: at most one whitespace character, then every
      character up to the next space. */
  function ValueEnd(s: string, v: nat): (e: nat)
    requires v <= |s|
    ensures v <= e <= |s|
  {
    var p := if v < |s| && IsSpace(s[v]) then v + 1 else v;
    RunEnd(s, p, NotBlank)
  }

  /**
   * Where a match of `(\w+)\s?:\s?([^ ]*)` that starts at `i` ends, if one starts there. The word
   * cannot give characters back to the colon, so the colon must follow the whole word, directly
   * or after one whitespace character.
   */
  function OptionMatchAt(s: string, i: nat): (r: Option<nat>)
    requires i <= |s|
    ensures r.Some? ==> i < r.value <= |s| && ':' in s[i..r.value]
  {
    if i == |s| || !IsWordChar(s[i]) then None
    else
      var w := RunEnd(s, i, IsWordChar);
      if w < |s| && s[w] == ':' then
        var e := ValueEnd(s, w + 1);
        assert s[i..e][w - i] == ':';
        Some(e)
      else if w + 1 < |s| && IsSpace(s[w]) && s[w + 1] == ':' then
        var e := ValueEnd(s, w + 2);
        assert s[i..e][w + 1 - i] == ':';
        Some(e)
      else None
  }

  /** `s.match(RE_CFG_OPTIONS)` from `i`: the matched texts, left to right and without overlap. */
  function OptionMatchesFrom(s: string, i: nat): (ms: seq<string>)
    requires i <= |s|
    ensures forall op :: op in ms ==> ':' in op
    decreases |s| - i
  {
    if i == |s| then []
    else
      match OptionMatchAt(s, i)
      case Some(e) => [s[i..e]] + OptionMatchesFrom(s, e)
      case None => OptionMatchesFrom(s, i + 1)
  }

  /** `op.split(":")`, keeping the trimmed text before the first colon as the name and the trimmed
      text between it and the next colon as the value. */
  function CfgOption(op: string): (string, string)
    requires ':' in op
  {
    SplitAtChar(op, ':');
    var options := Split(op, ":");
    (Trim(options[0]), Trim(options[1]))
  }

  function OptionPairs(ops: seq<string>): (pairs: seq<(string, string)>)
    requires forall op :: op in ops ==> ':' in op
    ensures |pairs| == |ops|
    decreases |ops|
  {
    if ops == [] then [] else OptionPairs(ops[..|ops| - 1]) + [CfgOption(ops[|ops| - 1])]
  }

  /** One more option line sets its own key on the options of the lines before it. */
  lemma OptionPairsStep(ops: seq<string>, i: nat)
    requires forall op :: op in ops ==> ':' in op
    requires i < |ops|
    ensures ConfigParser.Collected(OptionPairs(ops[..i + 1])) ==
      ConfigParser.Collected(OptionPairs(ops[..i]))[CfgOption(ops[i]).0 := CfgOption(ops[i]).1]
  {
    var prefix := ops[..i + 1];
    assert prefix[..|prefix| - 1] == ops[..i];
    var pairs := OptionPairs(prefix);
    assert pairs[..|pairs| - 1] == OptionPairs(ops[..i]);
  }

  /** The `forEach` of `syncFallbackManimConfig` that files each option line under its key. */
  method CollectOptions(matches: seq<string>) returns (cfgOptions: map<string, string>)
    requires forall op :: op in matches ==> ':' in op
    ensures cfgOptions == ConfigParser.Collected(OptionPairs(matches))
  {
    cfgOptions := map[];
    var i := 0;
    while i < |matches|
      invariant 0 <= i <= |matches|
      invariant cfgOptions == ConfigParser.Collected(OptionPairs(matches[..i]))
    {
      OptionPairsStep(matches, i);
      var option := CfgOption(matches[i]);
      cfgOptions := cfgOptions[option.0 := option.1];
      i := i + 1;
    }
    assert matches[..i] == matches;
  }

  /** The options handed to the fallback settings: one per match, a later one overwriting an
      earlier one of the same name; none without a payload or without a match. */
  function CfgShowOptions(fullStdout: string): Option<map<string, string>> {
    match CfgPayload(fullStdout)
    case None => None
    case Some(payload) =>
      var ops := OptionMatchesFrom(payload, 0);
      if ops == [] then None else Some(ConfigParser.Collected(OptionPairs(ops)))
  }

  /** A value is cut at its own colon: `media_dir: C:\media` gives the value `C`. */
  lemma CfgOptionCutAtColon(key: string, value: string, rest: string)
    requires ':' !in key && ':' !in value
    ensures ':' in key + ":" + value + ":" + rest
    ensures CfgOption(key + ":" + value + ":" + rest) == (Trim(key), Trim(value))
  {
    var op := key + ":" + value + ":" + rest;
    assert op == key + [':'] + (value + [':'] + rest);
    assert op[|key|] == ':';
    SplitFirstChar(key, ':', value + [':'] + rest);
    SplitFirstChar(value, ':', rest);
  }

  /** An option line `key: value`, with a word for a key and no space in the value, is one
      match. */
  lemma OptionLineMatched(key: string, value: string)
    requires key != [] && forall c :: c in key ==> IsWordChar(c)
    requires ' ' !in value
    ensures OptionMatchesFrom(key + ": " + value, 0) == [key + ": " + value]
  {
    var s := key + ": " + value;
    var w := |key|;
    assert s[w] == ':' && s[w + 1] == ' ';
    assert forall k :: 0 <= k < w ==> s[k] == key[k];
    ConfigParser.RunEndAt(s, 0, w, IsWordChar);
    assert forall k :: w + 2 <= k < |s| ==> s[k] == value[k - w - 2];
    ConfigParser.RunEndAt(s, w + 2, |s|, NotBlank);
    assert OptionMatchAt(s, 0) == Some(|s|);
    assert s[0..|s|] == s;
  }

  /** Such a line is read as that key and the value trimmed, when the value has no colon. */
  lemma OptionLineRead(key: string, value: string)
    requires key != [] && forall c :: c in key ==> IsWordChar(c)
    requires ':' !in value
    ensures ':' in key + ": " + value
    ensures CfgOption(key + ": " + value) == (key, Trim(value))
  {
    assert (key + ": " + value)[|key|] == ':';
    assert ':' !in key by {
      assert forall c :: c in key ==> IsWordChar(c);
    }
    OptionLineSplit(key, value);
    assert IsWordChar(key[0]) && IsWordChar(key[|key| - 1]);
    TrimPadded([], key);
    assert [] + key == key;
    TrimSpaceHead(value);
  }

  /** The line splits at its colon into the key and the rest. */
  lemma OptionLineSplit(key: string, value: string)
    requires ':' !in key && ':' !in value
    ensures Split(key + ": " + value, ":") == [key, " " + value]
  {
    assert key + ": " + value == key + [':'] + (" " + value);
    assert ':' !in " " + value;
    SplitFirstChar(key, ':', " " + value);
    SplitNoChar(" " + value, ':');
  }

  /** One leading space makes no difference to the trimmed text. */
  lemma TrimSpaceHead(value: string)
    ensures Trim(" " + value) == Trim(value)
  {
    assert (" " + value)[1..] == value;
    assert TrimStart(" " + value) == TrimStart(value);
  }

  // ---------------------------------------------------------------------------------------------
  // What the render's output reveals (the stdout handler of `executeTerminalCommand`).

  const FileReadyPrefix: string := "File ready at '"
  const VersionPrefix: string := "Manim Community v"

  predicate NotQuote(c: char) {
    c != '\''
  }

  predicate IsVersionChar(c: char) {
    c == '.' || ('0' <= c <= '9')
  }

  /** A match of `File ready at '(?<path>[^']+)'` at `i`: its path and the index after it. */
  function FileReadyAt(s: string, i: nat): (r: Option<(string, nat)>)
    requires i <= |s|
    ensures r.Some? ==> i < r.value.1 <= |s|
  {
    if !OccursAt(s, FileReadyPrefix, i) then None
    else
      var p := i + |FileReadyPrefix|;
      var e := RunEnd(s, p, NotQuote);
      if p < e && e < |s| then Some((s[p..e], e + 1)) else None
  }

  /** `[...s.matchAll(RE_FILE_READY)]` from `i`: the paths, left to right. */
  function FileReadyFrom(s: string, i: nat): seq<string>
    requires i <= |s|
    decreases |s| - i
  {
    if i == |s| then []
    else
      match FileReadyAt(s, i)
      case Some(m) => [m.0] + FileReadyFrom(s, m.1)
      case None => FileReadyFrom(s, i + 1)
  }

  /** The path, with its spaces and line breaks removed, ends in `.png`. */
  predicate IsPng(path: string) {
    EndsWith(RemoveChars(path, {' ', '\r', '\n'}), ".png")
  }

  /** `paths.some(IsPng)`. */
  function SomePng(paths: seq<string>): (r: bool)
    ensures r <==> exists k :: 0 <= k < |paths| && IsPng(paths[k])
    decreases |paths|
  {
    if paths == [] then false
    else IsPng(paths[0]) || (assert forall k :: 1 <= k < |paths| ==> paths[k] == paths[1..][k - 1];
                             SomePng(paths[1..]))
  }

  /** The media type a chunk shows: an image when one of its finished files is a PNG, a video
      otherwise, even when it names no file. */
  function DetectedType(chunk: string): int {
    if SomePng(FileReadyFrom(chunk, 0)) then Player.Image else Player.Video
  }

  /** The version in a match of `Manim Community v(?<version>[.0-9]+)` at `i`. */
  function VersionAt(s: string, i: nat): (r: Option<string>)
    requires i <= |s|
    ensures r.Some? ==> r.value != []
  {
    if !OccursAt(s, VersionPrefix, i) then None
    else
      var p := i + |VersionPrefix|;
      var e := RunEnd(s, p, IsVersionChar);
      if p < e then Some(s[p..e]) else None
  }

  /** The version of the first match from `i` on (`versionSignifier[0]`), if any. */
  function FirstVersionFrom(s: string, i: nat): (r: Option<string>)
    requires i <= |s|
    ensures r.Some? ==> r.value != []
    decreases |s| - i
  {
    if i == |s| then None
    else
      match VersionAt(s, i)
      case Some(v) => Some(v)
      case None => FirstVersionFrom(s, i + 1)
  }

  function FirstVersion(s: string): (r: Option<string>)
    ensures r.Some? ==> r.value != []
  {
    FirstVersionFrom(s, 0)
  }

  /** What the handlers of one render have captured: the media type (`PlayableMediaType`) and the
      renderer's version. */
  datatype Capture = Capture(outputFileType: Option<int>, manimVersion: Option<string>)

  /** `!outputFileType`: no type yet, or Video, which is 0 and so falsy. */
  predicate TypeUnsettled(t: Option<int>) {
    t.None? || t.value == Player.Video
  }

  /** Counted as truthy: present and not empty. */
  predicate Truthy(o: Option<string>) {
    o.Some? && o.value != ""
  }

  /**
   * The capture after a chunk that is processed: the type is detected again from each chunk for
   * as long as it is unset or Video, and the version is taken from the first chunk that shows
   * one.
   */
  function AfterChunk(c: Capture, chunk: string): Capture {
    Capture(
      if TypeUnsettled(c.outputFileType) then Some(DetectedType(chunk)) else c.outputFileType,
      if Truthy(c.manimVersion) then c.manimVersion
      else match FirstVersion(chunk) case Some(v) => Some(v) case None => c.manimVersion)
  }

  /** The handler fails on `versionSignifier[0].groups` when it still needs the version and the
      chunk shows none; the type has been detected by then. */
  predicate Crashes(c: Capture, chunk: string) {
    !Truthy(c.manimVersion) && FirstVersion(chunk).None?
  }

  /** The capture after processing the chunks in order. */
  function AfterChunks(c: Capture, chunks: seq<string>): Capture
    decreases |chunks|
  {
    if chunks == [] then c else AfterChunks(AfterChunk(c, chunks[0]), chunks[1..])
  }

  /** The first version that any of the chunks shows. */
  function FirstFound(chunks: seq<string>): Option<string>
    decreases |chunks|
  {
    if chunks == [] then None
    else if FirstVersion(chunks[0]).Some? then FirstVersion(chunks[0])
    else FirstFound(chunks[1..])
  }

  /** Once an image has been seen, later chunks cannot turn it back into a video. */
  lemma {:induction false} ImageIsFinal(c: Capture, chunks: seq<string>)
    requires c.outputFileType == Some(Player.Image)
    ensures AfterChunks(c, chunks).outputFileType == Some(Player.Image)
    decreases |chunks|
  {
    if chunks != [] {
      ImageIsFinal(AfterChunk(c, chunks[0]), chunks[1..]);
    }
  }

  /**
   * The type is not fixed by the first chunk: after any non-empty run of chunks it is an image
   * exactly when one of them showed a PNG, and a video otherwise.
   */
  lemma {:induction false} TypeAfterChunks(c: Capture, chunks: seq<string>)
    requires TypeUnsettled(c.outputFileType) && chunks != []
    ensures AfterChunks(c, chunks).outputFileType ==
      Some(if exists k :: 0 <= k < |chunks| && DetectedType(chunks[k]) == Player.Image
           then Player.Image else Player.Video)
    decreases |chunks|
  {
    var next := AfterChunk(c, chunks[0]);
    var rest := chunks[1..];
    assert forall k :: 1 <= k < |chunks| ==> chunks[k] == rest[k - 1];
    if DetectedType(chunks[0]) == Player.Image {
      ImageIsFinal(next, rest);
    } else if rest == [] {
    } else {
      TypeAfterChunks(next, rest);
      assert (exists k :: 0 <= k < |chunks| && DetectedType(chunks[k]) == Player.Image) <==>
             (exists k :: 0 <= k < |rest| && DetectedType(rest[k]) == Player.Image) by {
        forall k | 0 <= k < |rest| && DetectedType(rest[k]) == Player.Image
          ensures 0 <= k + 1 < |chunks| && DetectedType(chunks[k + 1]) == Player.Image
        {
        }
      }
    }
  }

  /** A version once captured is kept. */
  lemma {:induction false} VersionIsFinal(c: Capture, chunks: seq<string>)
    requires Truthy(c.manimVersion)
    ensures AfterChunks(c, chunks).manimVersion == c.manimVersion
    decreases |chunks|
  {
    if chunks != [] {
      VersionIsFinal(AfterChunk(c, chunks[0]), chunks[1..]);
    }
  }

  /** Without a version yet, the one captured is the first any chunk shows. */
  lemma {:induction false} VersionAfterChunks(c: Capture, chunks: seq<string>)
    requires !Truthy(c.manimVersion)
    ensures AfterChunks(c, chunks).manimVersion ==
      match FirstFound(chunks) case Some(v) => Some(v) case None => c.manimVersion
    decreases |chunks|
  {
    if chunks != [] {
      var next := AfterChunk(c, chunks[0]);
      if FirstVersion(chunks[0]).Some? {
        VersionIsFinal(next, chunks[1..]);
      } else {
        VersionAfterChunks(next, chunks[1..]);
      }
    }
  }

  /** The renderer's message for a finished file names its path. */
  lemma FileReadyMessage(path: string)
    requires path != [] && '\'' !in path
    ensures FileReadyFrom(FileReadyPrefix + path + "'", 0) == [path]
  {
    var s := FileReadyPrefix + path + "'";
    var p := |FileReadyPrefix|;
    assert OccursAt(s, FileReadyPrefix, 0) by {
      assert s[0..p] == FileReadyPrefix;
    }
    assert forall k :: p <= k < p + |path| ==> s[k] == path[k - p];
    ConfigParser.RunEndAt(s, p, p + |path|, NotQuote);
    assert s[p..p + |path|] == path;
    assert FileReadyAt(s, 0) == Some((path, |s|));
  }

  /** So a chunk holding just that message shows an image exactly when the path is a PNG. */
  lemma FileReadyType(path: string)
    requires path != [] && '\'' !in path
    ensures DetectedType(FileReadyPrefix + path + "'") == Player.Image <==> IsPng(path)
  {
    FileReadyMessage(path);
  }

  /** The banner `Manim Community v<version>` gives the version. */
  lemma VersionBanner(version: string, rest: string)
    requires version != [] && forall c :: c in version ==> IsVersionChar(c)
    requires rest == [] || !IsVersionChar(rest[0])
    ensures FirstVersion(VersionPrefix + version + rest) == Some(version)
  {
    var s := VersionPrefix + version + rest;
    var p := |VersionPrefix|;
    assert OccursAt(s, VersionPrefix, 0) by {
      assert s[0..p] == VersionPrefix;
    }
    assert forall k :: p <= k < p + |version| ==> s[k] == version[k - p];
    assert p + |version| < |s| ==> s[p + |version|] == rest[0];
    ConfigParser.RunEndAt(s, p, p + |version|, IsVersionChar);
    assert s[p..p + |version|] == version;
  }

  // ---------------------------------------------------------------------------------------------
  // The job list.

  /** `jobs.find(j => j.config.srcPath === path)`, as the index of the first such job. */
  function FirstJob(jobs: seq<RunningConfig>, path: string): (r: Option<nat>)
    ensures r.Some? ==> r.value < |jobs| && jobs[r.value].srcPath == path
    ensures r.Some? ==> forall k :: 0 <= k < r.value ==> jobs[k].srcPath != path
    ensures r.None? ==> forall k :: 0 <= k < |jobs| ==> jobs[k].srcPath != path
    decreases |jobs|
  {
    if jobs == [] then None
    else if jobs[0].srcPath == path then Some(0)
    else
      match FirstJob(jobs[1..], path)
      case None => None
      case Some(i) => Some(i + 1)
  }

  /** `getActiveJob(srcPath)`: the first job of the given path or, without a (truthy) path, of the
      active editor's file when that is a Python file. */
  function ActiveJob(jobs: seq<RunningConfig>, srcPath: Option<string>, editor: Option<Job.Editor>)
    : (r: Option<nat>)
    ensures r.Some? ==> r.value < |jobs|
    ensures r.Some? && Truthy(srcPath) ==> jobs[r.value].srcPath == srcPath.value
    ensures r.Some? && !Truthy(srcPath) ==>
      editor.Some? && editor.value.languageId == "python" && jobs[r.value].srcPath == editor.value.fileName
    ensures r.None? <==>
      if Truthy(srcPath) then forall k :: 0 <= k < |jobs| ==> jobs[k].srcPath != srcPath.value
      else editor.None? || editor.value.languageId != "python" ||
           forall k :: 0 <= k < |jobs| ==> jobs[k].srcPath != editor.value.fileName
  {
    if Truthy(srcPath) then FirstJob(jobs, srcPath.value)
    else if editor.None? || editor.value.languageId != "python" then None
    else FirstJob(jobs, editor.value.fileName)
  }

  /** The first job of a path is the one the three properties of `FirstJob` single out. */
  lemma FirstJobIs(jobs: seq<RunningConfig>, path: string, r: Option<nat>)
    requires r.Some? ==> r.value < |jobs| && jobs[r.value].srcPath == path
    requires r.Some? ==> forall k :: 0 <= k < r.value ==> jobs[k].srcPath != path
    requires r.None? ==> forall k :: 0 <= k < |jobs| ==> jobs[k].srcPath != path
    ensures FirstJob(jobs, path) == r
  {
  }

  /** Appending a job leaves every lookup that already found one where it was: a file rendered
      again gets a duplicate entry that no lookup reaches. */
  lemma NewJobKeepsFirst(jobs: seq<RunningConfig>, conf: RunningConfig, path: string)
    ensures FirstJob(jobs + [conf], path) ==
      if FirstJob(jobs, path).Some? then FirstJob(jobs, path)
      else if conf.srcPath == path then Some(|jobs|) else None
  {
    var s := jobs + [conf];
    assert forall k :: 0 <= k < |jobs| ==> s[k] == jobs[k];
    assert s[|jobs|] == conf;
    var r := if FirstJob(jobs, path).Some? then FirstJob(jobs, path)
      else if conf.srcPath == path then Some(|jobs|) else None;
    FirstJobIs(s, path, r);
  }

  /** Removing the first job of a path takes out exactly that entry. */
  lemma RemoveFirstJob(jobs: seq<RunningConfig>, path: string)
    requires FirstJob(jobs, path).Some?
    ensures var i := FirstJob(jobs, path).value;
      multiset(jobs[..i] + jobs[i + 1..]) + multiset{jobs[i]} == multiset(jobs)
  {
    var i := FirstJob(jobs, path).value;
    assert jobs == jobs[..i] + [jobs[i]] + jobs[i + 1..];
  }

  /** After that removal a later duplicate is what the path finds. */
  lemma RemoveFirstJobExposesNext(jobs: seq<RunningConfig>, path: string)
    requires FirstJob(jobs, path).Some?
    ensures var i := FirstJob(jobs, path).value;
      FirstJob(jobs[..i] + jobs[i + 1..], path) == Shifted(FirstJob(jobs[i + 1..], path), i)
  {
    var i := FirstJob(jobs, path).value;
    var before := jobs[..i];
    forall k | 0 <= k < |before|
      ensures before[k].srcPath != path
    {
      assert before[k] == jobs[k];
    }
    SkipPrefix(before, jobs[i + 1..], path);
  }

  /** A position found in a tail, as a position in the whole list. */
  function Shifted(r: Option<nat>, n: nat): Option<nat> {
    match r
    case None => None
    case Some(j) => Some(n + j)
  }

  /** Jobs of other paths in front only shift where the path is found. */
  lemma {:induction false} SkipPrefix(before: seq<RunningConfig>, after: seq<RunningConfig>, path: string)
    requires forall k :: 0 <= k < |before| ==> before[k].srcPath != path
    ensures FirstJob(before + after, path) == Shifted(FirstJob(after, path), |before|)
    decreases |before|
  {
    if before == [] {
      assert before + after == after;
    } else {
      var rest := before[1..];
      assert (before + after)[1..] == rest + after;
      assert (before + after)[0] == before[0];
      SkipPrefix(rest, after, path);
    }
  }

  // ---------------------------------------------------------------------------------------------
  // Starting a render (`run`, `getNewRunningConfig`).

  /** The extension's settings that a render reads. */
  datatype Settings = Settings(
    defaultManimPath: Option<string>,
    commandLineArgs: Option<string>,
    outputToTerminal: bool)

  /** `path.basename`: the text after the last `/`. */
  function Basename(p: string): (b: string)
    ensures '/' !in b && |b| <= |p| && b == p[|p| - |b|..]
    ensures |b| < |p| ==> p[|p| - |b| - 1] == '/'
    decreases |p|
  {
    if p == [] || p[|p| - 1] == '/' then [] else Basename(p[..|p| - 1]) + [p[|p| - 1]]
  }

  /** The module name: the file name without its last three characters (`.slice(0, -3)`). */
  function ModuleName(srcPath: string): string {
    var b := Basename(srcPath);
    if |b| >= 3 then b[..|b| - 3] else ""
  }

  /** The file name is what follows the last `/`. */
  lemma {:induction false} BasenameOf(dir: string, file: string)
    requires '/' !in file
    ensures Basename(dir + "/" + file) == file
    decreases |file|
  {
    var p := dir + "/" + file;
    if file == [] {
      assert p[|p| - 1] == '/';
    } else {
      var init := file[..|file| - 1];
      assert p[..|p| - 1] == dir + "/" + init;
      assert p[|p| - 1] == file[|file| - 1];
      BasenameOf(dir, init);
      assert init + [file[|file| - 1]] == file;
    }
  }

  /** A Python script `<dir>/<m>.py` has the module name `m`. */
  lemma ModuleOfScript(dir: string, m: string)
    requires '/' !in m
    ensures ModuleName(dir + "/" + m + ".py") == m
  {
    assert dir + "/" + m + ".py" == dir + "/" + (m + ".py");
    BasenameOf(dir, m + ".py");
    assert (m + ".py")[..|m + ".py"| - 3] == m;
  }

  /** `getNewRunningConfig`: the executable and the flags from the settings or their defaults, the
      folder and path of the file, its module name, and what the run settled on. */
  function NewRunningConfig(fileName: string, folder: string, sceneName: string,
                            isUsingCfgFile: bool, manimConfig: ManimConfig, settings: Settings)
    : RunningConfig
  {
    Globals.RunningConfig(
      OrDefault(settings.defaultManimPath, BaseManimExe),
      OrDefault(settings.commandLineArgs, BaseArgs),
      folder, fileName, ModuleName(fileName), isUsingCfgFile, manimConfig, sceneName)
  }

  /** What `run` goes on to render: nothing, the configuration of job `index` brought up to date,
      or the configuration of a new job. */
  datatype Plan = Skip | Rerun(index: nat, config: RunningConfig) | Fresh(config: RunningConfig)

  /**
   * `run` up to `runConfig`. Without an editor, or when run on save for a file without a job,
   * nothing happens. The configuration file is read for a new job and for a job that already
   * used one; a job that started on the fallback settings keeps them. A new job needs a scene
   * name from the user.
   */
  function RunPlan(jobs: seq<RunningConfig>, manimCfgPath: string, onSave: bool,
                   editor: Option<Job.Editor>, folder: string, files: Files,
                   fallback: Globals.InternalCfg, settings: Settings,
                   pick: Option<string>, custom: Option<string>): (p: Plan)
    ensures p.Rerun? ==> p.index < |jobs|
  {
    if editor.None? then Skip
    else
      var fileName := editor.value.fileName;
      if onSave && FirstJob(jobs, fileName).None? then Skip
      else
        var active := ActiveJob(jobs, Some(fileName), editor);
        var loaded :=
          if active.None? || jobs[active.value].isUsingCfgFile
          then FileConfig(ConfigFilePath(manimCfgPath, folder), files, fallback) else None;
        PlanWith(jobs, active, loaded, fileName, folder, fallback, settings, pick, custom)
  }

  /** The rest of `run` once the job to render again, if any, and the loaded configuration file,
      if one was read, are known. */
  function PlanWith(jobs: seq<RunningConfig>, active: Option<nat>, loaded: Option<ManimConfig>,
                    fileName: string, folder: string, fallback: Globals.InternalCfg,
                    settings: Settings, pick: Option<string>, custom: Option<string>): (p: Plan)
    requires active.Some? ==> active.value < |jobs|
    ensures p.Rerun? ==> active == Some(p.index)
  {
    var mc := if loaded.Some? then loaded.value else Globals.DefaultMainConfig(fallback);
    match active
    case Some(i) => Rerun(i, jobs[i].(manimConfig := mc, isUsingCfgFile := loaded.Some?))
    case None =>
      match RenderingSceneName(pick, custom)
      case None => Skip
      case Some(name) => Fresh(NewRunningConfig(fileName, folder, name, loaded.Some?, mc, settings))
  }

  /**
   * Rendering a file again reuses its first job: only the settings from the configuration file
   * are renewed, and a job that did not use a configuration file never starts to, even when one
   * appears; it is brought back to the current fallback settings instead.
   */
  lemma RerunKeepsJob(jobs: seq<RunningConfig>, manimCfgPath: string, onSave: bool,
                      editor: Option<Job.Editor>, folder: string, files: Files,
                      fallback: Globals.InternalCfg, settings: Settings,
                      pick: Option<string>, custom: Option<string>)
    requires editor.Some? && editor.value.fileName != ""
    requires FirstJob(jobs, editor.value.fileName).Some?
    ensures var p := RunPlan(jobs, manimCfgPath, onSave, editor, folder, files, fallback, settings, pick, custom);
      var i := FirstJob(jobs, editor.value.fileName).value;
      p == Rerun(i, p.config) &&
      p.config.(manimConfig := jobs[i].manimConfig, isUsingCfgFile := jobs[i].isUsingCfgFile) == jobs[i] &&
      (!jobs[i].isUsingCfgFile ==>
         !p.config.isUsingCfgFile && p.config.manimConfig == Globals.DefaultMainConfig(fallback))
  {
  }

  /**
   * A new job is for the editor's file, renders the scene name the user settled on, and uses
   * the configuration file exactly when one could be loaded.
   */
  lemma FreshJobConfig(jobs: seq<RunningConfig>, manimCfgPath: string, onSave: bool,
                       editor: Option<Job.Editor>, folder: string, files: Files,
                       fallback: Globals.InternalCfg, settings: Settings,
                       pick: Option<string>, custom: Option<string>)
    requires RunPlan(jobs, manimCfgPath, onSave, editor, folder, files, fallback, settings, pick, custom).Fresh?
    ensures var c := RunPlan(jobs, manimCfgPath, onSave, editor, folder, files, fallback, settings, pick, custom).config;
      var loaded := FileConfig(ConfigFilePath(manimCfgPath, folder), files, fallback);
      editor.Some? && c.srcPath == editor.value.fileName &&
      Some(c.sceneName) == RenderingSceneName(pick, custom) &&
      c.isUsingCfgFile == loaded.Some? &&
      c.manimConfig == (if loaded.Some? then loaded.value else Globals.DefaultMainConfig(fallback))
  {
  }

  // ---------------------------------------------------------------------------------------------
  // Processes and their handlers.

  /** A child process: its id and whether it has been sent the termination signal. */
  class Process {
    const pid: int
    var killed: bool

    constructor(pid: int)
      ensures this.pid == pid && !killed
    {
      this.pid := pid;
      killed := false;
    }

    /** `process.kill()`. */
    method Kill()
      modifies this
      ensures killed
    {
      killed := true;
    }
  }

  /** One spawned render as its handlers see it: the process, the configuration and arguments it
      was started with, where its output goes, and what its output has shown so far. */
  class Execution {
    const process: Process
    const config: RunningConfig
    const args: seq<string>
    /** The terminal the handlers write to, or `null` for the output channel, which is not
        modelled. */
    const terminal: PseudoTerm.ManimPseudoTerm?
    var outputFileType: Option<int>
    var manimVersion: Option<string>

    function Captured(): Capture
      reads this
    {
      Capture(outputFileType, manimVersion)
    }

    constructor(process: Process, config: RunningConfig, args: seq<string>,
                terminal: PseudoTerm.ManimPseudoTerm?)
      ensures this.process == process && this.config == config && this.args == args
      ensures this.terminal == terminal && Captured() == Capture(None, None)
    {
      this.process := process;
      this.config := config;
      this.args := args;
      this.terminal := terminal;
      outputFileType := None;
      manimVersion := None;
    }

    /**
     * The stdout handler for one chunk. A killed process's output is ignored; any other chunk is
     * echoed. The renderer's scene question stops the process, a line break follows it, and
     * nothing is read from that chunk; any other chunk updates the capture. `crashed` is the type
     * error the handler raises when it still needs the version and the chunk shows none.
     */
    method OnStdout(chunk: string) returns (crashed: bool)
      modifies this, process, terminal
      ensures terminal != null ==>
        terminal.EditorKept() &&
        terminal.Out() == (if old(process.killed) then old(terminal.Out())
                           else StdoutEcho(old(terminal.Out()), chunk))
      ensures old(process.killed) ==> process.killed && Captured() == old(Captured()) && !crashed
      ensures !old(process.killed) && Contains(chunk, KillMsg) ==>
        process.killed && Captured() == old(Captured()) && !crashed
      ensures !old(process.killed) && !Contains(chunk, KillMsg) ==>
        !process.killed && Captured() == AfterChunk(old(Captured()), chunk) &&
        crashed == Crashes(old(Captured()), chunk)
    {
      if process.killed {
        return false;
      }
      if terminal != null {
        terminal.Append(chunk);
      }
      if Contains(chunk, KillMsg) {
        process.Kill();
        if terminal != null {
          terminal.Append("\n");
        }
        return false;
      }
      if TypeUnsettled(outputFileType) {
        var fileSignifier := FileReadyFrom(chunk, 0);
        if SomePng(fileSignifier) {
          outputFileType := Some(Player.Image);
        } else {
          outputFileType := Some(Player.Video);
        }
      }
      crashed := false;
      if !Truthy(manimVersion) {
        match FirstVersion(chunk) {
          case None =>
            crashed := true;
          case Some(v) =>
            manimVersion := Some(v);
        }
      }
    }

    /** The stderr handler: the chunk is echoed unless the process was killed. */
    method OnStderr(chunk: string)
      modifies terminal
      ensures terminal != null ==>
        terminal.EditorKept() &&
        terminal.Out() == (if process.killed then old(terminal.Out())
                           else PseudoTerm.Appending(old(terminal.Out()), chunk))
    {
      if !process.killed && terminal != null {
        terminal.Append(chunk);
      }
    }

    /** The error handler: the error's text is echoed unless the process was killed. */
    method OnError(message: string)
      modifies terminal
      ensures terminal != null ==>
        terminal.EditorKept() &&
        terminal.Out() == (if process.killed then old(terminal.Out())
                           else PseudoTerm.Appending(old(terminal.Out()), message))
    {
      if !process.killed && terminal != null {
        terminal.Append(message);
      }
    }
  }

  /** What the stdout handler echoes of a chunk: the chunk, and a line break after the scene
      question. */
  function StdoutEcho(o: PseudoTerm.Output, chunk: string): PseudoTerm.Output {
    var r := PseudoTerm.Appending(o, chunk);
    if Contains(chunk, KillMsg) then PseudoTerm.Appending(r, "\n") else r
  }

  /** `this.process && this.process.pid === process.pid`: the closing process counts as the
      tracked one when their ids agree. */
  predicate IsMain(tracked: Process?, p: Process) {
    tracked != null && tracked.pid == p.pid
  }

  /** The terminal is moved to the render's folder and marked running; the rest of it stays. */
  method DirectTerminal(term: PseudoTerm.ManimPseudoTerm, folder: string)
    modifies term
    ensures term.cwd == folder && term.isRunning
    ensures term.envName == old(term.envName) && term.content == old(term.content)
    ensures term.appendedBefore == old(term.appendedBefore) && term.stickyNotes == old(term.stickyNotes)
    ensures term.written == old(term.written)
  {
    term.cwd := folder;
    term.isRunning := true;
  }

  /** A render just started: the process with the given id is running, with the configuration
      and arguments given, and no output has been seen yet. */
  predicate Started(ex: Execution, config: RunningConfig, args: seq<string>, pid: int)
    reads ex, ex.process
  {
    ex.process.pid == pid && !ex.process.killed && ex.config == config && ex.args == args &&
    ex.Captured() == Capture(None, None)
  }

  /** `outputFileType || PlayableMediaType.Video`. */
  function PlayedType(t: Option<int>): int {
    if TypeUnsettled(t) then Player.Video else t.value
  }

  /**
   * Where a finished render's media is looked for, under the source folder: the video path when
   * the output was seen to be a video, the image path (with the version seen, or none) otherwise,
   * also when no output was seen at all. An unknown quality makes the video path fail.
   */
  function PredictedMedia(config: RunningConfig, c: Capture, qualityMap: map<string, string>)
    : Result<string, Globals.PathError>
  {
    if c.outputFileType == Some(Player.Video) then
      match Globals.VideoOutputPath(config, qualityMap, ".mp4")
      case Err(e) => Err(e)
      case Ok(path) => Ok(Globals.PathJoin(config.srcRootFolder, path))
    else
      Ok(Globals.PathJoin(config.srcRootFolder,
        Globals.ImageOutputPath(config, OrDefault(c.manimVersion, ""), ".png")))
  }

  /**
   * The line the close handler writes: the exit code (1 after the termination signal), the
   * elapsed time as text, the signal when the code is 1, and the cause after the termination
   * signal. A missing code or signal (`null`, as Node passes for a process ended by a signal, or
   * one that exited normally) is the text "null".
   */
  function CloseMessage(code: Option<int>, signal: string, elapsed: string): string {
    "Execution returned code=" + (if code.Some? then Decimal(code.value) else "null") + " in " + elapsed
    + " seconds " + (if code == Some(1) then "returned signal " + signal else "") + " "
    + (if signal == "SIGTERM" then "Cause: An old process has been terminated due to a termination signal." else "")
    + "\n"
  }

  /** The code shown for a render ended by the termination signal is 1, whatever it exited with. */
  function ShownCode(code: Option<int>, signal: string): Option<int> {
    if signal == "SIGTERM" then Some(1) else code
  }

  /** How the close handler ends. */
  datatype Ending =
    | Terminated           // closed by the termination signal
    | Failed               // a non-zero or missing exit code
    | Thrown               // exit 0, but the media path cannot be predicted
    | Missing(media: string)
    | Played(media: string)

  function CloseEnding(signal: string, code: Option<int>, predicted: Result<string, Globals.PathError>,
                       files: Files): Ending
  {
    if signal == "SIGTERM" then Terminated
    else if code != Some(0) then Failed
    else
      match predicted
      case Err(_) => Thrown
      case Ok(media) => if media in files then Played(media) else Missing(media)
  }

  /** Only a clean exit whose media file exists plays it (and so makes a job). */
  lemma PlayedOnlyOnSuccess(signal: string, code: Option<int>, predicted: Result<string, Globals.PathError>,
                            files: Files)
    ensures CloseEnding(signal, code, predicted, files).Played? <==>
      signal != "SIGTERM" && code == Some(0) && predicted.Ok? && predicted.value in files
    ensures CloseEnding(signal, code, predicted, files).Played? ==>
      CloseEnding(signal, code, predicted, files).media == predicted.value
  {
  }

  /** With no output seen, the image path is predicted although the media is played as a video. */
  lemma UnseenOutputPredictsImage(config: RunningConfig, qualityMap: map<string, string>)
    ensures PredictedMedia(config, Capture(None, None), qualityMap) ==
      Ok(Globals.PathJoin(config.srcRootFolder, Globals.ImageOutputPath(config, "", ".png")))
    ensures PlayedType(None) == Player.Video
  {
  }

  // ---------------------------------------------------------------------------------------------
  // The controller.

  /** What the status-bar item was last set to (`setNew`, `setRunning`, `setActive`,
      `setError`); its colours and icons are not modelled. */
  datatype Indicator = New | Running | Active | Error

  /** `ManimSideview`. */
  class ManimSideview {
    var manimCfgPath: string
    var activeJobs: seq<RunningConfig>
    var process: Process?
    var indicator: Indicator
    var visible: bool
    /** Never assigned after construction, so the quick pick never offers a `$(refresh)` entry. */
    const lastChosenSceneName: Option<string>
    const mediaPlayer: Player.MediaPlayer
    const outputPseudoTerm: PseudoTerm.ManimPseudoTerm
    /** `FALLBACK_CONFIG`, shared with the rest of the extension. */
    const fallback: Globals.Fallback

    /** The status-bar item starts out shown as active; the terminal's working folder is an
        input. */
    constructor(fallback: Globals.Fallback, terminalCwd: string)
      ensures manimCfgPath == "" && activeJobs == [] && process == null
      ensures indicator == Active && visible && lastChosenSceneName == None
      ensures fresh(mediaPlayer) && mediaPlayer.recentMediaPanel == null
      ensures fresh(outputPseudoTerm) && outputPseudoTerm.Valid() && outputPseudoTerm.cwd == terminalCwd
      ensures this.fallback == fallback
    {
      manimCfgPath := "";
      activeJobs := [];
      process := null;
      indicator, visible := Active, true;
      lastChosenSceneName := None;
      mediaPlayer := new Player.MediaPlayer();
      outputPseudoTerm := new PseudoTerm.ManimPseudoTerm(terminalCwd);
      this.fallback := fallback;
    }

    /** `refreshJobStatus`: shown as active when the active editor's file has a job, hidden
        otherwise. */
    method RefreshJobStatus(editor: Option<Job.Editor>)
      modifies this
      ensures ActiveJob(activeJobs, None, editor).Some? ==> indicator == Active && visible
      ensures ActiveJob(activeJobs, None, editor).None? ==> indicator == old(indicator) && !visible
      ensures activeJobs == old(activeJobs) && manimCfgPath == old(manimCfgPath)
      ensures process == old(process)
    {
      if ActiveJob(activeJobs, None, editor).Some? {
        indicator, visible := Active, true;
      } else {
        visible := false;
      }
    }

    /** `stop`: the process given, or else the tracked one, is killed; it stays tracked. */
    method Stop(p: Process?)
      modifies if p != null then p else process
      ensures p != null ==> p.killed
      ensures p == null && process != null ==> process.killed
      ensures process == old(process) && activeJobs == old(activeJobs)
      ensures indicator == old(indicator) && visible == old(visible)
    {
      var target := if p != null then p else process;
      if target != null {
        target.Kill();
      }
    }

    /** `removeAllJobs`: no job is left and the chosen configuration file is forgotten. */
    method RemoveAllJobs(editor: Option<Job.Editor>)
      modifies this
      ensures activeJobs == [] && manimCfgPath == "" && !visible && indicator == old(indicator)
      ensures process == old(process)
    {
      activeJobs := [];
      manimCfgPath := "";
      RefreshJobStatus(editor);
    }

    /** `removeCurrentJob`: the first job of the active editor's file, if any, is removed. */
    method RemoveCurrentJob(editor: Option<Job.Editor>)
      modifies this
      ensures match ActiveJob(old(activeJobs), None, editor)
        case None =>
          activeJobs == old(activeJobs) && indicator == old(indicator) && visible == old(visible)
        case Some(i) =>
          activeJobs == old(activeJobs)[..i] + old(activeJobs)[i + 1..] &&
          (ActiveJob(activeJobs, None, editor).Some? ==> indicator == Active && visible) &&
          (ActiveJob(activeJobs, None, editor).None? ==> indicator == old(indicator) && !visible)
      ensures manimCfgPath == old(manimCfgPath) && process == old(process)
    {
      match ActiveJob(activeJobs, None, editor) {
        case None =>
        case Some(i) =>
          activeJobs := activeJobs[..i] + activeJobs[i + 1..];
          RefreshJobStatus(editor);
      }
    }

    /** `setConfigFilePath`: the chosen file's path, without a leading separator. */
    method SetConfigFilePath(chosen: Option<string>)
      modifies this
      ensures chosen.None? ==> manimCfgPath == old(manimCfgPath)
      ensures chosen.Some? && chosen.value != [] && (chosen.value[0] == '/' || chosen.value[0] == '\\') ==>
        manimCfgPath == chosen.value[1..]
      ensures chosen.Some? && (chosen.value == [] || (chosen.value[0] != '/' && chosen.value[0] != '\\')) ==>
        manimCfgPath == chosen.value
      ensures activeJobs == old(activeJobs) && process == old(process)
      ensures indicator == old(indicator) && visible == old(visible)
    {
      if chosen.Some? {
        var pth := chosen.value;
        if pth != [] && (pth[0] == '\\' || pth[0] == '/') {
          manimCfgPath := pth[1..];
        } else {
          manimCfgPath := pth;
        }
      }
    }

    /** `newJob`: the configuration is appended, whether or not its file already has a job. */
    method NewJob(conf: RunningConfig)
      modifies this
      ensures activeJobs == old(activeJobs) + [conf] && indicator == New && visible
      ensures manimCfgPath == old(manimCfgPath) && process == old(process)
    {
      activeJobs := activeJobs + [conf];
      indicator, visible := New, true;
    }

    /** `setRenderingScene`: the active editor's job, if any, takes the scene name settled on from
        the entry picked and the name typed; without a job or a name nothing changes. */
    method SetRenderingScene(editor: Option<Job.Editor>, pick: Option<string>, custom: Option<string>)
      modifies this
      ensures match ActiveJob(old(activeJobs), None, editor)
        case None => activeJobs == old(activeJobs)
        case Some(i) =>
          match RenderingSceneName(pick, custom)
          case None => activeJobs == old(activeJobs)
          case Some(name) => activeJobs == old(activeJobs)[i := old(activeJobs)[i].(sceneName := name)]
      ensures manimCfgPath == old(manimCfgPath) && process == old(process)
      ensures indicator == old(indicator) && visible == old(visible)
    {
      match ActiveJob(activeJobs, None, editor) {
        case None =>
        case Some(i) =>
          match RenderingSceneName(pick, custom) {
            case None =>
            case Some(name) =>
              activeJobs := activeJobs[i := activeJobs[i].(sceneName := name)];
          }
      }
    }

    /** `getManimConfigFile` for a source file in `rootPath`. */
    method GetManimConfigFile(rootPath: string, files: Files) returns (r: Option<ManimConfig>)
      ensures r == FileConfig(ConfigFilePath(manimCfgPath, rootPath), files, fallback.config)
    {
      var filePath := if manimCfgPath != "" then manimCfgPath else Globals.PathJoin(rootPath, "manim.cfg");
      if filePath !in files || files[filePath].None? {
        return None;
      }
      var parsedConfig := ConfigParser.Parse(files[filePath].value);
      if ConfigParser.Section !in parsedConfig {
        return None;
      }
      var cliConfig := parsedConfig[ConfigParser.Section];
      var manimConfig := OverrideFlags(Globals.DefaultMainConfig(fallback.config), cliConfig);
      r := Some(manimConfig);
    }

    /** `syncFallbackManimConfig` once the output of `cfg show` is complete. */
    method SyncFallbackManimConfig(fullStdout: string)
      modifies fallback
      ensures fallback.config ==
        match CfgShowOptions(fullStdout)
        case None => old(fallback.config)
        case Some(options) => Globals.Updated(old(fallback.config), options)
    {
      var payload := CfgPayload(fullStdout);
      if payload.None? || payload.value == "" {
        return;
      }
      var matches := OptionMatchesFrom(payload.value, 0);
      if matches == [] {
        return;
      }
      var cfgOptions := CollectOptions(matches);
      fallback.UpdateFallbackManimCfg(cfgOptions);
    }

    /** `executeTerminalCommand` up to its handlers: the command line is echoed to `out` (the
        terminal, or `null` for the output channel), any tracked process is stopped, and the new
        one, with the given id, is tracked and shown as running, its handlers writing to `out`. */
    method ExecuteTerminalCommand(args: seq<string>, config: RunningConfig,
                                  out: PseudoTerm.ManimPseudoTerm?, pid: int)
      returns (ex: Execution)
      modifies this, process, out
      ensures out != null ==>
        out.EditorKept() &&
        out.Out() == PseudoTerm.Appending(old(out.Out()), CommandLine(config.executablePath, args))
      ensures old(process) != null ==> old(process).killed
      ensures fresh(ex) && fresh(ex.process) && Started(ex, config, args, pid) && ex.terminal == out
      ensures process == ex.process && indicator == Running && visible
      ensures activeJobs == old(activeJobs) && manimCfgPath == old(manimCfgPath)
    {
      if out != null {
        out.Append(CommandLine(config.executablePath, args));
      }
      if process != null {
        process.Kill();
      }
      var p := new Process(pid);
      process := p;
      indicator, visible := Running, true;
      ex := new Execution(p, config, args, out);
    }

    /**
     * `runConfig`. The predicted video path is computed first (for the log), so an unknown
     * quality stops everything before a process is started; otherwise the render is launched.
     */
    method RunConfig(config: RunningConfig, outputToTerminal: bool, pid: int)
      returns (ex: Execution?)
      modifies this, process, outputPseudoTerm
      ensures var startable := Globals.VideoOutputPath(config, fallback.config.qualityMap, ".mp4").Ok?;
        (ex != null <==> startable) &&
        (!startable ==> process == old(process) && (process != null ==> process.killed == old(process.killed))) &&
        (!startable ==> indicator == old(indicator) && visible == old(visible) && unchanged(outputPseudoTerm))
      ensures ex != null ==> Launched(ex, config, outputToTerminal, pid)
      ensures ex != null ==> fresh(ex) && fresh(ex.process) && (old(process) != null ==> old(process).killed)
      ensures activeJobs == old(activeJobs) && manimCfgPath == old(manimCfgPath)
      ensures ex != null ==> CommandEchoed(config, outputToTerminal)
    {
      var qualityMap := fallback.config.qualityMap;
      var mediaFp := Globals.VideoOutputPath(config, qualityMap, ".mp4");
      if mediaFp.Err? {
        return null;
      }
      ex := Launch(config, outputToTerminal, pid);
    }

    /** What `runConfig` leaves after starting a render: its handlers write to the terminal
        exactly when the output goes there, and then the terminal is in the render's folder,
        running, and past its first (held-back) text. */
    predicate Launched(ex: Execution, config: RunningConfig, outputToTerminal: bool, pid: int)
      reads this, ex, ex.process, outputPseudoTerm
    {
      Started(ex, config, ArgList(config), pid) && process == ex.process && indicator == Running &&
      visible && ex.terminal == (if outputToTerminal then outputPseudoTerm else null) &&
      (outputToTerminal ==>
        outputPseudoTerm.cwd == config.srcRootFolder && outputPseudoTerm.isRunning &&
        outputPseudoTerm.appendedBefore)
    }

    /** The terminal after `runConfig` started a render: when the output goes there, the command
        line was appended and the prompt's environment and the typed line are as they were;
        otherwise the terminal is untouched. */
    twostate predicate CommandEchoed(config: RunningConfig, outputToTerminal: bool)
      reads outputPseudoTerm
    {
      if outputToTerminal then
        outputPseudoTerm.Out() ==
          PseudoTerm.Appending(old(outputPseudoTerm.Out()), CommandLine(config.executablePath, ArgList(config))) &&
        outputPseudoTerm.envName == old(outputPseudoTerm.envName) &&
        outputPseudoTerm.content == old(outputPseudoTerm.content)
      else
        unchanged(outputPseudoTerm)
    }

    /** The rest of `runConfig`: the arguments, the terminal, and the process. */
    method Launch(config: RunningConfig, outputToTerminal: bool, pid: int) returns (ex: Execution)
      modifies this, process, outputPseudoTerm
      ensures Launched(ex, config, outputToTerminal, pid)
      ensures fresh(ex) && fresh(ex.process) && (old(process) != null ==> old(process).killed)
      ensures CommandEchoed(config, outputToTerminal)
      ensures activeJobs == old(activeJobs) && manimCfgPath == old(manimCfgPath)
    {
      var args := CommandArgs(config);
      var out: PseudoTerm.ManimPseudoTerm? := null;
      if outputToTerminal {
        DirectTerminal(outputPseudoTerm, config.srcRootFolder);
        out := outputPseudoTerm;
      }
      ex := ExecuteTerminalCommand(args, config, out, pid);
    }

    /** The close handler's line, when the render's output goes to the terminal: after it the
        terminal takes input again, unless the line was the first text and is only held back. */
    method WriteClosing(term: PseudoTerm.ManimPseudoTerm?, line: string, exec: PseudoTerm.ExecOutcome)
      modifies term
      ensures term != null ==> PseudoTerm.LineAppended(term, line, exec)
      ensures term != null && old(term.appendedBefore) ==> !term.isRunning
    {
      if term != null {
        term.AppendLine(line, exec);
      }
    }

    /** The media player and its open panel, if any, are as they were. */
    twostate predicate PanelKept()
      reads mediaPlayer, mediaPlayer.recentMediaPanel
    {
      unchanged(mediaPlayer) &&
      (mediaPlayer.recentMediaPanel != null ==> unchanged(mediaPlayer.recentMediaPanel))
    }

    /**
     * The close handler: the closing line, with the time `elapsed` (as text), is written to the
     * terminal when the render's output goes there, and a new prompt follows (`exec` is the
     * outcome of a line typed at that prompt); then the render is settled.
     */
    method Close(ex: Execution, code: Option<int>, signal: string, elapsed: string, files: Files,
                 exec: PseudoTerm.ExecOutcome)
      modifies this, mediaPlayer, mediaPlayer.recentMediaPanel, ex.terminal
      ensures ex.terminal != null ==>
        PseudoTerm.LineAppended(ex.terminal, CloseMessage(ShownCode(code, signal), signal, elapsed), exec)
      ensures ex.terminal != null && old(ex.terminal.appendedBefore) ==> !ex.terminal.isRunning
      ensures process == (if IsMain(old(process), ex.process) then null else old(process))
      ensures manimCfgPath == old(manimCfgPath)
      ensures var ending := CloseEnding(signal, code,
          PredictedMedia(ex.config, ex.Captured(), fallback.config.qualityMap), files);
        match ending
        case Terminated =>
          activeJobs == old(activeJobs) && PanelKept() &&
          (IsMain(old(process), ex.process) ==> indicator == Error && visible) &&
          (!IsMain(old(process), ex.process) ==> indicator == old(indicator) && visible == old(visible))
        case Failed =>
          activeJobs == old(activeJobs) && PanelKept() && indicator == Error && visible
        case Missing(_) =>
          activeJobs == old(activeJobs) && PanelKept() && indicator == Error && visible
        case Thrown =>
          activeJobs == old(activeJobs) && PanelKept() &&
          indicator == old(indicator) && visible == old(visible)
        case Played(media) =>
          activeJobs == old(activeJobs) + [ex.config] && indicator == New && visible &&
          mediaPlayer.recentMediaPanel != null && mediaPlayer.recentMediaPanel.media == media &&
          mediaPlayer.recentMediaPanel.mediaType == PlayedType(ex.outputFileType) &&
          (old(mediaPlayer.recentMediaPanel) != null ==> mediaPlayer.recentMediaPanel == old(mediaPlayer.recentMediaPanel)) &&
          (old(mediaPlayer.recentMediaPanel) == null ==> fresh(mediaPlayer.recentMediaPanel))
    {
      WriteClosing(ex.terminal, CloseMessage(ShownCode(code, signal), signal, elapsed), exec);
      Settle(ex, code, signal, files);
    }

    /**
     * The rest of the close handler. A process closed by the termination signal only clears the
     * tracking, and shows the error, when it is the tracked one. Otherwise the tracking of the
     * tracked one is cleared, a non-zero exit shows the error, and a clean exit looks for the
     * predicted media file: when it exists it is played and the configuration becomes a new job,
     * when it does not the error is shown.
     */
    method Settle(ex: Execution, code: Option<int>, signal: string, files: Files)
      modifies this, mediaPlayer, mediaPlayer.recentMediaPanel
      ensures process == (if IsMain(old(process), ex.process) then null else old(process))
      ensures manimCfgPath == old(manimCfgPath)
      ensures var ending := CloseEnding(signal, code,
          PredictedMedia(ex.config, ex.Captured(), fallback.config.qualityMap), files);
        match ending
        case Terminated =>
          activeJobs == old(activeJobs) && PanelKept() &&
          (IsMain(old(process), ex.process) ==> indicator == Error && visible) &&
          (!IsMain(old(process), ex.process) ==> indicator == old(indicator) && visible == old(visible))
        case Failed =>
          activeJobs == old(activeJobs) && PanelKept() && indicator == Error && visible
        case Missing(_) =>
          activeJobs == old(activeJobs) && PanelKept() && indicator == Error && visible
        case Thrown =>
          activeJobs == old(activeJobs) && PanelKept() &&
          indicator == old(indicator) && visible == old(visible)
        case Played(media) =>
          activeJobs == old(activeJobs) + [ex.config] && indicator == New && visible &&
          mediaPlayer.recentMediaPanel != null && mediaPlayer.recentMediaPanel.media == media &&
          mediaPlayer.recentMediaPanel.mediaType == PlayedType(ex.outputFileType) &&
          (old(mediaPlayer.recentMediaPanel) != null ==> mediaPlayer.recentMediaPanel == old(mediaPlayer.recentMediaPanel)) &&
          (old(mediaPlayer.recentMediaPanel) == null ==> fresh(mediaPlayer.recentMediaPanel))
    {
      var isMainProcess := IsMain(process, ex.process);
      if signal == "SIGTERM" {
        if isMainProcess {
          indicator, visible := Error, true;
          process := null;
        }
        return;
      }
      if isMainProcess {
        process := null;
      }
      if code == Some(0) {
        var predicted := PredictedMedia(ex.config, ex.Captured(), fallback.config.qualityMap);
        if predicted.Err? {
          return;
        }
        var mediaFp := predicted.value;
        if mediaFp in files {
          var _, _ := mediaPlayer.PlayMedia(mediaFp, PlayedType(ex.outputFileType));
          NewJob(ex.config);
        } else {
          indicator, visible := Error, true;
        }
      } else {
        indicator, visible := Error, true;
      }
    }

    /**
     * `run`: the plan of `RunPlan` is carried out. A job that is rendered again is updated in
     * place before its configuration is handed to `runConfig`, which starts the render unless
     * its quality is unknown.
     */
    method Run(onSave: bool, editor: Option<Job.Editor>, folder: string, files: Files,
               settings: Settings, pick: Option<string>, custom: Option<string>, pid: int)
      returns (ex: Execution?)
      modifies this, process, outputPseudoTerm
      ensures var plan := RunPlan(old(activeJobs), manimCfgPath, onSave, editor, folder, files,
                                  fallback.config, settings, pick, custom);
        Followed(plan, old(activeJobs), ex, settings.outputToTerminal, pid) &&
        PlanEchoed(plan, ex, settings.outputToTerminal) &&
        (ex == null ==> process == old(process) && (process != null ==> process.killed == old(process.killed)) &&
                        indicator == old(indicator) && visible == old(visible))
      ensures ex != null ==> fresh(ex) && fresh(ex.process) && (old(process) != null ==> old(process).killed)
      ensures manimCfgPath == old(manimCfgPath)
    {
      var plan := DecideRun(onSave, editor, folder, files, settings, pick, custom);
      ex := Follow(plan, settings.outputToTerminal, pid);
    }

    /** The part of `run` that reads the editor, the jobs, the configuration file and the
        user's choice of scene. */
    method DecideRun(onSave: bool, editor: Option<Job.Editor>, folder: string, files: Files,
                     settings: Settings, pick: Option<string>, custom: Option<string>)
      returns (plan: Plan)
      ensures plan == RunPlan(activeJobs, manimCfgPath, onSave, editor, folder, files,
                              fallback.config, settings, pick, custom)
    {
      if editor.None? {
        return Skip;
      }
      var doc := editor.value;
      if onSave && FirstJob(activeJobs, doc.fileName).None? {
        return Skip;
      }
      var activeJob := ActiveJob(activeJobs, Some(doc.fileName), editor);
      var loaded: Option<ManimConfig> := None;
      if activeJob.None? || activeJobs[activeJob.value].isUsingCfgFile {
        loaded := GetManimConfigFile(folder, files);
      }
      plan := PlanWith(activeJobs, activeJob, loaded, doc.fileName, folder, fallback.config,
                       settings, pick, custom);
    }

    /** After following `plan` from the jobs `jobs`: the job list, and the render if one started. */
    predicate Followed(plan: Plan, jobs: seq<RunningConfig>, ex: Execution?, outputToTerminal: bool,
                       pid: int)
      reads this, ex, if ex != null then {ex.process} else {}, outputPseudoTerm, fallback
    {
      match plan
      case Skip => ex == null && activeJobs == jobs
      case Rerun(i, config) =>
        i < |jobs| && activeJobs == jobs[i := config] &&
        (ex != null <==> Globals.VideoOutputPath(config, fallback.config.qualityMap, ".mp4").Ok?) &&
        (ex != null ==> Launched(ex, config, outputToTerminal, pid))
      case Fresh(config) =>
        activeJobs == jobs &&
        (ex != null <==> Globals.VideoOutputPath(config, fallback.config.qualityMap, ".mp4").Ok?) &&
        (ex != null ==> Launched(ex, config, outputToTerminal, pid))
    }

    /** The terminal after following `plan`: the command line is echoed when a render started,
        and otherwise the terminal is untouched. */
    twostate predicate PlanEchoed(plan: Plan, new ex: Execution?, outputToTerminal: bool)
      reads outputPseudoTerm
    {
      match plan
      case Skip => unchanged(outputPseudoTerm)
      case Rerun(_, config) =>
        (ex != null ==> CommandEchoed(config, outputToTerminal)) && (ex == null ==> unchanged(outputPseudoTerm))
      case Fresh(config) =>
        (ex != null ==> CommandEchoed(config, outputToTerminal)) && (ex == null ==> unchanged(outputPseudoTerm))
    }

    /** The part of `run` that updates the job and hands it to `runConfig`. */
    method Follow(plan: Plan, outputToTerminal: bool, pid: int) returns (ex: Execution?)
      requires plan.Rerun? ==> plan.index < |activeJobs|
      modifies this, process, outputPseudoTerm
      ensures Followed(plan, old(activeJobs), ex, outputToTerminal, pid)
      ensures PlanEchoed(plan, ex, outputToTerminal)
      ensures ex == null ==> process == old(process) && (process != null ==> process.killed == old(process.killed)) &&
                             indicator == old(indicator) && visible == old(visible)
      ensures ex != null ==> fresh(ex) && fresh(ex.process) && (old(process) != null ==> old(process).killed)
      ensures manimCfgPath == old(manimCfgPath)
    {
      match plan {
        case Skip =>
          return null;
        case Rerun(i, runningCfg) =>
          activeJobs := activeJobs[i := runningCfg];
          ex := RunConfig(runningCfg, outputToTerminal, pid);
        case Fresh(runningCfg) =>
          ex := RunConfig(runningCfg, outputToTerminal, pid);
      }
    }
  }
}
