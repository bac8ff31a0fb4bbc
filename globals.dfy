/**
 * Output-path prediction and `{token}` substitution, and the process-wide fallback configuration
 * (src/globals.ts).
 */
module Globals {
  import opened Wrappers
  import opened Text

  /** The settings that decide where the renderer writes its output (`ManimConfig`). */
  datatype ManimConfig = ManimConfig(
    mediaDir: string,
    videoDir: string,
    imageDir: string,
    quality: string,
    frameRate: string)

  /**
   * What one render needs (`RunningConfig`). The editor's document handle is not modelled; the
   * executable path and the extra command-line flags are, because the sideview stores and uses them.
   */
  datatype RunningConfig = RunningConfig(
    executablePath: string,
    cliArgs: string,
    srcRootFolder: string,
    srcPath: string,
    moduleName: string,
    isUsingCfgFile: bool,
    manimConfig: ManimConfig,
    sceneName: string)

  /** The extension's own fallback settings (`InternalManimCfg`). */
  datatype InternalCfg = InternalCfg(
    mediaDir: string,
    videoDir: string,
    imageDir: string,
    quality: string,
    frameRate: string,
    qualityMap: map<string, string>)

  /** `FALLBACK_CONFIG` as the extension ships it. */
  const FallbackDefaults: InternalCfg := InternalCfg(
    "./media",
    "{media_dir}/videos/{module_name}/{quality}",
    "{media_dir}/images/{module_name}",
    "low",
    "15",
    map[
      "fourk" := "2160p60",
      "production" := "1440p60",
      "high" := "1080p60",
      "medium" := "720p30",
      "low" := "480p15",
      "example" := "480p30"])

  /** The string-valued keys of `FALLBACK_CONFIG`, in `Object.keys` order. */
  const FallbackKeys: seq<string> := ["mediaDir", "videoDir", "imageDir", "quality", "frameRate"]

  /** `getDefaultMainConfig`: the fallback settings under the snake_case field names. */
  function DefaultMainConfig(fb: InternalCfg): ManimConfig {
    ManimConfig(fb.mediaDir, fb.videoDir, fb.imageDir, fb.quality, fb.frameRate)
  }

  /** `FALLBACK_CONFIG[key] = value` for one of the string-valued keys. */
  function WithKey(fb: InternalCfg, key: string, value: string): InternalCfg {
    if key == "mediaDir" then fb.(mediaDir := value)
    else if key == "videoDir" then fb.(videoDir := value)
    else if key == "imageDir" then fb.(imageDir := value)
    else if key == "quality" then fb.(quality := value)
    else if key == "frameRate" then fb.(frameRate := value)
    else fb
  }

  /** The value a key takes after an update: the new one if it is given and non-empty (truthy). */
  function Pick(updated: map<string, string>, key: string, current: string): string {
    if key in updated && updated[key] != "" then updated[key] else current
  }

  /** The fallback settings after visiting `keys` in order, each overwritten by a truthy update. */
  function UpdatedOn(fb: InternalCfg, updated: map<string, string>, keys: seq<string>): InternalCfg
    decreases |keys|
  {
    if keys == [] then fb
    else
      UpdateStep(UpdatedOn(fb, updated, keys[..|keys| - 1]), updated, keys[|keys| - 1])
  }

  /** One round of `updateFallbackManimCfg`'s loop: `if (updated[ky]) FALLBACK_CONFIG[ky] = updated[ky]`. */
  function UpdateStep(fb: InternalCfg, updated: map<string, string>, key: string): InternalCfg {
    if key in updated && updated[key] != "" then WithKey(fb, key, updated[key]) else fb
  }

  /**
   * `updateFallbackManimCfg`: only the keys `FALLBACK_CONFIG` already has are overwritten, and only
   * by non-empty values; every other key of `updated` is ignored.
   */
  function Updated(fb: InternalCfg, updated: map<string, string>): (r: InternalCfg)
    ensures r.mediaDir == Pick(updated, "mediaDir", fb.mediaDir)
    ensures r.videoDir == Pick(updated, "videoDir", fb.videoDir)
    ensures r.imageDir == Pick(updated, "imageDir", fb.imageDir)
    ensures r.quality == Pick(updated, "quality", fb.quality)
    ensures r.frameRate == Pick(updated, "frameRate", fb.frameRate)
    ensures r.qualityMap == fb.qualityMap
  {
    var ks := FallbackKeys;
    assert ks[..1][..0] == [] && ks[..2][..1] == ks[..1] && ks[..3][..2] == ks[..2];
    assert ks[..4][..3] == ks[..3] && ks[..5] == ks;
    assert ks[..1] == ["mediaDir"] && ks[..2][1] == "videoDir" && ks[..3][2] == "imageDir";
    assert ks[..4][3] == "quality" && ks[4] == "frameRate";
    assert UpdatedOn(fb, updated, []) == fb;
    assert UpdatedOn(fb, updated, ["mediaDir"]) == UpdateStep(UpdatedOn(fb, updated, []), updated, "mediaDir");
    var a1 := UpdatedOn(fb, updated, ks[..1]);
    assert a1 == UpdateStep(fb, updated, "mediaDir");
    var a2 := UpdatedOn(fb, updated, ks[..2]);
    assert a2 == UpdateStep(a1, updated, "videoDir");
    var a3 := UpdatedOn(fb, updated, ks[..3]);
    assert a3 == UpdateStep(a2, updated, "imageDir");
    var a4 := UpdatedOn(fb, updated, ks[..4]);
    assert a4 == UpdateStep(a3, updated, "quality");
    var a5 := UpdatedOn(fb, updated, ks);
    assert a5 == UpdateStep(a4, updated, "frameRate");
    a5
  }

  /** `FALLBACK_CONFIG`, the one mutable copy of the fallback settings. */
  class Fallback {
    var config: InternalCfg

    constructor ()
      ensures config == FallbackDefaults
    {
      config := FallbackDefaults;
    }

    /**
     * `updateFallbackManimCfg`: walks the keys of the fallback settings and overwrites each one that
     * `updated` gives a non-empty value for. Saving the result to disk is not modelled.
     */
    method UpdateFallbackManimCfg(updated: map<string, string>)
      modifies this
      ensures config == Updated(old(config), updated)
    {
      var i := 0;
      while i < |FallbackKeys|
        invariant 0 <= i <= |FallbackKeys|
        invariant config == UpdatedOn(old(config), updated, FallbackKeys[..i])
      {
        var key := FallbackKeys[i];
        assert FallbackKeys[..i + 1][..i] == FallbackKeys[..i];
        if key in updated && updated[key] != "" {
          config := WithKey(config, key, updated[key]);
        }
        assert config == UpdateStep(UpdatedOn(old(config), updated, FallbackKeys[..i]), updated, key);
        i := i + 1;
      }
      assert FallbackKeys[..i] == FallbackKeys;
    }
  }

  /** A freshly loaded default configuration follows every truthy update of the fallback settings. */
  lemma DefaultsAfterUpdate(fb: InternalCfg, updated: map<string, string>)
    ensures DefaultMainConfig(Updated(fb, updated)) == ManimConfig(
      Pick(updated, "mediaDir", fb.mediaDir), Pick(updated, "videoDir", fb.videoDir),
      Pick(updated, "imageDir", fb.imageDir), Pick(updated, "quality", fb.quality),
      Pick(updated, "frameRate", fb.frameRate))
  {
  }

  /** Options reported under the renderer's own snake_case names (`media_dir`, `frame_rate`, ...)
      match none of the camelCase keys and so change nothing. */
  lemma SnakeCaseOptionsIgnored(fb: InternalCfg, dir: string, rate: string)
    ensures Updated(fb, map["media_dir" := dir, "video_dir" := dir, "frame_rate" := rate]) == fb
  {
  }

  // ---------------------------------------------------------------------------------------------
  // `{token}` substitution.

  /** `ContextVars`, in the order `Object.keys` lists them. */
  type Context = seq<(string, string)>

  /** One round of `insertContext`: if the text contains the key, every occurrence is replaced. */
  function SubstituteStep(path: string, key: string, value: string): string {
    if Contains(path, key) then ReplaceAll(path, key, value, false) else path
  }

  /** The text after `insertContext` has applied every key in order, each to the previous result. */
  function Substituted(context: Context, payload: string): string
    decreases |context|
  {
    if context == [] then payload
    else
      var last := context[|context| - 1];
      SubstituteStep(Substituted(context[..|context| - 1], payload), last.0, last.1)
  }

  /** `insertContext`: replaces every `{token}` of the context, key by key. */
  method InsertContext(context: Context, payload: string) returns (path: string)
    ensures path == Substituted(context, payload)
  {
    path := payload;
    var i := 0;
    while i < |context|
      invariant 0 <= i <= |context|
      invariant path == Substituted(context[..i], payload)
    {
      var (k, v) := context[i];
      assert context[..i + 1][..i] == context[..i];
      if Contains(path, k) {
        path := ReplaceAll(path, k, v, false);
      }
      i := i + 1;
    }
    assert context[..i] == context;
  }

  /** A payload containing none of the keys, or an empty context, comes back unchanged. */
  lemma {:induction false} SubstitutedNoKeys(context: Context, payload: string)
    requires forall i :: 0 <= i < |context| ==> !Contains(payload, context[i].0)
    ensures Substituted(context, payload) == payload
    decreases |context|
  {
    if context != [] {
      SubstitutedNoKeys(context[..|context| - 1], payload);
    }
  }

  /** Each key acts on the previous result, so a later key also rewrites text that an earlier
      value introduced. */
  lemma SubstitutedRescans()
    ensures Substituted([("{a}", "{b}"), ("{b}", "x")], "{a}") == "x"
  {
    var c: Context := [("{a}", "{b}"), ("{b}", "x")];
    assert c[..1][..0] == [];
    assert HeadMatches("{a}", "{a}", false);
    assert ReplaceAll("{a}", "{a}", "{b}", false) == "{b}" + ReplaceAll("", "{a}", "{b}", false);
    assert Substituted(c[..1], "{a}") == "{b}";
    assert HeadMatches("{b}", "{b}", false);
    assert ReplaceAll("{b}", "{b}", "x", false) == "x" + ReplaceAll("", "{b}", "x", false);
  }

  // ---------------------------------------------------------------------------------------------
  // Output-path prediction.

  datatype PathError = UnknownQuality(quality: string)

  /** `path.join(a, b)` for a plain relative `b`, without `.`/`..` normalisation. */
  function PathJoin(a: string, b: string): string {
    if a == "" then b else if EndsWith(a, "/") then a + b else a + "/" + b
  }

  /** `s.slice(-2)`: the last two characters, or all of a shorter text. */
  function LastTwo(s: string): string {
    if |s| >= 2 then s[|s| - 2..] else s
  }

  /**
   * The quality label of the video directory: `qualityMap[quality]` with the first occurrence of
   * its last two characters replaced by the frame rate when they differ from it. An unknown quality
   * has no label, where the source fails with a type error at `.slice`.
   */
  function QualityLabel(qualityMap: map<string, string>, quality: string, frameRate: string)
    : Result<string, PathError>
  {
    if quality !in qualityMap then Err(UnknownQuality(quality))
    else
      var tag := qualityMap[quality];
      if frameRate != LastTwo(tag) then Ok(ReplaceFirst(tag, LastTwo(tag), frameRate))
      else Ok(tag)
  }

  /** `getVideoOutputPath`: the video directory joined with `<scene><ext>`, then `{quality}`,
      `{media_dir}`, `{module_name}` and `{scene_name}` substituted in that order. */
  function VideoOutputPath(config: RunningConfig, qualityMap: map<string, string>, extension: string)
    : Result<string, PathError>
  {
    var mc := config.manimConfig;
    match QualityLabel(qualityMap, mc.quality, mc.frameRate)
    case Err(err) => Err(err)
    case Ok(quality) =>
      Ok(Substituted(
        [("{quality}", quality), ("{media_dir}", mc.mediaDir),
         ("{module_name}", config.moduleName), ("{scene_name}", config.sceneName)],
        PathJoin(mc.videoDir, config.sceneName + extension)))
  }

  /** `getImageOutputPath`: the image directory joined with `<scene>_ManimCE_v<version><ext>`, then
      `{media_dir}`, `{module_name}` and `{scene_name}` substituted; `{quality}` is not. */
  function ImageOutputPath(config: RunningConfig, manimVersion: string, extension: string): string {
    var mc := config.manimConfig;
    Substituted(
      [("{media_dir}", mc.mediaDir), ("{module_name}", config.moduleName),
       ("{scene_name}", config.sceneName)],
      PathJoin(mc.imageDir, config.sceneName + "_ManimCE_v" + manimVersion + extension))
  }

  /** An unknown quality has no label; a known one whose frame rate already ends it is kept. */
  lemma QualityLabelCases(qualityMap: map<string, string>, quality: string, frameRate: string)
    ensures QualityLabel(qualityMap, quality, frameRate).Err? <==> quality !in qualityMap
    ensures quality in qualityMap && frameRate == LastTwo(qualityMap[quality])
      ==> QualityLabel(qualityMap, quality, frameRate) == Ok(qualityMap[quality])
  {
  }

  /** When the last two characters occur only at the end of the label, exactly they become the
      frame rate: "1080p60" at 30 frames is "1080p30". */
  lemma QualityLabelPatchesRate(qualityMap: map<string, string>, quality: string, frameRate: string)
    requires quality in qualityMap && |qualityMap[quality]| >= 2
    requires var l := qualityMap[quality]; Find(l, LastTwo(l)) == Some(|l| - 2)
    ensures var l := qualityMap[quality];
      QualityLabel(qualityMap, quality, frameRate) == Ok(l[..|l| - 2] + frameRate)
  {
    var l := qualityMap[quality];
    var i := |l| - 2;
    var k := LastTwo(l);
    assert k == l[i..] && |k| == 2;
    assert l[i + 2..] == [];
    assert ReplaceFirst(l, k, frameRate) == l[..i] + frameRate;
    assert l == l[..i] + k;
    if frameRate == k {
      assert QualityLabel(qualityMap, quality, frameRate) == Ok(l);
    } else {
      assert QualityLabel(qualityMap, quality, frameRate) == Ok(ReplaceFirst(l, k, frameRate));
    }
  }

  /** Because only the first occurrence is replaced, "2160p60" at 30 frames becomes "2130p60". */
  lemma QualityLabelFirstOccurrence()
    ensures QualityLabel(FallbackDefaults.qualityMap, "fourk", "30") == Ok("2130p60")
  {
    var l := "2160p60";
    assert FallbackDefaults.qualityMap["fourk"] == l;
    assert LastTwo(l) == "60";
    assert l[0..2] == "21" && l[1..3] == "16" && l[2..4] == "60";
    assert !OccursAt(l, "60", 0) && !OccursAt(l, "60", 1) && OccursAt(l, "60", 2);
    assert FindFrom(l, "60", 2) == Some(2);
    assert FindFrom(l, "60", 1) == Some(2);
    assert Find(l, "60") == Some(2);
    assert l[..2] == "21" && l[4..] == "p60";
    assert ReplaceFirst(l, "60", "30") == "2130p60";
  }

  /** The `includes` guard of `insertContext` never changes the outcome of a non-empty key. */
  lemma SubstituteStepReplaces(path: string, key: string, value: string)
    requires key != []
    ensures SubstituteStep(path, key, value) == ReplaceAll(path, key, value, false)
  {
    if !Contains(path, key) {
      ReplaceAllNoMatch(path, key, value, false);
    }
  }

  /** A context of four keys applies them one after the other. */
  lemma SubstitutedFour(a: (string, string), b: (string, string), c: (string, string),
                        d: (string, string), payload: string)
    ensures Substituted([a, b, c, d], payload)
      == SubstituteStep(SubstituteStep(SubstituteStep(SubstituteStep(payload, a.0, a.1), b.0, b.1),
           c.0, c.1), d.0, d.1)
  {
    var ctx: Context := [a, b, c, d];
    assert ctx[..3] == [a, b, c] && ctx[..3][..2] == [a, b] && ctx[..3][..2][..1] == [a];
    assert [a][..0] == [];
    var p1 := SubstituteStep(payload, a.0, a.1);
    assert Substituted([a], payload) == p1;
    var p2 := SubstituteStep(p1, b.0, b.1);
    assert Substituted([a, b], payload) == p2;
    var p3 := SubstituteStep(p2, c.0, c.1);
    assert Substituted([a, b, c], payload) == p3;
  }

  /** A round of `insertContext` over a text laid out in token pieces replaces exactly the pieces
      equal to the key. */
  lemma SubstituteStepPieces(a: string, b: string, c: string, d: string, e: string, f: string,
                             key: string, value: string)
    requires key != [] && TokenPiece(a, key) && TokenPiece(b, key) && TokenPiece(c, key)
    requires TokenPiece(d, key) && TokenPiece(e, key) && TokenPiece(f, key)
    ensures SubstituteStep(a + b + c + d + e + f, key, value)
      == Swapped(a, key, value) + Swapped(b, key, value) + Swapped(c, key, value)
         + Swapped(d, key, value) + Swapped(e, key, value) + Swapped(f, key, value)
  {
    ReplaceAllPieces(a, b, c, d, e, f, key, value);
    SubstituteStepReplaces(a + b + c + d + e + f, key, value);
  }

  /** `insertContext` with the video path's context on the default video template. */
  lemma DefaultVideoSubstitution(m: string, s: string, tail: string)
    requires '{' !in m && '{' !in s && '{' !in tail
    ensures Substituted(
        [("{quality}", "480p15"), ("{media_dir}", "./media"), ("{module_name}", m), ("{scene_name}", s)],
        "{media_dir}" + "/videos/" + "{module_name}" + "/" + "{quality}" + tail)
      == "./media" + "/videos/" + m + "/" + "480p15" + tail
  {
    var q0 := "{media_dir}" + "/videos/" + "{module_name}" + "/" + "{quality}" + tail;
    var q3 := "./media" + "/videos/" + m + "/" + "480p15" + tail;
    DefaultQualityRound(tail);
    DefaultMediaDirRound(tail);
    DefaultModuleRound(m, tail);
    DefaultSceneRound(m, s, tail);
    SubstitutedFour(("{quality}", "480p15"), ("{media_dir}", "./media"), ("{module_name}", m),
      ("{scene_name}", s), q0);
  }

  /** The `{quality}` round on the default video template puts the label in its place only. */
  lemma DefaultQualityRound(tail: string)
    requires '{' !in tail
    ensures SubstituteStep("{media_dir}" + "/videos/" + "{module_name}" + "/" + "{quality}" + tail,
        "{quality}", "480p15")
      == "{media_dir}" + "/videos/" + "{module_name}" + "/" + "480p15" + tail
  {
    DistinctTokens("{media_dir}", "{quality}", 1);
    DistinctTokens("{module_name}", "{quality}", 1);
    SubstituteStepPieces("{media_dir}", "/videos/", "{module_name}", "/", "{quality}", tail,
      "{quality}", "480p15");
  }

  /** The `{media_dir}` round then replaces the leading placeholder. */
  lemma DefaultMediaDirRound(tail: string)
    requires '{' !in tail
    ensures SubstituteStep("{media_dir}" + "/videos/" + "{module_name}" + "/" + "480p15" + tail,
        "{media_dir}", "./media")
      == "./media" + "/videos/" + "{module_name}" + "/" + "480p15" + tail
  {
    DistinctTokens("{module_name}", "{media_dir}", 2);
    SubstituteStepPieces("{media_dir}", "/videos/", "{module_name}", "/", "480p15", tail,
      "{media_dir}", "./media");
  }

  /** The `{module_name}` round puts the module in. */
  lemma DefaultModuleRound(m: string, tail: string)
    requires '{' !in tail
    ensures SubstituteStep("./media" + "/videos/" + "{module_name}" + "/" + "480p15" + tail,
        "{module_name}", m)
      == "./media" + "/videos/" + m + "/" + "480p15" + tail
  {
    SubstituteStepPieces("./media", "/videos/", "{module_name}", "/", "480p15", tail,
      "{module_name}", m);
  }

  /** No `{scene_name}` is left for the last round when module and scene hold no `{`. */
  lemma DefaultSceneRound(m: string, s: string, tail: string)
    requires '{' !in m && '{' !in tail
    ensures var p := "./media" + "/videos/" + m + "/" + "480p15" + tail;
      SubstituteStep(p, "{scene_name}", s) == p
  {
    SubstituteStepPieces("./media", "/videos/", m, "/", "480p15", tail, "{scene_name}", s);
  }

  /** The video path under the shipped defaults: quality "low" at 15 frames is "480p15", so module
      `m` and scene `s` (free of `{`) render to "./media/videos/<m>/480p15/<s>.mp4". */
  lemma DefaultVideoPath(config: RunningConfig, m: string, s: string)
    requires config.manimConfig == DefaultMainConfig(FallbackDefaults)
    requires config.moduleName == m && config.sceneName == s
    requires '{' !in m && '{' !in s
    ensures VideoOutputPath(config, FallbackDefaults.qualityMap, ".mp4")
      == Ok("./media/videos/" + m + "/480p15/" + s + ".mp4")
  {
    var mc := config.manimConfig;
    var file := s + ".mp4";
    var tail := "/" + file;
    var ctx: Context := [("{quality}", "480p15"), ("{media_dir}", "./media"), ("{module_name}", m),
      ("{scene_name}", s)];
    var p0 := "{media_dir}" + "/videos/" + "{module_name}" + "/" + "{quality}" + tail;
    var p1 := "./media" + "/videos/" + m + "/" + "480p15" + tail;
    assert mc.quality == "low" && mc.frameRate == "15" && mc.mediaDir == "./media";
    assert mc.videoDir == "{media_dir}/videos/{module_name}/{quality}";
    LowQualityLabel();
    VideoOutputPathLabel(config, FallbackDefaults.qualityMap, ".mp4", "480p15");
    assert PathJoin(mc.videoDir, file) == p0 by {
      DefaultVideoDir(file);
    }
    assert Substituted(ctx, p0) == p1 by {
      assert '{' !in tail;
      DefaultVideoSubstitution(m, s, tail);
    }
    assert p1 == "./media/videos/" + m + "/480p15/" + s + ".mp4" by {
      assert p1 == "./media/videos/" + m + "/480p15" + tail;
    }
  }

  /** With its quality labelled, the video path is the substituted joined directory. */
  lemma VideoOutputPathLabel(config: RunningConfig, qualityMap: map<string, string>, extension: string,
                             tag: string)
    requires var mc := config.manimConfig;
      QualityLabel(qualityMap, mc.quality, mc.frameRate) == Ok(tag)
    ensures var mc := config.manimConfig;
      VideoOutputPath(config, qualityMap, extension)
      == Ok(Substituted([("{quality}", tag), ("{media_dir}", mc.mediaDir),
           ("{module_name}", config.moduleName), ("{scene_name}", config.sceneName)],
           PathJoin(mc.videoDir, config.sceneName + extension)))
  {
  }

  /** Quality "low" at 15 frames is labelled "480p15". */
  lemma LowQualityLabel()
    ensures QualityLabel(FallbackDefaults.qualityMap, "low", "15") == Ok("480p15")
  {
    var l := FallbackDefaults.qualityMap["low"];
    assert l == "480p15";
    assert LastTwo(l) == "15";
  }

  /** The default video directory cut into the tokens of its placeholders. */
  lemma DefaultVideoDir(file: string)
    ensures PathJoin("{media_dir}/videos/{module_name}/{quality}", file)
      == "{media_dir}" + "/videos/" + "{module_name}" + "/" + "{quality}" + "/" + file
  {
    var d := "{media_dir}/videos/{module_name}/{quality}";
    assert d == "{media_dir}" + "/videos/" + "{module_name}" + "/" + "{quality}" by {
      VideoDirTokens();
    }
    assert !EndsWith(d, "/") by {
      assert |d| == 42 && d[41] == '}';
      assert d[41..] != "/" by { assert d[41..][0] == '}'; }
    }
  }

  lemma VideoDirTokens()
    ensures "{media_dir}/videos/{module_name}/{quality}"
      == "{media_dir}" + "/videos/" + "{module_name}" + "/" + "{quality}"
  {
  }

  /** A payload that every round leaves as it is comes back unchanged. */
  lemma {:induction false} SubstitutedFixpoint(context: Context, payload: string)
    requires forall i :: 0 <= i < |context| ==> SubstituteStep(payload, context[i].0, context[i].1) == payload
    ensures Substituted(context, payload) == payload
    decreases |context|
  {
    if context != [] {
      SubstitutedFixpoint(context[..|context| - 1], payload);
    }
  }

  /** The image path has no `{quality}` round: an image directory of "{quality}" stays literally in
      the path. */
  lemma ImagePathKeepsQuality(config: RunningConfig, version: string)
    requires config.manimConfig.imageDir == "{quality}"
    requires '{' !in config.sceneName && '{' !in version
    ensures ImageOutputPath(config, version, ".png")
      == "{quality}/" + config.sceneName + "_ManimCE_v" + version + ".png"
  {
    var mc := config.manimConfig;
    var tail := "/" + config.sceneName + "_ManimCE_v" + version + ".png";
    assert '{' !in tail;
    ImageContextKeepsQuality(mc.mediaDir, config.moduleName, config.sceneName, tail);
    assert PathJoin("{quality}", config.sceneName + "_ManimCE_v" + version + ".png") == "{quality}" + tail;
  }

  lemma ImageContextKeepsQuality(mediaDir: string, moduleName: string, sceneName: string, tail: string)
    requires '{' !in tail
    ensures Substituted([("{media_dir}", mediaDir), ("{module_name}", moduleName),
      ("{scene_name}", sceneName)], "{quality}" + tail) == "{quality}" + tail
  {
    var c: Context := [("{media_dir}", mediaDir), ("{module_name}", moduleName), ("{scene_name}", sceneName)];
    var p := "{quality}" + tail;
    assert SubstituteStep(p, c[0].0, c[0].1) == p by {
      DistinctTokens("{quality}", "{media_dir}", 1);
      QualityRoundOther(tail, "{media_dir}", mediaDir);
    }
    assert SubstituteStep(p, c[1].0, c[1].1) == p by {
      DistinctTokens("{quality}", "{module_name}", 1);
      QualityRoundOther(tail, "{module_name}", moduleName);
    }
    assert SubstituteStep(p, c[2].0, c[2].1) == p by {
      DistinctTokens("{quality}", "{scene_name}", 1);
      QualityRoundOther(tail, "{scene_name}", sceneName);
    }
    SubstitutedFixpoint(c, p);
  }

  /** A round for another placeholder leaves a text of `{quality}` and `{`-free rest alone. */
  lemma QualityRoundOther(tail: string, key: string, value: string)
    requires '{' !in tail && key != [] && key[0] == '{' && key != "{quality}"
    requires TokenPiece("{quality}", key)
    ensures SubstituteStep("{quality}" + tail, key, value) == "{quality}" + tail
  {
    SubstituteStepPieces("{quality}", tail, "", "", "", "", key, value);
    assert "{quality}" + tail + "" + "" + "" + "" == "{quality}" + tail;
  }
}
