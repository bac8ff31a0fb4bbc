/**
 * The media side view (src/player.ts): the colour of its progress bar, which variables of the
 * player template receive the media and which one hides the other kind of media, and the one
 * panel it keeps for reloading. Creating the webview panel, its HTML, the posted reload message
 * and the cache-breaking timestamp are not modelled; a panel is an object that shows one media
 * file.
 */
module Player {
  import opened Wrappers
  import opened Text

  /** `PlayableMediaType`. */
  const Video: int := 0
  const Image: int := 1

  /** `BASE_PROGRESS_BAR_COLOR` (src/globals.ts). */
  const BaseProgressBarColor: string := "var(--vscode-textLink-foreground)"

  /** The colour `parseProgressStyle` settles on for the configured colour, if any. */
  function ProgressColour(colorStr: Option<string>): string {
    if colorStr.None? || colorStr.value == "" then BaseProgressBarColor
    else
      var c := colorStr.value;
      if Contains(c, ";") || Contains(c, "\"") || Contains(c, "'") then BaseProgressBarColor
      else if c[0] != '#' then "var(--vscode-" + ReplaceAll(c, ".", "-", false) + ");"
      else c
  }

  /** `parseProgressStyle`: the bar's inline style attribute. */
  function ParseProgressStyle(colorStr: Option<string>): string {
    "style=\"background-color: " + ProgressColour(colorStr) + "\""
  }

  /**
   * No configured colour can leave the attribute: the colour holds no double quote, so the style
   * has exactly the two that delimit it, and no single quote either.
   */
  lemma ProgressStyleQuoted(colorStr: Option<string>)
    ensures Count(ParseProgressStyle(colorStr), '"') == 2
    ensures '\'' !in ParseProgressStyle(colorStr)
  {
    ColourUnquoted(colorStr);
    StyleQuoted(ProgressColour(colorStr));
  }

  /** The style around a colour without quotes has exactly two double quotes and no single one. */
  lemma StyleQuoted(colour: string)
    requires '"' !in colour && '\'' !in colour
    ensures var r := "style=\"background-color: " + colour + "\"";
      Count(r, '"') == 2 && '\'' !in r
  {
    StyleHead();
    QuotedTwice("style=", "background-color: ", colour);
  }

  /** The fixed text in front of the colour, in pieces. */
  lemma StyleHead()
    ensures "style=\"background-color: " == "style=" + "\"" + "background-color: "
    ensures '"' !in "style=" && '"' !in "background-color: " && '\'' !in "style=\"background-color: "
  {
  }

  lemma QuotedTwice(a: string, b: string, colour: string)
    requires '"' !in a && '"' !in b && '"' !in colour
    ensures Count(a + "\"" + b + colour + "\"", '"') == 2
  {
    var q := "\"";
    assert Count(q, '"') == 1;
    CountAbsent(a, '"');
    CountAbsent(b, '"');
    CountAbsent(colour, '"');
    CountConcat(a, q, '"');
    CountConcat(a + q, b, '"');
    CountConcat(a + q + b, colour, '"');
    CountConcat(a + q + b + colour, q, '"');
  }

  /** The colour itself holds no quote of either kind. */
  lemma ColourUnquoted(colorStr: Option<string>)
    ensures '"' !in ProgressColour(colorStr) && '\'' !in ProgressColour(colorStr)
  {
    if colorStr.Some? && colorStr.value != "" {
      var c := colorStr.value;
      if !(Contains(c, ";") || Contains(c, "\"") || Contains(c, "'")) {
        if '"' in c {
          CharInContains(c, '"');
        }
        if '\'' in c {
          CharInContains(c, '\'');
        }
        if c[0] != '#' {
          ReplaceAllCharKeeps(c, '.', "-", '"');
          ReplaceAllCharKeeps(c, '.', "-", '\'');
        }
      }
    }
  }

  /** What each configured colour becomes: none, an empty one, or one with `;` or a quote gives
      the base colour; a `#` colour stays; any other is a theme colour with dots as dashes. */
  lemma ProgressColourCases(c: string)
    ensures ProgressColour(None) == BaseProgressBarColor && ProgressColour(Some("")) == BaseProgressBarColor
    ensures (';' in c || '"' in c || '\'' in c) ==> ProgressColour(Some(c)) == BaseProgressBarColor
    ensures c != "" && ';' !in c && '"' !in c && '\'' !in c ==>
              ProgressColour(Some(c)) == (if c[0] == '#' then c else "var(--vscode-" + ReplaceAll(c, ".", "-", false) + ");")
  {
    if ';' in c {
      CharInContains(c, ';');
    } else if '"' in c {
      CharInContains(c, '"');
    } else if '\'' in c {
      CharInContains(c, '\'');
    } else if c != "" {
      if Contains(c, ";") {
        ContainsCharIn(c, ';');
      }
      if Contains(c, "\"") {
        ContainsCharIn(c, '"');
      }
      if Contains(c, "'") {
        ContainsCharIn(c, '\'');
      }
    }
  }

  /** The template variable that receives the media's address (`srcReplacementKey`). */
  function SourceKey(mediaType: int): string {
    if mediaType == Video then "videoDir" else "imageDir"
  }

  /** The template variable set to "hidden" (`hideKey`): the other kind of media's. */
  function HideKey(mediaType: int): string {
    if mediaType == Video then "imageHideState" else "videoHideState"
  }

  /** A video fills the video element and hides the image, anything else the other way round. */
  lemma MediaKeysPaired(mediaType: int)
    ensures SourceKey(mediaType) == "videoDir" <==> mediaType == Video
    ensures HideKey(mediaType) == "imageHideState" <==> mediaType == Video
    ensures SourceKey(mediaType) != HideKey(mediaType)
  {
    var s, h := SourceKey(mediaType), HideKey(mediaType);
    assert s[0] != h[0] || |s| != |h| by {
      assert |s| == 8 && |h| == 14;
    }
    assert "videoDir" != "imageDir" by {
      assert "videoDir"[0] != "imageDir"[0];
    }
    assert "imageHideState" != "videoHideState" by {
      assert "imageHideState"[0] != "videoHideState"[0];
    }
  }

  /** A webview panel: the media it shows and of which kind. */
  class Panel {
    var media: string
    var mediaType: int

    constructor(media: string, mediaType: int)
      ensures this.media == media && this.mediaType == mediaType
    {
      this.media := media;
      this.mediaType := mediaType;
    }
  }

  /** `MediaPlayer`: the panel to reload, when one is open. */
  class MediaPlayer {
    var recentMediaPanel: Panel?

    constructor()
      ensures recentMediaPanel == null
    {
      recentMediaPanel := null;
    }

    /**
     * `playMedia`: with a panel open, the media is sent to it in a reload message and the panel
     * stays the recent one; otherwise a new panel showing the media is opened and becomes the
     * recent one. `reloaded` says which.
     */
    method PlayMedia(media: string, mediaType: int) returns (reloaded: bool, panel: Panel)
      modifies this, recentMediaPanel
      ensures reloaded <==> old(recentMediaPanel) != null
      ensures reloaded ==> panel == old(recentMediaPanel)
      ensures !reloaded ==> fresh(panel)
      ensures recentMediaPanel == panel && panel.media == media && panel.mediaType == mediaType
    {
      if recentMediaPanel != null {
        panel := recentMediaPanel;
        panel.media, panel.mediaType := media, mediaType;
        return true, panel;
      }
      panel := new Panel(media, mediaType);
      recentMediaPanel := panel;
      reloaded := false;
    }

    /** The panel's dispose callback: only the recent panel's disposal forgets it. */
    method Disposed(panel: Panel)
      modifies this
      ensures recentMediaPanel == (if old(recentMediaPanel) == panel then null else old(recentMediaPanel))
    {
      if panel == recentMediaPanel {
        recentMediaPanel := null;
      }
    }
  }
}
