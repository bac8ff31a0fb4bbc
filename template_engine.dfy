/**
 * The HTML template engine (src/templateEngine.ts). A template is filled from a table of variables:
 * a variable `name` replaces every `{{ name }}`, a variable written with a leading space replaces
 * every occurrence of its trimmed name; matching ignores ASCII case, and the variables are applied
 * one after the other, each on the text the previous ones left. The table is given in
 * `Object.keys` order, with its values already converted to strings; reading the template file
 * and the webview's resource URIs are inputs.
 */
module TemplateEngine {
  import opened Text

  /** Variable names with their values, in the order the variables are applied. */
  type Globals = seq<(string, string)>

  /** The text a variable's occurrences take: the trimmed name after a leading space, otherwise the
      name between `{{ ` and ` }}`. */
  function Pattern(varname: string): (p: string)
    ensures |varname| > 0 && varname[0] == ' ' ==> p == Trim(varname)
    ensures (|varname| == 0 || varname[0] != ' ') ==> p == "{{ " + varname + " }}" && p != []
  {
    if |varname| > 0 && varname[0] == ' ' then Trim(varname) else "{{ " + varname + " }}"
  }

  /** The document once every variable has been applied in order. */
  function Rendered(doc: string, globals: Globals): string
    decreases |globals|
  {
    if globals == [] then doc
    else
      var (name, value) := globals[|globals| - 1];
      ReplaceAll(Rendered(doc, globals[..|globals| - 1]), Pattern(name), value, true)
  }

  /** `trueRender`: the `forEach` over the variables, reassigning the document. */
  method TrueRender(htmlDoc: string, globals: Globals) returns (r: string)
    ensures r == Rendered(htmlDoc, globals)
  {
    r := htmlDoc;
    var i := 0;
    while i < |globals|
      invariant 0 <= i <= |globals|
      invariant r == Rendered(htmlDoc, globals[..i])
    {
      var (varname, value) := globals[i];
      assert globals[..i + 1][..i] == globals[..i];
      if |varname| > 0 && varname[0] == ' ' {
        r := ReplaceAll(r, Trim(varname), value, true);
      } else {
        r := ReplaceAll(r, "{{ " + varname + " }}", value, true);
      }
      i := i + 1;
    }
    assert globals[..i] == globals;
  }

  /** The engine's own variables: the content-security source, the script and the stylesheet of the
      view called `name` (under their leading-space names), and the nonce. */
  function Preamble(cspSource: string, name: string, jsUri: string, cssUri: string, nonce: string)
    : Globals
  {
    [("cspSource", cspSource), (" " + name + ".js", jsUri), (" " + name + ".css", cssUri),
     ("nonce", nonce)]
  }

  /** `render` of the view `name`: its preamble first, then the caller's variables on the
      result. The webview's URIs and the nonce are inputs. */
  method Render(html: string, cspSource: string, name: string, jsUri: string, cssUri: string,
                nonce: string, globals: Globals) returns (r: string)
    ensures r == Rendered(html, Preamble(cspSource, name, jsUri, cssUri, nonce) + globals)
  {
    var preamble := Preamble(cspSource, name, jsUri, cssUri, nonce);
    var withPreamble := TrueRender(html, preamble);
    r := TrueRender(withPreamble, globals);
    RenderedAppend(html, preamble, globals);
  }

  // ---------------------------------------------------------------------------------------------
  // Properties.

  /** Applying two tables in turn is applying the one after the other. */
  lemma {:induction false} RenderedAppend(doc: string, a: Globals, b: Globals)
    ensures Rendered(Rendered(doc, a), b) == Rendered(doc, a + b)
    decreases |b|
  {
    if b == [] {
      assert a + b == a;
    } else {
      RenderedAppend(doc, a, b[..|b| - 1]);
      assert (a + b)[..|a + b| - 1] == a + b[..|b| - 1];
      assert (a + b)[|a + b| - 1] == b[|b| - 1];
    }
  }

  /** A document in which no variable's pattern occurs comes back unchanged (leading-space names
      that trim to nothing match everywhere, so they are excluded). */
  lemma {:induction false} RenderedUnchanged(doc: string, globals: Globals)
    requires forall k :: 0 <= k < |globals| ==>
      Pattern(globals[k].0) != [] && !ContainsMatch(doc, Pattern(globals[k].0), true)
    ensures Rendered(doc, globals) == doc
    decreases |globals|
  {
    if globals != [] {
      var init := globals[..|globals| - 1];
      assert forall k :: 0 <= k < |init| ==> init[k] == globals[k];
      RenderedUnchanged(doc, init);
      var (name, value) := globals[|globals| - 1];
      ReplaceAllNoMatch(doc, Pattern(name), value, true);
    }
  }

  /** A leading-space resource name `" " + name + ext` stands for `name + ext` itself. */
  lemma PatternOfResource(name: string, ext: string)
    requires name != [] && !IsSpace(name[0]) && ext != [] && !IsSpace(ext[|ext| - 1])
    ensures Pattern(" " + name + ext) == name + ext
  {
    var x := name + ext;
    assert " " + name + ext == " " + x;
    assert x[0] == name[0] && x[|x| - 1] == ext[|ext| - 1];
    TrimPadded(" ", x);
  }

  /** The preamble fills `{{ cspSource }}` and `{{ nonce }}`. */
  lemma PreambleBraced(cspSource: string, name: string, jsUri: string, cssUri: string, nonce: string)
    ensures var g := Preamble(cspSource, name, jsUri, cssUri, nonce);
      Pattern(g[0].0) == "{{ cspSource }}" && Pattern(g[3].0) == "{{ nonce }}"
  {
    BracedPattern("cspSource");
    BracedPattern("nonce");
  }

  /** And, for a view whose name does not start with whitespace, the bare `name.js` and `name.css`. */
  lemma PreambleResources(cspSource: string, name: string, jsUri: string, cssUri: string, nonce: string)
    requires name != [] && !IsSpace(name[0])
    ensures var g := Preamble(cspSource, name, jsUri, cssUri, nonce);
      Pattern(g[1].0) == name + ".js" && Pattern(g[2].0) == name + ".css"
  {
    PatternOfResource(name, ".js");
    PatternOfResource(name, ".css");
  }

  /** A name without leading space is looked for between `{{ ` and ` }}`. */
  lemma BracedPattern(varname: string)
    requires varname != [] && varname[0] != ' '
    ensures Pattern(varname) == "{{ " + varname + " }}"
  {
  }

  /**
   * A variable replaces every case variant of its pattern, not only the first: two occurrences
   * `w1`, `w2` around text `mid` in which the pattern's first character does not occur (in either
   * case) both become the value.
   */
  lemma EveryOccurrenceReplaced(name: string, value: string, w1: string, mid: string, w2: string)
    requires Pattern(name) != []
    requires EqualIgnoringCase(w1, Pattern(name)) && EqualIgnoringCase(w2, Pattern(name))
    requires forall c :: c in mid ==> Lower(c) != Lower(Pattern(name)[0])
    ensures Rendered(w1 + mid + w2, [(name, value)]) == value + mid + value
  {
    var k := Pattern(name);
    assert [(name, value)][..0] == [];
    assert Rendered(w1 + mid + w2, [(name, value)]) == ReplaceAll(w1 + (mid + w2), k, value, true) by {
      assert w1 + mid + w2 == w1 + (mid + w2);
    }
    ReplaceAllVariantPrefix(w1, mid + w2, k, value);
    ReplaceAllFreePrefixIgnoringCase(mid, w2, k, value);
    assert ReplaceAll(w2, k, value, true) == value by {
      ReplaceAllVariantPrefix(w2, "", k, value);
      assert w2 + "" == w2;
      assert ReplaceAll("", k, value, true) == "";
    }
  }
}
