/**
 * The configuration-file reader the sideview uses (src/configParser.ts): every `key = value` match
 * of `/(?<key>\w+)\s*=\s*(?<value>.+)/g` anywhere in the text, stored under the one section "CLI".
 * Reading the file is not modelled; its text is the input.
 */
module ConfigParser {
  import opened Wrappers
  import opened Text

  /** `Config`: section name to option name to the raw option text. */
  type Config = map<string, map<string, string>>

  /** The section every pair is stored under. */
  const Section: string := "CLI"

  /** One match of the pattern: the two named groups and the index just after the match. */
  datatype Match = Match(key: string, value: string, end: nat)

  predicate NotLineTerminator(c: char) {
    !IsLineTerminator(c)
  }

  /** The largest index in `[p, j)` whose character `.` accepts, searching down from `j`. */
  function LastDotChar(s: string, p: nat, j: nat): (r: Option<nat>)
    requires p <= j <= |s|
    ensures r.Some? ==> p <= r.value < j && !IsLineTerminator(s[r.value])
    ensures r.Some? ==> forall q :: r.value < q < j ==> IsLineTerminator(s[q])
    ensures r.None? ==> forall q :: p <= q < j ==> IsLineTerminator(s[q])
    decreases j - p
  {
    if j == p then None
    else if !IsLineTerminator(s[j - 1]) then Some(j - 1)
    else LastDotChar(s, p, j - 1)
  }

  /**
   * Where `\s*(.+)` starting at `p` puts the start of `.+`: after the longest whitespace run when a
   * character follows it (whitespace ends before any line terminator is reached, since line
   * terminators are whitespace); when the run reaches the end of the text, `\s*` gives back
   * characters until `.` can take one.
   */
  function ValueStart(s: string, p: nat): (r: Option<nat>)
    requires p <= |s|
    ensures r.Some? ==> p <= r.value < |s| && !IsLineTerminator(s[r.value])
    ensures r.Some? ==> forall q :: p <= q < r.value ==> IsSpace(s[q])
    ensures r.None? ==> forall q :: p <= q < |s| ==> IsSpace(s[q]) && IsLineTerminator(s[q])
  {
    var f := RunEnd(s, p, IsSpace);
    if f < |s| then
      assert !IsLineTerminator(s[f]);
      Some(f)
    else
      LastDotChar(s, p, f)
  }

  /**
   * The attempt of the pattern at index `i`: the word run starting there, whitespace, `=`,
   * whitespace, and the longest run of characters other than line terminators. Shortening the word
   * run or the first whitespace run never helps, because neither a word character nor whitespace
   * is `=`.
   */
  function MatchAt(s: string, i: nat): (r: Option<Match>)
    requires i <= |s|
    ensures r.Some? ==> i < r.value.end <= |s|
    ensures r.Some? ==> var m := r.value;
      i + |m.key| + 1 + |m.value| <= m.end
      && m.value != [] && m.value == s[m.end - |m.value|..m.end]
      && (forall c :: c in m.value ==> !IsLineTerminator(c))
      && (m.end == |s| || IsLineTerminator(s[m.end]))
  {
    var w := RunEnd(s, i, IsWordChar);
    if w == i then None
    else
      var e := RunEnd(s, w, IsSpace);
      if e == |s| || s[e] != '=' then None
      else
        match ValueStart(s, e + 1)
        case None => None
        case Some(q) =>
          var t := RunEnd(s, q, NotLineTerminator);
          NoLineTerminatorIn(s, q, t);
          Some(Match(s[i..w], s[q..t], t))
  }

  /**
   * What a match at `i` consists of: a key of word characters that starts at `i`, an `=` after it,
   * and a non-empty value without line terminators that ends the match, right before the end of
   * the text or a line terminator. Nothing matches where no word character starts.
   */
  lemma MatchAtShape(s: string, i: nat)
    requires i <= |s|
    ensures var r := MatchAt(s, i);
      r.Some? ==> var m := r.value;
      m.key != [] && i + |m.key| + 1 + |m.value| <= m.end
      && m.key == s[i..i + |m.key|] && (forall c :: c in m.key ==> IsWordChar(c))
      && m.value != [] && m.value == s[m.end - |m.value|..m.end]
      && (forall c :: c in m.value ==> !IsLineTerminator(c))
      && (m.end == |s| || IsLineTerminator(s[m.end]))
      && '=' in s[i..m.end] && '=' in s
    ensures i == |s| || !IsWordChar(s[i]) ==> MatchAt(s, i).None?
  {
    MatchAtKey(s, i);
    MatchAtEquals(s, i);
  }

  lemma MatchAtKey(s: string, i: nat)
    requires i <= |s|
    ensures var r := MatchAt(s, i);
      r.Some? ==> var m := r.value;
      m.key != [] && m.key == s[i..i + |m.key|] && (forall c :: c in m.key ==> IsWordChar(c))
    ensures i == |s| || !IsWordChar(s[i]) ==> MatchAt(s, i).None?
  {
    var w := RunEnd(s, i, IsWordChar);
    assert forall c :: c in s[i..w] ==> IsWordChar(c);
  }

  /** A stretch of characters other than line terminators, as a text of its own. */
  lemma NoLineTerminatorIn(s: string, q: nat, t: nat)
    requires q <= t <= |s| && forall k :: q <= k < t ==> !IsLineTerminator(s[k])
    ensures forall c :: c in s[q..t] ==> !IsLineTerminator(c)
  {
    forall c | c in s[q..t] ensures !IsLineTerminator(c) {
      var k :| 0 <= k < t - q && s[q..t][k] == c;
      assert s[q + k] == c;
    }
  }

  lemma MatchAtEquals(s: string, i: nat)
    requires i <= |s|
    ensures var r := MatchAt(s, i);
      r.Some? ==> '=' in s[i..r.value.end] && '=' in s
  {
    var w := RunEnd(s, i, IsWordChar);
    var e := RunEnd(s, w, IsSpace);
    if w > i && e < |s| && s[e] == '=' && ValueStart(s, e + 1).Some? {
      var q := ValueStart(s, e + 1).value;
      var t := RunEnd(s, q, NotLineTerminator);
      assert s[i..t][e - i] == '=';
    }
  }

  /** `contents.matchAll(RE_KEYVALPAIR)` from index `i`: the matches, left to right and without
      overlap, each search resuming where the previous match ended. */
  function MatchesFrom(s: string, i: nat): (ms: seq<(string, string)>)
    requires i <= |s|
    decreases |s| - i
  {
    if i == |s| then []
    else
      match MatchAt(s, i)
      case Some(m) => [(m.key, m.value)] + MatchesFrom(s, m.end)
      case None => MatchesFrom(s, i + 1)
  }

  function Matches(s: string): seq<(string, string)> {
    MatchesFrom(s, 0)
  }

  /** The options after storing the pairs in order, a later value overwriting an earlier one. */
  function Collected(pairs: seq<(string, string)>): map<string, string>
    decreases |pairs|
  {
    if pairs == [] then map[]
    else
      var last := pairs[|pairs| - 1];
      Collected(pairs[..|pairs| - 1])[last.0 := last.1]
  }

  /** One more pair overwrites its key. */
  lemma CollectedNext(pairs: seq<(string, string)>, p: (string, string))
    ensures Collected(pairs + [p]) == Collected(pairs)[p.0 := p.1]
  {
    assert (pairs + [p])[..|pairs|] == pairs;
  }

  /** One more match stores its value in the section. */
  lemma ParsedNext(ms: seq<(string, string)>, i: nat)
    requires i < |ms|
    ensures ParsedPrefix(ms[..i + 1]) == map[Section := Collected(ms[..i])[ms[i].0 := ms[i].1]]
  {
    assert ms[..i + 1] == ms[..i] + [ms[i]];
    CollectedNext(ms[..i], ms[i]);
  }

  /** The result of the `forEach` after the first `n` matches. */
  function ParsedPrefix(pairs: seq<(string, string)>): Config {
    if pairs == [] then map[] else map[Section := Collected(pairs)]
  }

  /** `ConfigParser.parse` after the read: each match is stored under "CLI", the section being
      created at the first match. */
  method Parse(contents: string) returns (result: Config)
    ensures result.Keys <= {Section}
    ensures Section in result <==> Matches(contents) != []
    ensures Section in result ==> result[Section] == Collected(Matches(contents))
  {
    var ms := Matches(contents);
    result := map[];
    var i := 0;
    while i < |ms|
      invariant 0 <= i <= |ms|
      invariant result == ParsedPrefix(ms[..i])
    {
      var (key, value) := ms[i];
      ParsedNext(ms, i);
      if Section !in result {
        result := result[Section := map[]];
      }
      assert result == map[Section := Collected(ms[..i])];
      result := result[Section := result[Section][key := value]];
      i := i + 1;
    }
    assert ms[..i] == ms;
  }

  // ---------------------------------------------------------------------------------------------
  // Properties.

  /** An option is present exactly when some match names it, and it holds the value of the last
      such match. */
  lemma {:induction false} CollectedLastWins(pairs: seq<(string, string)>, k: string)
    ensures k in Collected(pairs) <==> exists i :: 0 <= i < |pairs| && pairs[i].0 == k
    ensures forall i :: (0 <= i < |pairs| && pairs[i].0 == k
      && forall j :: i < j < |pairs| ==> pairs[j].0 != k) ==> Collected(pairs)[k] == pairs[i].1
    decreases |pairs|
  {
    if pairs != [] {
      var init := pairs[..|pairs| - 1];
      CollectedLastWins(init, k);
      assert forall i :: 0 <= i < |init| ==> init[i] == pairs[i];
      if k in Collected(pairs) && k != pairs[|pairs| - 1].0 {
        var i :| 0 <= i < |init| && init[i].0 == k;
        assert pairs[i].0 == k;
      }
    }
  }

  /** A text without `=` has no match. */
  lemma {:induction false} NoEqualsNoMatches(s: string, i: nat)
    requires i <= |s| && '=' !in s
    ensures MatchesFrom(s, i) == []
    decreases |s| - i
  {
    if i < |s| {
      MatchAtShape(s, i);
      NoEqualsNoMatches(s, i + 1);
    }
  }

  /** Such a text gives an empty configuration, without a "CLI" section. */
  lemma NoEqualsEmptyConfig(s: string)
    requires '=' !in s
    ensures Matches(s) == [] && ParsedPrefix(Matches(s)) == map[]
  {
    NoEqualsNoMatches(s, 0);
  }

  /** Every match names a word-character key and a non-empty value without line terminators. */
  lemma {:induction false} MatchesWellFormed(s: string, i: nat)
    requires i <= |s|
    ensures forall p :: p in MatchesFrom(s, i) ==>
      p.0 != [] && (forall c :: c in p.0 ==> IsWordChar(c))
      && p.1 != [] && (forall c :: c in p.1 ==> !IsLineTerminator(c))
    decreases |s| - i
  {
    if i < |s| {
      MatchAtShape(s, i);
      match MatchAt(s, i)
      case Some(m) => MatchesWellFormed(s, m.end);
      case None => MatchesWellFormed(s, i + 1);
    }
  }

  /**
   * The attempt at `i` when the text there is a word run up to `w`, whitespace up to `e`, `=` at
   * `e`, whitespace up to `f`, and a run of non-terminator characters from `f` to `t` that the end
   * of the text or a line terminator stops: the key is `s[i..w]` and the value `s[f..t]`.
   */
  lemma MatchAtRuns(s: string, i: nat, w: nat, e: nat, f: nat, t: nat)
    requires i < w <= e < f < t <= |s|
    requires forall k :: i <= k < w ==> IsWordChar(s[k])
    requires forall k :: w <= k < e ==> IsSpace(s[k])
    requires s[e] == '='
    requires forall k :: e < k < f ==> IsSpace(s[k])
    requires !IsSpace(s[f])
    requires forall k :: f <= k < t ==> !IsLineTerminator(s[k])
    requires t == |s| || IsLineTerminator(s[t])
    ensures MatchAt(s, i) == Some(Match(s[i..w], s[f..t], t))
  {
    RunEndAt(s, i, w, IsWordChar);
    RunEndAt(s, w, e, IsSpace);
    ValueStartAt(s, e + 1, f);
    RunEndAt(s, f, t, NotLineTerminator);
    MatchAtFrom(s, i, w, e, f, t);
  }

  /** `\s*(.+)` from `p` starts the value at the first character that is no whitespace. */
  lemma ValueStartAt(s: string, p: nat, f: nat)
    requires p <= f < |s| && !IsSpace(s[f])
    requires forall k :: p <= k < f ==> IsSpace(s[k])
    ensures ValueStart(s, p) == Some(f)
  {
    RunEndAt(s, p, f, IsSpace);
  }

  /** The attempt at `i` once its runs are known. */
  lemma MatchAtFrom(s: string, i: nat, w: nat, e: nat, q: nat, t: nat)
    requires i < w && w <= e < |s| && q <= t <= |s|
    requires RunEnd(s, i, IsWordChar) == w && RunEnd(s, w, IsSpace) == e && s[e] == '='
    requires ValueStart(s, e + 1) == Some(q) && RunEnd(s, q, NotLineTerminator) == t
    ensures MatchAt(s, i) == Some(Match(s[i..w], s[q..t], t))
  {
  }

  /**
   * A line `key <ws> = <ws> value` followed by the end of the text or a line terminator matches
   * with exactly that key and value: the value keeps trailing spaces and stops before `\r`/`\n`.
   */
  lemma LineMatches(key: string, sp1: string, sp2: string, value: string, rest: string)
    requires key != [] && forall c :: c in key ==> IsWordChar(c)
    requires forall c :: c in sp1 ==> IsSpace(c)
    requires forall c :: c in sp2 ==> IsSpace(c)
    requires value != [] && !IsSpace(value[0]) && forall c :: c in value ==> !IsLineTerminator(c)
    requires rest == [] || IsLineTerminator(rest[0])
    ensures var s := key + sp1 + "=" + sp2 + value + rest;
      MatchAt(s, 0) == Some(Match(key, value, |s| - |rest|))
  {
    var s := key + sp1 + "=" + sp2 + value + rest;
    var w := |key|;
    var e := w + |sp1|;
    var f := e + 1 + |sp2|;
    var t := f + |value|;
    assert s[0..w] == key && s[f..t] == value && t == |s| - |rest| by {
      LinePieces(s, key, sp1, sp2, value, rest);
    }
    LineIndices(s, key, sp1, sp2, value, rest);
    MatchOfPieces(s, key, value, w, e, f, t);
  }

  /** `MatchAtRuns` at the start of a text, with the key and the value named. */
  lemma MatchOfPieces(s: string, key: string, value: string, w: nat, e: nat, f: nat, t: nat)
    requires 0 < w <= e < f < t <= |s|
    requires forall k :: 0 <= k < w ==> IsWordChar(s[k])
    requires forall k :: w <= k < e ==> IsSpace(s[k])
    requires s[e] == '='
    requires forall k :: e < k < f ==> IsSpace(s[k])
    requires !IsSpace(s[f])
    requires forall k :: f <= k < t ==> !IsLineTerminator(s[k])
    requires t == |s| || IsLineTerminator(s[t])
    requires s[0..w] == key && s[f..t] == value
    ensures MatchAt(s, 0) == Some(Match(key, value, t))
  {
    MatchAtRuns(s, 0, w, e, f, t);
  }

  /** Where the pieces of such a line sit in it. */
  lemma LinePieces(s: string, key: string, sp1: string, sp2: string, value: string, rest: string)
    requires s == key + sp1 + "=" + sp2 + value + rest
    ensures var w := |key|; var e := w + |sp1|; var f := e + 1 + |sp2|; var t := f + |value|;
      s[..w] == key && s[w..e] == sp1 && s[e] == '=' && s[e + 1..f] == sp2
      && s[f..t] == value && s[t..] == rest
  {
  }

  /** The character conditions of `MatchAtRuns` for such a line. */
  lemma LineIndices(s: string, key: string, sp1: string, sp2: string, value: string, rest: string)
    requires s == key + sp1 + "=" + sp2 + value + rest
    requires key != [] && forall c :: c in key ==> IsWordChar(c)
    requires forall c :: c in sp1 ==> IsSpace(c)
    requires forall c :: c in sp2 ==> IsSpace(c)
    requires value != [] && !IsSpace(value[0]) && forall c :: c in value ==> !IsLineTerminator(c)
    requires rest == [] || IsLineTerminator(rest[0])
    ensures var w := |key|; var e := w + |sp1|; var f := e + 1 + |sp2|; var t := f + |value|;
      (forall k :: 0 <= k < w ==> IsWordChar(s[k]))
      && (forall k :: w <= k < e ==> IsSpace(s[k]))
      && s[e] == '='
      && (forall k :: e < k < f ==> IsSpace(s[k]))
      && !IsSpace(s[f])
      && (forall k :: f <= k < t ==> !IsLineTerminator(s[k]))
      && (t == |s| || IsLineTerminator(s[t]))
  {
    var w := |key|;
    var e := w + |sp1|;
    var f := e + 1 + |sp2|;
    var t := f + |value|;
    LinePieces(s, key, sp1, sp2, value, rest);
    forall k | 0 <= k < w ensures IsWordChar(s[k]) {
      assert s[k] == key[k];
    }
    forall k | w <= k < e ensures IsSpace(s[k]) {
      assert s[k] == sp1[k - w];
    }
    forall k | e < k < f ensures IsSpace(s[k]) {
      assert s[k] == sp2[k - e - 1];
    }
    forall k | f <= k < t ensures !IsLineTerminator(s[k]) {
      assert s[k] == value[k - f];
    }
    assert s[f] == value[0];
    if t < |s| {
      assert s[t] == rest[0];
    }
  }

  /** A run of `p` characters that stops at `j` ends at `j`. */
  lemma {:induction false} RunEndAt(s: string, i: nat, j: nat, p: char -> bool)
    requires i <= j <= |s|
    requires forall k :: i <= k < j ==> p(s[k])
    requires j == |s| || !p(s[j])
    ensures RunEnd(s, i, p) == j
    decreases j - i
  {
    if i < j {
      RunEndAt(s, i + 1, j, p);
    }
  }

  /** The right-hand side may hold further `=` signs: "a = b = c" is the one option `a` with the
      value "b = c". */
  lemma ValueMayHoldEquals()
    ensures Matches("a = b = c") == [("a", "b = c")]
  {
    LineMatches("a", " ", " ", "b = c", "");
    assert "a" + " " + "=" + " " + "b = c" + "" == "a = b = c";
    assert MatchesFrom("a = b = c", 9) == [];
  }

  /** Whitespace before `=` may cross a line break: "a\n= b" is the option `a` with value "b". */
  lemma KeyAcrossLineBreak()
    ensures Matches("a\n= b") == [("a", "b")]
  {
    LineMatches("a", "\n", " ", "b", "");
    assert "a" + "\n" + "=" + " " + "b" + "" == "a\n= b";
    assert MatchesFrom("a\n= b", 5) == [];
  }
}
