/**
 * The older, line-based configuration reader (src/configparser.ts). Each line of the text is
 * trimmed and tried against two anchored regular expressions with the `g` flag,
 * `/^(?<key>\w+)\s*=\s*(?<value>.+)$/g` and `/^\[(?<title>\w+)\]$/g`. Being module constants,
 * both keep their `lastIndex` from one `exec` to the next and from one call of `parse` to the
 * next; the `Parser` class holds those two indices. A `map` pass over the lines records the pair
 * matches and moves the section cursor, and a `forEach` pass afterwards stores every pair under
 * the cursor's final value. Reading the file is not modelled; its text is the input.
 */
module LegacyConfigParser {
  import opened Wrappers
  import opened Text
  import ConfigParser

  type Config = ConfigParser.Config

  /** A key and its raw value, the two named groups of a pair match. */
  type Pair = (string, string)

  /** The section cursor before any header. */
  const Outcast: string := "OUTCAST"

  // ---------------------------------------------------------------------------------------------
  // The two patterns on a whole (trimmed) line.

  /**
   * `^(\w+)\s*=\s*(.+)$` on the whole of `t`: the unanchored pattern's attempt at the start of
   * the text, accepted only when it reaches the end. Since no choice of the word run or of the
   * whitespace can carry `.+` past a line terminator, nothing else can make `$` hold.
   */
  function PairMatch(t: string): Option<Pair> {
    match ConfigParser.MatchAt(t, 0)
    case Some(m) => if m.end == |t| then Some((m.key, m.value)) else None
    case None => None
  }

  /** `^\[(\w+)\]$` on the whole of `t`: the title between the brackets. */
  function SectionMatch(t: string): Option<string> {
    if |t| >= 2 && t[0] == '[' then
      var w := RunEnd(t, 1, IsWordChar);
      if w > 1 && w + 1 == |t| && t[w] == ']' then Some(t[1..w]) else None
    else None
  }

  /**
   * `exec` of an anchored pattern with the `g` flag from `lastIndex`: the attempt `m` on the whole
   * text succeeds only from index 0 (`^` without the `m` flag holds nowhere else) and then moves
   * `lastIndex` to the end of the text; a failure resets it to 0.
   */
  function AnchoredExec<X>(lastIndex: nat, t: string, m: Option<X>): (Option<X>, nat) {
    if lastIndex == 0 && m.Some? then (m, |t|) else (None, 0)
  }

  // ---------------------------------------------------------------------------------------------
  // The `map` pass, line by line.

  /** The pass so far: the per-line results, the cursor, and the two `lastIndex` values. */
  datatype ScanState = ScanState(pairs: seq<Option<Pair>>, cursor: string, pairIndex: nat,
                                 sectionIndex: nat)

  /** The `map` callback on one line: the pair attempt, the "skip" attempt, and, when the line is
      no pair, the header attempt that may move the cursor. */
  function Step(st: ScanState, line: string): ScanState {
    var t := Trim(line);
    StepOn(st, t, PairMatch(t), PairMatch("skip"), SectionMatch(t))
  }

  /** The callback once the patterns' matches on the trimmed line `t`, and the pair pattern's on
      "skip", are known. */
  function StepOn(st: ScanState, t: string, pair: Option<Pair>, skip: Option<Pair>,
                  section: Option<string>): ScanState
  {
    var (res, afterPair) := AnchoredExec(st.pairIndex, t, pair);
    var (_, afterSkip) := AnchoredExec(afterPair, "skip", skip);
    if res.Some? then ScanState(st.pairs + [res], st.cursor, afterSkip, st.sectionIndex)
    else
      var (sec, afterSection) := AnchoredExec(st.sectionIndex, t, section);
      ScanState(st.pairs + [None], if sec.Some? then sec.value else st.cursor, afterSkip, afterSection)
  }

  /** The `map` pass over `lines` from `st`. */
  function Scan(st: ScanState, lines: seq<string>): ScanState {
    ScanWith(Step, st, lines)
  }

  /** A left-to-right pass with any per-line step. */
  function ScanWith(step: (ScanState, string) -> ScanState, st: ScanState, lines: seq<string>): ScanState
    decreases |lines|
  {
    if lines == [] then st else step(ScanWith(step, st, lines[..|lines| - 1]), lines[|lines| - 1])
  }

  /** The pairs that matched, in line order. */
  function Found(pairs: seq<Option<Pair>>): seq<Pair>
    decreases |pairs|
  {
    if pairs == [] then []
    else
      var init := Found(pairs[..|pairs| - 1]);
      match pairs[|pairs| - 1]
      case Some(p) => init + [p]
      case None => init
  }

  /** The `forEach` pass: every pair under `cursor`, the section created at the first pair. */
  function Stored(pairs: seq<Option<Pair>>, cursor: string): Config {
    if Found(pairs) == [] then map[] else map[cursor := ConfigParser.Collected(Found(pairs))]
  }

  /** The two module-level regular expressions, of which only the `lastIndex` changes. */
  class Parser {
    var pairIndex: nat
    var sectionIndex: nat

    /** At module load both indices are 0. */
    constructor()
      ensures pairIndex == 0 && sectionIndex == 0
    {
      pairIndex := 0;
      sectionIndex := 0;
    }

    /** `ConfigParser.parse` after the read: the `map` pass over the lines split at "\n", then the
        `forEach` pass under the final cursor. */
    method Parse(contents: string) returns (result: Config)
      modifies this
      ensures var st := Scan(ScanState([], Outcast, old(pairIndex), old(sectionIndex)), Split(contents, "\n"));
        result == Stored(st.pairs, st.cursor) && pairIndex == st.pairIndex
        && sectionIndex == st.sectionIndex
      ensures pairIndex == 0
    {
      var lines := Split(contents, "\n");
      ghost var init := ScanState([], Outcast, pairIndex, sectionIndex);
      var curSection := Outcast;
      var res: seq<Option<Pair>> := [];
      var i := 0;
      while i < |lines|
        invariant 0 <= i <= |lines|
        invariant Scan(init, lines[..i]) == ScanState(res, curSection, pairIndex, sectionIndex)
        invariant i > 0 ==> pairIndex == 0
      {
        ScanPrefixNext(init, lines, i);
        var r;
        r, curSection := MapLine(res, lines[i], curSection);
        res := res + [r];
        i := i + 1;
      }
      assert lines[..i] == lines;
      result := Store(res, curSection);
    }

    /** The `map` callback on one line, which reads and reassigns the captured cursor. */
    method MapLine(ghost pairs: seq<Option<Pair>>, line: string, cursor: string)
      returns (res: Option<Pair>, newCursor: string)
      modifies this
      ensures Step(ScanState(pairs, cursor, old(pairIndex), old(sectionIndex)), line)
        == ScanState(pairs + [res], newCursor, pairIndex, sectionIndex)
      ensures pairIndex == 0
    {
      var t := Trim(line);
      var exec := AnchoredExec(pairIndex, t, PairMatch(t));
      res := exec.0;
      pairIndex := exec.1;
      pairIndex := AnchoredExec(pairIndex, "skip", PairMatch("skip")).1;
      SkipResets(exec.1);
      newCursor := cursor;
      if res.None? {
        var sec := AnchoredExec(sectionIndex, t, SectionMatch(t));
        sectionIndex := sec.1;
        if sec.0.Some? {
          newCursor := sec.0.value;
        }
      }
    }
  }

  /** The `forEach` pass: each pair stored under `cursor`, its section created on first use. */
  method Store(res: seq<Option<Pair>>, cursor: string) returns (result: Config)
    ensures result == Stored(res, cursor)
  {
    result := map[];
    var j := 0;
    while j < |res|
      invariant 0 <= j <= |res|
      invariant result == Stored(res[..j], cursor)
    {
      FoundNext(res, j);
      if res[j].Some? {
        var (key, value) := res[j].value;
        ghost var f := Found(res[..j]);
        ConfigParser.CollectedNext(f, (key, value));
        assert Stored(res[..j + 1], cursor) == map[cursor := ConfigParser.Collected(f)[key := value]];
        if cursor !in result {
          result := result[cursor := map[]];
        }
        assert result == map[cursor := ConfigParser.Collected(f)];
        result := result[cursor := result[cursor][key := value]];
      }
      j := j + 1;
    }
    assert res[..j] == res;
  }

  /** One more entry adds its pair, if it is one, after those found before it. */
  lemma FoundNext(res: seq<Option<Pair>>, j: nat)
    requires j < |res|
    ensures res[j].None? ==> Found(res[..j + 1]) == Found(res[..j])
    ensures res[j].Some? ==> Found(res[..j + 1]) == Found(res[..j]) + [res[j].value]
  {
    assert res[..j + 1][..j] == res[..j];
  }

  // ---------------------------------------------------------------------------------------------
  // Properties.

  /** The "skip" attempt never matches, so it always leaves the pair pattern at index 0. */
  lemma SkipResets(lastIndex: nat)
    ensures AnchoredExec(lastIndex, "skip", PairMatch("skip")).1 == 0
  {
    ConfigParser.MatchAtShape("skip", 0);
    assert '=' !in "skip";
  }

  /**
   * A line is a pair exactly when its trimmed text is `key <ws> = <ws> value`: a word-character
   * key, an `=`, and a value without line terminators reaching the end, which the trim has
   * stripped of surrounding whitespace.
   */
  lemma PairMatchShape(t: string)
    ensures PairMatch(t).Some? ==> var (key, value) := PairMatch(t).value;
      key != [] && (forall c :: c in key ==> IsWordChar(c)) && key == t[..|key|]
      && value != [] && (forall c :: c in value ==> !IsLineTerminator(c))
      && value == t[|t| - |value|..] && '=' in t
  {
    ConfigParser.MatchAtShape(t, 0);
  }

  /** And every such line is one, with exactly that key and value. */
  lemma PairLine(key: string, sp1: string, sp2: string, value: string)
    requires key != [] && forall c :: c in key ==> IsWordChar(c)
    requires forall c :: c in sp1 ==> IsSpace(c)
    requires forall c :: c in sp2 ==> IsSpace(c)
    requires value != [] && !IsSpace(value[0]) && forall c :: c in value ==> !IsLineTerminator(c)
    ensures PairMatch(key + sp1 + "=" + sp2 + value) == Some((key, value))
  {
    ConfigParser.LineMatches(key, sp1, sp2, value, []);
    assert key + sp1 + "=" + sp2 + value + [] == key + sp1 + "=" + sp2 + value;
  }

  /** A header is exactly `[title]` for a non-empty word-character title. */
  lemma SectionMatchIff(t: string, title: string)
    ensures SectionMatch(t) == Some(title)
      <==> title != [] && (forall c :: c in title ==> IsWordChar(c)) && t == "[" + title + "]"
  {
    if SectionMatch(t) == Some(title) {
      var w := RunEnd(t, 1, IsWordChar);
      assert title == t[1..w];
      forall c | c in title ensures IsWordChar(c) {
        var k :| 0 <= k < |title| && title[k] == c;
        assert t[1 + k] == c;
      }
      assert t == [t[0]] + t[1..w] + [t[w]];
    }
    if title != [] && (forall c :: c in title ==> IsWordChar(c)) && t == "[" + title + "]" {
      assert forall k :: 1 <= k < |t| - 1 ==> t[k] == title[k - 1];
      assert forall k :: 1 <= k < |t| - 1 ==> IsWordChar(t[k]) by {
        forall k | 1 <= k < |t| - 1 ensures IsWordChar(t[k]) {
          assert t[k] == title[k - 1] && title[k - 1] in title;
        }
      }
      ConfigParser.RunEndAt(t, 1, |t| - 1, IsWordChar);
      assert t[1..|t| - 1] == title;
    }
  }

  /** After any line the pair pattern is back at index 0, whatever it started from. */
  lemma StepResetsPair(st: ScanState, line: string)
    ensures Step(st, line).pairIndex == 0
  {
    var t := Trim(line);
    SkipResets(AnchoredExec(st.pairIndex, t, PairMatch(t)).1);
  }

  /**
   * From pair index 0 the pass records, line for line, whether the trimmed line is a pair and which
   * one; only non-pair lines move the cursor, and only to their title.
   */
  lemma {:induction false} ScanRecords(st: ScanState, lines: seq<string>)
    requires st.pairIndex == 0
    ensures Scan(st, lines).pairs == st.pairs + Attempts(lines)
    ensures lines != [] ==> Scan(st, lines).pairIndex == 0
    decreases |lines|
  {
    if lines != [] {
      var init := lines[..|lines| - 1];
      var last := lines[|lines| - 1];
      var before := Scan(st, init);
      ScanRecords(st, init);
      assert Scan(st, lines).pairs == before.pairs + [PairMatch(Trim(last))] by {
        StepRecords(before, last);
      }
      assert Scan(st, lines).pairIndex == 0 by {
        StepRecords(before, last);
      }
      assert st.pairs + Attempts(init) + [PairMatch(Trim(last))] == st.pairs + Attempts(lines);
    }
  }

  /** The pair attempt of every line, in order. */
  function Attempts(lines: seq<string>): (r: seq<Option<Pair>>)
    ensures |r| == |lines|
    decreases |lines|
  {
    if lines == [] then [] else Attempts(lines[..|lines| - 1]) + [PairMatch(Trim(lines[|lines| - 1]))]
  }

  /** Line `k`'s entry is the attempt on that line alone. */
  lemma {:induction false} AttemptsAt(lines: seq<string>, k: nat)
    requires k < |lines|
    ensures Attempts(lines)[k] == PairMatch(Trim(lines[k]))
    decreases |lines|
  {
    if k < |lines| - 1 {
      var init := lines[..|lines| - 1];
      AttemptsAt(init, k);
      assert init[k] == lines[k];
    }
  }

  /** One line records its pair attempt and leaves the pair pattern at 0. */
  lemma StepRecords(st: ScanState, line: string)
    requires st.pairIndex == 0
    ensures Step(st, line).pairs == st.pairs + [PairMatch(Trim(line))]
    ensures Step(st, line).pairIndex == 0
  {
    StepResetsPair(st, line);
  }

  /** The final cursor is the starting one or the title of some header line. */
  lemma {:induction false} CursorFromHeader(st: ScanState, lines: seq<string>)
    ensures var c := Scan(st, lines).cursor;
      c == st.cursor || exists k :: 0 <= k < |lines| && SectionMatch(Trim(lines[k])) == Some(c)
    decreases |lines|
  {
    if lines != [] {
      var init := lines[..|lines| - 1];
      var last := lines[|lines| - 1];
      CursorFromHeader(st, init);
      var mid := Scan(st, init);
      StepCursor(mid, last);
      var c := Scan(st, lines).cursor;
      assert c == Step(mid, last).cursor;
      if c != mid.cursor {
        assert SectionMatch(Trim(lines[|lines| - 1])) == Some(c);
      } else if c != st.cursor {
        var k :| 0 <= k < |init| && SectionMatch(Trim(init[k])) == Some(c);
        assert init[k] == lines[k];
      }
    }
  }

  /** One line keeps the cursor or moves it to that line's header title. */
  lemma StepCursor(st: ScanState, line: string)
    ensures Step(st, line).cursor == st.cursor || SectionMatch(Trim(line)) == Some(Step(st, line).cursor)
  {
    var t := Trim(line);
    StepOnCursor(st, t, PairMatch(t), PairMatch("skip"), SectionMatch(t));
  }

  lemma StepOnCursor(st: ScanState, t: string, pair: Option<Pair>, skip: Option<Pair>,
                     section: Option<string>)
    ensures var r := StepOn(st, t, pair, skip, section);
      r.cursor == st.cursor || section == Some(r.cursor)
  {
  }

  /** So a text without header lines files every pair under "OUTCAST". */
  lemma NoHeaderOutcast(pi: nat, si: nat, lines: seq<string>)
    requires forall k :: 0 <= k < |lines| ==> SectionMatch(Trim(lines[k])).None?
    ensures Scan(ScanState([], Outcast, pi, si), lines).cursor == Outcast
  {
    CursorFromHeader(ScanState([], Outcast, pi, si), lines);
  }

  /** Every pair lands under the one final cursor: at most one section, present exactly when some
      line was a pair, holding the pairs in order with a later value winning. */
  lemma StoredUnderCursor(pairs: seq<Option<Pair>>, cursor: string)
    ensures Stored(pairs, cursor).Keys <= {cursor} && |Stored(pairs, cursor)| <= 1
    ensures cursor in Stored(pairs, cursor) <==> exists k :: 0 <= k < |pairs| && pairs[k].Some?
    ensures cursor in Stored(pairs, cursor) ==>
      Stored(pairs, cursor)[cursor] == ConfigParser.Collected(Found(pairs))
  {
    FoundEmpty(pairs);
    var s := Stored(pairs, cursor);
    if s != map[] {
      assert s.Keys == {cursor};
    }
  }

  lemma {:induction false} FoundEmpty(pairs: seq<Option<Pair>>)
    ensures Found(pairs) == [] <==> forall k :: 0 <= k < |pairs| ==> pairs[k].None?
    decreases |pairs|
  {
    if pairs != [] {
      var init := pairs[..|pairs| - 1];
      FoundEmpty(init);
      assert forall k :: 0 <= k < |init| ==> init[k] == pairs[k];
    }
  }

  /** A pair line moves neither the cursor nor the header pattern. */
  lemma PairLineKeepsSection(st: ScanState, line: string)
    requires st.pairIndex == 0 && PairMatch(Trim(line)).Some?
    ensures Step(st, line).cursor == st.cursor && Step(st, line).sectionIndex == st.sectionIndex
  {
  }

  /** A header line read with the header pattern at 0 moves the cursor to its title and leaves the
      pattern past the end of the line. */
  lemma HeaderRecognised(st: ScanState, line: string, title: string)
    requires st.sectionIndex == 0 && PairMatch(Trim(line)).None?
    requires SectionMatch(Trim(line)) == Some(title)
    ensures Step(st, line).cursor == title && Step(st, line).sectionIndex == |title| + 2
  {
    SectionMatchIff(Trim(line), title);
  }

  /** Any non-pair line read with the header pattern past 0 fails the header attempt, header or
      not: the cursor stays and the pattern is reset to 0. */
  lemma HeaderMissed(st: ScanState, line: string)
    requires st.sectionIndex != 0 && PairMatch(Trim(line)).None?
    ensures Step(st, line).cursor == st.cursor && Step(st, line).sectionIndex == 0
  {
  }

  /** The pass over two runs of lines is the pass over the second from where the first ended. */
  lemma ScanAppend(st: ScanState, a: seq<string>, b: seq<string>)
    ensures Scan(st, a + b) == Scan(Scan(st, a), b)
  {
    ScanWithAppend(Step, st, a, b);
  }

  lemma {:induction false} ScanWithAppend(step: (ScanState, string) -> ScanState, st: ScanState,
                                          a: seq<string>, b: seq<string>)
    ensures ScanWith(step, st, a + b) == ScanWith(step, ScanWith(step, st, a), b)
    decreases |b|
  {
    if b == [] {
      assert a + b == a;
    } else {
      var init := b[..|b| - 1];
      ScanWithAppend(step, st, a, init);
      assert (a + b)[..|a + b| - 1] == a + init;
      assert (a + b)[|a + b| - 1] == b[|b| - 1];
    }
  }

  /** The pass over some lines is one step after the pass over all but the last. */
  lemma ScanLast(st: ScanState, lines: seq<string>)
    requires lines != []
    ensures Scan(st, lines) == Step(Scan(st, lines[..|lines| - 1]), lines[|lines| - 1])
  {
    assert ScanWith(Step, st, lines) ==
      Step(ScanWith(Step, st, lines[..|lines| - 1]), lines[|lines| - 1]);
  }

  /** The pass over one more line of a prefix. */
  lemma ScanPrefixNext(st: ScanState, lines: seq<string>, i: nat)
    requires i < |lines|
    ensures Scan(st, lines[..i + 1]) == Step(Scan(st, lines[..i]), lines[i])
  {
    ScanLast(st, lines[..i + 1]);
    assert lines[..i + 1][..i] == lines[..i];
  }

  /** Pair lines alone move neither the cursor nor the header pattern. */
  lemma {:induction false} PairLinesKeepSection(st: ScanState, ls: seq<string>)
    requires st.pairIndex == 0
    requires forall k :: 0 <= k < |ls| ==> PairMatch(Trim(ls[k])).Some?
    ensures Scan(st, ls).cursor == st.cursor && Scan(st, ls).sectionIndex == st.sectionIndex
    decreases |ls|
  {
    if ls != [] {
      var init := ls[..|ls| - 1];
      assert forall k :: 0 <= k < |init| ==> init[k] == ls[k];
      PairLinesKeepSection(st, init);
      ScanRecords(st, init);
      PairLineKeepsSection(Scan(st, init), ls[|ls| - 1]);
    }
  }

  /** A line that trims to `[title]`, for a word-character title. */
  predicate HeaderLine(h: string, title: string) {
    title != [] && (forall c :: c in title ==> IsWordChar(c)) && Trim(h) == "[" + title + "]"
  }

  /**
   * A file of one header line and then pair lines: with the header pattern at 0 the pairs go under
   * the title and the pattern is left past 0; with it past 0 the header is missed, the pairs go
   * under the starting cursor and the pattern is back at 0.
   */
  lemma OneSectionFile(st: ScanState, h: string, title: string, ls: seq<string>)
    requires st.pairIndex == 0 && HeaderLine(h, title)
    requires forall k :: 0 <= k < |ls| ==> PairMatch(Trim(ls[k])).Some?
    ensures var r := Scan(st, [h] + ls);
      r.pairs == st.pairs + Attempts([h] + ls) && r.pairIndex == 0
      && (st.sectionIndex == 0 ==> r.cursor == title && r.sectionIndex == |title| + 2)
      && (st.sectionIndex != 0 ==> r.cursor == st.cursor && r.sectionIndex == 0)
  {
    HeaderLineIsHeader(h, title);
    var one := Scan(st, [h]);
    ScanOne(st, h);
    assert one.pairIndex == 0 by {
      StepResetsPair(st, h);
    }
    if st.sectionIndex == 0 {
      HeaderRecognised(st, h, title);
    } else {
      HeaderMissed(st, h);
    }
    ScanAppend(st, [h], ls);
    PairLinesKeepSection(one, ls);
    ScanRecords(st, [h] + ls);
  }

  /** The pass over one line is that line's step. */
  lemma ScanOne(st: ScanState, h: string)
    ensures Scan(st, [h]) == Step(st, h)
  {
    assert [h][..0] == [];
    assert ScanWith(Step, st, [h]) == Step(ScanWith(Step, st, []), h);
  }

  /** A header line is no pair, and its header is its title. */
  lemma HeaderLineIsHeader(h: string, title: string)
    requires HeaderLine(h, title)
    ensures PairMatch(Trim(h)).None? && SectionMatch(Trim(h)) == Some(title)
  {
    var t := Trim(h);
    assert '=' !in t by {
      assert forall k :: 0 <= k < |t| ==> t[k] == '[' || t[k] == ']' || t[k] in title;
    }
    PairMatchShape(t);
    SectionMatchIff(t, title);
  }

  /** An indented `key = value` line whose value is one word is read as that pair. */
  lemma IndentedPairLine(key: string, value: string)
    requires key != [] && forall c :: c in key ==> IsWordChar(c)
    requires value != [] && forall c :: c in value ==> IsWordChar(c)
    ensures PairMatch(Trim(" " + key + " = " + value)) == Some((key, value))
  {
    var t := key + " " + "=" + " " + value + "";
    IndentTrimmed(key, value);
    WordPair(key, value);
  }

  /** The indentation of such a line is trimmed away. */
  lemma IndentTrimmed(key: string, value: string)
    requires key != [] && forall c :: c in key ==> IsWordChar(c)
    requires value != [] && forall c :: c in value ==> IsWordChar(c)
    ensures Trim(" " + key + " = " + value) == key + " " + "=" + " " + value + ""
  {
    var t := key + " " + "=" + " " + value + "";
    assert " " + key + " = " + value == " " + t;
    assert value[|value| - 1] in value && key[0] in key;
    assert t[0] == key[0] && t[|t| - 1] == value[|value| - 1];
    TrimPadded(" ", t);
  }

  /** `key = value` with a one-word value is a whole-line pair. */
  lemma WordPair(key: string, value: string)
    requires key != [] && forall c :: c in key ==> IsWordChar(c)
    requires value != [] && forall c :: c in value ==> IsWordChar(c)
    ensures PairMatch(key + " " + "=" + " " + value + "") == Some((key, value))
  {
    assert !IsSpace(value[0]) by {
      assert value[0] in value;
    }
    assert forall c :: c in value ==> !IsLineTerminator(c) by {
      forall c | c in value
        ensures !IsLineTerminator(c)
      {
        assert IsWordChar(c);
      }
    }
    ConfigParser.LineMatches(key, " ", " ", value, "");
  }

  /** A fresh parser reading a header and then pair lines files the pairs of those lines under
      the title, a later value of a key overwriting an earlier one. */
  lemma HeaderThenPairs(h: string, title: string, ls: seq<string>)
    requires HeaderLine(h, title) && ls != []
    requires forall k :: 0 <= k < |ls| ==> PairMatch(Trim(ls[k])).Some?
    ensures var st := Scan(ScanState([], Outcast, 0, 0), [h] + ls);
      Stored(st.pairs, st.cursor) == map[title := ConfigParser.Collected(Found(Attempts(ls)))]
  {
    HeaderThenPairsScan(h, title, ls);
    assert Found(Attempts(ls)) != [] by {
      AttemptsAt(ls, 0);
      FoundEmpty(Attempts(ls));
    }
    StoredAfterNone(Attempts(ls), title);
  }

  /** The pass over such a text: a miss for the header, the attempts on the pair lines, and the
      cursor on the title. */
  lemma HeaderThenPairsScan(h: string, title: string, ls: seq<string>)
    requires HeaderLine(h, title)
    requires forall k :: 0 <= k < |ls| ==> PairMatch(Trim(ls[k])).Some?
    ensures var st := Scan(ScanState([], Outcast, 0, 0), [h] + ls);
      st.pairs == [None] + Attempts(ls) && st.cursor == title
  {
    var st0 := ScanState([], Outcast, 0, 0);
    OneSectionFile(st0, h, title, ls);
    var one := Scan(st0, [h]);
    assert one.pairs == [None] && one.pairIndex == 0 by {
      ScanOne(st0, h);
      HeaderLineIsHeader(h, title);
      StepRecords(st0, h);
    }
    ScanAppend(st0, [h], ls);
    ScanRecords(one, ls);
  }

  /** A leading miss changes nothing in what is stored. */
  lemma StoredAfterNone(rest: seq<Option<Pair>>, cursor: string)
    requires Found(rest) != []
    ensures Stored([None] + rest, cursor) == map[cursor := ConfigParser.Collected(Found(rest))]
  {
    FoundAfterNone(rest);
  }

  /** A leading line without a pair adds nothing to what is found. */
  lemma {:induction false} FoundAfterNone(rest: seq<Option<Pair>>)
    ensures Found([None] + rest) == Found(rest)
    decreases |rest|
  {
    var a := [None] + rest;
    if rest == [] {
      assert a[..0] == [];
    } else {
      var n := |rest|;
      assert a[..|a| - 1] == [None] + rest[..n - 1];
      assert a[|a| - 1] == rest[n - 1];
      FoundAfterNone(rest[..n - 1]);
    }
  }

  /** Two header lines in a row under a fresh header pattern: the second is missed and the cursor
      stays at the first title. */
  lemma SecondHeaderMissed(st: ScanState, h1: string, t1: string, h2: string, t2: string)
    requires st.pairIndex == 0 && st.sectionIndex == 0 && HeaderLine(h1, t1) && HeaderLine(h2, t2)
    ensures Scan(st, [h1, h2]).cursor == t1
  {
    HeaderLineIsHeader(h1, t1);
    HeaderLineIsHeader(h2, t2);
    ScanOne(st, h1);
    HeaderRecognised(st, h1, t1);
    var one := Scan(st, [h1]);
    ScanLast(st, [h1, h2]);
    assert [h1, h2][..1] == [h1];
    HeaderMissed(one, h2);
  }

  /**
   * The same file read twice files its pairs under different sections: a fresh parser puts them
   * under the title and leaves the header pattern past 0, so the second read misses the header and
   * puts them under "OUTCAST".
   */
  lemma RepeatedParseMovesPairs(h: string, title: string, ls: seq<string>)
    requires HeaderLine(h, title)
    requires forall k :: 0 <= k < |ls| ==> PairMatch(Trim(ls[k])).Some?
    ensures var lines := [h] + ls;
      var first := Scan(ScanState([], Outcast, 0, 0), lines);
      var second := Scan(ScanState([], Outcast, first.pairIndex, first.sectionIndex), lines);
      first.cursor == title && second.cursor == Outcast && first.pairs == second.pairs
  {
    var lines := [h] + ls;
    OneSectionFile(ScanState([], Outcast, 0, 0), h, title, ls);
    var first := Scan(ScanState([], Outcast, 0, 0), lines);
    OneSectionFile(ScanState([], Outcast, first.pairIndex, first.sectionIndex), h, title, ls);
  }

  // ---------------------------------------------------------------------------------------------
  // The header pattern as evidently intended: without the `g` flag, so that every attempt starts at
  // the beginning of the line.

  /** The pass with the header pattern reset before every line. */
  function CorrectedScan(st: ScanState, lines: seq<string>): ScanState
    decreases |lines|
  {
    if lines == [] then st
    else Step(CorrectedScan(st, lines[..|lines| - 1]).(sectionIndex := 0), lines[|lines| - 1])
  }

  /** The title a line gives the pass as a header: none for a pair line. */
  function HeaderTitle(line: string): Option<string> {
    if PairMatch(Trim(line)).Some? then None else SectionMatch(Trim(line))
  }

  /** The header title of every line, in order. */
  function Titles(lines: seq<string>): (r: seq<Option<string>>)
    ensures |r| == |lines|
    decreases |lines|
  {
    if lines == [] then [] else Titles(lines[..|lines| - 1]) + [HeaderTitle(lines[|lines| - 1])]
  }

  /** The last title among `ms`, or `default` when there is none. */
  function LastTitle(ms: seq<Option<string>>, default: string): string
    decreases |ms|
  {
    if ms == [] then default
    else match ms[|ms| - 1]
      case Some(t) => t
      case None => LastTitle(ms[..|ms| - 1], default)
  }

  /** The last title is the one at the last position holding a title. */
  lemma {:induction false} LastTitleAt(ms: seq<Option<string>>, default: string, k: nat)
    requires k < |ms| && ms[k].Some?
    requires forall j :: k < j < |ms| ==> ms[j].None?
    ensures LastTitle(ms, default) == ms[k].value
    decreases |ms|
  {
    if k < |ms| - 1 {
      var init := ms[..|ms| - 1];
      assert ms[|ms| - 1].None?;
      assert forall j :: k < j < |init| ==> init[j] == ms[j];
      LastTitleAt(init, default, k);
    }
  }

  /** Without any title the default stays. */
  lemma {:induction false} LastTitleDefault(ms: seq<Option<string>>, default: string)
    requires forall k :: 0 <= k < |ms| ==> ms[k].None?
    ensures LastTitle(ms, default) == default
    decreases |ms|
  {
    if ms != [] {
      var init := ms[..|ms| - 1];
      assert forall k :: 0 <= k < |init| ==> init[k] == ms[k];
      LastTitleDefault(init, default);
    }
  }

  /** Line `k`'s entry is that line's header title. */
  lemma {:induction false} TitlesAt(lines: seq<string>, k: nat)
    requires k < |lines|
    ensures Titles(lines)[k] == HeaderTitle(lines[k])
    decreases |lines|
  {
    if k < |lines| - 1 {
      var init := lines[..|lines| - 1];
      TitlesAt(init, k);
      assert init[k] == lines[k];
    }
  }

  /** With the corrected pattern the cursor is the title of the last header line, or the starting
      cursor when there is none. */
  lemma {:induction false} CorrectedCursorIsLastHeader(st: ScanState, lines: seq<string>)
    requires st.pairIndex == 0
    ensures CorrectedScan(st, lines).pairIndex == 0
    ensures CorrectedScan(st, lines).cursor == LastTitle(Titles(lines), st.cursor)
    decreases |lines|
  {
    if lines != [] {
      var init := lines[..|lines| - 1];
      CorrectedCursorIsLastHeader(st, init);
      CorrectedStep(CorrectedScan(st, init), lines[|lines| - 1]);
    }
  }

  /** One line of the corrected pass: a header line always moves the cursor to its title, any
      other line leaves it. */
  lemma CorrectedStep(st: ScanState, line: string)
    requires st.pairIndex == 0
    ensures var r := Step(st.(sectionIndex := 0), line);
      r.pairIndex == 0 && r.cursor == HeaderTitle(line).GetOr(st.cursor)
  {
    var s0 := st.(sectionIndex := 0);
    StepResetsPair(s0, line);
    if HeaderTitle(line).Some? {
      HeaderRecognised(s0, line, HeaderTitle(line).value);
    } else if PairMatch(Trim(line)).Some? {
      PairLineKeepsSection(s0, line);
    } else {
      NeitherKeepsCursor(s0, line);
    }
  }

  /** A line that is neither a pair nor a header leaves the cursor. */
  lemma NeitherKeepsCursor(st: ScanState, line: string)
    requires PairMatch(Trim(line)).None? && SectionMatch(Trim(line)).None?
    ensures Step(st, line).cursor == st.cursor
  {
  }

  /** So the file "[A]", "[B]", pairs files the pairs under "B" with the corrected pattern, where
      the pass as written files them under "A". */
  lemma CorrectedSecondHeader(st: ScanState, h1: string, t1: string, h2: string, t2: string)
    requires st.pairIndex == 0 && HeaderLine(h1, t1) && HeaderLine(h2, t2)
    ensures CorrectedScan(st, [h1, h2]).cursor == t2
  {
    HeaderLineIsHeader(h2, t2);
    CorrectedCursorIsLastHeader(st, [h1, h2]);
    TitlesAt([h1, h2], 1);
    LastTitleAt(Titles([h1, h2]), st.cursor, 1);
  }
}
