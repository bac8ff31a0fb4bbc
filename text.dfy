/**
 * The JavaScript string and regular-expression built-ins the extension relies on, stated over
 * `string` (a sequence of Unicode scalar values): `includes`, `replace` with a string pattern
 * (first occurrence), `replace` with a global literal pattern (every occurrence, left to right,
 * optionally case-insensitive), `indexOf`, `split` with a string separator, `join`, `trim`,
 * `endsWith`, and the character classes `\s`, `\w` and the line terminators `.` refuses.
 */
module Text {
  import opened Wrappers

  /** `\s` in a JavaScript regular expression, and what `String.prototype.trim` removes. */
  predicate IsSpace(c: char) {
    c == ' ' || c == '\t' || c == '\n' || c == '\r' || c == '\U{B}' || c == '\U{C}'
    || c == '\U{A0}' || c == '\U{1680}' || ('\U{2000}' <= c <= '\U{200A}')
    || c == '\U{2028}' || c == '\U{2029}' || c == '\U{202F}' || c == '\U{205F}'
    || c == '\U{3000}' || c == '\U{FEFF}'
  }

  /** `\w`: an ASCII letter, digit or underscore. */
  predicate IsWordChar(c: char) {
    ('a' <= c <= 'z') || ('A' <= c <= 'Z') || ('0' <= c <= '9') || c == '_'
  }

  /** The characters that `.` does not match. */
  predicate IsLineTerminator(c: char) {
    c == '\n' || c == '\r' || c == '\U{2028}' || c == '\U{2029}'
  }

  /** ASCII lower-casing, the case folding the `i` flag applies to ASCII letters. */
  function Lower(c: char): (d: char)
    ensures 'A' <= c <= 'Z' ==> 'a' <= d <= 'z'
    ensures !('A' <= c <= 'Z') ==> d == c
  {
    if 'A' <= c <= 'Z' then (c as int + 32) as char else c
  }

  /** Equal up to the case of ASCII letters, as the `i` flag compares. */
  predicate EqualIgnoringCase(a: string, b: string) {
    |a| == |b| && forall i :: 0 <= i < |a| ==> Lower(a[i]) == Lower(b[i])
  }

  /** The end of the longest run of characters satisfying `p` that starts at `i` (a greedy `p*`). */
  function RunEnd(s: string, i: nat, p: char -> bool): (j: nat)
    requires i <= |s|
    ensures i <= j <= |s|
    ensures forall k :: i <= k < j ==> p(s[k])
    ensures j < |s| ==> !p(s[j])
    decreases |s| - i
  {
    if i < |s| && p(s[i]) then RunEnd(s, i + 1, p) else i
  }

  /** Does `k` occur at the very start of `s` (ignoring ASCII case when `ignoreCase`)? */
  predicate HeadMatches(s: string, k: string, ignoreCase: bool) {
    |k| <= |s| && (if ignoreCase then EqualIgnoringCase(s[..|k|], k) else s[..|k|] == k)
  }

  /** Does `k` occur anywhere in `s`? The empty key occurs everywhere. */
  predicate ContainsMatch(s: string, k: string, ignoreCase: bool)
    decreases |s|
  {
    HeadMatches(s, k, ignoreCase) || (s != [] && ContainsMatch(s[1..], k, ignoreCase))
  }

  /** `s.includes(k)`. */
  predicate Contains(s: string, k: string) {
    ContainsMatch(s, k, false)
  }

  /**
   * `s.replace(new RegExp(k, ignoreCase ? "gi" : "g"), v)` for a key without metacharacters:
   * every non-overlapping occurrence of `k`, scanned left to right, becomes `v`. Like the
   * regular expression engine, an empty key matches before every character and at the end.
   */
  function ReplaceAll(s: string, k: string, v: string, ignoreCase: bool): string
    decreases |s|
  {
    if k == [] then
      if s == [] then v else v + [s[0]] + ReplaceAll(s[1..], k, v, ignoreCase)
    else if HeadMatches(s, k, ignoreCase) then
      v + ReplaceAll(s[|k|..], k, v, ignoreCase)
    else if s == [] then
      []
    else
      [s[0]] + ReplaceAll(s[1..], k, v, ignoreCase)
  }

  /** Does `k` occur in `s` at index `j`? */
  predicate OccursAt(s: string, k: string, j: nat) {
    j + |k| <= |s| && s[j..j + |k|] == k
  }

  /** The first index from `i` on where `k` occurs, if any. */
  function FindFrom(s: string, k: string, i: nat): (r: Option<nat>)
    requires i <= |s|
    ensures r.Some? ==> i <= r.value && OccursAt(s, k, r.value)
    ensures r.Some? ==> forall j :: i <= j < r.value ==> !OccursAt(s, k, j)
    ensures r.None? ==> forall j :: i <= j <= |s| ==> !OccursAt(s, k, j)
    decreases |s| - i
  {
    if OccursAt(s, k, i) then Some(i)
    else if i == |s| then None
    else FindFrom(s, k, i + 1)
  }

  /** `s.indexOf(k)`: the first index where `k` occurs, if any. */
  function Find(s: string, k: string): (r: Option<nat>)
    ensures r.Some? ==> OccursAt(s, k, r.value) && forall j :: 0 <= j < r.value ==> !OccursAt(s, k, j)
    ensures r.None? ==> forall j :: 0 <= j <= |s| ==> !OccursAt(s, k, j)
  {
    FindFrom(s, k, 0)
  }

  /** `s.replace(k, v)` with a string pattern: only the first occurrence of `k` is replaced, and a
      text without `k` is returned as it is. */
  function ReplaceFirst(s: string, k: string, v: string): string {
    match Find(s, k)
    case None => s
    case Some(i) => s[..i] + v + s[i + |k|..]
  }

  /** `s.split(sep)` for a non-empty string separator: the pieces between the separators, in order. */
  function Split(s: string, sep: string): (parts: seq<string>)
    requires sep != []
    ensures |parts| >= 1
    decreases |s|
  {
    match Find(s, sep)
    case None => [s]
    case Some(i) => [s[..i]] + Split(s[i + |sep|..], sep)
  }

  /** `parts.join(sep)`. */
  function Join(parts: seq<string>, sep: string): string
    decreases |parts|
  {
    if |parts| == 0 then ""
    else if |parts| == 1 then parts[0]
    else parts[0] + sep + Join(parts[1..], sep)
  }

  /** `s.endsWith(suffix)`. */
  predicate EndsWith(s: string, suffix: string) {
    |suffix| <= |s| && s[|s| - |suffix|..] == suffix
  }

  /** `s.replace(/a|b|.../g, "")` for single-character alternatives: drop every character in `cs`. */
  function RemoveChars(s: string, cs: set<char>): (r: string)
    ensures forall i :: 0 <= i < |r| ==> r[i] !in cs
    ensures forall i :: 0 <= i < |s| && s[i] !in cs ==> s[i] in r
  {
    if s == [] then []
    else if s[0] in cs then RemoveChars(s[1..], cs)
    else [s[0]] + RemoveChars(s[1..], cs)
  }

  /** The number of occurrences of the character `c` in `s`. */
  function Count(s: string, c: char): nat {
    if s == [] then 0 else (if s[0] == c then 1 else 0) + Count(s[1..], c)
  }

  function TrimStart(s: string): (r: string)
    ensures |r| <= |s| && r == s[|s| - |r|..]
    ensures forall i :: 0 <= i < |s| - |r| ==> IsSpace(s[i])
    ensures r != [] ==> !IsSpace(r[0])
  {
    if s != [] && IsSpace(s[0]) then TrimStart(s[1..]) else s
  }

  function TrimEnd(s: string): (r: string)
    ensures |r| <= |s| && r == s[..|r|]
    ensures forall i :: |r| <= i < |s| ==> IsSpace(s[i])
    ensures r != [] ==> !IsSpace(r[|r| - 1])
  {
    if s != [] && IsSpace(s[|s| - 1]) then TrimEnd(s[..|s| - 1]) else s
  }

  /** `s.trim()`: the text between the leading and the trailing whitespace. */
  function Trim(s: string): (r: string)
    ensures |r| <= |s|
    ensures r != [] ==> !IsSpace(r[0]) && !IsSpace(r[|r| - 1])
  {
    TrimEnd(TrimStart(s))
  }

  // ---------------------------------------------------------------------------------------------
  // Properties of the built-ins that the rest of the model relies on.

  /** A key that does not occur leaves the text as it is: the `includes` guard in front of a
      replace-all changes nothing. */
  lemma {:induction false} ReplaceAllNoMatch(s: string, k: string, v: string, ignoreCase: bool)
    requires k != [] && !ContainsMatch(s, k, ignoreCase)
    ensures ReplaceAll(s, k, v, ignoreCase) == s
    decreases |s|
  {
    if s != [] {
      ReplaceAllNoMatch(s[1..], k, v, ignoreCase);
    }
  }

  /** Where the key does not match, a replace-all copies the first character. */
  lemma ReplaceAllCopiesHead(s: string, k: string, v: string)
    requires k != [] && s != [] && !HeadMatches(s, k, false)
    ensures ReplaceAll(s, k, v, false) == [s[0]] + ReplaceAll(s[1..], k, v, false)
  {
  }

  /** A text whose first character is not the key's does not start with the key. */
  lemma HeadDiffers(s: string, k: string)
    requires s != [] && k != [] && s[0] != k[0]
    ensures !HeadMatches(s, k, false)
  {
    if |k| <= |s| {
      assert s[..|k|][0] == s[0];
    }
  }

  /** A prefix without the key's first character is copied through by a replace-all. */
  lemma {:induction false} ReplaceAllFreePrefix(a: string, b: string, k: string, v: string)
    requires k != [] && k[0] !in a
    ensures ReplaceAll(a + b, k, v, false) == a + ReplaceAll(b, k, v, false)
    decreases |a|
  {
    if a == [] {
      assert a + b == b;
    } else {
      var t := a[1..];
      var r := ReplaceAll(b, k, v, false);
      assert ReplaceAll(t + b, k, v, false) == t + r by {
        ReplaceAllFreePrefix(t, b, k, v);
      }
      assert ReplaceAll(a + b, k, v, false) == [a[0]] + ReplaceAll(t + b, k, v, false) by {
        var s := a + b;
        assert s[0] == a[0] && s[1..] == t + b;
        HeadDiffers(s, k);
        ReplaceAllCopiesHead(s, k, v);
      }
      assert [a[0]] + (t + r) == a + r by {
        assert [a[0]] + t == a;
      }
    }
  }

  /** An occurrence of the key at the front is replaced and the scan resumes after it. */
  lemma ReplaceAllKeyPrefix(b: string, k: string, v: string)
    requires k != []
    ensures ReplaceAll(k + b, k, v, false) == v + ReplaceAll(b, k, v, false)
  {
    assert (k + b)[..|k|] == k;
    assert (k + b)[|k|..] == b;
  }

  /** A text starting with `t`, where `t` is neither a prefix of the key nor has it as a prefix,
      does not start with the key. */
  lemma HeadOther(t: string, b: string, k: string)
    requires !(k <= t) && !(t <= k)
    ensures !HeadMatches(t + b, k, false)
  {
    var s := t + b;
    if |k| <= |s| {
      if |k| <= |t| {
        assert s[..|k|] == t[..|k|];
      } else {
        assert s[..|k|][..|t|] == t;
      }
    }
  }

  /** A prefix that starts like the key, holds the key's first character nowhere else, and is
      neither a prefix of the key nor has the key as a prefix, is copied through by a replace-all. */
  lemma ReplaceAllOtherPrefix(t: string, b: string, k: string, v: string)
    requires t != [] && k != [] && k[0] !in t[1..]
    requires !(k <= t) && !(t <= k)
    ensures ReplaceAll(t + b, k, v, false) == t + ReplaceAll(b, k, v, false)
  {
    var u := t[1..];
    var r := ReplaceAll(b, k, v, false);
    assert ReplaceAll(u + b, k, v, false) == u + r by {
      ReplaceAllFreePrefix(u, b, k, v);
    }
    assert ReplaceAll(t + b, k, v, false) == [t[0]] + ReplaceAll(u + b, k, v, false) by {
      var s := t + b;
      assert s[0] == t[0] && s[1..] == u + b;
      HeadOther(t, b, k);
      ReplaceAllCopiesHead(s, k, v);
    }
    assert [t[0]] + (u + r) == t + r by {
      assert [t[0]] + u == t;
    }
  }

  /** A text whose first character differs from the key's even after case folding does not start
      with the key under the `i` flag. */
  lemma HeadDiffersIgnoringCase(s: string, k: string)
    requires s != [] && k != [] && Lower(s[0]) != Lower(k[0])
    ensures !HeadMatches(s, k, true)
  {
    if |k| <= |s| {
      assert s[..|k|][0] == s[0];
    }
  }

  /** Under the `i` flag, a prefix without any case variant of the key's first character is copied
      through by a replace-all. */
  lemma {:induction false} ReplaceAllFreePrefixIgnoringCase(a: string, b: string, k: string, v: string)
    requires k != [] && forall c :: c in a ==> Lower(c) != Lower(k[0])
    ensures ReplaceAll(a + b, k, v, true) == a + ReplaceAll(b, k, v, true)
    decreases |a|
  {
    if a == [] {
      assert a + b == b;
    } else {
      var t := a[1..];
      var r := ReplaceAll(b, k, v, true);
      assert ReplaceAll(t + b, k, v, true) == t + r by {
        assert forall c :: c in t ==> c in a;
        ReplaceAllFreePrefixIgnoringCase(t, b, k, v);
      }
      assert ReplaceAll(a + b, k, v, true) == [a[0]] + ReplaceAll(t + b, k, v, true) by {
        var s := a + b;
        assert s[0] == a[0] && s[1..] == t + b;
        assert a[0] in a;
        HeadDiffersIgnoringCase(s, k);
      }
      assert [a[0]] + (t + r) == a + r by {
        assert [a[0]] + t == a;
      }
    }
  }

  /** Under the `i` flag, any case variant of the key at the front is replaced and the scan resumes
      after it. */
  lemma ReplaceAllVariantPrefix(w: string, b: string, k: string, v: string)
    requires k != [] && EqualIgnoringCase(w, k)
    ensures ReplaceAll(w + b, k, v, true) == v + ReplaceAll(b, k, v, true)
  {
    assert (w + b)[..|k|] == w;
    assert (w + b)[|k|..] == b;
  }

  /** Replacing a non-empty key in the empty text gives the empty text. */
  lemma ReplaceAllEmpty(k: string, v: string)
    requires k != []
    ensures ReplaceAll("", k, v, false) == ""
  {
  }

  /**
   * A piece a replace-all of `k` treats on its own: the key itself, a text without the key's first
   * character, or another token that starts like the key, holds that character nowhere else, and
   * neither is a prefix of the key nor has it as a prefix (`{media_dir}` for the key `{quality}`).
   */
  predicate TokenPiece(p: string, k: string)
    requires k != []
  {
    p == k || k[0] !in p || (p != [] && k[0] !in p[1..] && !(k <= p) && !(p <= k))
  }

  /** What a replace-all of `k` by `v` makes of such a piece. */
  function Swapped(p: string, k: string, v: string): string {
    if p == k then v else p
  }

  /** A token piece at the front is replaced on its own and the scan resumes right after it. */
  lemma ReplaceAllPiece(p: string, rest: string, k: string, v: string)
    requires k != [] && TokenPiece(p, k)
    ensures ReplaceAll(p + rest, k, v, false) == Swapped(p, k, v) + ReplaceAll(rest, k, v, false)
  {
    if p == k {
      ReplaceAllKeyPrefix(rest, k, v);
    } else if k[0] !in p {
      ReplaceAllFreePrefix(p, rest, k, v);
    } else {
      ReplaceAllOtherPrefix(p, rest, k, v);
    }
  }

  /** A replace-all over a text laid out in token pieces replaces exactly the pieces equal to the
      key: no occurrence straddles two pieces or hides inside another token. */
  lemma ReplaceAllPieces(a: string, b: string, c: string, d: string, e: string, f: string,
                         k: string, v: string)
    requires k != [] && TokenPiece(a, k) && TokenPiece(b, k) && TokenPiece(c, k)
    requires TokenPiece(d, k) && TokenPiece(e, k) && TokenPiece(f, k)
    ensures ReplaceAll(a + b + c + d + e + f, k, v, false)
      == Swapped(a, k, v) + Swapped(b, k, v) + Swapped(c, k, v) + Swapped(d, k, v)
         + Swapped(e, k, v) + Swapped(f, k, v)
  {
    var t4 := e + f;
    var t3 := d + t4;
    var t2 := c + t3;
    var t1 := b + t2;
    assert ReplaceAll(t4, k, v, false) == Swapped(e, k, v) + Swapped(f, k, v) by {
      ReplaceAllPiece(e, f, k, v);
      ReplaceAllPiece(f, "", k, v);
      ReplaceAllEmpty(k, v);
      assert f + "" == f;
      assert Swapped(f, k, v) + "" == Swapped(f, k, v);
    }
    ReplaceAllPiece(d, t4, k, v);
    ReplaceAllPiece(c, t3, k, v);
    ReplaceAllPiece(b, t2, k, v);
    ReplaceAllPiece(a, t1, k, v);
    Reassociated(a, b, c, d, e, f);
    Reassociated(Swapped(a, k, v), Swapped(b, k, v), Swapped(c, k, v), Swapped(d, k, v),
      Swapped(e, k, v), Swapped(f, k, v));
  }

  lemma Reassociated(a: string, b: string, c: string, d: string, e: string, f: string)
    ensures a + b + c + d + e + f == a + (b + (c + (d + (e + f))))
  {
  }

  /** Two tokens that differ at some position and share the key's first character only at the
      front are token pieces of each other. */
  lemma DistinctTokens(p: string, k: string, j: nat)
    requires j < |p| && j < |k| && p[j] != k[j] && k[0] !in p[1..]
    ensures TokenPiece(p, k)
  {
    assert !(k <= p) && !(p <= k) by {
      assert p[..j + 1] != k[..j + 1] by { assert p[..j + 1][j] != k[..j + 1][j]; }
    }
  }

  /** Joining a piece in front of at least one more puts the separator after it. */
  lemma JoinCons(p: string, rest: seq<string>, sep: string)
    requires |rest| >= 1
    ensures Join([p] + rest, sep) == p + sep + Join(rest, sep)
  {
    assert ([p] + rest)[1..] == rest;
  }

  /** Splitting on a separator and joining with it again gives back the text. */
  lemma {:induction false} SplitJoin(s: string, sep: string)
    requires sep != []
    ensures Join(Split(s, sep), sep) == s
    decreases |s|
  {
    match Find(s, sep)
    case None =>
      assert Split(s, sep) == [s];
    case Some(i) =>
      SplitJoin(s[i + |sep|..], sep);
      SplitJoinStep(s, sep, i);
  }

  /** The step of that proof: the text is its first piece, the separator, and the rest. */
  lemma SplitJoinStep(s: string, sep: string, i: nat)
    requires sep != [] && Find(s, sep) == Some(i)
    requires Join(Split(s[i + |sep|..], sep), sep) == s[i + |sep|..]
    ensures Join(Split(s, sep), sep) == s
  {
    var rest := s[i + |sep|..];
    JoinCons(s[..i], Split(rest, sep), sep);
    assert s[i..i + |sep|] == sep;
    ThreeSlices(s, i, i + |sep|);
  }

  /** A text is its three slices around two cut points. */
  lemma ThreeSlices(s: string, i: nat, j: nat)
    requires i <= j <= |s|
    ensures s[..i] + s[i..j] + s[j..] == s
  {
    assert s[..i] + s[i..j] == s[..j];
    assert s[..j] + s[j..] == s;
  }

  /** No piece of a split contains the separator. */
  lemma {:induction false} SplitPiecesFree(s: string, sep: string)
    requires sep != []
    ensures forall p, j :: p in Split(s, sep) && 0 <= j <= |p| ==> !OccursAt(p, sep, j)
    decreases |s|
  {
    match Find(s, sep)
    case None =>
    case Some(i) =>
      SplitPiecesFree(s[i + |sep|..], sep);
      var head := s[..i];
      forall j | 0 <= j <= |head| ensures !OccursAt(head, sep, j) {
        if j + |sep| <= |head| {
          assert j < i && !OccursAt(s, sep, j);
          assert head[j..j + |sep|] == s[j..j + |sep|];
        }
      }
  }

  /** Trimming leading whitespace off a text that has no trailing whitespace gives the rest. */
  lemma {:induction false} TrimPadded(sp: string, x: string)
    requires forall c :: c in sp ==> IsSpace(c)
    requires x != [] && !IsSpace(x[0]) && !IsSpace(x[|x| - 1])
    ensures Trim(sp + x) == x
    decreases |sp|
  {
    if sp == [] {
      assert sp + x == x;
      assert TrimStart(x) == x && TrimEnd(x) == x;
    } else {
      assert (sp + x)[0] == sp[0] && (sp + x)[1..] == sp[1..] + x;
      assert TrimStart(sp + x) == TrimStart(sp[1..] + x);
      TrimPadded(sp[1..], x);
    }
  }

  /** Trimming twice is trimming once. */
  lemma TrimIdempotent(s: string)
    ensures Trim(Trim(s)) == Trim(s)
  {
    var r := Trim(s);
    assert TrimStart(r) == r;
    assert TrimEnd(r) == r;
  }

  /** Replacing a one-character key distributes over concatenation: no occurrence can straddle the
      seam. */
  lemma {:induction false} ReplaceAllCharConcat(a: string, b: string, c: char, v: string)
    ensures ReplaceAll(a + b, [c], v, false) == ReplaceAll(a, [c], v, false) + ReplaceAll(b, [c], v, false)
    decreases |a|
  {
    if a == [] {
      assert a + b == b;
    } else {
      assert (a + b)[1..] == a[1..] + b;
      assert (a + b)[..1] == a[..1];
      ReplaceAllCharConcat(a[1..], b, c, v);
    }
  }

  /** A text without the one-character key comes back unchanged. */
  lemma ReplaceAllCharAbsent(s: string, c: char, v: string)
    requires c !in s
    ensures ReplaceAll(s, [c], v, false) == s
  {
    if ContainsMatch(s, [c], false) {
      ContainsCharIn(s, c);
    }
    ReplaceAllNoMatch(s, [c], v, false);
  }

  lemma {:induction false} ContainsCharIn(s: string, c: char)
    requires ContainsMatch(s, [c], false)
    ensures c in s
    decreases |s|
  {
    if HeadMatches(s, [c], false) {
      assert s[0] == c;
    } else {
      ContainsCharIn(s[1..], c);
    }
  }

  /** A character in the text is found by `includes`. */
  lemma {:induction false} CharInContains(s: string, c: char)
    requires c in s
    ensures Contains(s, [c])
    decreases |s|
  {
    if s[0] != c {
      assert c in s[1..] by {
        var k :| 0 <= k < |s| && s[k] == c;
        assert s[1..][k - 1] == c;
      }
      CharInContains(s[1..], c);
    } else {
      assert s[..1] == [c];
    }
  }

  /** A replace-all of a one-character key brings in a character only through the value. */
  lemma {:induction false} ReplaceAllCharKeeps(s: string, c: char, v: string, x: char)
    requires x !in s && x !in v
    ensures x !in ReplaceAll(s, [c], v, false)
    decreases |s|
  {
    if s != [] {
      assert x !in s[1..] by {
        assert forall y :: y in s[1..] ==> y in s;
      }
      ReplaceAllCharKeeps(s[1..], c, v, x);
      if HeadMatches(s, [c], false) {
        assert s[1..] == s[|[c]|..];
      }
    }
  }

  lemma {:induction false} CountConcat(a: string, b: string, c: char)
    ensures Count(a + b, c) == Count(a, c) + Count(b, c)
    decreases |a|
  {
    if a == [] {
      assert a + b == b;
    } else {
      assert (a + b)[1..] == a[1..] + b;
      CountConcat(a[1..], b, c);
    }
  }

  lemma {:induction false} CountAbsent(s: string, c: char)
    requires c !in s
    ensures Count(s, c) == 0
    decreases |s|
  {
    if s != [] {
      CountAbsent(s[1..], c);
    }
  }

  /** No piece of a split on a one-character separator holds that character. */
  lemma SplitCharPieces(s: string, c: char)
    ensures forall p :: p in Split(s, [c]) ==> c !in p
  {
    SplitPiecesFree(s, [c]);
    forall p, j | p in Split(s, [c]) && 0 <= j < |p|
      ensures p[j] != c
    {
      assert !OccursAt(p, [c], j);
      assert p[j..j + 1] == [p[j]];
    }
  }

  /** A text holding the separator character splits into at least two pieces. */
  lemma SplitAtChar(s: string, c: char)
    requires c in s
    ensures |Split(s, [c])| >= 2
  {
    var j :| 0 <= j < |s| && s[j] == c;
    assert s[j..j + 1] == [c];
    assert OccursAt(s, [c], j);
    assert Find(s, [c]).Some?;
  }

  /** Splitting at the first separator character: the text before it is the first piece. */
  lemma SplitFirstChar(a: string, c: char, rest: string)
    requires c !in a
    ensures Split(a + [c] + rest, [c]) == [a] + Split(rest, [c])
  {
    var s := a + [c] + rest;
    assert OccursAt(s, [c], |a|) by {
      assert s[|a|..|a| + 1] == [c];
    }
    forall j | 0 <= j < |a|
      ensures !OccursAt(s, [c], j)
    {
      assert s[j..j + 1] == [a[j]];
    }
    assert Find(s, [c]) == Some(|a|);
    assert s[..|a|] == a && s[|a| + 1..] == rest;
  }

  /** A text without the separator character is its own only piece. */
  lemma SplitNoChar(s: string, c: char)
    requires c !in s
    ensures Split(s, [c]) == [s]
  {
    forall j | 0 <= j < |s|
      ensures !OccursAt(s, [c], j)
    {
      assert s[j..j + 1] == [s[j]];
    }
    assert !OccursAt(s, [c], |s|);
    assert Find(s, [c]).None?;
  }

  /** A key whose first character does not occur in the text is not found, so replacing its first
      occurrence changes nothing. */
  lemma AbsentHead(s: string, k: string, v: string)
    requires k != [] && k[0] !in s
    ensures Find(s, k).None? && ReplaceFirst(s, k, v) == s
  {
    forall j | 0 <= j <= |s|
      ensures !OccursAt(s, k, j)
    {
      if j + |k| <= |s| {
        assert s[j..j + |k|][0] == s[j];
      }
    }
  }

  // ---------------------------------------------------------------------------------------------
  // Numerals.

  /** The decimal digits of `n`, as a template literal writes a non-negative integer. */
  function Digits(n: nat): (r: string)
    ensures r != [] && forall i :: 0 <= i < |r| ==> '0' <= r[i] <= '9'
  {
    if n < 10 then [(48 + n) as char] else Digits(n / 10) + [(48 + n % 10) as char]
  }

  /** The number a string of decimal digits denotes. */
  function DigitsValue(s: string): nat
    requires forall i :: 0 <= i < |s| ==> '0' <= s[i] <= '9'
  {
    if s == [] then 0 else 10 * DigitsValue(s[..|s| - 1]) + (s[|s| - 1] as int - 48)
  }

  /** `${n}` for an integer: a minus sign before the digits of a negative one. */
  function Decimal(n: int): string {
    if n < 0 then "-" + Digits(-n) else Digits(n)
  }

  /** The digits read back as the number they were written from. */
  lemma {:induction false} DigitsRoundTrip(n: nat)
    ensures DigitsValue(Digits(n)) == n
  {
    if n >= 10 {
      DigitsRoundTrip(n / 10);
      var d := Digits(n);
      assert d[..|d| - 1] == Digits(n / 10);
    }
  }

  /** A negative number is written with exactly one leading minus sign, and its magnitude after it. */
  lemma DecimalSign(n: int)
    ensures Decimal(n) != [] && (Decimal(n)[0] == '-' <==> n < 0)
    ensures n < 0 ==> DigitsValue(Decimal(n)[1..]) == -n
    ensures n >= 0 ==> DigitsValue(Decimal(n)) == n
  {
    if n < 0 {
      DigitsRoundTrip(-n);
      assert Decimal(n)[1..] == Digits(-n);
    } else {
      DigitsRoundTrip(n);
    }
  }
}
