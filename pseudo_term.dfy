/**
 * The pseudo-terminal the renderer's output can go to (src/pseudoTerm.ts): an output channel that
 * holds back the very first text written to it, and a one-line command editor whose command runs
 * outside the model (its outcome is an input). Everything the terminal writes is recorded, in
 * order, in `written`; creating the VS Code terminal, its intro banner, `replace`, `clear`, `show`,
 * `hide` and `dispose` are not modelled.
 */
module PseudoTerm {
  import opened Text

  const Enter: string := "\r"
  const Backspace: string := "\U{7F}"
  const CursorBack: string := "\U{1B}[D"
  const DeleteChar: string := "\U{1B}[P"
  const DefaultPrompt: string := "MSV"

  // ---------------------------------------------------------------------------------------------
  // `formatText`: `"\r" + text.split(/(\r?\n)/g).join("\r") + "\r"`.

  /** `text.split(/(\r?\n)/g)`: the pieces between the line breaks, with each break (kept by the
      capturing group) between its two neighbours. */
  function SplitBreaks(s: string): (parts: seq<string>)
    ensures |parts| % 2 == 1
    decreases |s|
  {
    if s == [] then [""]
    else if |s| >= 2 && s[0] == '\r' && s[1] == '\n' then ["", "\r\n"] + SplitBreaks(s[2..])
    else if s[0] == '\n' then ["", "\n"] + SplitBreaks(s[1..])
    else
      var r := SplitBreaks(s[1..]);
      [[s[0]] + r[0]] + r[1..]
  }

  function FormatText(text: string): string {
    "\r" + Join(SplitBreaks(text), "\r") + "\r"
  }

  /** The same text read character by character: every `\r\n` or lone `\n` gets a `\r` on either
      side, every other character stays. */
  function Framed(s: string): string
    decreases |s|
  {
    if s == [] then []
    else if |s| >= 2 && s[0] == '\r' && s[1] == '\n' then "\r\r\n\r" + Framed(s[2..])
    else if s[0] == '\n' then "\r\n\r" + Framed(s[1..])
    else [s[0]] + Framed(s[1..])
  }

  /** `formatText` frames the line breaks of its text and puts a `\r` at both ends. */
  lemma FormatTextFramed(text: string)
    ensures FormatText(text) == "\r" + Framed(text) + "\r"
  {
    JoinedBreaks(text);
  }

  lemma {:induction false} JoinedBreaks(s: string)
    ensures Join(SplitBreaks(s), "\r") == Framed(s)
    decreases |s|
  {
    if s == [] {
    } else if |s| >= 2 && s[0] == '\r' && s[1] == '\n' {
      var r := SplitBreaks(s[2..]);
      JoinedBreaks(s[2..]);
      JoinedSeparator("\r\n", r, "\r");
    } else if s[0] == '\n' {
      var r := SplitBreaks(s[1..]);
      JoinedBreaks(s[1..]);
      JoinedSeparator("\n", r, "\r");
    } else {
      var r := SplitBreaks(s[1..]);
      JoinedBreaks(s[1..]);
      JoinedHead(s[0], r, "\r");
    }
  }

  /** An empty piece and a break in front of more pieces. */
  lemma JoinedSeparator(b: string, r: seq<string>, sep: string)
    requires |r| >= 1
    ensures Join(["", b] + r, sep) == sep + b + sep + Join(r, sep)
  {
    assert ["", b] + r == [""] + ([b] + r);
    JoinCons(b, r, sep);
    JoinCons("", [b] + r, sep);
  }

  /** A character in front of the first piece. */
  lemma JoinedHead(c: char, r: seq<string>, sep: string)
    requires |r| >= 1
    ensures Join([[c] + r[0]] + r[1..], sep) == [c] + Join(r, sep)
  {
    if |r| > 1 {
      assert r == [r[0]] + r[1..];
      JoinCons(r[0], r[1..], sep);
      JoinCons([c] + r[0], r[1..], sep);
    }
  }

  /** A text without line feeds is only framed by the two `\r`. */
  lemma {:induction false} FramedNoBreak(s: string)
    requires '\n' !in s
    ensures Framed(s) == s
    decreases |s|
  {
    if s != [] {
      assert s[1..] == s[1..] && '\n' !in s[1..] by {
        assert forall c :: c in s[1..] ==> c in s;
      }
      FramedNoBreak(s[1..]);
    }
  }

  /** Framing goes piece by piece, unless a `\r` at the end of the first piece and a `\n` at the
      start of the second form one break. */
  lemma {:induction false} FramedConcat(a: string, b: string)
    requires a == [] || a[|a| - 1] != '\r'
    ensures Framed(a + b) == Framed(a) + Framed(b)
    decreases |a|
  {
    if a == [] {
      assert a + b == b;
    } else if |a| >= 2 && a[0] == '\r' && a[1] == '\n' {
      assert (a + b)[2..] == a[2..] + b;
      FramedConcat(a[2..], b);
    } else {
      assert a[0] != '\r' || |a| == 1 || a[1] != '\n';
      assert (a + b)[1..] == a[1..] + b;
      if |a| == 1 {
        assert a[0] != '\r';
      }
      FramedConcat(a[1..], b);
    }
  }

  /** So a line feed after a first line `a` becomes `\r\n\r`, and the rest is formatted on. */
  lemma FormatTextLineFeed(a: string, b: string)
    requires '\n' !in a && (a == [] || a[|a| - 1] != '\r')
    ensures FormatText(a + "\n" + b) == "\r" + a + "\r\n\r" + Framed(b) + "\r"
  {
    var t := "\n" + b;
    var f := Framed(b);
    assert FormatText(a + "\n" + b) == "\r" + Framed(a + t) + "\r" by {
      assert a + "\n" + b == a + t;
      FormatTextFramed(a + t);
    }
    assert Framed(a + t) == a + Framed(t) by {
      FramedConcat(a, t);
      FramedNoBreak(a);
    }
    assert Framed(t) == "\r\n\r" + f by {
      assert t[0] == '\n' && t[1..] == b;
    }
  }

  // ---------------------------------------------------------------------------------------------
  // The prompt and the line editor.

  /** `prompt`: the environment in parentheses, or "MSV", then the working directory and ">". */
  function Prompt(envName: string, cwd: string): (p: string)
    ensures |p| == (if envName == "" then 3 else |envName| + 2) + |cwd| + 2 && p[|p| - 1] == '>'
    ensures envName == "" ==> p[..3] == DefaultPrompt && p[3..|p| - 1] == " " + cwd
    ensures envName != "" ==>
              p[..|envName| + 2] == "(" + envName + ")" && p[|envName| + 2..|p| - 1] == " " + cwd
  {
    (if envName != "" then "(" + envName + ")" else DefaultPrompt) + " " + cwd + ">"
  }

  /** What the command typed at the prompt gave: its output and error text, or a thrown error. */
  datatype ExecOutcome = Completed(stdout: string, stderr: string) | Failed(message: string)

  /** What the terminal writes once the command has finished. */
  function ExecOutput(e: ExecOutcome): seq<string> {
    match e
    case Completed(out, err) =>
      (if out != "" then [FormatText(out)] else []) + (if err != "" then [FormatText(err)] else [])
    case Failed(message) => ["\r" + FormatText(message)]
  }

  /** The editor's state: the line typed so far, whether a command runs, and what has been written. */
  datatype Screen = Screen(content: string, isRunning: bool, written: seq<string>)

  /**
   * `handleInput` as the user sees it: nothing while a command runs; Enter writes a new prompt and
   * runs a non-empty line, which then clears; Backspace takes back the last character; anything
   * else is typed and echoed.
   */
  function Input(s: Screen, prompt: string, ch: string, exec: ExecOutcome): Screen {
    if s.isRunning then s
    else if ch == Enter then
      var w := s.written + ["\r\n" + prompt];
      if s.content == "" then s.(written := w)
      else Screen("", false, w + ExecOutput(exec) + ["\r" + prompt])
    else if ch == Backspace then
      if s.content == "" then s
      else s.(content := s.content[..|s.content| - 1], written := s.written + [CursorBack, DeleteChar])
    else s.(content := s.content + ch, written := s.written + [ch])
  }

  /** `text.replace(/\n/g, "\n\r")`. */
  function Crlf(text: string): string {
    ReplaceAll(text, "\n", "\n\r", false)
  }

  /** What `append` and `appendLine` keep between calls: whether anything was appended yet, the
      text held back, and what has been written. */
  datatype Output = Output(appendedBefore: bool, stickyNotes: string, written: seq<string>)

  /** `append`: the first value is only held back; a later one is written after the held-back
      text, each line feed followed by a carriage return, and nothing is held back any more. */
  function Appending(o: Output, value: string): Output {
    if !o.appendedBefore then Output(true, o.stickyNotes + value, o.written)
    else Output(true, "", o.written + [Crlf(o.stickyNotes + value)])
  }

  /** Everything written, as one text. */
  function Flat(ws: seq<string>): string {
    if ws == [] then "" else Flat(ws[..|ws| - 1]) + ws[|ws| - 1]
  }

  /** `ManimPseudoTerm`. */
  class ManimPseudoTerm {
    var envName: string
    var cwd: string
    var isRunning: bool
    var content: string
    var appendedBefore: bool
    var stickyNotes: string
    var written: seq<string>

    /** Notes are only held back before the first write. */
    predicate Valid()
      reads this
    {
      !appendedBefore ==> stickyNotes == ""
    }

    /** The editor's part of the state. */
    function View(): Screen
      reads this
    {
      Screen(content, isRunning, written)
    }

    constructor(cwd: string)
      ensures Valid() && this.cwd == cwd && envName == "" && !isRunning && content == ""
      ensures !appendedBefore && written == []
    {
      envName := "";
      this.cwd := cwd;
      isRunning := false;
      content := "";
      appendedBefore := false;
      stickyNotes := "";
      written := [];
    }

    /** The output part of the state. */
    function Out(): Output
      reads this
    {
      Output(appendedBefore, stickyNotes, written)
    }

    /** The prompt's environment and folder and the line editor are as they were. */
    twostate predicate EditorKept()
      reads this
    {
      envName == old(envName) && cwd == old(cwd) && content == old(content) &&
      isRunning == old(isRunning)
    }

    /** `append`. */
    method Append(value: string)
      modifies this
      ensures Valid() && Out() == Appending(old(Out()), value) && EditorKept()
    {
      if !appendedBefore {
        stickyNotes := stickyNotes + value;
        appendedBefore := true;
        return;
      }
      written := written + [Crlf(stickyNotes + value)];
      stickyNotes := "";
    }

    /** `appendLine`: as `append`, and after a write a new prompt. */
    method AppendLine(value: string, exec: ExecOutcome)
      modifies this
      ensures Valid() && LineAppended(this, value, exec)
    {
      if !appendedBefore {
        stickyNotes := stickyNotes + value;
        appendedBefore := true;
        return;
      }
      written := written + [Crlf(stickyNotes + value)];
      NewPrompt(exec);
      stickyNotes := "";
    }

    /** `newPrompt`: stop waiting for the render and press Enter. */
    method NewPrompt(exec: ExecOutcome)
      modifies this
      ensures View() == Input(old(View()).(isRunning := false), Prompt(envName, cwd), Enter, exec)
      ensures envName == old(envName) && cwd == old(cwd) && appendedBefore == old(appendedBefore)
      ensures stickyNotes == old(stickyNotes)
    {
      isRunning := false;
      HandleInput(Enter, exec);
    }

    /** `pty.handleInput`, with the Enter case falling through into the Backspace case as in the
        `switch`; `exec` is the outcome of running the typed line. */
    method HandleInput(ch: string, exec: ExecOutcome)
      modifies this
      ensures View() == Input(old(View()), Prompt(envName, cwd), ch, exec)
      ensures envName == old(envName) && cwd == old(cwd) && appendedBefore == old(appendedBefore)
      ensures stickyNotes == old(stickyNotes)
    {
      if isRunning {
        return;
      }
      var prompt := Prompt(envName, cwd);
      if ch == Enter || ch == Backspace {
        if ch == Enter {
          written := written + ["\r\n" + prompt];
          if content != "" {
            isRunning := true;
            written := written + ExecOutput(exec);
            isRunning := false;
            content := "";
            written := written + ["\r" + prompt];
          }
        }
        if content == "" {
          return;
        }
        content := content[..|content| - 1];
        written := written + [CursorBack, DeleteChar];
        return;
      }
      content := content + ch;
      written := written + [ch];
    }
  }

  /**
   * What `appendLine(value)` leaves: the prompt's environment and folder stay. A first value is
   * only held back and the editor is untouched; a later one is written as by `append`, and then
   * the running flag is cleared and Enter pressed at the prompt.
   */
  twostate predicate LineAppended(t: ManimPseudoTerm, value: string, exec: ExecOutcome)
    reads t
  {
    var o := Appending(old(t.Out()), value);
    t.envName == old(t.envName) && t.cwd == old(t.cwd) && t.appendedBefore &&
    if !old(t.appendedBefore) then
      t.Out() == o && t.View() == old(t.View())
    else
      t.stickyNotes == "" &&
      t.View() == Input(old(t.View()).(isRunning := false, written := o.written), Prompt(t.envName, t.cwd), Enter, exec)
  }

  // ---------------------------------------------------------------------------------------------
  // Properties.

  /** Nothing appended is lost or reordered: what has been written, followed by the held-back
      text, grows by exactly the value, with its line feeds turned into line feed and carriage
      return. */
  lemma AppendingKeepsText(o: Output, value: string)
    ensures var r := Appending(o, value);
      Flat(r.written) + Crlf(r.stickyNotes) == Flat(o.written) + Crlf(o.stickyNotes) + Crlf(value)
  {
    CrlfConcat(o.stickyNotes, value);
    var r := Appending(o, value);
    if o.appendedBefore {
      assert r.written[..|r.written| - 1] == o.written;
      assert Crlf("") == "";
    }
  }

  /** Only the first value is held back: after it, every value is written at once. */
  lemma AppendingHoldsOnlyFirst(o: Output, a: string, b: string)
    requires !o.appendedBefore && o.stickyNotes == ""
    ensures Appending(o, a) == Output(true, a, o.written)
    ensures Appending(Appending(o, a), b) == Output(true, "", o.written + [Crlf(a + b)])
  {
  }

  /** Enter always leaves an empty line and no running command: the fall-through into Backspace
      never removes a character. */
  lemma EnterClearsLine(s: Screen, prompt: string, exec: ExecOutcome)
    requires !s.isRunning
    ensures var r := Input(s, prompt, Enter, exec);
      r.content == "" && !r.isRunning && r.written[..|s.written| + 1] == s.written + ["\r\n" + prompt]
  {
  }

  /** Typing one character and taking it back restores the line. */
  lemma TypeThenBackspace(s: Screen, prompt: string, c: char, e1: ExecOutcome, e2: ExecOutcome)
    requires !s.isRunning && [c] != Enter && [c] != Backspace
    ensures Input(Input(s, prompt, [c], e1), prompt, Backspace, e2).content == s.content
  {
    assert (s.content + [c])[..|s.content|] == s.content;
  }

  /** While a command runs, input is ignored altogether. */
  lemma RunningIgnoresInput(s: Screen, prompt: string, ch: string, exec: ExecOutcome)
    requires s.isRunning
    ensures Input(s, prompt, ch, exec) == s
  {
  }

  /** The held-back text and the new value are written as one, each with its line feeds turned into
      line feed and carriage return. */
  lemma CrlfConcat(notes: string, value: string)
    ensures Crlf(notes + value) == Crlf(notes) + Crlf(value)
  {
    ReplaceAllCharConcat(notes, value, '\n', "\n\r");
  }

  /** A text without line feeds is written as it is. */
  lemma CrlfNoBreak(text: string)
    requires '\n' !in text
    ensures Crlf(text) == text
  {
    ReplaceAllCharAbsent(text, '\n', "\n\r");
  }
}
