/**
 * The command interpreter of libc/stdio/cocmd.c: a shell subset for the
 * build's recipes. `cocmd -c CMD` splits CMD into tokens with a three-state
 * tokenizer (unquoted, single-quoted, double-quoted), treats tokens of the
 * forms N>&M, >&M, N>>, >>, N>, > and < as redirections, starts a pipeline
 * stage at each `|`, and executes what remains.
 *
 * A C string is a `string` held without its NUL; `At` reads past its end as
 * the NUL. The process-level effects (dup2, open, the pipe and vfork of a
 * pipeline stage) are recorded as events; an exit through Wexit is an
 * outcome carrying its status.
 */
module CommandInterpreter {
  import opened Wrappers

  /** The byte at i of a NUL-terminated string: its NUL at the end. */
  function At(s: string, i: nat): char
  {
    if i < |s| then s[i] else '\0'
  }

  predicate IsDigit(c: char)
  {
    '0' <= c <= '9'
  }

  function DigitValue(c: char): nat
    requires IsDigit(c)
  {
    c as nat - '0' as nat
  }

  // ---------------------------------------------------------------------------
  // The table of rejected characters
  // ---------------------------------------------------------------------------

  /** The punctuation cocmd refuses outside quotes: ~ ` # * ( ) [ ] { } ; ? ! */
  predicate UnsupportedPunctuation(c: char)
  {
    c == '~' || c == '`' || c == '#' || c == '*' || c == '(' || c == ')' || c == '['
    || c == ']' || c == '{' || c == '}' || c == ';' || c == '?' || c == '!'
  }

  /** unsupported[b]: the control bytes 1 to 31 except tab, DEL, and the
      punctuation above. */
  predicate UnsupportedByte(b: int)
    requires 0 <= b < 256
  {
    (1 <= b < 32 && b != '\t' as int) || b == 127 || UnsupportedPunctuation(b as char)
  }

  /** The table lookup of the tokenizer: `unsupported[*p & 255]`. A
      character above 255 stands for the UTF-8 bytes of a non-ASCII
      character, all at least 0x80, which the table never flags. */
  predicate Rejected(c: char)
  {
    c as int < 256 && UnsupportedByte(c as int)
  }

  /** The characters the tokenizer gives a meaning to are all accepted. */
  lemma SyntaxCharactersAccepted()
    ensures !Rejected('\0') && !Rejected(' ') && !Rejected('\t')
    ensures !Rejected('"') && !Rejected('\'') && !Rejected('\\') && !Rejected('|')
    ensures !Rejected('<') && !Rejected('>') && !Rejected('&') && !Rejected('$')
  {
  }

  /** Digits, which name file descriptors in redirections, are accepted. */
  lemma DigitsAccepted(c: char)
    requires IsDigit(c)
    ensures !Rejected(c)
  {
  }

  /** A character beyond the byte range is accepted: its UTF-8 bytes are all
      at least 0x80, where the table is clear; it is copied as it is. */
  lemma WideCharactersAccepted(c: char)
    requires c as int >= 256
    ensures !Rejected(c) && Ordinary(c)
  {
  }

  /** An unquoted newline, carriage return or DEL is rejected. */
  lemma ControlCharactersRejected()
    ensures Rejected('\n') && Rejected('\r') && Rejected(127 as char)
  {
  }

  /** InitUnsupported: the loop setting bytes 1 to 31, then the single
      assignments, applied to the zero-filled static table. */
  method InitUnsupported() returns (table: array<bool>)
    ensures fresh(table) && table.Length == 256
    ensures forall b :: 0 <= b < 256 ==> table[b] == UnsupportedByte(b)
  {
    table := new bool[256](_ => false);
    var i := 1;
    while i < 32
      invariant 1 <= i <= 32
      invariant forall b :: 0 <= b < 256 ==> table[b] == (1 <= b < i)
    {
      table[i] := true;
      i := i + 1;
    }
    table['\t' as int] := false;
    table[127] := true;
    MarkPunctuation(table);
  }

  /** The thirteen single assignments for the punctuation. */
  method MarkPunctuation(table: array<bool>)
    requires table.Length == 256
    modifies table
    ensures forall b :: 0 <= b < 256 ==> table[b] == (old(table[b]) || UnsupportedPunctuation(b as char))
  {
    table['~' as int] := true;
    table['`' as int] := true;
    table['#' as int] := true;
    table['*' as int] := true;
    table['(' as int] := true;
    table[')' as int] := true;
    table['[' as int] := true;
    table[']' as int] := true;
    table['{' as int] := true;
    table['}' as int] := true;
    table[';' as int] := true;
    table['?' as int] := true;
    table['!' as int] := true;
  }

  // ---------------------------------------------------------------------------
  // The tokenizer, as a function of the command and the cursor
  // ---------------------------------------------------------------------------

  /** Skipped before a token: space, tab, newline, and a backslash that
      starts a backslash-newline pair. */
  predicate Blank(s: string, i: nat)
  {
    At(s, i) == ' ' || At(s, i) == '\t' || At(s, i) == '\n' || (At(s, i) == '\\' && At(s, i + 1) == '\n')
  }

  /** The leading-blank loop of Tokenize. */
  function Skip(s: string, i: nat): (j: nat)
    requires i <= |s|
    ensures i <= j <= |s| && !Blank(s, j)
    ensures forall k :: i <= k < j ==> Blank(s, k)
    decreases |s| - i
  {
    if i < |s| && Blank(s, i) then Skip(s, i + 1) else i
  }

  /** The three states of the tokenizer. */
  datatype Mode = Shell | Str | Quo

  /** The end of one Tokenize call. A token carries its text, the cursor it
      stops on, the number of pipeline stages started before its first byte,
      and whether it was cut short by a `|` (then its NUL is stored at the
      output cursor without moving it). Fail is the exit status of a
      rejected command and the stages started before it. */
  datatype Lexed =
    | Token(text: string, next: nat, pipes: nat, atPipe: bool)
    | Fail(code: nat, pipes: nat)

  /** What every end of a Tokenize call from cursor i satisfies: a failure
      exits 4 or 6 and keeps the stages started; a token stops at or after i, within the command, on a
      terminator (a NUL, space or tab, or a `|` when cut short), extends what
      was written before, holds at most one byte per byte consumed, and
      starts pipeline stages only while nothing has been written. */
  ghost predicate Ends(s: string, i: nat, acc: string, pipes: nat, r: Lexed)
  {
    (r.Fail? ==> (r.code == 4 || r.code == 6) && pipes <= r.pipes)
    && (r.Token? ==>
          i <= r.next <= |s| && |r.text| <= |acc| + (r.next - i)
          && acc <= r.text && pipes <= r.pipes && (r.pipes > pipes ==> acc == [])
          && (r.atPipe ==> At(s, r.next) == '|' && |r.text| > 0)
          && (!r.atPipe ==> At(s, r.next) == '\0' || At(s, r.next) == ' ' || At(s, r.next) == '\t'))
  }

  /** The rest of a Tokenize call from cursor i in state t, with acc written
      so far and `pipes` stages started. */
  function Lex(s: string, i: nat, t: Mode, acc: string, pipes: nat): (r: Lexed)
    requires i <= |s|
    ensures Ends(s, i, acc, pipes, r)
    ensures r.Token? && r.next == i ==> t == Shell
    decreases |s| - i, 1
  {
    match t
    case Shell => LexShell(s, i, acc, pipes)
    case Str => LexStr(s, i, acc, pipes)
    case Quo => LexQuo(s, i, acc, pipes)
  }

  /** STATE_SHELL: rejected bytes exit 4; a NUL, space or tab ends the token;
      quotes switch state and are not copied; a backslash copies the next
      byte (exit 4 when there is none); a `|` ends a non-empty token and
      otherwise starts a pipeline stage, the blanks after it skipped as
      before a token; any other byte is copied. */
  function LexShell(s: string, i: nat, acc: string, pipes: nat): (r: Lexed)
    requires i <= |s|
    ensures Ends(s, i, acc, pipes, r)
    decreases |s| - i, 0
  {
    var c := At(s, i);
    if Rejected(c) then Fail(4, pipes)
    else if c == '\0' || c == ' ' || c == '\t' then Token(acc, i, pipes, false)
    else if c == '"' then Lex(s, i + 1, Quo, acc, pipes)
    else if c == '\'' then Lex(s, i + 1, Str, acc, pipes)
    else if c == '\\' then
      (if At(s, i + 1) == '\0' then Fail(4, pipes) else Lex(s, i + 2, Shell, acc + [s[i + 1]], pipes))
    else if c == '|' then
      (if |acc| > 0 then Token(acc, i, pipes, true) else Lex(s, Skip(s, i + 1), Shell, acc, pipes + 1))
    else Lex(s, i + 1, Shell, acc + [c], pipes)
  }

  /** STATE_STR: bytes are copied up to the closing quote; the end of the
      command exits 6 (unterminated single string). */
  function LexStr(s: string, i: nat, acc: string, pipes: nat): (r: Lexed)
    requires i <= |s|
    ensures Ends(s, i, acc, pipes, r) && (r.Token? ==> i < r.next)
    decreases |s| - i, 0
  {
    var c := At(s, i);
    if c == '\0' then Fail(6, pipes)
    else if c == '\'' then Lex(s, i + 1, Shell, acc, pipes)
    else Lex(s, i + 1, Str, acc + [c], pipes)
  }

  /** STATE_QUO: bytes are copied up to the closing quote; the end of the
      command exits 6 (unterminated quoted string); a backslash before a
      newline is dropped with it, before $ ` or " yields that byte alone,
      before the end exits 4, and before anything else is kept with it. */
  function LexQuo(s: string, i: nat, acc: string, pipes: nat): (r: Lexed)
    requires i <= |s|
    ensures Ends(s, i, acc, pipes, r) && (r.Token? ==> i < r.next)
    decreases |s| - i, 0
  {
    var c := At(s, i);
    if c == '\0' then Fail(6, pipes)
    else if c == '"' then Lex(s, i + 1, Shell, acc, pipes)
    else if c == '\\' then
      var d := At(s, i + 1);
      if d == '\0' then Fail(4, pipes)
      else if d == '\n' then Lex(s, i + 2, Quo, acc, pipes)
      else if d == '$' || d == '`' || d == '"' then Lex(s, i + 2, Quo, acc + [d], pipes)
      else Lex(s, i + 2, Quo, acc + ['\\', d], pipes)
    else Lex(s, i + 1, Quo, acc + [c], pipes)
  }

  /** Tokenize as cocmd.c writes it. The only difference from Lex is a `|`
      that starts a stage: the branch steps over the `|` and the loop's own
      increment steps once more, so exactly one byte after the `|` is passed
      over unseen, whatever it is, where Lex skips the blanks after it.
      None stands for reading past the command's terminating NUL. */
  function LexAsWritten(s: string, i: nat, t: Mode, acc: string, pipes: nat): (r: Option<Lexed>)
    requires i <= |s| + 2
    ensures r.Some? ==> Ends(s, i, acc, pipes, r.value)
    decreases |s| + 2 - i
  {
    if i > |s| then None
    else
      var c := At(s, i);
      match t
      case Shell =>
        if Rejected(c) then Some(Fail(4, pipes))
        else if c == '\0' || c == ' ' || c == '\t' then Some(Token(acc, i, pipes, false))
        else if c == '"' then LexAsWritten(s, i + 1, Quo, acc, pipes)
        else if c == '\'' then LexAsWritten(s, i + 1, Str, acc, pipes)
        else if c == '\\' then
          (if At(s, i + 1) == '\0' then Some(Fail(4, pipes)) else LexAsWritten(s, i + 2, Shell, acc + [s[i + 1]], pipes))
        else if c == '|' then
          (if |acc| > 0 then Some(Token(acc, i, pipes, true)) else LexAsWritten(s, i + 2, Shell, acc, pipes + 1))
        else LexAsWritten(s, i + 1, Shell, acc + [c], pipes)
      case Str =>
        if c == '\0' then Some(Fail(6, pipes))
        else if c == '\'' then LexAsWritten(s, i + 1, Shell, acc, pipes)
        else LexAsWritten(s, i + 1, Str, acc + [c], pipes)
      case Quo =>
        if c == '\0' then Some(Fail(6, pipes))
        else if c == '"' then LexAsWritten(s, i + 1, Shell, acc, pipes)
        else if c == '\\' then
          var d := At(s, i + 1);
          if d == '\0' then Some(Fail(4, pipes))
          else if d == '\n' then LexAsWritten(s, i + 2, Quo, acc, pipes)
          else if d == '$' || d == '`' || d == '"' then LexAsWritten(s, i + 2, Quo, acc + [d], pipes)
          else LexAsWritten(s, i + 2, Quo, acc + ['\\', d], pipes)
        else LexAsWritten(s, i + 1, Quo, acc + [c], pipes)
  }

  /** A byte the shell state copies as it is. */
  predicate Ordinary(c: char)
  {
    !Rejected(c) && c != '\0' && c != ' ' && c != '\t' && c != '"' && c != '\'' && c != '\\' && c != '|'
  }

  /** A run of ordinary bytes in the shell state is copied by both
      tokenizers. */
  lemma {:induction false} PlainRun(s: string, i: nat, w: string, acc: string, pipes: nat)
    requires i + |w| <= |s| && s[i..i + |w|] == w
    requires forall k :: 0 <= k < |w| ==> Ordinary(w[k])
    ensures Lex(s, i, Shell, acc, pipes) == Lex(s, i + |w|, Shell, acc + w, pipes)
    ensures LexAsWritten(s, i, Shell, acc, pipes) == LexAsWritten(s, i + |w|, Shell, acc + w, pipes)
    decreases |w|
  {
    if |w| == 0 {
      assert acc + w == acc;
    } else {
      assert s[i] == w[0] && Ordinary(w[0]);
      assert s[i + 1..i + 1 + |w[1..]|] == w[1..];
      PlainRun(s, i + 1, w[1..], acc + [w[0]], pipes);
      assert acc + [w[0]] + w[1..] == acc + w;
    }
  }

  /** A NUL, space or tab in the shell state ends the token, in both
      tokenizers. */
  lemma ShellStops(s: string, i: nat, acc: string, pipes: nat)
    requires i <= |s| && (At(s, i) == '\0' || At(s, i) == ' ' || At(s, i) == '\t')
    ensures Lex(s, i, Shell, acc, pipes) == Token(acc, i, pipes, false)
    ensures LexAsWritten(s, i, Shell, acc, pipes) == Some(Token(acc, i, pipes, false))
  {
    assert !Rejected(At(s, i));
  }

  /** After a run of ordinary bytes, a byte the table rejects exits 4, in
      both tokenizers. */
  lemma RejectedAfterRun(s: string, i: nat, w: string, acc: string, pipes: nat)
    requires i + |w| < |s| && s[i..i + |w|] == w && Rejected(s[i + |w|])
    requires forall k :: 0 <= k < |w| ==> Ordinary(w[k])
    ensures Lex(s, i, Shell, acc, pipes) == Fail(4, pipes)
    ensures LexAsWritten(s, i, Shell, acc, pipes) == Some(Fail(4, pipes))
  {
    PlainRun(s, i, w, acc, pipes);
  }

  /** After a run of ordinary bytes, a backslash with nothing after it exits
      4, in both tokenizers. */
  lemma TrailingBackslash(s: string, i: nat, w: string, acc: string, pipes: nat)
    requires i + |w| < |s| && s[i..i + |w|] == w && s[i + |w|] == '\\' && At(s, i + |w| + 1) == '\0'
    requires forall k :: 0 <= k < |w| ==> Ordinary(w[k])
    ensures Lex(s, i, Shell, acc, pipes) == Fail(4, pipes)
    ensures LexAsWritten(s, i, Shell, acc, pipes) == Some(Fail(4, pipes))
  {
    PlainRun(s, i, w, acc, pipes);
  }

  /** A single-quoted string that the command never closes exits 6, in both
      tokenizers. */
  lemma {:induction false} StrUnterminated(s: string, i: nat, acc: string, pipes: nat)
    requires i <= |s| && '\'' !in s[i..]
    ensures Lex(s, i, Str, acc, pipes) == Fail(6, pipes)
    ensures LexAsWritten(s, i, Str, acc, pipes) == Some(Fail(6, pipes))
    decreases |s| - i
  {
    if At(s, i) != '\0' {
      assert s[i] == s[i..][0] && s[i + 1..] == s[i..][1..];
      StrUnterminated(s, i + 1, acc + [s[i]], pipes);
    }
  }

  /** A double-quoted string without backslashes that the command never
      closes exits 6, in both tokenizers. */
  lemma {:induction false} QuoUnterminated(s: string, i: nat, acc: string, pipes: nat)
    requires i <= |s| && '"' !in s[i..] && '\\' !in s[i..]
    ensures Lex(s, i, Quo, acc, pipes) == Fail(6, pipes)
    ensures LexAsWritten(s, i, Quo, acc, pipes) == Some(Fail(6, pipes))
    decreases |s| - i
  {
    if At(s, i) != '\0' {
      assert s[i] == s[i..][0] && s[i + 1..] == s[i..][1..];
      QuoUnterminated(s, i + 1, acc + [s[i]], pipes);
    }
  }

  /** Inside double quotes, a backslash with nothing after it exits 4, in
      both tokenizers. */
  lemma {:induction false} QuoTrailingBackslash(s: string, i: nat, j: nat, acc: string, pipes: nat)
    requires i <= j < |s| && s[j] == '\\' && At(s, j + 1) == '\0'
    requires forall k :: i <= k < j ==> s[k] != '"' && s[k] != '\\' && s[k] != '\0'
    ensures Lex(s, i, Quo, acc, pipes) == Fail(4, pipes)
    ensures LexAsWritten(s, i, Quo, acc, pipes) == Some(Fail(4, pipes))
    decreases j - i
  {
    if i < j {
      QuoTrailingBackslash(s, i + 1, j, acc + [s[i]], pipes);
    }
  }

  /** A `|` in the shell state before anything is written starts a stage:
      Lex goes on after the blanks that follow, the written code two bytes
      on. */
  lemma ShellPipeStarts(s: string, i: nat, pipes: nat)
    requires i < |s| && s[i] == '|'
    ensures Lex(s, i, Shell, [], pipes) == Lex(s, Skip(s, i + 1), Shell, [], pipes + 1)
    ensures LexAsWritten(s, i, Shell, [], pipes) == LexAsWritten(s, i + 2, Shell, [], pipes + 1)
  {
    assert !Rejected('|');
  }

  /** A word of ordinary bytes followed by a NUL, space or tab is one
      token, in both tokenizers. */
  lemma PlainWord(s: string, i: nat, w: string, acc: string, pipes: nat)
    requires i + |w| <= |s| && s[i..i + |w|] == w
    requires forall k :: 0 <= k < |w| ==> Ordinary(w[k])
    requires At(s, i + |w|) == '\0' || At(s, i + |w|) == ' ' || At(s, i + |w|) == '\t'
    ensures Lex(s, i, Shell, acc, pipes) == Token(acc + w, i + |w|, pipes, false)
    ensures LexAsWritten(s, i, Shell, acc, pipes) == Some(Token(acc + w, i + |w|, pipes, false))
  {
    PlainRun(s, i, w, acc, pipes);
    ShellStops(s, i + |w|, acc + w, pipes);
  }

  /** A word of ordinary bytes cut short by a `|` is a token that leaves the
      cursor on the `|`. */
  lemma WordBeforePipe(s: string, i: nat, w: string, pipes: nat)
    requires i + |w| < |s| && s[i..i + |w|] == w && s[i + |w|] == '|' && |w| > 0
    requires forall k :: 0 <= k < |w| ==> Ordinary(w[k])
    ensures Lex(s, i, Shell, [], pipes) == Token(w, i + |w|, pipes, true)
  {
    PlainRun(s, i, w, [], pipes);
    assert [] + w == w && !Rejected('|');
  }

  /** A `|` and then a word of ordinary bytes, the pipe starting a stage:
      Lex yields the word, the written code the word without its first
      byte. */
  lemma PipeThenWord(s: string, i: nat, w: string, pipes: nat)
    requires i + 1 + |w| <= |s| && s[i] == '|' && s[i + 1..i + 1 + |w|] == w && |w| > 0
    requires forall k :: 0 <= k < |w| ==> Ordinary(w[k])
    requires At(s, i + 1 + |w|) == '\0' || At(s, i + 1 + |w|) == ' ' || At(s, i + 1 + |w|) == '\t'
    ensures LexAsWritten(s, i, Shell, [], pipes) == Some(Token(w[1..], i + 1 + |w|, pipes + 1, false))
    ensures Lex(s, i, Shell, [], pipes) == Token(w, i + 1 + |w|, pipes + 1, false)
  {
    PipeThenWordAsWritten(s, i, w, pipes);
    ShellPipeStarts(s, i, pipes);
    assert s[i + 1] == w[0] && Skip(s, i + 1) == i + 1;
    PlainWord(s, i + 1, w, [], pipes + 1);
    assert [] + w == w;
  }

  /** The written half of PipeThenWord: the word without its first byte. */
  lemma PipeThenWordAsWritten(s: string, i: nat, w: string, pipes: nat)
    requires i + 1 + |w| <= |s| && s[i] == '|' && s[i + 1..i + 1 + |w|] == w && |w| > 0
    requires forall k :: 0 <= k < |w| ==> Ordinary(w[k])
    requires At(s, i + 1 + |w|) == '\0' || At(s, i + 1 + |w|) == ' ' || At(s, i + 1 + |w|) == '\t'
    ensures LexAsWritten(s, i, Shell, [], pipes) == Some(Token(w[1..], i + 1 + |w|, pipes + 1, false))
  {
    ShellPipeStarts(s, i, pipes);
    assert s[i + 2..i + 2 + |w[1..]|] == w[1..];
    PlainWord(s, i + 2, w[1..], [], pipes + 1);
    assert [] + w[1..] == w[1..];
  }

  /** As written, `|b` starts a stage and then yields an empty token, the
      `b` passed over, where Lex yields `b`; and a trailing `|` reads past
      the end of the command. */
  lemma PipeSkipsByteAsWritten()
    ensures LexAsWritten("|b", 0, Shell, [], 0) == Some(Token("", 2, 1, false))
    ensures Lex("|b", 0, Shell, [], 0) == Token("b", 2, 1, false)
    ensures LexAsWritten("|", 0, Shell, [], 0) == None
  {
    assert Ordinary('b') && "b"[1..] == "";
    PipeThenWord("|b", 0, "b", 0);
    ShellPipeStarts("|", 0, 0);
  }

  /** As written, after the token `echo` of `echo|cat` the next call yields
      `at`, the `c` passed over, where Lex yields `cat`. */
  lemma EchoPipeCatAsWritten()
    ensures LexAsWritten("echo|cat", 4, Shell, [], 0) == Some(Token("at", 8, 1, false))
    ensures Lex("echo|cat", 4, Shell, [], 0) == Token("cat", 8, 1, false)
  {
    assert Ordinary('c') && Ordinary('a') && Ordinary('t') && "cat"[1..] == "at";
    assert "echo|cat"[5..8] == "cat";
    PipeThenWord("echo|cat", 4, "cat", 0);
  }

  /** Every `|` from cursor i on is followed by exactly one space, tab or
      newline and then by something other than a blank: the form `a | b`. */
  predicate SpacedPipes(s: string, i: nat)
  {
    forall k :: i <= k < |s| && s[k] == '|' ==> (At(s, k + 1) == ' ' || At(s, k + 1) == '\t' || At(s, k + 1) == '\n') && !Blank(s, k + 2)
  }

  /** The written tokenizer and Lex agree on every command whose pipes are
      spaced as `a | b` (in particular on every command without a `|`): the
      byte the written code passes over is then the one blank Lex skips. */
  lemma {:induction false} AgreesOnSpacedPipes(s: string, i: nat, t: Mode, acc: string, pipes: nat)
    requires i <= |s| && SpacedPipes(s, i)
    ensures LexAsWritten(s, i, t, acc, pipes) == Some(Lex(s, i, t, acc, pipes))
    decreases |s| - i
  {
    var c := At(s, i);
    match t
    case Shell =>
      if Rejected(c) || c == '\0' || c == ' ' || c == '\t' {
      } else if c == '"' {
        AgreesOnSpacedPipes(s, i + 1, Quo, acc, pipes);
      } else if c == '\'' {
        AgreesOnSpacedPipes(s, i + 1, Str, acc, pipes);
      } else if c == '\\' {
        if At(s, i + 1) != '\0' {
          AgreesOnSpacedPipes(s, i + 2, Shell, acc + [s[i + 1]], pipes);
        }
      } else if c == '|' {
        if |acc| == 0 {
          assert Blank(s, i + 1) && !Blank(s, i + 2);
          assert Skip(s, i + 1) == i + 2;
          AgreesOnSpacedPipes(s, i + 2, Shell, acc, pipes + 1);
        }
      } else {
        AgreesOnSpacedPipes(s, i + 1, Shell, acc + [c], pipes);
      }
    case Str =>
      if c == '\0' {
      } else if c == '\'' {
        AgreesOnSpacedPipes(s, i + 1, Shell, acc, pipes);
      } else {
        AgreesOnSpacedPipes(s, i + 1, Str, acc + [c], pipes);
      }
    case Quo =>
      if c == '\0' {
      } else if c == '"' {
        AgreesOnSpacedPipes(s, i + 1, Shell, acc, pipes);
      } else if c == '\\' {
        var d := At(s, i + 1);
        if d == '\0' {
        } else if d == '\n' {
          AgreesOnSpacedPipes(s, i + 2, Quo, acc, pipes);
        } else if d == '$' || d == '`' || d == '"' {
          AgreesOnSpacedPipes(s, i + 2, Quo, acc + [d], pipes);
        } else {
          AgreesOnSpacedPipes(s, i + 2, Quo, acc + ['\\', d], pipes);
        }
      } else {
        AgreesOnSpacedPipes(s, i + 1, Quo, acc + [c], pipes);
      }
  }

  /** On the spaced form both tokenizers start the stage and read `b`. */
  lemma SpacedPipeReadsNextWord()
    ensures LexAsWritten("a | b", 2, Shell, [], 0) == Some(Token("b", 5, 1, false))
    ensures Lex("a | b", 2, Shell, [], 0) == Token("b", 5, 1, false)
  {
    var s := "a | b";
    assert !Rejected('|') && !Rejected('b');
    AgreesOnSpacedPipes(s, 2, Shell, [], 0);
    assert Skip(s, 3) == 4;
    assert Lex(s, 2, Shell, [], 0) == Lex(s, 4, Shell, [], 1);
    assert Lex(s, 4, Shell, [], 1) == Lex(s, 5, Shell, ['b'], 1);
  }

  /** A pipe that ends the command: the written code reads past the NUL,
      Lex skips the blanks after the pipe and ends an empty word there,
      where Tokenize before a token would return the null pointer. */
  lemma TrailingPipe()
    ensures LexAsWritten("a |", 2, Shell, [], 0) == None
    ensures Lex("a |", 2, Shell, [], 0) == Token("", 3, 1, false)
    ensures TokenAt("a |", 1) == Some(Token("", 3, 1, false))
    ensures TokenAt("a |", 3) == None
  {
    var s := "a |";
    assert !Rejected('|') && Skip(s, 3) == 3 && Skip(s, 1) == 2;
  }

  /** Tokenize from cursor i: None (the null pointer) at the end of the
      command, otherwise how the token from the first non-blank ends. */
  function TokenAt(s: string, i: nat): (r: Option<Lexed>)
    requires i <= |s|
    ensures r.Some? && r.value.Token? ==> i < r.value.next <= |s|
    ensures r.Some? && r.value.Token? ==> |r.value.text| < r.value.next - Skip(s, i) + 1
  {
    var j := Skip(s, i);
    if At(s, j) == '\0' then None else Some(Lex(s, j, Shell, [], 0))
  }

  /** Inside single quotes every byte up to the closing quote is copied as
      it is. */
  lemma {:induction false} SingleQuotedVerbatim(s: string, i: nat, w: string, acc: string, pipes: nat)
    requires i + |w| < |s| && s[i..i + |w|] == w && s[i + |w|] == '\''
    requires '\'' !in w && '\0' !in w
    ensures LexStr(s, i, acc, pipes) == LexShell(s, i + |w| + 1, acc + w, pipes)
    decreases |w|
  {
    if |w| == 0 {
      assert acc + w == acc;
    } else {
      assert s[i] == w[0];
      assert s[i + 1..i + 1 + |w[1..]|] == w[1..];
      SingleQuotedVerbatim(s, i + 1, w[1..], acc + [w[0]], pipes);
      assert acc + [w[0]] + w[1..] == acc + w;
    }
  }

  /** Inside double quotes every byte other than a double quote, a backslash
      or the NUL is copied as it is. */
  lemma {:induction false} DoubleQuotedVerbatim(s: string, i: nat, w: string, acc: string, pipes: nat)
    requires i + |w| < |s| && s[i..i + |w|] == w && s[i + |w|] == '"'
    requires '"' !in w && '\\' !in w && '\0' !in w
    ensures LexQuo(s, i, acc, pipes) == LexShell(s, i + |w| + 1, acc + w, pipes)
    decreases |w|
  {
    if |w| == 0 {
      assert acc + w == acc;
    } else {
      assert s[i] == w[0];
      assert s[i + 1..i + 1 + |w[1..]|] == w[1..];
      DoubleQuotedVerbatim(s, i + 1, w[1..], acc + [w[0]], pipes);
      assert acc + [w[0]] + w[1..] == acc + w;
    }
  }

  /** A single-quoted word followed by a space or the end tokenizes to the
      word itself, stopping on that space or end. */
  lemma QuotedWordTokenizes(s: string, i: nat, w: string)
    requires i + |w| + 2 <= |s|
    requires s[i] == '\'' && s[i + 1..i + 1 + |w|] == w && s[i + 1 + |w|] == '\''
    requires '\'' !in w && '\0' !in w
    requires At(s, i + |w| + 2) == ' ' || At(s, i + |w| + 2) == '\0'
    ensures TokenAt(s, i) == Some(Token(w, i + |w| + 2, 0, false))
  {
    SyntaxCharactersAccepted();
    assert At(s, i) == '\'';
    assert Skip(s, i) == i;
    assert LexShell(s, i, [], 0) == LexStr(s, i + 1, [], 0);
    SingleQuotedVerbatim(s, i + 1, w, [], 0);
    assert [] + w == w;
    var e := i + |w| + 2;
    assert !Rejected(At(s, e));
    assert LexShell(s, e, w, 0) == Token(w, e, 0, false);
  }

  /** Skip runs over spaces and tabs up to the first non-blank. */
  lemma {:induction false} SkipOver(s: string, i: nat, j: nat)
    requires i <= j <= |s| && !Blank(s, j)
    requires forall k :: i <= k < j ==> s[k] == ' ' || s[k] == '\t'
    ensures Skip(s, i) == j
    decreases j - i
  {
    if i < j {
      assert Blank(s, i);
      SkipOver(s, i + 1, j);
    }
  }

  /** A `|` that starts a stage is consumed with the blanks after it: a
      single-quoted word after them is read whole, as the first token of the
      new stage, whether it follows the `|` directly or after spaces. */
  lemma PipeThenQuotedWord(s: string, i: nat, j: nat, w: string, pipes: nat)
    requires i < j && j + |w| + 2 <= |s| && s[i] == '|'
    requires forall k :: i < k < j ==> s[k] == ' ' || s[k] == '\t'
    requires s[j] == '\'' && s[j + 1..j + 1 + |w|] == w && s[j + 1 + |w|] == '\''
    requires '\'' !in w && '\0' !in w
    requires At(s, j + |w| + 2) == ' ' || At(s, j + |w| + 2) == '\0'
    ensures LexShell(s, i, [], pipes) == Token(w, j + |w| + 2, pipes + 1, false)
  {
    SyntaxCharactersAccepted();
    assert At(s, i) == '|' && At(s, j) == '\'';
    SkipOver(s, i + 1, j);
    assert LexShell(s, i, [], pipes) == Lex(s, j, Shell, [], pipes + 1);
    assert LexShell(s, j, [], pipes + 1) == LexStr(s, j + 1, [], pipes + 1);
    SingleQuotedVerbatim(s, j + 1, w, [], pipes + 1);
    assert [] + w == w;
    var e := j + |w| + 2;
    assert !Rejected(At(s, e));
    assert LexShell(s, e, w, pipes + 1) == Token(w, e, pipes + 1, false);
  }

  /** Where a quoted word stands in a rendering. */
  lemma QuotedWordAt(s: string, i: nat, w: string)
    requires i + |w| + 3 <= |s| && s[i..i + |w| + 3] == "'" + w + "' "
    ensures s[i] == '\'' && s[i + 1..i + 1 + |w|] == w && s[i + 1 + |w|] == '\''
    ensures s[i + |w| + 2] == ' '
  {
    var t := s[i..i + |w| + 3];
    assert s[i] == t[0];
    assert t[1..1 + |w|] == w;
    forall k | 0 <= k < |w|
      ensures s[i + 1 + k] == w[k]
    {
      assert s[i + 1 + k] == t[1 + k];
    }
    assert s[i + 1..i + 1 + |w|] == w;
    assert s[i + 1 + |w|] == t[1 + |w|];
    assert s[i + |w| + 2] == t[|w| + 2];
  }

  /** A list of arguments rendered for the interpreter: each one single-quoted
      and followed by a space. */
  function Quote(ws: seq<string>): string
  {
    if |ws| == 0 then "" else "'" + ws[0] + "' " + Quote(ws[1..])
  }

  /** From cursor i, s holds the rendering of ws word by word: each word
      quoted and followed by a space, up to the end. */
  predicate QuotedAt(s: string, i: nat, ws: seq<string>)
    requires i <= |s|
    decreases |ws|
  {
    if |ws| == 0 then i == |s|
    else
      var j := i + |ws[0]| + 3;
      j <= |s| && s[i..j] == "'" + ws[0] + "' " && QuotedAt(s, j, ws[1..])
  }

  /** A rendering at cursor i is read word by word. */
  lemma {:induction false} QuotedAtFromQuote(s: string, i: nat, ws: seq<string>)
    requires i <= |s| && s[i..] == Quote(ws)
    ensures QuotedAt(s, i, ws)
    decreases |ws|
  {
    if |ws| == 0 {
      assert |s[i..]| == 0;
    } else {
      var head := "'" + ws[0] + "' ";
      var j := i + |head|;
      assert s[i..] == head + Quote(ws[1..]);
      assert s[i..j] == s[i..][..|head|] == head;
      assert s[j..] == s[i..][|head|..] == Quote(ws[1..]);
      QuotedAtFromQuote(s, j, ws[1..]);
    }
  }

  /** The words of a command, read one Tokenize call after another (pipes and
      redirections aside); None when the command is rejected. */
  function Words(s: string, i: nat): Option<seq<string>>
    requires i <= |s|
    decreases |s| - i
  {
    match TokenAt(s, i)
    case None => Some([])
    case Some(Fail(_, _)) => None
    case Some(Token(text, next, _, _)) =>
      match Words(s, next)
      case None => None
      case Some(rest) => Some([text] + rest)
  }

  lemma WordsAtEnd(s: string)
    ensures Words(s, |s|) == Some([])
  {
    assert Skip(s, |s|) == |s|;
  }

  lemma WordsAfterBlank(s: string, i: nat)
    requires i < |s| && Blank(s, i)
    ensures Words(s, i) == Words(s, i + 1)
  {
    assert Skip(s, i) == Skip(s, i + 1);
    assert TokenAt(s, i) == TokenAt(s, i + 1);
  }

  lemma WordsAfterToken(s: string, i: nat, w: string, next: nat, rest: seq<string>)
    requires i <= |s| && TokenAt(s, i) == Some(Token(w, next, 0, false))
    requires next <= |s| && Words(s, next) == Some(rest)
    ensures Words(s, i) == Some([w] + rest)
  {
  }

  /** Quoting round-trips: the words of a quoted rendering are the original
      words, whatever bytes they hold other than quotes and NULs. */
  lemma QuoteRoundTrip(s: string, i: nat, ws: seq<string>)
    requires i <= |s| && s[i..] == Quote(ws)
    requires forall k :: 0 <= k < |ws| ==> '\'' !in ws[k] && '\0' !in ws[k]
    ensures Words(s, i) == Some(ws)
  {
    QuotedAtFromQuote(s, i, ws);
    QuotedWordsFrom(s, i, ws);
  }

  /** The words read from cursor i are ws. */
  ghost predicate ReadsAs(s: string, i: nat, ws: seq<string>)
    requires i <= |s|
  {
    Words(s, i) == Some(ws)
  }

  /** The first word of a rendering, as QuotedWordsFrom uses it: the words
      after it and its space decide the words from i. */
  lemma WordsAfterFirstWord(s: string, i: nat, ws: seq<string>)
    requires i <= |s| && QuotedAt(s, i, ws) && |ws| > 0
    requires '\'' !in ws[0] && '\0' !in ws[0]
    ensures var j := i + |ws[0]| + 3; j <= |s| && QuotedAt(s, j, ws[1..])
    ensures var j := i + |ws[0]| + 3; j <= |s| && ReadsAs(s, j, ws[1..]) ==> ReadsAs(s, i, ws)
  {
    var w := ws[0];
    QuotedWordAt(s, i, w);
    QuotedWordTokenizes(s, i, w);
    var next := i + |w| + 2;
    WordsAfterBlank(s, next);
    if ReadsAs(s, next + 1, ws[1..]) {
      WordsAfterToken(s, i, w, next, ws[1..]);
      assert [w] + ws[1..] == ws;
    }
  }

  /** QuoteRoundTrip by induction on the words, one quoted word at a time. */
  lemma {:induction false} QuotedWordsFrom(s: string, i: nat, ws: seq<string>)
    requires i <= |s| && QuotedAt(s, i, ws)
    requires forall k :: 0 <= k < |ws| ==> '\'' !in ws[k] && '\0' !in ws[k]
    ensures ReadsAs(s, i, ws)
    decreases |ws|
  {
    if |ws| == 0 {
      WordsAtEnd(s);
    } else {
      WordsAfterFirstWord(s, i, ws);
      QuotedWordsFrom(s, i + |ws[0]| + 3, ws[1..]);
    }
  }

  // ---------------------------------------------------------------------------
  // Redirections
  // ---------------------------------------------------------------------------

  /** The open flags of a redirection: O_WRONLY|O_CREAT|O_APPEND,
      O_WRONLY|O_CREAT|O_TRUNC, O_RDONLY. */
  datatype OpenMode = Append | Truncate | ReadOnly

  /** What a token stands for: dup2(src, dst); opening a path on fd, the path
      following the first opLen bytes of the token or, when nothing follows
      them, being the next token; or a plain argument. */
  datatype Form =
    | Dup(src: nat, dst: nat)
    | Redirect(fd: nat, mode: OpenMode, opLen: nat)
    | Plain

  /** The classification chain of cocmd: N>&M, >&M, N>>, >>, N>, >, <, in
      that order, else a plain argument. */
  function Classify(arg: string): (f: Form)
    ensures f.Dup? ==> f.src < 10 && f.dst < 10
    ensures f.Redirect? ==> f.fd < 10 && 1 <= f.opLen <= |arg|
  {
    var c0, c1, c2, c3 := At(arg, 0), At(arg, 1), At(arg, 2), At(arg, 3);
    if IsDigit(c0) && c1 == '>' && c2 == '&' && IsDigit(c3) then Dup(DigitValue(c3), DigitValue(c0))
    else if c0 == '>' && c1 == '&' && IsDigit(c2) then Dup(DigitValue(c2), 1)
    else if IsDigit(c0) && c1 == '>' && c2 == '>' then Redirect(DigitValue(c0), Append, 3)
    else if c0 == '>' && c1 == '>' then Redirect(1, Append, 2)
    else if IsDigit(c0) && c1 == '>' then Redirect(DigitValue(c0), Truncate, 2)
    else if c0 == '>' then Redirect(1, Truncate, 1)
    else if c0 == '<' then Redirect(0, ReadOnly, 1)
    else Plain
  }

  /** A token is a plain argument exactly when it starts neither with < or >
      nor with a digit and >. */
  lemma PlainExactly(arg: string)
    ensures Classify(arg) == Plain <==>
      !(At(arg, 0) == '<' || At(arg, 0) == '>' || (IsDigit(At(arg, 0)) && At(arg, 1) == '>'))
  {
  }

  function Digit(n: nat): char
    requires n < 10
  {
    '0' + n as char
  }

  /** The shortest operator for opening on fd with a mode: the descriptor is
      left out when it is the default (1 for output), input is always fd 0. */
  function Operator(fd: nat, mode: OpenMode): string
    requires fd < 10 && (mode == ReadOnly ==> fd == 0)
  {
    match mode
    case ReadOnly => "<"
    case Append => (if fd == 1 then "" else [Digit(fd)]) + ">>"
    case Truncate => (if fd == 1 then "" else [Digit(fd)]) + ">"
  }

  /** An operator with its path attached classifies back to the same
      descriptor and mode, with the path right after the operator, unless
      a path after a lone > starts like another operator (> or &digit). */
  lemma RedirectRoundTrip(fd: nat, mode: OpenMode, path: string)
    requires fd < 10 && (mode == ReadOnly ==> fd == 0)
    requires mode == Truncate ==> At(path, 0) != '>' && !(At(path, 0) == '&' && IsDigit(At(path, 1)))
    ensures var op := Operator(fd, mode); var arg := op + path;
            Classify(arg) == Redirect(fd, mode, |op|) && arg[|op|..] == path
  {
    var op := Operator(fd, mode);
    var arg := op + path;
    assert arg[|op|..] == path;
    assert forall k :: 0 <= k < |path| ==> arg[|op| + k] == path[k];
    assert At(arg, |op|) == At(path, 0);
    assert At(arg, |op| + 1) == At(path, 1);
  }

  /** N>&M and >&M classify as dup2(M, N) and dup2(M, 1), whatever follows. */
  lemma DupRoundTrip(src: nat, dst: nat, rest: string)
    requires src < 10 && dst < 10
    ensures Classify([Digit(dst), '>', '&', Digit(src)] + rest) == Dup(src, dst)
    ensures Classify(['>', '&', Digit(src)] + rest) == Dup(src, 1)
  {
  }

  // ---------------------------------------------------------------------------
  // A whole run, as a function of the command
  // ---------------------------------------------------------------------------

  /** ARRAYLEN(args). */
  const MaxArgs: nat := 8192

  /** What the interpreter does to its process. */
  datatype Event =
    | Spawn(argv: seq<string>)                       // Pipe: a stage running argv, its output piped to us
    | Dup2(src: nat, dst: nat)                       // dup2(src, dst)
    | OpenPath(path: string, fd: nat, mode: OpenMode) // close(fd) then open(path)

  /** How the interpreter ends: an exit through Wexit, or execvp of argv. */
  datatype Outcome = Exited(code: nat) | Executed(argv: seq<string>)

  datatype Finished = Finished(outcome: Outcome, events: seq<Event>)

  /** The events of k pipeline stages started in a row: the first runs the
      arguments gathered so far, the others run no arguments. */
  function Pipes(args: seq<string>, k: nat): (e: seq<Event>)
    ensures |e| == k && (k > 0 ==> e[0] == Spawn(args))
    ensures forall j :: 1 <= j < k ==> e[j] == Spawn([])
  {
    if k == 0 then [] else Pipes(args, k - 1) + [Spawn(if k == 1 then args else [])]
  }

  /** The arguments after k stages: a stage resets them. */
  function AfterPipes(args: seq<string>, k: nat): seq<string>
  {
    if k > 0 then [] else args
  }

  /** Exec: no arguments exits 5 (too few args), otherwise execvp. */
  function Exec(args: seq<string>): Outcome
  {
    if |args| == 0 then Exited(5) else Executed(args)
  }

  /** GetRedirectArg: the rest of the token after n bytes when there is one,
      else the next token, and exit 14 when there is none. */
  function RedirectArg(s: string, i: nat, arg: string, n: nat): (r: Lexed)
    requires i <= |s| && n <= |arg|
    ensures r.Fail? ==> r.code == 4 || r.code == 6 || r.code == 14
    ensures r.Token? ==> i <= r.next <= |s|
  {
    if At(arg, n) != '\0' then Token(arg[n..], i, 0, false)
    else match TokenAt(s, i)
      case None => Fail(14, 0)
      case Some(l) => l
  }

  /** The token loop of cocmd from cursor i, then Exec. */
  function Drive(s: string, i: nat, args: seq<string>, events: seq<Event>): Finished
    requires i <= |s|
    decreases |s| - i
  {
    match TokenAt(s, i)
    case None => Finished(Exec(args), events)
    case Some(Fail(code, pipes)) => Finished(Exited(code), events + Pipes(args, pipes))
    case Some(Token(arg, next, pipes, _)) =>
      var args1, events1 := AfterPipes(args, pipes), events + Pipes(args, pipes);
      if |args1| + 1 < MaxArgs then
        match Classify(arg)
        case Plain => Drive(s, next, args1 + [arg], events1)
        case Dup(src, dst) => Drive(s, next, args1, events1 + [Dup2(src, dst)])
        case Redirect(fd, mode, n) =>
          match RedirectArg(s, next, arg, n)
          case Fail(code, pipes2) => Finished(Exited(code), events1 + Pipes(args1, pipes2))
          case Token(path, next2, pipes2, _) =>
            Drive(s, next2, AfterPipes(args1, pipes2),
                  events1 + Pipes(args1, pipes2) + [OpenPath(path, fd, mode)])
      else Finished(Exited(13), events1)
  }

  /** Every exit status of the token loop is one of 4 (unsupported syntax),
      5 (too few args), 6 (unterminated string), 13 (too many args) and
      14 (redirect missing path). */
  lemma {:induction false} DriveExitCodes(s: string, i: nat, args: seq<string>, events: seq<Event>)
    requires i <= |s|
    ensures var o := Drive(s, i, args, events).outcome;
            o.Exited? ==> o.code in {4, 5, 6, 13, 14}
    decreases |s| - i
  {
    match TokenAt(s, i)
    case None =>
    case Some(Fail(_, _)) =>
    case Some(Token(arg, next, pipes, _)) =>
      var args1, events1 := AfterPipes(args, pipes), events + Pipes(args, pipes);
      if |args1| + 1 < MaxArgs {
        match Classify(arg)
        case Plain => DriveExitCodes(s, next, args1 + [arg], events1);
        case Dup(src, dst) => DriveExitCodes(s, next, args1, events1 + [Dup2(src, dst)]);
        case Redirect(fd, mode, n) =>
          match RedirectArg(s, next, arg, n)
          case Fail(_, _) =>
          case Token(path, next2, pipes2, _) =>
            DriveExitCodes(s, next2, AfterPipes(args1, pipes2),
                           events1 + Pipes(args1, pipes2) + [OpenPath(path, fd, mode)]);
      }
  }

  /** What is executed has at least one and at most MaxArgs - 1 arguments,
      so args[n] = 0 stays inside args. */
  lemma {:induction false} DriveArgsFit(s: string, i: nat, args: seq<string>, events: seq<Event>)
    requires i <= |s| && |args| < MaxArgs
    ensures var o := Drive(s, i, args, events).outcome;
            o.Executed? ==> 0 < |o.argv| < MaxArgs
    decreases |s| - i
  {
    match TokenAt(s, i)
    case None =>
    case Some(Fail(_, _)) =>
    case Some(Token(arg, next, pipes, _)) =>
      var args1, events1 := AfterPipes(args, pipes), events + Pipes(args, pipes);
      if |args1| + 1 < MaxArgs {
        match Classify(arg)
        case Plain => DriveArgsFit(s, next, args1 + [arg], events1);
        case Dup(src, dst) => DriveArgsFit(s, next, args1, events1 + [Dup2(src, dst)]);
        case Redirect(fd, mode, n) =>
          match RedirectArg(s, next, arg, n)
          case Fail(_, _) =>
          case Token(path, next2, pipes2, _) =>
            DriveArgsFit(s, next2, AfterPipes(args1, pipes2),
                         events1 + Pipes(args1, pipes2) + [OpenPath(path, fd, mode)]);
      }
  }

  lemma DriveAtEnd(s: string, args: seq<string>, events: seq<Event>)
    ensures Drive(s, |s|, args, events) == Finished(Exec(args), events)
  {
    assert Skip(s, |s|) == |s|;
  }

  lemma DriveAfterBlank(s: string, i: nat, args: seq<string>, events: seq<Event>)
    requires i < |s| && Blank(s, i)
    ensures Drive(s, i, args, events) == Drive(s, i + 1, args, events)
  {
    assert Skip(s, i) == Skip(s, i + 1);
    assert TokenAt(s, i) == TokenAt(s, i + 1);
  }

  /** One quoted plain word is one more argument. */
  lemma DriveAfterQuotedWord(s: string, i: nat, w: string, args: seq<string>, events: seq<Event>)
    requires i + |w| + 3 <= |s| && s[i..i + |w| + 3] == "'" + w + "' "
    requires '\'' !in w && '\0' !in w && Classify(w) == Plain && |args| + 1 < MaxArgs
    ensures Drive(s, i, args, events) == Drive(s, i + |w| + 3, args + [w], events)
  {
    QuotedWordAt(s, i, w);
    QuotedWordTokenizes(s, i, w);
    var next := i + |w| + 2;
    DriveAfterBlank(s, next, args + [w], events);
    assert events + Pipes(args, 0) == events;
  }

  /** The first word of a rendering, as QuotedRunFrom uses it: the run from
      after it and its space decides the run from i. */
  lemma DriveAfterFirstWord(s: string, i: nat, args: seq<string>, events: seq<Event>, ws: seq<string>, f: Finished)
    requires i <= |s| && QuotedAt(s, i, ws) && |ws| > 0
    requires PlainQuotable(ws) && |args| + |ws| < MaxArgs
    ensures var j := i + |ws[0]| + 3;
            j <= |s| && QuotedAt(s, j, ws[1..]) && PlainQuotable(ws[1..]) && |args + [ws[0]]| + |ws[1..]| < MaxArgs
    ensures var j := i + |ws[0]| + 3;
            j <= |s| && Drive(s, j, args + [ws[0]], events) == f ==> Drive(s, i, args, events) == f
  {
    DriveAfterQuotedWord(s, i, ws[0], args, events);
  }

  /** Words a quoted rendering keeps whole, each one a plain argument. */
  predicate PlainQuotable(ws: seq<string>)
  {
    |ws| == 0 || ('\'' !in ws[0] && '\0' !in ws[0] && Classify(ws[0]) == Plain && PlainQuotable(ws[1..]))
  }

  /** A quoted rendering of plain arguments runs them: nothing is opened,
      duplicated or piped, and execvp gets the arguments gathered so far
      followed by the words (exit 5 when there are none at all). */
  lemma QuotedCommandRuns(s: string, i: nat, args: seq<string>, events: seq<Event>, ws: seq<string>)
    requires i <= |s| && s[i..] == Quote(ws)
    requires PlainQuotable(ws) && |args| + |ws| < MaxArgs
    ensures Drive(s, i, args, events) == Finished(Exec(args + ws), events)
  {
    QuotedAtFromQuote(s, i, ws);
    QuotedRunFrom(s, i, args, events, ws);
  }

  /** The token loop from cursor i execs args followed by ws, with no other
      event than those already recorded. */
  ghost predicate RunsAs(s: string, i: nat, args: seq<string>, events: seq<Event>, ws: seq<string>)
    requires i <= |s|
  {
    Drive(s, i, args, events) == Finished(Exec(args + ws), events)
  }

  /** QuotedCommandRuns by induction on the words, one quoted word at a
      time. */
  lemma {:induction false} QuotedRunFrom(s: string, i: nat, args: seq<string>, events: seq<Event>, ws: seq<string>)
    requires i <= |s| && QuotedAt(s, i, ws)
    requires PlainQuotable(ws) && |args| + |ws| < MaxArgs
    ensures RunsAs(s, i, args, events, ws)
    decreases |ws|
  {
    if |ws| == 0 {
      DriveAtEnd(s, args, events);
      assert args + ws == args;
    } else {
      var f := Finished(Exec(args + ws), events);
      DriveAfterFirstWord(s, i, args, events, ws, f);
      assert args + [ws[0]] + ws[1..] == args + ws;
      QuotedRunFrom(s, i + |ws[0]| + 3, args + [ws[0]], events, ws[1..]);
    }
  }

  /** The Tokenize calls on `echo|cat`: `echo` cut short by the `|`, then
      `cat` in a new stage, then the end. */
  lemma EchoPipeCatTokens()
    ensures TokenAt("echo|cat", 0) == Some(Token("echo", 4, 0, true))
    ensures TokenAt("echo|cat", 4) == Some(Token("cat", 8, 1, false))
    ensures TokenAt("echo|cat", 8) == None
  {
    var s := "echo|cat";
    assert Ordinary('e') && Ordinary('c') && Ordinary('h') && Ordinary('o');
    WordBeforePipe(s, 0, "echo", 0);
    EchoPipeCatAsWritten();
  }

  /** The Tokenize calls on `a | b`: `a`, then `b` in a new stage, then the
      end. */
  lemma SpacedPipeTokens()
    ensures TokenAt("a | b", 0) == Some(Token("a", 1, 0, false))
    ensures TokenAt("a | b", 1) == Some(Token("b", 5, 1, false))
    ensures TokenAt("a | b", 5) == None
  {
    var u := "a | b";
    assert !Rejected('a') && !Rejected('|');
    assert Skip(u, 0) == 0 && Skip(u, 1) == 2 && Skip(u, 5) == 5;
    assert Lex(u, 0, Shell, [], 0) == Lex(u, 1, Shell, ['a'], 0);
    SpacedPipeReadsNextWord();
  }

  /** One plain token: the stages before it are started, and it joins the
      arguments of the current stage. */
  lemma DrivePlainStep(s: string, i: nat, args: seq<string>, events: seq<Event>, w: string, next: nat, pipes: nat, atPipe: bool)
    requires i <= |s| && TokenAt(s, i) == Some(Token(w, next, pipes, atPipe))
    requires Classify(w) == Plain && |AfterPipes(args, pipes)| + 1 < MaxArgs
    ensures next <= |s|
    ensures Drive(s, i, args, events) == Drive(s, next, AfterPipes(args, pipes) + [w], events + Pipes(args, pipes))
  {
  }

  /** Two-stage pipelines, unspaced and spaced: the first stage runs `echo`
      (or `a`) with its output piped to the interpreter, which then execs
      `cat` (or `b`). */
  lemma PipelinesRun()
    ensures Drive("echo|cat", 0, [], []) == Finished(Executed(["cat"]), [Spawn(["echo"])])
    ensures Drive("a | b", 0, [], []) == Finished(Executed(["b"]), [Spawn(["a"])])
  {
    var s, u := "echo|cat", "a | b";
    var spawnEcho, spawnA: seq<Event> := [Spawn(["echo"])], [Spawn(["a"])];
    EchoPipeCatTokens();
    PlainExactly("echo");
    PlainExactly("cat");
    assert [] + ["echo"] == ["echo"] && [] + Pipes([], 0) == [];
    DrivePlainStep(s, 0, [], [], "echo", 4, 0, true);
    assert AfterPipes(["echo"], 1) + ["cat"] == ["cat"] && [] + Pipes(["echo"], 1) == spawnEcho;
    DrivePlainStep(s, 4, ["echo"], [], "cat", 8, 1, false);
    assert Drive(s, 8, ["cat"], spawnEcho) == Finished(Executed(["cat"]), spawnEcho);
    SpacedPipeTokens();
    PlainExactly("a");
    PlainExactly("b");
    assert [] + ["a"] == ["a"];
    DrivePlainStep(u, 0, [], [], "a", 1, 0, false);
    assert AfterPipes(["a"], 1) + ["b"] == ["b"] && [] + Pipes(["a"], 1) == spawnA;
    DrivePlainStep(u, 1, ["a"], [], "b", 5, 1, false);
    assert Drive(u, 5, ["b"], spawnA) == Finished(Executed(["b"]), spawnA);
  }

  // ---------------------------------------------------------------------------
  // The interpreter's state and its loops
  // ---------------------------------------------------------------------------

  /** What one Tokenize call hands back: the null pointer, a token (a pointer
      into argbuf), or the exit status of Wexit. */
  datatype Tok = NoToken | Word(text: string) | Stop(code: nat)

  function Project(r: Option<Lexed>): Tok
  {
    match r
    case None => NoToken
    case Some(Fail(code, _)) => Stop(code)
    case Some(Token(text, _, _, _)) => Word(text)
  }

  /** The globals of cocmd.c: the command and the cursor p into it, the
      output buffer argbuf and the cursor q into it, the argument list, the
      unsupported table; and the events so far. */
  class Interpreter {
    const cmd: string
    const argbuf: array<char>
    const unsupported: array<bool>
    var p: nat
    var q: nat
    var args: seq<string>
    var events: seq<Event>

    /** The table is filled in; the command fits argbuf (the length check);
        q runs at most one byte ahead of p, and only just after a token that
        ended on its NUL, space or tab; there is room for the terminating
        null pointer of args. */
    ghost predicate Valid()
      reads this, unsupported
    {
      TableFilled() && |cmd| < argbuf.Length && p <= |cmd| && q <= p + 1
      && (q == p + 1 ==> At(cmd, p) == '\0' || At(cmd, p) == ' ' || At(cmd, p) == '\t')
      && |args| < MaxArgs
    }

    ghost predicate TableFilled()
      reads this, unsupported
    {
      unsupported.Length == 256 && forall b :: 0 <= b < 256 ==> unsupported[b] == UnsupportedByte(b)
    }

    /** What every pass of Tokenize's loop keeps: the token so far sits in
        argbuf from r0 to q, q stays at or behind p, and Lex from the current
        state still ends as the whole call does (goal); a0 and e0 are the
        arguments and events before the call. */
    ghost predicate Scanning(r0: nat, t: Mode, pipes: nat, goal: Lexed, a0: seq<string>, e0: seq<Event>)
      reads this, argbuf
    {
      p <= |cmd| && r0 <= q <= p && |cmd| < argbuf.Length
      && Lex(cmd, p, t, argbuf[r0..q], pipes) == goal
      && args == AfterPipes(a0, pipes) && events == e0 + Pipes(a0, pipes)
    }

    /** Tokenize's results: what the call hands back is goal's, and after a
        token the state is valid, p stands where the token stopped, and the
        stages it started are recorded. */
    ghost predicate Finishes(r: Tok, goal: Lexed, a0: seq<string>, e0: seq<Event>)
      reads this, unsupported
    {
      r == Project(Some(goal))
      && args == AfterPipes(a0, goal.pipes) && events == e0 + Pipes(a0, goal.pipes)
      && (r.Word? ==> goal.Token? && Valid() && p == goal.next)
    }

    /** `p = cmd`, `n = 0`, `q = argbuf`, once the table is filled and the
        length check has passed. */
    constructor(cmd: string, argbuf: array<char>, unsupported: array<bool>)
      requires |cmd| < argbuf.Length
      requires unsupported.Length == 256 && forall b :: 0 <= b < 256 ==> unsupported[b] == UnsupportedByte(b)
      ensures Valid()
      ensures this.cmd == cmd && this.argbuf == argbuf && this.unsupported == unsupported
      ensures p == 0 && q == 0 && args == [] && events == []
    {
      this.cmd := cmd;
      this.argbuf := argbuf;
      this.unsupported := unsupported;
      p := 0;
      q := 0;
      args := [];
      events := [];
    }

    /** Pipe: a stage runs the arguments so far with its output piped to
        this process, and the argument count goes back to 0. */
    method Pipe()
      modifies this
      ensures events == old(events) + [Spawn(old(args))] && args == []
      ensures p == old(p) && q == old(q)
    {
      events := events + [Spawn(args)];
      args := [];
    }

    /** The blank-skipping loop of Tokenize: p moves past spaces, tabs,
        newlines and backslash-newline pairs. */
    method SkipBlanks()
      requires p <= |cmd|
      modifies this`p
      ensures old(p) <= p && p == Skip(cmd, old(p))
    {
      while Blank(cmd, p)
        invariant old(p) <= p <= |cmd| && Skip(cmd, p) == Skip(cmd, old(p))
        decreases |cmd| - p
      {
        p := p + 1;
      }
    }

    /** Tokenize, proved against TokenAt: the same result, the cursor left
        where TokenAt stops, and the stages it started recorded. The token is
        read back from argbuf between its start and its NUL. */
    method Tokenize() returns (r: Tok)
      requires Valid()
      modifies this, argbuf
      ensures r == Project(TokenAt(cmd, old(p)))
      ensures r.NoToken? ==> Valid() && args == old(args) && events == old(events)
      ensures !r.NoToken? ==> var l := TokenAt(cmd, old(p)).value;
              args == AfterPipes(old(args), l.pipes) && events == old(events) + Pipes(old(args), l.pipes)
              && (r.Word? ==> Valid() && p == l.next)
    {
      SkipBlanks();
      if At(cmd, p) == '\0' {
        return NoToken;
      }
      ghost var goal := Lex(cmd, p, Shell, [], 0);
      ghost var pipes: nat := 0;
      var r0 := q;
      var t := Shell;
      assert argbuf[r0..q] == [];
      while true
        invariant TableFilled()
        invariant Scanning(r0, t, pipes, goal, old(args), old(events))
        decreases |cmd| - p
      {
        var done;
        if t == Shell {
          t, pipes, done, r := ShellStep(r0, pipes, goal, old(args), old(events));
        } else if t == Str {
          t, done, r := StrStep(r0, pipes, goal, old(args), old(events));
        } else {
          t, done, r := QuoStep(r0, pipes, goal, old(args), old(events));
        }
        if done {
          return;
        }
      }
    }

    /** GetRedirectArg: the rest of the token after its n-byte operator,
        else the next token, else exit 14. */
    method GetRedirectArg(arg: string, n: nat) returns (r: Tok)
      requires Valid() && n <= |arg|
      modifies this, argbuf
      ensures r == Project(Some(RedirectArg(cmd, old(p), arg, n)))
      ensures var l := RedirectArg(cmd, old(p), arg, n);
              args == AfterPipes(old(args), l.pipes) && events == old(events) + Pipes(old(args), l.pipes)
              && (r.Word? ==> Valid() && p == l.next)
    {
      if At(arg, n) != '\0' {
        return Word(arg[n..]);
      }
      r := Tokenize();
      if r.NoToken? {
        r := Stop(14);
      }
    }

    /** The token loop of cocmd and the Exec after it, proved against
        Drive: the same outcome and the same events. */
    method Interpret() returns (f: Finished)
      requires Valid()
      modifies this, argbuf
      ensures f == Drive(cmd, old(p), old(args), old(events))
    {
      while true
        invariant Valid()
        invariant Drive(cmd, p, args, events) == Drive(cmd, old(p), old(args), old(events))
        decreases |cmd| - p
      {
        ghost var p0, a0, e0 := p, args, events;
        var tok := Tokenize();
        if tok.NoToken? {
          return Finished(Exec(args), events);
        } else if tok.Stop? {
          return Finished(Exited(tok.code), events);
        }
        var arg := tok.text;
        if |args| + 1 < MaxArgs {
          match Classify(arg)
          case Plain =>
            args := args + [arg];
          case Dup(src, dst) =>
            events := events + [Dup2(src, dst)];
          case Redirect(fd, mode, n) =>
            var path := GetRedirectArg(arg, n);
            if path.Stop? {
              return Finished(Exited(path.code), events);
            }
            events := events + [OpenPath(path.text, fd, mode)];
        } else {
          return Finished(Exited(13), events);
        }
      }
    }

    /** `*q++ = c`: one more byte of the token. */
    method Put(ghost r0: nat, c: char)
      requires r0 <= q < argbuf.Length
      modifies argbuf, this`q
      ensures q == old(q) + 1 && argbuf[r0..q] == old(argbuf[r0..q]) + [c]
    {
      argbuf[q] := c;
      q := q + 1;
      assert argbuf[r0..q] == old(argbuf[r0..q]) + [c];
    }

    /** `*q = 0`: the token ends; it is what argbuf holds from r0 to q. */
    method Terminate(r0: nat) returns (w: string)
      requires r0 <= q < argbuf.Length
      modifies argbuf
      ensures w == old(argbuf[r0..q]) && argbuf[r0..q] == w
    {
      argbuf[q] := '\0';
      w := argbuf[r0..q];
      assert w == old(argbuf[r0..q]);
    }

    /** A `|` before anything is written: the stage so far is spawned, and
        p steps over the `|` and the blanks after it. */
    method StartStage(r0: nat, ghost pipes: nat, ghost goal: Lexed, ghost a0: seq<string>, ghost e0: seq<Event>)
      returns (ghost pipes': nat)
      requires Scanning(r0, Shell, pipes, goal, a0, e0) && q == r0 && At(cmd, p) == '|'
      modifies this
      ensures Scanning(r0, Shell, pipes', goal, a0, e0) && old(p) < p && q == old(q)
    {
      assert argbuf[r0..q] == [] && !Rejected('|');
      assert goal == LexShell(cmd, p, [], pipes);
      assert goal == Lex(cmd, Skip(cmd, p + 1), Shell, [], pipes + 1);
      Pipe();
      pipes' := pipes + 1;
      p := p + 1;
      SkipBlanks();
    }

    /** One pass of STATE_SHELL. */
    method ShellStep(r0: nat, ghost pipes: nat, ghost goal: Lexed, ghost a0: seq<string>, ghost e0: seq<Event>)
      returns (t: Mode, ghost pipes': nat, done: bool, r: Tok)
      requires TableFilled() && |a0| < MaxArgs && Scanning(r0, Shell, pipes, goal, a0, e0)
      modifies this, argbuf
      ensures done ==> Finishes(r, goal, a0, e0)
      ensures !done ==> Scanning(r0, t, pipes', goal, a0, e0) && old(p) < p
    {
      ghost var acc := argbuf[r0..q];
      assert goal == LexShell(cmd, p, acc, pipes);
      var c := At(cmd, p);
      t, pipes', done, r := Shell, pipes, false, NoToken;
      if c as int < 256 && unsupported[c as int] {
        return Shell, pipes, true, Stop(4);
      }
      if c == '\0' || c == ' ' || c == '\t' {
        var w := Terminate(r0);
        r := Word(w);
        q := q + 1;
        done := true;
      } else if c == '"' {
        t := Quo;
        p := p + 1;
      } else if c == '\'' {
        t := Str;
        p := p + 1;
      } else if c == '\\' {
        if At(cmd, p + 1) == '\0' {
          return Shell, pipes, true, Stop(4);
        }
        Put(r0, cmd[p + 1]);
        p := p + 2;
      } else if c == '|' {
        if q > r0 {
          var w := Terminate(r0);
          r := Word(w);
          done := true;
        } else {
          pipes' := StartStage(r0, pipes, goal, a0, e0);
        }
      } else {
        Put(r0, c);
        p := p + 1;
      }
    }

    /** One pass of STATE_STR. */
    method StrStep(r0: nat, ghost pipes: nat, ghost goal: Lexed, ghost a0: seq<string>, ghost e0: seq<Event>)
      returns (t: Mode, done: bool, r: Tok)
      requires |a0| < MaxArgs && Scanning(r0, Str, pipes, goal, a0, e0)
      modifies this, argbuf
      ensures done ==> Finishes(r, goal, a0, e0)
      ensures !done ==> Scanning(r0, t, pipes, goal, a0, e0) && old(p) < p
    {
      ghost var acc := argbuf[r0..q];
      assert goal == LexStr(cmd, p, acc, pipes);
      var c := At(cmd, p);
      t, done, r := Str, false, NoToken;
      if c == '\0' {
        return Str, true, Stop(6);
      }
      if c == '\'' {
        t := Shell;
      } else {
        Put(r0, c);
      }
      p := p + 1;
    }

    /** A backslash inside double quotes before another byte: a newline is
        dropped with it, `$`, a backquote or `"` is written alone, anything
        else is written with the backslash; p steps over both. */
    method QuoEscape(r0: nat, ghost pipes: nat, ghost goal: Lexed, ghost a0: seq<string>, ghost e0: seq<Event>)
      requires Scanning(r0, Quo, pipes, goal, a0, e0) && At(cmd, p) == '\\' && At(cmd, p + 1) != '\0'
      modifies this`p, this`q, argbuf
      ensures Scanning(r0, Quo, pipes, goal, a0, e0) && p == old(p) + 2
    {
      ghost var acc := argbuf[r0..q];
      assert goal == LexQuo(cmd, p, acc, pipes);
      var d := At(cmd, p + 1);
      if d == '\n' {
      } else if d == '$' || d == '`' || d == '"' {
        Put(r0, d);
      } else {
        Put(r0, '\\');
        Put(r0, d);
        assert argbuf[r0..q] == acc + ['\\', d];
      }
      p := p + 2;
    }

    /** One pass of STATE_QUO. */
    method QuoStep(r0: nat, ghost pipes: nat, ghost goal: Lexed, ghost a0: seq<string>, ghost e0: seq<Event>)
      returns (t: Mode, done: bool, r: Tok)
      requires |a0| < MaxArgs && Scanning(r0, Quo, pipes, goal, a0, e0)
      modifies this, argbuf
      ensures done ==> Finishes(r, goal, a0, e0)
      ensures !done ==> Scanning(r0, t, pipes, goal, a0, e0) && old(p) < p
    {
      ghost var acc := argbuf[r0..q];
      assert goal == LexQuo(cmd, p, acc, pipes);
      var c := At(cmd, p);
      t, done, r := Quo, false, NoToken;
      if c == '\0' {
        return Quo, true, Stop(6);
      }
      if c == '"' {
        t := Shell;
        p := p + 1;
      } else if c == '\\' {
        if At(cmd, p + 1) == '\0' {
          return Quo, true, Stop(4);
        }
        QuoEscape(r0, pipes, goal, a0, e0);
      } else {
        Put(r0, c);
        p := p + 1;
      }
    }
  }

  /** cocmd: fill the table, check the arguments (exit 10 unless there are
      three, 11 unless the second is -c, 12 when the command does not fit
      argbuf, whose size argMax stands for ARG_MAX), then run the token loop. */
  method Cocmd(argv: seq<string>, argMax: nat) returns (f: Finished)
    ensures |argv| != 3 ==> f == Finished(Exited(10), [])
    ensures |argv| == 3 && argv[1] != "-c" ==> f == Finished(Exited(11), [])
    ensures |argv| == 3 && argv[1] == "-c" && |argv[2]| >= argMax ==> f == Finished(Exited(12), [])
    ensures |argv| == 3 && argv[1] == "-c" && |argv[2]| < argMax ==> f == Drive(argv[2], 0, [], [])
  {
    var table := InitUnsupported();
    if |argv| != 3 {
      return Finished(Exited(10), []);
    }
    if argv[1] != "-c" {
      return Finished(Exited(11), []);
    }
    var cmd := argv[2];
    if |cmd| >= argMax {
      return Finished(Exited(12), []);
    }
    var argbuf := new char[argMax];
    var interp := new Interpreter(cmd, argbuf, table);
    f := interp.Interpret();
  }
}
