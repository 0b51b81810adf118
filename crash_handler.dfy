/**
 * The decisions around the crash report of libc/log/oncrash_amd64.c: the test
 * that labels a fault "Stack Overflow", the assembly of the report buffer,
 * the argv line, RaiseCrash, and the handler's choice between handing off to
 * an attached debugger and reporting then re-raising.
 *
 * What the handler does to the outside world (printing, tracing switches,
 * signal masks, kill, exit) is recorded as a sequence of events; the calls
 * that only read the world (IsDebuggerPresent, the stack address, the page
 * size) are parameters.
 */
module CrashHandler {
  import opened Wrappers
  import opened CrashReport

  // ---------------------------------------------------------------------------
  // The "Stack Overflow" label
  // ---------------------------------------------------------------------------

  /** The fault is a stack overflow when there is a context and its stack
      pointer lies in [stack, stack + pagesize], both ends included. */
  predicate IsStackOverflow(ctx: Option<Context>, stack: nat, pageSize: nat)
    requires ctx.Some? ==> ValidContext(ctx.value)
  {
    ctx.Some? && stack <= ctx.value.gregs[RegRsp] <= stack + pageSize
  }

  /** The description printed after the signal name: "Stack Overflow" for a
      stack overflow, otherwise the description of the si_code. */
  function FaultLabel(ctx: Option<Context>, stack: nat, pageSize: nat, siCodeText: string): string
    requires ctx.Some? ==> ValidContext(ctx.value)
  {
    if IsStackOverflow(ctx, stack, pageSize) then "Stack Overflow" else siCodeText
  }

  /** Without a context the label is always the si_code description. */
  lemma NoContextNoOverflow(stack: nat, pageSize: nat, siCodeText: string)
    ensures FaultLabel(None, stack, pageSize, siCodeText) == siCodeText
  {
  }

  /** The window is closed at both ends: a stack pointer at the stack
      address or exactly one page above it is labelled, one byte below or one
      byte beyond the page is not. */
  lemma OverflowWindowEnds(c: Context, stack: nat, pageSize: nat, siCodeText: string)
    requires ValidContext(c)
    ensures c.gregs[RegRsp] == stack ==> FaultLabel(Some(c), stack, pageSize, siCodeText) == "Stack Overflow"
    ensures c.gregs[RegRsp] == stack + pageSize ==> FaultLabel(Some(c), stack, pageSize, siCodeText) == "Stack Overflow"
    ensures c.gregs[RegRsp] + 1 == stack ==> FaultLabel(Some(c), stack, pageSize, siCodeText) == siCodeText
    ensures c.gregs[RegRsp] == stack + pageSize + 1 ==> FaultLabel(Some(c), stack, pageSize, siCodeText) == siCodeText
  {
  }

  // ---------------------------------------------------------------------------
  // The report buffer
  // ---------------------------------------------------------------------------

  /** What follows the header in buf: with a context the register block, the
      SSE block and a newline; without one a newline. */
  function ReportTail(ctx: Option<Context>): (s: string)
    requires ctx.Some? ==> ValidContext(ctx.value)
    ensures |s| <= MaxReportTail
  {
    match ctx
    case None => "\n"
    case Some(c) =>
      SseTextLength(c);
      RegistersText(c) + SseText(c) + "\n"
  }

  const MaxReportTail: nat := MaxGregsText + MaxFlagsText + 1 + (1 + 78 * 8) + 1

  /** `char buf[3000]` of ShowCrashReport. */
  const ReportBufSize: nat := 3000

  /** The limit ShowCrashReport passes to ksnprintf for the header. */
  const HeaderLimit: nat := 10000

  /** The room buf leaves for the header once the longest tail is kept. */
  const HeaderRoom: nat := ReportBufSize - MaxReportTail

  /** What a formatter given limit n stores of a text: at most n - 1 bytes,
      the last byte of the limit holding the NUL. */
  function Formatted(text: string, n: nat): (h: string)
    requires n > 0
    ensures |h| < n && h <= text
    ensures |text| < n ==> h == text
  {
    if |text| < n then text else text[..n - 1]
  }

  /** What ksnprintf returns and `p +=` adds: the length of the whole text,
      whether or not the limit let all of it be stored, as snprintf does. */
  function FormatterCount(text: string): (k: nat)
    ensures forall n :: n > 0 ==> |Formatted(text, n)| <= k
  {
    |text|
  }

  /** The corrected cursor step: the formatter's count clamped to what a
      limit of n stores. */
  function ClampedCount(count: nat, n: nat): (k: nat)
    requires n > 0
    ensures k < n && k <= count
    ensures count < n ==> k == count
  {
    if count < n then count else n - 1
  }

  /** The clamped count is exactly the length of what was stored, so the
      cursor lands on the header's NUL. */
  lemma ClampedCountIsStored(text: string, n: nat)
    requires n > 0
    ensures ClampedCount(FormatterCount(text), n) == |Formatted(text, n)|
  {
  }

  /** As written, the cursor advances by the formatter's count: a header
      text of 3000 bytes or more puts it at or past the end of buf, whatever
      the limit let the formatter store, so the register text and the newline
      are written outside buf. */
  lemma CursorOverrunsAsWritten(text: string, n: nat)
    requires n > 0 && |text| >= ReportBufSize
    ensures FormatterCount(text) >= ReportBufSize
    ensures n <= ReportBufSize ==> |Formatted(text, n)| < FormatterCount(text)
  {
  }

  /** As written, the header is bounded by the 10000 of the ksnprintf call
      and not by the 3000 of buf: a header text of 3000 bytes or more (a long
      program_invocation_name makes one) is stored whole, and the report
      written after it runs past the end of buf. */
  lemma HeaderOverrunsAsWritten(text: string, ctx: Option<Context>)
    requires ctx.Some? ==> ValidContext(ctx.value)
    requires ReportBufSize <= |text| < HeaderLimit
    ensures Formatted(text, HeaderLimit) == text
    ensures |Formatted(text, HeaderLimit) + ReportTail(ctx)| > ReportBufSize
  {
    assert |ReportTail(ctx)| >= 1;
  }

  /** With the header bounded by the room buf leaves and the cursor clamped
      to what was stored, the whole report fits in buf, whatever the header
      text and the context. */
  lemma ReportFits(text: string, ctx: Option<Context>)
    requires ctx.Some? ==> ValidContext(ctx.value)
    ensures |Formatted(text, HeaderRoom) + ReportTail(ctx)| < ReportBufSize
    ensures ClampedCount(FormatterCount(text), HeaderRoom) + |ReportTail(ctx)| < ReportBufSize
  {
    ClampedCountIsStored(text, HeaderRoom);
  }

  /** The part of ShowCrashReport that fills buf before klog: the formatted
      header, bounded by the room buf leaves, the cursor advanced by the
      formatter's count clamped to what was stored, then the tail. The
      header's text comes from ksnprintf and is a parameter. Returns the
      length handed to klog. */
  method FillReport(buf: array<char>, text: string, ctx: Option<Context>) returns (n: nat)
    requires ctx.Some? ==> ValidContext(ctx.value)
    requires buf.Length == ReportBufSize
    modifies buf
    ensures n == |Formatted(text, HeaderRoom)| + |ReportTail(ctx)| && n < ReportBufSize
    ensures buf[..n] == Formatted(text, HeaderRoom) + ReportTail(ctx)
  {
    var header := Formatted(text, HeaderRoom);
    var stored := Emit(buf, 0, 0, header);
    var p := ClampedCount(FormatterCount(text), HeaderRoom);
    ClampedCountIsStored(text, HeaderRoom);
    assert buf[0..p] == header;
    if ctx.Some? {
      var c := ctx.value;
      SseTextLength(c);
      p := ShowGeneralRegistersFixed(buf, 0, p, c);
      p := ShowSseRegisters(buf, 0, p, c);
      p := Emit(buf, 0, p, "\n");
      Assoc(header, RegistersText(c), SseText(c));
      Assoc(header, RegistersText(c) + SseText(c), "\n");
    } else {
      p := Emit(buf, 0, p, "\n");
    }
    n := p;
    assert buf[..n] == buf[0..n];
  }

  /** The tail without a context is one newline; with one it holds exactly 1 + 8 * 78 more characters when the
      FPU state is there than when it is not. */
  lemma ReportTailShape(c: Context)
    requires ValidContext(c)
    ensures ReportTail(None) == "\n"
    ensures |ReportTail(Some(c))| == |RegistersText(c)| + 1 + (if c.fpregs.Some? then 1 + 8 * 78 else 0)
  {
    SseTextLength(c);
  }

  // ---------------------------------------------------------------------------
  // The argv line
  // ---------------------------------------------------------------------------

  /** The arguments as printed: each present one followed by a space, null
      entries skipped. */
  function ArgvText(argv: seq<Option<string>>): string
  {
    if |argv| == 0 then ""
    else ArgvText(argv[..|argv| - 1]) + (match argv[|argv| - 1] case None => "" case Some(a) => a + " ")
  }

  /** The argv loop of ShowCrashReport and the newline after it (printed
      whether or not there is an argv). */
  method PrintArgv(argv: Option<seq<Option<string>>>) returns (out: string)
    ensures out == (if argv.Some? then ArgvText(argv.value) else "") + "\n"
  {
    out := "";
    if argv.Some? {
      var args := argv.value;
      var i := 0;
      while i < |args|
        invariant 0 <= i <= |args|
        invariant out == ArgvText(args[..i])
      {
        assert args[..i + 1][..i] == args[..i];
        if args[i].Some? {
          out := out + args[i].value + " ";
        }
        i := i + 1;
      }
      assert args[..|args|] == args;
    }
    out := out + "\n";
  }

  /** The argv text of two runs of arguments is the text of each in turn. */
  lemma {:induction false} ArgvTextAppend(xs: seq<Option<string>>, ys: seq<Option<string>>)
    ensures ArgvText(xs + ys) == ArgvText(xs) + ArgvText(ys)
    decreases |ys|
  {
    if |ys| > 0 {
      var init, last := ys[..|ys| - 1], ys[|ys| - 1];
      assert (xs + ys)[..|xs + ys| - 1] == xs + init;
      assert (xs + ys)[|xs + ys| - 1] == last;
      ArgvTextAppend(xs, init);
      var t: string := match last case None => "" case Some(a) => a + " ";
      Assoc(ArgvText(xs), ArgvText(init), t);
    } else {
      assert xs + ys == xs;
    }
  }

  /** A null entry prints nothing. */
  lemma NullSkipped(xs: seq<Option<string>>, ys: seq<Option<string>>)
    ensures ArgvText(xs + [None] + ys) == ArgvText(xs + ys)
  {
    ArgvTextAppend(xs + [None], ys);
    var none: seq<Option<string>> := [None];
    ArgvTextAppend(xs, none);
    assert none[..0] == [];
    ArgvTextAppend(xs, ys);
  }

  /** A present entry prints as itself and one space, wherever it stands. */
  lemma PresentPrinted(xs: seq<Option<string>>, a: string, ys: seq<Option<string>>)
    ensures ArgvText(xs + [Some(a)] + ys) == ArgvText(xs) + a + " " + ArgvText(ys)
  {
    ArgvTextAppend(xs + [Some(a)], ys);
    ArgvTextAppend(xs, [Some(a)]);
    assert [Some(a)][..0] == [];
    Assoc(ArgvText(xs), a, " ");
  }

  // ---------------------------------------------------------------------------
  // The handler
  // ---------------------------------------------------------------------------

  const SIGQUIT: int := 3
  const SIGTRAP: int := 5

  /** What the handler does that the outside world sees. */
  datatype Event =
    | VitalLine(sig: int)     // the one-line kprintf summary
    | FtraceOff               // ftrace_enabled(-1)
    | StraceOff               // strace_enabled(-1)
    | DebugBreak              // a breakpoint for the attached debugger
    | RestoreTty              // __restore_tty
    | Report(sig: int)        // ShowCrashReport
    | MaskAllBut(sig: int)    // sigprocmask with every signal blocked but sig
    | DefaultAction(sig: int) // signal(sig, SIG_DFL)
    | Kill(sig: int)          // kill(getpid(), sig)
    | Exit(status: int)       // _Exit

  /** RaiseCrash: unblock only sig, restore its default action, send it to
      the process, and exit with 128 + sig should that return. */
  function RaiseCrash(sig: int): (events: seq<Event>)
    ensures |events| == 4 && events[|events| - 1] == Exit(128 + sig)
  {
    [MaskAllBut(sig), DefaultAction(sig), Kill(sig), Exit(128 + sig)]
  }

  /** The handler hands off to the debugger, and stops there, when one with a
      positive pid is attached and the signal is SIGTRAP or SIGQUIT. */
  predicate HandsOff(sig: int, gdbpid: int)
  {
    gdbpid > 0 && (sig == SIGTRAP || sig == SIGQUIT)
  }

  /** __oncrash_amd64, given the signal and what IsDebuggerPresent returned. */
  function OnCrash(sig: int, gdbpid: int): seq<Event>
  {
    [VitalLine(sig), FtraceOff, StraceOff]
    + (if gdbpid != 0 then [DebugBreak] else [])
    + (if !HandsOff(sig, gdbpid) then [RestoreTty, Report(sig)] + RaiseCrash(sig) else [])
  }

  /** The vital line comes first, then tracing is switched off, before the
      debugger or the report is touched. */
  lemma VitalLineThenTracingOff(sig: int, gdbpid: int)
    ensures var e := OnCrash(sig, gdbpid);
            |e| >= 3 && e[0] == VitalLine(sig) && e[1] == FtraceOff && e[2] == StraceOff
            && forall i :: 0 <= i < |e| && e[i].Report? ==> i > 2
  {
  }

  /** The report is shown exactly when the handler does not hand off, and
      a breakpoint is raised exactly when IsDebuggerPresent gave a pid. */
  lemma ReportUnlessHandOff(sig: int, gdbpid: int)
    ensures Report(sig) in OnCrash(sig, gdbpid) <==> !HandsOff(sig, gdbpid)
    ensures DebugBreak in OnCrash(sig, gdbpid) <==> gdbpid != 0
  {
    var e := OnCrash(sig, gdbpid);
    var head: seq<Event> := [VitalLine(sig), FtraceOff, StraceOff] + (if gdbpid != 0 then [DebugBreak] else []);
    assert Report(sig) !in head;
    if !HandsOff(sig, gdbpid) {
      assert e[|head| + 1] == Report(sig);
    }
    if gdbpid != 0 {
      assert e[3] == DebugBreak;
    }
  }

  /** A reported crash never returns from the handler: it ends by sending the
      signal with its default action restored and, failing that, exiting
      with 128 + sig. */
  lemma ReportedCrashEndsInExit(sig: int, gdbpid: int)
    requires !HandsOff(sig, gdbpid)
    ensures var e := OnCrash(sig, gdbpid);
            e[|e| - 1] == Exit(128 + sig) && e[|e| - 2] == Kill(sig) && e[|e| - 3] == DefaultAction(sig)
  {
  }

  /** A handed-off crash returns to the debugger right after the breakpoint,
      with nothing shown and nothing raised. */
  lemma HandOffStopsAtBreak(sig: int, gdbpid: int)
    requires HandsOff(sig, gdbpid)
    ensures OnCrash(sig, gdbpid) == [VitalLine(sig), FtraceOff, StraceOff, DebugBreak]
  {
  }
}
