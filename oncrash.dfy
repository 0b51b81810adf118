/**
 * The text of the crash report of libc/log/oncrash_amd64.c: the fixed-width
 * hex writer, the CPU/FPU flag mnemonics, the x87 register values, and the
 * general-purpose and SSE register blocks, all written through a cursor into
 * a caller's character buffer.
 *
 * A `char *p` cursor is an index into an `array<char>`; every writer states
 * the text between the start of the block being built and the new cursor,
 * what it leaves right after (a NUL where the source's stpcpy or HexCpy puts
 * one), and that the buffer before that block is unchanged.
 */
module CrashReport {
  import opened Wrappers

  // ---------------------------------------------------------------------------
  // Arithmetic used to read bits and hex digits out of register values
  // ---------------------------------------------------------------------------

  /** x >> 4n for a non-negative x: n hex digits shifted out. */
  function ShrHex(x: nat, n: nat): nat
  {
    if n == 0 then x else ShrHex(x / 16, n - 1)
  }

  lemma {:induction false} ShrHexStep(x: nat, n: nat)
    ensures ShrHex(x, n + 1) == ShrHex(x, n) / 16
  {
    if n > 0 {
      ShrHexStep(x / 16, n - 1);
    }
  }

  /** v >> n with an arithmetic shift (floor division by 2 per bit). */
  function Sar(v: int, n: nat): int
    decreases n
  {
    if n == 0 then v else Sar(v / 2, n - 1)
  }

  lemma {:induction false} SarStep(v: int, n: nat)
    ensures Sar(v, n + 1) == Sar(v, n) / 2
    decreases n
  {
    if n > 0 {
      SarStep(v / 2, n - 1);
    }
  }

  /** Bit i of v in two's complement: (v >> i) & 1. */
  predicate Bit(v: int, i: nat)
  {
    Sar(v, i) % 2 == 1
  }

  // ---------------------------------------------------------------------------
  // Hex digits
  // ---------------------------------------------------------------------------

  const HexAlphabet: string := "0123456789abcdef"

  /** The n lowercase hex digits of the low 4n bits of x, most significant first. */
  function HexDigits(x: nat, n: nat): (s: string)
    ensures |s| == n
  {
    if n == 0 then [] else HexDigits(x / 16, n - 1) + [HexAlphabet[x % 16]]
  }

  /** The value of a hex digit. */
  function HexValue(c: char): (v: nat)
    ensures v < 16
    ensures c in HexAlphabet ==> HexAlphabet[v] == c
  {
    if '0' <= c <= '9' then (c - '0') as nat
    else if 'a' <= c <= 'f' then (c - 'a') as nat + 10
    else 0
  }

  /** Reads a string of hex digits back as a number. */
  function DecodeHex(s: string): nat
  {
    if s == [] then 0 else DecodeHex(s[..|s| - 1]) * 16 + HexValue(s[|s| - 1])
  }

  function Pow16(n: nat): (r: nat)
    ensures r >= 1
  {
    if n == 0 then 1 else 16 * Pow16(n - 1)
  }

  /** Each digit reads back as its own value. */
  lemma HexValueOfDigit(d: nat)
    requires d < 16
    ensures HexValue(HexAlphabet[d]) == d
  {
    if d < 10 {
      assert HexAlphabet[d] == '0' + d as char;
    } else {
      assert HexAlphabet[d] == 'a' + (d - 10) as char;
    }
  }

  /** Dropping the last digit of a value that fits in n digits leaves one
      that fits in n - 1. */
  lemma ShiftBelowPow16(x: nat, n: nat)
    requires n > 0 && x < Pow16(n)
    ensures x / 16 < Pow16(n - 1)
  {
    assert Pow16(n) == 16 * Pow16(n - 1);
  }

  /** Decoding the n digits of a value that fits in n digits gives it back. */
  lemma {:induction false} HexRoundTrip(x: nat, n: nat)
    requires x < Pow16(n)
    ensures DecodeHex(HexDigits(x, n)) == x
  {
    if n > 0 {
      var init := HexDigits(x / 16, n - 1);
      var s := init + [HexAlphabet[x % 16]];
      assert HexDigits(x, n) == s;
      assert s[..|s| - 1] == init;
      assert x / 16 < Pow16(n - 1) by { ShiftBelowPow16(x, n); }
      HexRoundTrip(x / 16, n - 1);
      HexValueOfDigit(x % 16);
      assert DecodeHex(s) == DecodeHex(init) * 16 + HexValue(s[|s| - 1]);
    }
  }

  /** In particular the 16 digits printed for a 64-bit register give back
      the register. */
  lemma HexRoundTrip64(x: nat)
    requires x < 0x1_0000_0000_0000_0000
    ensures DecodeHex(HexDigits(x, 16)) == x
  {
    assert Pow16(1) == 0x10;
    assert Pow16(2) == 0x100;
    assert Pow16(3) == 0x1000;
    assert Pow16(4) == 0x10000;
    assert Pow16(5) == 0x100000;
    assert Pow16(6) == 0x1000000;
    assert Pow16(7) == 0x10000000;
    assert Pow16(8) == 0x100000000;
    assert Pow16(9) == 0x1000000000;
    assert Pow16(10) == 0x10000000000;
    assert Pow16(11) == 0x100000000000;
    assert Pow16(12) == 0x1000000000000;
    assert Pow16(13) == 0x10000000000000;
    assert Pow16(14) == 0x100000000000000;
    assert Pow16(15) == 0x1000000000000000;
    assert Pow16(16) == 0x10000000000000000;
    HexRoundTrip(x, 16);
  }

  // ---------------------------------------------------------------------------
  // Cursor writers
  // ---------------------------------------------------------------------------

  /*
   * Every writer takes the cursor p and a ghost `start` marking where the text
   * being built began. It leaves the buffer before start as it was, extends
   * the text between start and the cursor by what it writes, and returns the
   * new cursor. Bytes after the returned cursor are not described except for the
   * terminating NUL some of the source's writers leave there.
   */

  lemma Assoc(a: string, b: string, c: string)
    ensures a + (b + c) == a + b + c
  {
  }

  /** A sequence of `*p++ = c` stores. */
  method Emit(buf: array<char>, ghost start: nat, p: nat, s: string) returns (q: nat)
    requires start <= p && p + |s| <= buf.Length
    modifies buf
    ensures q == p + |s|
    ensures buf[..start] == old(buf[..start])
    ensures buf[start..q] == old(buf[start..p]) + s
  {
    q := p;
    while q < p + |s|
      invariant p <= q <= p + |s|
      invariant buf[..start] == old(buf[..start])
      invariant buf[start..q] == old(buf[start..p]) + s[..q - p]
    {
      buf[q] := s[q - p];
      q := q + 1;
    }
  }

  /** stpcpy: copies s and its terminating NUL, returning a cursor on the NUL. */
  method Stpcpy(buf: array<char>, ghost start: nat, p: nat, s: string) returns (q: nat)
    requires '\0' !in s
    requires start <= p && p + |s| < buf.Length
    modifies buf
    ensures q == p + |s|
    ensures buf[..start] == old(buf[..start])
    ensures buf[start..q] == old(buf[start..p]) + s && buf[q] == '\0'
  {
    q := Emit(buf, start, p, s);
    buf[q] := '\0';
  }

  /** HexCpy(p, x, k): for k a multiple of 4, writes the k/4 hex digits of the
      low k bits of x, most significant first, then a NUL, and returns a
      cursor on the NUL. */
  method HexCpy(buf: array<char>, ghost start: nat, p: nat, x: nat, k: nat) returns (q: nat)
    requires k % 4 == 0
    requires start <= p && p + k / 4 < buf.Length
    modifies buf
    ensures q == p + k / 4
    ensures buf[..start] == old(buf[..start])
    ensures buf[start..q] == old(buf[start..p]) + HexDigits(x, k / 4) && buf[q] == '\0'
  {
    // k counts down by 4; `left` is k / 4, the digits still to write
    var left: nat := k / 4;
    q := p;
    while left > 0
      invariant left <= k / 4
      invariant q == p + (k / 4 - left)
      invariant buf[..start] == old(buf[..start])
      invariant buf[start..q] == old(buf[start..p]) + HexDigits(ShrHex(x, left), k / 4 - left)
    {
      left := left - 1;
      // (x >> k) & 15
      var d := ShrHex(x, left) % 16;
      ShrHexStep(x, left);
      buf[q] := HexAlphabet[d];
      q := q + 1;
    }
    buf[q] := '\0';
  }

  /** AddFlag: when b is non-zero copies s (stpcpy) and advances; when b is
      zero only stores a NUL at p and returns p. Either way a NUL is at the
      returned cursor. */
  method AddFlag(buf: array<char>, ghost start: nat, p: nat, b: int, s: string) returns (q: nat)
    requires '\0' !in s
    requires start <= p && p + |s| < buf.Length
    modifies buf
    ensures q == p + (if b != 0 then |s| else 0)
    ensures buf[..start] == old(buf[..start])
    ensures buf[start..q] == old(buf[start..p]) + (if b != 0 then s else [])
    ensures buf[q] == '\0'
  {
    if b != 0 {
      q := Stpcpy(buf, start, p, s);
    } else {
      buf[p] := '\0';
      q := p;
    }
  }

  // ---------------------------------------------------------------------------
  // Flag mnemonics
  // ---------------------------------------------------------------------------

  /** kCpuFlags: the letter for each of the low 12 bits of EFLAGS. */
  const CpuFlagLetters: string := "CVPRAKZSTIDO"
  /** kFpuExceptions: the letter for each of the 6 exception bits. */
  const FpuExceptionLetters: string := "IDZOUP"

  /** Bits of the x87 status word: stack fault and condition codes. */
  const FpuSf: nat := 6
  const FpuC0: nat := 8
  const FpuC1: nat := 9
  const FpuC2: nat := 10
  const FpuC3: nat := 14

  /** " <letter>F" for bit i when it is set. */
  function FlagSegment(flags: int, i: nat): (s: string)
    requires i < |CpuFlagLetters|
    ensures |s| <= 3
  {
    if Bit(flags, i) then [' ', CpuFlagLetters[i], 'F'] else []
  }

  /** " <letter>F" for each set bit among the first n bits of flags, in order. */
  function CpuFlagsText(flags: int, n: nat): (s: string)
    requires n <= |CpuFlagLetters|
    ensures |s| <= 3 * n && |s| % 3 == 0
  {
    if n == 0 then []
    else CpuFlagsText(flags, n - 1) + FlagSegment(flags, n - 1)
  }

  /** " <letter>E" for each of the first n exception bits set in x87sw | mxcsr. */
  function FpuExceptionsText(x87sw: int, mxcsr: int, n: nat): (s: string)
    requires n <= |FpuExceptionLetters|
    ensures |s| <= 3 * n && |s| % 3 == 0
  {
    if n == 0 then []
    else FpuExceptionsText(x87sw, mxcsr, n - 1) +
         (if Bit(x87sw, n - 1) || Bit(mxcsr, n - 1) then [' ', FpuExceptionLetters[n - 1], 'E'] else [])
  }

  function Opt(b: bool, s: string): string
  {
    if b then s else []
  }

  /** The x87 stack-fault and condition-code suffixes, given which bits are set. */
  function StatusText(sf: bool, c0: bool, c1: bool, c2: bool, c3: bool): (s: string)
    ensures |s| <= 15
  {
    Opt(sf, " SF") + Opt(c0, " C0") + Opt(c1, " C1") + Opt(c2, " C2") + Opt(c3, " C3")
  }

  /** Everything DescribeCpuFlags writes: the CPU flags, the exceptions, then
      the x87 status suffixes. */
  function FlagsText(flags: int, x87sw: int, mxcsr: int): (s: string)
    ensures |s| <= MaxFlagsText
  {
    CpuFlagsText(flags, 12) + FpuExceptionsText(x87sw, mxcsr, 6)
    + StatusText(Bit(x87sw, FpuSf), Bit(x87sw, FpuC0), Bit(x87sw, FpuC1), Bit(x87sw, FpuC2), Bit(x87sw, FpuC3))
  }

  const MaxFlagsText: nat := 3 * 12 + 3 * 6 + 15

  /** The flags text holds no NUL, so none of it is cut short. */
  lemma FlagsTextHasNoNul(flags: int, x87sw: int, mxcsr: int)
    ensures '\0' !in FlagsText(flags, x87sw, mxcsr)
  {
    CpuFlagsTextHasNoNul(flags, 12);
    FpuExceptionsTextHasNoNul(x87sw, mxcsr, 6);
  }

  lemma {:induction false} CpuFlagsTextHasNoNul(flags: int, n: nat)
    requires n <= |CpuFlagLetters|
    ensures '\0' !in CpuFlagsText(flags, n)
  {
    if n > 0 {
      CpuFlagsTextHasNoNul(flags, n - 1);
    }
  }

  lemma {:induction false} FpuExceptionsTextHasNoNul(x87sw: int, mxcsr: int, n: nat)
    requires n <= |FpuExceptionLetters|
    ensures '\0' !in FpuExceptionsText(x87sw, mxcsr, n)
  {
    if n > 0 {
      FpuExceptionsTextHasNoNul(x87sw, mxcsr, n - 1);
    }
  }

  /** A set carry bit shows up as " CF" at the start of the flags text. */
  lemma CarryShown(flags: int, x87sw: int, mxcsr: int)
    requires Bit(flags, 0)
    ensures " CF" <= FlagsText(flags, x87sw, mxcsr)
  {
    assert CpuFlagsText(flags, 1) == " CF";
    CpuFlagsTextPrefix(flags, 1, 12);
  }

  /** The text for fewer bits is a prefix of the text for more. */
  lemma {:induction false} CpuFlagsTextPrefix(flags: int, m: nat, n: nat)
    requires m <= n <= 12
    ensures CpuFlagsText(flags, m) <= CpuFlagsText(flags, n)
    decreases n
  {
    if m < n {
      CpuFlagsTextPrefix(flags, m, n - 1);
    }
  }

  /** Each of the 12 flag letters shows up in the CPU flags text exactly
      when its bit is set. */
  lemma {:induction false} CpuFlagShown(flags: int, n: nat, j: nat)
    requires j < n <= |CpuFlagLetters|
    ensures Bit(flags, j) <==> CpuFlagLetters[j] in CpuFlagsText(flags, n)
  {
    SegmentLetter(flags, n - 1, j);
    if j == n - 1 {
      LaterLetterAbsent(flags, n - 1, j);
    } else {
      CpuFlagShown(flags, n - 1, j);
    }
  }

  /** Of the 12 letters, the segment of bit i holds letter i when bit i is
      set and no other. */
  lemma SegmentLetter(flags: int, i: nat, j: nat)
    requires i < |CpuFlagLetters| && j < |CpuFlagLetters|
    ensures CpuFlagLetters[j] in FlagSegment(flags, i) <==> j == i && Bit(flags, i)
  {
  }

  /** The letters of bits n and up do not occur in the text for the first n. */
  lemma {:induction false} LaterLetterAbsent(flags: int, n: nat, j: nat)
    requires n <= j < |CpuFlagLetters|
    ensures CpuFlagLetters[j] !in CpuFlagsText(flags, n)
  {
    if n > 0 {
      LaterLetterAbsent(flags, n - 1, j);
      SegmentLetter(flags, n - 1, j);
    }
  }

  /** The first loop of DescribeCpuFlags: shifts the flags right one bit at
      a time and appends " <letter>F" for each set bit. */
  method AddCpuFlags(buf: array<char>, ghost start: nat, p: nat, flags: int) returns (q: nat)
    requires start <= p && p + 3 * 12 <= buf.Length
    modifies buf
    ensures q == p + |CpuFlagsText(flags, 12)|
    ensures buf[..start] == old(buf[..start])
    ensures buf[start..q] == old(buf[start..p]) + CpuFlagsText(flags, 12)
  {
    q := p;
    var f := flags;
    var i := 0;
    while i < 12
      invariant 0 <= i <= 12
      invariant f == Sar(flags, i)
      invariant q == p + |CpuFlagsText(flags, i)|
      invariant buf[..start] == old(buf[..start])
      invariant buf[start..q] == old(buf[start..p]) + CpuFlagsText(flags, i)
    {
      if f % 2 == 1 {
        q := Emit(buf, start, q, [' ', CpuFlagLetters[i], 'F']);
      }
      SarStep(flags, i);
      f := f / 2;
      i := i + 1;
    }
  }

  /** The second loop of DescribeCpuFlags: " <letter>E" for each exception
      bit set in either the x87 status word or MXCSR. */
  method AddFpuExceptions(buf: array<char>, ghost start: nat, p: nat, x87sw: int, mxcsr: int)
    returns (q: nat)
    requires start <= p && p + 3 * 6 <= buf.Length
    modifies buf
    ensures q == p + |FpuExceptionsText(x87sw, mxcsr, 6)|
    ensures buf[..start] == old(buf[..start])
    ensures buf[start..q] == old(buf[start..p]) + FpuExceptionsText(x87sw, mxcsr, 6)
  {
    q := p;
    var i := 0;
    while i < 6
      invariant 0 <= i <= 6
      invariant q == p + |FpuExceptionsText(x87sw, mxcsr, i)|
      invariant buf[..start] == old(buf[..start])
      invariant buf[start..q] == old(buf[start..p]) + FpuExceptionsText(x87sw, mxcsr, i)
    {
      // (x87sw | mxcsr) & (1 << i)
      if Bit(x87sw, i) || Bit(mxcsr, i) {
        q := Emit(buf, start, q, [' ', FpuExceptionLetters[i], 'E']);
      }
      i := i + 1;
    }
  }

  /** The status-word tail of DescribeCpuFlags: one AddFlag call each for the
      stack-fault bit and the four condition codes, given whether each of
      those bits of the status word is set. */
  method AddFpuStatus(buf: array<char>, ghost start: nat, p: nat,
                      sf: bool, c0: bool, c1: bool, c2: bool, c3: bool)
    returns (q: nat)
    requires start <= p && p + 15 < buf.Length
    modifies buf
    ensures p <= q <= p + 15
    ensures buf[..start] == old(buf[..start])
    ensures buf[start..q] == old(buf[start..p]) + StatusText(sf, c0, c1, c2, c3)
    ensures buf[q] == '\0'
  {
    ghost var before := old(buf[start..p]);
    q := AddFlag(buf, start, p, if sf then 1 else 0, " SF");
    q := AddFlag(buf, start, q, if c0 then 1 else 0, " C0");
    Assoc(before, Opt(sf, " SF"), Opt(c0, " C0"));
    q := AddFlag(buf, start, q, if c1 then 1 else 0, " C1");
    Assoc(before, Opt(sf, " SF") + Opt(c0, " C0"), Opt(c1, " C1"));
    q := AddFlag(buf, start, q, if c2 then 1 else 0, " C2");
    Assoc(before, Opt(sf, " SF") + Opt(c0, " C0") + Opt(c1, " C1"), Opt(c2, " C2"));
    q := AddFlag(buf, start, q, if c3 then 1 else 0, " C3");
    Assoc(before, Opt(sf, " SF") + Opt(c0, " C0") + Opt(c1, " C1") + Opt(c2, " C2"), Opt(c3, " C3"));
  }

  /** DescribeCpuFlags: the CPU flag mnemonics, the FPU exception mnemonics,
      then the status-word suffixes, leaving a NUL at the returned cursor. */
  method DescribeCpuFlags(buf: array<char>, ghost start: nat, p: nat, flags: int, x87sw: int, mxcsr: int)
    returns (q: nat)
    requires start <= p && p + MaxFlagsText < buf.Length
    modifies buf
    ensures q == p + |FlagsText(flags, x87sw, mxcsr)|
    ensures buf[..start] == old(buf[..start])
    ensures buf[start..q] == old(buf[start..p]) + FlagsText(flags, x87sw, mxcsr)
    ensures buf[q] == '\0'
  {
    ghost var before := old(buf[start..p]);
    ghost var cpu, exc := CpuFlagsText(flags, 12), FpuExceptionsText(x87sw, mxcsr, 6);
    var sf, c0, c1, c2, c3 :=
      Bit(x87sw, FpuSf), Bit(x87sw, FpuC0), Bit(x87sw, FpuC1), Bit(x87sw, FpuC2), Bit(x87sw, FpuC3);
    q := AddCpuFlags(buf, start, p, flags);
    q := AddFpuExceptions(buf, start, q, x87sw, mxcsr);
    q := AddFpuStatus(buf, start, q, sf, c0, c1, c2, c3);
    Assoc(before, cpu, exc);
    Assoc(before, cpu + exc, StatusText(sf, c0, c1, c2, c3));
  }

  // ---------------------------------------------------------------------------
  // Machine context
  // ---------------------------------------------------------------------------

  /** One 128-bit SSE register as its two 64-bit halves (u64[0], u64[1]). */
  datatype Xmm = Xmm(lo: nat, hi: nat)

  /** The saved FPU and SSE state: the x87 status word, MXCSR, the eight x87
      stack registers and the sixteen XMM registers. */
  datatype FpRegs = FpRegs(swd: int, mxcsr: int, st: seq<StValue>, xmm: seq<Xmm>)

  /** The saved machine context: the general registers indexed as the kernel
      saves them (R8..R15, RDI, RSI, RBP, RBX, RDX, RAX, RCX, RSP, RIP), EFLAGS,
      and the FPU state, absent when none was saved. */
  datatype Context = Context(gregs: seq<nat>, eflags: int, fpregs: Option<FpRegs>)

  const Two64: nat := 0x1_0000_0000_0000_0000
  const RegRsp: nat := 15
  const RegRip: nat := 16
  const RegRbp: nat := 10

  /** Longest text one x87 register value prints as: "-999.999". */
  const MaxStText: nat := 8

  ghost predicate ValidContext(c: Context)
  {
    |c.gregs| >= 17
    && (forall r :: 0 <= r < |c.gregs| ==> c.gregs[r] < Two64)
    && (c.fpregs.Some? ==>
          |c.fpregs.value.st| == 8 && |c.fpregs.value.xmm| == 16
          && (forall r :: 0 <= r < 16 ==> c.fpregs.value.xmm[r].lo < Two64 && c.fpregs.value.xmm[r].hi < Two64))
  }

  // ---------------------------------------------------------------------------
  // x87 register values
  // ---------------------------------------------------------------------------

  /** FormatUint64: the decimal digits of n, without leading zeros. */
  function DecText(n: nat): (s: string)
    ensures 1 <= |s| && (n < 10 ==> |s| == 1) && (n < 100 ==> |s| <= 2) && (n < 1000 ==> |s| <= 3)
    ensures forall j :: 0 <= j < |s| ==> '0' <= s[j] <= '9'
    ensures n >= 10 ==> s[0] != '0'
    decreases n
  {
    if n < 10 then [DigitChar(n)] else DecText(n / 10) + [DigitChar(n % 10)]
  }

  function DecDigitValue(c: char): nat
  {
    if '0' <= c <= '9' then (c - '0') as nat else 0
  }

  /** The number a run of decimal digits stands for. */
  function DecValue(s: string): nat
  {
    if |s| == 0 then 0 else DecValue(s[..|s| - 1]) * 10 + DecDigitValue(s[|s| - 1])
  }

  /** Decimal digits read back as the number they were printed from. */
  lemma {:induction false} DecRoundTrip(n: nat)
    ensures DecValue(DecText(n)) == n
    decreases n
  {
    if n >= 10 {
      var t := DecText(n);
      assert t[..|t| - 1] == DecText(n / 10);
      DecRoundTrip(n / 10);
    }
  }

  /** The thousandths of a value as three digits, leading zeros kept. */
  function Thousandths(x: nat): (s: string)
    requires x < 1000
    ensures |s| == 3
  {
    [DigitChar(x / 100), DigitChar(x / 10 % 10), DigitChar(x % 10)]
  }

  /** The three characters are digits and read back as the thousandths. */
  lemma ThousandthsReadBack(x: nat)
    requires x < 1000
    ensures forall j :: 0 <= j < 3 ==> '0' <= Thousandths(x)[j] <= '9'
    ensures DecValue(Thousandths(x)) == x
  {
    var s := Thousandths(x);
    var hi, mid, lo := x / 100, x / 10 % 10, x % 10;
    assert x / 10 == hi * 10 + mid;
    assert DecValue(s[..1]) == hi by {
      assert s[..1][..0] == [];
    }
    assert DecValue(s[..2]) == hi * 10 + mid by {
      assert s[..2][..1] == s[..1];
    }
  }

  /** The largest value printed: 999.999, in thousandths. */
  const MaxMilli: nat := 999999

  /** A finite x87 value, as intended: its integer part, a point and its
      thousandths as three digits. */
  function MilliText(x: nat): (s: string)
    requires x <= MaxMilli
    ensures |s| <= 7
  {
    DecText(x / 1000) + "." + Thousandths(x % 1000)
  }

  /** The point and the three digits after it read back as the value. */
  lemma MilliTextReadsBack(x: nat)
    requires x <= MaxMilli
    ensures var s := MilliText(x);
            |s| >= 5 && s[|s| - 4] == '.'
            && DecValue(s[..|s| - 4]) * 1000 + DecValue(s[|s| - 3..]) == x
  {
    var s := MilliText(x);
    var i, f := DecText(x / 1000), Thousandths(x % 1000);
    assert s[..|s| - 4] == i && s[|s| - 3..] == f;
    DecRoundTrip(x / 1000);
    ThousandthsReadBack(x % 1000);
  }

  /** A finite x87 value as oncrash_amd64.c prints it: the thousandths go
      through FormatUint64 too, so their leading zeros are lost. */
  function MilliTextAsWritten(x: nat): string
    requires x <= MaxMilli
  {
    DecText(x / 1000) + "." + DecText(x % 1000)
  }

  /** As written, 1.0625 (1062 thousandths) prints as "1.62", which reads
      as 1.62; the intended text is "1.062". */
  lemma FractionUnpaddedAsWritten()
    ensures MilliTextAsWritten(1062) == "1.62" && MilliTextAsWritten(1620) == "1.620"
    ensures MilliText(1062) == "1.062" && MilliText(1620) == "1.620"
  {
    assert DecText(1) == "1" && DecText(62) == "62" && DecText(620) == "620";
    assert Thousandths(62) == "062" && Thousandths(620) == "620";
  }

  /** An x87 stack register as the report sees it: its sign bit, and NaN,
      infinity, or a finite magnitude given in thousandths, truncated. */
  datatype StValue = StNan(neg: bool) | StInf(neg: bool) | StFinite(neg: bool, milli: nat)

  /** How an x87 register is printed: a minus sign when the sign bit is set,
      then "nan", "inf" or the magnitude, clamped to 999.999. */
  function StText(v: StValue): (s: string)
    ensures |s| <= MaxStText
  {
    (if v.neg then "-" else "")
    + match v
      case StNan(_) => "nan"
      case StInf(_) => "inf"
      case StFinite(_, m) => MilliText(if m > MaxMilli then MaxMilli else m)
  }

  /** The x87 text never holds a NUL, so it is copied whole. */
  lemma StTextHasNoNul(v: StValue)
    ensures '\0' !in StText(v)
  {
  }

  // ---------------------------------------------------------------------------
  // General registers
  // ---------------------------------------------------------------------------

  /** kGregOrder: the order registers are printed in, as indexes into gregs. */
  const GregOrder: seq<nat> := [13, 11, 8, 14, 12, 9, 10, 15, 16, 0, 1, 2, 3, 4, 5, 6, 7]

  /** kGregNames: the name of each gregs index. */
  const GregNames: seq<string> :=
    ["R8", "R9", "R10", "R11", "R12", "R13", "R14", "R15", "RDI",
     "RSI", "RBP", "RBX", "RDX", "RAX", "RCX", "RSP", "RIP"]

  /** The gregs index of the i-th printed register. */
  function OrderAt(i: nat): (r: nat)
    requires i < 17
    ensures r < 17
  {
    GregOrder[i]
  }

  /** The name of the i-th printed register. */
  function NameAt(i: nat): (s: string)
    requires i < 17
    ensures |s| == 2 || |s| == 3
    ensures '\0' !in s
  {
    GregNames[GregOrder[i]]
  }

  /** The order visits every one of the 17 registers exactly once. */
  lemma GregOrderIsPermutation()
    ensures |GregOrder| == 17
    ensures forall i :: 0 <= i < 17 ==> GregOrder[i] < 17
    ensures forall i, j :: 0 <= i < j < 17 ==> GregOrder[i] != GregOrder[j]
  {
  }

  /** The names in printing order: RAX RBX RDI / RCX RDX RSI / RBP RSP RIP /
      R8 R9 R10 / R11 R12 R13 / R14 R15. */
  lemma PrintedNames()
    ensures seq(17, i requires 0 <= i < 17 => GregNames[GregOrder[i]]) ==
      ["RAX", "RBX", "RDI", "RCX", "RDX", "RSI", "RBP", "RSP", "RIP",
       "R8", "R9", "R10", "R11", "R12", "R13", "R14", "R15"]
  {
  }

  /** What precedes the value of the i-th printed register: a separating space
      unless it starts a line, the name right-aligned in 3 columns, a space. */
  function Lead(i: nat): (s: string)
    requires i < 17
    ensures |s| == (if i % 3 > 0 then 5 else 4) && '\0' !in s
  {
    var name := NameAt(i);
    (if i % 3 > 0 then " " else "") + (if |name| == 2 then " " else "") + name + " "
  }

  /** The decimal digit of a number below 10. */
  function DigitChar(n: nat): char
    requires n < 10
  {
    '0' + n as char
  }

  /** After every third register: " ST(k) " and the k-th x87 value when the
      FPU state was saved. */
  function StSuffix(c: Context, k: nat): (s: string)
    requires ValidContext(c) && k < 8
    ensures |s| <= 7 + MaxStText
  {
    match c.fpregs
    case None => ""
    case Some(f) => " ST(" + [DigitChar(k)] + ") " + StText(f.st[k])
  }

  /** The line end after the i-th printed register. */
  function LineEnd(c: Context, i: nat): (s: string)
    requires ValidContext(c) && i < 17
    ensures |s| <= 8 + MaxStText
  {
    if i % 3 == 2 then StSuffix(c, i / 3) + "\n" else ""
  }

  /** What the i-th printed register adds to the block: its field, then its
      line end. */
  function Row(c: Context, i: nat): string
    requires ValidContext(c) && i < 17
  {
    Field(c, i) + LineEnd(c, i)
  }

  /** The general-register block after n registers: a newline, then each
      register as its lead and 16 hex digits, lines ending after every third. */
  function GregsText(c: Context, n: nat): (s: string)
    requires ValidContext(c) && n <= 17
    ensures |s| <= 1 + 37 * n
  {
    if n == 0 then "\n"
    else GregsText(c, n - 1) + Row(c, n - 1)
  }

  const MaxGregsText: nat := 1 + 37 * 17

  /** The i-th printed field, as it stands in the block. */
  function Field(c: Context, i: nat): string
    requires ValidContext(c) && i < 17
  {
    Lead(i) + HexDigits(c.gregs[OrderAt(i)], 16)
  }

  /** Every field reads back: the name sits right-aligned in three columns
      (a leading space when it has two letters), a space follows, and the
      last 16 characters decode to the register's value. */
  lemma FieldReadsBack(c: Context, i: nat)
    requires ValidContext(c) && i < 17
    ensures var f := Field(c, i); var n := |f|; var name := NameAt(i);
            n == 20 + (if i % 3 > 0 then 1 else 0)
            && f[n - 17 - |name|..n - 17] == name
            && (|name| == 2 ==> f[n - 20] == ' ')
            && f[n - 17] == ' '
            && DecodeHex(f[n - 16..]) == c.gregs[OrderAt(i)]
  {
    var name := NameAt(i);
    var sep: string := if i % 3 > 0 then " " else "";
    var pad: string := if |name| == 2 then " " else "";
    FieldLayout(sep, pad, name, HexDigits(c.gregs[OrderAt(i)], 16));
    HexRoundTrip64(c.gregs[OrderAt(i)]);
  }

  /** Where the parts of a field stand, counted back from its end. */
  lemma FieldLayout(sep: string, pad: string, name: string, hex: string)
    requires |hex| == 16
    ensures var f := sep + pad + name + " " + hex; var n := |f|;
            n == |sep| + |pad| + |name| + 17
            && f[n - 17 - |name|..n - 17] == name
            && (|pad| == 1 ==> f[n - 18 - |name|] == pad[0])
            && f[n - 17] == ' '
            && f[n - 16..] == hex
  {
    var f := sep + pad + name + " " + hex;
    var n := |f|;
    assert f[n - 17 - |name|..n - 17] == name;
    assert f[n - 16..] == hex;
  }

  /** Without FPU state the block after n registers is a newline, n fields
      of 20, a separating space before each field that does not start a line
      (all but the ceiling of n / 3) and a newline after each third field. */
  lemma {:induction false} GregsTextLengthWithoutFpuAfter(c: Context, n: nat)
    requires ValidContext(c) && c.fpregs.None? && n <= 17
    ensures |GregsText(c, n)| == 1 + 20 * n + (n - (n + 2) / 3) + n / 3
  {
    if n > 0 {
      var m := n - 1;
      GregsTextLengthWithoutFpuAfter(c, m);
      RowLengthWithoutFpu(c, m);
      CountStep(m);
      var starts, ends := (m + 2) / 3, m / 3;
      assert |GregsText(c, m)| == 1 + 20 * m + (m - starts) + ends;
      assert |GregsText(c, n)| == |GregsText(c, m)| + |Row(c, m)|;
    }
  }

  /** Without FPU state a row is its field of 20, a separating space unless
      it starts a line, and a newline when it ends one. */
  lemma RowLengthWithoutFpu(c: Context, i: nat)
    requires ValidContext(c) && c.fpregs.None? && i < 17
    ensures |Row(c, i)| == 20 + (if i % 3 > 0 then 1 else 0) + (if i % 3 == 2 then 1 else 0)
  {
  }

  /** How the counts of line starts and line ends grow by one field. */
  lemma CountStep(m: nat)
    ensures (m + 3) / 3 == (m + 2) / 3 + (if m % 3 == 0 then 1 else 0)
    ensures (m + 1) / 3 == m / 3 + (if m % 3 == 2 then 1 else 0)
  {
    var q, r := m / 3, m % 3;
    assert m == 3 * q + r;
    assert m + 3 == 3 * (q + 1) + r;
  }

  /** Without FPU state the whole block is 357 characters: a newline, 17
      fields of 20, 11 separating spaces and 5 newlines. */
  lemma GregsTextLengthWithoutFpu(c: Context)
    requires ValidContext(c) && c.fpregs.None?
    ensures |GregsText(c, 17)| == 357
  {
    GregsTextLengthWithoutFpuAfter(c, 17);
  }

  /** ShowGeneralRegisters as written: the register block, then the flags text
      written by DescribeCpuFlags whose returned cursor is dropped, so the
      newline that follows lands on the first byte of the flags text and the
      returned cursor is one past it: the flags never reach the report. */
  method ShowGeneralRegisters(buf: array<char>, ghost start: nat, p: nat, c: Context) returns (q: nat)
    requires ValidContext(c)
    requires start <= p && p + MaxGregsText + MaxFlagsText + 1 < buf.Length
    modifies buf
    ensures q == p + |GregsText(c, 17)| + 1
    ensures buf[..start] == old(buf[..start])
    ensures buf[start..q] == old(buf[start..p]) + GregsText(c, 17) + "\n"
  {
    q := ShowGregs(buf, start, p, c);
    q := FlagsThenNewline(buf, start, q, c);
  }

  /** The tail of ShowGeneralRegisters as written: DescribeCpuFlags writes at
      the cursor, its result is dropped and the newline is stored at the old
      cursor, so what the report keeps is only the newline. */
  method FlagsThenNewline(buf: array<char>, ghost start: nat, p: nat, c: Context) returns (q: nat)
    requires start <= p && p + MaxFlagsText + 1 < buf.Length
    modifies buf
    ensures q == p + 1
    ensures buf[..start] == old(buf[..start])
    ensures buf[start..q] == old(buf[start..p]) + "\n"
  {
    ghost var before := buf[start..p];
    var ignored := DescribeCpuFlags(buf, start, p, c.eflags, Swd(c), Mxcsr(c));
    ghost var written := buf[start..ignored];
    PrefixOfAppend(written, before, FlagsText(c.eflags, Swd(c), Mxcsr(c)));
    SliceOfSlice(buf[..], start, p, ignored);
    buf[p] := '\n';
    q := p + 1;
    assert buf[start..q] == before + [buf[p]];
  }

  lemma PrefixOfAppend(w: string, a: string, b: string)
    requires w == a + b
    ensures w[..|a|] == a
  {
  }

  lemma SliceOfSlice(a: string, i: nat, j: nat, k: nat)
    requires i <= j <= k <= |a|
    ensures a[i..k][..j - i] == a[i..j]
  {
  }

  /** ShowGeneralRegisters as evidently intended: the cursor returned by
      DescribeCpuFlags is kept, so the flags text stands before the newline. */
  method ShowGeneralRegistersFixed(buf: array<char>, ghost start: nat, p: nat, c: Context) returns (q: nat)
    requires ValidContext(c)
    requires start <= p && p + MaxGregsText + MaxFlagsText + 1 < buf.Length
    modifies buf
    ensures q == p + |RegistersText(c)|
    ensures buf[..start] == old(buf[..start])
    ensures buf[start..q] == old(buf[start..p]) + RegistersText(c)
  {
    ghost var before := old(buf[start..p]);
    q := ShowGregs(buf, start, p, c);
    q := DescribeCpuFlags(buf, start, q, c.eflags, Swd(c), Mxcsr(c));
    q := Emit(buf, start, q, "\n");
    Assoc(before, GregsText(c, 17), FlagsText(c.eflags, Swd(c), Mxcsr(c)));
    Assoc(before, GregsText(c, 17) + FlagsText(c.eflags, Swd(c), Mxcsr(c)), "\n");
  }

  /** The status word and MXCSR passed to DescribeCpuFlags: zero without FPU state. */
  function Swd(c: Context): int
  {
    if c.fpregs.Some? then c.fpregs.value.swd else 0
  }

  function Mxcsr(c: Context): int
  {
    if c.fpregs.Some? then c.fpregs.value.mxcsr else 0
  }

  /** The intended register text: the block, the flags, a newline. */
  function RegistersText(c: Context): (s: string)
    requires ValidContext(c)
    ensures |s| <= MaxGregsText + MaxFlagsText + 1
  {
    GregsText(c, 17) + FlagsText(c.eflags, Swd(c), Mxcsr(c)) + "\n"
  }

  /** With the carry flag set, the as-written report text leaves out " CF"
      where the intended one has it, right after the register block. */
  lemma FlagsLostAsWritten(c: Context)
    requires ValidContext(c) && Bit(c.eflags, 0)
    ensures var g := GregsText(c, 17);
            g + "\n" != RegistersText(c)
            && g <= RegistersText(c)
            && " CF" <= RegistersText(c)[|g|..]
  {
    var g := GregsText(c, 17);
    var flags := FlagsText(c.eflags, Swd(c), Mxcsr(c));
    CarryShown(c.eflags, Swd(c), Mxcsr(c));
    assert RegistersText(c) == g + (flags + "\n");
    assert RegistersText(c)[|g|..] == flags + "\n";
    assert (g + "\n")[|g|] != RegistersText(c)[|g|];
  }

  /** Stepping the register counter by one moves the column and line. */
  lemma ColumnStep(i: nat)
    ensures (i + 1) % 3 == (if i % 3 == 2 then 0 else i % 3 + 1)
    ensures (i + 1) / 3 == i / 3 + (if i % 3 == 2 then 1 else 0)
  {
  }

  /** One pass of the register loop: the lead of the i-th register
      (separator when j > 0, padding, stpcpy of the name, a space), HexCpy of
      its 64 bits, then, when j reaches 3, the x87 suffix and a newline. */
  method ShowRegister(buf: array<char>, ghost start: nat, p: nat, c: Context, i: nat, j: nat, k: nat, ghost before: string)
    returns (q: nat, j': nat, k': nat)
    requires ValidContext(c) && i < 17 && j == i % 3
    requires k == (if c.fpregs.Some? then i / 3 else 0)
    requires start <= p && p + 37 < buf.Length
    requires buf[start..p] == before + GregsText(c, i)
    modifies buf
    ensures j' == (i + 1) % 3
    ensures k' == (if c.fpregs.Some? then (i + 1) / 3 else 0)
    ensures p <= q <= p + 37
    ensures buf[..start] == old(buf[..start])
    ensures buf[start..q] == before + GregsText(c, i + 1)
  {
    ColumnStep(i);
    Assoc(before, GregsText(c, i), Row(c, i));
    q := Emit(buf, start, p, Lead(i));
    q := HexCpy(buf, start, q, c.gregs[OrderAt(i)], 64);
    ghost var written := buf[start..q];
    Assoc(old(buf[start..p]), Lead(i), HexDigits(c.gregs[OrderAt(i)], 16));
    Assoc(old(buf[start..p]), Field(c, i), LineEnd(c, i));
    j', k' := j + 1, k;
    if j' == 3 {
      j' := 0;
      // with FPU state: " ST(", FormatUint64 of k (one digit), ") " and the
      // value; then the newline
      assert LineEnd(c, i) == StSuffix(c, k) + "\n";
      q := Emit(buf, start, q, StSuffix(c, k) + "\n");
      if c.fpregs.Some? {
        k' := k + 1;
      }
    } else {
      assert written + LineEnd(c, i) == written;
    }
  }

  /** The register loop of ShowGeneralRegisters: counters i (register), j
      (column) and k (x87 register shown at the end of the next line). */
  method ShowGregs(buf: array<char>, ghost start: nat, p: nat, c: Context) returns (q: nat)
    requires ValidContext(c)
    requires start <= p && p + MaxGregsText < buf.Length
    modifies buf
    ensures q == p + |GregsText(c, 17)|
    ensures buf[..start] == old(buf[..start])
    ensures buf[start..q] == old(buf[start..p]) + GregsText(c, 17)
  {
    ghost var before := old(buf[start..p]);
    q := Emit(buf, start, p, "\n");
    q := ShowRegisterLines(buf, start, p, q, c, before);
  }

  /** The loop of ShowGregs, from the cursor after the leading newline. */
  method ShowRegisterLines(buf: array<char>, ghost start: nat, ghost p: nat, q0: nat, c: Context,
                           ghost before: string)
    returns (q: nat)
    requires ValidContext(c)
    requires start <= p && q0 == p + 1 && p + MaxGregsText < buf.Length
    requires buf[start..q0] == before + GregsText(c, 0)
    modifies buf
    ensures p <= q <= p + MaxGregsText
    ensures buf[..start] == old(buf[..start])
    ensures buf[start..q] == before + GregsText(c, 17)
  {
    q := q0;
    var i, j, k := 0, 0, 0;
    while i < 17
      invariant 0 <= i <= 17 && j == i % 3
      invariant k == (if c.fpregs.Some? then i / 3 else 0)
      invariant p <= q <= p + 1 + 37 * i
      invariant buf[..start] == old(buf[..start])
      invariant buf[start..q] == before + GregsText(c, i)
    {
      q, j, k := ShowRegister(buf, start, q, c, i, j, k, before);
      i := i + 1;
    }
  }

  // ---------------------------------------------------------------------------
  // SSE registers
  // ---------------------------------------------------------------------------

  /** A register index as printed: two digits from 10 on, otherwise the digit
      and a padding space. */
  function IndexText(n: nat): (s: string)
    requires n < 100
    ensures |s| == 2
  {
    if n >= 10 then [DigitChar(n / 10), DigitChar(n % 10)] else [DigitChar(n), ' ']
  }

  /** The decimal value of a digit character. */
  function DigitValue(ch: char): int
  {
    ch as int - '0' as int
  }

  /** The printed index reads back as the register number. */
  lemma IndexReadsBack(n: nat)
    requires n < 100
    ensures var s := IndexText(n);
            (s[1] == ' ' <==> n < 10)
            && (n < 10 ==> DigitValue(s[0]) == n)
            && (n >= 10 ==> 10 * DigitValue(s[0]) + DigitValue(s[1]) == n)
  {
  }

  /** One XMM register after its "XMM" prefix: the index, a space, and the
      high then the low 64-bit half in 16 hex digits each. */
  function XmmText(x: Xmm, n: nat): (s: string)
    requires n < 100
    ensures |s| == 35
  {
    IndexText(n) + " " + HexDigits(x.hi, 16) + HexDigits(x.lo, 16)
  }

  /** Line i of the SSE block: XMMi and XMM(i+8) side by side. */
  function SseLine(f: FpRegs, i: nat): (s: string)
    requires i < 8 && |f.xmm| == 16
    ensures |s| == 78
  {
    "XMM" + XmmText(f.xmm[i], i) + " XMM" + XmmText(f.xmm[i + 8], i + 8) + "\n"
  }

  /** The first n lines of the SSE block. */
  function SseLines(f: FpRegs, n: nat): (s: string)
    requires n <= 8 && |f.xmm| == 16
    ensures |s| == 78 * n
  {
    if n == 0 then [] else SseLines(f, n - 1) + SseLine(f, n - 1)
  }

  /** The SSE block: nothing without FPU state, else a newline and 8 lines. */
  function SseText(c: Context): string
    requires ValidContext(c)
  {
    match c.fpregs
    case None => ""
    case Some(f) => "\n" + SseLines(f, 8)
  }

  /** The block is empty without FPU state and exactly 1 + 8 * 78 characters
      with it. */
  lemma SseTextLength(c: Context)
    requires ValidContext(c)
    ensures |SseText(c)| == (if c.fpregs.Some? then 1 + 8 * 78 else 0)
  {
  }

  /** Line i of the block sits at offset 78 * i of the lines. */
  lemma {:induction false} SseLineAt(f: FpRegs, i: nat, n: nat)
    requires i < n <= 8 && |f.xmm| == 16
    ensures SseLines(f, n)[78 * i..78 * i + 78] == SseLine(f, i)
  {
    var prev := SseLines(f, n - 1);
    if i < n - 1 {
      SseLineAt(f, i, n - 1);
      SliceOfAppend(prev, SseLine(f, n - 1), 78 * i, 78 * i + 78);
    } else {
      assert SseLines(f, n)[|prev|..] == SseLine(f, i);
    }
  }

  lemma SliceOfAppend(a: string, b: string, lo: nat, hi: nat)
    requires lo <= hi <= |a|
    ensures (a + b)[lo..hi] == a[lo..hi]
  {
  }

  /** A register's text reads back: its index, a space, and the two halves
      decoded from their hex digits. */
  lemma XmmReadsBack(x: Xmm, n: nat)
    requires n < 100 && x.lo < Two64 && x.hi < Two64
    ensures var s := XmmText(x, n);
            s[..2] == IndexText(n) && s[2] == ' '
            && DecodeHex(s[3..19]) == x.hi && DecodeHex(s[19..35]) == x.lo
  {
    var h, l := HexDigits(x.hi, 16), HexDigits(x.lo, 16);
    var s := XmmText(x, n);
    assert s[3..19] == h;
    assert s[19..35] == l;
    HexRoundTrip64(x.hi);
    HexRoundTrip64(x.lo);
  }

  /** Every line pairs XMMi (columns 3 to 38) with XMM(i+8) (columns 42 to
      77), high half before low half in each. */
  lemma SseLineLayout(f: FpRegs, i: nat)
    requires i < 8 && |f.xmm| == 16
    ensures var s := SseLine(f, i);
            s[..3] == "XMM" && s[3..38] == XmmText(f.xmm[i], i)
            && s[38..42] == " XMM" && s[42..77] == XmmText(f.xmm[i + 8], i + 8)
            && s[77] == '\n'
  {
    var a, b := XmmText(f.xmm[i], i), XmmText(f.xmm[i + 8], i + 8);
    var s := SseLine(f, i);
    assert s == "XMM" + a + " XMM" + b + "\n";
    assert s[3..38] == a;
    assert s[42..77] == b;
  }

  /** The two index stores of ShowSseRegisters (`i / 10 + '0'`, `i % 10 + '0'`
      from 10 on, else the digit and a space). */
  method EmitIndex(buf: array<char>, ghost start: nat, p: nat, n: nat) returns (q: nat)
    requires n < 100
    requires start <= p && p + 2 <= buf.Length
    modifies buf
    ensures q == p + 2
    ensures buf[..start] == old(buf[..start])
    ensures buf[start..q] == old(buf[start..p]) + IndexText(n)
  {
    if n >= 10 {
      q := Emit(buf, start, p, [DigitChar(n / 10), DigitChar(n % 10)]);
    } else {
      q := Emit(buf, start, p, [DigitChar(n), ' ']);
    }
  }

  /** The stores for one register after "XMM": index, space, HexCpy of the
      high half, HexCpy of the low half. */
  method ShowXmm(buf: array<char>, ghost start: nat, p: nat, x: Xmm, n: nat) returns (q: nat)
    requires n < 100
    requires start <= p && p + 35 < buf.Length
    modifies buf
    ensures q == p + 35
    ensures buf[..start] == old(buf[..start])
    ensures buf[start..q] == old(buf[start..p]) + XmmText(x, n)
  {
    ghost var before := old(buf[start..p]);
    q := EmitIndex(buf, start, p, n);
    q := Emit(buf, start, q, " ");
    q := HexCpy(buf, start, q, x.hi, 64);
    q := HexCpy(buf, start, q, x.lo, 64);
    ghost var i, h, l := IndexText(n), HexDigits(x.hi, 16), HexDigits(x.lo, 16);
    Assoc(before, i, " ");
    Assoc(before, i + " ", h);
    Assoc(before, i + " " + h, l);
  }

  /** One pass of the SSE loop. */
  method ShowSseLine(buf: array<char>, ghost start: nat, p: nat, f: FpRegs, i: nat) returns (q: nat)
    requires i < 8 && |f.xmm| == 16
    requires start <= p && p + 78 < buf.Length
    modifies buf
    ensures q == p + 78
    ensures buf[..start] == old(buf[..start])
    ensures buf[start..q] == old(buf[start..p]) + SseLine(f, i)
  {
    ghost var before := old(buf[start..p]);
    q := Emit(buf, start, p, "XMM");
    q := ShowXmm(buf, start, q, f.xmm[i], i);
    q := Stpcpy(buf, start, q, " XMM");
    q := ShowXmm(buf, start, q, f.xmm[i + 8], i + 8);
    q := Emit(buf, start, q, "\n");
    ghost var a, b := XmmText(f.xmm[i], i), XmmText(f.xmm[i + 8], i + 8);
    Assoc(before, "XMM", a);
    Assoc(before, "XMM" + a, " XMM");
    Assoc(before, "XMM" + a + " XMM", b);
    Assoc(before, "XMM" + a + " XMM" + b, "\n");
  }

  /** ShowSseRegisters: with FPU state, a newline and the 8 lines; without,
      nothing, and the cursor does not move. */
  method ShowSseRegisters(buf: array<char>, ghost start: nat, p: nat, c: Context) returns (q: nat)
    requires ValidContext(c)
    requires start <= p && p + 1 + 78 * 8 < buf.Length
    modifies buf
    ensures q == p + |SseText(c)|
    ensures buf[..start] == old(buf[..start])
    ensures buf[start..q] == old(buf[start..p]) + SseText(c)
  {
    q := p;
    if c.fpregs.Some? {
      var f := c.fpregs.value;
      ghost var before := old(buf[start..p]);
      q := Emit(buf, start, q, "\n");
      var i := 0;
      while i < 8
        invariant 0 <= i <= 8
        invariant q == p + 1 + 78 * i
        invariant buf[..start] == old(buf[..start])
        invariant buf[start..q] == before + "\n" + SseLines(f, i)
      {
        q := ShowSseLine(buf, start, q, f, i);
        Assoc(before + "\n", SseLines(f, i), SseLine(f, i));
        i := i + 1;
      }
      Assoc(before, "\n", SseLines(f, 8));
    }
  }
}
