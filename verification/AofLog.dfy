/**
 The command log: how a command is written to the append only file, and how the
 file is read back at startup, including files that were cut short.
 */
module AofLog {
  import opened Bytes

  type Arg = seq<Byte>
  type Command = seq<Arg>

  const STAR: Byte := 42
  const DOLLAR: Byte := 36
  const CR: Byte := 13
  const LF: Byte := 10
  const CRLF: seq<Byte> := [CR, LF]
  const LINE: nat := 127   // the loader's line buffer holds this many bytes and a terminator

  // ------------------------------------------------------------------ writing

  function Digits(n: nat): (d: seq<Byte>)
    ensures |d| >= 1
  {
    if n < 10 then [48 + n] else Digits(n / 10) + [48 + n % 10]
  }

  function Header(mark: Byte, n: nat): seq<Byte> { [mark] + Digits(n) + CRLF }

  function EncodeArg(a: Arg): seq<Byte> { Header(DOLLAR, |a|) + a + CRLF }

  function Concat<T>(f: T -> seq<Byte>, xs: seq<T>): seq<Byte>
    decreases |xs|
  {
    if xs == [] then [] else f(xs[0]) + Concat(f, xs[1..])
  }

  lemma {:induction false} ConcatAppend<T>(f: T -> seq<Byte>, xs: seq<T>, x: T)
    ensures Concat(f, xs + [x]) == Concat(f, xs) + f(x)
    decreases |xs|
  {
    if xs == [] {
      assert ([] + [x])[1..] == [];
    } else {
      ConcatAppend(f, xs[1..], x);
      assert (xs + [x])[1..] == xs[1..] + [x];
    }
  }

  lemma {:induction false} ConcatBoth<T>(f: T -> seq<Byte>, a: seq<T>, b: seq<T>)
    ensures Concat(f, a + b) == Concat(f, a) + Concat(f, b)
    decreases |a|
  {
    if a == [] {
      assert a + b == b;
    } else {
      ConcatBoth(f, a[1..], b);
      assert (a + b)[1..] == a[1..] + b;
    }
  }

  lemma ConcatPrefix<T>(f: T -> seq<Byte>, xs: seq<T>, k: nat)
    requires k <= |xs|
    ensures Concat(f, xs[..k]) <= Concat(f, xs)
  {
    ConcatBoth(f, xs[..k], xs[k..]);
    assert xs[..k] + xs[k..] == xs;
  }

  function EncodeArgs(args: seq<Arg>): seq<Byte> { Concat(EncodeArg, args) }

  function Encode(c: Command): seq<Byte> { Header(STAR, |c|) + EncodeArgs(c) }

  function EncodeAll(cs: seq<Command>): seq<Byte> { Concat(Encode, cs) }

  /** Append the encoding of one command to a buffer. */
  method CatAppendOnlyGenericCommand(dst: seq<Byte>, argv: Command) returns (r: seq<Byte>)
    ensures r == dst + Encode(argv)
  {
    r := dst + [STAR] + Digits(|argv|) + CRLF;
    var j := 0;
    while j < |argv|
      invariant 0 <= j <= |argv| && r == dst + (Header(STAR, |argv|) + EncodeArgs(argv[..j]))
    {
      var o := argv[j];
      ConcatAppend(EncodeArg, argv[..j], o);
      assert argv[..j + 1] == argv[..j] + [o];
      ghost var before := r;
      r := r + [DOLLAR] + Digits(|o|) + CRLF;
      r := r + o;
      r := r + CRLF;
      assert r == before + EncodeArg(o);
      j := j + 1;
    }
    assert argv[..j] == argv;
  }

  // ------------------------------------------------------------------ reading
  // `s` is always the part of the file that has not been read yet.

  /** How many bytes a line read that may take `room` bytes takes: through a newline, to the end, or until it is full. */
  function LineLength(s: seq<Byte>, room: nat): (e: nat)
    ensures e <= |s| && e <= room
    decreases room
  {
    if room == 0 || s == [] then 0
    else if s[0] == LF then 1
    else 1 + LineLength(s[1..], room - 1)
  }

  predicate IsDigit(b: Byte) { 48 <= b <= 57 }

  predicate IsSpace(b: Byte) { b == 32 || 9 <= b <= 13 }

  /** The number that the leading digits of `s` write, on top of `acc`. */
  function LeadingDigits(s: seq<Byte>, acc: nat): nat
    decreases |s|
  {
    if s == [] || !IsDigit(s[0]) then acc else LeadingDigits(s[1..], 10 * acc + (s[0] - 48))
  }

  /** What the C library reads as a decimal number: blanks, a sign, digits. */
  function ToNumber(s: seq<Byte>): int
    decreases |s|
  {
    if s == [] then 0
    else if IsSpace(s[0]) then ToNumber(s[1..])
    else if s[0] == 45 then 0 - LeadingDigits(s[1..], 0) as int
    else if s[0] == 43 then LeadingDigits(s[1..], 0)
    else LeadingDigits(s, 0)
  }

  /**
   What the loader learns from one line: how many bytes it takes, its first
   byte, whether nothing follows that byte, the number behind it, and whether
   the end of the file ended it.
   */
  datatype Line = Line(length: nat, mark: Byte, bare: bool, number: int, eof: bool)

  function ReadLine(s: seq<Byte>): Line {
    var e := LineLength(s, LINE);
    if e == 0 then Line(0, 0, true, 0, true)
    else Line(e, s[0], e < 2 || s[1] == 0, ToNumber(s[1..e]), e == |s| && s[e - 1] != LF && e < LINE)
  }

  // The parsers take the line reader, and the loader takes the parser, as a parameter.

  datatype Args = Args(args: seq<Arg>, rest: seq<Byte>) | ArgsShort | ArgsBad | ArgsNoMemory

  function Prepend(a: Arg, r: Args): Args { if r.Args? then Args([a] + r.args, r.rest) else r }

  /** Read `n` length-prefixed arguments. */
  function ReadArgs(line: seq<Byte> -> Line, s: seq<Byte>, n: nat): Args
    decreases n
  {
    if n == 0 then Args([], s)
    else if s == [] then ArgsShort
    else
      var h := line(s);
      if h.mark != DOLLAR then ArgsBad
      else if h.number < 0 then ArgsNoMemory
      else if |s| < h.length + h.number + 2 then ArgsShort
      else Prepend(s[h.length..h.length + h.number], ReadArgs(line, s[h.length + h.number + 2..], n - 1))
  }

  datatype Read = Got(c: Command, rest: seq<Byte>) | AtEnd | Short | Bad | Unreadable | NoMemory

  function ToRead(r: Args): Read {
    match r
    case Args(args, rest) => Got(args, rest)
    case ArgsShort => Short
    case ArgsBad => Bad
    case ArgsNoMemory => NoMemory
  }

  /** Read one command. */
  function ReadCommand(line: seq<Byte> -> Line, s: seq<Byte>): Read {
    if s == [] then AtEnd
    else
      var h := line(s);
      if h.mark != STAR then Bad
      else if h.bare then (if h.eof then Short else Unreadable)
      else if h.number < 1 then Bad
      else if |s| < h.length then Short
      else ToRead(ReadArgs(line, s[h.length..], h.number))
  }

  lemma {:induction false} ReadArgsAdvances(line: seq<Byte> -> Line, s: seq<Byte>, n: nat)
    requires ReadArgs(line, s, n).Args?
    ensures |ReadArgs(line, s, n).rest| <= |s| && |ReadArgs(line, s, n).args| == n && (n > 0 ==> |ReadArgs(line, s, n).rest| < |s|)
    decreases n
  {
    if n > 0 {
      var h := line(s);
      ReadArgsAdvances(line, s[h.length + h.number + 2..], n - 1);
    }
  }

  /** The command at the front of the unread bytes. */
  function Reader(s: seq<Byte>): (r: Read)
    ensures r.Got? ==> |r.rest| < |s|
  {
    var h := ReadLine(s);
    if ReadCommand(ReadLine, s).Got? then ReadArgsAdvances(ReadLine, s[h.length..], h.number); ReadCommand(ReadLine, s)
    else ReadCommand(ReadLine, s)
  }

  ghost predicate Consumes(read: seq<Byte> -> Read) { forall s {:trigger read(s)} :: read(s).Got? ==> |read(s).rest| < |s| }

  // ------------------------------------------------------------------ loading

  /** What the command table says about a command. */
  datatype Kind = Multi | Exec | Other | Unknown

  /**
   The loader's state: the commands run, the transaction flag, the commands of
   the open transaction, which wait for EXEC, and the two offsets the loader may
   truncate to.  MULTI only sets the flag and counts as part of its transaction.
   */
  datatype Loader = Loader(cmds: seq<Command>, inMulti: bool, queue: seq<Command>, validUpTo: nat, validBeforeMulti: nat)

  datatype Outcome =
    | Loaded(cmds: seq<Command>)
    | Truncate(cmds: seq<Command>, offset: nat)   // a short file: cut it at `offset` and go on
    | FormatError
    | Fatal

  /**
   The loader after a command that ends at offset `next`: run at once, queued in
   an open transaction, or an EXEC that runs the queue.
   */
  function Execute(l: Loader, c: Command, kind: Kind, next: nat): Loader {
    var before := if kind == Multi then l.validUpTo else l.validBeforeMulti;
    if l.inMulti && kind != Exec then Loader(l.cmds, true, l.queue + [c], next, before)
    else if l.inMulti then Loader(l.cmds + l.queue + [c], false, [], next, before)
    else if kind == Multi then Loader(l.cmds, true, [c], next, before)
    else Loader(l.cmds + [c], false, [], next, before)
  }

  /** Load the unread part `s` of a file of `size` bytes. */
  function LoadFrom(read: seq<Byte> -> Read, kinds: Command -> Kind, size: nat, s: seq<Byte>, l: Loader): Outcome
    requires |s| <= size && Consumes(read)
    decreases |s|
  {
    match read(s)
    case AtEnd => if l.inMulti then Truncate(l.cmds, l.validBeforeMulti) else Loaded(l.cmds)
    case Short => Truncate(l.cmds, l.validUpTo)
    case Bad => FormatError
    case Unreadable => Fatal
    case NoMemory => Fatal
    case Got(c, rest) =>
      if kinds(c) == Unknown then Fatal else LoadFrom(read, kinds, size, rest, Execute(l, c, kinds(c), size - |rest|))
  }

  const FRESH: Loader := Loader([], false, [], 0, 0)

  function Load(kinds: Command -> Kind, f: seq<Byte>): Outcome { LoadFrom(Reader, kinds, |f|, f, FRESH) }

  function PrependAll(a: seq<Arg>, r: Args): Args { if r.Args? then Args(a + r.args, r.rest) else r }

  lemma PrependAllOne(a: seq<Arg>, b: Arg, r: Args)
    ensures PrependAll(a, Prepend(b, r)) == PrependAll(a + [b], r)
  {
    if r.Args? { assert a + ([b] + r.args) == (a + [b]) + r.args; }
  }

  /** Read one argument list, as the inner loop of the loader does. */
  method ReadArgv(line: seq<Byte> -> Line, start: seq<Byte>, n: nat) returns (r: Args)
    ensures r == ReadArgs(line, start, n)
  {
    var s, j := start, n;
    var argv: seq<Arg> := [];
    while j > 0
      invariant 0 <= j <= n && ReadArgs(line, start, n) == PrependAll(argv, ReadArgs(line, s, j))
    {
      if s == [] { return ArgsShort; }
      var h := line(s);
      if h.mark != DOLLAR { return ArgsBad; }
      var len := h.number;
      if len < 0 { return ArgsNoMemory; }
      if |s| < h.length + len { return ArgsShort; }
      var arg := s[h.length..h.length + len];
      if |s| < h.length + len + 2 { return ArgsShort; }
      var rest := s[h.length + len + 2..];
      assert ReadArgs(line, s, j) == Prepend(arg, ReadArgs(line, rest, j - 1));
      PrependAllOne(argv, arg, ReadArgs(line, rest, j - 1));
      argv, s, j := argv + [arg], rest, j - 1;
    }
    return Args(argv, s);
  }

  /** Read one command, as the outer loop of the loader does. */
  method ReadArgc(line: seq<Byte> -> Line, s: seq<Byte>) returns (r: Read)
    requires s != []
    ensures r == ReadCommand(line, s)
  {
    var h := line(s);
    if h.mark != STAR { return Bad; }
    if h.bare { return if h.eof then Short else Unreadable; }
    if h.number < 1 { return Bad; }
    if |s| < h.length { return Short; }
    var got := ReadArgv(line, s[h.length..], h.number);
    return ToRead(got);
  }

  /** Replay the unread commands one by one. */
  method Replay(line: seq<Byte> -> Line, ghost read: seq<Byte> -> Read, kinds: Command -> Kind, f: seq<Byte>) returns (r: Outcome)
    requires Consumes(read) && forall s {:trigger read(s)} :: read(s) == ReadCommand(line, s)
    ensures r == LoadFrom(read, kinds, |f|, f, FRESH)
  {
    var l, s := FRESH, f;
    while s != []
      invariant |s| <= |f| && LoadFrom(read, kinds, |f|, f, FRESH) == LoadFrom(read, kinds, |f|, s, l)
      decreases |s|
    {
      var got := ReadArgc(line, s);
      assert got == read(s);
      match got {
        case Short => return Truncate(l.cmds, l.validUpTo);
        case Bad => return FormatError;
        case Unreadable => return Fatal;
        case NoMemory => return Fatal;
        case Got(argv, rest) =>
          var kind := kinds(argv);
          if kind == Unknown { return Fatal; }
          l, s := Execute(l, argv, kind, |f| - |rest|), rest;
      }
    }
    assert read([]) == AtEnd;
    if l.inMulti { return Truncate(l.cmds, l.validBeforeMulti); }
    return Loaded(l.cmds);
  }

  /** Replay the append only file. */
  method LoadAppendOnlyFile(kinds: Command -> Kind, f: seq<Byte>) returns (r: Outcome)
    ensures r == Load(kinds, f)
  {
    r := Replay(ReadLine, Reader, kinds, f);
  }

  // ----------------------------------------------------------- reading headers

  predicate AllDigits(s: seq<Byte>) { forall i :: 0 <= i < |s| ==> IsDigit(s[i]) }

  lemma {:induction false} DigitsAreDigits(n: nat)
    ensures AllDigits(Digits(n)) && (n > 0 ==> Digits(n)[0] > 48)
  {
    if n >= 10 { DigitsAreDigits(n / 10); }
  }

  /** A number below ten to the k has at most k digits. */
  lemma {:induction false} DigitsShort(n: nat, k: nat, bound: nat)
    requires k >= 1 && bound == Power10(k) && n < bound
    ensures |Digits(n)| <= k
    decreases k
  {
    if n >= 10 {
      assert k > 1;
      DigitsShort(n / 10, k - 1, Power10(k - 1));
    }
  }

  function Power10(k: nat): nat { if k == 0 then 1 else 10 * Power10(k - 1) }

  lemma {:induction false} LeadingDigitsAppend(a: seq<Byte>, b: seq<Byte>, acc: nat)
    requires AllDigits(a)
    ensures LeadingDigits(a + b, acc) == LeadingDigits(b, LeadingDigits(a, acc))
    decreases |a|
  {
    if a == [] {
      assert a + b == b;
    } else {
      LeadingDigitsAppend(a[1..], b, 10 * acc + (a[0] - 48));
      assert (a + b)[1..] == a[1..] + b;
    }
  }

  lemma {:induction false} DigitsValue(n: nat)
    ensures LeadingDigits(Digits(n), 0) == n
  {
    if n >= 10 {
      DigitsValue(n / 10);
      DigitsAreDigits(n / 10);
      LeadingDigitsAppend(Digits(n / 10), [48 + n % 10], 0);
      assert LeadingDigits([48 + n % 10][1..], n) == n;
    } else {
      assert LeadingDigits([48 + n][1..], n) == n;
    }
  }

  lemma DigitsThenEnd(n: nat, tail: seq<Byte>)
    requires tail == [] || !(48 <= tail[0] <= 57)
    ensures LeadingDigits(Digits(n) + tail, 0) == n
  {
    DigitsAreDigits(n);
    LeadingDigitsAppend(Digits(n), tail, 0);
    DigitsValue(n);
  }

  lemma {:induction false} BlanksAreSkipped(blanks: seq<Byte>, rest: seq<Byte>)
    requires forall i :: 0 <= i < |blanks| ==> blanks[i] == 32 || 9 <= blanks[i] <= 13
    ensures ToNumber(blanks + rest) == ToNumber(rest)
    decreases |blanks|
  {
    if blanks == [] {
      assert blanks + rest == rest;
    } else {
      BlanksAreSkipped(blanks[1..], rest);
      assert (blanks + rest)[1..] == blanks[1..] + rest;
    }
  }

  lemma SignIsRead(sign: seq<Byte>, n: nat, tail: seq<Byte>)
    requires sign in {[], [43], [45]} && (tail == [] || !(48 <= tail[0] <= 57))
    ensures ToNumber(sign + (Digits(n) + tail)) == if sign == [45] then 0 - n else n
  {
    DigitsThenEnd(n, tail);
    DigitsAreDigits(n);
    var d := Digits(n) + tail;
    if sign == [] { assert sign + d == d; } else { assert (sign + d)[1..] == d; }
  }

  /** What counts as a number: blanks, a sign, digits, and anything that is no digit behind them. */
  lemma NumberIsRead(blanks: seq<Byte>, sign: seq<Byte>, n: nat, tail: seq<Byte>)
    requires forall i :: 0 <= i < |blanks| ==> blanks[i] == 32 || 9 <= blanks[i] <= 13
    requires sign in {[], [43], [45]} && (tail == [] || !(48 <= tail[0] <= 57))
    ensures ToNumber(blanks + (sign + (Digits(n) + tail))) == if sign == [45] then 0 - n else n
  {
    BlanksAreSkipped(blanks, sign + (Digits(n) + tail));
    SignIsRead(sign, n, tail);
  }

  lemma {:induction false} LeadingDigitsGrow(s: seq<Byte>, acc: nat)
    ensures LeadingDigits(s, acc) >= acc
    decreases |s|
  {
    if s != [] && IsDigit(s[0]) { LeadingDigitsGrow(s[1..], 10 * acc + (s[0] - 48)); }
  }

  /** Numbers the C types of the loader can hold. */
  predicate Countable(n: nat) { n < 0x8000_0000_0000_0000 }

  lemma HeaderIsShort(n: nat)
    requires Countable(n)
    ensures |Digits(n)| <= 20
  {
    assert Power10(20) == 100_000_000_000_000_000_000 by {
      assert Power10(4) == 10_000;
      assert Power10(8) == 100_000_000;
      assert Power10(12) == 1_000_000_000_000;
      assert Power10(16) == 10_000_000_000_000_000;
    }
    DigitsShort(n, 20, Power10(20));
  }

  /** A line read passes over bytes that hold no newline. */
  lemma {:induction false} LineSkips(a: seq<Byte>, b: seq<Byte>, room: nat)
    requires |a| <= room && forall i :: 0 <= i < |a| ==> a[i] != LF
    ensures LineLength(a + b, room) == |a| + LineLength(b, room - |a|)
    decreases |a|
  {
    if a == [] {
      assert a + b == b;
    } else {
      LineSkips(a[1..], b, room - 1);
      assert (a + b)[1..] == a[1..] + b;
    }
  }

  lemma HeaderSplits(mark: Byte, n: nat, tail: seq<Byte>)
    ensures Header(mark, n) + tail == ([mark] + Digits(n) + [CR]) + ([LF] + tail)
    ensures (Header(mark, n) + tail)[1..|Header(mark, n)|] == Digits(n) + CRLF
    ensures |Header(mark, n)| == |Digits(n)| + 3 && (Header(mark, n) + tail)[0] == mark
  {
    assert Header(mark, n) == [mark] + Digits(n) + CRLF;
    assert (Header(mark, n) + tail)[1..|Header(mark, n)|] == Header(mark, n)[1..];
  }

  /** A whole header is read as one line, and its number comes back. */
  lemma HeaderReadsBack(mark: Byte, n: nat, tail: seq<Byte>)
    requires mark != LF && Countable(n)
    ensures var h := ReadLine(Header(mark, n) + tail);
            h.length == |Header(mark, n)| && h.mark == mark && !h.bare && h.number == n
  {
    var s, d := Header(mark, n) + tail, Digits(n);
    HeaderIsShort(n);
    DigitsAreDigits(n);
    HeaderSplits(mark, n, tail);
    LineSkips([mark] + d + [CR], [LF] + tail, LINE);
    DigitsValue(n);
    LeadingDigitsAppend(d, CRLF, 0);
  }

  lemma HeaderPrefix(mark: Byte, n: nat, k: nat)
    requires k < |Header(mark, n)|
    ensures Header(mark, n)[..k] == ([mark] + Digits(n) + [CR])[..k] && |Header(mark, n)| == |Digits(n)| + 3
  {
    var h := [mark] + Digits(n) + [CR];
    assert Header(mark, n) == h + [LF];
    assert (h + [LF])[..k] == h[..k];
  }

  /** A header cut short is read to the end of the file; a positive leading digit keeps its number positive. */
  lemma HeaderCutShort(mark: Byte, n: nat, k: nat)
    requires mark != LF && Countable(n) && 0 < k < |Header(mark, n)|
    ensures var h := ReadLine(Header(mark, n)[..k]);
            h.length == k && h.mark == mark && h.eof && h.number >= 0 && (h.bare <==> k == 1) && (k > 1 && n > 0 ==> h.number >= 1)
  {
    var s, d := Header(mark, n)[..k], Digits(n);
    HeaderIsShort(n);
    DigitsAreDigits(n);
    HeaderPrefix(mark, n, k);
    LineSkips(s, [], LINE);
    assert s + [] == s;
    if k > 1 {
      CutDigit(mark, d, k);
      LeadingDigitsGrow(s[1..k][1..], d[0] - 48);
    }
  }

  lemma CutDigit(mark: Byte, d: seq<Byte>, k: nat)
    requires d != [] && 1 < k <= |d| + 2
    ensures ([mark] + d + [CR])[..k][1..k][0] == d[0]
  {
    assert ([mark] + d + [CR])[1] == d[0];
  }

  /** What the parsers need of the line reader: whole headers read back, and headers cut short reach the end. */
  ghost predicate Faithful(line: seq<Byte> -> Line) {
    && (forall mark: Byte, n: nat, tail: seq<Byte> {:trigger line(Header(mark, n) + tail)} :: mark != LF && Countable(n) ==>
          var h := line(Header(mark, n) + tail);
          h.length == |Header(mark, n)| && h.mark == mark && !h.bare && h.number == n)
    && (forall mark: Byte, n: nat, k: nat {:trigger line(Header(mark, n)[..k])} :: mark != LF && Countable(n) && 0 < k < |Header(mark, n)| ==>
          var h := line(Header(mark, n)[..k]);
          h.length == k && h.mark == mark && h.eof && h.number >= 0 && (h.bare <==> k == 1) && (k > 1 && n > 0 ==> h.number >= 1))
  }

  lemma ReadLineIsFaithful()
    ensures Faithful(ReadLine)
  {
    forall mark: Byte, n: nat, tail: seq<Byte> | mark != LF && Countable(n)
      ensures var h := ReadLine(Header(mark, n) + tail);
              h.length == |Header(mark, n)| && h.mark == mark && !h.bare && h.number == n
    {
      HeaderReadsBack(mark, n, tail);
    }
    forall mark: Byte, n: nat, k: nat | mark != LF && Countable(n) && 0 < k < |Header(mark, n)|
      ensures var h := ReadLine(Header(mark, n)[..k]);
              h.length == k && h.mark == mark && h.eof && h.number >= 0 && (h.bare <==> k == 1) && (k > 1 && n > 0 ==> h.number >= 1)
    {
      HeaderCutShort(mark, n, k);
    }
  }

  // ------------------------------------------------------------- round trips

  /** A command the server can run: it has a name, and its sizes fit the C types: an int for the count, a long for each length. */
  predicate Wellformed(c: Command) {
    1 <= |c| < 0x8000_0000 && forall i :: 0 <= i < |c| ==> Countable(|c[i]|)
  }

  /** A whole argument is read back. */
  lemma ArgReadsBack(line: seq<Byte> -> Line, a: Arg, tail: seq<Byte>, n: nat)
    requires Faithful(line) && Countable(|a|) && n > 0
    ensures ReadArgs(line, EncodeArg(a) + tail, n) == Prepend(a, ReadArgs(line, tail, n - 1))
  {
    var h := Header(DOLLAR, |a|);
    var s := EncodeArg(a) + tail;
    assert s == h + (a + CRLF + tail);
    assert line(h + (a + CRLF + tail)).number == |a|;
    assert s[|h|..|h| + |a|] == a;
    assert s[|h| + |a| + 2..] == tail;
  }

  lemma {:induction false} ArgsReadBack(line: seq<Byte> -> Line, args: seq<Arg>, tail: seq<Byte>)
    requires Faithful(line) && forall i :: 0 <= i < |args| ==> Countable(|args[i]|)
    ensures ReadArgs(line, EncodeArgs(args) + tail, |args|) == Args(args, tail)
    decreases |args|
  {
    if args == [] {
      assert EncodeArgs(args) + tail == tail;
    } else {
      ArgsReadBack(line, args[1..], tail);
      ArgReadsBack(line, args[0], EncodeArgs(args[1..]) + tail, |args|);
      assert EncodeArgs(args) + tail == EncodeArg(args[0]) + (EncodeArgs(args[1..]) + tail);
      assert [args[0]] + args[1..] == args;
    }
  }

  /** Reading a command where its encoding stands returns it, whatever bytes its arguments hold. */
  lemma CommandReadsBack(line: seq<Byte> -> Line, c: Command, tail: seq<Byte>)
    requires Faithful(line) && Wellformed(c)
    ensures ReadCommand(line, Encode(c) + tail) == Got(c, tail)
  {
    var h := Header(STAR, |c|);
    var s := Encode(c) + tail;
    assert s == h + (EncodeArgs(c) + tail);
    assert line(h + (EncodeArgs(c) + tail)).number == |c|;
    assert s[|h|..] == EncodeArgs(c) + tail;
    ArgsReadBack(line, c, tail);
  }

  /** An argument cut anywhere, even before its first byte, is a short read. */
  lemma ArgCutShort(line: seq<Byte> -> Line, a: Arg, k: nat, n: nat)
    requires Faithful(line) && Countable(|a|) && k < |EncodeArg(a)| && n > 0
    ensures ReadArgs(line, EncodeArg(a)[..k], n) == ArgsShort
  {
    var h, s := Header(DOLLAR, |a|), EncodeArg(a)[..k];
    if 0 < k < |h| {
      assert s == h[..k];
      assert line(h[..k]).length == k;
    } else if k >= |h| {
      assert s == h + s[|h|..];
      assert line(h + s[|h|..]).number == |a|;
    }
  }

  lemma {:induction false} ArgsCutShort(line: seq<Byte> -> Line, args: seq<Arg>, k: nat)
    requires Faithful(line) && k < |EncodeArgs(args)| && forall i :: 0 <= i < |args| ==> Countable(|args[i]|)
    ensures ReadArgs(line, EncodeArgs(args)[..k], |args|) == ArgsShort
    decreases |args|
  {
    var first, rest := EncodeArg(args[0]), EncodeArgs(args[1..]);
    if k < |first| {
      assert EncodeArgs(args)[..k] == first[..k];
      ArgCutShort(line, args[0], k, |args|);
    } else {
      assert EncodeArgs(args)[..k] == first + rest[..k - |first|];
      ArgsCutShort(line, args[1..], k - |first|);
      ArgReadsBack(line, args[0], rest[..k - |first|], |args|);
    }
  }

  /** A command cut anywhere inside is a short read: never a format error, never a command. */
  lemma CommandCutShort(line: seq<Byte> -> Line, c: Command, k: nat)
    requires Faithful(line) && Wellformed(c) && 0 < k < |Encode(c)|
    ensures ReadCommand(line, Encode(c)[..k]) == Short
  {
    var h, s := Header(STAR, |c|), Encode(c)[..k];
    if k < |h| {
      assert s == h[..k];
      assert line(h[..k]).length == k && s[k..] == [];
    } else {
      assert s == h + EncodeArgs(c)[..k - |h|];
      assert line(h + EncodeArgs(c)[..k - |h|]).number == |c|;
      assert s[|h|..] == EncodeArgs(c)[..k - |h|];
      ArgsCutShort(line, c, k - |h|);
    }
  }

  /** What the loader needs of the parser. */
  ghost predicate Parses(read: seq<Byte> -> Read) {
    && Consumes(read) && read([]) == AtEnd
    && (forall c: Command, tail: seq<Byte> {:trigger read(Encode(c) + tail)} :: Wellformed(c) ==> read(Encode(c) + tail) == Got(c, tail))
    && (forall c: Command, k: nat {:trigger read(Encode(c)[..k])} :: Wellformed(c) && 0 < k < |Encode(c)| ==> read(Encode(c)[..k]) == Short)
  }

  lemma ReaderParses()
    ensures Parses(Reader)
  {
    ReadLineIsFaithful();
    forall c: Command, tail: seq<Byte> | Wellformed(c) ensures Reader(Encode(c) + tail) == Got(c, tail) {
      CommandReadsBack(ReadLine, c, tail);
    }
    forall c: Command, k: nat | Wellformed(c) && 0 < k < |Encode(c)| ensures Reader(Encode(c)[..k]) == Short {
      CommandCutShort(ReadLine, c, k);
    }
  }

  /** The loader's state after commands that start at offset `pos`. */
  function After(kinds: Command -> Kind, l: Loader, cs: seq<Command>, pos: nat): Loader
    decreases |cs|
  {
    if cs == [] then l
    else After(kinds, Execute(l, cs[0], kinds(cs[0]), pos + |Encode(cs[0])|), cs[1..], pos + |Encode(cs[0])|)
  }

  ghost predicate Loadable(kinds: Command -> Kind, cs: seq<Command>) {
    forall i :: 0 <= i < |cs| ==> Wellformed(cs[i]) && kinds(cs[i]) != Unknown
  }

  /** Whole commands at the front of a file are run, and the loader goes on behind them. */
  lemma {:induction false} WholeCommandsLoad(read: seq<Byte> -> Read, kinds: Command -> Kind, size: nat, cs: seq<Command>, tail: seq<Byte>, l: Loader)
    requires Parses(read) && Loadable(kinds, cs) && |EncodeAll(cs)| + |tail| <= size
    ensures LoadFrom(read, kinds, size, EncodeAll(cs) + tail, l)
         == LoadFrom(read, kinds, size, tail, After(kinds, l, cs, size - |EncodeAll(cs)| - |tail|))
    decreases |cs|
  {
    if cs == [] {
      assert EncodeAll(cs) + tail == tail;
    } else {
      var rest := EncodeAll(cs[1..]) + tail;
      assert EncodeAll(cs) + tail == Encode(cs[0]) + rest;
      assert read(Encode(cs[0]) + rest) == Got(cs[0], rest);
      WholeCommandsLoad(read, kinds, size, cs[1..], tail, Execute(l, cs[0], kinds(cs[0]), size - |rest|));
    }
  }

  /** Inside which transaction a sequence of commands ends, told without the loader. */
  function OpenMulti(kinds: Command -> Kind, cs: seq<Command>): bool
    decreases |cs|
  {
    if cs == [] then false
    else
      var kind := kinds(cs[|cs| - 1]);
      if OpenMulti(kinds, cs[..|cs| - 1]) then kind != Exec else kind == Multi
  }

  /** The number of commands before the MULTI that opened the unfinished transaction; all of them when there is none. */
  function OpenedAt(kinds: Command -> Kind, cs: seq<Command>): (k: nat)
    ensures k <= |cs|
    decreases |cs|
  {
    if cs == [] then 0
    else
      var init, kind := cs[..|cs| - 1], kinds(cs[|cs| - 1]);
      if OpenMulti(kinds, init) then (if kind == Exec then |cs| else OpenedAt(kinds, init))
      else if kind == Multi then |cs| - 1
      else |cs|
  }

  /** The number of commands before the last MULTI. */
  function BeforeLastMulti(kinds: Command -> Kind, cs: seq<Command>): (k: nat)
    ensures k <= |cs|
    decreases |cs|
  {
    if cs == [] then 0
    else if kinds(cs[|cs| - 1]) == Multi then |cs| - 1
    else BeforeLastMulti(kinds, cs[..|cs| - 1])
  }

  lemma {:induction false} AfterAppend(kinds: Command -> Kind, l: Loader, cs: seq<Command>, c: Command, pos: nat)
    ensures var m := After(kinds, l, cs, pos);
            After(kinds, l, cs + [c], pos) == Execute(m, c, kinds(c), pos + |EncodeAll(cs)| + |Encode(c)|)
    decreases |cs|
  {
    if cs == [] {
      assert (cs + [c])[1..] == [];
    } else {
      var next := pos + |Encode(cs[0])|;
      AfterAppend(kinds, Execute(l, cs[0], kinds(cs[0]), next), cs[1..], c, next);
      assert (cs + [c])[1..] == cs[1..] + [c];
    }
  }

  /** The loader has run the commands before an open transaction and queued those of the transaction. */
  ghost predicate Ran(l: Loader, kinds: Command -> Kind, cs: seq<Command>) {
    l.inMulti == OpenMulti(kinds, cs) && l.cmds == cs[..OpenedAt(kinds, cs)] && l.queue == cs[OpenedAt(kinds, cs)..]
  }

  /** What the loader knows after whole commands, in terms of the commands alone. */
  ghost predicate Knows(l: Loader, kinds: Command -> Kind, cs: seq<Command>) {
    Ran(l, kinds, cs) && Marked(l, kinds, cs)
  }

  /** The offsets are the end of the last whole command and the start of the last MULTI. */
  ghost predicate Marked(l: Loader, kinds: Command -> Kind, cs: seq<Command>) {
    l.validUpTo == |EncodeAll(cs)| && l.validBeforeMulti == |EncodeAll(cs[..BeforeLastMulti(kinds, cs)])|
  }

  lemma OpenStep(kinds: Command -> Kind, cs: seq<Command>, c: Command)
    ensures OpenMulti(kinds, cs + [c]) == (if OpenMulti(kinds, cs) then kinds(c) != Exec else kinds(c) == Multi)
    ensures OpenedAt(kinds, cs + [c]) == if OpenMulti(kinds, cs) && kinds(c) != Exec then OpenedAt(kinds, cs)
                                         else if !OpenMulti(kinds, cs) && kinds(c) == Multi then |cs|
                                         else |cs| + 1
    ensures BeforeLastMulti(kinds, cs + [c]) == if kinds(c) == Multi then |cs| else BeforeLastMulti(kinds, cs)
  {
    assert (cs + [c])[..|cs|] == cs;
  }

  lemma Cuts<T>(cs: seq<T>, c: T, k: nat)
    requires k <= |cs|
    ensures (cs + [c])[..k] == cs[..k] && (cs + [c])[k..] == cs[k..] + [c] && cs[..k] + cs[k..] + [c] == cs + [c]
    ensures (cs + [c])[..|cs|] == cs && (cs + [c])[|cs|..] == [c] && cs[..|cs|] == cs
    ensures (cs + [c])[..|cs| + 1] == cs + [c] && (cs + [c])[|cs| + 1..] == []
  {
  }

  lemma RanMore(l: Loader, kinds: Command -> Kind, cs: seq<Command>, c: Command, next: nat)
    requires Ran(l, kinds, cs) && (OpenMulti(kinds, cs) || OpenedAt(kinds, cs) == |cs|)
    ensures Ran(Execute(l, c, kinds(c), next), kinds, cs + [c])
  {
    OpenStep(kinds, cs, c);
    Cuts(cs, c, OpenedAt(kinds, cs));
  }

  lemma MarkedMore(l: Loader, kinds: Command -> Kind, cs: seq<Command>, c: Command)
    requires Marked(l, kinds, cs)
    ensures Marked(Execute(l, c, kinds(c), |EncodeAll(cs)| + |Encode(c)|), kinds, cs + [c])
  {
    ConcatAppend(Encode, cs, c);
    OpenStep(kinds, cs, c);
    Cuts(cs, c, BeforeLastMulti(kinds, cs));
  }

  lemma {:induction false} ClosedRunsAll(kinds: Command -> Kind, cs: seq<Command>)
    ensures OpenMulti(kinds, cs) <==> OpenedAt(kinds, cs) < |cs|
    decreases |cs|
  {
    if cs != [] { ClosedRunsAll(kinds, cs[..|cs| - 1]); }
  }

  /** The loader ran exactly the commands before an open transaction, and its offsets are the end and the last MULTI. */
  lemma {:induction false} AfterMeaning(kinds: Command -> Kind, cs: seq<Command>)
    ensures Knows(After(kinds, FRESH, cs, 0), kinds, cs)
    decreases |cs|
  {
    if cs != [] {
      var init, c := cs[..|cs| - 1], cs[|cs| - 1];
      assert cs == init + [c];
      AfterMeaning(kinds, init);
      AfterAppend(kinds, FRESH, init, c, 0);
      ClosedRunsAll(kinds, init);
      RanMore(After(kinds, FRESH, init, 0), kinds, init, c, |EncodeAll(init)| + |Encode(c)|);
      MarkedMore(After(kinds, FRESH, init, 0), kinds, init, c);
    }
  }

  /** What loading the encodings of `cs` comes to. */
  function LoadOf(kinds: Command -> Kind, cs: seq<Command>): Outcome {
    if OpenMulti(kinds, cs) then Truncate(cs[..OpenedAt(kinds, cs)], |EncodeAll(cs[..BeforeLastMulti(kinds, cs)])|)
    else Loaded(cs)
  }

  /**
   Round trip: loading the encodings of any commands runs exactly those
   commands, for arbitrary argument bytes.  An unfinished transaction at the end
   is not run, and the file is cut in front of its last MULTI.
   */
  lemma LogRoundTrip(kinds: Command -> Kind, cs: seq<Command>)
    requires Loadable(kinds, cs)
    ensures Load(kinds, EncodeAll(cs)) == LoadOf(kinds, cs)
  {
    ReaderParses();
    WholeLoads(Reader, kinds, cs);
  }

  lemma EndLoads(read: seq<Byte> -> Read, kinds: Command -> Kind, size: nat, l: Loader)
    requires Consumes(read) && read([]) == AtEnd
    ensures LoadFrom(read, kinds, size, [], l) == if l.inMulti then Truncate(l.cmds, l.validBeforeMulti) else Loaded(l.cmds)
  {
  }

  lemma WholeLoads(read: seq<Byte> -> Read, kinds: Command -> Kind, cs: seq<Command>)
    requires Parses(read) && Loadable(kinds, cs)
    ensures LoadFrom(read, kinds, |EncodeAll(cs)|, EncodeAll(cs), FRESH) == LoadOf(kinds, cs)
  {
    var f := EncodeAll(cs);
    assert f + [] == f;
    WholeCommandsLoad(read, kinds, |f|, cs, [], FRESH);
    EndLoads(read, kinds, |f|, After(kinds, FRESH, cs, 0));
    AfterMeaning(kinds, cs);
    ClosedRunsAll(kinds, cs);
    assert cs[..|cs|] == cs;
  }

  /**
   A file cut strictly inside a command is always a short read.  The loader has
   run the whole commands before the cut, except those of an open transaction,
   and truncates the file behind the last whole command.
   */
  lemma CutLogTruncates(kinds: Command -> Kind, cs: seq<Command>, c: Command, k: nat)
    requires Loadable(kinds, cs) && Wellformed(c) && 0 < k < |Encode(c)|
    ensures Load(kinds, EncodeAll(cs) + Encode(c)[..k]) == Truncate(cs[..OpenedAt(kinds, cs)], |EncodeAll(cs)|)
  {
    ReaderParses();
    CutLoads(Reader, kinds, cs, c, k);
  }

  lemma CutLoads(read: seq<Byte> -> Read, kinds: Command -> Kind, cs: seq<Command>, c: Command, k: nat)
    requires Parses(read) && Loadable(kinds, cs) && Wellformed(c) && 0 < k < |Encode(c)|
    ensures var f := EncodeAll(cs) + Encode(c)[..k];
            LoadFrom(read, kinds, |f|, f, FRESH) == Truncate(cs[..OpenedAt(kinds, cs)], |EncodeAll(cs)|)
  {
    var cut := Encode(c)[..k];
    WholeCommandsLoad(read, kinds, |EncodeAll(cs) + cut|, cs, cut, FRESH);
    AfterMeaning(kinds, cs);
  }

  // -------------------------------------------------------------- damaged files

  /** The header of a command without arguments, or with something else than its first argument behind it. */
  ghost predicate BadHeader(s: seq<Byte>, n: nat, tail: seq<Byte>) {
    Countable(n) && s == Header(STAR, n) + tail && (n > 0 ==> tail != [] && tail[0] != DOLLAR)
  }

  ghost predicate Damaged(s: seq<Byte>) { s != [] && (s[0] != STAR || exists n, tail :: BadHeader(s, n, tail)) }

  lemma NoCommand(s: seq<Byte>)
    requires Damaged(s)
    ensures Reader(s) == Bad
  {
    ReadLineIsFaithful();
    if s[0] == STAR {
      var n, tail :| BadHeader(s, n, tail);
      assert ReadLine(Header(STAR, n) + tail).number == n;
      if n > 0 { assert s[|Header(STAR, n)|..] == tail; }
    }
  }

  lemma {:induction false} LineEnds(s: seq<Byte>, room: nat)
    ensures var e := LineLength(s, room);
            (e == |s| && (e == 0 || s[e - 1] != LF) && e < room) <==> (|s| < room && LF !in s)
    decreases room
  {
    if room > 0 && s != [] && s[0] != LF {
      LineEnds(s[1..], room - 1);
      var e := LineLength(s[1..], room - 1);
      assert e > 0 ==> s[e] == s[1..][e - 1];
      assert LF in s <==> LF in s[1..];
    }
  }

  /** A line that ends right behind its star is short if the file ends in it, and cannot be read otherwise. */
  lemma BareStar(s: seq<Byte>)
    requires |s| >= 1 && s[0] == STAR && (|s| >= 2 ==> s[1] == 0)
    ensures Reader(s) == if |s| < LINE && LF !in s then Short else Unreadable
  {
    LineEnds(s, LINE);
  }

  /** Damage behind whole commands is an error, never a short file to be cut; so is a command the server does not know. */
  lemma DamageIsNotCut(kinds: Command -> Kind, cs: seq<Command>, s: seq<Byte>)
    requires Loadable(kinds, cs) && Damaged(s)
    ensures Load(kinds, EncodeAll(cs) + s) == FormatError
  {
    ReaderParses();
    NoCommand(s);
    BehindCommands(Reader, kinds, cs, s);
  }

  lemma UnknownIsFatal(kinds: Command -> Kind, cs: seq<Command>, c: Command, tail: seq<Byte>)
    requires Loadable(kinds, cs) && Wellformed(c) && kinds(c) == Unknown
    ensures Load(kinds, EncodeAll(cs) + (Encode(c) + tail)) == Fatal
  {
    ReaderParses();
    assert Reader(Encode(c) + tail) == Got(c, tail);
    BehindCommands(Reader, kinds, cs, Encode(c) + tail);
  }

  lemma BehindCommands(read: seq<Byte> -> Read, kinds: Command -> Kind, cs: seq<Command>, s: seq<Byte>)
    requires Parses(read) && Loadable(kinds, cs)
    requires read(s) == Bad || (read(s).Got? && kinds(read(s).c) == Unknown)
    ensures LoadFrom(read, kinds, |EncodeAll(cs) + s|, EncodeAll(cs) + s, FRESH) == if read(s) == Bad then FormatError else Fatal
  {
    WholeCommandsLoad(read, kinds, |EncodeAll(cs) + s|, cs, s, FRESH);
  }

  // ------------------------------------------------------------- repaired files

  /** The file a start leaves behind: cut where the loader truncates it. */
  function Repaired(kinds: Command -> Kind, f: seq<Byte>): seq<Byte> {
    var r := Load(kinds, f);
    if r.Truncate? && r.offset <= |f| then f[..r.offset] else f
  }

  /** The commands that are left in the file after a cut at byte `k` of the command behind `cs`. */
  function Left(kinds: Command -> Kind, cs: seq<Command>, k: nat): seq<Command> {
    if k == 0 && OpenMulti(kinds, cs) then cs[..BeforeLastMulti(kinds, cs)] else cs
  }

  /** A file of whole commands loses the last MULTI of an open transaction and what follows it. */
  lemma RepairWhole(kinds: Command -> Kind, cs: seq<Command>)
    requires Loadable(kinds, cs)
    ensures Repaired(kinds, EncodeAll(cs)) == EncodeAll(Left(kinds, cs, 0))
  {
    LogRoundTrip(kinds, cs);
    ConcatPrefix(Encode, cs, BeforeLastMulti(kinds, cs));
  }

  lemma RepairLeaves(kinds: Command -> Kind, cs: seq<Command>, c: Command, k: nat)
    requires Loadable(kinds, cs) && Wellformed(c) && k < |Encode(c)|
    ensures Repaired(kinds, EncodeAll(cs) + Encode(c)[..k]) == EncodeAll(Left(kinds, cs, k))
  {
    if k == 0 {
      assert EncodeAll(cs) + Encode(c)[..k] == EncodeAll(cs);
      RepairWhole(kinds, cs);
    } else {
      CutLogTruncates(kinds, cs, c, k);
    }
  }

  /**
   The repaired file, for a cut at any byte: a restart loads it without a
   complaint if and only if the commands left in it end outside a transaction.
   A cut inside a command of a transaction leaves the transaction open; a cut
   between two commands leaves one open when MULTI was nested.
   */
  lemma RepairedLogLoadsIff(kinds: Command -> Kind, cs: seq<Command>, c: Command, k: nat)
    requires Loadable(kinds, cs) && Wellformed(c) && k < |Encode(c)|
    ensures Load(kinds, Repaired(kinds, EncodeAll(cs) + Encode(c)[..k])).Loaded?
            <==> if k > 0 then !OpenMulti(kinds, cs)
                 else !OpenMulti(kinds, cs) || !OpenMulti(kinds, cs[..BeforeLastMulti(kinds, cs)])
  {
    RepairLeaves(kinds, cs, c, k);
    LogRoundTrip(kinds, Left(kinds, cs, k));
  }

  /** The file after `n` starts that each repair it. */
  function Restarted(repair: seq<Byte> -> seq<Byte>, f: seq<Byte>, n: nat): seq<Byte>
    decreases n
  {
    if n == 0 then f else Restarted(repair, repair(f), n - 1)
  }

  function Repair(kinds: Command -> Kind): seq<Byte> -> seq<Byte> { f => Repaired(kinds, f) }

  ghost predicate CutsBack(repair: seq<Byte> -> seq<Byte>, kinds: Command -> Kind) {
    forall cs {:trigger repair(EncodeAll(cs))} :: Loadable(kinds, cs) ==> repair(EncodeAll(cs)) == EncodeAll(Left(kinds, cs, 0))
  }

  lemma {:induction false} LastMultiInside(kinds: Command -> Kind, cs: seq<Command>)
    requires OpenMulti(kinds, cs)
    ensures OpenedAt(kinds, cs) <= BeforeLastMulti(kinds, cs) < |cs|
    ensures OpenedAt(kinds, cs[..BeforeLastMulti(kinds, cs)]) == OpenedAt(kinds, cs)
    decreases |cs|
  {
    var init := cs[..|cs| - 1];
    ClosedRunsAll(kinds, init);
    if kinds(cs[|cs| - 1]) != Multi {
      LastMultiInside(kinds, init);
      var b := BeforeLastMulti(kinds, init);
      assert cs[..b] == init[..b];
    }
  }

  /** Enough restarts cut an unfinished transaction off completely: what is left is what was run. */
  lemma RestartsSettle(kinds: Command -> Kind, cs: seq<Command>, n: nat)
    requires Loadable(kinds, cs) && |cs| <= n
    ensures Restarted(Repair(kinds), EncodeAll(cs), n) == EncodeAll(cs[..OpenedAt(kinds, cs)])
  {
    forall ds | Loadable(kinds, ds) ensures Repair(kinds)(EncodeAll(ds)) == EncodeAll(Left(kinds, ds, 0)) { RepairWhole(kinds, ds); }
    CutsSettle(Repair(kinds), kinds, cs, n);
  }

  lemma {:induction false} CutsSettle(repair: seq<Byte> -> seq<Byte>, kinds: Command -> Kind, cs: seq<Command>, n: nat)
    requires CutsBack(repair, kinds) && Loadable(kinds, cs) && |cs| <= n
    ensures Restarted(repair, EncodeAll(cs), n) == EncodeAll(cs[..OpenedAt(kinds, cs)])
    decreases n
  {
    ClosedRunsAll(kinds, cs);
    assert repair(EncodeAll(cs)) == EncodeAll(Left(kinds, cs, 0));
    if OpenMulti(kinds, cs) {
      LastMultiInside(kinds, cs);
      var left := cs[..BeforeLastMulti(kinds, cs)];
      CutsSettle(repair, kinds, left, n - 1);
      assert left[..OpenedAt(kinds, cs)] == cs[..OpenedAt(kinds, cs)];
    } else {
      StaysPut(repair, EncodeAll(cs), n);
      assert cs[..OpenedAt(kinds, cs)] == cs;
    }
  }

  lemma {:induction false} StaysPut(repair: seq<Byte> -> seq<Byte>, f: seq<Byte>, n: nat)
    requires repair(f) == f
    ensures Restarted(repair, f, n) == f
  {
    if n > 0 { StaysPut(repair, f, n - 1); }
  }

  lemma {:induction false} StaysOpen(kinds: Command -> Kind, cs: seq<Command>, body: seq<Command>)
    requires OpenMulti(kinds, cs) && forall i :: 0 <= i < |body| ==> kinds(body[i]) != Exec
    ensures OpenMulti(kinds, cs + body)
    decreases |body|
  {
    if body == [] {
      assert cs + body == cs;
    } else {
      var init := body[..|body| - 1];
      StaysOpen(kinds, cs, init);
      assert (cs + body)[..|cs + body| - 1] == cs + init;
    }
  }

  /**
   What the halfway repair can do: the next complete transaction that the server
   appends closes the torn one, and a later start runs the commands of the torn
   transaction, which no start before has run.
   */
  lemma TornTransactionRevives(kinds: Command -> Kind, cs: seq<Command>, multi: Command, body: seq<Command>, exec: Command)
    requires OpenMulti(kinds, cs) && kinds(multi) == Multi && kinds(exec) == Exec
    requires forall i :: 0 <= i < |body| ==> kinds(body[i]) != Exec
    requires Loadable(kinds, cs + ([multi] + body + [exec]))
    ensures Load(kinds, EncodeAll(cs)).Truncate? && Load(kinds, EncodeAll(cs)).cmds == cs[..OpenedAt(kinds, cs)] < cs
    ensures Load(kinds, EncodeAll(cs + ([multi] + body + [exec]))) == Loaded(cs + ([multi] + body + [exec]))
  {
    var inner := [multi] + body;
    var all := cs + (inner + [exec]);
    StaysOpen(kinds, cs, inner);
    assert all[..|all| - 1] == cs + inner;
    LogRoundTrip(kinds, all);
    assert forall i :: 0 <= i < |cs| ==> cs[i] == all[i];
    LogRoundTrip(kinds, cs);
    ClosedRunsAll(kinds, cs);
  }

  /** Two MULTI in a row, cut at the boundary: the first one stays in the repaired file. */
  lemma NestedMultiLeavesMulti(kinds: Command -> Kind, multi: Command)
    requires Wellformed(multi) && kinds(multi) == Multi
    ensures Load(kinds, EncodeAll([multi, multi])) == Truncate([], |EncodeAll([multi])|)
    ensures Load(kinds, Repaired(kinds, EncodeAll([multi, multi]))) == Truncate([], 0)
  {
    var one, two := [multi], [multi, multi];
    assert two[..1] == one && one[..0] == [] && two[..0] == [];
    assert OpenMulti(kinds, one) && OpenedAt(kinds, one) == 0 && BeforeLastMulti(kinds, one) == 0;
    LogRoundTrip(kinds, one);
    LogRoundTrip(kinds, two);
    RepairWhole(kinds, two);
  }

  /** A concrete case: MULTI, then a command cut in its last byte.  Nothing was run, and MULTI stays in the file. */
  lemma CutInsideMultiLeavesMulti()
    ensures var kinds := (c: Command) => if c == [[109]] then Multi else Other;
            var f := EncodeAll([[[109]]]) + Encode([[120]])[..|Encode([[120]])| - 1];
            && Load(kinds, f) == Truncate([], |EncodeAll([[[109]]])|)
            && Load(kinds, Repaired(kinds, f)) == Truncate([], 0)
  {
    var kinds := (c: Command) => if c == [[109]] then Multi else Other;
    var cs: seq<Command> := [[[109]]];
    var c: Command := [[120]];
    assert cs[..0] == [] && OpenMulti(kinds, cs) && BeforeLastMulti(kinds, cs) == 0 && OpenedAt(kinds, cs) == 0;
    CutLogTruncates(kinds, cs, c, |Encode(c)| - 1);
    RepairLeaves(kinds, cs, c, |Encode(c)| - 1);
    LogRoundTrip(kinds, cs);
  }
}
