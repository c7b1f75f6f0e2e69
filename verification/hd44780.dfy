/** The HD44780 character display driver, seen as the sequence of
    controller accesses its handlers make.  A command byte (RS low), a
    data byte (RS high) and the two kinds of reads are events of a trace;
    how each event is clocked onto the 4-bit bus is in `Hd44780Bus`. */
module Hd44780 {
  import opened Common

  // Command bytes and DDRAM line origins of the controller.
  const Init: byte := 0x33
  const FourBitMode: byte := 0x32
  const DispOnCursOff: byte := 0x0C
  const CursDecScrollOff: byte := 0x04
  const ClrScrn: byte := 0x01
  const GotoHome: byte := 0x02
  const GotoLine2: byte := 0xC0
  const Line1Start: byte := 0x00
  const Line2Start: byte := 0x40
  /** `1 << HD44780_DDRAM`: the "set DDRAM address" instruction bit. */
  const SetDdram: byte := 0x80

  const Newline: byte := 10

  /** `enum hd44780_mode`: the 8-bit mode has value 0, write-only 1. */
  datatype Mode = Mode8Bit | WriteOnly

  /** `enum hd44780_font`. */
  datatype Font = Font5x7 | Font5x10

  function ModeValue(m: Mode): byte {
    match m
    case Mode8Bit => 0
    case WriteOnly => 1
  }

  function FontValue(f: Font): byte {
    match f
    case Font5x7 => 0
    case Font5x10 => 1
  }

  /** Characters per line and number of lines of the panel. */
  datatype Format = Format(width: int, height: int)

  /** Panels the model covers: at most 64 columns, so that a column fits
      the 7-bit DDRAM address next to the line-2 origin 0x40. */
  predicate ValidFormat(f: Format) {
    1 <= f.width <= 64 && 1 <= f.height <= 64
  }

  /** One access of the controller: a command or data byte written, or a
      byte read back in command mode (busy flag and address counter) or
      in data mode (a DDRAM character). */
  datatype Event = Command(cmd: byte) | Data(data: byte) | Status(got: byte) | Fetch(got: byte)

  /** The `mode & HD44780_MODE_8BIT` test guarding the 8-bit bus code.
      The 8-bit mode has value 0, so the test never holds and every access
      goes through the 4-bit path. */
  function Uses8BitBus(m: Mode): (b: bool)
    ensures !b
  {
    And(ModeValue(m), ModeValue(Mode8Bit)) != 0
  }

  // ---------------------------------------------------------------------
  // Function set and initialisation

  /** `hd44780_set_lines_font` as written: the mode value shifted into
      bit 4, the line count minus one into bit 3, the font into bit 2, with
      the instruction bit 5, truncated to the command byte.  Bit 4 is the
      controller's DL bit (8-bit interface), so it is set for a write-only
      panel. */
  function FunctionSetAsWritten(mode: Mode, height: int, font: Font): (cmd: byte)
    requires 1 <= height <= 64
    ensures height <= 2 ==>
      cmd == 0x20 + 0x10 * ModeValue(mode) + 0x08 * (height - 1) + 0x04 * FontValue(font)
    ensures height <= 2 ==> ((cmd / 0x10) % 2 == 1 <==> mode == WriteOnly)
  {
    var c := (0x20 as bv16) | ((ModeValue(mode) as bv16) << 4)
             | (((height - 1) as bv16) << 3) | ((FontValue(font) as bv16) << 2);
    (c & 0xFF) as int
  }

  /** The function-set command the 4-bit driver needs: DL clear (4-bit
      interface) whatever the mode, N set for a panel of more than one
      line, F set for the 5x10 font. */
  function FunctionSet(height: int, font: Font): (cmd: byte)
    requires 1 <= height
    ensures (cmd / 0x20) % 2 == 1 && cmd < 0x40
    ensures (cmd / 0x10) % 2 == 0
    ensures (cmd / 0x08) % 2 == 1 <==> height > 1
    ensures (cmd / 0x04) % 2 == 1 <==> font == Font5x10
    ensures cmd % 4 == 0
  {
    0x20 + (if height > 1 then 0x08 else 0) + 0x04 * FontValue(font)
  }

  /** The driver's own command is wrong for a write-only panel, and for a
      three- or four-line panel: it asks for the 8-bit interface. */
  lemma FunctionSetSelects8BitBus()
    ensures FunctionSetAsWritten(WriteOnly, 2, Font5x7) == 0x38
    ensures FunctionSetAsWritten(Mode8Bit, 3, Font5x7) == 0x30
    ensures (FunctionSet(2, Font5x7) / 0x10) % 2 == 0
  {
  }

  /** The corrected command agrees with the driver's for the 8-bit-valued
      mode on a panel of one or two lines. */
  lemma FunctionSetAgrees(height: int, font: Font)
    requires 1 <= height <= 2
    ensures FunctionSet(height, font) == FunctionSetAsWritten(Mode8Bit, height, font)
  {
  }

  /** `hd44780_init`: reset twice, switch to the 4-bit interface (always,
      see `Uses8BitBus`), function set, display on with cursor off, entry
      mode, clear, home, then the characters of the NUL-terminated init
      text. */
  method InitSequence(mode: Mode, f: Format, font: Font, text: seq<byte>) returns (trace: seq<Event>)
    requires ValidFormat(f) && 0 in text
    ensures |trace| == 8 + StrLen(text)
    ensures trace[..8] == [Command(Init), Command(Init), Command(FourBitMode),
                           Command(FunctionSetAsWritten(mode, f.height, font)),
                           Command(DispOnCursOff), Command(CursDecScrollOff),
                           Command(ClrScrn), Command(GotoHome)]
    ensures forall k :: 0 <= k < StrLen(text) ==> trace[8 + k] == Data(text[k])
    // where the driver's function set is right, it is the corrected one
    ensures mode == Mode8Bit && f.height <= 2 ==> trace[3] == Command(FunctionSet(f.height, font))
  {
    var len := StrLen(text);
    trace := [Command(Init), Command(Init)];
    if !Uses8BitBus(mode) {
      trace := trace + [Command(FourBitMode)];
    }
    trace := trace + [Command(FunctionSetAsWritten(mode, f.height, font))];
    trace := trace + [Command(DispOnCursOff), Command(CursDecScrollOff),
                      Command(ClrScrn), Command(GotoHome)];
    var i := 0;
    while i < len
      invariant i <= len && |trace| == 8 + i
      invariant trace[..8] == [Command(Init), Command(Init), Command(FourBitMode),
                           Command(FunctionSetAsWritten(mode, f.height, font)),
                           Command(DispOnCursOff), Command(CursDecScrollOff),
                           Command(ClrScrn), Command(GotoHome)]
      invariant forall k :: 0 <= k < i ==> trace[8 + k] == Data(text[k])
    {
      trace := trace + [Data(text[i])];
      i := i + 1;
    }
    if mode == Mode8Bit && f.height <= 2 {
      FunctionSetAgrees(f.height, font);
    }
  }

  // ---------------------------------------------------------------------
  // Writing the display

  /** The byte at index `i` ends a line: a newline, or the byte whose
      index (counted from the start of the buffer) equals the width. */
  predicate EndsLine(buf: seq<byte>, i: nat, width: int)
    requires i < |buf|
  {
    buf[i] == Newline || i == width
  }

  /** The line after `line` on the panel, wrapping from the last to the
      first. */
  function NextLine(f: Format, line: int): (r: int)
    requires ValidFormat(f) && 1 <= line <= f.height
    ensures 1 <= r <= f.height
  {
    if line == f.height then 1 else line + 1
  }

  /** The events `write_display` emits for `buf[i..n)` starting on line
      `line`, and the line it ends on.  A line end is consumed: it emits
      "home" on the last line and "go to line 2" otherwise. */
  function Walk(f: Format, buf: seq<byte>, n: nat, i: nat, line: int): (r: (seq<Event>, int))
    requires ValidFormat(f) && i <= n <= |buf| && 1 <= line <= f.height
    ensures 1 <= r.1 <= f.height
    ensures |r.0| == n - i
    decreases n - i
  {
    if i == n then ([], line)
    else if EndsLine(buf, i, f.width) then
      var rest := Walk(f, buf, n, i + 1, NextLine(f, line));
      ([Command(if line == f.height then GotoHome else GotoLine2)] + rest.0, rest.1)
    else
      var rest := Walk(f, buf, n, i + 1, line);
      ([Data(buf[i])] + rest.0, rest.1)
  }

  /** `write_display`: home, then walk the buffer up to its NUL or to
      `count` bytes, whichever comes first; the result is the string
      length plus one, whatever `count` is. */
  method WriteDisplay(f: Format, buf: seq<byte>, count: nat) returns (trace: seq<Event>, ret: int)
    requires ValidFormat(f) && 0 in buf
    ensures trace == [Command(GotoHome)] + Walk(f, buf, Min(StrLen(buf), count), 0, 1).0
    ensures |trace| == 1 + Min(StrLen(buf), count)
    // the data sent are the shown bytes, in order
    ensures DataOf(trace) == Shown(buf, f.width, Min(StrLen(buf), count), 0)
    // home first, then one line-end command per line end, cycling through the lines
    ensures |CommandsOf(trace)| >= 1 && CommandsOf(trace)[0] == GotoHome
    ensures forall k :: 1 <= k < |CommandsOf(trace)| ==> CommandsOf(trace)[k] == WrapCommand(f, 1, k - 1)
    ensures ret == StrLen(buf) + 1
  {
    ghost var n := Min(StrLen(buf), count);
    trace := [Command(GotoHome)];
    var line := 1;
    var i := 0;
    while buf[i] != 0 && i < count
      invariant i <= n < |buf| && 1 <= line <= f.height
      invariant trace + Walk(f, buf, n, i, line).0 == [Command(GotoHome)] + Walk(f, buf, n, 0, 1).0
      decreases n - i
    {
      ghost var rest := Walk(f, buf, n, i, line).0;
      var e: Event;
      if buf[i] == Newline || i == f.width {
        if line == f.height {
          e := Command(GotoHome);
          line := 1;
        } else {
          e := Command(GotoLine2);
          line := line + 1;
        }
      } else {
        e := Data(buf[i]);
      }
      assert rest == [e] + Walk(f, buf, n, i + 1, line).0;
      assert trace + rest == (trace + [e]) + Walk(f, buf, n, i + 1, line).0;
      trace := trace + [e];
      i := i + 1;
    }
    assert buf[i] == 0 ==> StrLen(buf) <= i;
    assert i == n;
    ret := StrLen(buf) + 1;
    HomeThenWalk(f, buf, n);
  }

  /** The data and commands of a whole `write_display` trace: "home",
      then the walk from line 1. */
  lemma HomeThenWalk(f: Format, buf: seq<byte>, n: nat)
    requires ValidFormat(f) && n <= |buf|
    ensures var t := [Command(GotoHome)] + Walk(f, buf, n, 0, 1).0;
      && DataOf(t) == Shown(buf, f.width, n, 0)
      && |CommandsOf(t)| >= 1 && CommandsOf(t)[0] == GotoHome
      && forall k :: 1 <= k < |CommandsOf(t)| ==> CommandsOf(t)[k] == WrapCommand(f, 1, k - 1)
  {
    var walk := Walk(f, buf, n, 0, 1).0;
    WalkSendsShown(f, buf, n, 0, 1);
    WalkCommandsCycle(f, buf, n, 0, 1);
    ConsEvent(Command(GotoHome), walk);
  }

  /** The data bytes of a trace, in order. */
  function DataOf(t: seq<Event>): seq<byte> {
    if t == [] then []
    else (if t[0].Data? then [t[0].data] else []) + DataOf(t[1..])
  }

  /** The command bytes of a trace, in order. */
  function CommandsOf(t: seq<Event>): seq<byte> {
    if t == [] then []
    else (if t[0].Command? then [t[0].cmd] else []) + CommandsOf(t[1..])
  }

  /** The bytes of `buf[i..n)` that are shown: those that do not end a line. */
  function Shown(buf: seq<byte>, width: int, n: nat, i: nat): seq<byte>
    requires i <= n <= |buf|
    decreases n - i
  {
    if i == n then []
    else (if EndsLine(buf, i, width) then [] else [buf[i]]) + Shown(buf, width, n, i + 1)
  }

  /** The data and commands of a trace with one access in front. */
  lemma ConsEvent(e: Event, t: seq<Event>)
    ensures DataOf([e] + t) == (if e.Data? then [e.data] else []) + DataOf(t)
    ensures CommandsOf([e] + t) == (if e.Command? then [e.cmd] else []) + CommandsOf(t)
  {
    assert ([e] + t)[0] == e && ([e] + t)[1..] == t;
  }

  /** The walk sends exactly the shown bytes as data, in buffer order:
      every byte before the NUL and the count except newlines and the byte
      at index `width`, which is consumed without being sent. */
  lemma {:induction false} WalkSendsShown(f: Format, buf: seq<byte>, n: nat, i: nat, line: int)
    requires ValidFormat(f) && i <= n <= |buf| && 1 <= line <= f.height
    ensures DataOf(Walk(f, buf, n, i, line).0) == Shown(buf, f.width, n, i)
    decreases n - i
  {
    if i < n {
      var next := if EndsLine(buf, i, f.width) && line == f.height then 1
                  else if EndsLine(buf, i, f.width) then line + 1 else line;
      WalkSendsShown(f, buf, n, i + 1, next);
      var w := Walk(f, buf, n, i, line).0;
      ConsEvent(w[0], w[1..]);
      assert w == [w[0]] + w[1..];
    }
  }

  /** Each byte walked emits its own access, in buffer order: a command
      exactly when the byte ends a line, and otherwise the byte itself as
      data. */
  lemma {:induction false} WalkAccessPerByte(f: Format, buf: seq<byte>, n: nat, i: nat, line: int)
    requires ValidFormat(f) && i <= n <= |buf| && 1 <= line <= f.height
    ensures forall j :: i <= j < n ==>
      (Walk(f, buf, n, i, line).0[j - i].Command? <==> EndsLine(buf, j, f.width))
    ensures forall j :: i <= j < n && !EndsLine(buf, j, f.width) ==>
      Walk(f, buf, n, i, line).0[j - i] == Data(buf[j])
    decreases n - i
  {
    if i < n {
      var next := if EndsLine(buf, i, f.width) then NextLine(f, line) else line;
      WalkAccessPerByte(f, buf, n, i + 1, next);
      var w := Walk(f, buf, n, i, line).0;
      var rest := Walk(f, buf, n, i + 1, next).0;
      assert w == [w[0]] + rest;
    }
  }

  /** The line-end commands cycle through the panel's lines whatever
      bytes lie between them: starting on line `line`, the k-th line end
      (from 0) emits "home" exactly when the k-th step of the cycle
      1, 2, ..., height, 1, ... from `line` is the last line, and "go to
      line 2" otherwise. */
  lemma {:induction false} WalkCommandsCycle(f: Format, buf: seq<byte>, n: nat, i: nat, line: int)
    requires ValidFormat(f) && i <= n <= |buf| && 1 <= line <= f.height
    ensures forall k :: 0 <= k < |CommandsOf(Walk(f, buf, n, i, line).0)| ==>
      CommandsOf(Walk(f, buf, n, i, line).0)[k] == WrapCommand(f, line, k)
    decreases n - i
  {
    if i < n {
      var w := Walk(f, buf, n, i, line).0;
      var next := if EndsLine(buf, i, f.width) then NextLine(f, line) else line;
      var rest := Walk(f, buf, n, i + 1, next).0;
      assert w == [w[0]] + rest;
      ConsEvent(w[0], rest);
      WalkCommandsCycle(f, buf, n, i + 1, next);
      if EndsLine(buf, i, f.width) {
        assert CommandsOf(w) == [WrapCommand(f, line, 0)] + CommandsOf(rest);
        forall k | 1 <= k < |CommandsOf(w)|
          ensures CommandsOf(w)[k] == WrapCommand(f, line, k)
        {
          LineAfterShift(f, line, k);
        }
      } else {
        assert CommandsOf(w) == CommandsOf(rest);
      }
    }
  }

  /** The line the cursor is on after `k` line ends, starting on `line`. */
  function LineAfter(f: Format, line: int, k: nat): (r: int)
    requires ValidFormat(f) && 1 <= line <= f.height
    ensures 1 <= r <= f.height
  {
    if k == 0 then line else NextLine(f, LineAfter(f, line, k - 1))
  }

  /** The command the k-th line end (from 0) emits when the walk starts
      on line `line`: "home" when it ends the last line. */
  function WrapCommand(f: Format, line: int, k: nat): byte
    requires ValidFormat(f) && 1 <= line <= f.height
  {
    if LineAfter(f, line, k) == f.height then GotoHome else GotoLine2
  }

  lemma {:induction false} LineAfterShift(f: Format, line: int, k: nat)
    requires ValidFormat(f) && 1 <= line <= f.height && k >= 1
    ensures LineAfter(f, line, k) == LineAfter(f, NextLine(f, line), k - 1)
  {
    if k > 1 {
      LineAfterShift(f, line, k - 1);
    }
  }

  /** On a one-line panel the cursor never leaves line 1. */
  lemma {:induction false} OneLineStays(f: Format, k: nat)
    requires ValidFormat(f) && f.height == 1
    ensures LineAfter(f, 1, k) == 1
  {
    if k > 0 {
      OneLineStays(f, k - 1);
    }
  }

  /** `write_display` on a one-line panel never leaves line 1: every line
      end it meets sends the cursor home. */
  lemma OneLinePanelOnlyGoesHome(f: Format, buf: seq<byte>, count: nat)
    requires ValidFormat(f) && f.height == 1 && 0 in buf
    ensures forall c :: c in CommandsOf(Walk(f, buf, Min(StrLen(buf), count), 0, 1).0) ==> c == GotoHome
  {
    var cmds := CommandsOf(Walk(f, buf, Min(StrLen(buf), count), 0, 1).0);
    WalkCommandsCycle(f, buf, Min(StrLen(buf), count), 0, 1);
    forall c | c in cmds ensures c == GotoHome {
      var k :| 0 <= k < |cmds| && cmds[k] == c;
      assert cmds[k] == WrapCommand(f, 1, k);
      OneLineStays(f, k);
    }
  }

  // ---------------------------------------------------------------------
  // Reading the display

  /** The number of characters `read_display` fetches: one line, or two
      when the panel has more than one (further lines are not read). */
  function ReadCount(f: Format): nat
    requires ValidFormat(f)
  {
    if f.height > 1 then 2 * f.width else f.width
  }

  /** One data-mode fetch per character, in order. */
  function Fetches(s: seq<byte>): (t: seq<Event>)
    ensures |t| == |s|
  {
    seq(|s|, k requires 0 <= k < |s| => Fetch(s[k]))
  }

  lemma FetchesSnoc(s: seq<byte>, c: byte)
    ensures Fetches(s + [c]) == Fetches(s) + [Fetch(c)]
  {
    assert forall k :: 0 <= k < |s| ==> (s + [c])[k] == s[k];
  }

  /** One line of `read_display`: fetch `w` characters in data mode,
      appending each to the buffer.  `chars[from..]` are the characters the
      controller returns. */
  method FetchLine(buf: seq<byte>, trace: seq<Event>, chars: seq<byte>, from: nat, w: nat)
    returns (buf': seq<byte>, trace': seq<Event>)
    requires from + w <= |chars|
    ensures buf' == buf + chars[from..from + w]
    ensures trace' == trace + Fetches(chars[from..from + w])
  {
    buf', trace' := buf, trace;
    var j := 0;
    while j < w
      invariant j <= w
      invariant buf' == buf + chars[from..from + j]
      invariant trace' == trace + Fetches(chars[from..from + j])
    {
      FetchesSnoc(chars[from..from + j], chars[from + j]);
      assert chars[from..from + j + 1] == chars[from..from + j] + [chars[from + j]];
      buf' := buf' + [chars[from + j]];
      trace' := trace' + [Fetch(chars[from + j])];
      j := j + 1;
    }
  }

  /** The fetching half of `read_display`: point the address counter at
      line 1 and fetch a line; on a multi-line panel go to line 2 and fetch
      another.  The lines are laid out each followed by a newline. */
  method ReadLines(f: Format, chars: seq<byte>) returns (body: seq<byte>, trace: seq<Event>)
    requires ValidFormat(f) && |chars| == ReadCount(f)
    ensures f.height > 1 ==> body == chars[..f.width] + [Newline] + chars[f.width..] + [Newline]
    ensures f.height == 1 ==> body == chars + [Newline]
    ensures f.height > 1 ==>
      trace == [Command(SetDdram)] + Fetches(chars[..f.width]) + [Command(GotoLine2)] + Fetches(chars[f.width..])
    ensures f.height == 1 ==> trace == [Command(SetDdram)] + Fetches(chars)
  {
    OrTopBit(Line1Start);
    var line1, t1 := FetchLine([], [Command(Or(SetDdram, Line1Start))], chars, 0, f.width);
    assert line1 == chars[..f.width];
    if f.height > 1 {
      var both, t2 := FetchLine(line1 + [Newline], t1 + [Command(GotoLine2)], chars, f.width, f.width);
      assert chars[f.width..f.width + f.width] == chars[f.width..];
      body := both + [Newline];
      trace := t2;
    } else {
      assert chars[..f.width] == chars;
      body := line1 + [Newline];
      trace := t1;
    }
  }

  /** `read_display`: the lines as `ReadLines` lays them out, then a NUL.
      `chars` are the characters the controller returns, in fetch order.
      The result is the string length plus one, which is the buffer length
      unless a fetched character is NUL. */
  method ReadDisplay(f: Format, chars: seq<byte>) returns (buf: seq<byte>, trace: seq<Event>, ret: nat)
    requires ValidFormat(f) && |chars| == ReadCount(f)
    ensures f.height > 1 ==>
      buf == chars[..f.width] + [Newline] + chars[f.width..] + [Newline, 0]
    ensures f.height == 1 ==> buf == chars + [Newline, 0]
    ensures f.height > 1 ==>
      trace == [Command(SetDdram)] + Fetches(chars[..f.width]) + [Command(GotoLine2)] + Fetches(chars[f.width..])
    ensures f.height == 1 ==> trace == [Command(SetDdram)] + Fetches(chars)
    ensures 0 in buf && ret == StrLen(buf) + 1
    ensures 0 !in chars ==> ret == |buf|
  {
    var body;
    body, trace := ReadLines(f, chars);
    buf := body + [0];
    assert buf[|body|] == 0;
    ret := StrLen(buf) + 1;
    if 0 !in chars {
      NoNulInLayout(chars, f.width, f.height > 1);
      NulTerminated(body);
    }
  }

  /** Without a NUL among the fetched characters, the laid-out lines have
      none either: a newline is not NUL. */
  lemma NoNulInLayout(chars: seq<byte>, w: nat, two: bool)
    requires w <= |chars| && 0 !in chars
    ensures two ==> 0 !in chars[..w] + [Newline] + chars[w..] + [Newline]
    ensures !two ==> 0 !in chars + [Newline]
  {
    assert chars == chars[..w] + chars[w..];
  }

  /** A buffer without NUL, then a NUL: its string length is the buffer's. */
  lemma NulTerminated(body: seq<byte>)
    requires 0 !in body
    ensures StrLen(body + [0]) == |body|
  {
    var buf := body + [0];
    assert buf[|body|] == 0;
    forall k | 0 <= k < |body| ensures buf[k] != 0 {
      assert buf[k] == body[k];
    }
  }

  // ---------------------------------------------------------------------
  // Cursor position

  /** Cursor positions `write_cursor` accepts. */
  predicate ValidPos(f: Format, pos: int) {
    0 <= pos < f.width * f.height
  }

  /** The DDRAM address of a cursor position: its column on line 1, or
      0x40 plus its column for every later line. */
  function CursorAddress(f: Format, pos: int): (addr: byte)
    requires ValidFormat(f) && ValidPos(f, pos)
    ensures addr < 0x80
    ensures pos < f.width ==> addr == pos
    ensures pos >= f.width ==> Line2Start <= addr < Line2Start + f.width
    ensures pos >= f.width ==> addr == Line2Start + pos % f.width
  {
    DivByWidth(pos, f.width);
    var line := pos / f.width + 1;
    var col := pos % f.width;
    if line == 1 then Line1Start + col else Line2Start + col
  }

  /** A positive multiple of `w` below `2 * w` is `w` itself. */
  lemma QuotientOne(w: int, q: int)
    requires w >= 1 && q >= 1 && w * q < 2 * w
    ensures q == 1
  {
  }

  /** Euclidean facts about a cursor position and the width. */
  lemma DivByWidth(pos: int, w: int)
    requires 0 <= pos && 1 <= w
    ensures pos / w == 0 <==> pos < w
    ensures 0 <= pos % w < w
    ensures pos < w ==> pos % w == pos
  {
    assert pos == w * (pos / w) + pos % w;
    if pos / w > 0 {
      assert w * (pos / w) >= w;
    }
  }

  datatype CursorWrite = CursorWrite(trace: seq<Event>, ret: int)

  /** `write_cursor` once `text` has been parsed to `pos`: a position off
      the panel is rejected without any command; otherwise one "set DDRAM
      address" command, and the text length plus one is returned. */
  function WriteCursor(f: Format, text: seq<byte>, pos: int): (r: CursorWrite)
    requires ValidFormat(f) && 0 in text
    ensures r.ret == -EINVAL <==> !ValidPos(f, pos)
    ensures !ValidPos(f, pos) ==> r.trace == []
    ensures ValidPos(f, pos) ==> r.ret == StrLen(text) + 1 && |r.trace| == 1
    ensures ValidPos(f, pos) && pos < f.width ==> r.trace[0] == Command(SetDdram + pos)
    ensures ValidPos(f, pos) && pos >= f.width ==>
      r.trace[0] == Command(SetDdram + Line2Start + pos % f.width)
  {
    if pos < 0 then CursorWrite([], -EINVAL)
    else if pos >= f.width * f.height then CursorWrite([], -EINVAL)
    else
      OrTopBit(CursorAddress(f, pos));
      CursorWrite([Command(Or(SetDdram, CursorAddress(f, pos)))], StrLen(text) + 1)
  }

  /** `read_cursor` as written.  `status` is the byte read in command
      mode; its low seven bits are the address counter. */
  function ReadCursorAsWritten(f: Format, status: byte): (pos: int)
    requires ValidFormat(f)
    ensures pos == -1 || 0 <= pos < 2 * f.width
    ensures status % 0x80 < f.width ==> pos == status % 0x80
    ensures Line2Start < status % 0x80 < Line2Start + f.width ==>
      pos == status % 0x80 - Line2Start + f.width
    ensures status % 0x80 == Line2Start ==> pos == -1
    ensures pos != -1 ==> status % 0x80 < f.width || Line2Start < status % 0x80 < Line2Start + f.width
  {
    var addr := status % 0x80;  // status & 0x7F: drop the busy flag
    if addr > Line2Start then
      var p := addr - Line2Start + f.width;
      if p > 2 * f.width - 1 then -1 else p
    else if addr > f.width - 1 then -1
    else addr
  }

  /** `read_cursor` with line 2 starting at its own origin: an address on
      line 1 or line 2 maps back to its cursor position, any other address
      to -1. */
  function ReadCursor(f: Format, status: byte): (pos: int)
    requires ValidFormat(f)
    ensures pos == -1 || 0 <= pos < 2 * f.width
    ensures status % 0x80 < f.width ==> pos == status % 0x80
    ensures Line2Start <= status % 0x80 < Line2Start + f.width ==>
      pos == status % 0x80 - Line2Start + f.width
    ensures pos != -1 ==> status % 0x80 < f.width || Line2Start <= status % 0x80 < Line2Start + f.width
  {
    var addr := status % 0x80;  // status & 0x7F: drop the busy flag
    if addr >= Line2Start then
      var p := addr - Line2Start + f.width;
      if p > 2 * f.width - 1 then -1 else p
    else if addr > f.width - 1 then -1
    else addr
  }

  /** Reading the cursor back after setting it gives the position set, on
      the two lines the driver addresses: the status read returns the
      address of the last "set DDRAM address" command, with or without the
      busy flag. */
  lemma CursorRoundTrip(f: Format, text: seq<byte>, pos: int, status: byte)
    requires ValidFormat(f) && 0 in text && ValidPos(f, pos) && pos < 2 * f.width
    requires status % 0x80 == WriteCursor(f, text, pos).trace[0].cmd - SetDdram
    ensures ReadCursor(f, status) == pos
  {
    LineTwoColumn(f, pos);
    assert status % 0x80 == if pos < f.width then pos else Line2Start + pos - f.width;
  }

  /** A position on line 2 is the width plus its column. */
  lemma LineTwoColumn(f: Format, pos: int)
    requires ValidFormat(f) && 0 <= pos < 2 * f.width
    ensures pos >= f.width ==> pos % f.width == pos - f.width
  {
    if pos >= f.width {
      var q := pos / f.width;
      DivByWidth(pos, f.width);
      assert pos == f.width * q + pos % f.width;
      QuotientOne(f.width, q);
    }
  }

  /** The driver's `read_cursor` breaks that round trip at exactly one
      position, the first cell of line 2, which it reports as -1. */
  lemma CursorRoundTripAsWritten(f: Format, text: seq<byte>, pos: int, status: byte)
    requires ValidFormat(f) && 0 in text && ValidPos(f, pos) && pos < 2 * f.width
    requires status % 0x80 == WriteCursor(f, text, pos).trace[0].cmd - SetDdram
    ensures ReadCursorAsWritten(f, status) == (if pos == f.width then -1 else pos)
  {
    LineTwoColumn(f, pos);
    assert status % 0x80 == if pos < f.width then pos else Line2Start + pos - f.width;
  }

  /** A sixteen-column, two-line panel: the cursor set to position 16 is
      read back as -1. */
  lemma LineTwoStartReadsMinusOne()
    ensures WriteCursor(Format(16, 2), [0], 16).trace == [Command(0xC0)]
    ensures ReadCursorAsWritten(Format(16, 2), 0x40) == -1
    ensures ReadCursor(Format(16, 2), 0x40) == 16
  {
  }
}

/** How the driver clocks each controller access over D4..D7: two enable
    pulses, the high nibble first (bits 7..4 on D7..D4), then the low
    nibble (bits 3..0 on D7..D4).  A read samples D7..D4 most significant
    first on each pulse and shifts them in. */
module Hd44780Bus {
  import opened Common
  import opened Hd44780

  /** One enable pulse: register select, read/write, and the levels of
      D4..D7 (`d[k]` is line D(4+k)). */
  datatype Strobe = Strobe(rs: bool, rw: bool, d: seq<bool>)

  /** The bits of a nibble, least significant first, as levels of
      D4..D7. */
  function Pins(x: nat): seq<bool>
    requires x < 16
  {
    [x % 2 == 1, (x / 2) % 2 == 1, (x / 2 / 2) % 2 == 1, x / 2 / 2 / 2 == 1]
  }

  /** The levels the first pulse puts on D4..D7 (`data & (1 << i)` for
      i = 4..7): bits 4..7 of the byte. */
  function HighPins(b: byte): seq<bool> {
    Pins(b / 0x10)
  }

  /** The levels the second pulse puts on D4..D7 (`data & (1 << (i - 4))`
      for i = 4..7): bits 0..3 of the byte. */
  function LowPins(b: byte): seq<bool> {
    Pins(b % 0x10)
  }

  function BitValue(x: bool): nat {
    if x then 1 else 0
  }

  /** The 4-bit number on D7..D4 (D7 most significant). */
  function NibbleValue(d: seq<bool>): (v: nat)
    requires |d| == 4
    ensures v < 16
  {
    8 * BitValue(d[3]) + 4 * BitValue(d[2]) + 2 * BitValue(d[1]) + BitValue(d[0])
  }

  /** The byte two pulses carry: the first pulse's nibble is the high
      one. */
  function Join(hi: seq<bool>, lo: seq<bool>): (v: nat)
    requires |hi| == 4 && |lo| == 4
  {
    16 * NibbleValue(hi) + NibbleValue(lo)
  }

  /** `acc` followed by the top `k` lines D7, D6, ... shifted in, most
      significant first. */
  function ShiftIn(acc: nat, d: seq<bool>, k: nat): nat
    requires |d| == 4 && k <= 4
  {
    if k == 0 then acc else 2 * ShiftIn(acc, d, k - 1) + BitValue(d[4 - k])
  }

  /** Shifting in all four lines appends the nibble's value. */
  lemma ShiftInNibble(acc: nat, d: seq<bool>)
    requires |d| == 4
    ensures ShiftIn(acc, d, 4) == 16 * acc + NibbleValue(d)
  {
    assert ShiftIn(acc, d, 1) == 2 * acc + BitValue(d[3]);
    assert ShiftIn(acc, d, 2) == 4 * acc + 2 * BitValue(d[3]) + BitValue(d[2]);
    assert ShiftIn(acc, d, 3) == 8 * acc + 4 * BitValue(d[3]) + 2 * BitValue(d[2]) + BitValue(d[1]);
  }

  /** The 4-bit path of `hd44780_read`: shift D7..D4 in on the first
      pulse, then again on the second. */
  method ReadByte(hi: seq<bool>, lo: seq<bool>) returns (get: byte)
    requires |hi| == 4 && |lo| == 4
    ensures get == Join(hi, lo)
  {
    var g := 0;
    var i := 7;
    while i > 3
      invariant 3 <= i <= 7
      invariant g == ShiftIn(0, hi, 7 - i)
    {
      g := 2 * g + BitValue(hi[i - 4]);
      i := i - 1;
    }
    ShiftInNibble(0, hi);
    var first := g;
    i := 7;
    while i > 3
      invariant 3 <= i <= 7
      invariant g == ShiftIn(first, lo, 7 - i)
    {
      g := 2 * g + BitValue(lo[i - 4]);
      i := i - 1;
    }
    ShiftInNibble(first, lo);
    get := g;
  }

  /** The four pins of `Pins(x)` read as a number are `x`. */
  lemma PinsValue(x: nat)
    requires x < 16
    ensures NibbleValue(Pins(x)) == x
  {
    var a := x / 2;
    var b := a / 2;
    var c := b / 2;
    assert x == 2 * a + x % 2;
    assert a == 2 * b + a % 2;
    assert b == 2 * c + b % 2;
  }

  /** Splitting a byte into the two nibbles the write path drives and
      shifting them back in as the read path does gives the byte back. */
  lemma NibbleRoundTrip(b: byte)
    ensures Join(HighPins(b), LowPins(b)) == b
  {
    PinsValue(b / 16);
    PinsValue(b % 16);
  }

  /** The byte an access carries. */
  function Payload(e: Event): byte {
    match e
    case Command(c) => c
    case Data(c) => c
    case Status(c) => c
    case Fetch(c) => c
  }

  /** The two pulses of one access.  Both hold RS high exactly for data
      and R/W high exactly for reads; the first drives bits 7..4 of the
      byte on D7..D4, the second bits 3..0. */
  function Strobes(e: Event): (s: seq<Strobe>)
    ensures |s| == 2
    ensures s[0].rs == s[1].rs == (e.Data? || e.Fetch?)
    ensures s[0].rw == s[1].rw == (e.Status? || e.Fetch?)
    ensures |s[0].d| == 4 && NibbleValue(s[0].d) == Payload(e) / 16
    ensures |s[1].d| == 4 && NibbleValue(s[1].d) == Payload(e) % 16
  {
    var c := Payload(e);
    PinsValue(c / 16);
    PinsValue(c % 16);
    [Strobe(e.Data? || e.Fetch?, e.Status? || e.Fetch?, HighPins(c)),
     Strobe(e.Data? || e.Fetch?, e.Status? || e.Fetch?, LowPins(c))]
  }

  /** The bus activity of a whole trace. */
  function Bus(t: seq<Event>): (s: seq<Strobe>)
    ensures |s| == 2 * |t|
  {
    if t == [] then [] else Strobes(t[0]) + Bus(t[1..])
  }

  /** One access as a receiver latching the bus sees it: two pulses with
      the same RS and R/W carry one byte, the two nibbles shifted in most
      significant first. */
  function Access(a: Strobe, b: Strobe): Option<Event> {
    if a.rs != b.rs || a.rw != b.rw || |a.d| != 4 || |b.d| != 4 then None
    else
      var v := Join(a.d, b.d);
      Some(if !a.rw && !a.rs then Command(v)
           else if !a.rw then Data(v)
           else if !a.rs then Status(v)
           else Fetch(v))
  }

  /** The accesses a run of pulses carries, if it is a run of accesses. */
  function Latch(s: seq<Strobe>): Option<seq<Event>>
    decreases |s|
  {
    if s == [] then Some([])
    else if |s| == 1 then None
    else
      match Access(s[0], s[1])
      case None => None
      case Some(e) =>
        match Latch(s[2..])
        case None => None
        case Some(rest) => Some([e] + rest)
  }

  /** The two pulses of an access latch back to that access. */
  lemma AccessOfStrobes(e: Event)
    ensures Access(Strobes(e)[0], Strobes(e)[1]) == Some(e)
  {
    NibbleRoundTrip(Payload(e));
  }

  /** The bus carries every trace faithfully: latching the pulses the
      driver produces recovers the trace, access for access. */
  lemma {:induction false} BusRoundTrip(t: seq<Event>)
    ensures Latch(Bus(t)) == Some(t)
  {
    if t != [] {
      var s := Bus(t);
      assert s[0] == Strobes(t[0])[0] && s[1] == Strobes(t[0])[1];
      assert s[2..] == Bus(t[1..]);
      AccessOfStrobes(t[0]);
      BusRoundTrip(t[1..]);
      assert [t[0]] + t[1..] == t;
    }
  }
}
