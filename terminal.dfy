/**
 * The standard output stream as the library sees it: a trace of the items
 * written to it, each of which renders to the bytes the library prints.
 *
 * Cursor positioning is CUP, "cursor position" (section 8.3.21 of ECMA-48),
 * always at column 1; line clearing is EL with parameter 0, "erase to end
 * of line" (section 8.3.41 of ECMA-48); saving and restoring the cursor are
 * the private sequences `ESC [ s` and `ESC [ u` of the SCO console and
 * ANSI.SYS. A flush renders to nothing: it only marks where the stream was
 * flushed.
 */
module Terminal {
  import opened Options

  const Esc: char := '\U{1B}'

  predicate IsDigit(c: char)
  {
    '0' <= c <= '9'
  }

  predicate AllDigits(s: string)
  {
    forall i :: 0 <= i < |s| ==> IsDigit(s[i])
  }

  function DigitChar(d: nat): (c: char)
    requires d < 10
    ensures IsDigit(c)
  {
    ('0' as int + d) as char
  }

  function DigitValue(c: char): (d: nat)
    requires IsDigit(c)
    ensures d < 10 && DigitChar(d) == c
  {
    c as int - '0' as int
  }

  /** The decimal numeral Rust's `{}` formatting prints for `n`: no sign, no leading zero. */
  function Decimal(n: nat): (r: string)
    ensures |r| >= 1 && AllDigits(r)
    ensures r[0] == '0' <==> n == 0
    decreases n
  {
    if n < 10 then [DigitChar(n)] else Decimal(n / 10) + [DigitChar(n % 10)]
  }

  /** The number a string of decimal digits denotes. */
  function DecimalValue(s: string): nat
    requires AllDigits(s)
    decreases |s|
  {
    if s == [] then 0 else DecimalValue(s[..|s| - 1]) * 10 + DigitValue(s[|s| - 1])
  }

  /** Reading the numeral back gives the number. */
  lemma {:induction false} DecimalRoundTrip(n: nat)
    ensures DecimalValue(Decimal(n)) == n
    decreases n
  {
    if n >= 10 {
      DecimalRoundTrip(n / 10);
      var r := Decimal(n);
      assert r[..|r| - 1] == Decimal(n / 10);
    }
  }

  /** One item written to the stream. `MoveTo(row)` carries the 1-based row it prints. */
  datatype Token =
    | MoveTo(row: nat)
    | Text(text: string)
    | EraseToEndOfLine
    | SaveCursor
    | RestoreCursor
    | Newline
    | Flush

  /** The characters a token puts on the stream. */
  function RenderToken(t: Token): (s: string)
    ensures t.Flush? ==> s == []
    ensures t.MoveTo? || t.EraseToEndOfLine? || t.SaveCursor? || t.RestoreCursor? ==>
      |s| >= 3 && s[0] == Esc && s[1] == '['
  {
    match t
    case MoveTo(row) => [Esc, '['] + Decimal(row) + ";1H"
    case Text(s) => s
    case EraseToEndOfLine => [Esc] + "[0K"
    case SaveCursor => [Esc] + "[s"
    case RestoreCursor => [Esc] + "[u"
    case Newline => "\n"
    case Flush => []
  }

  /** The characters a whole trace puts on the stream, in order. */
  function Render(trace: seq<Token>): (s: string)
    ensures (forall i :: 0 <= i < |trace| ==> trace[i].Flush?) ==> s == []
    decreases |trace|
  {
    if trace == [] then [] else RenderToken(trace[0]) + Render(trace[1..])
  }

  /** Rendering a trace written in two parts renders the parts one after the other. */
  lemma {:induction false} RenderAppend(a: seq<Token>, b: seq<Token>)
    ensures Render(a + b) == Render(a) + Render(b)
    decreases |a|
  {
    if a == [] {
      assert a + b == b;
    } else {
      assert (a + b)[0] == a[0] && (a + b)[1..] == a[1..] + b;
      RenderAppend(a[1..], b);
    }
  }

  /** The row a CUP sequence `ESC [ <row> ; 1 H` addresses, if `s` is one. */
  function ParseMoveTo(s: string): Option<nat>
  {
    if |s| >= 6 && s[0] == Esc && s[1] == '[' && s[|s| - 3..] == ";1H" && AllDigits(s[2..|s| - 3])
    then Some(DecimalValue(s[2..|s| - 3]))
    else None
  }

  /** The CUP sequence of a row is read back as that row. */
  lemma MoveToRoundTrip(row: nat)
    ensures ParseMoveTo(RenderToken(MoveTo(row))) == Some(row)
  {
    var s := RenderToken(MoveTo(row));
    var digits := Decimal(row);
    assert s[2..|s| - 3] == digits;
    assert s[|s| - 3..] == ";1H";
    DecimalRoundTrip(row);
  }

  /** The process's standard output, as the sequence of tokens written to it so far. */
  class Stdout {
    var trace: seq<Token>

    constructor ()
      ensures trace == []
    {
      trace := [];
    }

    /** The characters written so far. */
    function Written(): string
      reads this
    {
      Render(trace)
    }

    method Write(t: Token)
      modifies this
      ensures trace == old(trace) + [t]
      ensures Written() == old(Written()) + RenderToken(t)
    {
      RenderAppend(trace, [t]);
      assert Render([t]) == RenderToken(t) + Render([]);
      trace := trace + [t];
    }
  }
}
