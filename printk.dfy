/**
 * The `printk` library (src/lib.rs): a `Printk` configuration that rewrites
 * `{key}` placeholders into icon glyphs, optionally tints the result with one
 * colour, and writes it to standard output at the cursor or at an absolute
 * row, plus helpers that clear rows.
 *
 * Standard output is the `Terminal.Stdout` object passed to every output
 * operation; each operation appends to its trace. Writes and flushes never
 * fail in this model.
 */
module PrintkLib {
  import opened Options
  import opened Replace
  import opened Icons
  import opened Substitution
  import opened Terminal

  /** Rust's `i16` and `u16`. */
  newtype i16 = x: int | -0x8000 <= x < 0x8000
  newtype u16 = x: int | 0 <= x < 0x1_0000

  /** The named foreground colours of the terminal colour crate. */
  datatype Color =
    | Black | Red | Green | Yellow | Blue | Magenta | Cyan | White
    | BrightBlack | BrightRed | BrightGreen | BrightYellow
    | BrightBlue | BrightMagenta | BrightCyan | BrightWhite

  /** The SGR parameter that selects `c` as foreground colour. */
  function ForegroundCode(c: Color): (n: nat)
    ensures 30 <= n <= 37 || 90 <= n <= 97
  {
    match c
    case Black => 30 case Red => 31 case Green => 32 case Yellow => 33
    case Blue => 34 case Magenta => 35 case Cyan => 36 case White => 37
    case BrightBlack => 90 case BrightRed => 91 case BrightGreen => 92 case BrightYellow => 93
    case BrightBlue => 94 case BrightMagenta => 95 case BrightCyan => 96 case BrightWhite => 97
  }

  /**
   * `s` tinted with `c`: set the foreground colour, the text, reset. This
   * stands for the colour crate's formatting, which the library only calls.
   */
  function Tint(s: string, c: Color): (r: string)
    ensures |r| == |s| + 9
    ensures r[..2] == [Esc, '['] && r[2..4] == Decimal(ForegroundCode(c)) && r[4] == 'm'
    ensures r[5..|r| - 4] == s && r[|r| - 4..] == [Esc] + "[0m"
  {
    var code := ForegroundCode(c);
    assert Decimal(code) == Decimal(code / 10) + [DigitChar(code % 10)];
    [Esc, '['] + Decimal(code) + "m" + s + [Esc] + "[0m"
  }

  /** `PrintkError` (src/lib.rs:102-108); I/O errors are not modelled. */
  datatype PrintkError = InvalidCursor(y: i16)

  /** `Result<(), PrintkError>`. */
  datatype Result = Ok | Err(error: PrintkError)

  /** The table entries in order, each key with its glyph: `list_icons`. */
  function ListIcons(): (r: seq<Entry>)
    ensures r == IconMap
    ensures |r| == 66 && DistinctKeys(r)
  {
    IconMapFacts();
    IconMap
  }

  /** The configuration record `Printk` (src/lib.rs:110-113). */
  datatype Printk = Printk(defaultColor: Option<Color>, showIcons: bool)
  {
    /** `Printk::new`: no colour, icons shown. */
    static function New(): (p: Printk)
      ensures p.defaultColor == None && p.showIcons
    {
      Printk(None, true)
    }

    /** `with_color`: the same configuration with `color` as its colour. */
    function WithColor(color: Color): (p: Printk)
      ensures p.defaultColor == Some(color) && p.showIcons == showIcons
    {
      this.(defaultColor := Some(color))
    }

    /** `icons`: the same configuration with icons shown or not. */
    function Icons(show: bool): (p: Printk)
      ensures p.showIcons == show && p.defaultColor == defaultColor
    {
      this.(showIcons := show)
    }

    /**
     * What `process_message` returns: the message itself when icons are
     * off (the early return also skips the colour), otherwise the message
     * with every placeholder substituted, tinted when a colour is set.
     */
    function Processed(message: string): (r: string)
      ensures !showIcons ==> r == message
      ensures defaultColor == None && '{' !in message ==> r == message
    {
      if !showIcons then message
      else
        match defaultColor
        case None => Substitute(IconMap, message)
        case Some(c) => Tint(Substitute(IconMap, message), c)
    }

    /** `process_message` (src/lib.rs:175-194). */
    method ProcessMessage(message: string) returns (r: string)
      ensures r == Processed(message)
      ensures !showIcons ==> r == message
    {
      if !showIcons {
        return message;
      }
      var result := message;
      var i := 0;
      assert IconMap[0..] == IconMap;
      while i < |IconMap|
        invariant 0 <= i <= |IconMap|
        invariant Substitute(IconMap[i..], result) == Substitute(IconMap, message)
      {
        var (key, icon) := IconMap[i];
        assert IconMap[i..][1..] == IconMap[i + 1..];
        result := ReplaceAll(result, Placeholder(key), icon);
        i := i + 1;
      }
      if defaultColor.Some? {
        result := Tint(result, defaultColor.value);
      }
      return result;
    }

    /**
     * `get_icon` (src/lib.rs:196-207): the bare name when icons are off,
     * otherwise the glyph of the first entry with that key, if any.
     */
    method GetIcon(name: string) returns (r: Option<string>)
      ensures !showIcons ==> r == Some(name)
      ensures showIcons ==> r == Lookup(IconMap, name)
    {
      if !showIcons {
        return Some(name);
      }
      r := FindGlyph(IconMap, name);
    }

    /** `print_at_y` (src/lib.rs:133-145): move to row `y` (0-based), write, flush. */
    method PrintAtY(out: Stdout, y: i16, message: string) returns (r: Result)
      requires y < 0x7FFF
      modifies out
      ensures y < 0 ==> r == Err(InvalidCursor(y)) && out.trace == old(out.trace)
      ensures y >= 0 ==>
        r == Ok && out.trace == old(out.trace) + [MoveTo(y as int + 1), Text(Processed(message)), Flush]
    {
      if y < 0 {
        return Err(InvalidCursor(y));
      }
      out.Write(MoveTo(y as int + 1));
      var processed := ProcessMessage(message);
      out.Write(Text(processed));
      out.Write(Flush);
      return Ok;
    }

    /**
     * `print_at_y_and_return` (src/lib.rs:148-158): save the cursor, print at
     * row `y`, restore the cursor and flush. The save is written before the
     * row is checked, so a negative row leaves it on the stream.
     */
    method PrintAtYAndReturn(out: Stdout, y: i16, message: string) returns (r: Result)
      requires y < 0x7FFF
      modifies out
      ensures y < 0 ==> r == Err(InvalidCursor(y)) && out.trace == old(out.trace) + [SaveCursor]
      ensures y >= 0 ==>
        r == Ok &&
        out.trace == old(out.trace) + [SaveCursor, MoveTo(y as int + 1), Text(Processed(message)), Flush,
                                       RestoreCursor, Flush]
    {
      out.Write(SaveCursor);
      r := PrintAtY(out, y, message);
      if r.Err? {
        return r;
      }
      out.Write(RestoreCursor);
      out.Write(Flush);
      return Ok;
    }

    /** `print` (src/lib.rs:161-166): write at the cursor and flush. */
    method Print(out: Stdout, message: string) returns (r: Result)
      modifies out
      ensures r == Ok && out.trace == old(out.trace) + [Text(Processed(message)), Flush]
    {
      var processed := ProcessMessage(message);
      out.Write(Text(processed));
      out.Write(Flush);
      return Ok;
    }

    /** `println` (src/lib.rs:168-172): write at the cursor and end the line; no flush. */
    method Println(out: Stdout, message: string) returns (r: Result)
      modifies out
      ensures r == Ok && out.trace == old(out.trace) + [Text(Processed(message)), Newline]
    {
      var processed := ProcessMessage(message);
      out.Write(Text(processed));
      out.Write(Newline);
      return Ok;
    }

    /** `clear_from_y` (src/lib.rs:217-225): erase row `y` from column 1 to its end, flush. */
    method ClearFromY(out: Stdout, y: i16) returns (r: Result)
      requires y < 0x7FFF
      modifies out
      ensures y < 0 ==> r == Err(InvalidCursor(y)) && out.trace == old(out.trace)
      ensures y >= 0 ==>
        r == Ok && out.trace == old(out.trace) + [MoveTo(y as int + 1), EraseToEndOfLine, Flush]
      ensures y >= 0 ==> out.trace == old(out.trace) + ClearRows(y as nat, 1) + [Flush]
    {
      if y < 0 {
        return Err(InvalidCursor(y));
      }
      out.Write(MoveTo(y as int + 1));
      out.Write(EraseToEndOfLine);
      out.Write(Flush);
      return Ok;
    }

    /**
     * `clear_lines` (src/lib.rs:228-238): erase `count` rows from `startY`
     * downwards, then flush once.
     */
    method ClearLines(out: Stdout, startY: i16, count: u16) returns (r: Result)
      requires startY >= 0 ==> startY as int + count as int <= 0x7FFF
      modifies out
      ensures startY < 0 ==> r == Err(InvalidCursor(startY)) && out.trace == old(out.trace)
      ensures startY >= 0 ==>
        r == Ok && out.trace == old(out.trace) + ClearRows(startY as nat, count as nat) + [Flush]
    {
      if startY < 0 {
        return Err(InvalidCursor(startY));
      }
      var i: u16 := 0;
      while i < count
        invariant i <= count
        invariant out.trace == old(out.trace) + ClearRows(startY as nat, i as nat)
      {
        out.Write(MoveTo(startY as int + i as int + 1));
        out.Write(EraseToEndOfLine);
        i := i + 1;
      }
      out.Write(Flush);
      return Ok;
    }
  }

  /**
   * The search loop of `get_icon` (src/lib.rs:201-206): the glyph of the
   * first entry whose key is `name`, `None` when there is none.
   */
  method FindGlyph(table: seq<Entry>, name: string) returns (r: Option<string>)
    ensures r == Lookup(table, name)
  {
    var i := 0;
    while i < |table|
      invariant 0 <= i <= |table|
      invariant forall j :: 0 <= j < i ==> table[j].0 != name
    {
      if table[i].0 == name {
        LookupFirst(table, name, i);
        return Some(table[i].1);
      }
      i := i + 1;
    }
    LookupAbsent(table, name);
    return None;
  }

  /** The tokens that erase `n` rows from `start` (0-based) downwards, in ascending order. */
  function ClearRows(start: nat, n: nat): (r: seq<Token>)
    ensures |r| == 2 * n
    ensures forall k :: 0 <= k < |r| && r[k].MoveTo? ==> start < r[k].row <= start + n
    decreases n
  {
    if n == 0 then [] else ClearRows(start, n - 1) + [MoveTo(start + n), EraseToEndOfLine]
  }

  /**
   * The `i`-th row cleared is row `start + i`, addressed as `start + i + 1`,
   * each followed by its erase; nothing else is written.
   */
  lemma {:induction false} ClearRowsShape(start: nat, n: nat)
    ensures |ClearRows(start, n)| == 2 * n
    ensures forall k :: 0 <= k < 2 * n ==>
      ClearRows(start, n)[k] == if k % 2 == 0 then MoveTo(start + k / 2 + 1) else EraseToEndOfLine
    decreases n
  {
    if n > 0 {
      ClearRowsShape(start, n - 1);
    }
  }

  /** `printk` (src/lib.rs:241-243): print with the default configuration. */
  method PrintkPlain(out: Stdout, message: string) returns (r: Result)
    modifies out
    ensures r == Ok && out.trace == old(out.trace) + [Text(Substitute(IconMap, message)), Flush]
  {
    r := Printk.New().Print(out, message);
  }

  /** `printk_at_y` (src/lib.rs:245-247): print at a row with the default configuration. */
  method PrintkAtY(out: Stdout, y: i16, message: string) returns (r: Result)
    requires y < 0x7FFF
    modifies out
    ensures y < 0 ==> r == Err(InvalidCursor(y)) && out.trace == old(out.trace)
    ensures y >= 0 ==>
      r == Ok &&
      out.trace == old(out.trace) + [MoveTo(y as int + 1), Text(Substitute(IconMap, message)), Flush]
  {
    r := Printk.New().PrintAtY(out, y, message);
  }

  /** `printk_color` (src/lib.rs:249-251): print tinted with `color`. */
  method PrintkColor(out: Stdout, color: Color, message: string) returns (r: Result)
    modifies out
    ensures r == Ok && out.trace == old(out.trace) + [Text(Tint(Substitute(IconMap, message), color)), Flush]
  {
    r := Printk.New().WithColor(color).Print(out, message);
  }

  /** With icons on and no colour, the placeholder of every table key becomes that key's glyph. */
  lemma KnownPlaceholderResolves(p: Printk, i: nat)
    requires p.showIcons && p.defaultColor == None
    requires i < |IconMap|
    ensures p.Processed(Placeholder(IconMap[i].0)) == IconMap[i].1
  {
    IconMapFacts();
    DistinctLookup(IconMap, i);
    SubstitutePlaceholder(IconMap, IconMap[i].0);
  }

  /** With icons on and no colour, the placeholder of a key outside the table stays verbatim. */
  lemma UnknownPlaceholderVerbatim(p: Printk, u: string)
    requires p.showIcons && p.defaultColor == None
    requires BraceFree(u)
    requires forall i :: 0 <= i < |IconMap| ==> IconMap[i].0 != u
    ensures p.Processed(Placeholder(u)) == Placeholder(u)
  {
    IconMapFacts();
    SubstitutePlaceholder(IconMap, u);
  }

  /** With icons on and no colour, a message holding no table key's placeholder is returned unchanged. */
  lemma NoPlaceholderUnchanged(p: Printk, message: string)
    requires p.showIcons && p.defaultColor == None
    requires forall i :: 0 <= i < |IconMap| ==> !Contains(message, Placeholder(IconMap[i].0))
    ensures p.Processed(message) == message
  {
    SubstituteNoPlaceholder(IconMap, message);
  }

  /** Looking up each key `list_icons` lists gives the glyph listed with it. */
  lemma ListedIconsResolve()
    ensures forall i :: 0 <= i < |ListIcons()| ==> Lookup(IconMap, ListIcons()[i].0) == Some(ListIcons()[i].1)
  {
    forall i | 0 <= i < |ListIcons()|
      ensures Lookup(IconMap, ListIcons()[i].0) == Some(ListIcons()[i].1)
    {
      IconMapFacts();
      DistinctLookup(IconMap, i);
    }
  }

  /**
   * With icons on, what `process_message` produces from the shipped table is
   * what one left-to-right scan over the message produces: the table's
   * glyphs never complete or break another placeholder.
   */
  lemma ProcessedIsOneScan(p: Printk, message: string)
    requires p.showIcons
    ensures p.defaultColor == None ==> p.Processed(message) == Scan(IconMap, message)
    ensures p.defaultColor != None ==> p.Processed(message) == Tint(Scan(IconMap, message), p.defaultColor.value)
  {
    IconMapFacts();
    SubstituteIsScan(IconMap, message);
  }

  /** Listing the shipped entries in any other order, keys still distinct, substitutes alike. */
  lemma IconOrderIrrelevant(t: seq<Entry>, message: string)
    requires DistinctKeys(t)
    requires forall e :: e in t <==> e in IconMap
    ensures Substitute(t, message) == Substitute(IconMap, message)
  {
    IconMapFacts();
    forall i | 0 <= i < |t| ensures PlainKey(t[i].0) && PlainGlyph(t[i].1) {
      assert t[i] in t;
      var j :| 0 <= j < |IconMap| && IconMap[j] == t[i];
      assert PlainKey(IconMap[j].0) && PlainGlyph(IconMap[j].1);
    }
    SubstituteOrderFree(t, IconMap, message);
  }
}
