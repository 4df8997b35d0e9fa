# printk in Dafny

A model of the `printk` Rust library (`src/lib.rs`). The library prints
messages to the terminal. Before printing, it rewrites `{key}` placeholders
into Nerd Font icon glyphs taken from a fixed, ordered icon table. It can tint
the result with one foreground colour, and it can print at an absolute row
of the screen or clear rows there.

The project has six modules, one per file:

- `Options` (`options.dfy`): Rust's `Option`.
- `Replace` (`replace.dfy`): Rust's `str::replace` on a non-empty pattern
  (`ReplaceAll`). It comes with an independent description by `Split` and
  `Join`: a text is cut at the leftmost non-overlapping occurrences of the
  pattern, and the pieces are glued back with the replacement.
- `Icons` (`icons.dfy`): the 66-entry icon table `ICON_MAP`, kept in source
  order and built from its categories, together with the first-match lookup
  that `get_icon` performs. The table's facts are proved category by
  category: 66 entries and no key twice. Every key character comes before
  `{` in Unicode order, and every glyph is non-empty with every character
  after `}`. A table with these properties is called inert.
- `Substitution` (`substitution.dfy`): the substitution loop of
  `process_message` as a left fold over the table, with what it does to
  placeholders. It also defines a single left-to-right scan that never
  re-reads inserted glyphs, and proves that the fold equals this scan for
  every inert table.
- `Terminal` (`terminal.dfy`): standard output as a `Stdout` object. It
  holds the trace of tokens written so far. Each token renders to the
  characters the library prints:
  - CUP, "cursor position", `ESC [ <row> ; 1 H` (section 8.3.21 of ECMA-48);
  - EL, "erase in line", with parameter 0, `ESC [ 0 K` (section 8.3.41 of ECMA-48);
  - the SCO / ANSI.SYS cursor save `ESC [ s` and restore `ESC [ u`;
  - text, a newline, and a flush that renders to nothing.
- `PrintkLib` (`printk.dfy`):
  - the `Printk` configuration record and its builders;
  - `process_message` and `get_icon` as methods with the source's loops;
  - the output operations, as methods that append to the `Stdout` trace;
  - the free functions `printk`, `printk_at_y` and `printk_color`.

Substitution is a fold: each table entry in turn replaces every occurrence
of its placeholder in the text the earlier entries produced. In general a
later key can then match text that an earlier replacement created. That
needs a glyph that helps form a placeholder, such as an empty glyph
(`LaterEntrySeesEarlierOutput`). The shipped table cannot do this. Its
glyphs are single private-use characters, never a brace or a key
character. So no step of the fold creates or destroys another entry's
placeholder. For the shipped table the fold gives the same text as one
scan over the message (`ProcessedIsOneScan`), and the order of the
entries does not matter (`IconOrderIrrelevant`).

With icons off, `get_icon` returns the bare name, without braces
(src/lib.rs:197-199).

## Model

| member | source | states |
|---|---|---|
| Replace.ReplaceAll | src/lib.rs:185 | `str::replace` for one key: a text without the pattern is returned unchanged |
| Replace.ReplaceWhole | src/lib.rs:185 | the placeholder on its own is replaced by the glyph on its own |
| Replace.Split | src/lib.rs:185 | cutting a text at the pattern yields at least one piece, and the first piece is a prefix of the text |
| Replace.SplitJoin | src/lib.rs:185 | gluing the pieces back together with the pattern gives the original text, so nothing between occurrences is lost or altered |
| Replace.ReplaceAllIsJoin | src/lib.rs:185 | replacing is gluing the same pieces with the replacement: only the occurrences change, and everything between them is copied unchanged |
| Replace.SplitPiecesAvoid | src/lib.rs:185 | no piece between two replaced occurrences contains the pattern, so every occurrence is replaced |
| Replace.SplitCutsLeftmost | src/lib.rs:185 | no occurrence starts inside a piece and overlaps the cut that follows it: cuts are at the leftmost non-overlapping occurrences, scanning left to right |
| Terminal.Decimal | src/lib.rs:138 | the row number printed by `{}` is a non-empty string of decimal digits with a leading zero only for 0 |
| Terminal.DecimalRoundTrip | src/lib.rs:138 | reading the printed digits back gives the number |
| Terminal.MoveToRoundTrip | src/lib.rs:138 | the CUP sequence written for a row is parsed back as that row |
| Terminal.RenderToken | src/lib.rs:138-155 | the characters of one token: a flush writes nothing, and each cursor or erase token is a control sequence starting `ESC [` |
| Terminal.Render | src/lib.rs:138-142 | the characters of a whole trace, token after token; a trace of flushes writes nothing |
| Terminal.RenderAppend | src/lib.rs:138-142 | the characters of a trace written in two parts are those of the parts, in order |
| Terminal.Stdout.constructor | src/lib.rs:138-142 | a fresh stream has nothing written to it |
| Terminal.Stdout.Write | src/lib.rs:138-142 | one write appends its token to the trace and its characters to what has been written, and changes nothing else |
| Icons.Lookup | src/lib.rs:201-206 | the lookup result is `None` exactly when no entry has the key; otherwise it is the glyph of an entry with that key, and no earlier entry has the key |
| Icons.IconMapFacts | src/lib.rs:8-97 | the table has 66 entries and no key twice; every key character comes before `{` and every glyph is non-empty with every character after `}`, so keys hold no brace and glyphs no opening brace |
| Icons.LookupFirst | src/lib.rs:201-204 | the search stops at the first entry whose key matches and returns its glyph |
| Icons.LookupAbsent | src/lib.rs:201-206 | a key that no entry carries is not found |
| Icons.DistinctLookup | src/lib.rs:201-206 | in a table without repeated keys, every listed key finds the glyph listed with it |
| Substitution.Substitute | src/lib.rs:180-186 | the fold of `process_message`'s loop, one `replace` per entry in table order; a message without `{` passes through unchanged |
| Substitution.Placeholder | src/lib.rs:184 | the placeholder of a key is the key between `{` and `}`, two characters longer than the key |
| Substitution.SubstituteAppend | src/lib.rs:183-186 | substituting with a table is substituting with its first part and then with the rest: the fold goes in table order |
| Substitution.SubstituteNoPlaceholder | src/lib.rs:180-186 | a message without the placeholder of any table key comes out unchanged |
| Substitution.PlaceholderInPlaceholder | src/lib.rs:184 | between brace-free keys, the placeholder of one key occurs in the placeholder of another exactly when the keys are equal |
| Substitution.NoBraceNoPlaceholder | src/lib.rs:184-185 | a glyph without an opening brace contains no placeholder |
| Substitution.SubstitutePlaceholder | src/lib.rs:180-186 | for a key that holds no brace, in a well-formed table: its placeholder becomes the glyph of the key's first entry, or stays verbatim, braces included, when the key is not listed |
| Substitution.LaterEntrySeesEarlierOutput | src/lib.rs:183-186 | in a table that is not inert, a later key can match text produced by an earlier replacement: `{{a}b}` with `a` (empty glyph) listed before `b` becomes `b`'s glyph |
| Substitution.EarlierEntryMissesLaterOutput | src/lib.rs:183-186 | with the same two keys in the other order, `{b}` is left: in such a table the order decides the outcome |
| Substitution.MatchAt | src/lib.rs:183-185 | the first entry in table order whose placeholder starts the text, `None` exactly when no placeholder starts it |
| Substitution.Scan | src/lib.rs:180-186 | one left-to-right scan that replaces each placeholder it finds and never re-reads a glyph it has written; a text without `{` is copied unchanged |
| Substitution.ScanStep | src/lib.rs:183-186 | in an inert table, one step of the fold followed by a scan with the remaining entries equals a scan with the whole table |
| Substitution.SubstituteIsScan | src/lib.rs:180-186 | in every inert table, the fold gives the same text as the single scan |
| Substitution.ScanOrderFree | src/lib.rs:183-186 | for inert tables with distinct keys that hold the same entries, the scan gives the same text whatever their order |
| Substitution.SubstituteOrderFree | src/lib.rs:183-186 | for inert tables with distinct keys that hold the same entries, the fold gives the same text whatever their order |
| PrintkLib.ListIcons | src/lib.rs:210-214 | `list_icons` returns the table itself, entry for entry in order: 66 entries with no key twice |
| PrintkLib.Printk.Processed | src/lib.rs:175-194 | the value of `process_message`, tint included: with icons off, the message itself, untinted; with no colour, a message without `{` unchanged |
| PrintkLib.Tint | src/lib.rs:189-191 | the text is kept intact between an SGR foreground code (`ESC [ nn m`, nn the colour's code) and the reset `ESC [ 0 m` |
| PrintkLib.ClearRows | src/lib.rs:233-235 | what `clear_lines`' loop writes for n rows: 2n tokens, each row addressed between start+1 and start+n |
| PrintkLib.Printk.New | src/lib.rs:116-121 | the default configuration has no colour and icons on |
| PrintkLib.Printk.WithColor | src/lib.rs:123-126 | sets the colour and keeps the icon setting |
| PrintkLib.Printk.Icons | src/lib.rs:128-131 | sets the icon setting and keeps the colour |
| PrintkLib.Printk.ProcessMessage | src/lib.rs:175-194 | the loop's result is the fold of the table over the message, tinted when a colour is set; with icons off it is the message itself, untinted even when a colour is set |
| PrintkLib.Printk.GetIcon | src/lib.rs:196-207 | with icons off it returns the bare name; with icons on it returns the first-match lookup of the name in the table |
| PrintkLib.FindGlyph | src/lib.rs:201-206 | the loop returns the glyph of the first entry with the key, or `None` when there is none |
| PrintkLib.Printk.PrintAtY | src/lib.rs:133-145 | a negative row fails with `InvalidCursor(y)` and writes nothing; otherwise it writes CUP to row y+1, the processed text and a flush, with no newline |
| PrintkLib.Printk.PrintAtYAndReturn | src/lib.rs:148-158 | a negative row leaves only the save-cursor sequence on the stream and fails; otherwise it writes save, then exactly what `print_at_y` writes, then restore and a flush |
| PrintkLib.Printk.Print | src/lib.rs:161-166 | writes the processed text and flushes |
| PrintkLib.Printk.Println | src/lib.rs:168-172 | writes the processed text and a newline, with no flush |
| PrintkLib.Printk.ClearFromY | src/lib.rs:217-225 | a negative row fails and writes nothing; otherwise it writes CUP to row y+1, erase to end of line and a flush, which is one row cleared followed by the flush |
| PrintkLib.Printk.ClearLines | src/lib.rs:228-238 | a negative start fails and writes nothing; otherwise it clears `count` rows from the start row downwards and then flushes once |
| PrintkLib.ClearRowsShape | src/lib.rs:233-235 | clearing n rows writes 2n tokens, and the k-th cleared row is addressed as start+k+1, each followed by its erase, in ascending order |
| PrintkLib.PrintkPlain | src/lib.rs:241-243 | `printk` writes the substituted message, untinted, and flushes |
| PrintkLib.PrintkAtY | src/lib.rs:245-247 | `printk_at_y` fails on a negative row and writes nothing; otherwise it writes CUP, the substituted message and a flush |
| PrintkLib.PrintkColor | src/lib.rs:249-251 | `printk_color` writes the substituted message tinted with the colour and flushes |
| PrintkLib.KnownPlaceholderResolves | src/lib.rs:180-186 | with icons on and no colour, the placeholder of every table key comes out as that key's glyph |
| PrintkLib.UnknownPlaceholderVerbatim | src/lib.rs:180-186 | with icons on and no colour, the placeholder of a key that holds no brace and is not in the table stays as written |
| PrintkLib.NoPlaceholderUnchanged | src/lib.rs:180-193 | with icons on and no colour, a message holding no table key's placeholder is returned unchanged |
| PrintkLib.ListedIconsResolve | src/lib.rs:196-214 | looking up each key listed by `list_icons` gives the glyph listed with it |
| PrintkLib.ProcessedIsOneScan | src/lib.rs:175-194 | with icons on, `process_message` on the shipped table equals one scan over the message, tinted when a colour is set |
| PrintkLib.IconOrderIrrelevant | src/lib.rs:8-97 | any reordering of the shipped entries substitutes every message exactly as the shipped order does |

## Left out

- The `colored` crate (src/lib.rs:2, 189-191) is not part of this model. `Tint` stands in for it: it wraps the text in an SGR foreground code for one of the sixteen named colours and a reset. True colour is not modelled. The crate also re-emits the colour code after every `ESC [ 0 m` reset inside the text, and `Tint` does not. The crate's switching off of colour for non-terminals or by environment variable is not modelled either.
- I/O errors (`PrintkError::IoError`, src/lib.rs:106-107): writes and flushes always succeed, so no operation returns an I/O error.
- Standard output is a trace of tokens. Line buffering by the real stream is not modelled, so the stream receives a `Println` newline without a flush.
- PrintkLib.Printk.PrintAtY: requires y < 32767, because `y + 1` (src/lib.rs:138) overflows `i16` at 32767, which panics in debug builds and wraps in release builds.
- PrintkLib.Printk.PrintAtYAndReturn: requires y < 32767, for the same reason.
- PrintkLib.Printk.ClearFromY: requires y < 32767, because `y + 1` (src/lib.rs:222) overflows there.
- PrintkLib.PrintkAtY: requires y < 32767, for the same reason.
- PrintkLib.Printk.ClearLines: requires startY + count <= 32767 for a non-negative start. With a larger sum, `start_y + i as i16 + 1` (src/lib.rs:234) overflows, and `i as i16` truncates when i >= 32768.
- Replace.ReplaceAll: requires a non-empty pattern. Rust's `replace` with an empty pattern inserts the replacement before the first character, between every two characters and after the last (`"ab"` becomes `"XaXbX"`). Every placeholder has at least two characters, so the library never does this.
- The compiled `ICON_REGEX` (src/lib.rs:99) is never used by the library and is left out, as is the lazy initialisation of the table (`lazy_static`, src/lib.rs:7).
- `src/main.rs` (the command-line front end, its help text and its demo) is not part of this model.
- Strings are sequences of Unicode scalar values, not UTF-8 bytes. The library only searches for and replaces whole placeholders, which gives the same result either way.
