# Verification of the Adou test terminal, native helpers, harness, catalog generator and RPC views

This Dafny 4.11 project models six parts of the repository and proves what they are for.
`dafny verify dfyconfig.toml` checks all of it.

| part | files |
|---|---|
| VT screen interpreter (`tests/e2e/lib/vt_screen.py`) | `VtScreen`, `VtStrict`, `VtControl`, `VtText`, `VtSequences`, `VtAliases`, `VtLayout`, `VtScreenObject`, `VtParserObject` |
| credential write (`native/auth_store.c`) | `FileSystem`, `AuthStore` |
| terminal flags and raw mode (`native/term.c`) | `TermFlags`, `TermRaw`, `TermLine` |
| harness bridge and pending queue (`src/sdk_harness.n`) | `HarnessSession`, `Harness`, `HarnessPhases`, `HarnessQueue`, `HarnessStart` |
| catalog generator (`scripts/generate-model-catalog.py`) | `CatalogText`, `CatalogCompat`, `CatalogEmit`, `CatalogSource` |
| RPC session views (`src/app.n`) | `RpcEntries`, `RpcTree`, `RpcTreeContents` |

**Terminal.** `VtScreen` and `VtControl` restate the interpreter on values: slice assignments on rows of
cells, and one control step per byte. `VtStrict` is an independent reference: a strict `rows` x `cols`
matrix in which each operation says what every single cell holds afterwards. `StreamRefines` connects
the two for every byte stream. `VtScreenObject` and `VtParserObject` are the program's own form (row
objects edited in place, mutable parser fields, a byte queue); every method is proved to compute the
operation on values, and the grid holds pairwise distinct row objects in every state. The whole-stream
laws are in `VtText` (UTF-8), `VtSequences` (control sequences) and `VtLayout` (wrapping and rendering). `VtAliases` says what
literal byte strings do without either of the two: which are interchangeable, which leave no trace, and what cursor and cells are afterwards.

**Credential write.** `FileSystem` is a file system seen through crashes: the directory keeps every
version since it was last synced, and data that was not synced may be lost in any way. `AtomicWrite` takes
the environment's answers as a script; where the script ends, the process stops, so its contract covers
every prefix of every run and every crash at that point. Small functions on the script alone say where a run
opens its file, has written all of it and has renamed it; the contract says from them what is returned, which
call is to blame for an error, and what readers and crashes find.

**Terminal flags and raw mode.** `TermFlags` runs any number of reads and writes in any interleaving of
their `fcntl` steps; `TermRaw` runs any sequence of enter and restore calls on descriptors that may share a terminal, any
system call of which may fail. `TermLine` is a line discipline after chapter 11 of POSIX.1-2017: which settings make a
terminal deliver bytes at once and unchanged, and what raw mode achieves of that.

**Harness.** `Harness` is the bridge and the flush loop on mutable fields. Other callers append before each event, in
every turn of a flush, between its last look and the change of phase, and before the target is finished: to the queue
in a busy phase and to the session in an idle one. `HarnessQueue` interleaves the three steps of a flush iteration with
the two steps of `append_message` and with phase changes; `HarnessStart` interleaves the two steps of overlapping starts. `HarnessPhases` says by the names of the events which one
decides the phase, and what a busy run means for messages and starts.

**Catalog.** The literal printers have a reader each; the compat compression is shown lossless and least;
the emitted text is parsed, and the statements found in it are executed by a small interpreter that must
return the input models.

**RPC views.** The tree is compared with a reference forest defined by "the children of a node are the
entries naming it as parent, in log order", both when `next_visited` copies the list and when it aliases it.

## Where the code and its description differ

The model follows the code. Each point names the lemma with the exact condition or the concrete input.

- An erase without a parameter runs mode 1, because the empty-parameter default is 1
  (`tests/e2e/lib/vt_screen.py:366-369`); ECMA-48 sections 8.3.39 and 8.3.41 default to 0. The two agree
  exactly when there is nothing to erase: `VtSequences.BareEraseIsStandardIff`.
- Erasing to the left while the cursor rests at column `cols` writes `cols + 1` blanks
  (`tests/e2e/lib/vt_screen.py:137`, `:147`), so a row becomes one cell too long. No other operation does this:
  `VtStrict.StaysExactIff`, with an input in `VtSequences.FullRowGrows`. The surplus cell is blank and never becomes visible: `VtStrict.ApplyRefines`.
- `=` (0x3D) is listed among the private markers of the dispatch (`tests/e2e/lib/vt_screen.py:376`) but is not
  collected as one (`:358`): it ends the sequence at once and the rest is typed on the screen
  (`VtSequences.EqualsTypesTheRest`, with an input in `VtSequences.KittyPushIsTyped`). Of the listed markers it is the
  only one that leaves its sequence visible: `VtSequences.ListedMarkerInvisibleIff`.
- The comments at `src/app.n:1897-1917` say that entries on a parent cycle are still returned. They are left
  out: `RpcTreeContents.OmittedIffCyclic`, with an example in `RpcTreeContents.MutualParentsVanish`.
- `native/term.c` reads and writes "without blocking", but only writes take the mutex. The descriptor flags are
  restored all the same (`TermFlags.FlagsNeverLeak`), while I/O stays non-blocking in every interleaving if and only if
  O_NONBLOCK was on before, or there is one call, or there are only writes: `TermFlags.NeverBlocksIff`. Otherwise
  `TermFlags.OverlapCanBlock` gives the schedule.
- `adou_term_enter_raw` returns an error after its last flush fails, yet the terminal is raw by then and
  nothing remembers its settings: `TermRaw.FailedEnterLeavesRaw`. `TermRaw.RawModeSafety` gives the exact
  condition on the calls.
- Raw mode is meant to pass bytes through, but `make_raw` (`native/term.c:129-136`) leaves INLCR, IGNCR and PARMRK as they
  were: a successful enter makes the terminal transparent if and only if INLCR and IGNCR were off, and PARMRK off or
  IGNPAR on: `TermLine.EnteredIsTransparentIff`, with an input in `TermLine.NewlineReadsAsReturn`. Clearing VTIME is the one change a
  terminal with VMIN 1 does not need.
- For a path without a slash a 0 return is not durable, unless the path durably held the same contents already
  (`AuthStore.AtomicWrite`, the clause about `SurvivesCrash`; an empty directory in `AuthStore.WithoutSlashMayVanish`).
- After the last look of a flush at an empty queue, the harness can come to rest idle with a message in the queue if and
  only if some caller saw the busy phase and has yet to queue its message, or the phase is still busy and some caller
  has yet to look at it: `HarnessQueue.NothingStrandedIff`. The second case is the window between the last look and
  `phase = PHASE_IDLE` (`src/sdk_harness.n:161-163`, `:192`); schedules are in `HarnessQueue.WindowPushIsStranded` and
  `HarnessQueue.LatePushIsStranded`. `Harness.AgentHarness.Bridge` leaves exactly what was queued in that window.
- The starting calls refuse to overlap, but look at the phase and set it without a lock
  (`src/sdk_harness.n:42-43`). They exclude each other if and only if the harness is busy already or there is one of
  them: `HarnessStart.StartsExcludeEachOtherIff`, with the schedule in `HarnessStart.BothBegin`.

## Model

| member | source | states |
|---|---|---|
| `VtControl.StreamRefines` | tests/e2e/lib/vt_screen.py:227-249 | for every valid state and every byte stream the run is total, keeps a well-formed screen, and at its end equals the strict reference screen (cell by cell, cursor, margins, saved cursor, history) and shows the same visible rows |
| `VtControl.ReachableScreens` | tests/e2e/lib/vt_screen.py:34-43 | from power-on, after any bytes: exactly `rows` rows, cursor inside `0..rows-1` x `0..cols`, each row `cols` cells plus at most one blank surplus cell, same visible rows as the strict screen |
| `VtStrict.ApplyRefines` | tests/e2e/lib/vt_screen.py:47-189 | every operation on every valid screen, surplus cells included, has exactly the effect of the cell-by-cell reference operation |
| `VtStrict.Redraw` | tests/e2e/lib/vt_screen.py:131-169 | the reference: after a change, each cell (r, c) of the strict matrix holds what `CellAfter` says for it, and nothing but the cells changes |
| `VtStrict.ScrollUpRefines` | tests/e2e/lib/vt_screen.py:47-56 | scrolling any region up by any count moves each row of the region up, enters blanks at the bottom, touches no row outside, and counts the lost rows |
| `VtStrict.ScrollDownRefines` | tests/e2e/lib/vt_screen.py:58-65 | scrolling a region down is the reference shift downwards and does not count history |
| `VtStrict.LinefeedRefines` | tests/e2e/lib/vt_screen.py:85-89 | a line feed scrolls exactly at the bottom margin, otherwise moves down unless on the last row |
| `VtStrict.PutCharRefines` | tests/e2e/lib/vt_screen.py:67-79 | a character of width 0, 1 or 2 marks the previous cell, or wraps if needed and stamps its one or two cells, a wide one in the last column taking one cell |
| `VtStrict.EraseDisplayRefines` | tests/e2e/lib/vt_screen.py:131-141 | for every mode, exactly the cells of that mode are blank afterwards |
| `VtStrict.EraseLineRefines` | tests/e2e/lib/vt_screen.py:143-149 | for every mode, exactly the cells of that mode on the cursor row are blank afterwards |
| `VtStrict.InsertCharsRefines` | tests/e2e/lib/vt_screen.py:157-160 | cells from the cursor slide right by the count, blanks enter, cells past the edge are lost |
| `VtStrict.DeleteCharsRefines` | tests/e2e/lib/vt_screen.py:162-165 | cells right of the deleted ones slide left, blanks enter at the edge |
| `VtStrict.EraseCharsRefines` | tests/e2e/lib/vt_screen.py:167-169 | exactly `n` cells from the cursor, within the row, become blank |
| `VtStrict.ReverseRefines` | tests/e2e/lib/vt_screen.py:101-105 | reverse index scrolls down exactly at the top margin, otherwise moves up unless on the first row |
| `VtStrict.PutManyRefines` | tests/e2e/lib/vt_screen.py:187-189 | repeating a character refines repeating the strict put |
| `VtStrict.MoveRefines` | tests/e2e/lib/vt_screen.py:91-129 | every cursor movement, margin setting, save and restore clamps as the reference does and leaves all cells alone |
| `VtStrict.VisibleRowsOfCut` | tests/e2e/lib/vt_screen.py:193-195 | cutting off the surplus cells does not change the visible rows |
| `VtStrict.StaysExactIff` | tests/e2e/lib/vt_screen.py:137-147 | on a screen without surplus cells, an operation creates one if and only if it erases in mode 1 with the cursor at column `cols` |
| `VtScreen.ApplyValid` | tests/e2e/lib/vt_screen.py:47-189 | every operation keeps the screen invariant and its size |
| `VtScreenObject.Screen.constructor` | tests/e2e/lib/vt_screen.py:34-43 | a new screen has blank, pairwise distinct row objects, all of them new |
| `VtScreenObject.Screen.SpliceUp` | tests/e2e/lib/vt_screen.py:53-55 | the slice assignment moves row objects and adds fresh ones; no existing row is written and rows stay pairwise distinct |
| `VtScreenObject.Screen.SpliceDown` | tests/e2e/lib/vt_screen.py:63-65 | the same for scrolling down |
| `VtScreenObject.Screen.ScrollUpRegion` | tests/e2e/lib/vt_screen.py:47-56 | the in-place method computes the scroll on values and writes no row object |
| `VtScreenObject.Screen.ScrollDownRegion` | tests/e2e/lib/vt_screen.py:58-65 | the in-place method computes the scroll on values and writes no row object |
| `VtScreenObject.Screen.PutChar` | tests/e2e/lib/vt_screen.py:67-79 | the in-place put computes the put on values; of the existing row objects only the one at the cursor row may change |
| `VtScreenObject.Screen.AssignSlice` | tests/e2e/lib/vt_screen.py:78 | a slice assignment to the cursor row changes that row of the grid value and no other, because rows are distinct objects |
| `VtScreenObject.Screen.Linefeed` | tests/e2e/lib/vt_screen.py:85-89 | computes the line feed on values; writes no row object |
| `VtScreenObject.Screen.ReverseIndex` | tests/e2e/lib/vt_screen.py:101-105 | computes the reverse index on values; writes no row object |
| `VtScreenObject.Screen.EraseDisplay` | tests/e2e/lib/vt_screen.py:131-141 | replaces rows and edits the cursor row as the code does, computing the erase on values with rows still distinct |
| `VtScreenObject.Screen.EraseLine` | tests/e2e/lib/vt_screen.py:143-149 | computes the erase on values; every other position keeps its row object, unwritten |
| `VtScreenObject.Screen.InsertChars` | tests/e2e/lib/vt_screen.py:157-160 | writes only the cursor row object and computes the insertion on values |
| `VtScreenObject.Screen.DeleteChars` | tests/e2e/lib/vt_screen.py:162-165 | writes only the cursor row object and computes the deletion on values |
| `VtScreenObject.Screen.EraseChars` | tests/e2e/lib/vt_screen.py:167-169 | writes only the cursor row object and computes the erase on values |
| `VtScreenObject.Screen.RepeatChar` | tests/e2e/lib/vt_screen.py:187-189 | the loop of puts computes the repeated put on values |
| `VtScreenObject.RolledUpDistinct` | tests/e2e/lib/vt_screen.py:53-55 | rolling distinct row objects together with fresh blanks gives distinct row objects |
| `VtParserObject.VTParser.Feed` | tests/e2e/lib/vt_screen.py:227-249 | the queue loop on the mutable parser computes the value-level run, keeps the invariant (distinct rows included) and leaves the queue empty |
| `VtParserObject.VTParser.FeedQueued` | tests/e2e/lib/vt_screen.py:231-249 | one turn of the loop is one step of the value-level interpreter, in all seven states |
| `VtParserObject.VTParser.GroundByte` | tests/e2e/lib/vt_screen.py:273-302 | in ground, a byte has exactly the effect of the ground step: new control state and at most one operation |
| `VtParserObject.VTParser.EmitUtf8` | tests/e2e/lib/vt_screen.py:304-311 | a decodable sequence is put once and remembered; anything else changes nothing |
| `VtParserObject.VTParser.EscByte` | tests/e2e/lib/vt_screen.py:315-343 | after ESC, a byte has exactly the effect of the escape step, which `VtAliases` pins down byte by byte |
| `VtParserObject.VTParser.CsiByte` | tests/e2e/lib/vt_screen.py:354-364 | inside a CSI sequence, a byte is collected or dispatches the sequence as the CSI step says |
| `VtParserObject.VTParser.DispatchCsi` | tests/e2e/lib/vt_screen.py:371-428 | the branches perform exactly the operation named by marker, parameters and final byte, and return to ground |
| `VtParserObject.VTParser.Reset` | tests/e2e/lib/vt_screen.py:430-431 | back to the power-on value with a new screen of the same size |
| `VtControl.FeedAppend` | tests/e2e/lib/vt_screen.py:210-249 | feeding a stream in two parts is feeding it whole |
| `VtControl.FeedChunks` | tests/e2e/lib/vt_screen.py:210-249 | feeding a stream in any number of chunks is feeding it whole |
| `VtControl.FeedIsRun` | tests/e2e/lib/vt_screen.py:253-271 | a run is its triggered operations performed in order, and the control state does not depend on the screen |
| `VtText.DecodeEncoded` | tests/e2e/lib/vt_screen.py:304-308 | the RFC 3629 encoding of every scalar value from 0x80 up decodes to it |
| `VtText.EncodeDecoded` | tests/e2e/lib/vt_screen.py:304-308 | whatever decodes is the encoding of its result: no overlong form, surrogate or stray byte is accepted |
| `VtText.SequencePerforms` | tests/e2e/lib/vt_screen.py:233-240 | from ground, any decodable sequence of 2 to 4 bytes triggers exactly one put and returns to ground |
| `VtText.TextOps` | tests/e2e/lib/vt_screen.py:273-311 | feeding encoded text from ground triggers exactly one put per scalar value, in order, nothing else, and ends in ground |
| `VtText.FeedText` | tests/e2e/lib/vt_screen.py:273-311 | feeding encoded text gives the screen of putting its characters one by one, up to fields that are never read again |
| `VtText.FeedAlike` | tests/e2e/lib/vt_screen.py:253-364 | bisimulation: parsers that differ only in fields the current state will not read have equal screens under every continuation |
| `VtSequences.CsiPerforms` | tests/e2e/lib/vt_screen.py:347-428 | from ground, every complete CSI sequence performs exactly the operation of its last marker, its parameters and its final byte, and returns to ground |
| `VtSequences.OscPerforms` | tests/e2e/lib/vt_screen.py:241-261 | from ground, an OSC ended by BEL or ESC backslash triggers nothing and returns to ground |
| `VtSequences.FeedInvisible` | tests/e2e/lib/vt_screen.py:376-427 | a complete SGR, private-marked CSI, unknown CSI or OSC changes nothing that matters |
| `VtSequences.InvisibleSequencesErased` | tests/e2e/lib/vt_screen.py:227-428 | any number of invisible sequences inserted wherever the parser is in ground leave the screen unchanged under every continuation |
| `VtSequences.ParamsReadBack` | tests/e2e/lib/vt_screen.py:366-369 | every list of parameters, empty ones included, reads back in order, with 1 for each empty one |
| `VtSequences.OpPerforms` | tests/e2e/lib/vt_screen.py:371-428 | printing an operation as bytes and feeding them performs exactly that operation |
| `VtSequences.ProgramRuns` | tests/e2e/lib/vt_screen.py:371-428 | the bytes of any program of operations give the strict screen of performing them one by one |
| `VtSequences.ListedMarkerInvisibleIff` | tests/e2e/lib/vt_screen.py:354-379 | for every marker the dispatch lists, all parameter bytes and every final byte 0x40..0x7E, the sequence triggers nothing if and only if the marker is not `=` |
| `VtSequences.EqualsTypesTheRest` | tests/e2e/lib/vt_screen.py:354-364 | from ground, whatever printable bytes follow `CSI =` are put on the screen one by one |
| `VtSequences.KittyPushIsTyped` | tests/e2e/lib/vt_screen.py:354-379 | the input `CSI = 5 u` types `5u` |
| `VtSequences.FullRowGrows` | tests/e2e/lib/vt_screen.py:137-147 | the input: after `ab` and `CSI 1 K` the only row of a two-column screen has three cells |
| `VtSequences.BareEraseIsModeOne` | tests/e2e/lib/vt_screen.py:366-403 | `CSI K` and `CSI J` without a parameter erase in mode 1 |
| `VtSequences.BareEraseIsStandardIff` | tests/e2e/lib/vt_screen.py:366-403 | the bare erase shows the same screen as the explicit mode 0 if and only if every erased cell besides the one under the cursor is blank already |
| `VtAliases.SaveSpellings` | tests/e2e/lib/vt_screen.py:323-328 | from ground, under every continuation, ESC 7 is `CSI s` and ESC 8 is `CSI u` |
| `VtAliases.EscapeCursor` | tests/e2e/lib/vt_screen.py:323-328 | ESC 7 saves row and column and changes nothing else; ESC 8 sets row and column to the saved ones and changes nothing else |
| `VtAliases.SavedCursorReturns` | tests/e2e/lib/vt_screen.py:323-328 | ESC 7, any bytes that save nothing and end in ground, ESC 8: the cursor is back |
| `VtAliases.LineFeedSpellings` | tests/e2e/lib/vt_screen.py:277-278 | VT, FF and ESC D are interchangeable with LF |
| `VtAliases.LineSpellings` | tests/e2e/lib/vt_screen.py:337-339 | ESC E is CR LF; `CSI n E` and `CSI n F` are `CSI n B` and `CSI n A` with a CR |
| `VtAliases.ControlSpellings` | tests/e2e/lib/vt_screen.py:279-282 | BS is `CSI 1 D` and CR is `CSI 1 G` |
| `VtAliases.ScrollSpellings` | tests/e2e/lib/vt_screen.py:331-336 | LF is `CSI 1 S` at the lower margin and `CSI 1 B` elsewhere; ESC M is `CSI 1 T` at the upper margin and `CSI 1 A` elsewhere |
| `VtAliases.FinalSpellings` | tests/e2e/lib/vt_screen.py:380-397 | with any body, `f` ends a sequence as `H` does, and the backquote as `G` |
| `VtAliases.DefaultSpellings` | tests/e2e/lib/vt_screen.py:366-381 | an absent column is 1, absent coordinates are 1;1, an absent lower margin is the last row |
| `VtAliases.RelativeMoves` | tests/e2e/lib/vt_screen.py:382-389 | `CSI n A`, `B`, `C`, `D` move by n and stop at the edges; nothing else changes |
| `VtAliases.AbsoluteMoves` | tests/e2e/lib/vt_screen.py:380-399 | `CSI m;n H`, `CSI m d`, `CSI n G` count from 1, take 0 for 1 and stop at the last row and column |
| `VtAliases.TabStops` | tests/e2e/lib/vt_screen.py:283-284 | HT goes to the next multiple of 8, or to the last column |
| `VtAliases.MarginsSet` | tests/e2e/lib/vt_screen.py:416-417 | `CSI m;n r` sets the margins, the lower one raised to the upper and then cut to the last row |
| `VtAliases.LineErased` | tests/e2e/lib/vt_screen.py:402-403 | after `CSI n K`, cell by cell: blank from, up to, or all of the cursor row by the mode, all else as before |
| `VtAliases.DisplayErased` | tests/e2e/lib/vt_screen.py:400-401 | after `CSI n J`, cell by cell: blank from, up to, or all of the screen by the mode, all else as before |
| `VtAliases.CharsEdited` | tests/e2e/lib/vt_screen.py:408-411 | after `CSI n P` and `CSI n X`, cell by cell: the rest of the row pulled left, or n cells blank |
| `VtAliases.RegionRolledUp` | tests/e2e/lib/vt_screen.py:412-413 | after `CSI n S`, cell by cell: the rows between the margins moved up, and the history counts the lost ones |
| `VtAliases.LinesDropped` | tests/e2e/lib/vt_screen.py:406-407 | the same for `CSI n M` from the cursor row on |
| `VtAliases.RowsRolledDown` | tests/e2e/lib/vt_screen.py:404-415 | after `CSI n T` and `CSI n L`, cell by cell: rows moved down |
| `VtAliases.CharInCells` | tests/e2e/lib/vt_screen.py:67-79 | the bytes of a character fill the cell under the cursor, a wide one also blanks the next; no other cell changes |
| `VtAliases.MarkInCells` | tests/e2e/lib/vt_screen.py:67-72 | a combining mark joins the cell left of the cursor and moves nothing |
| `VtAliases.WidthOfText` | tests/e2e/lib/vt_screen.py:67-79 | where the cursor is after a combining, narrow or wide character |
| `VtAliases.RepeatIsTyping` | tests/e2e/lib/vt_screen.py:422-423 | after any character, `CSI n b` is that character typed n more times |
| `VtAliases.DesignatorsVanish` | tests/e2e/lib/vt_screen.py:321-322 | ESC and one of `(` to `+` swallow the next byte, whatever it is |
| `VtAliases.OtherEscapesVanish` | tests/e2e/lib/vt_screen.py:329-343 | ESC and any byte without a meaning leaves no trace |
| `VtAliases.StrayBytesVanish` | tests/e2e/lib/vt_screen.py:285-302 | ignored controls, DEL and bytes that start no UTF-8 sequence leave no trace |
| `VtAliases.BadSequencesVanish` | tests/e2e/lib/vt_screen.py:304-308 | bytes as long as their lead announces that encode no character leave no trace |
| `VtAliases.PrivateSequencesVanish` | tests/e2e/lib/vt_screen.py:357-379 | a sequence with `!`, `<`, `>` or `?` in it leaves no trace |
| `VtAliases.OtherSequencesVanish` | tests/e2e/lib/vt_screen.py:424-427 | a sequence that ends in any byte but the 23 with a meaning leaves no trace |
| `VtAliases.IntermediatesIgnored` | tests/e2e/lib/vt_screen.py:360-362 | leaving out an intermediate byte makes no difference |
| `VtLayout.DeferredWrap` | tests/e2e/lib/vt_screen.py:73-75 | at an exactly full row the deferred wrap of the next character does what CR LF would have done |
| `VtLayout.FillFills` | tests/e2e/lib/vt_screen.py:67-79 | where the text is cut the row is exactly full and the next character takes cells |
| `VtLayout.SoftWrapIsHardWrap` | tests/e2e/lib/vt_screen.py:67-92 | from any ground state with the cursor in column 0 and any margins, any text, wide characters and combining marks included, gives the same screen as the text cut at full rows and joined by CR LF |
| `VtLayout.AsciiSoftWrapIsHardWrap` | tests/e2e/lib/vt_screen.py:67-92 | for printable ASCII the pieces are the `cols`-wide chunks of the text |
| `VtLayout.LinesPicture` | tests/e2e/lib/vt_screen.py:227-290 | feeding lines joined by CR LF to a fresh parser gives exactly the described screen, cursor and history included |
| `VtLayout.RenderRoundTrip` | tests/e2e/lib/vt_screen.py:193-195 | k lines without trailing spaces come back: the visible rows are the last `rows` lines, padded with blanks, and the history is max(0, k - rows) |
| `VtLayout.AsciiRenderRoundTrip` | tests/e2e/lib/vt_screen.py:193-195 | the same for all lines of at most `cols` printable ASCII characters |
| `AuthStore.AtomicWrite` | native/auth_store.c:66-104 | for every script of answers: the path is renamed exactly when every call up to the rename went well, and then holds every byte, synced; otherwise readers and crashes find the old contents; at any stop a crash leaves the whole new contents or what a crash before could have left; 0 is returned if and only if the parent calls went well too, and is durable if and only if the path has a slash or durably held these contents already; a negative return blames the call that failed, with its own error: before the rename with the old contents kept, after it only a call of the parent sync; whenever it returns every other name is as it was, except that one of the 100 temporary names is left exactly when the file was opened, not renamed, and its unlink failed |
| `AuthStore.TemporariesLieBeside` | native/auth_store.c:70-75 | every temporary name is the path and a suffix without a slash, so it lies in the same directory, and no two attempts share one |
| `AuthStore.KindSucceeds` | native/auth_store.c:66-104 | when a name is free, succeeding calls that write something lead to 0 |
| `AuthStore.RenamedIsClean` | native/auth_store.c:72-99 | a run reaches the rename only when every earlier failure was an interrupted write or a taken name |
| `AuthStore.SettledMeansOld` | native/auth_store.c:66-104 | if the old entry and data were on disk, what a crash before the call could have left is exactly the old contents |
| `AuthStore.OpenTemporary` | native/auth_store.c:72-82 | at most 100 exclusive creates; success names a new empty file other than the path; failure changes nothing and means all 100 names were refused as taken (EEXIST) or an open failed with this other error |
| `AuthStore.WriteAll` | native/auth_store.c:84-96 | short writes and EINTR: the file always holds a prefix, the whole data exactly when the answers add up to it; an error is that of the first bad write, EIO for one that wrote nothing |
| `AuthStore.SyncParent` | native/auth_store.c:44-64 | without a slash nothing is done; with one, success means the directory was synced; an error is that of the first failing call, ENOMEM for the copy |
| `AuthStore.FillTemporary` | native/auth_store.c:87-98 | on success the temporary file holds the whole data, synced, and the path is untouched; an error is that of the bad write, or of fsync, or else of close |
| `AuthStore.InstallTemporary` | native/auth_store.c:99-100 | a failing rename leaves the path untouched and gives its error; otherwise the path names the new synced file, the temporary name is gone, all other names are as before, and the result is that of the parent sync, call by call |
| `AuthStore.Discard` | native/auth_store.c:101 | removing the temporary name never touches the path, and leaves all other names as they were before the write |
| `AuthStore.UnsyncedMayBeLost` | native/auth_store.c:48-51 | without a directory sync the new contents survive every crash if and only if they would have before the call |
| `AuthStore.WithoutSlashMayVanish` | native/auth_store.c:48-51 | the input: writing any contents to a path without a slash in an empty directory, a crash may leave no file |
| `AuthStore.InstalledMeansOldOrNew` | native/auth_store.c:99 | after the rename, the path reads as the new contents, and every crash leaves them whole or what could have been left before |
| `TermFlags.FlagsNeverLeak` | native/term.c:48-127 | in every state of every interleaving, failing fcntl calls included, the flags are the original ones, or they have only O_NONBLOCK added and some call is between its set and its restore or has reported a failed restore |
| `TermFlags.RestoredAtTheEnd` | native/term.c:80-127 | when all calls have returned and none reported a failed restore, the flags are the original ones |
| `TermFlags.WritesNeverBlock` | native/term.c:40-92 | with writes only, every write does its I/O in non-blocking mode |
| `TermFlags.ChangedOnlyInsideAWindow` | native/term.c:48-127 | from idle, with every fcntl call succeeding, changed flags mean only O_NONBLOCK added and some call between its set and its restore |
| `TermFlags.NeverBlocksIff` | native/term.c:48-127 | over every interleaving, failing fcntl calls included, no call does its I/O in blocking mode if and only if O_NONBLOCK was on before, or there is at most one call, or every call is a write |
| `TermFlags.OverlapCanBlock` | native/term.c:97-127 | in any other idle world, for every read and every other call, there is an interleaving in which the read blocks |
| `TermFlags.WriteWithRetries` | native/term.c:60-79 | an interrupted attempt is repeated at most 16 times, and the first attempt not repeated decides: its count, 0 when the buffer is full, or its negated errno, EINTR only after 17 attempts |
| `TermRaw.RawModeSafety` | native/term.c:142-195 | over every sequence of calls on any descriptors, shared terminals included, everything is in order at the end (at most one raw terminal, its original settings saved) when no call lost a terminal, and otherwise one stays raw for good; with terminals that did not start raw this is an if-and-only-if |
| `TermRaw.StepKeepsOrder` | native/term.c:142-195 | each call that loses nothing keeps everything in order |
| `TermRaw.LosingStep` | native/term.c:161-191 | each losing call leaves a raw terminal whose original settings nobody has |
| `TermRaw.RestoreBringsBack` | native/term.c:173-195 | after a restore whose tcsetattr succeeds every terminal has its original settings |
| `TermRaw.FailedEnterLeavesRaw` | native/term.c:161-166 | an enter whose last flush fails returns an error with the terminal raw and inactive |
| `TermRaw.Terminal.EnterRawMode` | native/term.c:142-171 | the method on static state computes the enter transition for every outcome of its calls; `TermLine` says what it means for bytes and returns |
| `TermRaw.Terminal.RestoreRawMode` | native/term.c:173-195 | the method on static state computes the restore transition for every outcome of its calls |
| `TermLine.TransparentIff` | native/term.c:129-136 | a terminal delivers every typed byte at once and unchanged, without echo, signal or stop, returns reads exactly when there is data, signals no break and sends bytes unchanged, if and only if the listed settings are so |
| `TermLine.RawIsTransparentIff` | native/term.c:129-136 | raw settings are transparent if and only if INLCR, IGNCR and PARMRK without IGNPAR were off |
| `TermLine.EachChangeMatters` | native/term.c:129-136 | none of the flags raw mode changes, nor VMIN, could be left as it was found |
| `TermLine.EnteredIsTransparentIff` | native/term.c:142-171 | after a successful enter from order the terminal is remembered, keeps all settings raw mode does not touch, and is transparent if and only if those three were off |
| `TermLine.NewlineReadsAsReturn` | native/term.c:130 | the input: with INLCR on, a newline typed in raw mode reads as a carriage return |
| `TermLine.EnterReturns` | native/term.c:142-171 | an enter returns 0 if and only if its descriptor is remembered already or its own four calls succeed, whatever became of the restore before it; only then is the descriptor remembered |
| `TermLine.RestoreReturns` | native/term.c:173-195 | a restore of the remembered descriptor returns 0 if and only if all its three calls succeed; any other returns 0 and does nothing |
| `Harness.AgentHarness.AppendMessage` | src/sdk_harness.n:101-109 | idle: straight to the session; busy: at the end of the queue |
| `Harness.AgentHarness.Begin` | src/sdk_harness.n:41-71 | a start on its own: it begins exactly from idle |
| `HarnessStart.StartsExcludeEachOtherIff` | src/sdk_harness.n:41-71 | over every interleaving of the look and the set of any number of starts, two never run at once if and only if the harness was busy or there is at most one start |
| `HarnessStart.BothBegin` | src/sdk_harness.n:42-43 | the schedule: two starts from idle both begin |
| `Harness.AgentHarness.AppendAll` | src/sdk_harness.n:101-109 | any number of appends: all to the queue in a busy phase, all to the session in an idle one, in order |
| `Harness.AgentHarness.FlushPendingMessages` | src/sdk_harness.n:158-172 | queued messages that reached the session followed by the queue are what they were plus what was queued meanwhile, in order; appends made in an idle phase are in the session, in order; success empties the queue, the first failed append stops it |
| `Harness.AgentHarness.Bridge` | src/sdk_harness.n:174-204 | handlers get exactly the calls of the handled events in order; the target gets exactly the earlier events and then one finish with the session, what came in before the finish included, or one failure; every message others appended is accounted for in order, on the queue if the phase was busy and in the session if it was idle; after session_end the phase is idle and the queue holds exactly what was queued between the last look of the flush and the idle phase |
| `Harness.AgentHarness.HandleEvent` | src/sdk_harness.n:181-195 | one event: phase change, flush where due, window, phase again, handlers; what arrives before, during and after the flush goes to the queue or the session by the phase; after a good flush the queue holds what was queued in the window; a failed flush leaves the phase idle and calls no handler |
| `HarnessPhases.LastDecides` | src/sdk_harness.n:181-193 | over any run, the last event that matters decides the phase by its name: `compaction_start`, `auto_retry_start`, `branch_summary_start`, or idle for `agent_settled` and `session_end` |
| `HarnessPhases.NoneDecides` | src/sdk_harness.n:181-193 | a run without those five leaves the phase as it was |
| `HarnessPhases.IdleIff` | src/sdk_harness.n:181-193 | after any run the harness is idle if and only if the last event that matters settles, or none matters and it was idle |
| `HarnessPhases.EverythingIsQueued` | src/sdk_harness.n:101-109 | while a busy harness handles events of which none settles, everything others append is queued, in order, and nothing goes straight to the session |
| `HarnessPhases.AppendInMidRun` | src/sdk_harness.n:101-204 | the whole scenario on the mutable harness: after such a run with appends around every event, a further message joins the end of the queue, a start is refused, nothing went straight to the session, and the phase is the one last announced |
| `HarnessPhases.OneEvent` | src/sdk_harness.n:181-195 | what one handled event does to the phase, by its name, and that `turn_end` and `session_end` flush |
| `HarnessPhases.EndingsByName` | src/sdk_harness.n:176-200 | the bridge stops at the first `session_end`, or at a failed flush at `turn_end` or `session_end`, or when the source is lost |
| `Harness.HandlerHearsItsEvents` | src/sdk_harness.n:148-156 | a registered handler hears exactly its events, once each, in order; `*` hears all |
| `HarnessQueue.QueueIsFifo` | src/sdk_harness.n:101-172 | in every interleaving of appends, flush steps and phase changes, what the session got from the queue followed by what is still queued is what was pushed |
| `HarnessQueue.FlushedIsDelivered` | src/sdk_harness.n:158-172 | over every interleaving, everything pushed before the last look of a flush is delivered, and until the next flush starts the queue holds exactly what was pushed after that look, in order |
| `HarnessQueue.DeliveredIsPrefix` | src/sdk_harness.n:158-172 | in every run the delivered messages are the first ones pushed, and while no flush is under way the queue holds the others |
| `HarnessQueue.FailedAppendKeepsQueue` | src/sdk_harness.n:158-189 | after a failed append, whatever happens until another flush starts, the queued messages stay queued in order with the failed one first and none is delivered; afterwards the failed one is the first to be delivered |
| `HarnessQueue.HeadIsNext` | src/sdk_harness.n:158-172 | in every interleaving the head of the queue is the next queued message to reach the session |
| `HarnessQueue.QuietFlush` | src/sdk_harness.n:158-172 | with nobody pushing, a flush delivers all in one turn per message |
| `HarnessQueue.NothingStrandedIff` | src/sdk_harness.n:101-109 | with the flush over and the queue empty, phase busy or idle: nothing is queued until the phase becomes busy again if and only if no caller has yet to queue after a busy look and, while the phase is busy, none has yet to look; otherwise the harness can come to rest idle with a message in its queue |
| `HarnessQueue.WindowPushIsStranded` | src/sdk_harness.n:161-192 | a witness: a whole call between the last look of the flush and the idle phase leaves its message behind |
| `HarnessQueue.LatePushIsStranded` | src/sdk_harness.n:101-109 | another witness: one message stays behind while a later one reaches the session |
| `CatalogText.SequentialIsPerCharacter` | scripts/generate-model-catalog.py:1416-1417 | the two sequential replacements are escaping character by character |
| `CatalogText.StringReadsBack` | scripts/generate-model-catalog.py:1416-1417 | every string reads back from its literal, whose closing quote is the first unescaped one |
| `CatalogText.QuotedLiterals` | scripts/generate-model-catalog.py:1416-1417 | a quote and a backslash in a literal, character by character |
| `CatalogText.FloatReadsBack` | scripts/generate-model-catalog.py:1406-1412 | every multiple of 10^-10 reads back exactly, sign included, from a literal with digits on both sides of one dot |
| `CatalogText.WholeReadsBack` | scripts/generate-model-catalog.py:1404-1405 | every integer reads back exactly from its printed float |
| `CatalogText.TrimmedForm` | scripts/generate-model-catalog.py:1407-1412 | the two strips and the corrections keep the integer part and the value of the fraction |
| `CatalogCompat.CompatDelta` | scripts/generate-model-catalog.py:397-408 | the loop returns exactly the entries that differ from their default or have none |
| `CatalogCompat.DeltaIsLossless` | scripts/generate-model-catalog.py:397-408 | over the defaults, the delta has the effect of the full settings, whatever is overlaid on both |
| `CatalogCompat.DeltaIsLeast` | scripts/generate-model-catalog.py:397-408 | anything with the same effect over the defaults contains the delta |
| `CatalogCompat.DetectedKeys` | scripts/generate-model-catalog.py:368-390 | detection settles every default key, plus the cache format exactly for Anthropic models on OpenRouter |
| `CatalogCompat.StandardProvidersNeedNothing` | scripts/generate-model-catalog.py:317-390 | nothing is recorded if and only if the provider is standard and neither OpenRouter nor DeepSeek |
| `CatalogCompat.NvidiaSettings` | scripts/generate-model-catalog.py:317-390 | a site with signs of this family alone: no store, developer role, reasoning effort, strict mode or long cache; `max_tokens` |
| `CatalogCompat.CerebrasSettings` | scripts/generate-model-catalog.py:317-390 | no store or developer role |
| `CatalogCompat.GrokSettings` | scripts/generate-model-catalog.py:317-390 | no store, developer role or reasoning effort |
| `CatalogCompat.TogetherSettings` | scripts/generate-model-catalog.py:317-390 | as Nvidia, with thinking format `together` but for the two models that only reason |
| `CatalogCompat.ChutesSettings` | scripts/generate-model-catalog.py:317-390 | no store or developer role; `max_tokens` |
| `CatalogCompat.DeepSeekSettings` | scripts/generate-model-catalog.py:317-390 | thinking format `deepseek` with reasoning content required; by its address also no store or developer role |
| `CatalogCompat.ZaiSettings` | scripts/generate-model-catalog.py:317-390 | no store, developer role or reasoning effort; `max_tokens`; thinking format `zai` |
| `CatalogCompat.MoonshotSettings` | scripts/generate-model-catalog.py:317-390 | no store, developer role, reasoning effort or strict mode; `max_tokens` |
| `CatalogCompat.OpencodeSettings` | scripts/generate-model-catalog.py:317-390 | no store or developer role |
| `CatalogCompat.WorkersAiSettings` | scripts/generate-model-catalog.py:317-390 | no store, developer role or long cache |
| `CatalogCompat.AiGatewaySettings` | scripts/generate-model-catalog.py:317-390 | as Nvidia |
| `CatalogCompat.AntLingSettings` | scripts/generate-model-catalog.py:317-390 | no store, developer role, reasoning effort or long cache; `max_tokens`; thinking format `ant-ling` |
| `CatalogCompat.OpenRouterSettings` | scripts/generate-model-catalog.py:317-390 | thinking format `openrouter`; the developer role for `anthropic/` and `openai/` models only |
| `CatalogCompat.CacheFormat` | scripts/generate-model-catalog.py:351-390 | the cache format is settled, as `anthropic`, exactly for `anthropic/` and `~anthropic/` models of openrouter itself |
| `CatalogCompat.AnnotationIsLossless` | scripts/generate-model-catalog.py:1221-1229 | a client that overlays the record on the defaults sees the detected settings under the explicit ones, for every model |
| `CatalogCompat.AnnotationIsTidy` | scripts/generate-model-catalog.py:1221-1229 | models of other interfaces are left alone, explicit settings are kept, and no empty record is left |
| `CatalogCompat.AnnotationIsIdempotent` | scripts/generate-model-catalog.py:1221-1229 | running the metadata pass twice is running it once |
| `CatalogCompat.ReasoningEffortUnaffected` | scripts/generate-model-catalog.py:411-420 | the reasoning-effort question has the same answer before and after the pass |
| `CatalogCompat.ModelDict.ApplyCompletionsCompat` | scripts/generate-model-catalog.py:1221-1229 | the pass on the mutable model computes the annotation and removes an empty record |
| `CatalogSource.EmitModelEntries` | scripts/generate-model-catalog.py:1424-1468 | the loops with their running counter, joins and format strings produce exactly the text of the specified statements; that text can be parsed, and executing it returns objects with the fields of the input models, one by one |
| `CatalogSource.BuildArguments` | scripts/generate-model-catalog.py:1429-1453 | the arguments stand in the order of the parameters of `build`: id, name or id, api, provider, base url, reasoning, window, tokens, four prices, and the tiers with their fields by name |
| `CatalogSource.EmittedTextMeansTheModels` | scripts/generate-model-catalog.py:1424-1468 | the emitted text can be parsed, and executing what it says returns exactly the input models in order: id, api, provider, base url, name (the id when missing or empty), reasoning, limits, prices and tiers field by field, each thinking key with its latest value (the empty string for null), each header |
| `CatalogSource.ProgramReadsBack` | scripts/generate-model-catalog.py:1424-1468 | lines of printed statements, quoted commas, brackets and newlines included, parse back to the same statements |
| `CatalogSource.BuildSourceReadsBack` | scripts/generate-model-catalog.py:1429-1453 | the argument list with its tiers parses back to the same printed arguments, whatever follows |
| `CatalogSource.AllArePrinted` | scripts/generate-model-catalog.py:1424-1468 | every emitted statement has quoted literals, number texts and variable names where the parser expects them |
| `CatalogEmit.EmittedCodeMeansTheModels` | scripts/generate-model-catalog.py:1424-1468 | executing the emitted statements returns exactly the input models in order: id, api, provider, base url, name (the id when missing or empty), reasoning, limits, prices and tiers field by field, each thinking key with its latest value (the empty string for null), each header |
| `CatalogEmit.NextIsFresh` | scripts/generate-model-catalog.py:1459-1460 | every variable name the generator picks is unused |
| `CatalogEmit.RunBlock` | scripts/generate-model-catalog.py:1461-1467 | the statements of one model with a map add that one model and leave all others alone |
| `CatalogEmit.BuildReadsBack` | src/ai/providers/model_builder.n:6-14 | the printed arguments of a build read back as the model's fields, each under its own name |
| `RpcEntries.EntriesSince` | src/app.n:1862-1883 | everything after the first entry with the cursor's id, everything for no cursor, an error if and only if the cursor is unknown |
| `RpcEntries.ReplyIsUnique` | src/app.n:1862-1883 | that contract determines the reply |
| `RpcEntries.PollingIsComplete` | src/app.n:1862-1883 | over any growing log, a client that always passes the id of the last entry it got ends with the whole latest log, with no gap, duplicate, reordering or unknown cursor |
| `RpcTree.Tree` | src/app.n:1885-1892 | both readings of the list assignment terminate and return the same forest, the reference one |
| `RpcTree.TreeNodesCopying` | src/app.n:1894-1935 | with a copied list the recursion terminates and builds the reference forest |
| `RpcTree.TreeNodesAliasing` | src/app.n:1894-1935 | with an aliased list it also terminates and builds the reference forest; what the list gained lies below the parent |
| `RpcTree.ForestIsUnique` | src/app.n:1894-1935 | a log and a parent have only one reference forest |
| `RpcTreeContents.TopLevelNodes` | src/app.n:1901-1909 | the top level holds exactly the entries with no parent, themselves as parent, or a missing parent |
| `RpcTreeContents.ChildNodes` | src/app.n:1910-1923 | under any node of the tree stand exactly the other entries that name it as parent |
| `RpcTreeContents.NodesInLogOrder` | src/app.n:1894-1896 | at every level nodes stand in the order of the log |
| `RpcTree.UnseenOnPath` | src/app.n:1911-1918 | the visited check never rejects a matching entry |
| `RpcTreeContents.TreeHoldsGrounded` | src/app.n:1894-1935 | an entry occurs once if its parent chain ends at a root and not at all otherwise |
| `RpcTreeContents.Covered` | src/app.n:1919-1923 | every entry with a finite chain has a node, lying directly under the node of its parent |
| `RpcTreeContents.AtMostOnce` | src/app.n:1894-1935 | no entry occurs twice |
| `RpcTreeContents.TreeHoldsOnlyEntries` | src/app.n:1896-1910 | the tree holds nothing but entries of the log |
| `RpcTreeContents.OmittedIffCyclic` | src/app.n:1897-1918 | an entry is missing if and only if it is on or below a parent cycle |
| `RpcTreeContents.MutualParentsVanish` | src/app.n:1897-1918 | two entries naming each other give an empty tree |

## Left out

- Screens with no rows or no columns: sizes are at least 1 (the first character on a 0-column screen, or any on a 0-row one, has nowhere to go).
- Unicode width data: two arbitrary sets of characters, combining and wide, without ASCII characters.
- `str` arguments to `feed` and Python's limit on the digits of `int()`: bytes only, unbounded integers.
- `visible_text`, `Screen.__eq__`, `_params` (never read) and the self-test of `vt_screen.py`.
- `insert_chars` is modelled and proved as a screen operation although no final byte dispatches it.
- `adou_auth_lock`, `adou_auth_unlock`, file permissions, errno numbering beyond the values the code itself tests, and `malloc` sizes.
- `AuthStore.AtomicWrite`: does not model other processes changing the directory during the call.
- Argument checks, mutex failures and the `int64_t` to `int` conversion of descriptors in `native/term.c`; `adou_term_size` and `adou_term_is_tty`.
- `TermFlags.WriteWithRetries`: the retry loop alone; the interleaved runs treat the I/O of a call as one step.
- `TermRaw.Enter`: a failing tcsetattr or tcgetattr changes nothing, and termios is a record of the flags `make_raw` touches, six it leaves alone that change bytes, and the rest as one value.
- `TermLine.TransparentIff`: of the special characters INTR, QUIT, SUSP, START, STOP, EOF, ERASE and the literal-next of IEXTEN, of output processing ONLCR, a character size of 8 or 7 bits; line lengths and timers are as the standard leaves them.
- `CatalogCompat.NvidiaSettings` and the other families: sites that show signs of one family only; `CatalogCompat.DetectSettles` is the general case.
- `Harness.AgentHarness.Bridge`: an append looks at the phase and acts at once (the race between the two is in `HarnessQueue`), one bridge at a time, other callers at the points the module names, handlers that do not change the harness, and a source stream given as a finite sequence; a second bridge between `agent_settled` and `session_end` is not modelled.
- `steer`, `follow_up`, `next_turn`, `set_*` and `abort` of the harness delegate to the session runner; `wait_for_idle` appears only as a phase change.
- Floats that are not multiples of 10^-10 (Python's rounding), infinities and `str(value)` of other types in `nat_float`.
- The grammar of the generated language beyond the lines the generator writes; `types.cost_tier_t` is read as part of a tier.
- `CatalogSource.EmittedTextMeansTheModels` and `CatalogEmit.EmittedCodeMeansTheModels`: prices are numbers or absent; a truth value prints as `true`, which is not a price literal.
- `Harness.HandlerHearsItsEvents`: no event is itself of kind `*`; such an event would reach the `*` handler twice.
- Catalog fetching and the override tables; the order of dictionary items matters only where the generator prints it.
- Node labels, leaf ids and the JSON form of entries in the RPC views; entries carry their raw text.
- `RpcEntries.PollingIsComplete`: logs with unique non-empty ids, as the session repository assigns them.
