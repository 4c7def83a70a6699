# dta-tokwrap core, modelled in Dafny

dta-tokwrap wraps the tokens of a TEI-XML document back into that document.
Its C tools pass a small set of files from one to the next:

- the **character index** (`.cx`) gives each `<c>` its XML byte range and its text bytes;
- the **block index** (`.bx`) maps text blocks to serialized-text (`.txt`) ranges;
- the **tokenizer output** (`.tt`) holds one token per line, with its text, its `.txt` offset and length, and its analyses;
- the **token XML** (`.t.xml`) holds sentences `<s>` of words `<w>`, each `<w>` naming its characters in `@c`.

This project models the core of those tools as Dafny functions, methods
and classes, and proves what the C code promises:

- **Shared helpers** (`dtatwCommon.h`, `dtatwCommon.c`): XML escaping, the TAB scanners `next_tab`, `next_tab_z` and `next_char_z`, and `file_basename`.
- **Index writers** (`dtatw-mkindex.c` and the four tools under `mkindex-c/`): expat handlers that write index records and the raw text.
  - The binary record writer of `dtatw-mkindex.c` is modelled as a delta encoding, with a reader that inverts it.
  - `index_text` escapes text for the TAB-separated index lines.
- **Token wrapper** (`dtatw-tok2xml.c`):
  - the `.cx`/`.bx` loaders and the `txb2cx`/`txtb2cx` lookup vectors;
  - the two `ttWordBuffer`s;
  - `tt_next_word`, which repairs token overlaps and writes `<s>` and `<w>` elements.
- **Master builder** (`dtatw-txml2master.c`): the `.t.xml` loader, which claims characters for tokens, and `mark_discontinuous_segments`.
- **Small converters**:
  - `dtatw-txml2wxml.c`, `dtatw-txml2sxml.c` and `dtatw-txml2axml.c`;
  - `xml-rm-namespaces.c`, which replaces `:` in names;
  - `dtatw-check-depth.c`, which reports the deepest element nesting.

Modelling conventions:

- Bytes are `char`; a C string is a `seq<char>` read up to its first NUL.
- Reading past the end of a buffer reads NUL.
- A handler that calls `exit` returns a `Status` (`Exit(3)`, or `Exit(255)` for a failed `assert`). The run stops there.
- Where the C code hands a null pointer to a C library function, or writes past the end of a fixed buffer, the handler returns `Fault` and the model stops there.
- Output files are `seq<char>` fields of the handler state, or values the handlers return.
- Expat's callbacks become a sequence of events.
- Byte offsets that expat reports (`XML_GetCurrentByteIndex`, `XML_GetCurrentByteCount`) and the event context are parameters.
- The UTF-8 decoder and encoder of the `u8_*` helpers are function parameters. Their code is not part of this model.

Places where the C code is modelled exactly as written:

- `file_basename` copies from the separator it finds, so a path with a directory gives a name that starts with `/`.
- In `dtatw-mkindex.c`, `&apos;` consumes five of its six bytes (`AposSplit`).
- In `dtatw-mkindex.c`, the attribute switch falls through from the `l` case into the `u` case, so `lrx`/`lry` also set slots 2/3 (`CAttrFallThrough`).

## Model

| member | source | states |
|---|---|---|
| CStr.CPrefix | src/dtatwCommon.h:129 | the bytes a `str[i] && (len < 0 \|\| i < len)` loop visits form a NUL-free prefix of the buffer, at most `len` long when `len >= 0` |
| CStr.CEnd | src/dtatwCommon.h:129 | the loop stops at the end, at a NUL or at `len`, and every byte before holds no NUL |
| CStr.MemCpy | mkindex-c/dta-tokwrap-lschars.c:271-278 | `memcpy` into a buffer puts `s` at `at` and leaves every other byte unchanged |
| XmlEscape.EscapeCharShape | src/dtatwCommon.h:106-119 | a byte is written unchanged iff it is not one of the seven special bytes; a special byte becomes an `&...;` reference; no output holds raw markup |
| XmlEscape.EscapedAppend | src/dtatwCommon.h:126-132 | escaping a concatenation is the concatenation of the escapes |
| XmlEscape.EscapedNoMarkup | src/dtatwCommon.h:106-132 | escaped text never holds a raw `<`, `>`, `"`, `'`, CR or LF |
| XmlEscape.UnescapeEscapeChar | src/dtatwCommon.h:106-119 | an escaped byte in front of any text decodes back to that byte |
| XmlEscape.UnescapeEscaped | src/dtatwCommon.h:106-132 | a reference XML decoder gives back the input of the escaper |
| XmlEscape.PutEscapedStr | src/dtatwCommon.h:126-132 | the bytes written are the escape of the string up to its NUL or `len`, hold no raw markup, and decode back to it |
| TabScan.NextTab | src/dtatwCommon.h:181-185 | the first TAB, LF or NUL at or after `i`, with none before it |
| TabScan.NextChar | src/dtatwCommon.h:202-207 | the first `c` or NUL at or after `i`, with none before it |
| TabScan.NextTabZ | src/dtatwCommon.h:191-196 | finds the field end, overwrites just that byte with NUL, changes nothing else |
| TabScan.NextCharZ | src/dtatwCommon.h:202-207 | finds the first `c` or NUL, overwrites just that byte with NUL, changes nothing else |
| TabScan.NextTabFrom | src/dtatwCommon.h:181-185 | the scan result is fully determined by its contract: a field end at `k` and none before |
| TabScan.NextTabField | src/dtatwCommon.h:181-185 | a field written with no TAB, LF or NUL inside and a field end after it is found whole |
| TabScan.NextTabToEnd | src/dtatwCommon.h:181-185 | a field that runs to the end of the buffer ends at the buffer's end |
| PathBase.SrcLen | src/dtatwCommon.c:17 | a negative `srclen` means the whole string; otherwise `srclen` is used |
| PathBase.StrippedEnd | src/dtatwCommon.c:19-20 | the end moves back by the suffix length exactly when the suffix fits and equals the tail of the string |
| PathBase.SepAtOrBefore | src/dtatwCommon.c:23-25 | the last `/` or `\` at or before the end, or the start of the string; no separator lies between it and the end |
| PathBase.SepAtOrBeforeIs | src/dtatwCommon.c:23-25 | a position with a separator (or the start) and none after it up to `p` is exactly where the backward scan stops |
| PathBase.FileBasename | src/dtatwCommon.c:13-41 | a caller's buffer overflows iff `dstlen <= base1 - base0`; otherwise the result is `src[base0..base1]` plus NUL, and an allocated buffer gets the size the code computes |
| PathBase.BasenameShape | src/dtatwCommon.c:13-41 | the name holds no separator after its first byte; it starts with a separator iff the stripped path holds one; with none, it is the whole stripped path |
| GrowBuf.RecordBuffer.constructor | src/dtatw-tok2xml.c:71-77 | an empty buffer with the requested capacity |
| GrowBuf.RecordBuffer.Push | src/dtatw-tok2xml.c:80-91 | the record is appended at index `len`, and the capacity doubles exactly when `len + 1 >= alloc` |
| Decimal.DigitChar | src/dtatw-mkindex.c:155 | the digit byte of a value below 10 |
| Decimal.Dec | mkindex-c/dta-tokwrap-lschars.c:150 | `%lu` writes a non-empty run of digits, with a leading `0` only for zero |
| Decimal.SDec | mkindex-c/dta-tokwrap-lschars.c:150 | `%d` writes a non-negative value as `%lu` does and a negative one as `-` then its magnitude |
| Decimal.DecValue | mkindex-c/dta-tokwrap-lschars.c:150 | reading back a written numeral gives the number |
| Decimal.DigitRunEnd | src/dtatw-tok2xml.c:660-661 | the end of the digit run at `i`: digits before it and none at it |
| Decimal.SpaceRunEnd | src/dtatw-tok2xml.c:661 | the end of the white-space run `strtoul` skips |
| Decimal.StrToUL | src/dtatw-tok2xml.c:660-661 | `strtoul` with base 0, for plain decimal digits (base prefixes left out): either no digits (value 0, tail at the start) or a tail just after the last digit |
| Decimal.StrToULDec | src/dtatw-tok2xml.c:172 | `strtoul` on a written numeral followed by a non-digit reads back the number and ends after it |
| Decimal.StrToULDigits | src/dtatw-tok2xml.c:660 | a digit run followed by a non-digit reads as its value |
| Decimal.StrToULSpaceDigits | src/dtatw-tok2xml.c:661 | the same behind one blank, which `strtoul` skips |
| IndexRecords.AttrIndexFrom | mkindex-c/dta-tokwrap-lschars.c:106-113 | the first even position at or after `i` holding `aname`, or the length; no name before it matches |
| IndexRecords.AttrValue | mkindex-c/dta-tokwrap-lschars.c:106-113 | `None` iff no name matches; otherwise the value paired with the first matching name |
| IndexRecords.GetAttr | mkindex-c/dta-tokwrap-lschars.c:106-113 | the pairwise scan returns `AttrValue` |
| IndexRecords.TabIndex | src/dtatw-tok2xml.c:166 | the first TAB, or the length; no TAB before it |
| IndexRecords.FieldsJoin | mkindex-c/dta-tokwrap-lschars.c:148-151 | splitting TAB-joined fields at TABs gives the fields back when none holds a TAB |
| IndexRecords.JoinNoNewline | mkindex-c/dta-tokwrap-lschars.c:148-151 | joined fields without LF give a line without LF |
| IndexRecords.Line4Fields | mkindex-c/dta-tokwrap-lschars.c:148-151 | a four-field record is one LF-terminated line that splits into id, offset, length and escaped text |
| IndexRecords.Line6Fields | mkindex-c/dta-tokwrap-mkindex2.c:153-157 | a six-field record is one LF-terminated line that splits into its six fields, with a negative text length written as 0 |
| IndexEscape.IndexEscapeChar | mkindex-c/dta-tokwrap-lschars.c:125-140 | one or two bytes; one byte (the input) iff the input is not backslash, TAB or LF |
| IndexEscape.IndexEscapedShape | mkindex-c/dta-tokwrap-lschars.c:120-145 | escaped text holds no TAB or LF, and its length is the input's plus one per escape |
| IndexEscape.IndexUnescapeEscaped | mkindex-c/dta-tokwrap-lschars.c:120-145 | a reference decoder gives the input back |
| IndexEscape.PutIndexEscape | mkindex-c/dta-tokwrap-lschars.c:125-140 | one case of the switch appends the escape of the byte to the output and advances `j` by its length |
| IndexEscape.IndexText | mkindex-c/dta-tokwrap-lschars.c:120-145 | with a large enough buffer, the text stored is the escape of the input up to NUL or `len`, and holds no TAB or LF |
| IndexEscape.IndexTextStatic | mkindex-c/dta-tokwrap-lschars.c:118-145 | with the 256-byte static buffer, a write lands past its end iff the escape plus NUL exceeds 256 bytes; otherwise the text is the escape |
| IndexEscape.IndexTextOverflowInput | mkindex-c/dta-tokwrap-lschars.c:118-145 | a 256-byte plain value needs 257 bytes |
| ErrorContext.ErrorWindow | src/dtatw-txml2wxml.c:73-83 | the window starts at or after 0, reaches at most `want` bytes each side of the error, stays inside the context and is as wide as those bounds allow |
| ErrorContext.ErrorContextText | src/dtatw-txml2wxml.c:73-83 | the returned bytes are the slice of the context around the error, at most `2 * want` long, and the offset points back at the error |
| IndexLoad.Numbers | src/dtatw-tok2xml.c:169-187 | one number per numeric field read |
| IndexLoad.ParseCxLine | src/dtatw-tok2xml.c:164-187 | the id is the line up to its first field end |
| IndexLoad.ParseBxLine | src/dtatw-tok2xml.c:270-308 | the key is the line up to its first field end |
| IndexLoad.RecordsCount | src/dtatw-tok2xml.c:160-197 | exactly one record per non-comment line |
| IndexLoad.LoadLine | src/dtatw-tok2xml.c:162-196 | a `%%` comment line adds nothing; any other line appends its parsed record |
| IndexLoad.LoadLines | src/dtatw-tok2xml.c:160-197 | the buffer gains the parsed records of the non-comment lines, in order |
| IndexLoad.LoadCxFile | src/dtatw-tok2xml.c:141-201 | `cxdata` gains the parsed `.cx` records, in order |
| IndexLoad.LoadBxFile | src/dtatw-tok2xml.c:251-315 | `bxdata` gains the parsed `.bx` records, in order |
| IndexLoad.NumberFieldAt | src/dtatw-tok2xml.c:170-172 | a numeral followed by a TAB reads back as its number, and its field ends at the TAB |
| IndexLoad.NumbersAtRead | src/dtatw-tok2xml.c:169-187 | reading field by field recovers the numerals written there |
| IndexLoad.ParseCxLineRecord | src/dtatw-tok2xml.c:141-201 | the loader reads a six-field line as the indexer writes it back to the record written (id, offsets and lengths, a negative text length as 0) |
| IndexLoad.CxLineParts | src/dtatw-tok2xml.c:164-187 | an id and four TAB-preceded numerals parse to the record of those numbers |
| CharLookup.CxOwner | src/dtatw-tok2xml.c:344-356 | the last of the first `n` records covering tx byte `b`, or none |
| CharLookup.CxOwnerLast | src/dtatw-tok2xml.c:344-356 | no later record covers the byte |
| CharLookup.Mark | src/dtatw-tok2xml.c:349-351 | `tbl[lo..hi)` gets `v`; every other slot keeps its value |
| CharLookup.InitTxb2Cx | src/dtatw-tok2xml.c:331-359 | stops with 255 iff the index is empty or its size is negative; writes past the vector (`Fault`) iff a record reaches past the last record's end (`!CxInside`); otherwise each tx byte maps to its last covering record |
| CharLookup.TxtOwnerNone | src/dtatw-tok2xml.c:384-396 | a byte in no text block (hints, gaps) stays NULL |
| CharLookup.TxtOwnerLast | src/dtatw-tok2xml.c:384-396 | a byte of a text block that no later block covers maps through `txb2cx` at the same distance from the block start |
| CharLookup.CopyRange | src/dtatw-tok2xml.c:388-393 | `dst[dlo + i] = src[slo + i]` for `i < n`; nothing else changes |
| CharLookup.InitTxtb2Cx | src/dtatw-tok2xml.c:371-399 | stops with 255 iff the block index is empty; reads or writes past a vector (`Fault`) iff a non-empty text block reaches past either (`!BxInside`); otherwise each txt byte maps to `TxtOwner` |
| WordBuffers.RunEnd | src/dtatw-tok2xml.c:475 | the end of the run of slots equal to `c` |
| WordBuffers.MemMove | src/dtatw-tok2xml.c:487-488 | the array becomes `Shifted`: the first `n` elements take those from `from` on, the rest stay |
| WordBuffers.CopyRun | src/dtatw-tok2xml.c:474-481 | returns the run length `0 < k <= n`; text and slots become `Appended`: the run of `st` and its slots at `at`, then NUL and NULL, all else unchanged |
| WordBuffers.StrCpy | src/dtatw-tok2xml.c:588-589 | `strcpy` copies the C string and its NUL and leaves the rest |
| WordBuffers.StrCpyValue | src/dtatw-tok2xml.c:662-663 | `strcpy` of a value: its bytes, a NUL, and the rest unchanged |
| WordBuffers.CopyString | src/dtatw-tok2xml.c:588-589 | the destination then holds the same C string as the source |
| WordBuffers.LoadString | src/dtatw-tok2xml.c:662-663 | the destination then holds the C string `s` |
| WordBuffers.WordBuffer.constructor | src/dtatw-tok2xml.c:634-635 | a zeroed, blank word buffer |
| WordBuffers.WordBuffer.AppendRun | src/dtatw-tok2xml.c:474-482 | returns the run `k`; the buffer becomes `Extended` of its old value: `k` bytes and slots of `src` written at its length and re-terminated, length grown by `k`, flagged `R` |
| WordBuffers.WordBuffer.DropFront | src/dtatw-tok2xml.c:484-488 | the buffer becomes `Dropped` of its old value: offset up by `k`, length down by `k`, text and slots shifted left by `k` with their terminators, flagged `L` |
| WordBuffers.WordBuffer.CopyFrom | src/dtatw-tok2xml.c:584-591 | its view (flags, range, text, analyses and the word's slots) equals the source's |
| WordBuffers.WordBuffer.Load | src/dtatw-tok2xml.c:659-668 | range, text and analyses from the line, the slots from `txtb2cx`, a NULL after them; the sentence flag is kept |
| WordBuffers.WordBuffer.Clear | src/dtatw-tok2xml.c:593-600 | the buffer is blank with no flags |
| TtWords.CRefs | src/dtatw-tok2xml.c:543-549 | the `@c` records are real and no more than the slots |
| TtWords.CRefsShape | src/dtatw-tok2xml.c:543-549 | every `@c` record is drawn from the slots and none is named twice in a row |
| TtWords.CRefsComplete | src/dtatw-tok2xml.c:543-549 | every real record among the slots is named |
| TtWords.CRefsSnoc | src/dtatw-tok2xml.c:545-548 | one more slot adds its record iff it is real and differs from the last one named |
| TtWords.AnalysesFrom | src/dtatw-tok2xml.c:565-572 | the `do ... while` loop writes at least one `<a>` |
| TtWords.AnalysesFromFields | src/dtatw-tok2xml.c:565-572 | no analysis holds a TAB or LF |
| TtWords.AnalysesFromJoin | src/dtatw-tok2xml.c:565-572 | the analyses joined with TABs give back the analyses string |
| TtWords.Extend | src/dtatw-tok2xml.c:511-581 | appending an item updates the open sentence, the sentence and word counts, and keeps the numbering consecutive |
| TtWords.WordStep | src/dtatw-tok2xml.c:513-525 | writing a word leaves a sentence open, keeps numbering consecutive, adds one word and opens a sentence iff none was open or a boundary was seen |
| TtWords.Chomp | src/dtatw-tok2xml.c:643-644 | drops at most two trailing bytes and keeps a prefix |
| TtWords.Field | src/dtatw-tok2xml.c:653-655 | a range inside the line is that slice |
| TtWords.ParseTtLine | src/dtatw-tok2xml.c:638-668 | a token that is loaded fits its buffers and has no field end in its text |
| TtWords.ParseChomped | src/dtatw-tok2xml.c:646-668 | the same for a chomped line that is no comment |
| TtWords.WordOf | src/dtatw-tok2xml.c:652-668 | the same for the word between two given field ends |
| TtWords.LayoutShape | src/dtatw-tok2xml.c:652-655 | where text, location and analyses lie in a token line |
| TtWords.LayoutChomp | src/dtatw-tok2xml.c:640-644 | a token line is no comment and the chomp removes exactly its newline |
| TtWords.LocationOffset | src/dtatw-tok2xml.c:660 | the first `strtoul` reads the offset and stops at the blank |
| TtWords.LocationLength | src/dtatw-tok2xml.c:661 | the second `strtoul` reads the length |
| TtWords.ReadsChomped | src/dtatw-tok2xml.c:640-644 | a line that is no comment is parsed as its chomped form |
| TtWords.ReadsFields | src/dtatw-tok2xml.c:647-655 | a chomped line that does not start with NUL is the word whose fields end at its first two field ends |
| TtWords.ReadsToken | src/dtatw-tok2xml.c:656-666 | when every part fits, the word holds the text before the first field end, the offset and length read from the location field and the analyses after the second field end |
| TtWords.ReadsLine | src/dtatw-tok2xml.c:638-666 | a line that is no comment, with the given field ends, fitting parts and location numbers, parses to the word with exactly that text, offset, length and analyses |
| TtWords.ReadsLines | src/dtatw-tok2xml.c:638-666 | the same for every line at once |
| TtWords.LayoutFieldEnds | src/dtatw-tok2xml.c:653-655 | the first two field ends of a laid-out line close its text and its location field |
| TtWords.LayoutLocation | src/dtatw-tok2xml.c:660-661 | the two `strtoul` calls read the location field of a laid-out line as its two numerals |
| TtWords.LayoutRest | src/dtatw-tok2xml.c:653-657 | a laid-out line starts with its text, and its analyses are read back whole and fit where the written ones do |
| TtWords.LayoutFacts | src/dtatw-tok2xml.c:638-666 | a laid-out line meets every condition under which a line parses to a word |
| TtWords.LayoutWord | src/dtatw-tok2xml.c:638-668 | a laid-out line with its newline parses to the word with its text, the values of its two numerals and its analyses |
| TtWords.ParseTokenLine | src/dtatw-tok2xml.c:638-668 | a token line written from text, offset, length and analyses parses back to exactly those |
| Realign.Overlap | src/dtatw-tok2xml.c:465-478 | the overlap is the run of `w1`'s leading slots equal to `w0`'s last, or 0 |
| Realign.OverlapOf | src/dtatw-tok2xml.c:475 | the overlap never exceeds the length of the next word, whose slots end in NULL |
| Realign.AppendedText | src/dtatw-tok2xml.c:474-481 | the grown text reads as `w0`'s text followed by the `k` bytes taken from `w1` |
| Realign.ShiftedText | src/dtatw-tok2xml.c:484-487 | after the shift the next word's text reads as its last `n` bytes |
| Realign.AdoptedText | src/dtatw-tok2xml.c:495-502 | the analyses after adopting read as the old ones, a TAB and the adopted ones; unchanged when those are empty or do not fit |
| Realign.RepairMovesOverlap | src/dtatw-tok2xml.c:464-492 | the repair keeps `w0`'s start, starts `w1` `k` bytes later, moves `k` bytes of length from `w1` to `w0` and loses none; an overlap needs a non-empty `w0` |
| Realign.RepairLeavesNoOverlap | src/dtatw-tok2xml.c:464-492 | after the repair the two words overlap no more |
| Realign.Written | src/dtatw-tok2xml.c:510-581 | nothing unless both words are non-empty; otherwise it ends with the `<w>` of `w0` under the next word number |
| Realign.LinesStep | src/dtatw-tok2xml.c:638-668 | one more line feeds one more token iff it is a token with a non-empty range, and the lines fit iff the earlier ones fit and it does not overflow |
| Realign.FitsEvery | src/dtatw-tok2xml.c:656-666 | every line of the file fits the word buffers iff no line overflows |
| Realign.Realigner.constructor | src/dtatw-tok2xml.c:630-635 | both word buffers blank, nothing written, no sentence open |
| Realign.Realigner.RepairOverlap | src/dtatw-tok2xml.c:465-492 | returns the overlap `k > 0`; `w0` becomes `Grown`: the `k` leading bytes of `w1` and their slots appended at its length and re-terminated, its length grown by `k`, flagged `R`; `w1` becomes `Trimmed`: those bytes dropped, text and slots shifted left with their terminators, offset moved by `k`, flagged `L` |
| Realign.Realigner.AdoptRest | src/dtatw-tok2xml.c:495-504 | stops (255) iff `w1` has analyses and `w0`'s, a TAB and `w1`'s would not fit; otherwise `w0` becomes `AdoptedW0`, whose analyses read as its own, a TAB and `w1`'s (`AdoptedText`), `w1`'s analyses are cleared, and nothing else changes |
| Realign.CRefsStep | src/dtatw-tok2xml.c:543-549 | one more txt byte adds its record to `@c` iff it is `cx_id_ok` and differs from the record named last |
| Realign.CIdList | src/dtatw-tok2xml.c:538-551 | the ids written in `@c` are those of `CRefs` over the word's txt slots |
| Realign.AnalysesPush | src/dtatw-tok2xml.c:565-572 | one more field taken keeps the loop invariant: the fields taken, then the fields of what remains, are the analyses |
| Realign.SplitAnalyses | src/dtatw-tok2xml.c:561-574 | the `<a>` children are the TAB fields of the analyses |
| Realign.Realigner.WordItem | src/dtatw-tok2xml.c:524-577 | the `<w>` for `w0` is `ItemOf` its view: the next word number, its range, its text, the ids of its real records, its overlap flags and its analyses split at TABs |
| Realign.Realigner.EmitWord | src/dtatw-tok2xml.c:513-522 | closes a sentence at a boundary, opens one when none is open, then writes the word |
| Realign.Realigner.Advance | src/dtatw-tok2xml.c:583-600 | `w0`'s view becomes `w1`'s when `w1` is non-empty and stays as it was otherwise; `w1` ends blank with no sentence flag |
| Realign.Realigner.Repair | src/dtatw-tok2xml.c:464-508 | returns the overlap `k`; stops with 255 iff `RepairFails`; otherwise `w0` and `w1` become `RepairedW0` and `RepairedW1`, their lengths move by `k`, and the number of non-empty words drops by one exactly when `w1` is taken up whole |
| Realign.Realigner.Flush | src/dtatw-tok2xml.c:510-600 | appends `Written` of the two words (one `<w>` for `w0` iff both are non-empty, after the sentence items it calls for); `w0`'s view becomes that of `Kept`; `w1` ends blank |
| Realign.Realigner.Emit | src/dtatw-tok2xml.c:511-581 | appends `Written` of the pair, i.e. the sentence items the word calls for and `w0` as the next word, and exactly one word |
| Realign.Realigner.NextWord | src/dtatw-tok2xml.c:462-601 | `tt_next_word`: stops with 255 iff `RepairFails`; otherwise appends `Written` of `RepairedW0` and `RepairedW1`, leaves `Kept` of them in `w0` and `w1` blank; every token fed is written, absorbed or pending |
| Realign.Realigner.ProcessLine | src/dtatw-tok2xml.c:638-671 | a finished line fits the buffers; a token with a non-empty range is fed, a blank line sets the boundary flag; the output only grows |
| Realign.Realigner.HandleLine | src/dtatw-tok2xml.c:646-671 | a line that overflows a buffer stops with 255; otherwise as `ProcessLine` |
| Realign.Realigner.ReadLine | src/dtatw-tok2xml.c:638-671 | one line keeps the state, the count of tokens fed and the fit of the lines read so far |
| Realign.Realigner.ReadTt | src/dtatw-tok2xml.c:638-672 | a completed pass feeds every non-empty token and every line fits |
| Realign.Realigner.ProcessTt | src/dtatw-tok2xml.c:609-682 | as written: sentences balanced and numbered, and all non-empty tokens but the last are written or absorbed |
| Realign.Realigner.ProcessTtFixed | src/dtatw-tok2xml.c:673-678 | with the pending word written: every non-empty token is written or absorbed |
| Master.Slot | src/dtatw-txml2master.c:229 | a slot is NULL or a character of the table |
| Master.LastClaimed | src/dtatw-txml2master.c:251 | the last character met, or the previous one |
| Master.ClaimMaskFlags | src/dtatw-txml2master.c:228-253 | `WAny`/`SAny` iff some byte of the span maps to the character; `WBegin`/`SBegin`/`WEnd` iff it owns the first or last byte (with the sentence flag); no segment or `SEnd` flag |
| Master.ClaimMaskUnclaimed | src/dtatw-txml2master.c:228-253 | a character no byte maps to gets no flag |
| Master.TokenAttrs | src/dtatw-txml2master.c:202-205 | the scan finds the first `xml:id` and the first location attribute |
| Master.ClaimByte | src/dtatw-txml2master.c:229-252 | one byte of the claim loop extends the claimed prefix, clears the sentence-start flag on a hit, and tracks the last character |
| Master.ClaimBytes | src/dtatw-txml2master.c:228-253 | the whole claim loop: every byte claimed for token `wi` |
| Master.OrEmpty | src/dtatw-txml2master.c:208-212 | an absent id leaves the buffer empty: a present value reads as itself, an absent one as the empty string |
| Master.ParseSpan | src/dtatw-txml2master.c:220-221 | the two `strtoul` calls on a present location give its `TokenSpan` |
| Master.SpanOfDigits | src/dtatw-txml2master.c:220-221 | two digit runs with one blank between them read back as their two values |
| Master.SpanOfLocation | src/dtatw-txml2master.c:220-221 | a location written as `"%lu %lu"` reads back as exactly the offset and length it was written from |
| Master.ClaimedKeepsOwners | src/dtatw-txml2master.c:231-232 | after claiming, every claimed character's token index is below the token count |
| Master.TxmlParser.constructor | src/dtatw-txml2master.c:112-136 | empty sentence and token vectors with the default capacities; every aux record zeroed |
| Master.TxmlParser.StartSentence | src/dtatw-txml2master.c:182-194 | an id of 16 bytes or more stops with 255; otherwise the sentence is pushed and the next tokens belong to it |
| Master.TxmlParser.PushToken | src/dtatw-txml2master.c:215-217 | the token is pushed at index `wlen` |
| Master.TxmlParser.ClaimToken | src/dtatw-txml2master.c:219-253 | the claim loop runs on the token's location span |
| Master.TxmlParser.StartToken | src/dtatw-txml2master.c:195-254 | an id of 16 bytes or more stops with 255 with nothing changed; without a location the token is pushed and the model stops (`Fault`: `strtoul` of NULL); otherwise the token is pushed and the characters of its span are claimed |
| Master.TxmlParser.Start | src/dtatw-txml2master.c:180-256 | `<s>` and `<w>` act as `StartSentence` and `StartToken` say, with the id and location read from the attributes; other elements change nothing; flags are only added and the vectors only grow |
| Master.TxmlParser.End | src/dtatw-txml2master.c:259-266 | `</s>` adds `SEnd` to the last claimed character; nothing else changes |
| Master.TxmlParser.Load | src/dtatw-txml2master.c:270-297 | over a run of events, flags are only added and the vectors only grow; the run goes on, stops with 255, or stops at `Fault` |
| Master.VisitsInside | src/dtatw-txml2master.c:338-341 | only characters are visited, never the same twice in a row |
| Master.MarksOnlySegments | src/dtatw-txml2master.c:359-374 | marking sets segment flags only |
| Master.MarksCoverBreaks | src/dtatw-txml2master.c:353-383 | each token or sentence break between consecutive visited characters marks both sides |
| Master.PairMarksBreak | src/dtatw-txml2master.c:353-383 | one pair of visits sets a segment flag only where its break is |
| Master.MarksOnlyBreaks | src/dtatw-txml2master.c:353-383 | each of `WxBegin`, `WxEnd`, `SxBegin`, `SxEnd` is set only where its break is (a token or sentence break right before or right after the character); with `MarksCoverBreaks`, each flag is set iff its break is there |
| Master.MarkedKeepsOwner | src/dtatw-txml2master.c:353-383 | marking keeps each character's owning token and its `WAny` flag |
| Master.MarkedClaims | src/dtatw-txml2master.c:345-383 | marking leaves every claim as it was |
| Master.MarkTwice | src/dtatw-txml2master.c:304-393 | a second pass finds the same count and changes nothing |
| Master.CountFirstPair | src/dtatw-txml2master.c:327-332 | starting at the second pair drops exactly the first pair's breaks |
| Master.FirstPairMissed | src/dtatw-txml2master.c:327-332 | two characters of one token with a gap: the as-written count is 0, the full count 2 |
| Master.FirstVisit | src/dtatw-txml2master.c:327-329 | the first non-NULL slot and the index after it, or none |
| Master.Who | src/dtatw-txml2master.c:345-351 | the claim read off an aux record |
| Master.VisitPair | src/dtatw-txml2master.c:353-389 | one pair is counted and flagged as the break rules say |
| Master.Visit | src/dtatw-txml2master.c:342-389 | visiting a new character adds its pair to the count and the marks |
| Master.ScanSlot | src/dtatw-txml2master.c:338-342 | a NULL slot or a repeat is skipped, any other character visited |
| Master.MarkLoop | src/dtatw-txml2master.c:338-390 | the main loop's count and marks are `Count` and `Marked` over the visits |
| Master.MarkDiscontinuousSegments | src/dtatw-txml2master.c:304-393 | as written: the count and marks of every pair but the first |
| Master.MarkDiscontinuousSegmentsFixed | src/dtatw-txml2master.c:327-332 | with the first character looked up: the count and marks of every pair |
| Mkindex.Restore | src/dtatw-mkindex.c:57-70 | the read-back record ends where the written one did |
| Mkindex.StoreFlags | src/dtatw-mkindex.c:57-70 | the offset flag is set iff the record does not follow the previous one; length flag iff `tlen != xlen`; attrs flag iff attrs are given and slot 0 is not all ones |
| Mkindex.StoreRestore | src/dtatw-mkindex.c:53-72 | one stored record reads back as the call's observable arguments |
| Mkindex.StoreRestoreAll | src/dtatw-mkindex.c:53-72 | the delta encoding of a run of calls is lossless |
| Mkindex.IsWs | src/dtatw-mkindex.c:102-109 | true iff every byte is white space |
| Mkindex.HexRunEnd | src/dtatw-mkindex.c:311-312 | the end of the hex-digit run |
| Mkindex.StrToULHex | src/dtatw-mkindex.c:311-312 | `strtoul` base 16: no digits gives 0 at the start |
| Mkindex.Fallback | src/dtatw-mkindex.c:328-332 | the fallback always consumes at least one byte |
| Mkindex.DecodeAt | src/dtatw-mkindex.c:307-332 | every decoding step consumes at least one byte |
| Mkindex.AposSplit | src/dtatw-mkindex.c:323 | `&apos;` decodes to `'` and consumes five bytes, leaving `;` |
| Mkindex.NamedEntitiesWhole | src/dtatw-mkindex.c:319-322 | `&lt;`, `&gt;`, `&amp;`, `&quot;` decode to their byte and are consumed whole |
| Mkindex.ActOf | src/dtatw-mkindex.c:335-345 | a character is white space iff its code point is at most 0xff and `isspace` |
| Mkindex.ActsTile | src/dtatw-mkindex.c:304-332 | the decoded characters tile the event's bytes, each at least one byte |
| Mkindex.FlushOf | src/dtatw-mkindex.c:112-125 | at most one record |
| Mkindex.CollapseSqueeze | src/dtatw-mkindex.c:334-347 | white-space runs collapse to one record at the run's last character, and every text character is written |
| Mkindex.SqueezeNoWsPair | src/dtatw-mkindex.c:334-347 | no two white-space records are adjacent |
| Mkindex.SqueezeTexts | src/dtatw-mkindex.c:334-347 | the text characters are all kept, in order |
| Mkindex.CollapseBound | src/dtatw-mkindex.c:334-347 | at most two records per text character plus one |
| Mkindex.CAttrStep | src/dtatw-mkindex.c:207-221 | a box attribute sets slot 2 or 3 to its value modulo 2^32; an `l...` name also copies it into slot 0 or 1 (the fall-through); other names change nothing |
| Mkindex.CAttrsNone | src/dtatw-mkindex.c:205 | without box attributes all slots stay all-ones and no attrs are stored |
| Mkindex.CAttrFallThrough | src/dtatw-mkindex.c:209-220 | `lrx` sets slots 0 and 2 |
| Mkindex.PbAttrs | src/dtatw-mkindex.c:148-159 | attrs present iff there is a `facs`; only slot 0 non-zero |
| Mkindex.ParseCAttrs | src/dtatw-mkindex.c:205-223 | the attribute loop computes `CAttrs` |
| Mkindex.PbFacs | src/dtatw-mkindex.c:148-159 | the `facs` loop computes `PbAttrs` |
| Mkindex.PutAllAppend | src/dtatw-mkindex.c:45-72 | writing two runs is writing their concatenation |
| Mkindex.PutAllOutputs | src/dtatw-mkindex.c:45-72 | the index gains the stored records and the text gains the texts |
| Mkindex.PseudoRecords | src/dtatw-mkindex.c:232-244 | `<lb>`, `<pb>`, `<formula>` write one record each, other tags none |
| Mkindex.PutAllAgrees | src/dtatw-mkindex.c:45-72 | index and text stay consistent |
| Mkindex.TokWrapData.constructor | src/dtatw-mkindex.c:502 | all outputs and counters zeroed |
| Mkindex.TokWrapData.PutRawText | src/dtatw-mkindex.c:45-49 | text written if there is a text file; the offset advances in any case |
| Mkindex.TokWrapData.PutRecordRaw | src/dtatw-mkindex.c:53-72 | the global record takes `Store` of the call and is written |
| Mkindex.TokWrapData.Emit | src/dtatw-mkindex.c:53-72 | a record and its text |
| Mkindex.TokWrapData.FlushWs | src/dtatw-mkindex.c:112-125 | writes the pending white space, if any |
| Mkindex.TokWrapData.PutRecordTextchar | src/dtatw-mkindex.c:89-99 | one text record and its bytes |
| Mkindex.TokWrapData.PutRecordChar | src/dtatw-mkindex.c:75-86 | one `<c>` record with its attrs and buffered text |
| Mkindex.TokWrapData.PutRecordLb | src/dtatw-mkindex.c:128-139 | one record standing for a newline |
| Mkindex.TokWrapData.PutRecordPb | src/dtatw-mkindex.c:142-168 | one record with the facsimile number, no text |
| Mkindex.TokWrapData.PutRecordFormula | src/dtatw-mkindex.c:171-186 | one zero-length record standing for the formula text |
| Mkindex.TokWrapData.DecodeStep | src/dtatw-mkindex.c:334-345 | one character handled: white space pending, or text written after flushing |
| Mkindex.TokWrapData.DecodeNext | src/dtatw-mkindex.c:304-345 | one pass of the loop advances and keeps the progress invariant |
| Mkindex.TokWrapData.DecodeText | src/dtatw-mkindex.c:339-345 | flush then write the text character |
| Mkindex.TokWrapData.DecodeChars | src/dtatw-mkindex.c:299-347 | the whole decode writes `Collapse` of the decoded characters and ends with nothing pending |
| Mkindex.TokWrapData.Chars | src/dtatw-mkindex.c:280-355 | stops (255) iff inside `<c>` the buffer would overflow; inside `<c>` text is buffered; in `<text>` it is decoded |
| Mkindex.TokWrapData.StartChar | src/dtatw-mkindex.c:198-231 | a nested `<c>` stops with 3; otherwise attrs are parsed and a character opened |
| Mkindex.TokWrapData.StartInText | src/dtatw-mkindex.c:232-245 | writes the pseudo-records; `<lb>`/`<formula>` drop pending white space |
| Mkindex.TokWrapData.Start | src/dtatw-mkindex.c:194-253 | stops with 3 iff a nested `<c>` starts in text; depth counters track the tags |
| Mkindex.TokWrapData.End | src/dtatw-mkindex.c:256-277 | `</c>` writes the character; `</text>` closes a text; depth decreases |
| Mkindex.TokWrapData.Handle | src/dtatw-mkindex.c:194-355 | stops with 3 iff a `<c>` opens inside a `<c>` in text, with 255 iff character data would overflow the `<c>` buffer; each event writes what its handler writes (pseudo-records, the `<c>` record, the collapsed decoded text) and nothing else |
| Mkindex.TokWrapData.Run | src/dtatw-mkindex.c:509 | the outputs stay consistent over a run; the status is one of the three |
| LsChars.TokWrapData.constructor | mkindex-c/dta-tokwrap-lschars.c:354 | zeroed state |
| IndexRecords.AttrRecords4 | mkindex-c/dta-tokwrap-lschars.c:160-162 | one `$ATTR$` record per attribute, in order |
| LsChars.TokWrapData.PutRecordStart | mkindex-c/dta-tokwrap-lschars.c:154-163 | a `$START$` record and one `$ATTR$` per attribute |
| LsChars.TokWrapData.Start | mkindex-c/dta-tokwrap-lschars.c:228-254 | nested `<c>` stops with 3; an over-long id with 255; else a character opens; other tags write start records |
| LsChars.TokWrapData.End | mkindex-c/dta-tokwrap-lschars.c:257-268 | `</c>` writes the character's record; other tags an `$END$` record |
| LsChars.TokWrapData.Chars | mkindex-c/dta-tokwrap-lschars.c:271-278 | inside `<c>` text is buffered unless it would overflow (255); otherwise ignored |
| Mkindex2.TokWrapData.constructor | mkindex-c/dta-tokwrap-mkindex2.c:413 | zeroed state |
| Mkindex2.TokWrapData.PutRawText | mkindex-c/dta-tokwrap-mkindex2.c:146-150 | text to the text file, if open; the offset advances |
| Mkindex2.TokWrapData.Start | mkindex-c/dta-tokwrap-mkindex2.c:233-261 | nested `<c>` stops with 3, an over-long id with 255; depth grows |
| Mkindex2.TokWrapData.End | mkindex-c/dta-tokwrap-mkindex2.c:264-280 | `</c>` writes its six-field record and text; `</lb>` a newline |
| Mkindex2.TokWrapData.Chars | mkindex-c/dta-tokwrap-mkindex2.c:283-293 | inside `<c>` text is buffered unless it would overflow (255) |
| TextIndex.TokWrapData.constructor | mkindex-c/dta-tokwrap-textindex.c:360 | zeroed state |
| TextIndex.TokWrapData.PutRawText | mkindex-c/dta-tokwrap-textindex.c:125-129 | text to the text file, if open; the offset advances |
| TextIndex.AttrRecords | mkindex-c/dta-tokwrap-textindex.c:145-147 | one `$ATTR$` record per attribute, in order |
| TextIndex.TokWrapData.PutRecordStart | mkindex-c/dta-tokwrap-textindex.c:139-148 | start and attribute records |
| TextIndex.TokWrapData.PutRecordEnd | mkindex-c/dta-tokwrap-textindex.c:151-155 | an `$END$` record; `</lb>` adds a newline |
| TextIndex.TokWrapData.Start | mkindex-c/dta-tokwrap-textindex.c:216-242 | nested `<c>` stops with 3, an over-long id with 255; other tags write start records |
| TextIndex.TokWrapData.End | mkindex-c/dta-tokwrap-textindex.c:245-256 | `</c>` writes its record and text; other tags an `$END$` record |
| TextIndex.TokWrapData.Chars | mkindex-c/dta-tokwrap-textindex.c:259-266 | inside `<c>` text is buffered unless it would overflow (255) |
| WatchIndex.TokWrapData.constructor | mkindex-c/dta-tokwrap-mkindex.c:302 | zeroed state |
| WatchIndex.TokWrapData.PutRecordWatch | mkindex-c/dta-tokwrap-mkindex.c:130-145 | start and attribute records, or an end record |
| WatchIndex.TokWrapData.CheckWatch | mkindex-c/dta-tokwrap-mkindex.c:164-174 | true iff the element is watched, writing its records; nothing otherwise |
| WatchIndex.TokWrapData.Start | mkindex-c/dta-tokwrap-mkindex.c:222-247 | nested `<c>` stops with 3; an id that does not fit its 256-byte buffer is copied past its end (`Fault`) iff `CIdOverruns`, with nothing else changed; otherwise a `<c>` opens a character; other tags go to `check_watch` |
| WatchIndex.TokWrapData.StartChecked | mkindex-c/dta-tokwrap-lschars.c:237-239 | with the bound check of the sibling tools: never `Fault`; 255 iff the id would overrun, with nothing changed; otherwise as `Start` |
| WatchIndex.CIdOverrunInput | mkindex-c/dta-tokwrap-mkindex.c:231-232 | a `<c>` in text with a 256-byte `xml:id` overruns the id buffer |
| WatchIndex.TokWrapData.End | mkindex-c/dta-tokwrap-mkindex.c:250-262 | `</c>` writes its record; other tags go to `check_watch` |
| WatchIndex.TokWrapData.Chars | mkindex-c/dta-tokwrap-mkindex.c:265-272 | inside `<c>` text is appended to the buffer, and copied past its end (`Fault`) iff `CTextOverruns`; otherwise ignored |
| WatchIndex.TokWrapData.CharsChecked | mkindex-c/dta-tokwrap-lschars.c:271-278 | with the bound check of the sibling tools: never `Fault`; 255 iff inside `<c>` the text would reach the buffer's end; otherwise as `Chars`, keeping a byte to spare |
| WatchIndex.CTextOverrunInput | mkindex-c/dta-tokwrap-mkindex.c:268-270 | 200 bytes of text in a `<c>` fit, 100 more overrun the text buffer |
| Wxml.RunEnd | src/dtatw-txml2wxml.c:147-149 | the end of the non-space run |
| Wxml.RunsAreIds | src/dtatw-txml2wxml.c:143-156 | every run written is non-empty and free of white space |
| Wxml.RunsConcat | src/dtatw-txml2wxml.c:143-156 | the runs hold every non-space byte, in order |
| Wxml.RunsShift | src/dtatw-txml2wxml.c:143-156 | a suffix's runs do not depend on what precedes it |
| Wxml.RunShift | src/dtatw-txml2wxml.c:143-156 | the same for a suffix that starts with a run |
| Wxml.RunsFirst | src/dtatw-txml2wxml.c:143-156 | a run followed by nothing or white space is split off whole |
| Wxml.RunsSpace | src/dtatw-txml2wxml.c:144-146 | leading white space starts no run |
| Wxml.RunsUnwords | src/dtatw-txml2wxml.c:143-156 | splitting space-joined ids gives them back |
| Wxml.SkipSpace | src/dtatw-txml2wxml.c:144-146 | skips white space without changing the runs ahead |
| Wxml.FindRunEnd | src/dtatw-txml2wxml.c:147-149 | finds `RunEnd` |
| Wxml.CRefs | src/dtatw-txml2wxml.c:142-157 | writes one `<c ref>` per run of `@c` |
| Wxml.Max3 | src/dtatw-txml2wxml.c:122 | the largest of three positions |
| Wxml.SeenNext | src/dtatw-txml2wxml.c:123-126 | one pass finds the name at `i` or nothing new |
| Wxml.ScanPair | src/dtatw-txml2wxml.c:122-128 | one pass of the attribute loop keeps the scan invariant |
| Wxml.ScanAttrs | src/dtatw-txml2wxml.c:122-128 | the loop finds the first `xml:id`, `c`, `t`, stopping after the last of them |
| Wxml.PutAttr | src/dtatw-txml2wxml.c:129-139 | an attribute written escaped when present |
| Wxml.Start | src/dtatw-txml2wxml.c:116-160 | `cb_start` writes `StartOut` |
| Wxml.End | src/dtatw-txml2wxml.c:163-166 | writes nothing |
| Wxml.Handle | src/dtatw-txml2wxml.c:116-166 | one event writes `EventOut` |
| Wxml.Convert | src/dtatw-txml2wxml.c:116-166 | the run writes `RunOut` |
| Wxml.EscapedTags | src/dtatw-txml2wxml.c:131 | an escaped value holds no `<` |
| Wxml.LiteralTags | src/dtatw-txml2wxml.c:121-159 | the tags among the fixed strings |
| Wxml.RefOutTags | src/dtatw-txml2wxml.c:151-154 | one reference is one tag |
| Wxml.RefsOutTags | src/dtatw-txml2wxml.c:142-157 | each id adds one tag |
| Wxml.AttrOutTags | src/dtatw-txml2wxml.c:129-139 | an attribute adds no tag |
| Wxml.WBodyShape | src/dtatw-txml2wxml.c:129-157 | the only tags inside `<w>` are one `<c>` per id |
| Wxml.StartOutShape | src/dtatw-txml2wxml.c:116-160 | only `<w>` writes anything, and holds `2 + ids` tags |
| Wxml.RunOutNoWords | src/dtatw-txml2wxml.c:120 | no `<w>` start tag, no output |
| RmNamespaces.Renamed | src/xml-rm-namespaces.c:109-111 | same length; each byte renamed |
| RmNamespaces.PutHackedString | src/xml-rm-namespaces.c:106-114 | writes `Hacked` of the C prefix |
| RmNamespaces.HackedRenamed | src/xml-rm-namespaces.c:106-114 | renaming, then escaping if asked |
| RmNamespaces.EscapedNoColon | src/xml-rm-namespaces.c:81-94 | escaping adds no `:` |
| RmNamespaces.HackedShape | src/xml-rm-namespaces.c:106-114 | no colon left; unescaped copy renames byte by byte; escaped copy has no markup and decodes to the renamed input |
| RmNamespaces.PutAttr | src/xml-rm-namespaces.c:128-134 | one attribute as the loop writes it |
| RmNamespaces.AttrsOutSnoc | src/xml-rm-namespaces.c:127-135 | one pair extends the attributes written |
| RmNamespaces.PutAttrs | src/xml-rm-namespaces.c:127-135 | the loop writes `AttrsOut` |
| RmNamespaces.Start | src/xml-rm-namespaces.c:122-139 | `cb_start` writes `StartOut` |
| RmNamespaces.End | src/xml-rm-namespaces.c:142-147 | `cb_end` writes `EndOut` |
| RmNamespaces.DefaultCopy | src/xml-rm-namespaces.c:150-153 | other events are copied as they are |
| RmNamespaces.Handle | src/xml-rm-namespaces.c:122-153 | one event writes `EventOut` |
| RmNamespaces.Convert | src/xml-rm-namespaces.c:122-153 | the run writes `RunOut` |
| RmNamespaces.NameOutShape | src/xml-rm-namespaces.c:129-130 | a written name has no colon or markup; `xmlns` becomes `_xmlns`, any other name decodes to its renaming |
| RmNamespaces.EndOutShape | src/xml-rm-namespaces.c:142-147 | an end tag is copied byte for byte with `:` replaced |
| RmNamespaces.StartOutShape | src/xml-rm-namespaces.c:122-139 | `<`, the renamed escaped name, the attributes, then `/>` iff the original tag's context ends in `/>` |
| Sxml.ReplayCounts | src/dtatw-txml2sxml.c:26-51 | depths stay non-negative, the sentence depth equals `<s>` written minus `</s>` written, and never more `</s>` than `<s>` |
| Sxml.SxmlData.constructor | src/dtatw-txml2sxml.c:124 | zeroed depths, nothing written |
| Sxml.SxmlData.Start | src/dtatw-txml2sxml.c:26-39 | new depths and output as `Next` and `Written` say |
| Sxml.SxmlData.End | src/dtatw-txml2sxml.c:42-51 | new depths and output as `Next` and `Written` say |
| Sxml.SxmlData.Handle | src/dtatw-txml2sxml.c:26-51 | one event as `Next` and `Written` say |
| Sxml.Convert | src/dtatw-txml2sxml.c:26-51 | the run writes `Output` and ends in `Replay` |
| Axml.NextBounded | src/dtatw-txml2axml.c:28-55 | depths stay 0 or 1 and the id fits its buffer; stops with 255 iff a nested `<w>`, an over-long id or a nested `<a>`; a `<w>` without id stops the model (`Fault`) |
| Axml.ReplayBounded | src/dtatw-txml2axml.c:28-55 | the bounds hold along any run |
| Axml.TerminatedContent | src/dtatw-txml2axml.c:35 | `strcpy` then read as a C string gives the id back |
| Axml.AxmlData.constructor | src/dtatw-txml2axml.c:121 | empty id, zero depths, nothing written |
| Axml.AxmlData.StrCpy | src/dtatw-txml2axml.c:35 | the buffer then holds the id |
| Axml.AxmlData.Start | src/dtatw-txml2axml.c:28-43 | status, new state and output as `Next` says |
| Axml.AxmlData.End | src/dtatw-txml2axml.c:46-55 | new state as `Next` says; nothing written |
| Axml.AxmlData.Handle | src/dtatw-txml2axml.c:28-55 | one event as `Next` says |
| Axml.Convert | src/dtatw-txml2axml.c:28-55 | the run's output and status are `Replay`'s |
| Axml.ReplayStops | src/dtatw-txml2axml.c:32-39 | after the run has stopped, later events change nothing |
| CheckDepth.Cur | src/dtatw-check-depth.c:26-33 | `d_cur` stays below 2^32 |
| CheckDepth.Max | src/dtatw-check-depth.c:26-27 | `d_max` stays below 2^32 |
| CheckDepth.NestedPrefix | src/dtatw-check-depth.c:24-34 | a prefix of a well-nested run is well nested |
| CheckDepth.CountersAreDepths | src/dtatw-check-depth.c:24-34 | on a well-nested run the counters do not wrap: `d_cur` is the depth, `d_max` the peak, `d_max >= d_cur` |
| CheckDepth.PeakAtLeastDepth | src/dtatw-check-depth.c:26-27 | the peak is at least the current depth |
| CheckDepth.MaxMonotone | src/dtatw-check-depth.c:27 | `d_max` never decreases |
| CheckDepth.Balanced | src/dtatw-check-depth.c:24-34 | a balanced run ends at depth 0 |
| CheckDepth.DepthData.constructor | src/dtatw-check-depth.c:93-96 | both counters zero |
| CheckDepth.DepthData.Start | src/dtatw-check-depth.c:24-28 | `d_cur` wraps up by one; `d_max` rises to it if larger |
| CheckDepth.DepthData.End | src/dtatw-check-depth.c:31-34 | `d_cur` wraps down by one |
| CheckDepth.MaxDepth | src/dtatw-check-depth.c:93-102 | the counters after the run are `Cur` and `Max` |

## Left out

- Process I/O:
  - `main` and option parsing;
  - opening and reading files (a file is a sequence of lines or bytes);
  - `getline`, the expat parser itself, profiling counters and timing (`si_val`, `si_suffix`);
  - `print_indexfile_header` and `write_output_format_help`.
- `cx_put_record` (binary `.cx` output) and `cx_text_string` are not part of this model. The stored record is modelled by its fields and flags.
- The `fprintf(stderr, ...)` diagnostics of `mark_discontinuous_segments` are not modelled.
- `get_event_context` is not modelled. The event context and the byte index and count are parameters.
- `cb_default` of `dtatw-mkindex.c` (the structure index `.sx` and its location blocks) and `XML_DefaultCurrent`: the `.sx` stream is not modelled.
- The `u8_*` UTF-8 helpers are not part of this model. They are function parameters.
- The `cxAux` flag word of `dtatw-txml2master.c` is modelled as a set of flags rather than a bit mask.
- Integer widths are unbounded except in `dtatw-check-depth.c`, where the unsigned wrap is modelled.
- `strtoul` is modelled for plain digits after optional white space; signs, base prefixes and overflow are left out.
- Attribute names are assumed distinct, as expat guarantees (`IndexRecords.DistinctNames`).
- `RmNamespaces.Start` requires an event context of at least 2 bytes, as any start tag has.
- Ids written with `%s` by the sxml and axml converters are written unescaped, as in the source.
- The 8192-byte word buffers of `dtatw-tok2xml.c` are not bounded in `TtWords`. `Realign.Realigner.HandleLine` reports an overflow instead.
- `Mkindex.TokWrapData.Run` states only the consistency of the outputs and the possible statuses, not the full output of a run.
- `Master.TxmlParser.Load` states only that flags are added and the vectors grow, not which flags each token sets (see `Master.ClaimMaskFlags` for that).
- A null pointer handed to a C library function is undefined behaviour. This happens for `strlen` in `dtatw-txml2axml.c` on a `<w>` without `xml:id`, and for `strtoul` in `dtatw-txml2master.c` on a `<w>` without `b`. As a modelling choice, `Axml.Next` and `Master.TxmlParser.StartToken` stop there with `Fault`. They say nothing about what the program then does.
- `CharLookup.InitTxb2Cx` and `CharLookup.InitTxtb2Cx` stop with `Fault` where `dtatw-tok2xml.c` reads or writes past the end of a lookup vector: on an inconsistent index, whose records or blocks reach past the end of the last one. What that access then does is not modelled.
- `WatchIndex.TokWrapData.Start` and `WatchIndex.TokWrapData.Chars` stop with `Fault` where `mkindex-c/dta-tokwrap-mkindex.c` writes past the end of its 256-byte `c_id` or `c_tbuf`. What the overrun then corrupts is not modelled.
- The output form of `dtatw-tok2xml.c`: `TtWords` and `Realign` write abstract `TtOut` items (sentence open, sentence close, word). The XML escaping of text and analyses is not modelled. Neither are the attribute names set by the `posAttr`, `textAttr`, `cAttr` and `olAttr` options, nor the indentation strings.
- The root elements written by `main` are not modelled. For `dtatw-txml2sxml.c` that is `<sentences xml:base=...>`, whose base comes from `file_basename` of the input name. For `dtatw-txml2axml.c` it is `<analyses xml:base=...>`. The XML declaration, header comment and closing tag of each are not modelled either. `Sxml.Convert` and `Axml.Convert` give only what the handlers write.
- The four `mkindex-c` handler models (`LsChars`, `Mkindex2`, `TextIndex`, `WatchIndex`) write their text fields through `IndexRecords.Line4` and `IndexRecords.Line6`. These use the corrected, unbounded `IndexEscape.IndexText`. The overflow of the 256-byte static buffer of `index_text` (the `dta-tokwrap-lschars.c:118-145` row under Findings) is not carried into these handlers.
- `cb_default` of `mkindex-c/dta-tokwrap-mkindex2.c` is not modelled. It copies the event context to the `.sx` stream and adds `<loc>` records.
- The graveyard files and `dtatw-t2xml.c` are context, not core, and are not modelled.

## Findings

| source | as written | input that shows it | evidently intended | confidence | as-written member | corrected member |
|---|---|---|---|---|---|---|
| src/dtatw-tok2xml.c:673-675 | after the last line `w1` is zeroed and `tt_next_word` is called, which only writes `w0` when `w1` is non-empty | a `.tt` file with a single token line | the pending last word is written | high, not executed | Realign.Realigner.ProcessTt | Realign.Realigner.ProcessTtFixed |
| src/dtatw-txml2master.c:327-332 | the first character's token and sentence are never looked up (`w_prev`, `s_prev` stay NULL), so the first pair is never checked | two characters of one token with a byte gap between them (`Master.FirstPairMissed`) | every consecutive pair is checked | high, not executed | Master.MarkDiscontinuousSegments | Master.MarkDiscontinuousSegmentsFixed |
| mkindex-c/dta-tokwrap-mkindex.c:231-232 | `cb_start` copies the `<c>` id into its 256-byte buffer with an unchecked `strcpy` | an `xml:id` of 256 bytes (`WatchIndex.CIdOverrunInput`) | the check the sibling tools make (`assert(strlen(id) < CIDBUFSIZE)`, exit status 255) | high, not executed | WatchIndex.TokWrapData.Start | WatchIndex.TokWrapData.StartChecked |
| mkindex-c/dta-tokwrap-mkindex.c:268-269 | `cb_char` appends text to the 256-byte buffer with `memcpy`; the bound `assert` is commented out | 300 bytes of text inside one `<c>` (`WatchIndex.CTextOverrunInput`) | the check the sibling tools make (`assert(c_tlen + len < CTBUFSIZE)`, exit status 255) | high, not executed | WatchIndex.TokWrapData.Chars | WatchIndex.TokWrapData.CharsChecked |
| mkindex-c/dta-tokwrap-lschars.c:118-145 | `index_text` writes into a 256-byte static buffer with no bound | an attribute value of 256 plain bytes (`IndexEscape.IndexTextOverflowInput`) | output sized to the input | medium, not executed | IndexEscape.IndexTextStatic | IndexEscape.IndexText |
