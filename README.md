# Quality-control engine

A model of the inspection core of a desktop quality-control application
for a production line. The application exists in five successive versions
(`tests/v010.py`, `tests/v012.py`, `tests/v0141-beta.py`,
`tests/v014-beta.py` and `tests/v0142-beta.py`). Every version has the same
parts:

- A part (`Peca`) is measured for weight, colour and length. `validar`
  checks the measurements against inclusive bounds and an allowed colour
  list. It records one reason per failed check, in the order weight,
  colour, length, and approves the part exactly when no reason is left.
- A box (`Caixa`) holds a fixed number of approved parts. It closes itself
  when the last slot is filled.
- The ledger (`SistemaControleQualidade` in v0.10, `BancoDados` later)
  keeps the approved parts, the rejected parts, the closed boxes and the
  current box. An approved part is packed into the current box; a full box
  is archived and replaced by box number `len(closed) + 1`.
  - From v0.14.1 on, the ledger refuses duplicate IDs.
  - Parts can be removed; v0.14.2 also edits them.
  - The ledger builds a report: totals, the approval rate, a per-shift
    table and a histogram of rejection reasons.
  - v0.14 and v0.14.2 restrict the report to a date range or a search.
  - From v0.12 on, the ledger is persisted as JSON documents.
- A user store (`SistemaAutenticacao`) holds bcrypt-hashed accounts with
  levels. It authenticates, creates, updates, renames, resets and removes
  them.
- v0.14 guards screens by level rank. It keeps an audit trail trimmed to
  its newest 1000 entries.
- A pure helper darkens hex colours for the buttons.

The Dafny modules follow the versions. `V010`, `V012`, `V0141`, `V014` and
`V0142` each hold:

- that version's part record;
- its `Box` class (`Caixa`);
- its ledger class, with the fields the Python methods update in place;
- its report;
- its document encoding and decoding;
- its `Accounts` class (`SistemaAutenticacao`).

Shared behaviour lives in separate modules:

- `Fixed`: the hard-coded criteria of v0.10 and v0.12.
- `Users`: the user-store transitions as functions on the user map.
- `Audit`: audit trail and permission rank.
- `Stats`: counters, the shift table and the reason histogram.
- `Shade`: colour darkening.
- `Shifts`: hour to shift.
- `Text`: the `str` methods the code uses.
- `Json`: the document datatype.
- `Credentials`: bcrypt as an ideal hash.
- `Common`: `Option` and the `s[-n:]` slice.

Each method of a class states its new state as a function of the old one.
Those functions have their properties proved as lemmas. Packing keeps the
current box not full (given a capacity of at least 1) and numbers a new box `len(closed) + 1`. Removal and
editing keep every part in the list of its verdict and never change the
closed boxes; removal drops exactly one copy of the ID and editing keeps
the multiset of IDs; a part removed from the approved
list leaves only the current box, so a closed box keeps it, and an edit can
leave the current box full (`V0142.EditCanFillBox`). Decoding undoes
encoding.

## Model

| member | source | states |
|---|---|---|
| Common.KeepLast | tests/v014-beta.py:163 | `s[-n:]`: the newest `min(n, len(s))` elements, as a suffix of `s` |
| Credentials.HashPassword | tests/v0141-beta.py:284 | the stored hash keeps the salt it was made with |
| Credentials.CheckPassword | tests/v0141-beta.py:258 | `checkpw` holds exactly when hashing the attempt with the stored salt gives the stored hash |
| Credentials.HashThenCheck | tests/v0141-beta.py:258-284 | a hash made from a password accepts that password and no other |
| Shifts.ShiftOf | tests/v0141-beta.py:318-326 | Manhã iff 6 ≤ h < 14, Tarde iff 14 ≤ h < 22, Noite iff h < 6 or h ≥ 22; always one of the three |
| Json.Get | tests/v0141-beta.py:441-510 | `dict.get(key)`: present exactly when the document is an object with that key, and then its value |
| Json.ItemsOf | tests/v0141-beta.py:441-510 | `dados.get(k, [])`: a missing section reads as the empty list, an array as its items |
| Json.StrList | tests/v0141-beta.py:354-366 | the reason list is written as an array of the same length holding each reason as a string |
| Json.AsStrList | tests/v0141-beta.py:441-510 | a decoded reason list has one entry per array element |
| Json.StrListRoundTrip | tests/v0141-beta.py:354-366 | reading back a written reason list gives the same list |
| Text.TrimStart | tests/v0141-beta.py:308 | `lstrip()`: a suffix of the input; all dropped characters are whitespace; it starts with none |
| Text.TrimEnd | tests/v0141-beta.py:308 | `rstrip()`: a prefix of the input; all dropped characters are whitespace; it ends with none |
| Text.Strip | tests/v0141-beta.py:308 | `strip()` gives the empty text exactly when every character is whitespace |
| Text.StripIsStripped | tests/v0141-beta.py:308 | `strip()` leaves no whitespace at either end and never lengthens the text |
| Text.StripIsSlice | tests/v0141-beta.py:308 | `strip()` returns a contiguous slice of its input |
| Text.StrippedIsFixed | tests/v0141-beta.py:308 | stripping text with no outer whitespace changes nothing |
| Text.Lower | tests/v0141-beta.py:310 | `lower()` keeps the length and maps each character on its own: Latin-1 capitals to their small letters, every other character unchanged |
| Text.Upper | tests/v0141-beta.py:308 | `upper()` maps each character on its own: Latin-1 small letters to their capitals (ÿ to Ÿ, ß to "SS", µ to Μ), every other character unchanged; the length stays the same unless ß occurs and at most doubles |
| Text.UpperFixed | tests/v0141-beta.py:308 | upper-casing upper-case text changes nothing |
| Text.LowerFixed | tests/v0141-beta.py:310 | lower-casing lower-case text changes nothing |
| Text.UpperIsUpper | tests/v0141-beta.py:308 | the result of `upper()` holds no lower-case letter |
| Text.LowerIsLower | tests/v0141-beta.py:310 | the result of `lower()` holds no upper-case letter |
| Text.StripUpperIdempotent | tests/v0141-beta.py:308 | `upper().strip()` is upper-case, stripped, and idempotent |
| Text.StripKeepsUpper | tests/v0141-beta.py:308 | stripping keeps upper-case text upper-case |
| Text.StripLowerIdempotent | tests/v0141-beta.py:310 | `lower().strip()` is lower-case, stripped, and idempotent |
| Text.StripKeepsLower | tests/v0141-beta.py:310 | stripping keeps lower-case text lower-case |
| Text.UpperStripStable | tests/v0141-beta.py:308 | normalising a part ID a second time changes nothing |
| Text.LowerStripStable | tests/v0141-beta.py:310 | normalising a colour a second time changes nothing |
| Text.UpperStrip | tests/v0141-beta.py:308 | a normalised part ID holds no small letter and no outer whitespace |
| Text.LowerStrip | tests/v0141-beta.py:310 | a normalised colour holds no capital letter and no outer whitespace |
| Text.UpperStripFixed | tests/v0141-beta.py:308 | an ID already in normal form is left as it is |
| Text.LowerStripFixed | tests/v0141-beta.py:310 | a colour already in normal form is left as it is |
| Text.DropLeading | tests/v0141-beta.py:1094 | `lstrip('#')`: a suffix of the input, with only '#' dropped, that does not start with '#' |
| Text.PrefixContained | tests/v0141-beta.py:680-685 | `'Peso' in motivo` holds for every text starting with "Peso" |
| Text.Contains | tests/v0141-beta.py:680-685 | `sub in s` holds exactly when `sub` occurs in `s` at some position |
| Text.AbsentCharNotContained | tests/v0141-beta.py:680-685 | a text lacking a character of the pattern does not contain the pattern |
| Text.Join | tests/v010.py:258 | joining the reasons with a separator: empty for no reasons, the reason itself for one |
| Text.JoinLacks | tests/v010.py:258 | joining texts that lack a character gives a text that lacks it |
| Text.LowerLacks | tests/v0141-beta.py:310 | lower-case text holds no capital letter |
| Text.HexValue | tests/v0141-beta.py:1096 | one hex digit is worth less than 16 |
| Text.HexDigit | tests/v0141-beta.py:1098 | `:x` formatting writes a lower-case digit that reads back as its value |
| Text.HexPair | tests/v0141-beta.py:1096 | `int(cor[i:i+2], 16)` lies in 0..255 |
| Text.Hex2 | tests/v0141-beta.py:1098 | `:02x` writes two lower-case hex digits that read back as the value |
| Shade.Channel | tests/v0141-beta.py:1096 | each colour channel lies in 0..255 |
| Shade.Darker | tests/v0141-beta.py:1097 | `max(0, c - 30)` stays a channel value |
| Shade.Format | tests/v0141-beta.py:1098 | `#{r:02x}{g:02x}{b:02x}` gives six lower-case hex digits whose channels read back as r, g, b |
| Shade.Shaded | tests/v0141-beta.py:1095-1098 | a six-digit colour comes back as '#' plus six lower-case digits, each channel darkened |
| Shade.Darken | tests/v0141-beta.py:1091-1101 | after dropping leading '#': six hex digits give '#' and each channel lowered by 30, floored at 0; anything else comes back without its '#' |
| Shade.DarkColorsReachBlack | tests/v0141-beta.py:1091-1101 | a colour whose channels are all at most 30 darkens to "#000000" |
| Shade.DarkenTwice | tests/v0141-beta.py:1091-1101 | darkening twice is still a valid colour, and each channel is darkened twice |
| Fixed.Failed | tests/v010.py:32-49 | a check is listed iff it fails, in the order weight, colour, length |
| Fixed.Reasons | tests/v010.py:32-49 | no reasons iff weight in 95..105, colour azul or verde and length in 10..20; otherwise one reason text per failed check, in order |
| Fixed.ReasonsClassified | tests/v012.py:242-256 | each hard-coded reason text is counted by the report under its own check |
| Audit.KeepLastAppend | tests/v014-beta.py:155-163 | trimming before an append and trimming after it give the same log |
| Audit.RecordAllKeepsNewest | tests/v014-beta.py:147-172 | any series of appends leaves the newest 1000 entries of the whole history |
| Audit.KeepLastConcat | tests/v014-beta.py:155-163 | trimming an old log, then appending and trimming, equals trimming the whole history |
| Audit.AuditLog.constructor | tests/v014-beta.py:150 | an empty trail |
| Audit.AuditLog.Record | tests/v014-beta.py:147-172 | the trail becomes the newest 1000 entries of the old trail plus the new entry |
| Audit.Rank | tests/v014-beta.py:176-182 | administrador ranks 2, supervisor 1, every other level 0 |
| Audit.SessionLevel | tests/v014-beta.py:181 | the session's stored level, or a level of rank 0 when none is stored |
| Audit.Allowed | tests/v014-beta.py:174-201 | an administrator-only call passes only administrators; a supervisor call passes supervisors and administrators; any other requirement passes everyone, including sessions with no or an unknown level |
| Audit.RequiredLevel | tests/v014-beta.py:1446-1917 | operators and sessions with no level reach no guarded screen; supervisors reach only part removal; administrators reach every screen |
| Audit.Guard | tests/v014-beta.py:174-201 | the call goes through iff the session rank reaches the required rank; a refusal appends ACESSO_NEGADO naming the screen, and a pass leaves the trail alone |
| Stats.BumpCount | tests/v0141-beta.py:677-685 | `c[k] += 1` raises k's count by one and no other count |
| Stats.BumpTotal | tests/v0141-beta.py:677-685 | each bump adds one to the sum of counts |
| Stats.BumpKeys | tests/v0141-beta.py:677-685 | a known key keeps its place; a new key is appended last |
| Stats.TickKeeps | tests/v0141-beta.py:665-674 | counting a part keeps approved + rejected = total in every row and adds one to the grand total |
| Stats.TickRow | tests/v0141-beta.py:665-674 | counting a part changes only its shift's row, by one in the column of its verdict |
| Stats.ShiftTable | tests/v0141-beta.py:662-674 | one row per shift, no more rows than parts, and the shifts of the rows are exactly the shifts of the parts |
| Stats.ShiftTableSums | tests/v0141-beta.py:662-674 | the shift table is balanced and its totals sum to the number of parts |
| Stats.ShiftTableCounts | tests/v0141-beta.py:662-674 | each shift's row counts exactly the approved and the rejected parts of that shift |
| Stats.CountAppended | tests/v0141-beta.py:665-674 | appending a part raises its own count by one and no other |
| Stats.WeightReasonClassified | tests/v0141-beta.py:680-681 | a reason beginning "Peso" counts under weight |
| Stats.ColorReasonClassified | tests/v0141-beta.py:682-683 | a reason beginning "Cor" with no 'P' counts under colour |
| Stats.LengthReasonClassified | tests/v0141-beta.py:684-685 | a reason beginning "Comprimento" with no further 'P' or 'C' counts under length |
| Stats.Classify | tests/v0141-beta.py:680-685 | a reason counts under the first of weight, colour, length whose label it contains, and under none exactly when it contains no label |
| Stats.AllTaggedNoneFree | tests/v0141-beta.py:678-685 | when every reason names a check, none falls outside the histogram |
| Stats.HistogramCounts | tests/v0141-beta.py:677-685 | each check's label counts exactly the reasons classified under it; the sum counts every classified reason |
| Stats.Histogram | tests/v0141-beta.py:677-685 | the counts add up to at most the number of reasons |
| Stats.TaggedBound | tests/v0141-beta.py:678-685 | the unclassified reasons are at most all of them |
| Stats.PercentBounds | tests/v0141-beta.py:659 | the approval rate lies in 0..100; it is 0 iff nothing was approved and 100 iff everything was |
| Stats.Percent | tests/v0141-beta.py:659 | the percentage is 0 exactly when the part is 0 |
| Stats.RatioBounds | tests/v0141-beta.py:659 | a ratio of 0 ≤ x ≤ y with y > 0 lies in [0, 1], and reaches an end only at x = 0 or x = y |
| Stats.PercentOfGoal | tests/v014-beta.py:674-734 | goal progress is non-negative and reaches 100 iff the approved count meets a positive goal |
| Stats.HistogramStep | tests/v0141-beta.py:679-685 | one more reason bumps its check's label, or nothing when it names no check |
| Stats.TallyInto | tests/v0141-beta.py:678-685 | the counting loop over one part's reasons gives the histogram of all reasons seen so far |
| Users.NewUser | tests/v0141-beta.py:284-292 | a new record verifies exactly its password, is active and has never logged in |
| Users.IsActive | tests/v0141-beta.py:252 | a record is inactive exactly when it stores `ativo` as false; a record without the key is active |
| Users.Accepts | tests/v0141-beta.py:248-258 | a login is accepted only for a known, active user whose stored hash is the attempt hashed with its salt |
| Users.Initial | tests/v0141-beta.py:228-243 | a non-empty store is kept; an empty one gets only admin, an active administrator with password "admin" |
| Users.Login | tests/v0141-beta.py:245-270 | succeeds iff the user exists, is active and the password verifies; only success stamps `ultimo_login`, and only on that user |
| Users.Create | tests/v0141-beta.py:272-298 | refuses a taken name, then a password under 4 characters, then an unknown level, each unchanged; otherwise adds exactly the new record |
| Users.CreateThenLogin | tests/v0141-beta.py:272-298 | a created user logs in with its password and no other; other users' logins are unaffected |
| Users.InitialV012 | tests/v012.py:183-193 | v0.12 default store: only admin, administrator, password "admin" |
| Users.CreateV012 | tests/v012.py:205-219 | v0.12 refuses only a taken name; otherwise exactly one entry is added, with the given name, level and password |
| Users.Update | tests/v014-beta.py:298-315 | an unknown user and a non-empty password under 4 characters fail unchanged; otherwise only that user changes, taking the given name, level and `active` flag; an empty password keeps the old hash and a new one verifies only itself |
| Users.DeleteV014 | tests/v014-beta.py:317-333 | admin is refused first; a known user is deleted and nothing else changes; an unknown user is reported |
| Users.EditAsWritten | tests/v0142-beta.py:304-335 | fails on an unknown user or a rename onto a taken name; otherwise the record moves to the new name with the old password hash |
| Users.RenameForgetsHistory | tests/v0142-beta.py:318-327 | as written, renaming a user who has logged in resets the creation date to now and the last login to none |
| Users.Edit | tests/v0142-beta.py:304-335 | the same guards and messages; on success the key set loses the old name, gains the new one, and no other record changes (the corrected edit; see ## Findings) |
| Users.EditKeepsHistory | tests/v0142-beta.py:304-335 | an edited user keeps password, creation date and last login, takes the new name, level and flag, and logs in iff active with the old password |
| Users.ResetPassword | tests/v0142-beta.py:337-353 | fails on an unknown user, then a short password; otherwise only that user's hash changes |
| Users.ResetThenLogin | tests/v0142-beta.py:337-353 | after a reset the user logs in with the new password only, if active |
| Users.Remove | tests/v0142-beta.py:355-370 | not-found is checked before the admin refusal; success removes exactly that user |
| Users.ListEntry | tests/v0142-beta.py:372-385 | one listing row: the record's fields, "Nunca" for a missing last login, active by default |
| Users.Listing | tests/v0142-beta.py:372-385 | one row per user, in store order |
| Users.Drop | tests/v0142-beta.py:355-370 | the key order without the deleted name |
| Users.Insert | tests/v0142-beta.py:276-302 | the key order after an assignment holds the old names and the new one |
| Users.DropDistinct | tests/v0142-beta.py:355-370 | deleting a key keeps the key order free of repeats |
| Users.OrderKept | tests/v0142-beta.py:276-370 | insertion, deletion and rename keep the key order listing each key exactly once |
| V010.NewPart | tests/v010.py:23-30 | the ID is kept, the colour lower-cased, and the part is unapproved with no reasons |
| V010.Validate | tests/v010.py:32-49 | only the verdict and reasons change; approved iff all three fixed checks pass; reasons as the fixed criteria give them |
| V010.Vacancies | tests/v010.py:91-93 | `10 - len`, not clamped; zero or less exactly when the box is full |
| V010.EmptyBox | tests/v010.py:69-72 | a new box has its number, no parts and no closing date |
| V010.Put | tests/v010.py:74-81 | succeeds iff under 10 parts and then appends exactly the part; the closing date is set exactly when the count reaches 10; a full box is unchanged |
| V010.Box.constructor | tests/v010.py:69-72 | a new empty box |
| V010.Box.Add | tests/v010.py:74-81 | the box becomes what `Put` gives |
| V010.Box.Close | tests/v010.py:83-85 | only the closing date changes |
| V010.PartsOfAppend | tests/v010.py:117-141 | the parts of the boxes concatenate box by box |
| V010.PackSpec | tests/v010.py:124-133 | packing keeps the closed boxes as a prefix, leaves the current box not full, adds exactly the part to the packed sequence, and numbers a new box `len(closed) + 1` |
| V010.Pack | tests/v010.py:124-133 | packing keeps the closed boxes as a prefix and archives at most two boxes |
| V010.Bulleted | tests/v010.py:140-141 | each reason is prefixed with a bullet |
| V010.InspectPart | tests/v010.py:117-141 | returns true iff the part is valid; a valid part goes to approved and is packed; an invalid one goes only to rejected, with its reasons in the message |
| V010.InspectRecords | tests/v010.py:117-141 | inspection adds exactly one part to the lists; an approved part ends packed in a box that is not full; a rejected part leaves the boxes alone |
| V010.ReportOf | tests/v010.py:143-158 | inspected = approved + rejected; the box count, current number, parts and free slots match the ledger |
| V010.InspectThenReport | tests/v010.py:117-158 | after an inspection the report counts one more part, in the column of its verdict |
| V010.EncodeParts | tests/v010.py:160-173 | one dict per part |
| V010.EncodeBoxes | tests/v010.py:160-173 | one dict per box |
| V010.DecodeParts | tests/v010.py:175-218 | decoding yields at most one part per dict, and one per dict when it succeeds |
| V010.DecodePart | tests/v010.py:183-195 | a decoded part is canonical (colour lower-cased, reasons only in the rejected list) and has the stored ID and verdict |
| V010.PartRoundTrip | tests/v010.py:51-61 | a part's dict decodes back to the part |
| V010.EncodedStrings | tests/v010.py:51-61 | the dict holds the id, colour and timestamp as written |
| V010.EncodedOthers | tests/v010.py:51-61 | the dict holds weight, length, verdict and reasons as written |
| V010.PartsRoundTrip | tests/v010.py:160-218 | a saved part list loads back unchanged |
| V010.BoxRoundTrip | tests/v010.py:95-102 | a box dict decodes back to the box |
| V010.EncodedBox | tests/v010.py:95-102 | the box dict holds number, closing date and parts |
| V010.BoxesRoundTrip | tests/v010.py:160-218 | a saved box list loads back unchanged |
| V010.DocumentRoundTrip | tests/v010.py:160-218 | loading the saved document restores both part lists, the closed boxes and the current box's number and parts |
| V010.DocumentSections | tests/v010.py:160-173 | the saved document has one section per list and the current box |
| V010.CurrentRoundTrip | tests/v010.py:209-215 | the current box reloads with its number and parts, without a closing date |
| V010.Loaded | tests/v010.py:175-218 | with no readable file the ledger starts empty at box 1; the current box is always open |
| V010.InspectKeepsCanonical | tests/v010.py:117-141 | inspection keeps the ledger in the shape that survives a save and load |
| V010.PackCanonical | tests/v010.py:124-133 | packing keeps every box in that shape |
| V010.PartRow | tests/v010.py:245-267 | a CSV row has the seven header columns, the ID first, the status fifth and the reasons last |
| V010.ApprovedRows | tests/v010.py:245-254 | one APROVADA row with empty reasons per approved part, in order |
| V010.RejectedRows | tests/v010.py:257-267 | one REPROVADA row per rejected part, reasons joined by a bar separator |
| V010.CsvLayout | tests/v010.py:236-267 | header, then the approved rows, then the rejected rows: 1 + a + r rows of 7 cells |
| V010.System.constructor | tests/v010.py:110-115 | the ledger starts as what the stored document loads to |
| V010.System.Load | tests/v010.py:175-218 | the ledger becomes the decoded document |
| V010.System.Save | tests/v010.py:160-173 | the file becomes the document of the ledger; the ledger is unchanged |
| V010.System.Inspect | tests/v010.py:117-141 | the ledger and result are as `InspectPart` gives, then saved |
| V010.System.PackPart | tests/v010.py:124-133 | the boxes become what packing gives; the lists are unchanged |
| V010.System.GenerateReport | tests/v010.py:143-158 | returns the report of the ledger |
| V010.System.Clear | tests/v010.py:220-228 | empty lists, no closed boxes, a fresh empty box #1, and no stored file |
| V010.System.ExportRows | tests/v010.py:236-267 | returns the CSV rows of the ledger |
| V010.DecodeAll | tests/v010.py:183-195 | the loading loop gives the same parts as the decoding function |
| V010.DecodeAllBoxes | tests/v010.py:198-206 | the loading loop gives the same boxes as the decoding function |
| V010.DecodePartsStops | tests/v010.py:175-218 | after a bad dict the loading stops, so later dicts change nothing |
| V010.DecodeBoxesStops | tests/v010.py:175-218 | the same for boxes |
| V012.NewPart | tests/v012.py:232-240 | the ID is kept, the colour lower-cased, the operator recorded, and the part is unapproved with no reasons |
| V012.Validate | tests/v012.py:242-256 | approved iff the three fixed checks pass; reasons as the fixed criteria give them |
| V012.ValidatedClassified | tests/v012.py:242-256 | each reason of a validated part is counted under the check that produced it |
| V012.Vacancies | tests/v012.py:300-302 | `10 - len`, not clamped; zero or less exactly when full |
| V012.EmptyBox | tests/v012.py:276-280 | a new box is empty and open |
| V012.Put | tests/v012.py:282-289 | succeeds iff under 10 parts and appends exactly the part; the box closes, by the part's operator, exactly at 10 |
| V012.Box.constructor | tests/v012.py:276-280 | a new empty box |
| V012.Box.Add | tests/v012.py:282-289 | the box becomes what `Put` gives |
| V012.Box.Close | tests/v012.py:291-294 | only the closing date and user change |
| V012.PartsOfAppend | tests/v012.py:398-414 | the parts of the boxes concatenate box by box |
| V012.PackSpec | tests/v012.py:402-409 | packing keeps the closed boxes as a prefix, leaves the current box not full, adds exactly the part, and numbers a new box `len(closed) + 1` |
| V012.Pack | tests/v012.py:402-409 | packing keeps the closed boxes as a prefix and archives at most two boxes |
| V012.AddPart | tests/v012.py:398-414 | trusts the verdict and does not check duplicates; approved parts are packed, rejected ones go only to rejected |
| V012.AddKeepsStock | tests/v012.py:398-414 | adding puts the part in exactly one list; an approved part ends in a box that is not full |
| V012.FirstIndex | tests/v012.py:416-434 | the first position with that exact ID, or -1 when there is none |
| V012.WithoutFirst | tests/v012.py:416-434 | `del` at the first match removes exactly that element |
| V012.Ids | tests/v012.py:416-434 | the IDs of the parts, in order |
| V012.IdsConcat | tests/v012.py:416-434 | the IDs of two lists concatenate |
| V012.IdsDelete | tests/v012.py:416-434 | deleting one element removes exactly its ID from the multiset of IDs |
| V012.IdsWithoutFirst | tests/v012.py:416-434 | removing the first match drops exactly one copy of the ID |
| V012.FirstIndexIds | tests/v012.py:416-434 | a match is found iff the ID occurs |
| V012.RemovePart | tests/v012.py:416-434 | succeeds iff the exact ID occurs in either list; the first approved copy goes when there is one, otherwise the first rejected copy; the other list and the boxes never change; failure changes nothing |
| V012.RemoveDropsId | tests/v012.py:416-434 | removal takes away exactly one copy of the ID from the parts |
| V012.ReportOf | tests/v012.py:436-451 | inspected = approved + rejected; the complete boxes are the closed ones; the current box fields match |
| V012.ShownRate | tests/v012.py:883-885 | the rate is shown only when parts were inspected, and then lies in 0..100, being 0 iff none was approved |
| V012.AnalysisCounts | tests/v012.py:893-904 | the analysis appears iff there are rejected parts, and each label counts exactly its reasons |
| V012.AnalysisComplete | tests/v012.py:893-904 | for parts validated as written, every reason is counted |
| V012.AllClassified | tests/v012.py:893-904 | for parts validated as written, every reason names a check |
| V012.TallyReasons | tests/v012.py:896-904 | the screen's counting loop gives the histogram of all reasons with the long labels |
| V012.Ledger.constructor | tests/v012.py:321-328 | the ledger holds what was loaded |
| V012.Ledger.Add | tests/v012.py:398-414 | the ledger becomes what `AddPart` gives |
| V012.Ledger.Remove | tests/v012.py:416-434 | the ledger and result are as `RemovePart` gives; the current box is untouched |
| V012.Ledger.GenerateReport | tests/v012.py:436-451 | returns the report of the ledger |
| V012.Accounts.constructor | tests/v012.py:160-193 | the store is the loaded one, or the default admin |
| V012.Accounts.Authenticate | tests/v012.py:195-203 | true iff the user exists and the password verifies |
| V012.Accounts.CreateUser | tests/v012.py:205-219 | the store and result are as `CreateV012` gives |
| V012.Accounts.Info | tests/v012.py:221-223 | the record of a known user, none otherwise |
| V0141.NewPart | tests/v0141-beta.py:307-326 | the ID is upper-cased and stripped, the colour lower-cased and stripped, the shift taken from the hour; unapproved with no reasons |
| V0141.Failed | tests/v0141-beta.py:328-352 | a check is listed iff it fails against the configured criteria, in the order weight, colour, length |
| V0141.Validate | tests/v0141-beta.py:328-352 | only verdict and reasons change; approved iff all bounds hold, inclusive; approved iff no reasons; one reason per failed check, in order |
| V0141.ReasonsClassified | tests/v0141-beta.py:328-352 | each reason text is counted by the report under its own check |
| V0141.Vacancies | tests/v0141-beta.py:402-404 | `max(0, cap - len)`: zero exactly when full, otherwise the free slots |
| V0141.EmptyBox | tests/v0141-beta.py:371-377 | a new box is empty and open |
| V0141.Put | tests/v0141-beta.py:379-390 | succeeds iff below capacity, appends exactly the part; closes by the part's operator exactly at capacity; a full box is unchanged |
| V0141.Box.constructor | tests/v0141-beta.py:371-377 | a new empty box |
| V0141.Box.Add | tests/v0141-beta.py:379-390 | the box becomes what `Put` gives |
| V0141.Box.Close | tests/v0141-beta.py:392-396 | only the closing date and user change |
| V0141.Box.Discard | tests/v0141-beta.py:636-640 | the first part with the ID leaves the current box |
| V0141.FirstIndex | tests/v0141-beta.py:632-653 | the first position with that ID, or -1 when there is none |
| V0141.FindId | tests/v0141-beta.py:632-633 | the search loop finds that first position |
| V0141.WithoutFirst | tests/v0141-beta.py:632-649 | `del` at the first match removes exactly that element |
| V0141.PartsOfAppend | tests/v0141-beta.py:590-625 | the parts of the boxes concatenate box by box |
| V0141.PackSpec | tests/v0141-beta.py:605-615 | packing keeps the closed boxes as a prefix; with capacity ≥ 1 the current box is left not full and holds the part last; a new box is numbered `len(closed) + 1` with the configured capacity |
| V0141.Pack | tests/v0141-beta.py:605-615 | packing keeps the closed boxes as a prefix and archives at most two boxes |
| V0141.PackWithoutCapacity | tests/v0141-beta.py:605-615 | with capacity below 1 the part lands in no box and two boxes are archived |
| V0141.AddPart | tests/v0141-beta.py:590-625 | a known ID is refused unchanged; otherwise the validated part is appended to exactly the list of its verdict, and an approved part is packed into the boxes as `Pack` packs it (a new box numbered `len(closed) + 1` with the configured capacity) |
| V0141.RemoveKey | tests/v0141-beta.py:627-654 | succeeds iff the ID is known; an approved part leaves approved and the current box, otherwise the first rejected match goes; closed boxes never change |
| V0141.RemovePart | tests/v0141-beta.py:627-654 | succeeds iff the upper-cased, stripped ID is known; failure changes nothing; closed boxes never change |
| V0141.KnownSplit | tests/v0141-beta.py:593-596 | an ID is known iff it is in either list |
| V0141.FirstIndexAppend | tests/v0141-beta.py:590-625 | a part appended under a new ID is found at the end |
| V0141.RemoveUndoesRejectedAdd | tests/v0141-beta.py:590-654 | removing a just-added rejected part restores the ledger |
| V0141.AddKeepsStock | tests/v0141-beta.py:590-625 | adding keeps the verdict of every part matching its list, keeps the closed boxes as a prefix and packs an approved part in a box that is not full |
| V0141.RemoveKeepsFlagged | tests/v0141-beta.py:627-654 | removal keeps every part in the list of its verdict |
| V0141.EncodeParts | tests/v0141-beta.py:512-540 | one dict per part |
| V0141.EncodeBoxes | tests/v0141-beta.py:512-540 | one dict per box |
| V0141.DecodeParts | tests/v0141-beta.py:441-510 | at most one part per dict |
| V0141.StoredPart | tests/v0141-beta.py:452-466 | a part read from a dict has the dict's id, colour, weight, length and verdict, and no reasons in the approved list |
| V0141.DecodePart | tests/v0141-beta.py:452-466 | decoding succeeds exactly when the stored fields can be read, and gives a canonical part |
| V0141.LoadParts | tests/v0141-beta.py:443-472 | a document that is not a dict loads both lists empty |
| V0141.LoadBoxes | tests/v0141-beta.py:475-509 | a document that is not a dict loads no closed boxes and keeps the current box; otherwise the current box is kept or rebuilt open, created at load time |
| V0141.LoadCurrent | tests/v0141-beta.py:495-505 | a non-dict `atual` keeps the current box; otherwise it is kept or rebuilt open, created at load time, defaulting to number `len(closed) + 1` and the configured capacity |
| V0141.Loaded | tests/v0141-beta.py:441-509 | a file that cannot be read leaves its half of the ledger as it was; a readable pecas.json gives the lists `LoadParts` reads |
| V0141.PartRoundTrip | tests/v0141-beta.py:354-366 | a part's dict decodes back to the part |
| V0141.StoredPartRoundTrip | tests/v0141-beta.py:441-510 | a saved part reloads with its id, weight, colour, length, operator, verdict, timestamp, shift and reasons |
| V0141.EncodedPart | tests/v0141-beta.py:354-366 | the dict holds each field of the part |
| V0141.PartsRoundTrip | tests/v0141-beta.py:441-540 | a saved part list loads back unchanged |
| V0141.BoxRoundTrip | tests/v0141-beta.py:406-417 | a box dict decodes back to the box |
| V0141.EncodedBox | tests/v0141-beta.py:406-417 | the box dict holds number, capacity, parts and closing fields |
| V0141.BoxesRoundTrip | tests/v0141-beta.py:441-540 | a saved box list loads back unchanged |
| V0141.PartsDocumentRoundTrip | tests/v0141-beta.py:441-540 | loading pecas.json restores both part lists |
| V0141.BoxesDocumentRoundTrip | tests/v0141-beta.py:441-540 | loading caixas.json restores the closed boxes and the current box's number, capacity and parts |
| V0141.DocumentFields | tests/v0141-beta.py:512-530 | pecas.json holds both encoded part lists and the save time; caixas.json holds the encoded closed boxes, the open box and the save time |
| V0141.CurrentRoundTrip | tests/v0141-beta.py:495-505 | the current box reloads open, with its number, capacity and parts |
| V0141.DecodePartsStops | tests/v0141-beta.py:441-510 | after a bad dict the loading stops, so later dicts change nothing |
| V0141.DecodeBoxesStops | tests/v0141-beta.py:441-510 | the same for boxes |
| V0141.DecodeAll | tests/v0141-beta.py:452-465 | the loading loop gives the same parts as the decoding function |
| V0141.DecodeAllBoxes | tests/v0141-beta.py:480-493 | the loading loop gives the same boxes as the decoding function |
| V0141.Ledger.constructor | tests/v0141-beta.py:426-439 | the ledger is the empty one with the two files loaded |
| V0141.Ledger.Load | tests/v0141-beta.py:441-510 | the ledger becomes what loading the two files gives |
| V0141.Ledger.LoadPartsFile | tests/v0141-beta.py:443-470 | the two lists become those of pecas.json; the boxes are unchanged |
| V0141.Ledger.LoadBoxesFile | tests/v0141-beta.py:472-510 | the boxes become those of caixas.json; the lists are unchanged |
| V0141.Ledger.Save | tests/v0141-beta.py:512-540 | pecas.json becomes the parts document; caixas.json becomes the boxes document when it can be written |
| V0141.Ledger.PackPart | tests/v0141-beta.py:605-615 | the boxes become what packing gives |
| V0141.Ledger.Add | tests/v0141-beta.py:590-625 | the ledger and result are as `AddPart` gives, with the source's messages; on success pecas.json becomes the parts document and caixas.json the boxes document when it can be written, else as it was; a refusal leaves both files |
| V0141.Ledger.Remove | tests/v0141-beta.py:627-654 | the ledger and result are as removing the normalised ID gives, with the source's messages; on success both files are saved as `Save` saves them; a failure leaves both files |
| V0141.Ledger.RemoveByKey | tests/v0141-beta.py:627-654 | the ledger becomes what `RemoveKey` gives; on success both files are saved as `Save` saves them |
| V0141.Ledger.Drop | tests/v0141-beta.py:631-649 | the list and box deletions of removal, without saving |
| V0141.Ledger.GenerateReport | tests/v0141-beta.py:656-705 | returns the report, or none when the current box's capacity is 0 |
| V0141.ReportFor | tests/v0141-beta.py:656-705 | the report loops give the report of the ledger |
| V0141.Marks | tests/v0141-beta.py:663-674 | one (shift, verdict) pair per part |
| V0141.ReportConsistent | tests/v0141-beta.py:656-705 | inspected = approved + rejected; the rate lies in 0..100 (0 iff none approved, 100 iff none rejected); the shift rows balance and count each shift's parts; each label counts exactly its reasons |
| V0141.ReportOf | tests/v0141-beta.py:656-705 | no report exactly when a described box has capacity 0; otherwise stamped now, counting every part |
| V0141.ReportOn | tests/v0141-beta.py:656-705 | the counts are the list lengths, the complete boxes are the closed ones, with at most 10 rejected and 5 closed boxes in detail |
| V0141.AllReasonsCounted | tests/v0141-beta.py:677-685 | when every reason names a check, the histogram counts all reasons |
| V0141.AllReasonsClassified | tests/v0141-beta.py:677-685 | reasons classified part by part are classified in the flattened list |
| V0141.TallyShifts | tests/v0141-beta.py:662-674 | the shift loop gives the shift table |
| V0141.TallyReasons | tests/v0141-beta.py:677-685 | the reason loop gives the histogram with the short labels |
| V0141.Accounts.constructor | tests/v0141-beta.py:199-243 | the store is the loaded one, or the default admin |
| V0141.Accounts.Authenticate | tests/v0141-beta.py:245-270 | the store and result are as `Users.Login` gives |
| V0141.Accounts.CreateUser | tests/v0141-beta.py:272-298 | the store and result are as `Users.Create` gives, with three levels |
| V014.Validate | tests/v014-beta.py:359-378 | approved iff all bounds hold; approved iff no reasons; one reason per failed check, in order, with this version's texts |
| V014.ReasonsClassified | tests/v014-beta.py:359-378 | each of this version's reason texts is counted under its own check |
| V014.AddPart | tests/v014-beta.py:591-620 | a known ID is refused unchanged; otherwise the validated part goes to exactly the list of its verdict, and an approved one is packed |
| V014.AddKeepsStock | tests/v014-beta.py:591-620 | adding keeps every part in the list of its verdict and packs an approved one into a box that is not full |
| V014.InPeriodPartsMembers | tests/v014-beta.py:648-672 | the kept parts are exactly those inside the period |
| V014.InPeriod | tests/v014-beta.py:654-668 | a kept part's timestamp parses; a given bound that does not parse keeps nothing; with no bound a part is kept iff its timestamp parses |
| V014.InPeriodParts | tests/v014-beta.py:653-670 | every part kept comes from the list and lies in the period |
| V014.Filtered | tests/v014-beta.py:648-672 | with no bound the list comes back as it is; otherwise every part kept comes from the list and lies in the period |
| V014.FilterSpec | tests/v014-beta.py:648-672 | with no bound the list is returned as is; otherwise a part is kept iff it lies in the period |
| V014.FilterShrinks | tests/v014-beta.py:648-672 | filtering never adds parts |
| V014.BadBoundFiltersAll | tests/v014-beta.py:648-672 | an unparsable bound filters out every part |
| V014.FilterByDate | tests/v014-beta.py:648-672 | the loop returns the filtered list |
| V014.ReportCoversPeriod | tests/v014-beta.py:674-734 | the counts are those of the filtered lists, never above the totals, and equal to them with no period |
| V014.ReportConsistent | tests/v014-beta.py:674-734 | totals add up, the rate lies in 0..100, the shift rows balance and count each shift, each label counts its reasons, and goal progress is 0 for a goal ≤ 0 and reaches 100 iff a positive goal is met |
| V014.ReportOf | tests/v014-beta.py:674-734 | no report exactly when the current box has capacity 0; otherwise stamped now, labelled with the given bounds or "Início" and "Hoje" |
| V014.ReportOn | tests/v014-beta.py:674-734 | the counts are those of the given lists, the complete boxes the closed ones, with the given labels |
| V014.Ledger.constructor | tests/v014-beta.py:445-457 | the ledger is the empty one with the two files loaded |
| V014.Ledger.Load | tests/v014-beta.py:459-519 | the ledger becomes what loading the two files gives |
| V014.Ledger.LoadPartsFile | tests/v014-beta.py:461-484 | the two lists become those of pecas.json |
| V014.Ledger.LoadBoxesFile | tests/v014-beta.py:486-519 | the boxes become those of caixas.json |
| V014.Ledger.Save | tests/v014-beta.py:521-545 | pecas.json becomes the parts document; caixas.json becomes the boxes document when no box has capacity 0, else stays as it was |
| V014.Ledger.PackPart | tests/v014-beta.py:604-611 | the boxes become what packing gives |
| V014.Ledger.Add | tests/v014-beta.py:591-620 | the ledger and result are as `AddPart` gives; on success pecas.json becomes the parts document and caixas.json the boxes document when it can be written, else as it was |
| V014.Ledger.Remove | tests/v014-beta.py:622-646 | the ledger is as removal of the normalised ID gives; success saves both files as `Save` does and appends REMOVER_PECA with the justification to the audit trail |
| V014.Ledger.RemoveByKey | tests/v014-beta.py:622-646 | the ledger becomes what `RemoveKey` gives; on success both files are saved as `Save` saves them |
| V014.Ledger.Drop | tests/v014-beta.py:626-641 | the list and box deletions of removal, without saving |
| V014.Ledger.GenerateReport | tests/v014-beta.py:674-734 | returns the report on the period |
| V014.ReportOnPeriod | tests/v014-beta.py:674-734 | the report loops give the report on the filtered lists |
| V014.Accounts.constructor | tests/v014-beta.py:206-247 | the store is the loaded one, or the default admin |
| V014.Accounts.Authenticate | tests/v014-beta.py:249-269 | the store and result are as `Users.Login` gives; a success appends LOGIN to the audit trail |
| V014.Accounts.CreateUser | tests/v014-beta.py:271-296 | the store and result are as `Users.Create` gives |
| V014.Accounts.UpdateUser | tests/v014-beta.py:298-315 | the store and result are as `Users.Update` gives |
| V014.Accounts.DeleteUser | tests/v014-beta.py:317-333 | the store and result are as `Users.DeleteV014` gives |
| V0142.NewPart | tests/v0142-beta.py:393-413 | ID and colour normalised, day and shift recorded; unapproved with no reasons |
| V0142.Validate | tests/v0142-beta.py:415-439 | the verdict and reasons are those of v0.14.1; approved iff all bounds hold iff no reasons |
| V0142.ValidateReasons | tests/v0142-beta.py:415-439 | one reason per failed check, in order, each counted under its own check |
| V0142.Vacancies | tests/v0142-beta.py:490-492 | `max(0, cap - len)`: zero exactly when full |
| V0142.EmptyBox | tests/v0142-beta.py:459-465 | a new box is empty and open |
| V0142.Put | tests/v0142-beta.py:467-478 | succeeds iff below capacity, appends exactly the part and closes by its operator exactly at capacity |
| V0142.Box.constructor | tests/v0142-beta.py:459-465 | a new empty box |
| V0142.Box.Add | tests/v0142-beta.py:467-478 | the box becomes what `Put` gives |
| V0142.Box.Close | tests/v0142-beta.py:480-483 | only the closing date and user change |
| V0142.Box.Discard | tests/v0142-beta.py:740-743 | the first part with the ID leaves the current box |
| V0142.FirstIndex | tests/v0142-beta.py:725-726 | the first position with that ID, or -1 |
| V0142.FindId | tests/v0142-beta.py:725-726 | the search loop finds that first position |
| V0142.WithoutFirst | tests/v0142-beta.py:781-798 | `del`/`remove` takes away exactly the first match |
| V0142.Ids | tests/v0142-beta.py:719-803 | the IDs of the parts, in order |
| V0142.IdsConcat | tests/v0142-beta.py:719-803 | the IDs of two lists concatenate |
| V0142.IdsDelete | tests/v0142-beta.py:776-803 | deleting one element drops exactly its ID |
| V0142.IdsUpdate | tests/v0142-beta.py:725-733 | updating a part in place under its ID keeps the IDs |
| V0142.IdsWithoutFirst | tests/v0142-beta.py:776-803 | removing the first match drops one copy of the ID |
| V0142.PartsOfAppend | tests/v0142-beta.py:682-717 | the parts of the boxes concatenate box by box |
| V0142.PackSpec | tests/v0142-beta.py:697-707 | packing keeps the closed boxes as a prefix, leaves the current box not full (capacity ≥ 1) holding the part last, and numbers a new box `len(closed) + 1` |
| V0142.Pack | tests/v0142-beta.py:697-707 | packing keeps the closed boxes as a prefix and archives at most two boxes |
| V0142.KnownSplit | tests/v0142-beta.py:686-688 | an ID is known iff it is in either list |
| V0142.AddPart | tests/v0142-beta.py:682-717 | a known ID is refused unchanged; otherwise the validated part goes to exactly the list of its verdict, and an approved one is packed |
| V0142.AddKeepsStock | tests/v0142-beta.py:682-717 | adding keeps every part in the list of its verdict and packs an approved one into a box that is not full |
| V0142.RemoveKey | tests/v0142-beta.py:776-803 | succeeds iff known; approved: leaves approved and the current box; else the first rejected match goes; closed boxes never change |
| V0142.WithoutFirstIn | tests/v0142-beta.py:776-803 | removal keeps only parts that were there |
| V0142.UpdateIn | tests/v0142-beta.py:719-774 | an in-place update keeps the other parts and adds only the edited one |
| V0142.IdsAfterDelete | tests/v0142-beta.py:776-803 | deleting from one list drops exactly one copy of the ID from both lists together |
| V0142.RemoveKeepsStock | tests/v0142-beta.py:776-803 | removal keeps every part in the list of its verdict and drops exactly one copy of the ID |
| V0142.EditKey | tests/v0142-beta.py:719-774 | succeeds iff the ID is known; failure changes nothing; closed boxes never change; the number of parts is kept |
| V0142.Revised | tests/v0142-beta.py:727-733 | the revised part takes the new weight, lower-cased colour and length, keeps the rest, and is approved exactly when all three checks pass and exactly when it has no reasons |
| V0142.EditedPart | tests/v0142-beta.py:719-758 | the edited part has the ID, the new weight, lower-cased colour and length, and the verdict of the checks |
| V0142.IdsMovedOut | tests/v0142-beta.py:725-747 | moving an edited part from approved to rejected keeps the IDs |
| V0142.IdsMovedIn | tests/v0142-beta.py:750-769 | moving an edited part from rejected to approved keeps the IDs |
| V0142.EditKeepsIds | tests/v0142-beta.py:719-774 | editing keeps the multiset of IDs |
| V0142.EditKeepsFlagged | tests/v0142-beta.py:719-774 | the edited part has the new measurements, is revalidated, and ends in the list of its new verdict; every part stays in the list of its verdict |
| V0142.EditLands | tests/v0142-beta.py:719-774 | the edited part ends in the list of its new verdict |
| V0142.EditLandsFromApproved | tests/v0142-beta.py:725-747 | the same when the part was approved |
| V0142.EditLandsFromRejected | tests/v0142-beta.py:750-769 | the same when the part was rejected |
| V0142.EditCanFillBox | tests/v0142-beta.py:750-769 | a rejected part approved by an edit into the last free slot leaves the current box full and closed, with no rollover |
| V0142.SelectSnoc | tests/v0142-beta.py:805-836 | the search loop extends its result one part at a time |
| V0142.Selected | tests/v0142-beta.py:811-834 | with no filter every part is selected; a selected part under a date filter raises nothing; a status filter selects only parts of that verdict |
| V0142.Select | tests/v0142-beta.py:805-836 | a search that succeeds finds no more parts than it searched, each one in the list and selected |
| V0142.SelectRaises | tests/v0142-beta.py:805-836 | the search fails iff some part's day cannot be parsed under a date filter |
| V0142.SelectMembers | tests/v0142-beta.py:805-836 | a part is found iff it is in the list and meets every given filter |
| V0142.SelectConcat | tests/v0142-beta.py:805-836 | searching a concatenation concatenates the results, keeping order |
| V0142.SelectStops | tests/v0142-beta.py:805-836 | once a part fails to parse, the whole search fails |
| V0142.ApprovedOf | tests/v0142-beta.py:841-848 | the approved parts of a list |
| V0142.RejectedOf | tests/v0142-beta.py:841-848 | the rejected parts of a list |
| V0142.PartitionSizes | tests/v0142-beta.py:841-848 | the two partitions add up to the list |
| V0142.PartitionRuns | tests/v0142-beta.py:841-848 | partitioning approved-then-rejected gives back the two runs |
| V0142.PartitionApproved | tests/v0142-beta.py:841-848 | an all-approved list partitions into itself and nothing |
| V0142.Marks | tests/v0142-beta.py:853-864 | one (shift, verdict) pair per part |
| V0142.ReportCovers | tests/v0142-beta.py:838-900 | with no filter the counts are the full lists; with a filter they are the found parts split by verdict, with the newest 10 rejected |
| V0142.SearchSplits | tests/v0142-beta.py:841-848 | the found parts split by verdict are the searches of each list |
| V0142.ReportConsistent | tests/v0142-beta.py:838-900 | totals add up, the rate lies in 0..100, shift rows balance and count each shift, each label counts its reasons |
| V0142.ReportOf | tests/v0142-beta.py:838-900 | no report exactly when a described box has capacity 0 or a filtered search raises; otherwise stamped now with the given filters |
| V0142.ReportOn | tests/v0142-beta.py:838-900 | the counts are the given lists' lengths, inspected is the parts reported on, complete boxes are the closed ones, with at most 10 rejected in detail |
| V0142.TallyShifts | tests/v0142-beta.py:853-864 | the shift loop gives the shift table |
| V0142.TallyReasons | tests/v0142-beta.py:866-875 | the reason loop gives the histogram |
| V0142.Ledger.constructor | tests/v0142-beta.py:514-527 | the ledger holds what was loaded |
| V0142.Ledger.PackPart | tests/v0142-beta.py:697-707 | the boxes become what packing gives |
| V0142.Ledger.Add | tests/v0142-beta.py:682-717 | the ledger and result are as `AddPart` gives, with the source's messages |
| V0142.Ledger.Edit | tests/v0142-beta.py:719-774 | the ledger is as `EditKey` on the normalised ID gives, with the source's messages |
| V0142.Ledger.EditByKey | tests/v0142-beta.py:719-774 | the ledger becomes what `EditKey` gives |
| V0142.Ledger.ReviseApproved | tests/v0142-beta.py:725-747 | an approved part stays in place, or moves to rejected and leaves the current box |
| V0142.Ledger.ReviseRejected | tests/v0142-beta.py:750-769 | a rejected part stays in place, or moves to approved and into the current box without rollover |
| V0142.Ledger.Remove | tests/v0142-beta.py:776-803 | the ledger is as `RemoveKey` on the normalised ID gives, with the source's messages |
| V0142.Ledger.RemoveByKey | tests/v0142-beta.py:776-803 | the ledger becomes what `RemoveKey` gives |
| V0142.Ledger.Search | tests/v0142-beta.py:805-836 | returns the search of approved followed by rejected |
| V0142.Ledger.GenerateReport | tests/v0142-beta.py:838-900 | returns the report on the search |
| V0142.Accounts.constructor | tests/v0142-beta.py:203-247 | the store is the loaded one, or the default admin, with its key order |
| V0142.Accounts.Authenticate | tests/v0142-beta.py:249-274 | as `Users.Login`; the key order is kept |
| V0142.Accounts.CreateUser | tests/v0142-beta.py:276-302 | as `Users.Create` with the two levels; a new name goes last |
| V0142.Accounts.EditUser | tests/v0142-beta.py:304-335 | as `Users.Edit` (the corrected edit; see ## Findings); a renamed user moves to the end of the key order |
| V0142.Accounts.ResetPassword | tests/v0142-beta.py:337-353 | as `Users.ResetPassword` |
| V0142.Accounts.RemoveUser | tests/v0142-beta.py:355-370 | as `Users.Remove`; the name leaves the key order |
| V0142.Accounts.ListUsers | tests/v0142-beta.py:372-385 | one row per user in key order, listing every user |

## Left out

- The user interface: the login, main and dashboard screens, widgets, message boxes, file dialogs and the session timeout. `escurecer_cor` and the permission wrapper are kept.
- PDF report generation and the text layout of the report screens. The v0.12 screen's approval rate and reason histogram are kept.
- Dependency installation and process restarts.
- The automatic backup thread, `fazer_backup`, `registrar_log` and the configuration file (`ConfiguracaoSistema`). The configuration is a parameter.
- File reads and writes, and JSON and CSV serialisation. Documents are `Json.Value`s and CSV rows are sequences of strings. A file is missing, malformed or parsed. `exportar_relatorio_json` only writes the report and is not modelled.
- v0.12 persistence (tests/v012.py:330-396) and v0.14.2 persistence (tests/v0142-beta.py:529-632). Their ledgers start from a loaded ledger and do not save. Their documents differ from v0.14.1's. A v0.12 part stores no shift (`turno`), and a v0.12 box stores no capacity or creation date (tests/v012.py:258-312). A v0.14.2 part also stores its inspection day, `data_inspecao` (tests/v0142-beta.py:450, 544).
- main.py is not part of this model.
- Floating point: weights and lengths are exact reals. Each carries the text Python prints for it, which the reason texts use. `round(…, 2)` is not modelled: the approval rate and the report's `percentual_cheio` are exact, unrounded reals, and the report's division by a zero capacity is modelled. The `percentual_cheio` field that `Caixa.to_dict` writes is left out of the encoded box documents.
- bcrypt: an ideal salted hash, where a stored hash verifies exactly the password it was made from. The salt is a parameter.
- `datetime.now`, `strftime` and `strptime`: timestamps, hours and days are parameters. Parsing a date is a caller-supplied function that may fail.
- Whitespace is modelled for ASCII and Latin-1 characters only.
- Text.Lower: maps only the Latin-1 capitals. Every other character is left unchanged, though Python's `lower()` also maps Greek, Cyrillic and other capitals.
- Text.Upper: maps only the Latin-1 small letters (with ÿ, µ and ß, whose capitals lie outside Latin-1). Every other character is left unchanged, though Python's `upper()` also maps other small letters.
- V010.DecodePart, V010.DecodeBox, V0141.StoredPart, V0141.DecodeBox: decode only the JSON value types the program itself writes. Weights and lengths must be floats, the verdict a boolean, box numbers and capacities integers. Python also loads a stored integer weight such as `10`, or `1` as a verdict; the model treats such a document as malformed.
- The broad `except` branches that turn an unexpected exception into an "Erro" message. Exceptions the code does reach are modelled: the report's division by a zero capacity, an unparsable date, and a malformed pecas.json or caixas.json.
- Audit.AuditLog.Record: always appends. `registrar_auditoria` (tests/v014-beta.py:148-168) reads, appends and writes auditoria.json inside a bare `except: pass`, so when that file exists but is not valid JSON or holds something other than a list, the program drops the new entry, and every later one until the file is replaced; the model keeps the trail as the list and does not represent an unreadable audit file.
- Aliasing of part objects between the lists and the boxes. In v0.14.2 `editar_peca` changes a part that a box also holds; the model updates the lists and the current box as separate values.
- Shade.Darken: Python's `int(…, 16)` also accepts a sign, surrounding whitespace or an underscore; the model treats only six hex digits as a colour.
- v0.12 `escurecer_cor` (tests/v012.py:650-655) has no length check and no `try`; only the later helper is modelled.

## Findings

| source | as written | input that shows it | evidently intended | confidence | as-written member | corrected member |
|---|---|---|---|---|---|---|
| tests/v0142-beta.py:318-327 | on a rename the old record is deleted before `data_criacao` and `ultimo_login` are read from it, so both fall back to now and None | rename a user who has logged in before to a free name | the edited record keeps its creation date and last login | high (not executed) | Users.RenameForgetsHistory | Users.EditKeepsHistory |
