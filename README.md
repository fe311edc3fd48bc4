# SeatMaster seating and question-paper demand, modelled in Dafny

SeatMaster seats an exam roster in the selected rooms and works out how many
question papers (QPs) each room needs. It then assembles one PDF bundle of
papers per room. This project models the deterministic core of that engine
and proves its properties:

- **Subject normalisation** (`normalize_subject`). This is the join key for
  every subject comparison. A missing cell becomes `""`; any other value is
  stripped of surrounding whitespace and upper-cased. Module `Utils`.
- **Seat grid** (`generate_seating`). Each selected room's bench range
  `Start..End` is expanded into slots in a block-interleaved order: all
  `Left` slots first, then all `Right`, then all `Center`. Within a
  position, rooms follow selection order and benches run upwards. Roster row
  *i* goes into slot *i*, and slots past the roster get the `"-"` sentinel in
  every field. The chosen day's column is split on commas; the non-blank
  pieces are normalised and joined with `", "`. The slots are then pivoted
  into a Room × Bench grid ordered by selection order and bench. Module
  `Seating`.
- **Demand summaries** (`generate_summaries`). Every slot's `Subjects` value
  is flattened into one (room, bench, seat, subject) detail row per token.
  From those rows come a per-room summary (seated students, sorted distinct
  subjects), a per-(room, subject) count with its `bench-seat` locations,
  and the hall summary. Module `QpSummaries`.
- **Room bundles** (`generate_room_pdfs`). For each room, the room's
  subjects are counted. Each subject resolves to a QP code through the first
  mapping row with that name. The room's bundle receives `count` copies of
  that code's uploaded pages. A subject without a code or without an upload
  raises a warning instead. The resolved rows are grouped into an audit
  table with a per-room total. Module `QpBundles`.
- `Collections` and `Text` model the Python and pandas building blocks used
  by the core:
  - first-occurrence lookup;
  - `sorted(set(...))` and the key order of `groupby`;
  - grouped sums;
  - `str.split`, `", ".join`, string order and `f"{int}"`.

Tables are sequences of records. A PDF is a sequence of opaque pages, and
`uploaded_qps` is a map from QP code to pages. `st.warning` calls become a
returned list of warnings. NaN cells are `Cell.Missing`, and NaN pivot cells
are `None`.

The loops of the source are methods with loop invariants, each proved equal
to a specification function:
- the bench map (`Benches`);
- the slot list (`Layout`);
- the student assignment (`Assign`);
- the detail table (`DetailRows`);
- the room summary (`Summaries`);
- the page-copy and per-subject loops of a room (`Repeat`, `BundlePages`,
  `BundleAudit`, `BundleWarnings`);
- the room loop of the bundles (`RoomPdfs`, `RawAudit`, `AllWarnings`).

`value_counts` is a pandas call, not a loop of the source. `ValueCounts`
computes it with a selection loop proved to satisfy the relation
`IsValueCounts`: each distinct subject once, with its exact count, in
non-increasing count order. It is not proved equal to a function, because
the order of ties is open. The pandas reshapes that have no loop in the
source are modelled directly as functions: the pivot (`Pivot`), the two
groupbys (`QpCounts`, `HallSummary`) and the audit table (`AuditTable`). The
lemmas below state what those functions guarantee.

Two choices follow from the code:

- **Selected rooms must be distinct.** `GenerateSeating` requires this
  because `pd.Categorical` (SeatMaster/seating.py:56) raises on repeated
  categories, so a repeated room would be rejected.
- **The mapping's subject names are not assumed to be normalised.** The
  lookup is an exact comparison, and `UnnormalisedNamesNeverMatch` shows
  that an unnormalised name can never match a detail row.

One subtlety of the code is kept as written. A day value whose only
non-blank token normalises to `"-"` gives the slot `Subjects == "-"`.
`generate_summaries` then skips that slot as if it were empty.
`SeatingSlotDetail` states this case explicitly.

`value_counts` orders subjects by count and leaves the order of ties
unspecified. `ValueCounts` therefore returns *some* descending-count order.
`GenerateRoomPdfs` reports the chosen orders as a ghost output, and
everything proved about bundles holds for any such order.

## Model

| member | source | states |
|---|---|---|
| Utils.NormalizeSubject | SeatMaster/utils.py:10-14 | a missing cell gives `""`; any other value gives a string with no surrounding whitespace and no lower-case letter, no longer than the input |
| Utils.StripLeft | SeatMaster/utils.py:14 | the result is a suffix of the input; everything removed is whitespace; the result does not start with whitespace |
| Utils.StripRight | SeatMaster/utils.py:14 | the result is a prefix of the input; everything removed is whitespace; the result does not end with whitespace |
| Utils.Strip | SeatMaster/utils.py:14 | `str.strip()` leaves no leading or trailing whitespace |
| Utils.StripInfix | SeatMaster/utils.py:14 | the stripped string is an infix of the input with only whitespace on either side |
| Utils.UpperChar | SeatMaster/utils.py:14 | an upper-cased character is not lower-case and is whitespace exactly when the original is |
| Utils.Upper | SeatMaster/utils.py:14 | upper-casing keeps the length and leaves no lower-case letter |
| Utils.Normalize | SeatMaster/utils.py:14 | `str(s).strip().upper()` is trimmed, has no lower-case letter and is no longer than its input |
| Utils.UpperTrimmed | SeatMaster/utils.py:14 | upper-casing a trimmed string keeps it trimmed |
| Utils.StripTrimmed | SeatMaster/utils.py:14 | stripping a trimmed string changes nothing |
| Utils.UpperNoLower | SeatMaster/utils.py:14 | upper-casing a string without lower-case letters changes nothing |
| Utils.NormalizeFixesNormalized | SeatMaster/utils.py:14 | a normalised string is a fixed point of normalisation |
| Utils.NormalizeIdempotent | SeatMaster/utils.py:14 | normalising twice equals normalising once |
| Utils.NormalizeSubjectIdempotent | SeatMaster/utils.py:10-14 | `normalize_subject` applied to its own result returns that result, for missing and present cells |
| Utils.StripLeftAllSpace | SeatMaster/utils.py:14 | left-stripping gives `""` exactly when the string is all whitespace |
| Utils.NormalizeEmpty | SeatMaster/utils.py:14 | an empty or all-whitespace string, and only such a string, normalises to `""` |
| Utils.StripLeftPadding | SeatMaster/utils.py:14 | left-stripping ignores leading whitespace padding |
| Utils.StripRightPadding | SeatMaster/utils.py:14 | right-stripping ignores trailing whitespace padding |
| Utils.StripLeftOfRightPadded | SeatMaster/utils.py:14 | trailing padding survives left-stripping of a string with visible content |
| Utils.StripIgnoresPadding | SeatMaster/utils.py:14 | stripping ignores whitespace added on both sides |
| Utils.NormalizeIgnoresPadding | SeatMaster/utils.py:14 | normalisation ignores surrounding whitespace (`" abc "` and `"abc"` agree) |
| Utils.StripLeftUpper | SeatMaster/utils.py:14 | left-stripping and upper-casing commute |
| Utils.StripRightUpper | SeatMaster/utils.py:14 | right-stripping and upper-casing commute |
| Utils.UpperIdempotent | SeatMaster/utils.py:14 | upper-casing twice equals upper-casing once |
| Utils.NormalizeIgnoresCase | SeatMaster/utils.py:14 | strings that agree after upper-casing normalise alike (`"abc"` and `"ABC"` agree) |
| Utils.StripKeepsChars | SeatMaster/utils.py:14 | stripping introduces no character |
| Utils.UpperKeepsComma | SeatMaster/utils.py:14 | upper-casing introduces no comma |
| Utils.NormalizeNoComma | SeatMaster/utils.py:14 | normalising a comma-free piece keeps it comma-free, so a normalised token never splits again |
| Text.Split | SeatMaster/qp_arrange.py:15 | `str.split(",")` gives at least one piece, no piece contains the separator, and re-joining the pieces gives back the input |
| Text.SplitPrefix | SeatMaster/qp_arrange.py:15 | a separator-free prefix is glued onto the first piece of the rest |
| Text.SplitJoin | SeatMaster/qp_arrange.py:15 | splitting a join of separator-free pieces returns those pieces |
| Text.SpaceLed | SeatMaster/seating.py:34 | prefixing every piece but the first with a space keeps the number of pieces |
| Text.JoinCommaSpace | SeatMaster/seating.py:34 | joining with `", "` equals joining the space-led pieces with `","` |
| Text.JoinLeadingSpace | SeatMaster/seating.py:34 | a leading space on the first piece becomes a leading space of the join |
| Text.SplitCommaSpaceJoin | SeatMaster/qp_arrange.py:15 | splitting a `", "`-join on `","` returns the pieces, each after the first with its leading space |
| Text.StrLtIrreflexive | SeatMaster/qp_arrange.py:35 | no string sorts before itself |
| Text.StrLtTransitive | SeatMaster/qp_arrange.py:35 | Python's string order is transitive |
| Text.StrLtTotal | SeatMaster/qp_arrange.py:35 | any two different strings are ordered one way |
| Text.StrLtIsStrictTotalOrder | SeatMaster/qp_arrange.py:35 | the order `sorted` uses on strings is a strict total order |
| Text.IntLtIsStrictTotalOrder | SeatMaster/seating.py:57 | the bench order is a strict total order |
| Text.NatToString | SeatMaster/qp_arrange.py:47 | a natural number prints as a non-empty string of digits |
| Text.IntToString | SeatMaster/qp_arrange.py:47 | `f"{b}"` is a non-empty string of digits and minus signs, so a location never contains a comma |
| Collections.IndexOf | SeatMaster/qp_arrange.py:82-86 | the first index holding `x`, or the length when `x` is absent (`matched[0]`, pivot `first`, `.iloc[0]`) |
| Collections.IndexOfDistinct | SeatMaster/seating.py:47 | in a duplicate-free sequence the first occurrence of element `k` is at `k` |
| Collections.IndexOfPrefix | SeatMaster/qp_arrange.py:82-86 | an element present in a prefix is first found inside that prefix |
| Collections.InsertSorted | SeatMaster/qp_arrange.py:35 | inserting into a sorted-unique list adds exactly the new value |
| Collections.SortedDistinct | SeatMaster/qp_arrange.py:35 | `sorted(set(xs))` holds exactly the values of `xs` |
| Collections.InsertSortedIncreasing | SeatMaster/qp_arrange.py:35 | inserting keeps the list strictly increasing |
| Collections.SortedDistinctIncreasing | SeatMaster/qp_arrange.py:35 | `sorted(set(xs))` is strictly increasing and has no repeats |
| Collections.KeySumSnoc | SeatMaster/qp_arrange.py:43-45 | a new row adds its weight to its group's total and to no other |
| Collections.KeySumCoversEntries | SeatMaster/qp_arrange.py:43-45 | adding up the per-group totals over all group keys gives the total over all rows |
| Collections.KeySumOfNothing | SeatMaster/qp_arrange.py:43-45 | with no rows every group total is zero |
| Seating.SeatRank | SeatMaster/seating.py:6 | each seat position has its index in `["Left", "Right", "Center"]` |
| Seating.SeatRankOf | SeatMaster/seating.py:6 | the index of the seat at position `k` is `k` |
| Seating.RoomNames | SeatMaster/seating.py:12 | the `Room` column has one entry per room-table row |
| Seating.FirstRowIndex | SeatMaster/seating.py:12 | `.iloc[0]` of the rows of a room picks the first room-table row with that name |
| Seating.BenchesPerRoom | SeatMaster/seating.py:10-14 | `room_benches` maps every selected room to `range(Start, End + 1)` from its first table row |
| Seating.AppendBenches | SeatMaster/seating.py:19-20 | appends one slot per bench of the room at the given seat, in bench order |
| Seating.AppendRooms | SeatMaster/seating.py:18-20 | appends the benches of every selected room, in selection order, at one seat |
| Seating.RoomBlocksStep | SeatMaster/seating.py:18-20 | one more room extends the slot list by exactly that room's bench block |
| Seating.InterleavePlaces | SeatMaster/seating.py:17-20 | the triple loop builds exactly the interleaved layout |
| Seating.AssignStudents | SeatMaster/seating.py:25-38 | slot `i` keeps its place and carries roster row `i`'s class number, name and subjects field; slots past the roster are `"-"` in all three fields |
| Seating.GenerateSeating | SeatMaster/seating.py:4-59 | the slot table has the interleaved layout's places, the room capacity as its length and the roster assigned in order; the grid is the pivot of those slots |
| Seating.RoomBlocksLength | SeatMaster/seating.py:17-20 | the slots at one seat number a third of the capacity |
| Seating.SeatBlocksLength | SeatMaster/seating.py:17-20 | the slots of `n` seat positions number `n` thirds of the capacity |
| Seating.LayoutLength | SeatMaster/seating.py:10-20 | the slot count is the sum over selected rooms of `3 * max(0, End - Start + 1)` from the first table row |
| Seating.RoomBlocksMembers | SeatMaster/seating.py:18-20 | a place occurs at one seat exactly when its room is selected and its bench is in the room's range |
| Seating.SeatBlocksMembers | SeatMaster/seating.py:17-20 | a place occurs exactly when its seat is among those iterated, its room is selected and its bench is in range |
| Seating.LayoutMembers | SeatMaster/seating.py:17-20 | the layout holds exactly the (room, bench, seat) places of the selected rooms' bench ranges |
| Seating.ConcatOrdered | SeatMaster/seating.py:17-20 | two ordered slot runs, each wholly before the other in order, concatenate to an ordered run |
| Seating.RoomBlocksOrdered | SeatMaster/seating.py:18-20 | at one seat, slots follow room selection order and then ascending bench |
| Seating.SeatBlocksOrdered | SeatMaster/seating.py:17-20 | the slots of the first seat positions are in interleaved order |
| Seating.EarlierSeatBefore | SeatMaster/seating.py:6 | a slot at an earlier seat position precedes every slot at the next one |
| Seating.LayoutOrdered | SeatMaster/seating.py:6-20 | slots run seat position first (Left, Right, Center), then room in selection order, then bench ascending; with distinct rooms every (room, bench, seat) occurs exactly once |
| Seating.KeepTokens | SeatMaster/seating.py:33 | the kept tokens are no more than the pieces, and each is non-empty, normalised and comma-free |
| Seating.SubjectTokens | SeatMaster/seating.py:33 | every subject written from a day value is non-empty, normalised and comma-free |
| Seating.PlacesOfAssign | SeatMaster/seating.py:25-38 | assigning students changes no slot's room, bench or seat |
| Seating.CountFilledAssign | SeatMaster/seating.py:25-38 | the filled slots number the smaller of the roster size and the slot count |
| Seating.SeatedCount | SeatMaster/seating.py:25-26 | `min(len(students), capacity)` slots hold a student; surplus students are dropped without error |
| Seating.SubjectsFieldShape | SeatMaster/seating.py:31-36 | `Subjects` is `"-"` without a day or with a missing value; otherwise it is `"-"` or the `", "`-join of a non-empty list of normalised tokens |
| Seating.BenchesIn | SeatMaster/seating.py:43-44 | the benches listed for a room are exactly those some slot of that room sits on |
| Seating.RoomGridRows | SeatMaster/seating.py:43-48 | every grid row of a room belongs to that room and to a bench some slot occupies |
| Seating.PivotRooms | SeatMaster/seating.py:43-57 | every pivot row is for a selected room and a bench some slot occupies |
| Seating.RoomGridHasRow | SeatMaster/seating.py:43-48 | every occupied bench of a room has a row in the room's grid |
| Seating.PivotHasRow | SeatMaster/seating.py:43-57 | every occupied bench of a selected room has a pivot row |
| Seating.PivotKeys | SeatMaster/seating.py:43-57 | the pivot has a row for (room, bench) exactly when the room is selected and some slot sits there |
| Seating.RoomGridOrdered | SeatMaster/seating.py:57 | a room's grid rows run by ascending bench |
| Seating.GridConcatOrdered | SeatMaster/seating.py:56-57 | two ordered grid runs, the first wholly before the second, concatenate to an ordered run |
| Seating.PivotOrderedPrefix | SeatMaster/seating.py:56-57 | the grid of the first selected rooms is ordered by room selection order, then bench |
| Seating.PivotOrdered | SeatMaster/seating.py:56-57 | the categorical sort orders grid rows by room selection order, then ascending bench, with each (room, bench) once |
| Seating.SeatingGridCells | SeatMaster/seating.py:43-54 | every grid row of the generated seating has all of Left, Center and Right filled, and the cell of each slot's seat holds that slot's `Class No` |
| Seating.LayoutCellFilled | SeatMaster/seating.py:43-48 | every seat of an existing bench of a selected room has a pivot value |
| Seating.LayoutCellIs | SeatMaster/seating.py:43-48 | the value at a slot's own place is that slot's `Class No` |
| Seating.PivotCellsAre | SeatMaster/seating.py:43-48 | each grid cell is the `Class No` of the first slot at that room, bench and seat (`aggfunc="first"`), or empty |
| Seating.RoomGridCellsAre | SeatMaster/seating.py:43-48 | the same for the rows of one room's grid |
| QpSummaries.RowsFor | SeatMaster/qp_arrange.py:15-18 | one detail row per token of the slot |
| QpSummaries.SubjectsOf | SeatMaster/qp_arrange.py:18 | the subject column has one entry per detail row |
| QpSummaries.NormalizedTokens | SeatMaster/qp_arrange.py:15-17 | the split-normalise-keep loop yields the non-empty normalised pieces of `Subjects` |
| QpSummaries.DetailTable | SeatMaster/qp_arrange.py:13-19 | the detail table is, in slot order and then token order, one row per token of every slot whose `Subjects` is not `"-"` |
| QpSummaries.SummaryRow | SeatMaster/qp_arrange.py:25-36 | a room's summary row is its filled-slot count and its sorted distinct subjects joined by `", "` |
| QpSummaries.Summaries | SeatMaster/qp_arrange.py:24-36 | one summary row per selected room |
| QpSummaries.SummariesStep | SeatMaster/qp_arrange.py:24-36 | each further room appends its own summary row, in selection order |
| QpSummaries.GenerateSummaries | SeatMaster/qp_arrange.py:8-66 | returns the detail table, one summary per selected room in order, the grouped counts of that detail table and the hall summary of the same |
| QpSummaries.NormalizedPiecesAgree | SeatMaster/qp_arrange.py:15-17 | over comma-free pieces, keeping non-empty normalised pieces equals the writer's keep-the-non-blank filter |
| QpSummaries.DetailTokensAgree | SeatMaster/qp_arrange.py:15-17 | the tokens read back from any `Subjects` string are the tokens the seating code would write for it |
| QpSummaries.NormalizeLeadingSpace | SeatMaster/qp_arrange.py:16 | normalising `" " + t` returns a normalised `t` |
| QpSummaries.NormalizedPiecesEach | SeatMaster/qp_arrange.py:15-17 | pieces that each normalise to a non-empty token yield exactly those tokens |
| QpSummaries.NormalizedSpaceLed | SeatMaster/qp_arrange.py:15-17 | reading the space-led pieces of written tokens returns those tokens |
| QpSummaries.DetailTokensOfJoin | SeatMaster/qp_arrange.py:15-17 | round trip: splitting and normalising a `", "`-join of subject tokens returns the same tokens |
| QpSummaries.SeatingSlotDetail | SeatMaster/qp_arrange.py:13-19 | a generated slot yields detail rows at its own room, bench and seat, whose subjects are exactly the student's day tokens, or none when the slot is empty or its only token is `"-"` |
| QpSummaries.NormalizedPiecesNormalized | SeatMaster/qp_arrange.py:16-17 | every kept token is non-empty and normalised |
| QpSummaries.DetailRowsNormalized | SeatMaster/qp_arrange.py:16-18 | every detail subject is non-empty and normalised |
| QpSummaries.SubjectsInConcat | SeatMaster/qp_arrange.py:74 | a room's subjects in concatenated tables are the concatenation |
| QpSummaries.SubjectsInRowsFor | SeatMaster/qp_arrange.py:74 | a slot contributes its tokens to its own room only |
| QpSummaries.RoomSubjectsFromDetail | SeatMaster/qp_arrange.py:27-31 | the room summary's subject list equals the detail table's subjects for the room |
| QpSummaries.SubjectsInMembers | SeatMaster/qp_arrange.py:74 | a subject is listed for a room exactly when some detail row of the room has it |
| QpSummaries.SubjectsInRoomSorted | SeatMaster/qp_arrange.py:35 | `Subjects in Room` lists, strictly ascending and without repeats, exactly the subjects of the room's detail rows |
| QpSummaries.FilledEntries | SeatMaster/qp_arrange.py:34 | one (room, filled?) entry per slot |
| QpSummaries.FilledInWeight | SeatMaster/qp_arrange.py:34 | a room's `Total Students` is its group total of filled slots |
| QpSummaries.CountFilledWeight | SeatMaster/qp_arrange.py:34 | the filled slots are the total of all filled entries |
| QpSummaries.SummariesTotal | SeatMaster/qp_arrange.py:34 | the summary totals add up to the per-room group totals |
| QpSummaries.RoomTotalsAddUp | SeatMaster/qp_arrange.py:34 | with distinct rooms covering every slot, `Total Students` adds up to the number of filled slots |
| QpSummaries.SeatingRoomTotals | SeatMaster/qp_arrange.py:34 | for a generated seating, `Total Students` adds up to `min(len(students), capacity)` |
| QpSummaries.KeyLtIsStrictTotalOrder | SeatMaster/qp_arrange.py:50 | (Room, Subject) order is a strict total order |
| QpSummaries.RowKeys | SeatMaster/qp_arrange.py:49 | one key per count row |
| QpSummaries.RowKeysCountRows | SeatMaster/qp_arrange.py:43-49 | the count rows carry exactly the given keys, in order |
| QpSummaries.QpCountsKeys | SeatMaster/qp_arrange.py:41-51 | the count table's keys are the groupby keys, strictly ascending by (Room, Subject), and they are exactly the keys of the detail rows |
| QpSummaries.GroupKeysIncreasing | SeatMaster/qp_arrange.py:43 | groupby keys are strictly ascending |
| QpSummaries.GroupKeysCover | SeatMaster/qp_arrange.py:43 | every groupby key comes from a detail row and every detail row's key is a groupby key |
| QpSummaries.LocationsCount | SeatMaster/qp_arrange.py:45-47 | a key has as many locations as detail rows |
| QpSummaries.NeededPositive | SeatMaster/qp_arrange.py:45 | `QP_Needed` is positive exactly when some detail row has the key |
| QpSummaries.LocationHasNoComma | SeatMaster/qp_arrange.py:47 | a `bench-seat` location contains no comma |
| QpSummaries.LocationsHaveNoComma | SeatMaster/qp_arrange.py:47 | no location of a key contains a comma |
| QpSummaries.CountRowLocations | SeatMaster/qp_arrange.py:45-47 | every count row has a positive `QP_Needed`, and its `Bench_Seat_Locations` splits on `","` into exactly that many entries |
| QpSummaries.CountRowsTotal | SeatMaster/qp_arrange.py:45 | the count rows' `QP_Needed` total equals the per-key group totals |
| QpSummaries.SumWhereOnes | SeatMaster/qp_arrange.py:45 | counting weight 1 per detail row gives the row count |
| QpSummaries.NeededAddsUp | SeatMaster/qp_arrange.py:41-53 | `QP_Needed` summed over the count table equals the number of detail rows |
| QpSummaries.HallMatchesCounts | SeatMaster/qp_arrange.py:41-64 | the hall summary has the count table's keys in the same order with `Total QPs Needed == QP_Needed`, and both are empty exactly when there are no detail rows |
| QpBundles.Ones | SeatMaster/qp_arrange.py:78 | one (subject, 1) entry per value counted |
| QpBundles.CountKeys | SeatMaster/qp_arrange.py:81 | one subject per count entry |
| QpBundles.MaxExists | SeatMaster/qp_arrange.py:78 | some remaining subject has the highest count |
| QpBundles.CountKeysSnoc | SeatMaster/qp_arrange.py:81 | adding an entry adds its subject |
| QpBundles.PickStep | SeatMaster/qp_arrange.py:78 | taking a remaining subject of highest count keeps the counts a descending, duplicate-free, exact count of the values seen so far |
| QpBundles.ValueCounts | SeatMaster/qp_arrange.py:78 | lists every distinct subject once with its exact number of occurrences, in non-increasing count order |
| QpBundles.OnesTotal | SeatMaster/qp_arrange.py:78 | the unit entries add up to the number of values |
| QpBundles.CountsTotalIsKeySum | SeatMaster/qp_arrange.py:78 | exact counts add up to the per-subject group totals |
| QpBundles.ValueCountsTotal | SeatMaster/qp_arrange.py:78 | the counts add up to the number of the room's detail rows |
| QpBundles.OccSubjectsIn | SeatMaster/qp_arrange.py:74-78 | a subject's occurrences in a room's rows equal that (room, subject)'s `QP_Needed` |
| QpBundles.OccSnoc | SeatMaster/qp_arrange.py:78 | one more value adds one to its own count only |
| QpBundles.ValueCountsAreNeeded | SeatMaster/qp_arrange.py:74-78 | the count used for a room's subject equals that (room, subject)'s `QP_Needed` |
| QpBundles.Names | SeatMaster/qp_arrange.py:82 | one `Subject Name` per mapping row |
| QpBundles.ResolveCode | SeatMaster/qp_arrange.py:82-86 | no code exactly when no mapping row has the subject's name; otherwise the code of the first row that does |
| QpBundles.AppendCopies | SeatMaster/qp_arrange.py:92-94 | the nested add-page loops append `count` consecutive copies of the source pages |
| QpBundles.RoomBundle | SeatMaster/qp_arrange.py:81-102 | the per-subject loop yields the room's bundle pages, audit rows and warnings |
| QpBundles.BuildBundles | SeatMaster/qp_arrange.py:73-108 | the room loop yields `room_pdfs`, the raw audit rows and the warnings for the subject counts it chose, each a `value_counts` of its room |
| QpBundles.AllValueCountsSnoc | SeatMaster/qp_arrange.py:73-78 | a further room's subject count extends the record of counts |
| QpBundles.FoldStep | SeatMaster/qp_arrange.py:73-108 | one more room adds its bundle (when non-empty), its warnings and its audit rows |
| QpBundles.GenerateRoomPdfs | SeatMaster/qp_arrange.py:68-126 | nothing is produced unless the mapping is present, the detail table is non-empty and uploads exist; otherwise the PDFs, warnings and audit table are those of the room loop |
| QpBundles.RepeatLength | SeatMaster/qp_arrange.py:92-94 | `count` copies have `count * |source|` pages |
| QpBundles.RepeatAdd | SeatMaster/qp_arrange.py:92-94 | `a + b` copies are `a` copies followed by `b` copies |
| QpBundles.BundleIsAuditPages | SeatMaster/qp_arrange.py:81-102 | a room's bundle is, audit row by audit row, `Students` copies of that code's uploaded pages in order, and nothing else |
| QpBundles.ResolvedIsUploaded | SeatMaster/qp_arrange.py:86-91 | a resolved subject's code is an upload key and its pages are that upload |
| QpBundles.AuditPagesLength | SeatMaster/qp_arrange.py:92-94 | those pages number the sum of `Students * |source|` |
| QpBundles.BundleLength | SeatMaster/qp_arrange.py:81-102 | a room's page count is the sum over resolved subjects of `count * |source pages|` |
| QpBundles.BundleOutcomes | SeatMaster/qp_arrange.py:81-102 | every counted subject gives either one audit row or one warning |
| QpBundles.BundleAuditHas | SeatMaster/qp_arrange.py:96-102 | a resolved subject has an audit row with its room, code and count |
| QpBundles.BundleWarningsHas | SeatMaster/qp_arrange.py:82-89 | an unmapped or not-uploaded subject has its warning, while the other subjects still proceed |
| QpBundles.UnnormalisedNamesNeverMatch | SeatMaster/qp_arrange.py:82 | a mapping name that is not normalised never equals a detail subject |
| QpBundles.RoomPdfsMembers | SeatMaster/qp_arrange.py:104-108 | with distinct rooms, a room is in `room_pdfs` exactly when its bundle has pages, and then it maps to exactly those pages |
| QpBundles.RoomPdfsKeys | SeatMaster/qp_arrange.py:73-108 | only selected rooms appear in `room_pdfs` |
| QpBundles.ValueCountsEmpty | SeatMaster/qp_arrange.py:74-78 | the counts are empty exactly when the room has no detail rows |
| QpBundles.NoRowsNoBundle | SeatMaster/qp_arrange.py:74-76 | a room without detail rows gets no pages, no audit rows and no warnings |
| QpBundles.ResolvedStudents | SeatMaster/qp_arrange.py:96-102 | when every subject resolves, the room's audit `Students` add up to the count total and there is no warning |
| QpBundles.AllResolvedCoversRoom | SeatMaster/qp_arrange.py:74-102 | when every subject resolves, the audit rows account for every detail row of the room |
| QpBundles.AuditKeyLtIsStrictTotalOrder | SeatMaster/qp_arrange.py:116 | (Room, Subject, QP Code) order is a strict total order |
| QpBundles.RoomStudentsIsSum | SeatMaster/qp_arrange.py:122 | the per-room group total of `Students` is the sum over the room's raw rows |
| QpBundles.AuditTableOrdered | SeatMaster/qp_arrange.py:114-118 | audit lines are strictly ascending by (Room, Subject, QP Code), so each key has at most one line |
| QpBundles.AuditLineOf | SeatMaster/qp_arrange.py:114-117 | the line whose key is a given raw row's key |
| QpBundles.AuditTableCoversRaw | SeatMaster/qp_arrange.py:114-117 | every raw row's (Room, Subject, QP Code) has a line |
| QpBundles.AuditTableNoExtraLines | SeatMaster/qp_arrange.py:114-117 | every line's key is some raw row's key, so no line lacks a raw row |
| QpBundles.AuditTableTotals | SeatMaster/qp_arrange.py:114-124 | each line's `Students` is the sum over the raw rows of its key, and its `Total Students` is the sum of `Students` over the raw rows of its room |

## Left out

- Excel and PDF bytes are not modelled: reading, `df_to_bytes` (SeatMaster/utils.py:4-8) and PyPDF2 parsing and writing. A PDF is a sequence of opaque pages.
- The Streamlit UI is not modelled: tabs, uploads, session state and downloads. The room table, roster, selection, day, mapping and `uploaded_qps` are parameters.
- qp_generating.py, data_loader.py, remark_generator.py and app.py are not part of this model. This includes how app.py builds the upload keys and the normalised mapping.
- Utils.NormalizeSubject: a `Cell.Value` holds the cell's `str()` form (SeatMaster/utils.py:14, SeatMaster/seating.py:32). How pandas prints a non-string cell, such as `301.0` for a number read as float, is not modelled.
- Utils.UpperChar: upper-cases ASCII `a`–`z` only. Python's full Unicode case mapping, including characters whose upper case is longer, is not modelled.
- Text.StrLt: compares characters by code point, as Python does. Room ids and subjects are strings throughout, so numeric room ids sort as strings.
- Seating.GenerateSeating: requires every selected room to have a room-table row. The source raises `IndexError` on `.iloc[0]` for a missing room; that error path is not modelled.
- Seating.GenerateSeating: requires a selected day to be a roster column. The source raises `KeyError` otherwise.
- Seating.GenerateSeating: requires distinct rooms, because `pd.Categorical` raises on repeated categories.
- Seating.GenerateSeating: `Start` and `End` are taken as integers; the `int()` conversion and its errors are left out.
- Seating.GenerateSeating: a NaN `Class No` is not modelled; class numbers are strings.
- Seating.PivotCellsAre: `aggfunc="first"` skipping NaN values is therefore not modelled.
- Seating.GenerateSeating: the pandas errors for an empty slot table (no benches at all) are not modelled. In that case the model returns empty tables.
- Seating.SeatingGridCells: the `display_cols` check (SeatMaster/seating.py:50-54) is not modelled separately. Whenever a room has a bench, all three seat columns exist, as this lemma shows.
- QpSummaries.GenerateSummaries: the `all_subjects` list (SeatMaster/qp_arrange.py:11, 19) is never read, so it is not modelled.
- QpBundles.ValueCounts: the order of subjects with equal counts is left unspecified. Any descending-count order satisfies the contract.
- QpBundles.AuditTable: `sort_values("Room")` (SeatMaster/qp_arrange.py:118) uses an unstable sort, which may permute lines of the same room. The model keeps the groupby key order, which is one of the orders that sort can produce.
- QpBundles.GenerateRoomPdfs: `int(count)` is the identity, since counts are natural numbers.
- QpBundles.GenerateRoomPdfs: warnings are returned as a list rather than shown.
