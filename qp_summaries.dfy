/** `generate_summaries` (SeatMaster/qp_arrange.py): flattens the seating into
    one (room, bench, seat, subject) row per subject token, then derives the
    per-room summary, the per-(room, subject) question-paper counts with their
    seat locations, and the hall summary. */
module QpSummaries {
  import opened Collections
  import opened Text
  import opened Utils
  import opened Seating

  /** One row of the detail table `qp_summary_df`. */
  datatype DetailRow = DetailRow(room: string, bench: int, seat: Seat, subject: string)

  /** `normalize_subject` applied to each piece, keeping the non-empty results. */
  function NormalizedPieces(pieces: seq<string>): seq<string> {
    if |pieces| == 0 then []
    else
      var init := NormalizedPieces(pieces[..|pieces| - 1]);
      var t := Normalize(pieces[|pieces| - 1]);
      if t != "" then init + [t] else init
  }

  /** The subjects read back from one `Subjects` value. */
  function DetailTokens(subjects: string): seq<string> {
    NormalizedPieces(Split(subjects, ','))
  }

  function RowsFor(s: Slot, toks: seq<string>): (rows: seq<DetailRow>)
    ensures |rows| == |toks|
  {
    seq(|toks|, k requires 0 <= k < |toks| => DetailRow(s.room, s.bench, s.seat, toks[k]))
  }

  /** The detail rows one slot contributes: none when its `Subjects` is "-". */
  function SlotDetail(s: Slot): seq<DetailRow> {
    if s.subjects == Dash then [] else RowsFor(s, DetailTokens(s.subjects))
  }

  /** The detail table: slot order, then token order. */
  function DetailRows(slots: seq<Slot>): seq<DetailRow> {
    if |slots| == 0 then []
    else DetailRows(slots[..|slots| - 1]) + SlotDetail(slots[|slots| - 1])
  }

  function SubjectsOf(rows: seq<DetailRow>): (subjects: seq<string>)
    ensures |subjects| == |rows|
  {
    seq(|rows|, k requires 0 <= k < |rows| => rows[k].subject)
  }

  /** The subjects of the detail rows of `room`, in row order. */
  function SubjectsIn(detail: seq<DetailRow>, room: string): seq<string> {
    if |detail| == 0 then []
    else
      var d := detail[|detail| - 1];
      SubjectsIn(detail[..|detail| - 1], room) + (if d.room == room then [d.subject] else [])
  }

  // ---------------------------------------------------------------------
  // Room summary.

  /** One row of `summary_df`. */
  datatype RoomSummary = RoomSummary(room: string, totalStudents: nat, subjectsInRoom: string)

  /** `room_subjects`: the tokens of the room's slots whose `Subjects` is not "-". */
  function RoomSlotSubjects(slots: seq<Slot>, room: string): seq<string> {
    if |slots| == 0 then []
    else
      var s := slots[|slots| - 1];
      RoomSlotSubjects(slots[..|slots| - 1], room)
        + (if s.room == room && s.subjects != Dash then DetailTokens(s.subjects) else [])
  }

  /** `len(rs[rs["Class No"] != "-"])`. */
  function FilledIn(slots: seq<Slot>, room: string): nat {
    if |slots| == 0 then 0
    else
      var s := slots[|slots| - 1];
      FilledIn(slots[..|slots| - 1], room) + (if s.room == room && s.classNo != Dash then 1 else 0)
  }

  function SummaryOf(slots: seq<Slot>, room: string): RoomSummary {
    RoomSummary(room, FilledIn(slots, room), Join(SortedDistinct(RoomSlotSubjects(slots, room), StrLt), ", "))
  }

  /** One summary row per entry of the room selection, in selection order. */
  function Summaries(slots: seq<Slot>, rooms: seq<string>): (rs: seq<RoomSummary>)
    ensures |rs| == |rooms|
  {
    seq(|rooms|, i requires 0 <= i < |rooms| => SummaryOf(slots, rooms[i]))
  }

  function TotalStudents(rs: seq<RoomSummary>): nat {
    if |rs| == 0 then 0 else TotalStudents(rs[..|rs| - 1]) + rs[|rs| - 1].totalStudents
  }

  // ---------------------------------------------------------------------
  // Question-paper counts per (room, subject).

  type Key = (string, string)

  /** The order of `sort_values(["Room","Subject"])` and of the groupby keys. */
  predicate KeyLt(a: Key, b: Key) {
    StrLt(a.0, b.0) || (a.0 == b.0 && StrLt(a.1, b.1))
  }

  function KeyOf(d: DetailRow): Key { (d.room, d.subject) }

  function KeySeq(detail: seq<DetailRow>): (ks: seq<Key>)
    ensures |ks| == |detail|
  {
    seq(|detail|, i requires 0 <= i < |detail| => KeyOf(detail[i]))
  }

  /** Every detail row counts one toward its key. */
  function KeyEntries(detail: seq<DetailRow>): (es: seq<(Key, nat)>)
    ensures |es| == |detail|
  {
    seq(|detail|, i requires 0 <= i < |detail| => (KeyOf(detail[i]), 1))
  }

  /** The distinct (room, subject) keys in ascending order. */
  function GroupKeys(detail: seq<DetailRow>): seq<Key> {
    SortedDistinct(KeySeq(detail), KeyLt)
  }

  /** `QP_Needed`: `count` of the group. */
  function Needed(detail: seq<DetailRow>, k: Key): nat {
    WeightOf(KeyEntries(detail), k)
  }

  /** `f"{bench}-{seat}"`. */
  function Location(d: DetailRow): string {
    IntToString(d.bench) + "-" + SeatName(d.seat)
  }

  /** The locations of the group's rows, in detail-table order. */
  function Locations(detail: seq<DetailRow>, k: Key): seq<string> {
    if |detail| == 0 then []
    else
      var d := detail[|detail| - 1];
      Locations(detail[..|detail| - 1], k) + (if KeyOf(d) == k then [Location(d)] else [])
  }

  /** One row of `qp_count_df`. */
  datatype QpCount = QpCount(room: string, subject: string, needed: nat, locations: string)

  function CountRow(detail: seq<DetailRow>, k: Key): QpCount {
    QpCount(k.0, k.1, Needed(detail, k), Join(Locations(detail, k), ", "))
  }

  function CountRows(keys: seq<Key>, detail: seq<DetailRow>): (rows: seq<QpCount>)
    ensures |rows| == |keys|
  {
    seq(|keys|, i requires 0 <= i < |keys| => CountRow(detail, keys[i]))
  }

  /** `qp_count_df`; the empty frame when the detail table is empty. */
  function QpCounts(detail: seq<DetailRow>): seq<QpCount> {
    if |detail| == 0 then [] else CountRows(GroupKeys(detail), detail)
  }

  function TotalNeeded(rows: seq<QpCount>): nat {
    if |rows| == 0 then 0 else TotalNeeded(rows[..|rows| - 1]) + rows[|rows| - 1].needed
  }

  /** One row of `hall_qp_summary_df`. */
  datatype HallRow = HallRow(room: string, subject: string, totalNeeded: nat)

  function HallRows(keys: seq<Key>, detail: seq<DetailRow>): (rows: seq<HallRow>)
    ensures |rows| == |keys|
  {
    seq(|keys|, i requires 0 <= i < |keys| => HallRow(keys[i].0, keys[i].1, |Locations(detail, keys[i])|))
  }

  /** `groupby(["Room","Subject"]).size()`; the empty frame for an empty detail table. */
  function HallSummary(detail: seq<DetailRow>): seq<HallRow> {
    if |detail| == 0 then [] else HallRows(GroupKeys(detail), detail)
  }

  // ---------------------------------------------------------------------
  // The operation.

  /** The non-empty normalised tokens of one `Subjects` value. */
  method NormalizedTokens(subjects: string) returns (toks: seq<string>)
    ensures toks == DetailTokens(subjects)
  {
    var pieces := Split(subjects, ',');
    toks := [];
    var j := 0;
    while j < |pieces|
      invariant 0 <= j <= |pieces|
      invariant toks == NormalizedPieces(pieces[..j])
    {
      assert pieces[..j + 1][..j] == pieces[..j];
      var sNorm := Normalize(pieces[j]);
      if sNorm != "" {
        toks := toks + [sNorm];
      }
      j := j + 1;
    }
    assert pieces[..j] == pieces;
  }

  /** `qp_summary_records`: one row per kept token of each slot whose
      `Subjects` is not "-". */
  method DetailTable(slots: seq<Slot>) returns (detail: seq<DetailRow>)
    ensures detail == DetailRows(slots)
  {
    detail := [];
    var i := 0;
    while i < |slots|
      invariant 0 <= i <= |slots|
      invariant detail == DetailRows(slots[..i])
    {
      assert slots[..i + 1][..i] == slots[..i];
      var slot := slots[i];
      if slot.subjects != Dash {
        var toks := NormalizedTokens(slot.subjects);
        detail := detail + RowsFor(slot, toks);
      }
      i := i + 1;
    }
    assert slots[..i] == slots;
  }

  /** One `summary_records` entry: the room's seated count and its sorted,
      de-duplicated subject list. */
  method SummaryRow(slots: seq<Slot>, room: string) returns (row: RoomSummary)
    ensures row == SummaryOf(slots, room)
  {
    var roomSubjects: seq<string> := [];
    var total := 0;
    var k := 0;
    while k < |slots|
      invariant 0 <= k <= |slots|
      invariant roomSubjects == RoomSlotSubjects(slots[..k], room)
      invariant total == FilledIn(slots[..k], room)
    {
      assert slots[..k + 1][..k] == slots[..k];
      var s := slots[k];
      if s.room == room {
        if s.subjects != Dash {
          var toks := NormalizedTokens(s.subjects);
          roomSubjects := roomSubjects + toks;
        }
        if s.classNo != Dash {
          total := total + 1;
        }
      }
      k := k + 1;
    }
    assert slots[..k] == slots;
    row := RoomSummary(room, total, Join(SortedDistinct(roomSubjects, StrLt), ", "));
  }

  lemma SummariesStep(slots: seq<Slot>, rooms: seq<string>, r: nat)
    requires r < |rooms|
    ensures Summaries(slots, rooms[..r + 1]) == Summaries(slots, rooms[..r]) + [SummaryOf(slots, rooms[r])]
  {
  }

  method GenerateSummaries(slots: seq<Slot>, rooms: seq<string>)
    returns (summary: seq<RoomSummary>, detail: seq<DetailRow>, counts: seq<QpCount>, hall: seq<HallRow>)
    ensures detail == DetailRows(slots)
    ensures summary == Summaries(slots, rooms)
    ensures counts == QpCounts(detail)
    ensures hall == HallSummary(detail)
  {
    detail := DetailTable(slots);
    summary := [];
    var r := 0;
    while r < |rooms|
      invariant 0 <= r <= |rooms|
      invariant summary == Summaries(slots, rooms[..r])
    {
      var row := SummaryRow(slots, rooms[r]);
      SummariesStep(slots, rooms, r);
      summary := summary + [row];
      r := r + 1;
    }
    assert rooms[..r] == rooms;
    counts := QpCounts(detail);
    hall := HallSummary(detail);
  }

  // ---------------------------------------------------------------------
  // The detail table read back from a seating.

  /** The summaries' test `if s_norm` keeps exactly the pieces the seating's
      test `str(s).strip() != ""` keeps, and normalises them alike. */
  lemma {:induction false} NormalizedPiecesAgree(pieces: seq<string>)
    requires forall i :: 0 <= i < |pieces| ==> ',' !in pieces[i]
    ensures NormalizedPieces(pieces) == KeepTokens(pieces)
  {
    if |pieces| > 0 {
      NormalizedPiecesAgree(pieces[..|pieces| - 1]);
    }
  }

  lemma DetailTokensAgree(subjects: string)
    ensures DetailTokens(subjects) == SubjectTokens(subjects)
  {
    NormalizedPiecesAgree(Split(subjects, ','));
  }

  lemma NormalizeLeadingSpace(t: string)
    requires Normalized(t)
    ensures Normalize(" " + t) == t
  {
    assert " " + t + "" == " " + t;
    NormalizeIgnoresPadding(" ", t, "");
    NormalizeFixesNormalized(t);
  }

  /** Pieces that each normalise to the matching non-empty token read back as
      exactly those tokens. */
  lemma {:induction false} NormalizedPiecesEach(pieces: seq<string>, toks: seq<string>)
    requires |pieces| == |toks|
    requires forall k :: 0 <= k < |pieces| ==> Normalize(pieces[k]) == toks[k] && toks[k] != ""
    ensures NormalizedPieces(pieces) == toks
  {
    var n := |pieces|;
    if n > 0 {
      NormalizedPiecesEach(pieces[..n - 1], toks[..n - 1]);
      InitLast(toks);
    }
  }

  lemma NormalizedSpaceLed(toks: seq<string>)
    requires |toks| >= 1
    requires forall k :: 0 <= k < |toks| ==> SubjectToken(toks[k])
    ensures NormalizedPieces(SpaceLed(toks)) == toks
  {
    var sl := SpaceLed(toks);
    forall k | 0 <= k < |toks| ensures Normalize(sl[k]) == toks[k] && toks[k] != "" {
      if k == 0 {
        NormalizeFixesNormalized(toks[0]);
      } else {
        assert sl[k] == " " + toks[k];
        NormalizeLeadingSpace(toks[k]);
      }
    }
    NormalizedPiecesEach(sl, toks);
  }

  /** Reading back a `", "`-join of subject tokens gives the tokens again. */
  lemma DetailTokensOfJoin(toks: seq<string>)
    requires |toks| >= 1
    requires forall k :: 0 <= k < |toks| ==> SubjectToken(toks[k])
    ensures DetailTokens(Join(toks, ", ")) == toks
  {
    SplitCommaSpaceJoin(toks);
    NormalizedSpaceLed(toks);
  }

  /** The subjects a roster row has on the selected day. */
  function DayTokens(student: Student, day: Option<string>): seq<string>
    requires DaySelected(day) ==> day.value in student.days
  {
    if !DaySelected(day) || student.days[day.value].Missing? then []
    else SubjectTokens(student.days[day.value].text)
  }

  /** The detail rows of seating slot i sit at that slot's place and carry
      exactly the student's day subjects, in the order written; an empty slot
      contributes none.  The one exception is a day cell whose only subject is
      "-": its joined value is the "no subjects" sentinel itself, so it is
      dropped. */
  lemma SeatingSlotDetail(p: Place, i: nat, students: seq<Student>, day: Option<string>)
    requires DayIsColumn(students, day)
    ensures var rows := SlotDetail(FillSlot(p, i, students, day));
            && (forall k :: 0 <= k < |rows| ==> rows[k].room == p.room && rows[k].bench == p.bench && rows[k].seat == p.seat)
            && SubjectsOf(rows) == if i < |students| && DayTokens(students[i], day) != [Dash] then DayTokens(students[i], day) else []
  {
    var s := FillSlot(p, i, students, day);
    if i < |students| && s.subjects != Dash {
      var toks := DayTokens(students[i], day);
      assert |toks| >= 1 && s.subjects == Join(toks, ", ");
      DetailTokensOfJoin(toks);
      assert SubjectsOf(RowsFor(s, toks)) == toks;
    }
    if i < |students| && DayTokens(students[i], day) == [Dash] {
      assert Join([Dash], ", ") == Dash;
    }
  }

  lemma {:induction false} NormalizedPiecesNormalized(pieces: seq<string>)
    ensures forall k :: 0 <= k < |NormalizedPieces(pieces)| ==>
              NormalizedPieces(pieces)[k] != "" && Normalized(NormalizedPieces(pieces)[k])
  {
    if |pieces| > 0 {
      NormalizedPiecesNormalized(pieces[..|pieces| - 1]);
    }
  }

  /** Every detail row carries a non-empty, normalised subject. */
  lemma {:induction false} DetailRowsNormalized(slots: seq<Slot>)
    ensures forall j :: 0 <= j < |DetailRows(slots)| ==>
              DetailRows(slots)[j].subject != "" && Normalized(DetailRows(slots)[j].subject)
  {
    if |slots| > 0 {
      var s := slots[|slots| - 1];
      DetailRowsNormalized(slots[..|slots| - 1]);
      if s.subjects != Dash {
        NormalizedPiecesNormalized(Split(s.subjects, ','));
      }
    }
  }

  // ---------------------------------------------------------------------
  // Properties of the room summary.

  lemma SubjectsInConcat(a: seq<DetailRow>, b: seq<DetailRow>, room: string)
    ensures SubjectsIn(a + b, room) == SubjectsIn(a, room) + SubjectsIn(b, room)
    decreases |b|
  {
    if |b| > 0 {
      assert (a + b)[..|a + b| - 1] == a + b[..|b| - 1];
      SubjectsInConcat(a, b[..|b| - 1], room);
    } else {
      assert a + b == a;
    }
  }

  lemma {:induction false} SubjectsInRowsFor(s: Slot, toks: seq<string>, room: string)
    ensures SubjectsIn(RowsFor(s, toks), room) == if s.room == room then toks else []
  {
    if |toks| > 0 {
      var n := |toks|;
      assert RowsFor(s, toks)[..n - 1] == RowsFor(s, toks[..n - 1]);
      SubjectsInRowsFor(s, toks[..n - 1], room);
      assert toks == toks[..n - 1] + [toks[n - 1]];
    }
  }

  /** `room_subjects` is the room's column of the detail table. */
  lemma {:induction false} RoomSubjectsFromDetail(slots: seq<Slot>, room: string)
    ensures RoomSlotSubjects(slots, room) == SubjectsIn(DetailRows(slots), room)
  {
    if |slots| > 0 {
      var s := slots[|slots| - 1];
      RoomSubjectsFromDetail(slots[..|slots| - 1], room);
      SubjectsInConcat(DetailRows(slots[..|slots| - 1]), SlotDetail(s), room);
      if s.subjects != Dash {
        SubjectsInRowsFor(s, DetailTokens(s.subjects), room);
      }
    }
  }

  lemma {:induction false} SubjectsInMembers(detail: seq<DetailRow>, room: string, t: string)
    ensures t in SubjectsIn(detail, room) <==> exists j :: 0 <= j < |detail| && detail[j].room == room && detail[j].subject == t
  {
    if |detail| > 0 {
      var init := detail[..|detail| - 1];
      SubjectsInMembers(init, room, t);
      if exists j :: 0 <= j < |init| && init[j].room == room && init[j].subject == t {
        var j :| 0 <= j < |init| && init[j].room == room && init[j].subject == t;
        assert detail[j] == init[j];
      }
      if exists j :: 0 <= j < |detail| && detail[j].room == room && detail[j].subject == t {
        var j :| 0 <= j < |detail| && detail[j].room == room && detail[j].subject == t;
        if j < |init| {
          assert init[j] == detail[j];
        }
      }
    }
  }

  /** `Subjects in Room` lists each subject of the room's detail rows once,
      in ascending order, and nothing else. */
  lemma SubjectsInRoomSorted(slots: seq<Slot>, room: string)
    ensures var listed := SortedDistinct(RoomSlotSubjects(slots, room), StrLt);
            && Increasing(listed, StrLt)
            && Distinct(listed)
            && forall t :: t in listed <==>
                 exists j :: 0 <= j < |DetailRows(slots)| && DetailRows(slots)[j].room == room && DetailRows(slots)[j].subject == t
  {
    StrLtIsStrictTotalOrder();
    SortedDistinctIncreasing(RoomSlotSubjects(slots, room), StrLt);
    RoomSubjectsFromDetail(slots, room);
    forall t {
      SubjectsInMembers(DetailRows(slots), room, t);
    }
  }

  /** A slot counts one toward its room when it holds a student. */
  function FilledEntries(slots: seq<Slot>): (es: seq<(string, nat)>)
    ensures |es| == |slots|
  {
    seq(|slots|, i requires 0 <= i < |slots| => (slots[i].room, if slots[i].classNo != Dash then 1 else 0))
  }

  lemma {:induction false} FilledInWeight(slots: seq<Slot>, room: string)
    ensures FilledIn(slots, room) == WeightOf(FilledEntries(slots), room)
  {
    if |slots| > 0 {
      assert FilledEntries(slots)[..|slots| - 1] == FilledEntries(slots[..|slots| - 1]);
      FilledInWeight(slots[..|slots| - 1], room);
    }
  }

  lemma {:induction false} CountFilledWeight(slots: seq<Slot>)
    ensures CountFilled(slots) == SumWhere(FilledEntries(slots), _ => true)
  {
    if |slots| > 0 {
      assert FilledEntries(slots)[..|slots| - 1] == FilledEntries(slots[..|slots| - 1]);
      CountFilledWeight(slots[..|slots| - 1]);
    }
  }

  lemma {:induction false} SummariesTotal(slots: seq<Slot>, rooms: seq<string>)
    ensures TotalStudents(Summaries(slots, rooms)) == KeySum(rooms, FilledEntries(slots), _ => true)
  {
    if |rooms| > 0 {
      var n := |rooms|;
      assert Summaries(slots, rooms)[..n - 1] == Summaries(slots, rooms[..n - 1]);
      SummariesTotal(slots, rooms[..n - 1]);
      FilledInWeight(slots, rooms[n - 1]);
    }
  }

  /** When every slot's room is selected once, the rooms' `Total Students`
      add up to the number of seated students. */
  lemma RoomTotalsAddUp(slots: seq<Slot>, rooms: seq<string>)
    requires Distinct(rooms)
    requires forall j :: 0 <= j < |slots| ==> slots[j].room in rooms
    ensures TotalStudents(Summaries(slots, rooms)) == CountFilled(slots)
  {
    SummariesTotal(slots, rooms);
    KeySumCoversEntries(rooms, FilledEntries(slots), _ => true);
    CountFilledWeight(slots);
  }

  /** For a seating, the room totals add up to `min(len(students), capacity)`. */
  lemma SeatingRoomTotals(table: seq<RoomRow>, rooms: seq<string>, students: seq<Student>, day: Option<string>)
    requires AllListed(table, rooms) && Distinct(rooms) && DayIsColumn(students, day)
    requires forall k :: 0 <= k < |students| ==> students[k].classNo != Dash
    ensures var slots := Assign(Layout(table, rooms), students, day);
            TotalStudents(Summaries(slots, rooms))
              == if |students| < Capacity(table, rooms) then |students| else Capacity(table, rooms)
  {
    var l := Layout(table, rooms);
    var slots := Assign(l, students, day);
    forall j | 0 <= j < |slots| ensures slots[j].room in rooms {
      assert l[j] in l;
      LayoutMembers(table, rooms, l[j]);
    }
    RoomTotalsAddUp(slots, rooms);
    SeatedCount(table, rooms, students, day);
  }

  // ---------------------------------------------------------------------
  // Properties of the question-paper counts.

  lemma KeyLtIsStrictTotalOrder()
    ensures StrictTotalOrder(KeyLt)
  {
    StrLtIsStrictTotalOrder();
    forall a: Key, b: Key, c: Key | KeyLt(a, b) && KeyLt(b, c) ensures KeyLt(a, c) {
      if a.0 != b.0 && b.0 == c.0 {
        assert StrLt(a.0, c.0);
      }
    }
  }

  function CountKey(r: QpCount): Key { (r.room, r.subject) }

  /** The (room, subject) column pair of a count table. */
  function RowKeys(rows: seq<QpCount>): (ks: seq<Key>)
    ensures |ks| == |rows|
  {
    seq(|rows|, i requires 0 <= i < |rows| => CountKey(rows[i]))
  }

  lemma RowKeysCountRows(keys: seq<Key>, detail: seq<DetailRow>)
    ensures RowKeys(CountRows(keys, detail)) == keys
  {
    var rows := CountRows(keys, detail);
    forall i | 0 <= i < |keys| ensures RowKeys(rows)[i] == keys[i] {
      assert rows[i] == CountRow(detail, keys[i]);
    }
  }

  /** `qp_count_df` has one row per (room, subject) key of the detail table,
      keys strictly ascending: its key columns are exactly the group keys. */
  lemma QpCountsKeys(detail: seq<DetailRow>)
    ensures RowKeys(QpCounts(detail)) == GroupKeys(detail)
    ensures Increasing(RowKeys(QpCounts(detail)), KeyLt)
    ensures forall k :: k in RowKeys(QpCounts(detail)) <==> k in KeySeq(detail)
  {
    if |detail| > 0 {
      RowKeysCountRows(GroupKeys(detail), detail);
    }
    GroupKeysIncreasing(detail);
  }

  lemma GroupKeysIncreasing(detail: seq<DetailRow>)
    ensures Increasing(GroupKeys(detail), KeyLt)
  {
    KeyLtIsStrictTotalOrder();
    SortedDistinctIncreasing(KeySeq(detail), KeyLt);
  }

  lemma GroupKeysCover(detail: seq<DetailRow>)
    ensures forall i :: 0 <= i < |GroupKeys(detail)| ==>
              exists j :: 0 <= j < |detail| && KeyOf(detail[j]) == GroupKeys(detail)[i]
    ensures forall j :: 0 <= j < |detail| ==>
              exists i :: 0 <= i < |GroupKeys(detail)| && GroupKeys(detail)[i] == KeyOf(detail[j])
  {
    var keys := GroupKeys(detail);
    var ks := KeySeq(detail);
    forall i | 0 <= i < |keys|
      ensures exists j :: 0 <= j < |detail| && KeyOf(detail[j]) == keys[i] {
      assert keys[i] in ks;
      var j :| 0 <= j < |ks| && ks[j] == keys[i];
    }
    forall j | 0 <= j < |detail|
      ensures exists i :: 0 <= i < |keys| && keys[i] == KeyOf(detail[j]) {
      assert ks[j] in ks;
      assert ks[j] in keys;
    }
  }

  /** `Bench_Seat_Locations` holds one entry per detail row of the key. */
  lemma {:induction false} LocationsCount(detail: seq<DetailRow>, k: Key)
    ensures |Locations(detail, k)| == Needed(detail, k)
  {
    if |detail| > 0 {
      assert KeyEntries(detail)[..|detail| - 1] == KeyEntries(detail[..|detail| - 1]);
      LocationsCount(detail[..|detail| - 1], k);
    }
  }

  lemma {:induction false} NeededPositive(detail: seq<DetailRow>, k: Key)
    ensures Needed(detail, k) > 0 <==> exists j :: 0 <= j < |detail| && KeyOf(detail[j]) == k
  {
    if |detail| > 0 {
      var init := detail[..|detail| - 1];
      assert KeyEntries(detail)[..|detail| - 1] == KeyEntries(init);
      NeededPositive(init, k);
      if exists j :: 0 <= j < |init| && KeyOf(init[j]) == k {
        var j :| 0 <= j < |init| && KeyOf(init[j]) == k;
        assert detail[j] == init[j];
      }
      if exists j :: 0 <= j < |detail| && KeyOf(detail[j]) == k {
        var j :| 0 <= j < |detail| && KeyOf(detail[j]) == k;
        if j < |init| {
          assert init[j] == detail[j];
        }
      }
    }
  }

  lemma LocationHasNoComma(d: DetailRow)
    ensures ',' !in Location(d)
  {
    var b := IntToString(d.bench);
    assert forall k :: 0 <= k < |b| ==> b[k] != ',';
  }

  lemma {:induction false} LocationsHaveNoComma(detail: seq<DetailRow>, k: Key)
    ensures forall i :: 0 <= i < |Locations(detail, k)| ==> ',' !in Locations(detail, k)[i]
  {
    if |detail| > 0 {
      LocationsHaveNoComma(detail[..|detail| - 1], k);
      LocationHasNoComma(detail[|detail| - 1]);
    }
  }

  /** For every row of `qp_count_df`, `QP_Needed` is positive and the
      `Bench_Seat_Locations` text, split on commas, has exactly `QP_Needed`
      entries. */
  lemma CountRowLocations(detail: seq<DetailRow>, i: nat)
    requires i < |QpCounts(detail)|
    ensures var row := QpCounts(detail)[i];
            row.needed > 0 && |Split(row.locations, ',')| == row.needed
  {
    var k := GroupKeys(detail)[i];
    assert k in KeySeq(detail);
    var j :| 0 <= j < |detail| && KeySeq(detail)[j] == k;
    NeededPositive(detail, k);
    LocationsCount(detail, k);
    LocationsHaveNoComma(detail, k);
    SplitCommaSpaceJoin(Locations(detail, k));
  }

  lemma {:induction false} CountRowsTotal(keys: seq<Key>, detail: seq<DetailRow>)
    ensures TotalNeeded(CountRows(keys, detail)) == KeySum(keys, KeyEntries(detail), _ => true)
  {
    if |keys| > 0 {
      var n := |keys|;
      assert CountRows(keys, detail)[..n - 1] == CountRows(keys[..n - 1], detail);
      CountRowsTotal(keys[..n - 1], detail);
    }
  }

  lemma {:induction false} SumWhereOnes(detail: seq<DetailRow>)
    ensures SumWhere(KeyEntries(detail), _ => true) == |detail|
  {
    if |detail| > 0 {
      assert KeyEntries(detail)[..|detail| - 1] == KeyEntries(detail[..|detail| - 1]);
      SumWhereOnes(detail[..|detail| - 1]);
    }
  }

  /** The `QP_Needed` column adds up to the number of detail rows. */
  lemma NeededAddsUp(detail: seq<DetailRow>)
    ensures TotalNeeded(QpCounts(detail)) == |detail|
  {
    if |detail| > 0 {
      var keys := GroupKeys(detail);
      KeyLtIsStrictTotalOrder();
      SortedDistinctIncreasing(KeySeq(detail), KeyLt);
      forall i | 0 <= i < |detail| ensures KeyEntries(detail)[i].0 in keys {
        assert KeySeq(detail)[i] in KeySeq(detail);
      }
      CountRowsTotal(keys, detail);
      KeySumCoversEntries(keys, KeyEntries(detail), _ => true);
      SumWhereOnes(detail);
    }
  }

  /** The hall summary has the same keys in the same order as `qp_count_df`,
      with `Total QPs Needed` equal to `QP_Needed`; both are empty exactly when
      the detail table is. */
  lemma HallMatchesCounts(detail: seq<DetailRow>)
    ensures |HallSummary(detail)| == |QpCounts(detail)|
    ensures forall i :: 0 <= i < |QpCounts(detail)| ==>
              && HallSummary(detail)[i].room == QpCounts(detail)[i].room
              && HallSummary(detail)[i].subject == QpCounts(detail)[i].subject
              && HallSummary(detail)[i].totalNeeded == QpCounts(detail)[i].needed
    ensures QpCounts(detail) == [] <==> |detail| == 0
  {
    if |detail| > 0 {
      forall i | 0 <= i < |QpCounts(detail)|
        ensures HallSummary(detail)[i].totalNeeded == QpCounts(detail)[i].needed {
        LocationsCount(detail, GroupKeys(detail)[i]);
      }
      assert KeySeq(detail)[0] in GroupKeys(detail);
    }
  }
}
