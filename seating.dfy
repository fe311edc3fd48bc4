/** `generate_seating` (SeatMaster/seating.py): expands each selected room's
    bench range into seat slots in the fixed block-interleaved order (seat
    position outermost, then rooms in selection order, then benches
    ascending), seats roster row i in slot i, and reshapes the result into the
    Room x Bench display grid. */
module Seating {
  import opened Collections
  import opened Text
  import opened Utils

  datatype Seat = Left | Right | Center

  /** The outer iteration order of seat positions. */
  const SeatOrder: seq<Seat> := [Left, Right, Center]

  /** The sentinel written into every field of an unfilled slot. */
  const Dash: string := "-"

  function SeatName(s: Seat): string {
    match s
    case Left => "Left"
    case Right => "Right"
    case Center => "Center"
  }

  /** Position of a seat in `SeatOrder`. */
  function SeatRank(s: Seat): (k: nat)
    ensures k < |SeatOrder| && SeatOrder[k] == s
  {
    match s
    case Left => 0
    case Right => 1
    case Center => 2
  }

  /** Position `k` of the seat order has rank `k`. */
  lemma SeatRankOf(k: nat)
    requires k < |SeatOrder|
    ensures SeatRank(SeatOrder[k]) == k
  {
  }

  /** One row of the room table: columns `Room`, `Start`, `End`. */
  datatype RoomRow = RoomRow(room: string, start: int, end: int)

  /** One roster row: `Class No`, `Student Name` and the `DAY...` columns. */
  datatype Student = Student(classNo: string, name: string, days: map<string, Cell>)

  /** A (room, bench, seat position) triple. */
  datatype Place = Place(room: string, bench: int, seat: Seat)

  /** One row of the detailed seating table. */
  datatype Slot = Slot(room: string, bench: int, seat: Seat,
                       classNo: string, studentName: string, subjects: string)

  // ---------------------------------------------------------------------
  // Room lookup and bench ranges.

  /** The `Room` column of the room table. */
  function RoomNames(table: seq<RoomRow>): (names: seq<string>)
    ensures |names| == |table|
  {
    seq(|table|, j requires 0 <= j < |table| => table[j].room)
  }

  /** Index of the first room-table row for `room` (`.iloc[0]` of the rows
      whose `Room` equals it), or `|table|` when there is none. */
  function FirstRowIndex(table: seq<RoomRow>, room: string): (i: nat)
    ensures i <= |table|
    ensures i < |table| ==> table[i].room == room
    ensures forall j :: 0 <= j < i ==> table[j].room != room
  {
    var names := RoomNames(table);
    assert forall j :: 0 <= j < |table| ==> names[j] == table[j].room;
    IndexOf(names, room)
  }

  predicate Listed(table: seq<RoomRow>, room: string) {
    FirstRowIndex(table, room) < |table|
  }

  predicate AllListed(table: seq<RoomRow>, rooms: seq<string>) {
    forall k :: 0 <= k < |rooms| ==> Listed(table, rooms[k])
  }

  function RowOf(table: seq<RoomRow>, room: string): RoomRow
    requires Listed(table, room)
  {
    table[FirstRowIndex(table, room)]
  }

  /** `list(range(start, end + 1))`. */
  function BenchRange(start: int, end: int): seq<int> {
    seq(if end >= start then end - start + 1 else 0, k => start + k)
  }

  function Benches(table: seq<RoomRow>, room: string): seq<int>
    requires Listed(table, room)
  {
    BenchRange(RowOf(table, room).start, RowOf(table, room).end)
  }

  /** Bench `bench` exists in `room`: the room is listed and the bench lies in
      its first row's `Start..End`. */
  predicate InRoom(table: seq<RoomRow>, room: string, bench: int) {
    Listed(table, room) && RowOf(table, room).start <= bench <= RowOf(table, room).end
  }

  /** Total seats of the selected rooms: `max(0, End - Start + 1) * 3` per room,
      from the room's first table row. */
  function Capacity(table: seq<RoomRow>, rooms: seq<string>): nat
    requires AllListed(table, rooms)
  {
    if |rooms| == 0 then 0
    else
      var row := RowOf(table, rooms[|rooms| - 1]);
      Capacity(table, rooms[..|rooms| - 1]) + 3 * (if row.end >= row.start then row.end - row.start + 1 else 0)
  }

  // ---------------------------------------------------------------------
  // The slot order.

  function BenchBlock(seat: Seat, room: string, benches: seq<int>): seq<Place> {
    seq(|benches|, k requires 0 <= k < |benches| => Place(room, benches[k], seat))
  }

  /** All benches of `rooms`, in selection order, at one seat position. */
  function RoomBlocks(table: seq<RoomRow>, seat: Seat, rooms: seq<string>): seq<Place>
    requires AllListed(table, rooms)
  {
    if |rooms| == 0 then []
    else RoomBlocks(table, seat, rooms[..|rooms| - 1])
         + BenchBlock(seat, rooms[|rooms| - 1], Benches(table, rooms[|rooms| - 1]))
  }

  function SeatBlocks(table: seq<RoomRow>, seats: seq<Seat>, rooms: seq<string>): seq<Place>
    requires AllListed(table, rooms)
  {
    if |seats| == 0 then []
    else SeatBlocks(table, seats[..|seats| - 1], rooms) + RoomBlocks(table, seats[|seats| - 1], rooms)
  }

  /** The slot list before students are assigned. */
  function Layout(table: seq<RoomRow>, rooms: seq<string>): seq<Place>
    requires AllListed(table, rooms)
  {
    SeatBlocks(table, SeatOrder, rooms)
  }

  /** `p` comes before `q` in the interleaved order: earlier seat position;
      or the same position and an earlier selected room; or the same position
      and room and a lower bench. */
  predicate PlaceBefore(rooms: seq<string>, p: Place, q: Place) {
    || SeatRank(p.seat) < SeatRank(q.seat)
    || (p.seat == q.seat && IndexOf(rooms, p.room) < IndexOf(rooms, q.room))
    || (p.seat == q.seat && p.room == q.room && p.bench < q.bench)
  }

  ghost predicate PlacesOrdered(rooms: seq<string>, ps: seq<Place>) {
    forall i, j :: 0 <= i < j < |ps| ==> PlaceBefore(rooms, ps[i], ps[j])
  }

  // ---------------------------------------------------------------------
  // Student assignment.

  /** `if selected_day`: a day was chosen (None and "" are both false). */
  predicate DaySelected(day: Option<string>) {
    day.Some? && day.value != ""
  }

  /** The selected day is a roster column (`info[selected_day]` is defined). */
  predicate DayIsColumn(students: seq<Student>, day: Option<string>) {
    DaySelected(day) ==> forall k :: 0 <= k < |students| ==> day.value in students[k].days
  }

  /** A value the day-column parser can produce as one subject. */
  predicate SubjectToken(t: string) {
    t != "" && Normalized(t) && ',' !in t
  }

  /** Keep the pieces that are not blank after stripping, normalised. */
  function KeepTokens(pieces: seq<string>): (toks: seq<string>)
    requires forall i :: 0 <= i < |pieces| ==> ',' !in pieces[i]
    ensures forall k :: 0 <= k < |toks| ==> SubjectToken(toks[k])
    ensures |toks| <= |pieces|
  {
    if |pieces| == 0 then []
    else
      var init := KeepTokens(pieces[..|pieces| - 1]);
      var p := pieces[|pieces| - 1];
      if Strip(p) != "" then
        NormalizeNoComma(p);
        init + [Normalize(p)]
      else init
  }

  /** `[normalize_subject(s) for s in raw.split(",") if str(s).strip() != ""]`. */
  function SubjectTokens(raw: string): (toks: seq<string>)
    ensures forall k :: 0 <= k < |toks| ==> SubjectToken(toks[k])
  {
    KeepTokens(Split(raw, ','))
  }

  /** The `Subjects` value of a seated student. */
  function SubjectsField(student: Student, day: Option<string>): string
    requires DaySelected(day) ==> day.value in student.days
  {
    if !DaySelected(day) then Dash
    else match student.days[day.value]
      case Missing => Dash
      case Value(raw) =>
        var toks := SubjectTokens(raw);
        if |toks| == 0 then Dash else Join(toks, ", ")
  }

  function FillSlot(p: Place, i: nat, students: seq<Student>, day: Option<string>): Slot
    requires DayIsColumn(students, day)
  {
    if i < |students| then
      Slot(p.room, p.bench, p.seat, students[i].classNo, students[i].name, SubjectsField(students[i], day))
    else
      Slot(p.room, p.bench, p.seat, Dash, Dash, Dash)
  }

  /** Roster row i goes into slot i; slots past the roster get the sentinel. */
  function Assign(places: seq<Place>, students: seq<Student>, day: Option<string>): seq<Slot>
    requires DayIsColumn(students, day)
  {
    seq(|places|, i requires 0 <= i < |places| => FillSlot(places[i], i, students, day))
  }

  function PlaceOf(s: Slot): Place {
    Place(s.room, s.bench, s.seat)
  }

  function Places(slots: seq<Slot>): (ps: seq<Place>)
    ensures |ps| == |slots|
  {
    seq(|slots|, k requires 0 <= k < |slots| => PlaceOf(slots[k]))
  }

  /** Number of slots holding a student (`Class No != "-"`). */
  function CountFilled(slots: seq<Slot>): nat {
    if |slots| == 0 then 0
    else CountFilled(slots[..|slots| - 1]) + (if slots[|slots| - 1].classNo != Dash then 1 else 0)
  }

  // ---------------------------------------------------------------------
  // The Room x Bench display grid.

  /** One grid row: `Room`, `Bench`, `Left`, `Center`, `Right` (None is NaN). */
  datatype GridRow = GridRow(room: string, bench: int,
                             left: Option<string>, center: Option<string>, right: Option<string>)

  function GridCell(g: GridRow, seat: Seat): Option<string> {
    match seat
    case Left => g.left
    case Center => g.center
    case Right => g.right
  }

  /** `aggfunc="first"`: the `Class No` of the first slot at that place. */
  function CellAt(slots: seq<Slot>, room: string, bench: int, seat: Seat): Option<string> {
    var i := IndexOf(Places(slots), Place(room, bench, seat));
    if i < |slots| then Some(slots[i].classNo) else None
  }

  /** The benches that occur with `room`, in slot order. */
  function BenchesIn(slots: seq<Slot>, room: string): (bs: seq<int>)
    ensures forall b :: b in bs <==> exists j :: 0 <= j < |slots| && slots[j].room == room && slots[j].bench == b
  {
    if |slots| == 0 then []
    else
      var init := slots[..|slots| - 1];
      var last := slots[|slots| - 1];
      assert forall j :: 0 <= j < |init| ==> init[j] == slots[j];
      BenchesIn(init, room) + (if last.room == room then [last.bench] else [])
  }

  function RoomGrid(slots: seq<Slot>, room: string): seq<GridRow> {
    var bs := SortedDistinct(BenchesIn(slots, room), IntLt);
    seq(|bs|, k requires 0 <= k < |bs| =>
      GridRow(room, bs[k], CellAt(slots, room, bs[k], Left),
              CellAt(slots, room, bs[k], Center), CellAt(slots, room, bs[k], Right)))
  }

  /** `pivot_table(index=["Room","Bench"], columns="Seat", values="Class No",
      aggfunc="first")`, then sorted by room in selection order and bench. */
  function Pivot(slots: seq<Slot>, rooms: seq<string>): seq<GridRow> {
    if |rooms| == 0 then []
    else Pivot(slots, rooms[..|rooms| - 1]) + RoomGrid(slots, rooms[|rooms| - 1])
  }

  predicate GridBefore(rooms: seq<string>, a: GridRow, b: GridRow) {
    IndexOf(rooms, a.room) < IndexOf(rooms, b.room) || (a.room == b.room && a.bench < b.bench)
  }

  ghost predicate GridOrdered(rooms: seq<string>, g: seq<GridRow>) {
    forall i, j :: 0 <= i < j < |g| ==> GridBefore(rooms, g[i], g[j])
  }

  // ---------------------------------------------------------------------
  // The operation.

  /** `room_benches`: the bench list of each selected room, from its first
      row in the room table. */
  method BenchesPerRoom(table: seq<RoomRow>, rooms: seq<string>) returns (roomBenches: map<string, seq<int>>)
    requires AllListed(table, rooms)
    ensures forall k :: 0 <= k < |rooms| ==> rooms[k] in roomBenches && roomBenches[rooms[k]] == Benches(table, rooms[k])
  {
    roomBenches := map[];
    var r := 0;
    while r < |rooms|
      invariant 0 <= r <= |rooms|
      invariant forall k :: 0 <= k < r ==> rooms[k] in roomBenches && roomBenches[rooms[k]] == Benches(table, rooms[k])
    {
      var row := table[FirstRowIndex(table, rooms[r])];
      roomBenches := roomBenches[rooms[r] := BenchRange(row.start, row.end)];
      r := r + 1;
    }
  }

  /** `for bench in room_benches[room]: seating_data.append(...)`. */
  method AppendBenches(places: seq<Place>, seat: Seat, room: string, benches: seq<int>) returns (out: seq<Place>)
    ensures out == places + BenchBlock(seat, room, benches)
  {
    var block: seq<Place> := [];
    var bi := 0;
    while bi < |benches|
      invariant 0 <= bi <= |benches|
      invariant block == BenchBlock(seat, room, benches[..bi])
    {
      assert BenchBlock(seat, room, benches[..bi + 1])
          == BenchBlock(seat, room, benches[..bi]) + [Place(room, benches[bi], seat)];
      block := block + [Place(room, benches[bi], seat)];
      bi := bi + 1;
    }
    assert benches[..bi] == benches;
    out := places + block;
  }

  /** `for room in ordered_rooms: for bench in room_benches[room]: ...` at one seat. */
  method AppendRooms(places: seq<Place>, table: seq<RoomRow>, seat: Seat, rooms: seq<string>,
                     roomBenches: map<string, seq<int>>) returns (out: seq<Place>)
    requires AllListed(table, rooms)
    requires forall k :: 0 <= k < |rooms| ==> rooms[k] in roomBenches && roomBenches[rooms[k]] == Benches(table, rooms[k])
    ensures out == places + RoomBlocks(table, seat, rooms)
  {
    var block: seq<Place> := [];
    var ri := 0;
    while ri < |rooms|
      invariant 0 <= ri <= |rooms|
      invariant AllListed(table, rooms[..ri]) && block == RoomBlocks(table, seat, rooms[..ri])
    {
      var room := rooms[ri];
      RoomBlocksStep(table, seat, rooms, ri);
      block := AppendBenches(block, seat, room, roomBenches[room]);
      ri := ri + 1;
    }
    assert rooms[..ri] == rooms;
    out := places + block;
  }

  lemma RoomBlocksStep(table: seq<RoomRow>, seat: Seat, rooms: seq<string>, n: nat)
    requires AllListed(table, rooms) && n < |rooms|
    ensures AllListed(table, rooms[..n]) && AllListed(table, rooms[..n + 1])
    ensures RoomBlocks(table, seat, rooms[..n + 1])
            == RoomBlocks(table, seat, rooms[..n]) + BenchBlock(seat, rooms[n], Benches(table, rooms[n]))
  {
    assert rooms[..n + 1][..n] == rooms[..n];
  }

  /** The interleaved slot list: every seat position in turn, and within it
      every selected room's benches. */
  method InterleavePlaces(table: seq<RoomRow>, rooms: seq<string>, roomBenches: map<string, seq<int>>)
    returns (places: seq<Place>)
    requires AllListed(table, rooms)
    requires forall k :: 0 <= k < |rooms| ==> rooms[k] in roomBenches && roomBenches[rooms[k]] == Benches(table, rooms[k])
    ensures places == Layout(table, rooms)
  {
    places := [];
    var si := 0;
    while si < |SeatOrder|
      invariant 0 <= si <= |SeatOrder|
      invariant places == SeatBlocks(table, SeatOrder[..si], rooms)
    {
      places := AppendRooms(places, table, SeatOrder[si], rooms, roomBenches);
      assert SeatOrder[..si + 1][..si] == SeatOrder[..si];
      si := si + 1;
    }
    assert SeatOrder[..si] == SeatOrder;
  }

  /** Roster row i fills slot i; the remaining slots get "-" everywhere. */
  method AssignStudents(places: seq<Place>, students: seq<Student>, day: Option<string>) returns (slots: seq<Slot>)
    requires DayIsColumn(students, day)
    ensures Places(slots) == places
    ensures forall i :: 0 <= i < |slots| && i < |students| ==>
              && slots[i].classNo == students[i].classNo
              && slots[i].studentName == students[i].name
              && slots[i].subjects == SubjectsField(students[i], day)
    ensures forall i :: |students| <= i < |slots| ==>
              slots[i].classNo == Dash && slots[i].studentName == Dash && slots[i].subjects == Dash
    ensures slots == Assign(places, students, day)
  {
    slots := [];
    var i := 0;
    while i < |places|
      invariant 0 <= i <= |places|
      invariant |slots| == i
      invariant forall k :: 0 <= k < i ==> slots[k] == FillSlot(places[k], k, students, day)
    {
      var p := places[i];
      var slot: Slot;
      if i < |students| {
        var info := students[i];
        var subjects: string;
        if DaySelected(day) && info.days[day.value].Value? {
          var subjectList := SubjectTokens(info.days[day.value].text);
          subjects := if |subjectList| > 0 then Join(subjectList, ", ") else Dash;
        } else {
          subjects := Dash;
        }
        slot := Slot(p.room, p.bench, p.seat, info.classNo, info.name, subjects);
      } else {
        slot := Slot(p.room, p.bench, p.seat, Dash, Dash, Dash);
      }
      slots := slots + [slot];
      i := i + 1;
    }
  }

  /** `generate_seating`: the detailed slot table and the display grid. */
  method GenerateSeating(table: seq<RoomRow>, students: seq<Student>, rooms: seq<string>, day: Option<string>)
    returns (slots: seq<Slot>, grid: seq<GridRow>)
    requires AllListed(table, rooms)
    requires Distinct(rooms)  // `pd.Categorical` rejects repeated categories
    requires DayIsColumn(students, day)
    ensures Places(slots) == Layout(table, rooms)
    ensures |slots| == Capacity(table, rooms)
    ensures slots == Assign(Layout(table, rooms), students, day)
    ensures grid == Pivot(slots, rooms)
  {
    var roomBenches := BenchesPerRoom(table, rooms);
    var places := InterleavePlaces(table, rooms, roomBenches);
    slots := AssignStudents(places, students, day);
    LayoutLength(table, rooms);
    grid := Pivot(slots, rooms);
  }

  // ---------------------------------------------------------------------
  // Properties of the layout.

  lemma {:induction false} RoomBlocksLength(table: seq<RoomRow>, seat: Seat, rooms: seq<string>)
    requires AllListed(table, rooms)
    ensures 3 * |RoomBlocks(table, seat, rooms)| == Capacity(table, rooms)
  {
    if |rooms| > 0 {
      RoomBlocksLength(table, seat, rooms[..|rooms| - 1]);
    }
  }

  lemma {:induction false} SeatBlocksLength(table: seq<RoomRow>, seats: seq<Seat>, rooms: seq<string>)
    requires AllListed(table, rooms)
    ensures 3 * |SeatBlocks(table, seats, rooms)| == |seats| * Capacity(table, rooms)
  {
    if |seats| > 0 {
      SeatBlocksLength(table, seats[..|seats| - 1], rooms);
      RoomBlocksLength(table, seats[|seats| - 1], rooms);
      var c := Capacity(table, rooms);
      assert (|seats| - 1) * c + c == |seats| * c;
    }
  }

  /** The slot count is the sum over the selected rooms of `max(0, End-Start+1) * 3`. */
  lemma LayoutLength(table: seq<RoomRow>, rooms: seq<string>)
    requires AllListed(table, rooms)
    ensures |Layout(table, rooms)| == Capacity(table, rooms)
  {
    SeatBlocksLength(table, SeatOrder, rooms);
  }

  lemma {:induction false} RoomBlocksMembers(table: seq<RoomRow>, seat: Seat, rooms: seq<string>, p: Place)
    requires AllListed(table, rooms)
    ensures p in RoomBlocks(table, seat, rooms) <==> p.seat == seat && p.room in rooms && InRoom(table, p.room, p.bench)
  {
    if |rooms| > 0 {
      var init := rooms[..|rooms| - 1];
      var last := rooms[|rooms| - 1];
      RoomBlocksMembers(table, seat, init, p);
      assert p.room in rooms <==> p.room in init || p.room == last by {
        assert rooms == init + [last];
      }
      var block := BenchBlock(seat, last, Benches(table, last));
      if p.seat == seat && p.room == last && InRoom(table, p.room, p.bench) {
        var row := RowOf(table, last);
        assert block[p.bench - row.start] == p;
      }
    }
  }

  lemma {:induction false} SeatBlocksMembers(table: seq<RoomRow>, seats: seq<Seat>, rooms: seq<string>, p: Place)
    requires AllListed(table, rooms)
    ensures p in SeatBlocks(table, seats, rooms) <==> p.seat in seats && p.room in rooms && InRoom(table, p.room, p.bench)
  {
    if |seats| > 0 {
      var init := seats[..|seats| - 1];
      SeatBlocksMembers(table, init, rooms, p);
      RoomBlocksMembers(table, seats[|seats| - 1], rooms, p);
      assert seats == init + [seats[|seats| - 1]];
    }
  }

  /** Each place of a selected room occurs in the slot list, and nothing else does. */
  lemma LayoutMembers(table: seq<RoomRow>, rooms: seq<string>, p: Place)
    requires AllListed(table, rooms)
    ensures p in Layout(table, rooms) <==> p.room in rooms && InRoom(table, p.room, p.bench)
  {
    SeatBlocksMembers(table, SeatOrder, rooms, p);
    assert p.seat in SeatOrder by {
      assert SeatOrder[SeatRank(p.seat)] == p.seat;
    }
  }

  lemma {:induction false} ConcatOrdered(rooms: seq<string>, a: seq<Place>, b: seq<Place>)
    requires PlacesOrdered(rooms, a) && PlacesOrdered(rooms, b)
    requires forall x, y :: x in a && y in b ==> PlaceBefore(rooms, x, y)
    ensures PlacesOrdered(rooms, a + b)
  {
    var c := a + b;
    forall i, j | 0 <= i < j < |c| ensures PlaceBefore(rooms, c[i], c[j]) {
      if j < |a| {
        assert c[i] == a[i] && c[j] == a[j];
      } else if i >= |a| {
        assert c[i] == b[i - |a|] && c[j] == b[j - |a|];
      } else {
        assert c[i] in a && c[j] in b;
      }
    }
  }

  lemma {:induction false} RoomBlocksOrdered(table: seq<RoomRow>, seat: Seat, all: seq<string>, n: nat)
    requires AllListed(table, all) && Distinct(all) && n <= |all|
    ensures PlacesOrdered(all, RoomBlocks(table, seat, all[..n]))
  {
    if n > 0 {
      var pre := all[..n];
      assert pre[..n - 1] == all[..n - 1];
      RoomBlocksOrdered(table, seat, all, n - 1);
      var a := RoomBlocks(table, seat, all[..n - 1]);
      var room := all[n - 1];
      var b := BenchBlock(seat, room, Benches(table, room));
      IndexOfDistinct(all, n - 1);
      forall x, y | x in a && y in b ensures PlaceBefore(all, x, y) {
        RoomBlocksMembers(table, seat, all[..n - 1], x);
        IndexOfPrefix(all, n - 1, x.room);
      }
      ConcatOrdered(all, a, b);
    }
  }

  lemma {:induction false} SeatBlocksOrdered(table: seq<RoomRow>, rooms: seq<string>, m: nat)
    requires AllListed(table, rooms) && Distinct(rooms) && m <= |SeatOrder|
    ensures PlacesOrdered(rooms, SeatBlocks(table, SeatOrder[..m], rooms))
  {
    if m > 0 {
      assert SeatOrder[..m][..m - 1] == SeatOrder[..m - 1];
      SeatBlocksOrdered(table, rooms, m - 1);
      var a := SeatBlocks(table, SeatOrder[..m - 1], rooms);
      var seat := SeatOrder[m - 1];
      var b := RoomBlocks(table, seat, rooms);
      RoomBlocksOrdered(table, seat, rooms, |rooms|);
      assert rooms[..|rooms|] == rooms;
      forall x, y | x in a && y in b ensures PlaceBefore(rooms, x, y) {
        EarlierSeatBefore(table, rooms, m, x, y);
      }
      ConcatOrdered(rooms, a, b);
    }
  }

  /** A slot of an earlier seat position comes before every slot of position `m - 1`. */
  lemma EarlierSeatBefore(table: seq<RoomRow>, rooms: seq<string>, m: nat, x: Place, y: Place)
    requires AllListed(table, rooms) && 0 < m <= |SeatOrder|
    requires x in SeatBlocks(table, SeatOrder[..m - 1], rooms)
    requires y in RoomBlocks(table, SeatOrder[m - 1], rooms)
    ensures PlaceBefore(rooms, x, y)
  {
    SeatBlocksMembers(table, SeatOrder[..m - 1], rooms, x);
    RoomBlocksMembers(table, SeatOrder[m - 1], rooms, y);
    var k :| 0 <= k < m - 1 && SeatOrder[..m - 1][k] == x.seat;
    assert SeatOrder[k] == x.seat;
    SeatRankOf(k);
    SeatRankOf(m - 1);
  }

  /** With distinct selected rooms the slot list is strictly ordered by
      (seat position, room's selection index, bench): all Left slots, then all
      Right, then all Center; rooms in selection order within a position;
      benches ascending within a room.  Hence every (room, bench, seat) triple
      occurs exactly once. */
  lemma LayoutOrdered(table: seq<RoomRow>, rooms: seq<string>)
    requires AllListed(table, rooms) && Distinct(rooms)
    ensures PlacesOrdered(rooms, Layout(table, rooms))
    ensures Distinct(Layout(table, rooms))
  {
    SeatBlocksOrdered(table, rooms, |SeatOrder|);
    assert SeatOrder[..|SeatOrder|] == SeatOrder;
    var l := Layout(table, rooms);
    forall i, j | 0 <= i < j < |l| ensures l[i] != l[j] {
      assert PlaceBefore(rooms, l[i], l[j]);
    }
  }

  // ---------------------------------------------------------------------
  // Properties of the assignment.

  lemma PlacesOfAssign(places: seq<Place>, students: seq<Student>, day: Option<string>)
    requires DayIsColumn(students, day)
    ensures Places(Assign(places, students, day)) == places
  {
  }

  lemma {:induction false} CountFilledAssign(places: seq<Place>, students: seq<Student>, day: Option<string>)
    requires DayIsColumn(students, day)
    requires forall k :: 0 <= k < |students| ==> students[k].classNo != Dash
    ensures CountFilled(Assign(places, students, day)) == if |students| < |places| then |students| else |places|
  {
    var s := Assign(places, students, day);
    if |places| > 0 {
      var init := places[..|places| - 1];
      CountFilledAssign(init, students, day);
      assert s[..|s| - 1] == Assign(init, students, day);
    }
  }

  /** Seated slots number `min(len(students), capacity)`, provided no roster
      row has the sentinel "-" as its Class No; the rest of the roster is
      dropped without error. */
  lemma SeatedCount(table: seq<RoomRow>, rooms: seq<string>, students: seq<Student>, day: Option<string>)
    requires AllListed(table, rooms) && DayIsColumn(students, day)
    requires forall k :: 0 <= k < |students| ==> students[k].classNo != Dash
    ensures CountFilled(Assign(Layout(table, rooms), students, day))
            == if |students| < Capacity(table, rooms) then |students| else Capacity(table, rooms)
  {
    LayoutLength(table, rooms);
    CountFilledAssign(Layout(table, rooms), students, day);
  }

  /** A `Subjects` value other than "-" is the `", "`-join of the day cell's
      non-blank, normalised tokens, and there is at least one of them. */
  lemma SubjectsFieldShape(student: Student, day: Option<string>)
    requires DaySelected(day) ==> day.value in student.days
    ensures var r := SubjectsField(student, day);
            r != Dash ==>
              && DaySelected(day) && student.days[day.value].Value?
              && var toks := SubjectTokens(student.days[day.value].text);
                 |toks| > 0 && r == Join(toks, ", ")
    ensures !DaySelected(day) || student.days[day.value].Missing? ==> SubjectsField(student, day) == Dash
  {
  }

  // ---------------------------------------------------------------------
  // Properties of the display grid.

  lemma RoomGridRows(slots: seq<Slot>, room: string, y: GridRow)
    requires y in RoomGrid(slots, room)
    ensures y.room == room
    ensures exists j :: 0 <= j < |slots| && slots[j].room == room && slots[j].bench == y.bench
  {
    var bs := SortedDistinct(BenchesIn(slots, room), IntLt);
    var k :| 0 <= k < |bs| && RoomGrid(slots, room)[k] == y;
    assert bs[k] in bs;
  }

  lemma {:induction false} PivotRooms(slots: seq<Slot>, rooms: seq<string>, g: GridRow)
    requires g in Pivot(slots, rooms)
    ensures g.room in rooms
    ensures exists j :: 0 <= j < |slots| && slots[j].room == g.room && slots[j].bench == g.bench
  {
    var init := rooms[..|rooms| - 1];
    var last := rooms[|rooms| - 1];
    assert rooms == init + [last];
    if g in Pivot(slots, init) {
      PivotRooms(slots, init, g);
    } else {
      RoomGridRows(slots, last, g);
    }
  }

  /** The grid has a row for (room, bench) exactly when the room is selected
      and some slot sits on that bench of that room. */
  lemma {:induction false} PivotKeys(slots: seq<Slot>, rooms: seq<string>, room: string, bench: int)
    ensures (exists i :: 0 <= i < |Pivot(slots, rooms)| && Pivot(slots, rooms)[i].room == room && Pivot(slots, rooms)[i].bench == bench)
        <==> (room in rooms && exists j :: 0 <= j < |slots| && slots[j].room == room && slots[j].bench == bench)
  {
    var g := Pivot(slots, rooms);
    if i :| 0 <= i < |g| && g[i].room == room && g[i].bench == bench {
      PivotRooms(slots, rooms, g[i]);
    }
    if room in rooms && exists j :: 0 <= j < |slots| && slots[j].room == room && slots[j].bench == bench {
      PivotHasRow(slots, rooms, room, bench);
    }
  }

  /** Every bench some slot of `room` sits on has a row in the room's grid. */
  lemma RoomGridHasRow(slots: seq<Slot>, room: string, bench: int) returns (k: nat)
    requires exists j :: 0 <= j < |slots| && slots[j].room == room && slots[j].bench == bench
    ensures k < |RoomGrid(slots, room)| && RoomGrid(slots, room)[k].room == room
            && RoomGrid(slots, room)[k].bench == bench
  {
    var bs := SortedDistinct(BenchesIn(slots, room), IntLt);
    assert bench in BenchesIn(slots, room);
    assert bench in bs;
    k :| 0 <= k < |bs| && bs[k] == bench;
  }

  lemma {:induction false} PivotHasRow(slots: seq<Slot>, rooms: seq<string>, room: string, bench: int)
    requires room in rooms
    requires exists j :: 0 <= j < |slots| && slots[j].room == room && slots[j].bench == bench
    ensures exists i :: 0 <= i < |Pivot(slots, rooms)| && Pivot(slots, rooms)[i].room == room && Pivot(slots, rooms)[i].bench == bench
  {
    var init := rooms[..|rooms| - 1];
    var last := rooms[|rooms| - 1];
    var g := Pivot(slots, rooms);
    assert g == Pivot(slots, init) + RoomGrid(slots, last);
    if room == last {
      var k := RoomGridHasRow(slots, room, bench);
      var i := |Pivot(slots, init)| + k;
      assert g[i] == RoomGrid(slots, last)[k];
      assert 0 <= i < |g| && g[i].room == room && g[i].bench == bench;
    } else {
      assert room in init by {
        InitLast(rooms);
      }
      PivotHasRow(slots, init, room, bench);
      var i :| 0 <= i < |Pivot(slots, init)| && Pivot(slots, init)[i].room == room && Pivot(slots, init)[i].bench == bench;
      assert g[i] == Pivot(slots, init)[i];
      assert 0 <= i < |g| && g[i].room == room && g[i].bench == bench;
    }
  }

  lemma {:induction false} RoomGridOrdered(slots: seq<Slot>, rooms: seq<string>, room: string)
    ensures GridOrdered(rooms, RoomGrid(slots, room))
  {
    IntLtIsStrictTotalOrder();
    SortedDistinctIncreasing(BenchesIn(slots, room), IntLt);
  }

  lemma {:induction false} GridConcatOrdered(rooms: seq<string>, a: seq<GridRow>, b: seq<GridRow>)
    requires GridOrdered(rooms, a) && GridOrdered(rooms, b)
    requires forall x, y :: x in a && y in b ==> GridBefore(rooms, x, y)
    ensures GridOrdered(rooms, a + b)
  {
    var c := a + b;
    forall i, j | 0 <= i < j < |c| ensures GridBefore(rooms, c[i], c[j]) {
      if j < |a| {
        assert c[i] == a[i] && c[j] == a[j];
      } else if i >= |a| {
        assert c[i] == b[i - |a|] && c[j] == b[j - |a|];
      } else {
        assert c[i] in a && c[j] in b;
      }
    }
  }

  lemma {:induction false} PivotOrderedPrefix(slots: seq<Slot>, all: seq<string>, n: nat)
    requires Distinct(all) && n <= |all|
    ensures GridOrdered(all, Pivot(slots, all[..n]))
  {
    if n > 0 {
      assert all[..n][..n - 1] == all[..n - 1];
      PivotOrderedPrefix(slots, all, n - 1);
      var a := Pivot(slots, all[..n - 1]);
      var b := RoomGrid(slots, all[n - 1]);
      RoomGridOrdered(slots, all, all[n - 1]);
      IndexOfDistinct(all, n - 1);
      forall x, y | x in a && y in b ensures GridBefore(all, x, y) {
        PivotRooms(slots, all[..n - 1], x);
        IndexOfPrefix(all, n - 1, x.room);
        RoomGridRows(slots, all[n - 1], y);
      }
      GridConcatOrdered(all, a, b);
    }
  }

  /** Grid rows are ordered by the room's selection index, then by bench, so
      each (room, bench) pair has one row. */
  lemma PivotOrdered(slots: seq<Slot>, rooms: seq<string>)
    requires Distinct(rooms)
    ensures GridOrdered(rooms, Pivot(slots, rooms))
  {
    PivotOrderedPrefix(slots, rooms, |rooms|);
    assert rooms[..|rooms|] == rooms;
  }

  /** In the grid built from a seating, every row has all three seat columns
      filled, and each cell holds the `Class No` of the one slot at that room,
      bench and seat. */
  lemma SeatingGridCells(table: seq<RoomRow>, rooms: seq<string>, students: seq<Student>, day: Option<string>,
                         i: nat, j: nat)
    requires AllListed(table, rooms) && Distinct(rooms) && DayIsColumn(students, day)
    requires i < |Pivot(Assign(Layout(table, rooms), students, day), rooms)|
    requires j < |Assign(Layout(table, rooms), students, day)|
    ensures var slots := Assign(Layout(table, rooms), students, day);
            var g := Pivot(slots, rooms)[i];
            && g.left.Some? && g.center.Some? && g.right.Some?
            && (slots[j].room == g.room && slots[j].bench == g.bench ==>
                  GridCell(g, slots[j].seat) == Some(slots[j].classNo))
  {
    var l := Layout(table, rooms);
    var slots := Assign(l, students, day);
    var g := Pivot(slots, rooms)[i];
    PlacesOfAssign(l, students, day);
    PivotRooms(slots, rooms, g);
    var j0 :| 0 <= j0 < |slots| && slots[j0].room == g.room && slots[j0].bench == g.bench;
    assert l[j0] == Places(slots)[j0];
    LayoutMembers(table, rooms, l[j0]);
    PivotCellsAre(slots, rooms, g);
    LayoutCellFilled(table, rooms, students, day, g.room, g.bench, Left);
    LayoutCellFilled(table, rooms, students, day, g.room, g.bench, Center);
    LayoutCellFilled(table, rooms, students, day, g.room, g.bench, Right);
    if slots[j].room == g.room && slots[j].bench == g.bench {
      LayoutCellIs(table, rooms, students, day, j);
      match slots[j].seat
      case Left =>
      case Center =>
      case Right =>
    }
  }

  /** Every seat of a bench of a selected room has a slot. */
  lemma LayoutCellFilled(table: seq<RoomRow>, rooms: seq<string>, students: seq<Student>, day: Option<string>,
                         room: string, bench: int, seat: Seat)
    requires AllListed(table, rooms) && DayIsColumn(students, day)
    requires room in rooms && InRoom(table, room, bench)
    ensures CellAt(Assign(Layout(table, rooms), students, day), room, bench, seat).Some?
  {
    PlacesOfAssign(Layout(table, rooms), students, day);
    LayoutMembers(table, rooms, Place(room, bench, seat));
  }

  /** The cell at a slot's own place is that slot's `Class No`: no other slot
      shares its place. */
  lemma LayoutCellIs(table: seq<RoomRow>, rooms: seq<string>, students: seq<Student>, day: Option<string>, j: nat)
    requires AllListed(table, rooms) && Distinct(rooms) && DayIsColumn(students, day)
    requires j < |Assign(Layout(table, rooms), students, day)|
    ensures var slots := Assign(Layout(table, rooms), students, day);
            CellAt(slots, slots[j].room, slots[j].bench, slots[j].seat) == Some(slots[j].classNo)
  {
    var l := Layout(table, rooms);
    var slots := Assign(l, students, day);
    PlacesOfAssign(l, students, day);
    LayoutOrdered(table, rooms);
    assert l[j] == PlaceOf(slots[j]);
    IndexOfDistinct(l, j);
  }

  lemma {:induction false} PivotCellsAre(slots: seq<Slot>, rooms: seq<string>, g: GridRow)
    requires g in Pivot(slots, rooms)
    ensures g.left == CellAt(slots, g.room, g.bench, Left)
    ensures g.center == CellAt(slots, g.room, g.bench, Center)
    ensures g.right == CellAt(slots, g.room, g.bench, Right)
  {
    var init := rooms[..|rooms| - 1];
    if g in Pivot(slots, init) {
      PivotCellsAre(slots, init, g);
    } else {
      RoomGridCellsAre(slots, rooms[|rooms| - 1], g);
    }
  }

  lemma RoomGridCellsAre(slots: seq<Slot>, room: string, g: GridRow)
    requires g in RoomGrid(slots, room)
    ensures g.left == CellAt(slots, g.room, g.bench, Left)
    ensures g.center == CellAt(slots, g.room, g.bench, Center)
    ensures g.right == CellAt(slots, g.room, g.bench, Right)
  {
    var rg := RoomGrid(slots, room);
    var bs := SortedDistinct(BenchesIn(slots, room), IntLt);
    var k :| 0 <= k < |rg| && rg[k] == g;
    assert g == GridRow(room, bs[k], CellAt(slots, room, bs[k], Left),
                        CellAt(slots, room, bs[k], Center), CellAt(slots, room, bs[k], Right));
  }
}
