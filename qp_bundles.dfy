/** `generate_room_pdfs` (SeatMaster/qp_arrange.py): for every selected room
    that has detail rows, counts the room's subjects (`value_counts`), resolves
    each subject to a question-paper code through the first matching mapping
    row, and appends `count` copies of that code's uploaded pages to the
    room's bundle; unresolved subjects raise a warning instead.  The resolved
    (room, subject, code, count) rows are then grouped into an audit table
    with a per-room total. */
module QpBundles {
  import opened Collections
  import opened Text
  import opened Utils
  import opened Seating
  import opened QpSummaries

  /** One page of an uploaded question paper; its content is opaque here. */
  datatype Page = Page(bytes: seq<bv8>)

  /** One row of the subject-to-code mapping: `QP Code`, `Subject Name`. */
  datatype MapRow = MapRow(qpCode: string, subjectName: string)

  /** The two `st.warning` messages. */
  datatype Warning =
    | NoQpCode(subject: string, room: string)
    | NoUpload(qpCode: string, subject: string, room: string)

  /** One `room_summary_rows` entry. */
  datatype AuditRow = AuditRow(room: string, subject: string, qpCode: string, students: nat)

  // ---------------------------------------------------------------------
  // Subject counts (`value_counts`).

  function Ones(xs: seq<string>): (es: seq<(string, nat)>)
    ensures |es| == |xs|
  {
    seq(|xs|, j requires 0 <= j < |xs| => (xs[j], 1))
  }

  /** Number of occurrences of `x` in `xs`. */
  function Occ(xs: seq<string>, x: string): nat {
    WeightOf(Ones(xs), x)
  }

  function CountKeys(counts: seq<(string, nat)>): (ks: seq<string>)
    ensures |ks| == |counts|
  {
    seq(|counts|, i requires 0 <= i < |counts| => counts[i].0)
  }

  /** `counts` is a possible result of `xs.value_counts().to_dict().items()`:
      each distinct value once with its number of occurrences, in
      non-increasing order of count (ties in any order). */
  ghost predicate IsValueCounts(counts: seq<(string, nat)>, xs: seq<string>) {
    && Distinct(CountKeys(counts))
    && (forall i :: 0 <= i < |counts| ==> counts[i].0 in xs && counts[i].1 == Occ(xs, counts[i].0))
    && (forall j :: 0 <= j < |xs| ==> xs[j] in CountKeys(counts))
    && (forall i, j :: 0 <= i < j < |counts| ==> counts[i].1 >= counts[j].1)
  }

  function CountsTotal(counts: seq<(string, nat)>): nat {
    if |counts| == 0 then 0 else CountsTotal(counts[..|counts| - 1]) + counts[|counts| - 1].1
  }

  lemma MaxExists(s: set<string>, xs: seq<string>)
    requires s != {}
    ensures exists m :: m in s && forall t :: t in s ==> Occ(xs, t) <= Occ(xs, m)
  {
    var x :| x in s;
    if s != {x} {
      var rest := s - {x};
      MaxExists(rest, xs);
      var m :| m in rest && forall t :: t in rest ==> Occ(xs, t) <= Occ(xs, m);
      if Occ(xs, x) > Occ(xs, m) {
        assert forall t :: t in s ==> Occ(xs, t) <= Occ(xs, x);
      } else {
        assert forall t :: t in s ==> Occ(xs, t) <= Occ(xs, m);
      }
    }
  }

  /** The state of `value_counts` part-way: `counts` holds the values already
      taken, each with its count, in non-increasing order, and no remaining
      value outranks any of them. */
  ghost predicate PickedSoFar(counts: seq<(string, nat)>, remaining: set<string>, xs: seq<string>) {
    && (forall t :: t in remaining ==> t in xs)
    && (forall i :: 0 <= i < |counts| ==>
          counts[i].0 in xs && counts[i].1 == Occ(xs, counts[i].0) && counts[i].0 !in remaining)
    && (forall j :: 0 <= j < |xs| ==> xs[j] in remaining || xs[j] in CountKeys(counts))
    && Distinct(CountKeys(counts))
    && (forall i, j :: 0 <= i < j < |counts| ==> counts[i].1 >= counts[j].1)
    && (forall i, t :: 0 <= i < |counts| && t in remaining ==> counts[i].1 >= Occ(xs, t))
  }

  lemma CountKeysSnoc(counts: seq<(string, nat)>, e: (string, nat))
    ensures CountKeys(counts + [e]) == CountKeys(counts) + [e.0]
  {
  }

  lemma PickStep(counts: seq<(string, nat)>, remaining: set<string>, xs: seq<string>, m: string)
    requires PickedSoFar(counts, remaining, xs)
    requires m in remaining && forall t :: t in remaining ==> Occ(xs, t) <= Occ(xs, m)
    ensures PickedSoFar(counts + [(m, Occ(xs, m))], remaining - {m}, xs)
  {
    var next := counts + [(m, Occ(xs, m))];
    var rest := remaining - {m};
    CountKeysSnoc(counts, (m, Occ(xs, m)));
    assert m !in CountKeys(counts);
    forall i | 0 <= i < |next| ensures next[i].0 in xs && next[i].1 == Occ(xs, next[i].0) && next[i].0 !in rest {
      if i < |counts| {
        assert next[i] == counts[i];
      }
    }
    forall j | 0 <= j < |xs| ensures xs[j] in rest || xs[j] in CountKeys(next) {
      if xs[j] == m {
        assert CountKeys(next)[|counts|] == m;
      }
    }
    forall i, j | 0 <= i < j < |next| ensures next[i].1 >= next[j].1 {
      if j < |counts| {
        assert next[i] == counts[i] && next[j] == counts[j];
      }
    }
    forall i, t | 0 <= i < |next| && t in rest ensures next[i].1 >= Occ(xs, t) {
      if i < |counts| {
        assert next[i] == counts[i];
      }
    }
  }

  /** `value_counts`: repeatedly take a remaining subject of largest count. */
  method ValueCounts(xs: seq<string>) returns (counts: seq<(string, nat)>)
    ensures IsValueCounts(counts, xs)
  {
    var remaining: set<string> := set j | 0 <= j < |xs| :: xs[j];
    counts := [];
    while remaining != {}
      invariant PickedSoFar(counts, remaining, xs)
      decreases |remaining|
    {
      MaxExists(remaining, xs);
      var m :| m in remaining && forall t :: t in remaining ==> Occ(xs, t) <= Occ(xs, m);
      PickStep(counts, remaining, xs, m);
      counts := counts + [(m, Occ(xs, m))];
      remaining := remaining - {m};
    }
  }

  lemma {:induction false} OnesTotal(xs: seq<string>)
    ensures SumWhere(Ones(xs), _ => true) == |xs|
  {
    if |xs| > 0 {
      assert Ones(xs)[..|xs| - 1] == Ones(xs[..|xs| - 1]);
      OnesTotal(xs[..|xs| - 1]);
    }
  }

  lemma {:induction false} CountsTotalIsKeySum(counts: seq<(string, nat)>, xs: seq<string>)
    requires forall i :: 0 <= i < |counts| ==> counts[i].1 == Occ(xs, counts[i].0)
    ensures CountsTotal(counts) == KeySum(CountKeys(counts), Ones(xs), _ => true)
  {
    if |counts| > 0 {
      var n := |counts|;
      assert CountKeys(counts)[..n - 1] == CountKeys(counts[..n - 1]);
      CountsTotalIsKeySum(counts[..n - 1], xs);
    }
  }

  /** The counts of `value_counts` add up to the number of values counted. */
  lemma ValueCountsTotal(counts: seq<(string, nat)>, xs: seq<string>)
    requires IsValueCounts(counts, xs)
    ensures CountsTotal(counts) == |xs|
  {
    CountsTotalIsKeySum(counts, xs);
    KeySumCoversEntries(CountKeys(counts), Ones(xs), _ => true);
    OnesTotal(xs);
  }

  lemma {:induction false} OccSubjectsIn(detail: seq<DetailRow>, room: string, s: string)
    ensures Occ(SubjectsIn(detail, room), s) == Needed(detail, (room, s))
  {
    if |detail| > 0 {
      var init := detail[..|detail| - 1];
      var d := detail[|detail| - 1];
      OccSubjectsIn(init, room, s);
      assert KeyEntries(detail)[..|detail| - 1] == KeyEntries(init);
      var a := SubjectsIn(init, room);
      if d.room == room {
        OccSnoc(a, d.subject, s);
      } else {
        assert SubjectsIn(detail, room) == a;
      }
    }
  }

  lemma OccSnoc(xs: seq<string>, y: string, x: string)
    ensures Occ(xs + [y], x) == Occ(xs, x) + (if y == x then 1 else 0)
  {
    var b := xs + [y];
    assert Ones(b)[..|xs|] == Ones(xs);
    assert Ones(b)[|xs|] == (y, 1);
  }

  /** A room's subject count is the `QP_Needed` of that (room, subject) in
      the counts table built from the same detail rows. */
  lemma ValueCountsAreNeeded(counts: seq<(string, nat)>, detail: seq<DetailRow>, room: string, i: nat)
    requires IsValueCounts(counts, SubjectsIn(detail, room)) && i < |counts|
    ensures counts[i].1 == Needed(detail, (room, counts[i].0))
  {
    OccSubjectsIn(detail, room, counts[i].0);
  }

  // ---------------------------------------------------------------------
  // Code resolution and page assembly.

  function Names(mapping: seq<MapRow>): (ns: seq<string>)
    ensures |ns| == |mapping|
  {
    seq(|mapping|, i requires 0 <= i < |mapping| => mapping[i].subjectName)
  }

  /** `matched[0]`: the code of the first mapping row whose name equals the
      subject, or None when no row does. */
  function ResolveCode(mapping: seq<MapRow>, subject: string): (r: Option<string>)
    ensures r.None? <==> forall i :: 0 <= i < |mapping| ==> mapping[i].subjectName != subject
    ensures r.Some? ==> exists i :: && 0 <= i < |mapping| && mapping[i].subjectName == subject
                                    && mapping[i].qpCode == r.value
                                    && forall j :: 0 <= j < i ==> mapping[j].subjectName != subject
  {
    var names := Names(mapping);
    assert forall j :: 0 <= j < |mapping| ==> names[j] == mapping[j].subjectName;
    var i := IndexOf(names, subject);
    if i < |mapping| then Some(mapping[i].qpCode) else None
  }

  /** What happens to one subject of a room. */
  datatype Resolution = Unmapped | NotUploaded(code: string) | Resolved(code: string, source: seq<Page>)

  function Resolve(mapping: seq<MapRow>, uploaded: map<string, seq<Page>>, subject: string): Resolution {
    match ResolveCode(mapping, subject)
    case None => Unmapped
    case Some(code) => if code in uploaded then Resolved(code, uploaded[code]) else NotUploaded(code)
  }

  /** `n` consecutive copies of `src`. */
  function Repeat(src: seq<Page>, n: nat): seq<Page> {
    if n == 0 then [] else Repeat(src, n - 1) + src
  }

  /** The pages a room's bundle receives for the subjects `counts`, in order. */
  function BundlePages(mapping: seq<MapRow>, uploaded: map<string, seq<Page>>, counts: seq<(string, nat)>): seq<Page> {
    if |counts| == 0 then []
    else
      var prev := BundlePages(mapping, uploaded, counts[..|counts| - 1]);
      var last := counts[|counts| - 1];
      match Resolve(mapping, uploaded, last.0)
      case Resolved(_, src) => prev + Repeat(src, last.1)
      case _ => prev
  }

  function BundleAudit(mapping: seq<MapRow>, uploaded: map<string, seq<Page>>, room: string,
                       counts: seq<(string, nat)>): seq<AuditRow> {
    if |counts| == 0 then []
    else
      var prev := BundleAudit(mapping, uploaded, room, counts[..|counts| - 1]);
      var last := counts[|counts| - 1];
      match Resolve(mapping, uploaded, last.0)
      case Resolved(code, _) => prev + [AuditRow(room, last.0, code, last.1)]
      case _ => prev
  }

  /** The `st.warning` raised for a subject that is not resolved. */
  function WarningOf(res: Resolution, subject: string, room: string): Warning
    requires !res.Resolved?
  {
    if res.Unmapped? then NoQpCode(subject, room) else NoUpload(res.code, subject, room)
  }

  function BundleWarnings(mapping: seq<MapRow>, uploaded: map<string, seq<Page>>, room: string,
                          counts: seq<(string, nat)>): seq<Warning> {
    if |counts| == 0 then []
    else
      var prev := BundleWarnings(mapping, uploaded, room, counts[..|counts| - 1]);
      var last := counts[|counts| - 1];
      var res := Resolve(mapping, uploaded, last.0);
      if res.Resolved? then prev else prev + [WarningOf(res, last.0, room)]
  }

  /** `for _ in range(count): for p in reader.pages: writer.add_page(p)`. */
  method AppendCopies(pages: seq<Page>, src: seq<Page>, count: nat) returns (out: seq<Page>)
    ensures out == pages + Repeat(src, count)
  {
    out := pages;
    var c := 0;
    while c < count
      invariant 0 <= c <= count
      invariant out == pages + Repeat(src, c)
    {
      ghost var before := out;
      var k := 0;
      while k < |src|
        invariant 0 <= k <= |src|
        invariant out == before + src[..k]
      {
        assert src[..k + 1] == src[..k] + [src[k]];
        out := out + [src[k]];
        k := k + 1;
      }
      assert src[..k] == src;
      c := c + 1;
    }
  }

  /** One room's pass over its subject counts. */
  method RoomBundle(mapping: seq<MapRow>, uploaded: map<string, seq<Page>>, room: string,
                    counts: seq<(string, nat)>)
    returns (pages: seq<Page>, audit: seq<AuditRow>, warnings: seq<Warning>)
    ensures pages == BundlePages(mapping, uploaded, counts)
    ensures audit == BundleAudit(mapping, uploaded, room, counts)
    ensures warnings == BundleWarnings(mapping, uploaded, room, counts)
  {
    pages, audit, warnings := [], [], [];
    var i := 0;
    while i < |counts|
      invariant 0 <= i <= |counts|
      invariant pages == BundlePages(mapping, uploaded, counts[..i])
      invariant audit == BundleAudit(mapping, uploaded, room, counts[..i])
      invariant warnings == BundleWarnings(mapping, uploaded, room, counts[..i])
    {
      assert counts[..i + 1][..i] == counts[..i];
      var subj := counts[i].0;
      var count := counts[i].1;
      var matched := ResolveCode(mapping, subj);
      if matched.None? {
        warnings := warnings + [NoQpCode(subj, room)];
      } else if matched.value !in uploaded {
        warnings := warnings + [NoUpload(matched.value, subj, room)];
      } else {
        var qpCode := matched.value;
        pages := AppendCopies(pages, uploaded[qpCode], count);
        audit := audit + [AuditRow(room, subj, qpCode, count)];
      }
      i := i + 1;
    }
    assert counts[..i] == counts;
  }

  // ---------------------------------------------------------------------
  // The audit table.

  type AuditKey = (string, string, string)

  /** The order of the (Room, Subject, QP Code) groupby keys. */
  predicate AuditKeyLt(a: AuditKey, b: AuditKey) {
    || StrLt(a.0, b.0)
    || (a.0 == b.0 && StrLt(a.1, b.1))
    || (a.0 == b.0 && a.1 == b.1 && StrLt(a.2, b.2))
  }

  function AuditKeyOf(r: AuditRow): AuditKey { (r.room, r.subject, r.qpCode) }

  function AuditEntries(raw: seq<AuditRow>): (es: seq<(AuditKey, nat)>)
    ensures |es| == |raw|
  {
    seq(|raw|, i requires 0 <= i < |raw| => (AuditKeyOf(raw[i]), raw[i].students))
  }

  function AuditKeySeq(raw: seq<AuditRow>): (ks: seq<AuditKey>)
    ensures |ks| == |raw|
  {
    seq(|raw|, i requires 0 <= i < |raw| => AuditKeyOf(raw[i]))
  }

  function AuditKeys(raw: seq<AuditRow>): seq<AuditKey> {
    SortedDistinct(AuditKeySeq(raw), AuditKeyLt)
  }

  function OfRoom(room: string): AuditKey -> bool {
    (k: AuditKey) => k.0 == room
  }

  /** One row of the final `room_summary_df`. */
  datatype AuditLine = AuditLine(room: string, subject: string, qpCode: string, students: nat, totalStudents: nat)

  /** Group by (Room, Subject, QP Code) summing `Students`, then merge in the
      per-room sum of the grouped `Students`; empty when there are no rows. */
  function AuditTable(raw: seq<AuditRow>): seq<AuditLine> {
    if |raw| == 0 then []
    else
      var keys := AuditKeys(raw);
      var es := AuditEntries(raw);
      seq(|keys|, i requires 0 <= i < |keys| =>
        AuditLine(keys[i].0, keys[i].1, keys[i].2, WeightOf(es, keys[i]), KeySum(keys, es, OfRoom(keys[i].0))))
  }

  /** The `Students` of the raw rows of `room`. */
  function RoomStudents(raw: seq<AuditRow>, room: string): nat {
    if |raw| == 0 then 0
    else RoomStudents(raw[..|raw| - 1], room) + (if raw[|raw| - 1].room == room then raw[|raw| - 1].students else 0)
  }

  // ---------------------------------------------------------------------
  // The operation.

  /** The guard `mapping_df is not None and not qp_summary_df.empty and uploaded_qps`. */
  predicate Enabled(mapping: Option<seq<MapRow>>, detail: seq<DetailRow>, uploaded: map<string, seq<Page>>) {
    mapping.Some? && |detail| > 0 && |uploaded| > 0
  }

  /** `room_pdfs` after the rooms `rooms`, room r having taken the subject
      order `chosen[r]`; a later entry for the same room replaces an earlier. */
  function RoomPdfs(mapping: seq<MapRow>, uploaded: map<string, seq<Page>>, rooms: seq<string>,
                    chosen: seq<seq<(string, nat)>>): map<string, seq<Page>>
    requires |chosen| == |rooms|
  {
    if |rooms| == 0 then map[]
    else
      var n := |rooms| - 1;
      var m := RoomPdfs(mapping, uploaded, rooms[..n], chosen[..n]);
      var pages := BundlePages(mapping, uploaded, chosen[n]);
      if |pages| > 0 then m[rooms[n] := pages] else m
  }

  function RawAudit(mapping: seq<MapRow>, uploaded: map<string, seq<Page>>, rooms: seq<string>,
                    chosen: seq<seq<(string, nat)>>): seq<AuditRow>
    requires |chosen| == |rooms|
  {
    if |rooms| == 0 then []
    else
      var n := |rooms| - 1;
      RawAudit(mapping, uploaded, rooms[..n], chosen[..n]) + BundleAudit(mapping, uploaded, rooms[n], chosen[n])
  }

  function AllWarnings(mapping: seq<MapRow>, uploaded: map<string, seq<Page>>, rooms: seq<string>,
                       chosen: seq<seq<(string, nat)>>): seq<Warning>
    requires |chosen| == |rooms|
  {
    if |rooms| == 0 then []
    else
      var n := |rooms| - 1;
      AllWarnings(mapping, uploaded, rooms[..n], chosen[..n]) + BundleWarnings(mapping, uploaded, rooms[n], chosen[n])
  }

  /** The loop over the selected rooms, once the guard has passed. */
  method BuildBundles(mapping: seq<MapRow>, detail: seq<DetailRow>, uploaded: map<string, seq<Page>>, rooms: seq<string>)
    returns (roomPdfs: map<string, seq<Page>>, raw: seq<AuditRow>, warnings: seq<Warning>,
             ghost chosen: seq<seq<(string, nat)>>)
    ensures |chosen| == |rooms|
    ensures AllValueCounts(chosen, detail, rooms)
    ensures roomPdfs == RoomPdfs(mapping, uploaded, rooms, chosen)
    ensures warnings == AllWarnings(mapping, uploaded, rooms, chosen)
    ensures raw == RawAudit(mapping, uploaded, rooms, chosen)
  {
    roomPdfs, raw, warnings, chosen := map[], [], [], [];
    var r := 0;
    while r < |rooms|
      invariant 0 <= r <= |rooms|
      invariant |chosen| == r
      invariant AllValueCounts(chosen, detail, rooms)
      invariant roomPdfs == RoomPdfs(mapping, uploaded, rooms[..r], chosen)
      invariant warnings == AllWarnings(mapping, uploaded, rooms[..r], chosen)
      invariant raw == RawAudit(mapping, uploaded, rooms[..r], chosen)
    {
      var room := rooms[r];
      var roomSubjects := SubjectsIn(detail, room);
      if |roomSubjects| == 0 {
        FoldStep(mapping, uploaded, rooms, chosen, r, []);
        AllValueCountsSnoc(chosen, detail, rooms, []);
        chosen := chosen + [[]];
        r := r + 1;
        continue;
      }
      var subjectCounts := ValueCounts(roomSubjects);
      var pages, audit, ws := RoomBundle(mapping, uploaded, room, subjectCounts);
      FoldStep(mapping, uploaded, rooms, chosen, r, subjectCounts);
      AllValueCountsSnoc(chosen, detail, rooms, subjectCounts);
      chosen := chosen + [subjectCounts];
      raw := raw + audit;
      warnings := warnings + ws;
      if |pages| > 0 {
        roomPdfs := roomPdfs[room := pages];
      }
      r := r + 1;
    }
    assert rooms[..r] == rooms;
  }

  /** Each recorded subject order is a `value_counts` result for its room. */
  ghost predicate AllValueCounts(chosen: seq<seq<(string, nat)>>, detail: seq<DetailRow>, rooms: seq<string>) {
    |chosen| <= |rooms| && forall k :: 0 <= k < |chosen| ==> IsValueCounts(chosen[k], SubjectsIn(detail, rooms[k]))
  }

  lemma AllValueCountsSnoc(chosen: seq<seq<(string, nat)>>, detail: seq<DetailRow>, rooms: seq<string>,
                           counts: seq<(string, nat)>)
    requires AllValueCounts(chosen, detail, rooms) && |chosen| < |rooms|
    requires IsValueCounts(counts, SubjectsIn(detail, rooms[|chosen|]))
    ensures AllValueCounts(chosen + [counts], detail, rooms)
  {
  }

  lemma FoldStep(mapping: seq<MapRow>, uploaded: map<string, seq<Page>>, rooms: seq<string>,
                 chosen: seq<seq<(string, nat)>>, r: nat, counts: seq<(string, nat)>)
    requires r < |rooms| && |chosen| == r
    ensures var rs := rooms[..r + 1];
            var ch := chosen + [counts];
            var pages := BundlePages(mapping, uploaded, counts);
            var m := RoomPdfs(mapping, uploaded, rooms[..r], chosen);
            && RoomPdfs(mapping, uploaded, rs, ch) == (if |pages| > 0 then m[rooms[r] := pages] else m)
            && AllWarnings(mapping, uploaded, rs, ch)
                 == AllWarnings(mapping, uploaded, rooms[..r], chosen) + BundleWarnings(mapping, uploaded, rooms[r], counts)
            && RawAudit(mapping, uploaded, rs, ch)
                 == RawAudit(mapping, uploaded, rooms[..r], chosen) + BundleAudit(mapping, uploaded, rooms[r], counts)
  {
    var rs := rooms[..r + 1];
    var ch := chosen + [counts];
    assert rs[..r] == rooms[..r];
    assert ch[..r] == chosen;
  }

  /** `generate_room_pdfs`.  The ghost `chosen[r]` records the subject order
      `value_counts` produced for `rooms[r]` (empty for a room without rows). */
  method GenerateRoomPdfs(mapping: Option<seq<MapRow>>, detail: seq<DetailRow>,
                          uploaded: map<string, seq<Page>>, rooms: seq<string>)
    returns (roomPdfs: map<string, seq<Page>>, summary: seq<AuditLine>, warnings: seq<Warning>,
             ghost chosen: seq<seq<(string, nat)>>)
    ensures |chosen| == |rooms|
    ensures !Enabled(mapping, detail, uploaded) ==> roomPdfs == map[] && summary == [] && warnings == []
    ensures Enabled(mapping, detail, uploaded) ==>
              && AllValueCounts(chosen, detail, rooms)
              && roomPdfs == RoomPdfs(mapping.value, uploaded, rooms, chosen)
              && warnings == AllWarnings(mapping.value, uploaded, rooms, chosen)
              && summary == AuditTable(RawAudit(mapping.value, uploaded, rooms, chosen))
  {
    var raw: seq<AuditRow> := [];
    if mapping.Some? && |detail| > 0 && |uploaded| > 0 {
      roomPdfs, raw, warnings, chosen := BuildBundles(mapping.value, detail, uploaded, rooms);
    } else {
      roomPdfs, warnings := map[], [];
      chosen := seq(|rooms|, _ => []);
    }
    summary := AuditTable(raw);
  }

  // ---------------------------------------------------------------------
  // Properties of page assembly.

  lemma {:induction false} RepeatLength(src: seq<Page>, n: nat)
    ensures |Repeat(src, n)| == n * |src|
  {
    if n > 0 {
      RepeatLength(src, n - 1);
      assert (n - 1) * |src| + |src| == n * |src|;
    }
  }

  /** `a + b` copies are `a` copies followed by `b` copies, so a bundle part
      for one subject is `count` back-to-back copies of the source pages. */
  lemma {:induction false} RepeatAdd(src: seq<Page>, a: nat, b: nat)
    ensures Repeat(src, a + b) == Repeat(src, a) + Repeat(src, b)
  {
    if b > 0 {
      RepeatAdd(src, a, b - 1);
    } else {
      assert Repeat(src, a) + [] == Repeat(src, a);
    }
  }

  /** The pages that the resolved rows `audit` stand for, in order. */
  function AuditPages(audit: seq<AuditRow>, uploaded: map<string, seq<Page>>): seq<Page> {
    if |audit| == 0 then []
    else
      var a := audit[|audit| - 1];
      AuditPages(audit[..|audit| - 1], uploaded)
        + (if a.qpCode in uploaded then Repeat(uploaded[a.qpCode], a.students) else [])
  }

  /** Sum of `Students * |source pages|` over the audit rows. */
  function PageTotal(audit: seq<AuditRow>, uploaded: map<string, seq<Page>>): nat {
    if |audit| == 0 then 0
    else
      var a := audit[|audit| - 1];
      PageTotal(audit[..|audit| - 1], uploaded)
        + (if a.qpCode in uploaded then a.students * |uploaded[a.qpCode]| else 0)
  }

  /** A room's bundle is, for each resolved subject in `value_counts` order,
      `count` copies of the code's uploaded pages, and nothing else. */
  lemma {:induction false} BundleIsAuditPages(mapping: seq<MapRow>, uploaded: map<string, seq<Page>>, room: string,
                                              counts: seq<(string, nat)>)
    ensures BundlePages(mapping, uploaded, counts) == AuditPages(BundleAudit(mapping, uploaded, room, counts), uploaded)
  {
    if |counts| > 0 {
      var init := counts[..|counts| - 1];
      var last := counts[|counts| - 1];
      BundleIsAuditPages(mapping, uploaded, room, init);
      var audit := BundleAudit(mapping, uploaded, room, counts);
      var prev := BundleAudit(mapping, uploaded, room, init);
      var res := Resolve(mapping, uploaded, last.0);
      ResolvedIsUploaded(mapping, uploaded, last.0);
      if res.Resolved? {
        var row := AuditRow(room, last.0, res.code, last.1);
        assert audit == prev + [row];
        assert audit[..|audit| - 1] == prev;
        assert BundlePages(mapping, uploaded, counts)
            == BundlePages(mapping, uploaded, init) + Repeat(uploaded[row.qpCode], row.students);
      } else {
        assert audit == prev;
        assert BundlePages(mapping, uploaded, counts) == BundlePages(mapping, uploaded, init);
      }
    }
  }

  /** A resolved subject's pages are the upload of its code. */
  lemma ResolvedIsUploaded(mapping: seq<MapRow>, uploaded: map<string, seq<Page>>, subject: string)
    ensures var res := Resolve(mapping, uploaded, subject);
            res.Resolved? ==> res.code in uploaded && res.source == uploaded[res.code]
  {
  }

  lemma {:induction false} AuditPagesLength(audit: seq<AuditRow>, uploaded: map<string, seq<Page>>)
    ensures |AuditPages(audit, uploaded)| == PageTotal(audit, uploaded)
  {
    if |audit| > 0 {
      AuditPagesLength(audit[..|audit| - 1], uploaded);
      var a := audit[|audit| - 1];
      if a.qpCode in uploaded {
        RepeatLength(uploaded[a.qpCode], a.students);
      }
    }
  }

  /** The page count of a bundle is the sum of `count * |source|` over the
      room's resolved subjects. */
  lemma BundleLength(mapping: seq<MapRow>, uploaded: map<string, seq<Page>>, room: string, counts: seq<(string, nat)>)
    ensures |BundlePages(mapping, uploaded, counts)| == PageTotal(BundleAudit(mapping, uploaded, room, counts), uploaded)
  {
    BundleIsAuditPages(mapping, uploaded, room, counts);
    AuditPagesLength(BundleAudit(mapping, uploaded, room, counts), uploaded);
  }

  /** Every subject either yields an audit row or a warning, never both. */
  lemma {:induction false} BundleOutcomes(mapping: seq<MapRow>, uploaded: map<string, seq<Page>>, room: string,
                                          counts: seq<(string, nat)>)
    ensures |BundleAudit(mapping, uploaded, room, counts)| + |BundleWarnings(mapping, uploaded, room, counts)| == |counts|
  {
    if |counts| > 0 {
      BundleOutcomes(mapping, uploaded, room, counts[..|counts| - 1]);
    }
  }

  /** A resolved subject yields an audit row with its code and count (and
      its pages); one failing subject does not stop the others. */
  lemma {:induction false} BundleAuditHas(mapping: seq<MapRow>, uploaded: map<string, seq<Page>>, room: string,
                                          counts: seq<(string, nat)>, i: nat)
    requires i < |counts| && Resolve(mapping, uploaded, counts[i].0).Resolved?
    ensures AuditRow(room, counts[i].0, Resolve(mapping, uploaded, counts[i].0).code, counts[i].1)
              in BundleAudit(mapping, uploaded, room, counts)
  {
    var n := |counts| - 1;
    if i < n {
      assert counts[..n][i] == counts[i];
      BundleAuditHas(mapping, uploaded, room, counts[..n], i);
    }
  }

  /** A subject that is not resolved yields the warning saying why. */
  lemma {:induction false} BundleWarningsHas(mapping: seq<MapRow>, uploaded: map<string, seq<Page>>, room: string,
                                             counts: seq<(string, nat)>, i: nat)
    requires i < |counts| && !Resolve(mapping, uploaded, counts[i].0).Resolved?
    ensures WarningOf(Resolve(mapping, uploaded, counts[i].0), counts[i].0, room)
              in BundleWarnings(mapping, uploaded, room, counts)
  {
    var n := |counts| - 1;
    if i < n {
      assert counts[..n][i] == counts[i];
      BundleWarningsHas(mapping, uploaded, room, counts[..n], i);
    }
  }

  /** A mapping row whose `Subject Name` is not normalised can never be
      the match for a detail subject, since those are all normalised. */
  lemma UnnormalisedNamesNeverMatch(mapping: seq<MapRow>, slots: seq<Slot>, i: nat, j: nat)
    requires i < |mapping| && !Normalized(mapping[i].subjectName)
    requires j < |DetailRows(slots)|
    ensures mapping[i].subjectName != DetailRows(slots)[j].subject
  {
    DetailRowsNormalized(slots);
  }

  /** With distinct rooms, a room has a bundle exactly when its pass produced
      at least one page, and the bundle is that pass's pages. */
  lemma {:induction false} RoomPdfsMembers(mapping: seq<MapRow>, uploaded: map<string, seq<Page>>, rooms: seq<string>,
                                           chosen: seq<seq<(string, nat)>>, r: nat)
    requires |chosen| == |rooms| && Distinct(rooms) && r < |rooms|
    ensures var pages := BundlePages(mapping, uploaded, chosen[r]);
            var m := RoomPdfs(mapping, uploaded, rooms, chosen);
            && (rooms[r] in m <==> |pages| > 0)
            && (|pages| > 0 ==> m[rooms[r]] == pages)
  {
    var n := |rooms| - 1;
    var rs := rooms[..n];
    var cs := chosen[..n];
    var prev := RoomPdfs(mapping, uploaded, rs, cs);
    var last := BundlePages(mapping, uploaded, chosen[n]);
    assert RoomPdfs(mapping, uploaded, rooms, chosen) == if |last| > 0 then prev[rooms[n] := last] else prev;
    if r < n {
      assert rs[r] == rooms[r] && cs[r] == chosen[r];
      assert Distinct(rs) by {
        forall i, j | 0 <= i < j < |rs| ensures rs[i] != rs[j] {
          assert rs[i] == rooms[i] && rs[j] == rooms[j];
        }
      }
      RoomPdfsMembers(mapping, uploaded, rs, cs, r);
      assert rooms[n] != rooms[r];
    } else {
      assert rooms[n] !in rs by {
        forall k | 0 <= k < n ensures rs[k] != rooms[n] {
          assert rs[k] == rooms[k];
        }
      }
      RoomPdfsKeys(mapping, uploaded, rs, cs, rooms[n]);
    }
  }

  lemma {:induction false} RoomPdfsKeys(mapping: seq<MapRow>, uploaded: map<string, seq<Page>>, rooms: seq<string>,
                                        chosen: seq<seq<(string, nat)>>, room: string)
    requires |chosen| == |rooms|
    ensures room in RoomPdfs(mapping, uploaded, rooms, chosen) ==> room in rooms
  {
    if |rooms| > 0 {
      var n := |rooms| - 1;
      RoomPdfsKeys(mapping, uploaded, rooms[..n], chosen[..n], room);
      InitLast(rooms);
    }
  }

  /** `value_counts` is empty exactly for an empty column. */
  lemma ValueCountsEmpty(counts: seq<(string, nat)>, xs: seq<string>)
    ensures IsValueCounts(counts, xs) ==> (|counts| == 0 <==> |xs| == 0)
  {
    if IsValueCounts(counts, xs) && |counts| > 0 {
      assert counts[0].0 in xs;
    }
    if IsValueCounts(counts, xs) && |xs| > 0 {
      assert xs[0] in CountKeys(counts);
    }
  }

  /** A room without detail rows gets no subject counts, hence no bundle,
      no audit rows and no warnings. */
  lemma NoRowsNoBundle(counts: seq<(string, nat)>, mapping: seq<MapRow>, uploaded: map<string, seq<Page>>, room: string)
    requires IsValueCounts(counts, [])
    ensures BundlePages(mapping, uploaded, counts) == []
    ensures BundleAudit(mapping, uploaded, room, counts) == []
    ensures BundleWarnings(mapping, uploaded, room, counts) == []
  {
    ValueCountsEmpty(counts, []);
  }

  lemma {:induction false} ResolvedStudents(mapping: seq<MapRow>, uploaded: map<string, seq<Page>>, room: string,
                                            counts: seq<(string, nat)>)
    requires forall i :: 0 <= i < |counts| ==> Resolve(mapping, uploaded, counts[i].0).Resolved?
    ensures RoomStudents(BundleAudit(mapping, uploaded, room, counts), room) == CountsTotal(counts)
    ensures BundleWarnings(mapping, uploaded, room, counts) == []
  {
    if |counts| > 0 {
      var init := counts[..|counts| - 1];
      ResolvedStudents(mapping, uploaded, room, init);
      var audit := BundleAudit(mapping, uploaded, room, counts);
      assert audit[..|audit| - 1] == BundleAudit(mapping, uploaded, room, init);
    }
  }

  /** When every subject of a room resolves, the room's audit rows account for
      every one of its detail rows. */
  lemma AllResolvedCoversRoom(mapping: seq<MapRow>, uploaded: map<string, seq<Page>>, detail: seq<DetailRow>,
                              room: string, counts: seq<(string, nat)>)
    requires IsValueCounts(counts, SubjectsIn(detail, room))
    requires forall i :: 0 <= i < |counts| ==> Resolve(mapping, uploaded, counts[i].0).Resolved?
    ensures RoomStudents(BundleAudit(mapping, uploaded, room, counts), room) == |SubjectsIn(detail, room)|
    ensures BundleWarnings(mapping, uploaded, room, counts) == []
  {
    ResolvedStudents(mapping, uploaded, room, counts);
    ValueCountsTotal(counts, SubjectsIn(detail, room));
  }

  // ---------------------------------------------------------------------
  // Properties of the audit table.

  lemma AuditKeyLtIsStrictTotalOrder()
    ensures StrictTotalOrder(AuditKeyLt)
  {
    StrLtIsStrictTotalOrder();
    forall a: AuditKey, b: AuditKey, c: AuditKey | AuditKeyLt(a, b) && AuditKeyLt(b, c)
      ensures AuditKeyLt(a, c) {
      if a.0 != b.0 && b.0 == c.0 {
        assert StrLt(a.0, c.0);
      } else if a.0 == b.0 && b.0 != c.0 {
        assert StrLt(a.0, c.0);
      } else if a.0 == b.0 && b.0 == c.0 && a.1 != b.1 && b.1 == c.1 {
        assert StrLt(a.1, c.1);
      } else if a.0 == b.0 && b.0 == c.0 && a.1 == b.1 && b.1 != c.1 {
        assert StrLt(a.1, c.1);
      }
    }
    forall a: AuditKey, b: AuditKey | a != b ensures AuditKeyLt(a, b) || AuditKeyLt(b, a) {
      if a.0 == b.0 && a.1 == b.1 {
        assert a.2 != b.2;
      }
    }
  }

  lemma {:induction false} RoomStudentsIsSum(raw: seq<AuditRow>, room: string)
    ensures SumWhere(AuditEntries(raw), OfRoom(room)) == RoomStudents(raw, room)
  {
    if |raw| > 0 {
      assert AuditEntries(raw)[..|raw| - 1] == AuditEntries(raw[..|raw| - 1]);
      RoomStudentsIsSum(raw[..|raw| - 1], room);
    }
  }

  // The audit table has one line per distinct (Room, Subject, QP Code) of the
  // raw rows and no other line, keys ascending (AuditTableOrdered,
  // AuditTableCoversRaw, AuditTableNoExtraLines); `Students` sums the raw rows
  // of the key, and `Total Students` is the sum of `Students` over all raw rows
  // of the line's room (AuditTableTotals).

  /** Lines are strictly ascending by (Room, Subject, QP Code). */
  lemma AuditTableOrdered(raw: seq<AuditRow>)
    ensures var t := AuditTable(raw);
            forall i, j :: 0 <= i < j < |t| ==>
              AuditKeyLt((t[i].room, t[i].subject, t[i].qpCode), (t[j].room, t[j].subject, t[j].qpCode))
  {
    if |raw| > 0 {
      var keys := AuditKeys(raw);
      var t := AuditTable(raw);
      AuditKeyLtIsStrictTotalOrder();
      SortedDistinctIncreasing(AuditKeySeq(raw), AuditKeyLt);
      assert forall i :: 0 <= i < |t| ==> (t[i].room, t[i].subject, t[i].qpCode) == keys[i];
    }
  }

  /** The line holding a raw row's key. */
  lemma AuditLineOf(raw: seq<AuditRow>, j: nat) returns (i: nat)
    requires j < |raw|
    ensures var t := AuditTable(raw);
            i < |t| && (t[i].room, t[i].subject, t[i].qpCode) == AuditKeyOf(raw[j])
  {
    var keys := AuditKeys(raw);
    var t := AuditTable(raw);
    assert AuditKeySeq(raw)[j] == AuditKeyOf(raw[j]);
    assert AuditKeyOf(raw[j]) in keys;
    i :| 0 <= i < |keys| && keys[i] == AuditKeyOf(raw[j]);
    assert (t[i].room, t[i].subject, t[i].qpCode) == keys[i];
  }

  /** Every raw row's key has a line. */
  lemma AuditTableCoversRaw(raw: seq<AuditRow>)
    ensures var t := AuditTable(raw);
            forall j :: 0 <= j < |raw| ==>
              exists i :: 0 <= i < |t| && (t[i].room, t[i].subject, t[i].qpCode) == AuditKeyOf(raw[j])
  {
    var t := AuditTable(raw);
    forall j | 0 <= j < |raw|
      ensures exists i :: 0 <= i < |t| && (t[i].room, t[i].subject, t[i].qpCode) == AuditKeyOf(raw[j]) {
      var i := AuditLineOf(raw, j);
    }
  }

  /** Every line of the audit table comes from some raw row. */
  lemma AuditTableNoExtraLines(raw: seq<AuditRow>)
    ensures var t := AuditTable(raw);
            forall i :: 0 <= i < |t| ==>
              exists j :: 0 <= j < |raw| && AuditKeyOf(raw[j]) == (t[i].room, t[i].subject, t[i].qpCode)
  {
    if |raw| > 0 {
      var keys := AuditKeys(raw);
      var t := AuditTable(raw);
      forall i | 0 <= i < |t|
        ensures exists j :: 0 <= j < |raw| && AuditKeyOf(raw[j]) == (t[i].room, t[i].subject, t[i].qpCode) {
        assert (t[i].room, t[i].subject, t[i].qpCode) == keys[i];
        assert keys[i] in AuditKeySeq(raw);
        var j :| 0 <= j < |raw| && AuditKeySeq(raw)[j] == keys[i];
      }
    }
  }

  /** `Students` is the key's sum and `Total Students` the room's sum. */
  lemma AuditTableTotals(raw: seq<AuditRow>)
    ensures var t := AuditTable(raw);
            forall i :: 0 <= i < |t| ==>
              && t[i].students == WeightOf(AuditEntries(raw), (t[i].room, t[i].subject, t[i].qpCode))
              && t[i].totalStudents == RoomStudents(raw, t[i].room)
  {
    if |raw| > 0 {
      var keys := AuditKeys(raw);
      var es := AuditEntries(raw);
      var t := AuditTable(raw);
      AuditKeyLtIsStrictTotalOrder();
      SortedDistinctIncreasing(AuditKeySeq(raw), AuditKeyLt);
      forall j | 0 <= j < |raw| ensures es[j].0 in keys {
        assert AuditKeySeq(raw)[j] == es[j].0;
      }
      forall i | 0 <= i < |t|
        ensures t[i].students == WeightOf(es, (t[i].room, t[i].subject, t[i].qpCode))
        ensures t[i].totalStudents == RoomStudents(raw, t[i].room) {
        assert (t[i].room, t[i].subject, t[i].qpCode) == keys[i];
        KeySumCoversEntries(keys, es, OfRoom(keys[i].0));
        RoomStudentsIsSum(raw, keys[i].0);
      }
    }
  }
}
