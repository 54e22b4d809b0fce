/** Flat groups: the rows of a vector lie side by side in columns of the parent buffer, each member of
    the row in its own field and at its own offset. */
module SerdeGroups {
  import opened Xatmi
  import opened UbfFields
  import opened UbfTrees
  import opened UbfComplex
  import opened SerdeModel
  import opened SerdeWindows
  import opened SerdeRoundTrip

  function GroupFieldCheck(single: bool, base: int, offset: int): Result<int> {
    if !single || offset < 0 then Err(BEINVAL) else Occurrence(base, offset)
  }

  /** A row fits at `base`: every member takes one occurrence, and no index overflows. */
  predicate ValidRow(members: seq<Desc>, base: int) {
    && Occurrence(base, 0).Ok?
    && (members == [] || (GroupFieldCheck(IsSingle(members[0].ty), base, members[0].occ).Ok? && ValidRow(members[1..], base)))
  }

  /** The members of a row have fields of their own. */
  ghost predicate OwnFields(members: seq<Desc>) {
    forall i, j :: 0 <= i < j < |members| ==> members[i].field != members[j].field
  }

  function WriteMembers(env: Env, t: UbfTree, members: seq<Desc>, base: int, row: seq<Value>): Result<UbfTree>
    decreases |members|
  {
    if members == [] || row == [] then (if members == [] && row == [] then Ok(t) else Err(BEINVAL))
    else
      match Write(env, t, members[0].field, base + members[0].occ, members[0].ty, row[0], true)
      case Err(e) => Err(e)
      case Ok(u) => WriteMembers(env, u, members[1..], base, row[1..])
  }

  function WriteRows(env: Env, t: UbfTree, members: seq<Desc>, base: int, rows: seq<seq<Value>>): Result<UbfTree>
    decreases |rows|
  {
    if rows == [] then Ok(t)
    else if !ValidRow(members, base) then Err(BEINVAL)
    else
      match WriteMembers(env, t, members, base, rows[0])
      case Err(e) => Err(e)
      case Ok(u) => WriteRows(env, u, members, base + 1, rows[1..])
  }

  function ClearMembers(t: UbfTree, members: seq<Desc>, from: int): UbfTree
    requires ValidRow(members, from)
    decreases |members|
  {
    if members == [] then t
    else ClearMembers(Trimmed(t, members[0].field, from + members[0].occ), members[1..], from)
  }

  /** A vector of rows: validated up front, written, and each member's stale tail removed. */
  function WriteVec(env: Env, t: UbfTree, members: seq<Desc>, base: int, rows: seq<seq<Value>>): Result<UbfTree> {
    if Occurrence(base, |rows|).Err? || !ValidRow(members, base) || !ValidRow(members, base + |rows|) then Err(BEINVAL)
    else
      match WriteRows(env, t, members, base, rows)
      case Err(e) => Err(e)
      case Ok(u) => Ok(ClearMembers(u, members, base + |rows|))
  }

  function ReadMembers(env: Env, t: UbfTree, members: seq<Desc>, base: int, levels: nat): Result<seq<Value>>
    decreases |members|
  {
    if members == [] then Ok([])
    else
      match Read(env, t, members[0].field, base + members[0].occ, members[0].ty, levels)
      case Err(e) => Err(e)
      case Ok(v) =>
        match ReadMembers(env, t, members[1..], base, levels)
        case Err(e) => Err(e)
        case Ok(vs) => Ok([v] + vs)
  }

  function ReadRows(env: Env, t: UbfTree, members: seq<Desc>, base: int, count: nat, levels: nat): Result<seq<seq<Value>>>
    decreases count
  {
    if count == 0 then Ok([])
    else if !ValidRow(members, base) then Err(BEINVAL)
    else
      match ReadMembers(env, t, members, base, levels)
      case Err(e) => Err(e)
      case Ok(row) =>
        match ReadRows(env, t, members, base + 1, count - 1, levels)
        case Err(e) => Err(e)
        case Ok(rows) => Ok([row] + rows)
  }

  /** The first member anchors the number of rows; its offset does not count. */
  function RowCount(t: UbfTree, anchor: Desc): nat {
    if |Column(t, anchor.field)| > anchor.occ && anchor.occ >= 0 then |Column(t, anchor.field)| - anchor.occ else 0
  }

  function ReadVec(env: Env, t: UbfTree, members: seq<Desc>, base: int, levels: nat): Result<seq<seq<Value>>>
    requires members != []
  {
    var count := RowCount(t, members[0]);
    if !ValidRow(members, base) || GroupFieldCheck(true, base, members[0].occ).Err? then Err(BEINVAL)
    else if count > base && !ValidRow(members, count - 1) then Err(BEINVAL)
    else ReadRows(env, t, members, base, if count > base then count - base else 0, levels)
  }

  function NestRows(rows: seq<seq<Value>>): nat {
    if rows == [] then 0 else Max(NestAll(rows[0]), NestRows(rows[1..]))
  }

  // ----- what a row and a vector of rows touch

  lemma {:induction false} ValidMember(members: seq<Desc>, base: int, j: nat)
    requires ValidRow(members, base) && j < |members|
    ensures IsSingle(members[j].ty) && base >= 0 && members[j].occ >= 0 && base + members[j].occ <= I32_MAX
  {
    if j > 0 { ValidMember(members[1..], base, j - 1); }
  }

  /** Validating the first row and the end validates every row between: no index overflows in the loop. */
  lemma {:induction false} ValidBetween(members: seq<Desc>, base: int, end: int, b: int)
    requires ValidRow(members, base) && ValidRow(members, end) && base <= b <= end
    ensures ValidRow(members, b)
  {
    if members != [] { ValidBetween(members[1..], base, end, b); }
  }

  lemma {:induction false} OtherFieldsStay(env: Env, t: UbfTree, members: seq<Desc>, base: int, row: seq<Value>, g: FieldId)
    requires Sorted(t) && ValidRow(members, base) && WriteMembers(env, t, members, base, row).Ok?
    ensures Sorted(WriteMembers(env, t, members, base, row).value)
    ensures (forall i :: 0 <= i < |members| ==> members[i].field != g) ==> Column(WriteMembers(env, t, members, base, row).value, g) == Column(t, g)
    decreases |members|
  {
    if members != [] {
      var m := members[0];
      WriteTouches(env, t, m.field, base + m.occ, m.ty, row[0], true);
      OtherFieldsStay(env, Write(env, t, m.field, base + m.occ, m.ty, row[0], true).value, members[1..], base, row[1..], g);
    }
  }

  /** A row puts each member in exactly one occurrence of its column. */
  lemma {:induction false} RowTouches(env: Env, t: UbfTree, members: seq<Desc>, base: int, row: seq<Value>, j: nat)
    requires Sorted(t) && ValidRow(members, base) && OwnFields(members) && j < |members| && WriteMembers(env, t, members, base, row).Ok?
    ensures base + members[j].occ >= 0
    ensures Windowed(Column(t, members[j].field), Column(WriteMembers(env, t, members, base, row).value, members[j].field),
                     base + members[j].occ, Fixed(1), TreeGap(members[j].field.kind))
    decreases |members|
  {
    var m := members[0];
    var u := Write(env, t, m.field, base + m.occ, m.ty, row[0], true).value;
    WriteTouches(env, t, m.field, base + m.occ, m.ty, row[0], true);
    if j == 0 {
      FirstMemberStays(env, u, members, base, row);
      assert SpanOf(m.ty, row[0], true) == Fixed(1);
    } else {
      assert members[j].field != m.field;
      RowTouches(env, u, members[1..], base, row[1..], j - 1);
    }
  }

  lemma {:induction false} RowsTouch(env: Env, t: UbfTree, members: seq<Desc>, base: int, rows: seq<seq<Value>>, j: nat)
    requires Sorted(t) && OwnFields(members) && ValidRow(members, base) && j < |members| && WriteRows(env, t, members, base, rows).Ok?
    ensures Sorted(WriteRows(env, t, members, base, rows).value) && base + members[j].occ >= 0
    ensures Windowed(Column(t, members[j].field), Column(WriteRows(env, t, members, base, rows).value, members[j].field),
                     base + members[j].occ, Fixed(|rows|), TreeGap(members[j].field.kind))
    decreases |rows|
  {
    ValidMember(members, base, j);
    if rows != [] {
      var u := WriteMembers(env, t, members, base, rows[0]).value;
      OtherFieldsStay(env, t, members, base, rows[0], members[j].field);
      if rows[1..] == [] {
        RowTouches(env, t, members, base, rows[0], j);
        assert WriteRows(env, t, members, base, rows) == Ok(u);
      } else {
        RowsTouch(env, u, members, base + 1, rows[1..], j);
        RowThenRows(env, t, members, base, rows, j);
      }
    }
  }

  lemma RowThenRows(env: Env, t: UbfTree, members: seq<Desc>, base: int, rows: seq<seq<Value>>, j: nat)
    requires Sorted(t) && OwnFields(members) && ValidRow(members, base) && j < |members| && rows != [] && base + members[j].occ >= 0
    requires WriteRows(env, t, members, base, rows).Ok?
    requires var u, w := WriteMembers(env, t, members, base, rows[0]).value, WriteRows(env, t, members, base, rows).value;
             Windowed(Column(u, members[j].field), Column(w, members[j].field), base + 1 + members[j].occ, Fixed(|rows| - 1), TreeGap(members[j].field.kind))
    ensures Windowed(Column(t, members[j].field), Column(WriteRows(env, t, members, base, rows).value, members[j].field),
                     base + members[j].occ, Fixed(|rows|), TreeGap(members[j].field.kind))
  {
    var u, w := WriteMembers(env, t, members, base, rows[0]).value, WriteRows(env, t, members, base, rows).value;
    RowTouches(env, t, members, base, rows[0], j);
    ThenFixed(Column(t, members[j].field), Column(u, members[j].field), Column(w, members[j].field), base + members[j].occ, |rows| - 1, TreeGap(members[j].field.kind));
  }

  lemma {:induction false} ClearOthers(t: UbfTree, members: seq<Desc>, from: int, g: FieldId)
    requires Sorted(t) && ValidRow(members, from)
    ensures Sorted(ClearMembers(t, members, from))
    ensures (forall i :: 0 <= i < |members| ==> members[i].field != g) ==> Column(ClearMembers(t, members, from), g) == Column(t, g)
    decreases |members|
  {
    if members != [] {
      ClearTouches(t, members[0].field, from + members[0].occ);
      ClearOthers(Trimmed(t, members[0].field, from + members[0].occ), members[1..], from, g);
    }
  }

  lemma {:induction false} ClearsEach(t: UbfTree, members: seq<Desc>, from: int, j: nat)
    requires Sorted(t) && OwnFields(members) && ValidRow(members, from) && j < |members|
    ensures from + members[j].occ >= 0
    ensures Windowed(Column(t, members[j].field), Column(ClearMembers(t, members, from), members[j].field),
                     from + members[j].occ, Suffix(0), TreeGap(members[j].field.kind))
    decreases |members|
  {
    var m := members[0];
    var u := Trimmed(t, m.field, from + m.occ);
    ClearTouches(t, m.field, from + m.occ);
    if j == 0 {
      forall i | 0 <= i < |members[1..]| ensures members[1..][i].field != m.field { assert members[1..][i] == members[i + 1]; }
      ClearOthers(u, members[1..], from, m.field);
    } else {
      assert members[j].field != m.field;
      ClearsEach(u, members[1..], from, j - 1);
    }
  }

  /** Writing a vector of rows leaves each member's column with exactly base + rows + offset occurrences,
      or, without rows, with no more than base + offset; and keeps its prefix. */
  lemma VecColumns(env: Env, t: UbfTree, members: seq<Desc>, base: int, rows: seq<seq<Value>>, j: nat)
    requires Sorted(t) && OwnFields(members) && j < |members| && WriteVec(env, t, members, base, rows).Ok?
    ensures var m, w := members[j], WriteVec(env, t, members, base, rows).value;
            && base + m.occ >= 0 && Sorted(w)
            && Windowed(Column(t, m.field), Column(w, m.field), base + m.occ, Suffix(|rows|), TreeGap(m.field.kind))
            && |Column(w, m.field)| <= base + |rows| + m.occ
            && (|rows| > 0 ==> |Column(w, m.field)| == base + |rows| + m.occ)
  {
    var m, u := members[j], WriteRows(env, t, members, base, rows).value;
    RowsTouch(env, t, members, base, rows, j);
    ClearsEach(u, members, base + |rows|, j);
    ClearOthers(u, members, base + |rows|, m.field);
    var w := ClearMembers(u, members, base + |rows|);
    ThenTrimmed(Column(t, m.field), Column(u, m.field), Column(w, m.field), base + m.occ, |rows|, TreeGap(m.field.kind));
    assert Suffix(|rows|).n == |rows|;
  }

  // ----- reading rows back

  /** The columns agree at the row `base`. */
  ghost predicate SameRow(t: UbfTree, u: UbfTree, members: seq<Desc>, base: int) {
    forall j :: 0 <= j < |members| ==>
      Agree(Column(t, members[j].field), Column(u, members[j].field), base + members[j].occ, Some(1))
  }

  lemma {:induction false} MembersSame(env: Env, t: UbfTree, u: UbfTree, members: seq<Desc>, base: int, levels: nat)
    requires SameRow(t, u, members, base) && forall j :: 0 <= j < |members| ==> IsSingle(members[j].ty)
    ensures ReadMembers(env, t, members, base, levels) == ReadMembers(env, u, members, base, levels)
    decreases |members|
  {
    if members != [] {
      var m := members[0];
      ReadSame(env, t, u, m.field, base + m.occ, m.ty, levels);
      assert forall j :: 0 <= j < |members[1..]| ==> members[1..][j] == members[j + 1];
      MembersSame(env, t, u, members[1..], base, levels);
    }
  }

  /** The other members leave the first one's column alone. */
  lemma FirstMemberStays(env: Env, u: UbfTree, members: seq<Desc>, base: int, row: seq<Value>)
    requires members != [] && row != [] && Sorted(u) && ValidRow(members, base) && OwnFields(members)
    requires WriteMembers(env, u, members[1..], base, row[1..]).Ok?
    ensures Column(WriteMembers(env, u, members[1..], base, row[1..]).value, members[0].field) == Column(u, members[0].field)
  {
    forall i | 0 <= i < |members[1..]| ensures members[1..][i].field != members[0].field { assert members[1..][i] == members[i + 1]; }
    OtherFieldsStay(env, u, members[1..], base, row[1..], members[0].field);
  }

  lemma {:induction false} RowReadBack(env: Env, t: UbfTree, members: seq<Desc>, base: int, row: seq<Value>, levels: nat)
    requires NoOverlaps(env) && Sorted(t) && ValidRow(members, base) && OwnFields(members) && WriteMembers(env, t, members, base, row).Ok?
    ensures Gives(ReadMembers(env, WriteMembers(env, t, members, base, row).value, members, base, levels), row, NestAll(row), levels)
    decreases |members|
  {
    if members != [] {
      var m := members[0];
      var u := Write(env, t, m.field, base + m.occ, m.ty, row[0], true).value;
      var w := WriteMembers(env, u, members[1..], base, row[1..]).value;
      WriteTouches(env, t, m.field, base + m.occ, m.ty, row[0], true);
      ReadBack(env, t, m.field, base + m.occ, m.ty, row[0], true, levels);
      FirstMemberStays(env, u, members, base, row);
      ReadSame(env, u, w, m.field, base + m.occ, m.ty, levels);
      RowReadBack(env, u, members[1..], base, row[1..], levels);
      assert WriteMembers(env, t, members, base, row) == Ok(w) && [row[0]] + row[1..] == row;
    }
  }

  /** Later rows leave a row as it was written. */
  lemma LaterRowsKeep(env: Env, t: UbfTree, u: UbfTree, members: seq<Desc>, base: int, row: seq<Value>, rows: seq<seq<Value>>)
    requires Sorted(t) && OwnFields(members) && ValidRow(members, base) && (rows != [] ==> ValidRow(members, base + 1))
    requires WriteMembers(env, t, members, base, row) == Ok(u) && WriteRows(env, u, members, base + 1, rows).Ok?
    ensures Sorted(u) && SameRow(u, WriteRows(env, u, members, base + 1, rows).value, members, base)
  {
    if members != [] { OtherFieldsStay(env, t, members, base, row, members[0].field); }
    else { assert u == t; }
    var w := WriteRows(env, u, members, base + 1, rows).value;
    forall j | 0 <= j < |members| && rows != []
      ensures Agree(Column(u, members[j].field), Column(w, members[j].field), base + members[j].occ, Some(1))
    {
      ValidMember(members, base, j);
      RowTouches(env, t, members, base, row, j);
      RowsTouch(env, u, members, base + 1, rows, j);
      WindowItems(Column(t, members[j].field), Column(u, members[j].field), base + members[j].occ, Fixed(1), TreeGap(members[j].field.kind));
      WindowItems(Column(u, members[j].field), Column(w, members[j].field), base + 1 + members[j].occ, Fixed(|rows|), TreeGap(members[j].field.kind));
    }
  }

  lemma {:induction false} RowsReadBack(env: Env, t: UbfTree, members: seq<Desc>, base: int, rows: seq<seq<Value>>, levels: nat)
    requires NoOverlaps(env) && Sorted(t) && OwnFields(members)
    requires rows != [] ==> ValidRow(members, base) && ValidRow(members, base + |rows| - 1)
    requires WriteRows(env, t, members, base, rows).Ok?
    ensures Gives(ReadRows(env, WriteRows(env, t, members, base, rows).value, members, base, |rows|, levels), rows, NestRows(rows), levels)
    decreases |rows|
  {
    if rows != [] {
      var u := WriteMembers(env, t, members, base, rows[0]).value;
      var w := WriteRows(env, u, members, base + 1, rows[1..]).value;
      if rows[1..] != [] { ValidBetween(members, base, base + |rows| - 1, base + 1); }
      RowReadBack(env, t, members, base, rows[0], levels);
      LaterRowsKeep(env, t, u, members, base, rows[0], rows[1..]);
      forall j | 0 <= j < |members| ensures IsSingle(members[j].ty) { ValidMember(members, base, j); }
      MembersSame(env, u, w, members, base, levels);
      RowsReadBack(env, u, members, base + 1, rows[1..], levels);
      assert WriteRows(env, t, members, base, rows) == Ok(w) && [rows[0]] + rows[1..] == rows;
    }
  }

  lemma {:induction false} RowsSame(env: Env, t: UbfTree, u: UbfTree, members: seq<Desc>, base: int, count: nat, levels: nat)
    requires forall j :: 0 <= j < |members| ==> IsSingle(members[j].ty)
    requires forall b :: base <= b < base + count ==> SameRow(t, u, members, b)
    ensures ReadRows(env, t, members, base, count, levels) == ReadRows(env, u, members, base, count, levels)
    decreases count
  {
    if count > 0 {
      assert SameRow(t, u, members, base);
      MembersSame(env, t, u, members, base, levels);
      RowsSame(env, t, u, members, base + 1, count - 1, levels);
    }
  }

  /** The trimming leaves the rows alone. */
  lemma TrimKeepsRows(env: Env, t: UbfTree, members: seq<Desc>, base: int, rows: seq<seq<Value>>, b: int)
    requires Sorted(t) && OwnFields(members) && WriteVec(env, t, members, base, rows).Ok? && base <= b < base + |rows|
    ensures SameRow(WriteRows(env, t, members, base, rows).value, WriteVec(env, t, members, base, rows).value, members, b)
  {
    var u, w := WriteRows(env, t, members, base, rows).value, WriteVec(env, t, members, base, rows).value;
    forall j | 0 <= j < |members|
      ensures Agree(Column(u, members[j].field), Column(w, members[j].field), b + members[j].occ, Some(1))
    {
      var m := members[j];
      ValidMember(members, base, j);
      RowsTouch(env, t, members, base, rows, j);
      ClearsEach(u, members, base + |rows|, j);
      WindowItems(Column(t, m.field), Column(u, m.field), base + m.occ, Fixed(|rows|), TreeGap(m.field.kind));
      WindowItems(Column(u, m.field), Column(w, m.field), base + |rows| + m.occ, Suffix(0), TreeGap(m.field.kind));
    }
  }

  /** The round trip of a flat vector: for any number of rows, any base and any member offsets, what is
      read back is the rows written, and nothing else. */
  lemma GroupRoundTrip(env: Env, t: UbfTree, members: seq<Desc>, base: int, rows: seq<seq<Value>>, levels: nat)
    requires NoOverlaps(env) && Sorted(t) && OwnFields(members) && members != [] && WriteVec(env, t, members, base, rows).Ok?
    ensures Gives(ReadVec(env, WriteVec(env, t, members, base, rows).value, members, base, levels), rows, NestRows(rows), levels)
  {
    var u, w := WriteRows(env, t, members, base, rows).value, WriteVec(env, t, members, base, rows).value;
    if rows != [] { ValidBetween(members, base, base + |rows|, base + |rows| - 1); }
    RowsReadBack(env, t, members, base, rows, levels);
    forall j | 0 <= j < |members| ensures IsSingle(members[j].ty) { ValidMember(members, base, j); }
    forall b | base <= b < base + |rows| ensures SameRow(u, w, members, b) { TrimKeepsRows(env, t, members, base, rows, b); }
    RowsSame(env, u, w, members, base, |rows|, levels);
    VecColumns(env, t, members, base, rows, 0);
    ValidMember(members, base, 0);
    ValidMember(members, base + |rows|, 0);
    if |rows| > 0 { ValidBetween(members, base, base + |rows|, base + |rows| - 1); }
  }

  // ----- fixed arrays of rows

  function LastRow(base: int, n: nat): int {
    if n == 0 then base else base + n - 1
  }

  /** A fixed array of rows: the first and the last are validated, and neighbouring rows stay. */
  function WriteArray(env: Env, t: UbfTree, members: seq<Desc>, base: int, rows: seq<seq<Value>>): Result<UbfTree> {
    if !ValidRow(members, base) || Occurrence(base, if |rows| == 0 then 0 else |rows| - 1).Err? || !ValidRow(members, LastRow(base, |rows|))
    then Err(BEINVAL)
    else WriteRows(env, t, members, base, rows)
  }

  function ReadArray(env: Env, t: UbfTree, members: seq<Desc>, base: int, n: nat, levels: nat): Result<seq<seq<Value>>> {
    if !ValidRow(members, base) || Occurrence(base, if n == 0 then 0 else n - 1).Err? || !ValidRow(members, LastRow(base, n)) then Err(BEINVAL)
    else ReadRows(env, t, members, base, n, levels)
  }

  /** An array of rows reads back as written, and changes each member's column in its window only. */
  lemma ArrayRoundTrip(env: Env, t: UbfTree, members: seq<Desc>, base: int, rows: seq<seq<Value>>, levels: nat)
    requires NoOverlaps(env) && Sorted(t) && OwnFields(members) && WriteArray(env, t, members, base, rows).Ok?
    ensures Gives(ReadArray(env, WriteArray(env, t, members, base, rows).value, members, base, |rows|, levels), rows, NestRows(rows), levels)
    ensures forall j :: 0 <= j < |members| ==> InWindow(t, WriteArray(env, t, members, base, rows).value, members[j], base, |rows|)
  {
    RowsReadBack(env, t, members, base, rows, levels);
    forall j | 0 <= j < |members| ensures InWindow(t, WriteArray(env, t, members, base, rows).value, members[j], base, |rows|) {
      RowsTouch(env, t, members, base, rows, j);
    }
  }

  /** The member's column has changed in `n` occurrences from `base` plus its offset on, and nowhere else. */
  ghost predicate InWindow(t: UbfTree, u: UbfTree, m: Desc, base: int, n: nat) {
    base + m.occ >= 0 && Windowed(Column(t, m.field), Column(u, m.field), base + m.occ, Fixed(n), TreeGap(m.field.kind))
  }
}
