/** What a read says about the buffer, said without reading: a read gives a value exactly if that value
    stands there and nests no deeper than the read may go. */
module SerdeReads {
  import opened Xatmi
  import opened UbfFields
  import opened UbfTrees
  import opened UbfComplex
  import opened SerdeModel
  import opened SerdeWindows
  import opened SerdeGroups
  import opened SerdeTyping

  /** Nothing is there, or a native NULL in a column that has NULLs. */
  predicate Absent(t: UbfTree, f: FieldId, occ: nat, of: Ty) {
    var g: Option<TreeVal> := Get(t, f, occ);
    g == None || (Mapped(of) && (g.value == TNull || (g.value.TView? && g.value.name == "")))
  }

  /** The value `v` of type `ty` stands in `t` from occurrence `occ` of `f` on. */
  ghost predicate Stands(env: Env, t: UbfTree, f: FieldId, occ: int, ty: Ty, v: Value)
    decreases v
  {
    && occ >= 0 && (Mapped(ty) ==> f.kind == KindOf(ty))
    && match ty
       case Leaf => v.VData? && Get(t, f, occ) == Some(TData(v.bytes))
       case Viewed(view, Inline) => v.VView? && view != "" && Get(t, f, occ) == Some(TView(view, v.bytes))
       case Viewed(view, Pointer) => v.VView? && Get(t, f, occ) == Some(TRef(TRawBuf("VIEW", view, v.bytes)))
       case Struct(name, how) =>
         && v.VStruct? && name in env && Get<TreeVal>(t, f, occ).Some?
         && (match (how, Get<TreeVal>(t, f, occ).value)
             case (Inline, TUbf(child)) => StandFields(env, child, env[name], v.fields)
             case (Pointer, TRef(TUbfBuf(child))) => StandFields(env, child, env[name], v.fields)
             case _ => false)
       case Opt(of) => IsSingle(of) && !of.Opt? && if Absent(t, f, occ, of) then v == VNone else v.VSome? && Stands(env, t, f, occ, of, v.of)
       case Vec(of) => v.VSeq? && IsSingle(of) && occ + |v.items| == Max(|Column(t, f)|, occ) && StandItems(env, t, f, occ, of, v.items)
       case Arr(of, n) => v.VSeq? && IsSingle(of) && occ + n <= I32_MAX && |v.items| == n && StandItems(env, t, f, occ, of, v.items)
  }

  ghost predicate StandItems(env: Env, t: UbfTree, f: FieldId, occ: int, of: Ty, items: seq<Value>)
    decreases items
  {
    forall i :: 0 <= i < |items| ==> Stands(env, t, f, occ + i, of, items[i])
  }

  ghost predicate StandFields(env: Env, t: UbfTree, descs: seq<Desc>, vs: seq<Value>)
    decreases vs
  {
    |vs| == |descs| && forall i :: 0 <= i < |vs| ==> Stands(env, t, descs[i].field, descs[i].occ, descs[i].ty, vs[i])
  }

  lemma FirstStands(env: Env, t: UbfTree, f: FieldId, occ: int, of: Ty, items: seq<Value>)
    requires items != []
    ensures StandItems(env, t, f, occ, of, items) <==> Stands(env, t, f, occ, of, items[0]) && StandItems(env, t, f, occ + 1, of, items[1..])
  {
    if Stands(env, t, f, occ, of, items[0]) && StandItems(env, t, f, occ + 1, of, items[1..]) {
      forall i | 0 <= i < |items| ensures Stands(env, t, f, occ + i, of, items[i]) {
        if i > 0 {
          assert Stands(env, t, f, occ + 1 + (i - 1), of, items[1..][i - 1]);
          assert occ + 1 + (i - 1) == occ + i;
        }
      }
    }
    if StandItems(env, t, f, occ, of, items) { RestStands(env, t, f, occ, of, items); }
  }

  lemma RestStands(env: Env, t: UbfTree, f: FieldId, occ: int, of: Ty, items: seq<Value>)
    requires items != [] && StandItems(env, t, f, occ, of, items)
    ensures Stands(env, t, f, occ, of, items[0]) && StandItems(env, t, f, occ + 1, of, items[1..])
  {
    assert Stands(env, t, f, occ + 0, of, items[0]);
    forall i | 0 <= i < |items[1..]| ensures Stands(env, t, f, occ + 1 + i, of, items[1..][i]) {
      assert Stands(env, t, f, occ + (i + 1), of, items[i + 1]);
      assert occ + 1 + i == occ + (i + 1);
    }
  }

  lemma FirstField(env: Env, t: UbfTree, descs: seq<Desc>, vs: seq<Value>)
    requires descs != [] && vs != []
    ensures StandFields(env, t, descs, vs)
       <==> Stands(env, t, descs[0].field, descs[0].occ, descs[0].ty, vs[0]) && StandFields(env, t, descs[1..], vs[1..])
  {
    if Stands(env, t, descs[0].field, descs[0].occ, descs[0].ty, vs[0]) && StandFields(env, t, descs[1..], vs[1..]) {
      forall i | 0 <= i < |vs| ensures Stands(env, t, descs[i].field, descs[i].occ, descs[i].ty, vs[i]) {
        if i > 0 { assert descs[i] == descs[1..][i - 1] && vs[i] == vs[1..][i - 1]; }
      }
    }
    if StandFields(env, t, descs, vs) {
      forall i | 0 <= i < |vs[1..]| ensures Stands(env, t, descs[1..][i].field, descs[1..][i].occ, descs[1..][i].ty, vs[1..][i]) {
        assert descs[1..][i] == descs[i + 1] && vs[1..][i] == vs[i + 1];
      }
    }
  }

  /** Reading a field of any type gives exactly the value that stands there, if it nests no deeper than the
      read may go; otherwise, and if there is no such value, the read fails. */
  lemma {:induction false} ReadMeans(env: Env, t: UbfTree, f: FieldId, occ: int, ty: Ty, levels: nat, v: Value)
    ensures Read(env, t, f, occ, ty, levels) == Ok(v) <==> Stands(env, t, f, occ, ty, v) && Nest(v) <= levels
    decreases levels, 0, ty, 0
  {
    if occ >= 0 && Checked(ty, f, occ) {
      match ty
      case Struct(name, how) =>
        var child := ChildAt(t, f, occ, how);
        if child.Some? && name in env && v.VStruct? && levels > 0 { FieldsMean(env, child.value, env[name], levels - 1, v.fields); }
      case Opt(of) => if v.VSome? { ReadMeans(env, t, f, occ, of, levels, v.of); }
      case Vec(of) => if v.VSeq? { ItemsMean(env, t, f, occ, of, Max(|Column(t, f)|, occ) - occ, levels, v.items); }
      case Arr(of, n) => if v.VSeq? { ItemsMean(env, t, f, occ, of, n, levels, v.items); }
      case _ =>
    }
  }

  lemma {:induction false} ItemsMean(env: Env, t: UbfTree, f: FieldId, occ: int, of: Ty, count: nat, levels: nat, items: seq<Value>)
    ensures ReadItems(env, t, f, occ, of, count, levels) == Ok(items)
       <==> |items| == count && StandItems(env, t, f, occ, of, items) && NestAll(items) <= levels
    decreases levels, 0, of, count + 1
  {
    if count > 0 && items != [] {
      FirstStands(env, t, f, occ, of, items);
      ReadMeans(env, t, f, occ, of, levels, items[0]);
      ItemsMean(env, t, f, occ + 1, of, count - 1, levels, items[1..]);
      assert [items[0]] + items[1..] == items;
    }
  }

  lemma {:induction false} FieldsMean(env: Env, t: UbfTree, descs: seq<Desc>, levels: nat, vs: seq<Value>)
    ensures ReadFields(env, t, descs, levels) == Ok(vs) <==> StandFields(env, t, descs, vs) && NestAll(vs) <= levels
    decreases levels, 1, |descs|
  {
    if descs != [] && vs != [] {
      FirstField(env, t, descs, vs);
      ReadMeans(env, t, descs[0].field, descs[0].occ, descs[0].ty, levels, vs[0]);
      FieldsMean(env, t, descs[1..], levels, vs[1..]);
      assert [vs[0]] + vs[1..] == vs;
    }
  }

  // ----- rows

  ghost predicate RowStands(env: Env, t: UbfTree, members: seq<Desc>, base: int, row: seq<Value>) {
    |row| == |members| && forall j :: 0 <= j < |row| ==> Stands(env, t, members[j].field, base + members[j].occ, members[j].ty, row[j])
  }

  ghost predicate RowsStand(env: Env, t: UbfTree, members: seq<Desc>, base: int, rows: seq<seq<Value>>) {
    forall i :: 0 <= i < |rows| ==> RowStands(env, t, members, base + i, rows[i])
  }

  lemma FirstMember(env: Env, t: UbfTree, members: seq<Desc>, base: int, row: seq<Value>)
    requires members != [] && row != []
    ensures RowStands(env, t, members, base, row)
       <==> Stands(env, t, members[0].field, base + members[0].occ, members[0].ty, row[0]) && RowStands(env, t, members[1..], base, row[1..])
  {
    var m := members[0];
    if Stands(env, t, m.field, base + m.occ, m.ty, row[0]) && RowStands(env, t, members[1..], base, row[1..]) {
      forall j | 0 <= j < |row| ensures Stands(env, t, members[j].field, base + members[j].occ, members[j].ty, row[j]) {
        if j > 0 { assert members[j] == members[1..][j - 1] && row[j] == row[1..][j - 1]; }
      }
    }
    if RowStands(env, t, members, base, row) {
      forall j | 0 <= j < |row[1..]| ensures Stands(env, t, members[1..][j].field, base + members[1..][j].occ, members[1..][j].ty, row[1..][j]) {
        assert members[1..][j] == members[j + 1] && row[1..][j] == row[j + 1];
      }
    }
  }

  lemma {:induction false} MembersMean(env: Env, t: UbfTree, members: seq<Desc>, base: int, levels: nat, row: seq<Value>)
    ensures ReadMembers(env, t, members, base, levels) == Ok(row) <==> RowStands(env, t, members, base, row) && NestAll(row) <= levels
    decreases |members|
  {
    if members != [] && row != [] {
      var m := members[0];
      FirstMember(env, t, members, base, row);
      ReadMeans(env, t, m.field, base + m.occ, m.ty, levels, row[0]);
      MembersMean(env, t, members[1..], base, levels, row[1..]);
      assert [row[0]] + row[1..] == row;
    }
  }

  lemma FirstRow(env: Env, t: UbfTree, members: seq<Desc>, base: int, rows: seq<seq<Value>>)
    requires rows != []
    ensures RowsStand(env, t, members, base, rows) <==> RowStands(env, t, members, base, rows[0]) && RowsStand(env, t, members, base + 1, rows[1..])
  {
    if RowStands(env, t, members, base, rows[0]) && RowsStand(env, t, members, base + 1, rows[1..]) {
      forall i | 0 <= i < |rows| ensures RowStands(env, t, members, base + i, rows[i]) {
        if i > 0 {
          assert RowStands(env, t, members, base + 1 + (i - 1), rows[1..][i - 1]);
          assert base + 1 + (i - 1) == base + i;
        }
      }
    }
    if RowsStand(env, t, members, base, rows) {
      assert RowStands(env, t, members, base + 0, rows[0]);
      forall i | 0 <= i < |rows[1..]| ensures RowStands(env, t, members, base + 1 + i, rows[1..][i]) {
        assert RowStands(env, t, members, base + (i + 1), rows[i + 1]);
        assert base + 1 + i == base + (i + 1);
      }
    }
  }

  lemma {:induction false} RowsMean(env: Env, t: UbfTree, members: seq<Desc>, base: int, count: nat, levels: nat, rows: seq<seq<Value>>)
    requires count > 0 ==> RowFits(members, base) && RowFits(members, base + count - 1)
    ensures ReadRows(env, t, members, base, count, levels) == Ok(rows)
       <==> |rows| == count && RowsStand(env, t, members, base, rows) && NestRows(rows) <= levels
    decreases count
  {
    if count > 0 && rows != [] {
      FirstRow(env, t, members, base, rows);
      ValidIsFitting(members, base);
      MembersMean(env, t, members, base, levels, rows[0]);
      RowsMean(env, t, members, base + 1, count - 1, levels, rows[1..]);
      assert [rows[0]] + rows[1..] == rows;
    } else if count > 0 {
      ValidIsFitting(members, base);
    }
  }

  /** How many rows the anchor's column says there are beyond the base; its offset does not count. */
  function RowsThere(t: UbfTree, anchor: Desc, base: nat): nat {
    if |Column(t, anchor.field)| > anchor.occ + base then |Column(t, anchor.field)| - anchor.occ - base else 0
  }

  /** Reading a vector of rows gives exactly the rows that stand there, as many as the anchor says, if the
      first and the last of them lie in the native index range and they nest no deeper than the read may go. */
  lemma VecMeans(env: Env, t: UbfTree, members: seq<Desc>, base: int, levels: nat, rows: seq<seq<Value>>)
    requires members != []
    ensures ReadVec(env, t, members, base, levels) == Ok(rows)
       <==> && RowFits(members, base) && |rows| == RowsThere(t, members[0], base)
            && (rows != [] ==> RowFits(members, base + |rows| - 1))
            && RowsStand(env, t, members, base, rows) && NestRows(rows) <= levels
  {
    ValidIsFitting(members, base);
    if RowFits(members, base) {
      var count := RowCount(t, members[0]);
      assert members[0].occ >= 0;
      ValidIsFitting(members, count - 1);
      if count > base ==> RowFits(members, count - 1) { RowsMean(env, t, members, base, RowsThere(t, members[0], base), levels, rows); }
    }
  }
}
