/** Which values a write takes, said without writing: a write succeeds exactly for these, whatever the
    buffer holds. */
module SerdeTyping {
  import opened Xatmi
  import opened UbfFields
  import opened UbfTrees
  import opened UbfComplex
  import opened SerdeModel
  import opened SerdeWindows
  import opened SerdeGroups

  // ----- pointers in a structure

  /** How many occurrences a column of `n` has after a write at `lo` over `span`. */
  function LengthAfter(n: nat, lo: int, span: Span): nat {
    if lo < 0 then n
    else match span
         case Fixed(k) => if k == 0 then n else Max(n, lo + k)
         case Suffix(k) => if k == 0 then (if n > lo then lo else n) else lo + k
  }

  /** How many occurrences of `g` there are after a structure was written, if there were `n`. */
  function Occurrences(descs: seq<Desc>, vs: seq<Value>, g: FieldId, n: nat): nat {
    if descs == [] || vs == [] then n
    else
      var m := if descs[0].field == g then LengthAfter(n, descs[0].occ, SpanOf(descs[0].ty, vs[0], false)) else n;
      Occurrences(descs[1..], vs[1..], g, m)
  }

  /** Written into an empty buffer the structure leaves a PTR occurrence, be it NULL. */
  predicate HasPtr(descs: seq<Desc>, vs: seq<Value>) {
    exists i :: 0 <= i < |descs| && descs[i].field.kind == PtrField && Occurrences(descs, vs, descs[i].field, 0) > 0
  }

  // ----- the values of a type

  /** `v` is a value of type `ty` that can be written from occurrence `occ` on of a field of kind `kind`. */
  predicate Typed(env: Env, ty: Ty, kind: FieldKind, occ: int, v: Value, element: bool)
    decreases v
  {
    && occ >= 0 && (Mapped(ty) ==> kind == KindOf(ty))
    && match ty
       case Leaf => v.VData? && kind == DataField
       case Viewed(view, _) => v.VView? && view != ""
       case Struct(name, how) =>
         && v.VStruct? && name in env && |v.fields| == |env[name]|
         && (forall i :: 0 <= i < |v.fields| ==> Typed(env, env[name][i].ty, env[name][i].field.kind, env[name][i].occ, v.fields[i], false))
         && (how == Inline ==> !HasPtr(env[name], v.fields))
       case Opt(of) =>
         && IsSingle(of) && !of.Opt?
         && ((v.VSome? && Typed(env, of, kind, occ, v.of, element))
             || (v.VNone? && (element && Mapped(of) ==> kind == PtrField || kind == ViewField)))
       case Vec(of) =>
         && v.VSeq? && IsSingle(of) && occ + |v.items| <= I32_MAX
         && forall i :: 0 <= i < |v.items| ==> Typed(env, of, kind, occ + i, v.items[i], true)
       case Arr(of, n) =>
         && v.VSeq? && |v.items| == n && IsSingle(of) && occ + n <= I32_MAX
         && forall i :: 0 <= i < |v.items| ==> Typed(env, of, kind, occ + i, v.items[i], true)
  }

  /** Each field has a value of its own type. */
  predicate TypedFields(env: Env, descs: seq<Desc>, vs: seq<Value>) {
    |descs| == |vs| && forall i :: 0 <= i < |vs| ==> Typed(env, descs[i].ty, descs[i].field.kind, descs[i].occ, vs[i], false)
  }

  predicate TypedItems(env: Env, of: Ty, kind: FieldKind, occ: int, items: seq<Value>) {
    forall i :: 0 <= i < |items| ==> Typed(env, of, kind, occ + i, items[i], true)
  }

  // ----- a write succeeds exactly for these

  lemma OneField(env: Env, descs: seq<Desc>, vs: seq<Value>)
    requires descs != [] && vs != []
    ensures TypedFields(env, descs, vs)
       <==> Typed(env, descs[0].ty, descs[0].field.kind, descs[0].occ, vs[0], false) && TypedFields(env, descs[1..], vs[1..])
  {
    if TypedFields(env, descs[1..], vs[1..]) && Typed(env, descs[0].ty, descs[0].field.kind, descs[0].occ, vs[0], false) {
      forall i | 0 <= i < |vs| ensures Typed(env, descs[i].ty, descs[i].field.kind, descs[i].occ, vs[i], false) {
        if i > 0 { assert descs[i] == descs[1..][i - 1] && vs[i] == vs[1..][i - 1]; }
      }
    }
    if TypedFields(env, descs, vs) {
      forall i | 0 <= i < |vs[1..]| ensures Typed(env, descs[1..][i].ty, descs[1..][i].field.kind, descs[1..][i].occ, vs[1..][i], false) {
        assert descs[1..][i] == descs[i + 1] && vs[1..][i] == vs[i + 1];
      }
    }
  }

  lemma OneItem(env: Env, of: Ty, kind: FieldKind, occ: int, items: seq<Value>)
    requires items != []
    ensures TypedItems(env, of, kind, occ, items) <==> Typed(env, of, kind, occ, items[0], true) && TypedItems(env, of, kind, occ + 1, items[1..])
  {
    if Typed(env, of, kind, occ, items[0], true) && TypedItems(env, of, kind, occ + 1, items[1..]) { ItemFirst(env, of, kind, occ, items); }
    if TypedItems(env, of, kind, occ, items) {
      assert Typed(env, of, kind, occ + 0, items[0], true);
      ItemsAfter(env, of, kind, occ, items);
    }
  }

  lemma ItemFirst(env: Env, of: Ty, kind: FieldKind, occ: int, items: seq<Value>)
    requires items != [] && Typed(env, of, kind, occ, items[0], true) && TypedItems(env, of, kind, occ + 1, items[1..])
    ensures TypedItems(env, of, kind, occ, items)
  {
    forall i | 0 <= i < |items| ensures Typed(env, of, kind, occ + i, items[i], true) {
      if i > 0 {
        assert Typed(env, of, kind, occ + 1 + (i - 1), items[1..][i - 1], true);
        assert occ + 1 + (i - 1) == occ + i;
      }
    }
  }

  lemma ItemsAfter(env: Env, of: Ty, kind: FieldKind, occ: int, items: seq<Value>)
    requires items != [] && TypedItems(env, of, kind, occ, items)
    ensures TypedItems(env, of, kind, occ + 1, items[1..])
  {
    forall i | 0 <= i < |items[1..]| ensures Typed(env, of, kind, occ + 1 + i, items[1..][i], true) {
      assert Typed(env, of, kind, occ + (i + 1), items[i + 1], true);
      assert occ + 1 + i == occ + (i + 1);
    }
  }

  /** A write of a field succeeds exactly for the values of its type, whatever the buffer holds: vectors of
      every length within the native index range, arrays, absent and present optional values, structures of
      any depth, inline only without pointers. */
  lemma {:induction false} WriteSucceeds(env: Env, t: UbfTree, f: FieldId, occ: int, ty: Ty, v: Value, element: bool)
    ensures Write(env, t, f, occ, ty, v, element).Ok? <==> Typed(env, ty, f.kind, occ, v, element)
    decreases v, 0
  {
    match ty
    case Struct(name, how) =>
      if v.VStruct? && name in env {
        FieldsSucceed(env, [], env[name], v.fields);
        if WriteFields(env, [], env[name], v.fields).Ok? { PointersInside(env, env[name], v.fields); }
      }
    case Opt(of) => if v.VSome? { WriteSucceeds(env, t, f, occ, of, v.of, element); }
    case Vec(of) => if v.VSeq? { ItemsSucceed(env, t, f, occ, of, v.items); }
    case Arr(of, n) => if v.VSeq? { ItemsSucceed(env, t, f, occ, of, v.items); }
    case _ =>
  }

  lemma {:induction false} ItemsSucceed(env: Env, t: UbfTree, f: FieldId, occ: int, of: Ty, items: seq<Value>)
    ensures WriteItems(env, t, f, occ, of, items).Ok? <==> TypedItems(env, of, f.kind, occ, items)
    decreases items, 1
  {
    if items != [] {
      OneItem(env, of, f.kind, occ, items);
      WriteSucceeds(env, t, f, occ, of, items[0], true);
      var first := Write(env, t, f, occ, of, items[0], true);
      if first.Ok? { ItemsSucceed(env, first.value, f, occ + 1, of, items[1..]); }
    }
  }

  /** A structure is written exactly if each of its fields has a value of its type. */
  lemma {:induction false} FieldsSucceed(env: Env, t: UbfTree, descs: seq<Desc>, vs: seq<Value>)
    ensures WriteFields(env, t, descs, vs).Ok? <==> TypedFields(env, descs, vs)
    decreases vs, 1
  {
    if descs != [] && vs != [] {
      OneField(env, descs, vs);
      WriteSucceeds(env, t, descs[0].field, descs[0].occ, descs[0].ty, vs[0], false);
      var first := Write(env, t, descs[0].field, descs[0].occ, descs[0].ty, vs[0], false);
      if first.Ok? { FieldsSucceed(env, first.value, descs[1..], vs[1..]); }
    }
  }

  // ----- what a written structure holds

  /** The pointers are the PTR occurrences: no inline child has any. */
  ghost predicate Flat(t: UbfTree) {
    forall k :: 0 <= k < |t| ==> (TreePointerIn(t[k]) <==> t[k].field.kind == PtrField)
  }

  /** What is in `u` is from `t`, or is one of the two values of `f`. */
  ghost predicate Among(u: UbfTree, t: UbfTree, f: FieldId, v: TreeVal, gap: TreeVal) {
    forall k :: 0 <= k < |u| ==> u[k] in t || u[k] == Occ(f, v) || u[k] == Occ(f, gap)
  }

  lemma {:induction false} PutItems(t: UbfTree, f: FieldId, i: nat, v: TreeVal, gap: TreeVal)
    ensures Among(Put(t, f, i, v, gap), t, f, v, gap)
  {
    if t == [] || Before(f, t[0].field) {
    } else if t[0].field != f {
      PutItems(t[1..], f, i, v, gap);
      FirstThen(t, Put(t[1..], f, i, v, gap), f, v, gap);
    } else if i > 0 {
      PutItems(t[1..], f, i - 1, v, gap);
      FirstThen(t, Put(t[1..], f, i - 1, v, gap), f, v, gap);
    }
  }

  lemma FirstThen(t: UbfTree, u: UbfTree, f: FieldId, v: TreeVal, gap: TreeVal)
    requires t != [] && Among(u, t[1..], f, v, gap)
    ensures Among([t[0]] + u, t, f, v, gap)
  {
    var w := [t[0]] + u;
    forall k | 0 <= k < |w| ensures w[k] in t || w[k] == Occ(f, v) || w[k] == Occ(f, gap) {
      if k > 0 { assert w[k] == u[k - 1]; }
    }
  }

  lemma {:induction false} DelItems(t: UbfTree, f: FieldId, i: nat)
    ensures forall k :: 0 <= k < |Del(t, f, i)| ==> Del(t, f, i)[k] in t
  {
    if t != [] {
      assert forall x :: x in t[1..] ==> x in t;
      if t[0].field != f { DelItems(t[1..], f, i); }
      else if i > 0 { DelItems(t[1..], f, i - 1); }
    }
  }

  lemma PutFlat(t: UbfTree, f: FieldId, i: nat, v: TreeVal)
    requires Flat(t) && (TreePointerIn(Occ(f, v)) <==> f.kind == PtrField)
    ensures Flat(Put(t, f, i, v, TreeGap(f.kind)))
  {
    PutItems(t, f, i, v, TreeGap(f.kind));
    assert TreePointerIn(Occ(f, TreeGap(f.kind))) <==> f.kind == PtrField;
  }

  lemma {:induction false} TrimFlat(t: UbfTree, f: FieldId, first: nat)
    requires Flat(t)
    ensures Flat(Trimmed(t, f, first))
    decreases |Column(t, f)|
  {
    if |Column(t, f)| > first {
      DelItems(t, f, |Column(t, f)| - 1);
      DelColumn(t, f, |Column(t, f)| - 1, f);
      TrimFlat(Del(t, f, |Column(t, f)| - 1), f, first);
    }
  }

  lemma {:induction false} WriteFlat(env: Env, t: UbfTree, f: FieldId, occ: int, ty: Ty, v: Value, element: bool)
    requires Flat(t) && Write(env, t, f, occ, ty, v, element).Ok?
    ensures Flat(Write(env, t, f, occ, ty, v, element).value)
    decreases v, 0
  {
    match ty
    case Leaf => PutFlat(t, f, occ, TData(v.bytes));
    case Viewed(view, how) => PutFlat(t, f, occ, if how == Inline then TView(view, v.bytes) else TRef(TRawBuf("VIEW", view, v.bytes)));
    case Struct(name, how) =>
      var child := WriteFields(env, [], env[name], v.fields).value;
      PutFlat(t, f, occ, if how == Pointer then TRef(TUbfBuf(child)) else TUbf(child));
    case Opt(of) =>
      if v.VSome? { WriteFlat(env, t, f, occ, of, v.of, element); }
      else if element && Mapped(of) { PutFlat(t, f, occ, TreeGap(f.kind)); }
      else { TrimFlat(t, f, occ); }
    case Vec(of) =>
      ItemsFlat(env, t, f, occ, of, v.items);
      TrimFlat(WriteItems(env, t, f, occ, of, v.items).value, f, occ + |v.items|);
    case Arr(of, n) => ItemsFlat(env, t, f, occ, of, v.items);
  }

  lemma {:induction false} ItemsFlat(env: Env, t: UbfTree, f: FieldId, occ: int, of: Ty, items: seq<Value>)
    requires Flat(t) && WriteItems(env, t, f, occ, of, items).Ok?
    ensures Flat(WriteItems(env, t, f, occ, of, items).value)
    decreases items, 1
  {
    if items != [] {
      WriteFlat(env, t, f, occ, of, items[0], true);
      ItemsFlat(env, Write(env, t, f, occ, of, items[0], true).value, f, occ + 1, of, items[1..]);
    }
  }

  lemma WindowLength(c: seq<TreeVal>, d: seq<TreeVal>, lo: nat, span: Span, gap: TreeVal)
    requires Windowed(c, d, lo, span, gap)
    ensures |d| == LengthAfter(|c|, lo, span)
  {
  }

  /** What is in the buffer after a structure was written: as many occurrences as can be told without
      writing, and pointers in PTR occurrences only. */
  lemma {:induction false} FieldsLeave(env: Env, t: UbfTree, descs: seq<Desc>, vs: seq<Value>, g: FieldId)
    requires Sorted(t) && Flat(t) && WriteFields(env, t, descs, vs).Ok?
    ensures var u := WriteFields(env, t, descs, vs).value;
            Sorted(u) && Flat(u) && |Column(u, g)| == Occurrences(descs, vs, g, |Column(t, g)|)
    decreases |vs|
  {
    if descs != [] {
      var d := descs[0];
      var u := Write(env, t, d.field, d.occ, d.ty, vs[0], false).value;
      WriteTouches(env, t, d.field, d.occ, d.ty, vs[0], false);
      WriteFlat(env, t, d.field, d.occ, d.ty, vs[0], false);
      WindowLength(Column(t, d.field), Column(u, d.field), d.occ, SpanOf(d.ty, vs[0], false), TreeGap(d.field.kind));
      FieldsLeave(env, u, descs[1..], vs[1..], g);
    }
  }

  lemma {:induction false} NoField(descs: seq<Desc>, vs: seq<Value>, g: FieldId)
    requires forall i :: 0 <= i < |descs| ==> descs[i].field != g
    ensures Occurrences(descs, vs, g, 0) == 0
  {
    if descs != [] && vs != [] {
      forall i | 0 <= i < |descs[1..]| ensures descs[1..][i].field != g { assert descs[1..][i] == descs[i + 1]; }
      NoField(descs[1..], vs[1..], g);
    }
  }

  lemma {:induction false} SomePointer(t: UbfTree)
    ensures TreeHasPointer(t) <==> exists k :: 0 <= k < |t| && TreePointerIn(t[k])
  {
    if t != [] {
      SomePointer(t[1..]);
      if TreeHasPointer(t[1..]) {
        var k :| 0 <= k < |t[1..]| && TreePointerIn(t[1..][k]);
        assert t[k + 1] == t[1..][k];
      }
      if k :| 0 <= k < |t| && TreePointerIn(t[k]) && k > 0 { assert t[1..][k - 1] == t[k]; }
    }
  }

  lemma {:induction false} InColumn(t: UbfTree, k: nat)
    requires k < |t|
    ensures |Column(t, t[k].field)| > 0
  {
    if k > 0 { InColumn(t[1..], k - 1); }
  }

  lemma {:induction false} FromColumn(t: UbfTree, g: FieldId) returns (k: nat)
    requires |Column(t, g)| > 0
    ensures k < |t| && t[k].field == g
  {
    if t[0].field == g { k := 0; } else { k := FromColumn(t[1..], g); k := k + 1; }
  }

  /** A structure that was written holds a pointer exactly if that can be told without writing it. */
  lemma PointersInside(env: Env, descs: seq<Desc>, vs: seq<Value>)
    requires WriteFields(env, [], descs, vs).Ok?
    ensures TreeHasPointer(WriteFields(env, [], descs, vs).value) <==> HasPtr(descs, vs)
  {
    var u := WriteFields(env, [], descs, vs).value;
    forall g ensures Flat(u) && |Column(u, g)| == Occurrences(descs, vs, g, 0) { FieldsLeave(env, [], descs, vs, g); }
    assert Flat(u) by { FieldsLeave(env, [], descs, vs, FieldId(PtrField, 0)); }
    SomePointer(u);
    if TreeHasPointer(u) {
      var k :| 0 <= k < |u| && TreePointerIn(u[k]);
      InColumn(u, k);
      if forall i :: 0 <= i < |descs| ==> descs[i].field != u[k].field { NoField(descs, vs, u[k].field); }
    }
    if HasPtr(descs, vs) {
      var i :| 0 <= i < |descs| && descs[i].field.kind == PtrField && Occurrences(descs, vs, descs[i].field, 0) > 0;
      var k := FromColumn(u, descs[i].field);
    }
  }

  // ----- rows

  /** Each member takes one occurrence, and none lies outside the native index range. */
  predicate RowFits(members: seq<Desc>, base: int) {
    && 0 <= base <= I32_MAX
    && forall j :: 0 <= j < |members| ==> IsSingle(members[j].ty) && members[j].occ >= 0 && base + members[j].occ <= I32_MAX
  }

  lemma {:induction false} ValidIsFitting(members: seq<Desc>, base: int)
    ensures ValidRow(members, base) <==> RowFits(members, base)
  {
    if members != [] {
      ValidIsFitting(members[1..], base);
      if RowFits(members[1..], base) && ValidRow(members, base) {
        forall j | 0 <= j < |members| ensures IsSingle(members[j].ty) && members[j].occ >= 0 && base + members[j].occ <= I32_MAX {
          if j > 0 { assert members[j] == members[1..][j - 1]; }
        }
      }
      if RowFits(members, base) {
        forall j | 0 <= j < |members[1..]| ensures IsSingle(members[1..][j].ty) && members[1..][j].occ >= 0 && base + members[1..][j].occ <= I32_MAX {
          assert members[1..][j] == members[j + 1];
        }
      }
    }
  }

  /** Each member has a value of its own type. */
  predicate TypedRow(env: Env, members: seq<Desc>, base: int, row: seq<Value>) {
    |members| == |row|
    && forall j :: 0 <= j < |row| ==> Typed(env, members[j].ty, members[j].field.kind, base + members[j].occ, row[j], true)
  }

  predicate TypedRows(env: Env, members: seq<Desc>, base: int, rows: seq<seq<Value>>) {
    forall i :: 0 <= i < |rows| ==> TypedRow(env, members, base + i, rows[i])
  }

  lemma OneMember(env: Env, members: seq<Desc>, base: int, row: seq<Value>)
    requires members != [] && row != []
    ensures TypedRow(env, members, base, row)
       <==> Typed(env, members[0].ty, members[0].field.kind, base + members[0].occ, row[0], true) && TypedRow(env, members[1..], base, row[1..])
  {
    var m := members[0];
    if Typed(env, m.ty, m.field.kind, base + m.occ, row[0], true) && TypedRow(env, members[1..], base, row[1..]) {
      forall j | 0 <= j < |row| ensures Typed(env, members[j].ty, members[j].field.kind, base + members[j].occ, row[j], true) {
        if j > 0 { assert members[j] == members[1..][j - 1] && row[j] == row[1..][j - 1]; }
      }
    }
    if TypedRow(env, members, base, row) {
      forall j | 0 <= j < |row[1..]| ensures Typed(env, members[1..][j].ty, members[1..][j].field.kind, base + members[1..][j].occ, row[1..][j], true) {
        assert members[1..][j] == members[j + 1] && row[1..][j] == row[j + 1];
      }
    }
  }

  lemma {:induction false} MembersSucceed(env: Env, t: UbfTree, members: seq<Desc>, base: int, row: seq<Value>)
    ensures WriteMembers(env, t, members, base, row).Ok? <==> TypedRow(env, members, base, row)
    decreases |members|
  {
    if members != [] && row != [] {
      var m := members[0];
      OneMember(env, members, base, row);
      WriteSucceeds(env, t, m.field, base + m.occ, m.ty, row[0], true);
      var first := Write(env, t, m.field, base + m.occ, m.ty, row[0], true);
      if first.Ok? { MembersSucceed(env, first.value, members[1..], base, row[1..]); }
    }
  }

  lemma OneRow(env: Env, members: seq<Desc>, base: int, rows: seq<seq<Value>>)
    requires rows != []
    ensures TypedRows(env, members, base, rows) <==> TypedRow(env, members, base, rows[0]) && TypedRows(env, members, base + 1, rows[1..])
  {
    if TypedRow(env, members, base, rows[0]) && TypedRows(env, members, base + 1, rows[1..]) {
      forall i | 0 <= i < |rows| ensures TypedRow(env, members, base + i, rows[i]) {
        if i > 0 {
          assert TypedRow(env, members, base + 1 + (i - 1), rows[1..][i - 1]);
          assert base + 1 + (i - 1) == base + i;
        }
      }
    }
    if TypedRows(env, members, base, rows) {
      assert TypedRow(env, members, base + 0, rows[0]);
      forall i | 0 <= i < |rows[1..]| ensures TypedRow(env, members, base + 1 + i, rows[1..][i]) {
        assert TypedRow(env, members, base + (i + 1), rows[i + 1]);
        assert base + 1 + i == base + (i + 1);
      }
    }
  }

  lemma {:induction false} RowsSucceed(env: Env, t: UbfTree, members: seq<Desc>, base: int, rows: seq<seq<Value>>)
    requires rows != [] ==> RowFits(members, base) && RowFits(members, base + |rows| - 1)
    ensures WriteRows(env, t, members, base, rows).Ok? <==> TypedRows(env, members, base, rows)
    decreases |rows|
  {
    if rows != [] {
      OneRow(env, members, base, rows);
      ValidIsFitting(members, base);
      MembersSucceed(env, t, members, base, rows[0]);
      var first := WriteMembers(env, t, members, base, rows[0]);
      if first.Ok? { RowsSucceed(env, first.value, members, base + 1, rows[1..]); }
    }
  }

  /** A vector of rows is written exactly if its rows have values of their members' types and neither the
      first row nor the place after the last reaches outside the native index range. */
  lemma VecSucceeds(env: Env, t: UbfTree, members: seq<Desc>, base: int, rows: seq<seq<Value>>)
    ensures WriteVec(env, t, members, base, rows).Ok?
       <==> RowFits(members, base) && RowFits(members, base + |rows|) && TypedRows(env, members, base, rows)
  {
    ValidIsFitting(members, base);
    ValidIsFitting(members, base + |rows|);
    if RowFits(members, base) && RowFits(members, base + |rows|) { RowsSucceed(env, t, members, base, rows); }
  }

  /** An array of rows is written exactly if they have values of their members' types and neither the first
      nor the last reaches outside the native index range. */
  lemma ArraySucceeds(env: Env, t: UbfTree, members: seq<Desc>, base: int, rows: seq<seq<Value>>)
    ensures WriteArray(env, t, members, base, rows).Ok?
       <==> RowFits(members, base) && (rows != [] ==> RowFits(members, base + |rows| - 1)) && TypedRows(env, members, base, rows)
  {
    ValidIsFitting(members, base);
    ValidIsFitting(members, LastRow(base, |rows|));
    if RowFits(members, base) && (rows != [] ==> RowFits(members, base + |rows| - 1)) { RowsSucceed(env, t, members, base, rows); }
  }
}
