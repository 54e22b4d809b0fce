/** Reading back what was written. */
module SerdeRoundTrip {
  import opened Xatmi
  import opened UbfFields
  import opened UbfTrees
  import opened UbfComplex
  import opened SerdeModel
  import opened SerdeWindows

  /** The occurrences a read looks at. */
  function Seen(ty: Ty): Option<nat> {
    match ty case Vec(_) => None case Arr(_, n) => Some(n) case _ => Some(1)
  }

  ghost function Item(c: seq<TreeVal>, k: nat): Option<TreeVal> {
    if k < |c| then Some(c[k]) else None
  }

  /** The columns hold the same in the window, absent occurrences included. */
  ghost predicate Agree(c: seq<TreeVal>, d: seq<TreeVal>, lo: int, extent: Option<nat>) {
    forall k: nat :: lo <= k && (extent.Some? ==> k < lo + extent.value) ==> Item(c, k) == Item(d, k)
  }

  /** Outside its window a write changes nothing that is there. */
  lemma WindowItems(c: seq<TreeVal>, d: seq<TreeVal>, lo: nat, span: Span, gap: TreeVal)
    requires Windowed(c, d, lo, span, gap)
    ensures forall k: nat :: k < lo && k < |c| ==> Item(d, k) == Item(c, k)
    ensures span.Fixed? ==> forall k: nat :: k >= lo + span.n ==> Item(d, k) == Item(c, k)
    ensures span.Fixed? && span.n > 0 ==> |d| >= lo + span.n
    ensures span.Suffix? ==> |d| <= lo + span.n
  {
  }

  ghost predicate Filled(c: seq<TreeVal>, lo: int, extent: Option<nat>) {
    extent.Some? && extent.value > 0 ==> |c| >= lo + extent.value
  }

  lemma SameGet(t: UbfTree, u: UbfTree, f: FieldId, occ: nat)
    requires Agree(Column(t, f), Column(u, f), occ, Some(1))
    ensures Get(t, f, occ) == Get(u, f, occ)
  {
    GetColumn(t, f, occ);
    GetColumn(u, f, occ);
    assert Item(Column(t, f), occ) == Item(Column(u, f), occ);
  }

  lemma SameLength(c: seq<TreeVal>, d: seq<TreeVal>, lo: nat)
    requires Agree(c, d, lo, None)
    ensures Max(|c|, lo) == Max(|d|, lo)
  {
    if |c| > lo { assert Item(c, |c| - 1) == Item(d, |c| - 1); }
    if |d| > lo { assert Item(c, |d| - 1) == Item(d, |d| - 1); }
  }

  /** A read depends on its window only. */
  lemma {:induction false} ReadSame(env: Env, t: UbfTree, u: UbfTree, f: FieldId, occ: int, ty: Ty, levels: nat)
    requires Agree(Column(t, f), Column(u, f), occ, Seen(ty))
    ensures Read(env, t, f, occ, ty, levels) == Read(env, u, f, occ, ty, levels)
    decreases ty, 1
  {
    if occ >= 0 && Checked(ty, f, occ) {
      match ty
      case Opt(of) =>
        if IsSingle(of) && !of.Opt? {
          SameGet(t, u, f, occ);
          ReadSame(env, t, u, f, occ, of, levels);
        }
      case Vec(of) =>
        if IsSingle(of) {
          SameLength(Column(t, f), Column(u, f), occ);
          ItemsSame(env, t, u, f, occ, of, if |Column(t, f)| > occ then |Column(t, f)| - occ else 0, levels);
        }
      case Arr(of, n) => if IsSingle(of) { ItemsSame(env, t, u, f, occ, of, n, levels); }
      case _ => SameGet(t, u, f, occ);
    }
  }

  lemma {:induction false} ItemsSame(env: Env, t: UbfTree, u: UbfTree, f: FieldId, occ: int, of: Ty, count: nat, levels: nat)
    requires IsSingle(of) && Agree(Column(t, f), Column(u, f), occ, Some(count))
    ensures ReadItems(env, t, f, occ, of, count, levels) == ReadItems(env, u, f, occ, of, count, levels)
    decreases of, 2, count
  {
    if count > 0 {
      ReadSame(env, t, u, f, occ, of, levels);
      ItemsSame(env, t, u, f, occ + 1, of, count - 1, levels);
    }
  }

  /** A simple value is there once written, and is no NULL. */
  lemma WrittenPresent(env: Env, t: UbfTree, f: FieldId, occ: int, ty: Ty, v: Value, element: bool)
    requires Sorted(t) && IsSingle(ty) && !ty.Opt? && Write(env, t, f, occ, ty, v, element).Ok? && occ >= 0
    ensures var g: Option<TreeVal> := Get(Write(env, t, f, occ, ty, v, element).value, f, occ);
            g.Some? && (Mapped(ty) ==> !NullAt(g.value))
  {
    match ty
    case Leaf => PutTouches(t, f, occ, TData(v.bytes));
    case Viewed(view, how) => PutTouches(t, f, occ, if how == Inline then TView(view, v.bytes) else TRef(TRawBuf("VIEW", view, v.bytes)));
    case Struct(name, how) =>
      var child := WriteFields(env, [], env[name], v.fields).value;
      PutTouches(t, f, occ, if how == Pointer then TRef(TUbfBuf(child)) else TUbf(child));
  }

  /** What reading must give: the value, or an error if it nests deeper than the read may go. */
  ghost predicate Gives<T>(r: Result<T>, v: T, nest: nat, levels: nat) {
    if nest <= levels then r == Ok(v) else r.Err?
  }

  /** A field reads back as it was written, exactly when its children nest no deeper than allowed. */
  lemma {:induction false} ReadBack(env: Env, t: UbfTree, f: FieldId, occ: int, ty: Ty, v: Value, element: bool, levels: nat)
    requires NoOverlaps(env) && Sorted(t) && Write(env, t, f, occ, ty, v, element).Ok? && (element ==> IsSingle(ty))
    ensures Gives(Read(env, Write(env, t, f, occ, ty, v, element).value, f, occ, ty, levels), v, Nest(v), levels)
    decreases v, 0
  {
    WriteTouches(env, t, f, occ, ty, v, element);
    var u := Write(env, t, f, occ, ty, v, element).value;
    match ty
    case Leaf => PutTouches(t, f, occ, TData(v.bytes));
    case Viewed(view, how) => PutTouches(t, f, occ, if how == Inline then TView(view, v.bytes) else TRef(TRawBuf("VIEW", view, v.bytes)));
    case Struct(name, how) =>
      var child := WriteFields(env, [], env[name], v.fields).value;
      PutTouches(t, f, occ, if how == Pointer then TRef(TUbfBuf(child)) else TUbf(child));
      if levels > 0 { FieldsReadBack(env, [], env[name], v.fields, levels - 1); }
    case Opt(of) =>
      if v.VSome? {
        WrittenPresent(env, t, f, occ, of, v.of, element);
        ReadBack(env, t, f, occ, of, v.of, element, levels);
      } else {
        AbsentReadBack(env, t, f, occ, of, element, levels);
      }
    case Vec(of) => VecReadBack(env, t, f, occ, of, v.items, levels);
    case Arr(of, n) => ItemsReadBack(env, t, f, occ, of, v.items, levels);
  }

  lemma AbsentReadBack(env: Env, t: UbfTree, f: FieldId, occ: int, of: Ty, element: bool, levels: nat)
    requires Sorted(t) && Write(env, t, f, occ, Opt(of), VNone, element).Ok? && (element ==> IsSingle(Opt(of)))
    ensures Read(env, Write(env, t, f, occ, Opt(of), VNone, element).value, f, occ, Opt(of), levels) == Ok(VNone)
  {
    if element && Mapped(of) {
      PutTouches(t, f, occ, TreeGap(f.kind));
    } else {
      ClearTouches(t, f, occ);
      GetColumn(Trimmed(t, f, occ), f, occ);
    }
  }

  lemma {:induction false} VecReadBack(env: Env, t: UbfTree, f: FieldId, occ: int, of: Ty, items: seq<Value>, levels: nat)
    requires NoOverlaps(env) && Sorted(t) && IsSingle(of) && occ >= 0 && WriteItems(env, t, f, occ, of, items).Ok?
    requires Checked(of, f, occ)
    ensures Gives(Read(env, Trimmed(WriteItems(env, t, f, occ, of, items).value, f, occ + |items|), f, occ, Vec(of), levels),
                  VSeq(items), NestAll(items), levels)
    decreases items, 2
  {
    var u := WriteItems(env, t, f, occ, of, items).value;
    var w := Trimmed(u, f, occ + |items|);
    ItemsTouch(env, t, f, occ, of, items);
    ClearTouches(u, f, occ + |items|);
    assert Windowed(Column(t, f), Column(u, f), occ, Fixed(|items|), TreeGap(f.kind));
    assert Windowed(Column(u, f), Column(w, f), occ + |items|, Suffix(0), TreeGap(f.kind));
    ItemsReadBack(env, t, f, occ, of, items, levels);
    ItemsSame(env, u, w, f, occ, of, |items|, levels);
  }

  lemma {:induction false} ItemsReadBack(env: Env, t: UbfTree, f: FieldId, occ: int, of: Ty, items: seq<Value>, levels: nat)
    requires NoOverlaps(env) && Sorted(t) && IsSingle(of) && occ >= 0 && WriteItems(env, t, f, occ, of, items).Ok?
    ensures Gives(ReadItems(env, WriteItems(env, t, f, occ, of, items).value, f, occ, of, |items|, levels), items, NestAll(items), levels)
    decreases items, 1
  {
    if items != [] {
      var u := Write(env, t, f, occ, of, items[0], true).value;
      var w := WriteItems(env, u, f, occ + 1, of, items[1..]).value;
      ReadBack(env, t, f, occ, of, items[0], true, levels);
      WriteTouches(env, t, f, occ, of, items[0], true);
      ItemsTouch(env, u, f, occ + 1, of, items[1..]);
      WindowItems(Column(t, f), Column(u, f), occ, Fixed(1), TreeGap(f.kind));
      WindowItems(Column(u, f), Column(w, f), occ + 1, Fixed(|items| - 1), TreeGap(f.kind));
      assert Agree(Column(u, f), Column(w, f), occ, Some(1));
      ReadSame(env, u, w, f, occ, of, levels);
      ItemsReadBack(env, u, f, occ + 1, of, items[1..], levels);
      assert WriteItems(env, t, f, occ, of, items) == Ok(w) && [items[0]] + items[1..] == items;
    }
  }

  /** A later write to another window leaves a written field as it is. */
  lemma KeepStep(t: UbfTree, u: UbfTree, a: Desc, b: Desc, v: Value)
    requires Apart(a, b) && a.occ >= 0 && b.occ >= 0 && Touches(t, u, b.field, b.occ, SpanOf(b.ty, v, false))
    requires Filled(Column(t, a.field), a.occ, Extent(a.ty))
    ensures Agree(Column(t, a.field), Column(u, a.field), a.occ, Extent(a.ty))
    ensures Filled(Column(u, a.field), a.occ, Extent(a.ty))
  {
    if a.field == b.field {
      WindowItems(Column(t, a.field), Column(u, a.field), b.occ, SpanOf(b.ty, v, false), TreeGap(a.field.kind));
    }
  }

  lemma {:induction false} FieldsKeep(env: Env, t: UbfTree, descs: seq<Desc>, vs: seq<Value>, a: Desc)
    requires Sorted(t) && WriteFields(env, t, descs, vs).Ok? && a.occ >= 0
    requires forall i :: 0 <= i < |descs| ==> Apart(a, descs[i])
    requires Filled(Column(t, a.field), a.occ, Extent(a.ty))
    ensures Agree(Column(t, a.field), Column(WriteFields(env, t, descs, vs).value, a.field), a.occ, Extent(a.ty))
    decreases |vs|
  {
    if descs != [] {
      var d := descs[0];
      var u := Write(env, t, d.field, d.occ, d.ty, vs[0], false).value;
      WriteTouches(env, t, d.field, d.occ, d.ty, vs[0], false);
      KeepStep(t, u, a, d, vs[0]);
      FieldsKeep(env, u, descs[1..], vs[1..], a);
    }
  }

  lemma FilledAfter(t: UbfTree, u: UbfTree, d: Desc, v: Value)
    requires d.occ >= 0 && Touches(t, u, d.field, d.occ, SpanOf(d.ty, v, false))
    ensures Filled(Column(u, d.field), d.occ, Extent(d.ty))
  {
    WindowItems(Column(t, d.field), Column(u, d.field), d.occ, SpanOf(d.ty, v, false), TreeGap(d.field.kind));
  }

  lemma SeenInExtent(c: seq<TreeVal>, d: seq<TreeVal>, lo: int, ty: Ty)
    requires Agree(c, d, lo, Extent(ty))
    ensures Agree(c, d, lo, Seen(ty))
  {
  }

  /** A structure reads back field by field. */
  lemma {:induction false} FieldsReadBack(env: Env, t: UbfTree, descs: seq<Desc>, vs: seq<Value>, levels: nat)
    requires NoOverlaps(env) && Sorted(t) && NoOverlap(descs) && WriteFields(env, t, descs, vs).Ok?
    ensures Gives(ReadFields(env, WriteFields(env, t, descs, vs).value, descs, levels), vs, NestAll(vs), levels)
    decreases vs, 1
  {
    if descs != [] {
      var d := descs[0];
      var u := Write(env, t, d.field, d.occ, d.ty, vs[0], false).value;
      var w := WriteFields(env, u, descs[1..], vs[1..]).value;
      ReadBack(env, t, d.field, d.occ, d.ty, vs[0], false, levels);
      WriteTouches(env, t, d.field, d.occ, d.ty, vs[0], false);
      FilledAfter(t, u, d, vs[0]);
      forall i | 0 <= i < |descs[1..]| ensures Apart(d, descs[1..][i]) { assert descs[1..][i] == descs[i + 1]; }
      FieldsKeep(env, u, descs[1..], vs[1..], d);
      SeenInExtent(Column(u, d.field), Column(w, d.field), d.occ, d.ty);
      ReadSame(env, u, w, d.field, d.occ, d.ty, levels);
      FieldsReadBack(env, u, descs[1..], vs[1..], levels);
      assert WriteFields(env, t, descs, vs) == Ok(w) && [vs[0]] + vs[1..] == vs;
    }
  }

  /** The round trip. A mapped structure written into any buffer, whatever the buffer held, is read back as
      the same value, for recursive structures too, exactly when its children nest at most 128 levels. */
  lemma StructureRoundTrip(env: Env, t: UbfTree, name: string, vs: seq<Value>)
    requires NoOverlaps(env) && name in env && Sorted(t) && WriteFields(env, t, env[name], vs).Ok?
    ensures var read := ReadFields(env, WriteFields(env, t, env[name], vs).value, env[name], LEVELS);
            && (read == Ok(vs) <==> NestAll(vs) <= LEVELS)
            && (NestAll(vs) > LEVELS ==> read.Err?)
  {
    FieldsReadBack(env, t, env[name], vs, LEVELS);
  }

  /** The field `d`, with the value `v`, maps occurrence `k` of `g`: within its window, or anywhere from
      its start on if it also clears what follows. */
  ghost predicate Covers(d: Desc, v: Value, g: FieldId, k: nat) {
    d.field == g && d.occ <= k && (SpanOf(d.ty, v, false).Fixed? ==> k < d.occ + SpanOf(d.ty, v, false).n)
  }

  ghost predicate Unmapped(descs: seq<Desc>, vs: seq<Value>, g: FieldId, k: nat) {
    forall i :: 0 <= i < |descs| && i < |vs| ==> !Covers(descs[i], vs[i], g, k)
  }

  /** The occurrence is as it was; or it was not there, and is now the default that fills a gap below some
      window. */
  ghost predicate StaysOrFillsGap(t: UbfTree, u: UbfTree, g: FieldId, k: nat) {
    || Item(Column(u, g), k) == Item(Column(t, g), k)
    || (Item(Column(t, g), k) == None && Item(Column(u, g), k) == Some(TreeGap(g.kind)))
  }

  /** What the structure does not map, it does not change, occurrence by occurrence: in fields it does not
      name, and in fields it names below the windows and beyond an array's window. */
  lemma {:induction false} UnmappedStay(env: Env, t: UbfTree, descs: seq<Desc>, vs: seq<Value>, g: FieldId, k: nat)
    requires Sorted(t) && WriteFields(env, t, descs, vs).Ok? && Unmapped(descs, vs, g, k)
    ensures StaysOrFillsGap(t, WriteFields(env, t, descs, vs).value, g, k)
    decreases |vs|
  {
    if descs != [] {
      var d := descs[0];
      var u := Write(env, t, d.field, d.occ, d.ty, vs[0], false).value;
      WriteTouches(env, t, d.field, d.occ, d.ty, vs[0], false);
      StepStays(t, u, d, vs[0], g, k);
      forall i | 0 <= i < |descs[1..]| && i < |vs[1..]| ensures !Covers(descs[1..][i], vs[1..][i], g, k) {
        assert descs[1..][i] == descs[i + 1] && vs[1..][i] == vs[i + 1];
      }
      UnmappedStay(env, u, descs[1..], vs[1..], g, k);
    }
  }

  lemma StepStays(t: UbfTree, u: UbfTree, d: Desc, v: Value, g: FieldId, k: nat)
    requires d.occ >= 0 && Touches(t, u, d.field, d.occ, SpanOf(d.ty, v, false)) && !Covers(d, v, g, k)
    ensures StaysOrFillsGap(t, u, g, k)
  {
    if d.field == g {
      WindowItems(Column(t, g), Column(u, g), d.occ, SpanOf(d.ty, v, false), TreeGap(g.kind));
    } else {
      assert Column(u, g) == Column(t, g);
    }
  }

  /** Collections, in one statement. A vector leaves exactly `occ + n` occurrences when it has elements and
      none from `occ` on when it has not; an array changes only its window; both put element `i` at
      `occ + i` and keep everything below, filling a gap with the native default. */
  lemma CollectionWindows(env: Env, t: UbfTree, f: FieldId, occ: int, of: Ty, items: seq<Value>, element: bool)
    requires Sorted(t)
    ensures Write(env, t, f, occ, Vec(of), VSeq(items), element).Ok? ==>
              var d := Column(Write(env, t, f, occ, Vec(of), VSeq(items), element).value, f);
              && (|items| > 0 ==> |d| == occ + |items|) && (|items| == 0 ==> |d| <= occ)
              && (forall k :: 0 <= k < occ && k < |Column(t, f)| && k < |d| ==> d[k] == Column(t, f)[k])
    ensures Write(env, t, f, occ, Arr(of, |items|), VSeq(items), element).Ok? ==>
              var d := Column(Write(env, t, f, occ, Arr(of, |items|), VSeq(items), element).value, f);
              && (|items| > 0 ==> |d| == Max(|Column(t, f)|, occ + |items|))
              && (forall k :: 0 <= k < |Column(t, f)| && !(occ <= k < occ + |items|) ==> k < |d| && d[k] == Column(t, f)[k])
  {
    if Write(env, t, f, occ, Vec(of), VSeq(items), element).Ok? {
      WriteTouches(env, t, f, occ, Vec(of), VSeq(items), false);
      assert Windowed(Column(t, f), Column(Write(env, t, f, occ, Vec(of), VSeq(items), element).value, f), occ, Suffix(|items|), TreeGap(f.kind));
    }
    if Write(env, t, f, occ, Arr(of, |items|), VSeq(items), element).Ok? {
      WriteTouches(env, t, f, occ, Arr(of, |items|), VSeq(items), false);
      assert Windowed(Column(t, f), Column(Write(env, t, f, occ, Arr(of, |items|), VSeq(items), element).value, f), occ, Fixed(|items|), TreeGap(f.kind));
    }
  }

  /** An absent element of a pointer or VIEW collection keeps its place, even at the end: the placeholder
      is there, and reads as absent. */
  lemma AbsentKeepsPlace(env: Env, t: UbfTree, f: FieldId, occ: int, of: Ty)
    requires Sorted(t) && Mapped(of) && Write(env, t, f, occ, Opt(of), VNone, true).Ok?
    ensures var u := Write(env, t, f, occ, Opt(of), VNone, true).value;
            && occ >= 0 && Get(u, f, occ) == Some(TreeGap(f.kind)) && NullAt(TreeGap(f.kind))
            && |Column(u, f)| == Max(|Column(t, f)|, occ + 1)
            && forall levels :: Read(env, u, f, occ, Opt(of), levels) == Ok(VNone)
  {
    PutTouches(t, f, occ, TreeGap(f.kind));
    assert Windowed(Column(t, f), Column(Write(env, t, f, occ, Opt(of), VNone, true).value, f), occ, Fixed(1), TreeGap(f.kind));
  }
}
