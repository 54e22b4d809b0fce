/** In buffers that are not too deep nothing is refused: if the buffer nests at most 128 levels and the value
    less than 128, every edit a write makes is allowed, and the buffer is as shallow afterwards. */
module SerdeDepth {
  import opened Xatmi
  import opened UbfFields
  import opened UbfTrees
  import opened UbfComplex
  import opened SerdeModel
  import opened SerdeSteps

  lemma {:induction false} FitsEach(t: UbfTree, n: nat)
    requires n > 0
    ensures TreeFits(t, n) <==> forall k :: 0 <= k < |t| ==> TreeFitsIn(t[k].val, n)
    decreases |t|
  {
    if t != [] {
      FitsEach(t[1..], n);
      if forall k :: 0 <= k < |t| ==> TreeFitsIn(t[k].val, n) {
        forall k | 0 <= k < |t[1..]| ensures TreeFitsIn(t[1..][k].val, n) { assert t[1..][k] == t[k + 1]; }
      }
      if TreeFits(t, n) {
        forall k | 0 <= k < |t| ensures TreeFitsIn(t[k].val, n) { if k > 0 { assert t[k] == t[1..][k - 1]; } }
      }
    }
  }

  lemma {:induction false} FitsDeeper(t: UbfTree, n: nat, m: nat)
    requires TreeFits(t, n) && n <= m
    ensures TreeFits(t, m)
    decreases n, |t|
  {
    if t != [] {
      FitsInDeeper(t[0].val, n, m);
      FitsDeeper(t[1..], n, m);
    }
  }

  lemma {:induction false} FitsInDeeper(v: TreeVal, n: nat, m: nat)
    requires TreeFitsIn(v, n) && n <= m
    ensures TreeFitsIn(v, m)
    decreases n, 0
  {
    match v
    case TRef(TUbfBuf(c)) => FitsDeeper(c, n - 1, m - 1);
    case TUbf(c) => FitsDeeper(c, n - 1, m - 1);
    case _ =>
  }

  lemma {:induction false} FitsIsShallow(t: UbfTree, n: nat, m: nat)
    requires TreeFits(t, n) && n <= m
    ensures TreeShallow(t, m)
    decreases n, |t|
  {
    if t != [] {
      if t[0].val.TUbf? { FitsIsShallow(t[0].val.occs, n - 1, m - 1); }
      FitsIsShallow(t[1..], n, m);
    }
  }

  lemma {:induction false} GetFitsIn(t: UbfTree, f: FieldId, i: nat, n: nat)
    requires TreeFits(t, n) && Get(t, f, i).Some?
    ensures TreeFitsIn(Get(t, f, i).value, n)
    decreases |t|
  {
    if t[0].field != f { GetFitsIn(t[1..], f, i, n); }
    else if i > 0 { GetFitsIn(t[1..], f, i - 1, n); }
  }

  /** Anything in a buffer that nests at most 128 levels may be replaced. */
  lemma ShallowMayGo(t: UbfTree, f: FieldId, i: nat)
    requires TreeFits(t, LEVELS)
    ensures MayGo(t, f, i)
  {
    var g: Option<TreeVal> := Get(t, f, i);
    if g.Some? {
      GetFitsIn(t, f, i, LEVELS);
      if g.value.TUbf? { FitsIsShallow(g.value.occs, LEVELS - 1, LEVELS + 1); }
    }
  }

  lemma {:induction false} FitsCons(o: Occ<TreeVal>, t: UbfTree, n: nat)
    ensures TreeFits([o] + t, n) <==> TreeFitsIn(o.val, n) && TreeFits(t, n)
  {
    assert ([o] + t)[1..] == t;
  }

  lemma {:induction false} FitsJoin(s: UbfTree, t: UbfTree, n: nat)
    ensures TreeFits(s + t, n) <==> TreeFits(s, n) && TreeFits(t, n)
    decreases |s|
  {
    if s == [] { assert s + t == t; }
    else {
      assert (s + t)[0] == s[0] && (s + t)[1..] == s[1..] + t;
      FitsJoin(s[1..], t, n);
    }
  }

  lemma {:induction false} GapsFit(f: FieldId, i: nat, n: nat)
    requires n > 0 && (f.kind == UbfField ==> n > 1)
    ensures TreeFits(Gaps(f, i, TreeGap(f.kind)), n)
    decreases i
  {
    if n > 1 { assert TreeFits([], n - 1); }
    if i > 0 {
      GapsFit(f, i - 1, n);
      assert Gaps(f, i, TreeGap(f.kind))[1..] == Gaps(f, i - 1, TreeGap(f.kind));
    }
  }

  lemma {:induction false} PutFits(t: UbfTree, f: FieldId, i: nat, v: TreeVal, n: nat)
    requires TreeFits(t, n) && TreeFitsIn(v, n) && (f.kind == UbfField ==> n > 1)
    ensures TreeFits(Put(t, f, i, v, TreeGap(f.kind)), n)
    decreases |t|
  {
    if t == [] || Before(f, t[0].field) {
      GapsFit(f, i, n);
      FitsCons(Occ(f, v), [], n);
      assert [Occ(f, v)] + [] == [Occ(f, v)];
      FitsJoin(Gaps(f, i, TreeGap(f.kind)), [Occ(f, v)], n);
      FitsJoin(Gaps(f, i, TreeGap(f.kind)) + [Occ(f, v)], t, n);
    } else if t[0].field == f && i == 0 {
      FitsCons(Occ(f, v), t[1..], n);
    } else {
      var j := if t[0].field == f then i - 1 else i;
      PutFits(t[1..], f, j, v, n);
      FitsCons(t[0], Put(t[1..], f, j, v, TreeGap(f.kind)), n);
    }
  }

  lemma {:induction false} DelFits(t: UbfTree, f: FieldId, i: nat, n: nat)
    requires TreeFits(t, n)
    ensures TreeFits(Del(t, f, i), n)
    decreases |t|
  {
    if t != [] {
      if t[0].field != f { DelFits(t[1..], f, i, n); FitsCons(t[0], Del(t[1..], f, i), n); }
      else if i > 0 { DelFits(t[1..], f, i - 1, n); FitsCons(t[0], Del(t[1..], f, i - 1), n); }
    }
  }

  lemma {:induction false} TrimFits(t: UbfTree, f: FieldId, first: nat, n: nat)
    requires TreeFits(t, n)
    ensures TreeFits(Trimmed(t, f, first), n)
    decreases |Column(t, f)|
  {
    if |Column(t, f)| > first {
      DelFits(t, f, |Column(t, f)| - 1, n);
      DelColumn(t, f, |Column(t, f)| - 1, f);
      TrimFits(Del(t, f, |Column(t, f)| - 1), f, first, n);
    }
  }

  lemma ShallowMayTrim(t: UbfTree, f: FieldId, first: nat)
    requires TreeFits(t, LEVELS)
    ensures MayTrim(t, f, first) && TreeFits(Trimmed(t, f, first), LEVELS)
  {
    TrimFits(t, f, first, LEVELS);
    forall k | first <= k < |Column(t, f)| ensures MayTrimTo(t, f, k) {
      TrimFits(t, f, k + 1, LEVELS);
      ShallowMayGo(Trimmed(t, f, k + 1), f, k);
    }
  }

  lemma ShallowMayPut(t: UbfTree, f: FieldId, i: nat, v: TreeVal, n: nat)
    requires TreeFits(t, n) && TreeFitsIn(v, n) && n <= LEVELS
    ensures MayPut(t, f, i, v, None)
    ensures f.kind != UbfField || n > 1 ==> TreeFits(Put(t, f, i, v, TreeGap(f.kind)), n)
  {
    FitsDeeper(t, n, LEVELS);
    ShallowMayGo(t, f, i);
    if f.kind != UbfField || n > 1 { PutFits(t, f, i, v, n); }
  }

  /** Writing a value that nests less than `n` levels into a buffer that nests at most `n`, where `n` is at
      most 128: every edit is allowed, and the buffer still nests at most `n` levels. */
  lemma {:induction false} ShallowSmooth(env: Env, t: UbfTree, f: FieldId, occ: int, ty: Ty, v: Value, element: bool, n: nat)
    requires TreeFits(t, n) && n <= LEVELS && Nest(v) < n
    ensures Smooth(env, t, f, occ, ty, v, element, None)
    ensures Write(env, t, f, occ, ty, v, element).Ok? ==> TreeFits(Write(env, t, f, occ, ty, v, element).value, n)
    decreases v, 0
  {
    if occ >= 0 {
      FitsDeeper(t, n, LEVELS);
      match ty
      case Leaf => if v.VData? { ShallowMayPut(t, f, occ, TData(v.bytes), n); }
      case Viewed(view, how) => if v.VView? { ShallowMayPut(t, f, occ, ViewIn(view, v.bytes, how), n); }
      case Struct(name, how) => if v.VStruct? && name in env { ChildSmooth(env, t, f, occ, name, how, v, n); }
      case Opt(of) =>
        if v.VSome? { ShallowSmooth(env, t, f, occ, of, v.of, element, n); }
        else if element && Mapped(of) {
          ShallowMayGo(t, f, occ);
          if f.kind != UbfField { ShallowMayPut(t, f, occ, TreeGap(f.kind), n); }
        }
        else { ShallowMayTrim(t, f, occ); TrimFits(t, f, occ, n); }
      case Vec(of) => if v.VSeq? { ListSmooth(env, t, f, occ, of, v.items, n); }
      case Arr(of, _) => if v.VSeq? { ItemsSmooth(env, t, f, occ, of, v.items, n); }
    }
  }

  lemma {:induction false} ChildSmooth(env: Env, t: UbfTree, f: FieldId, occ: nat, name: string, how: How, v: Value, n: nat)
    requires TreeFits(t, n) && n <= LEVELS && v.VStruct? && name in env && Nest(v) < n
    ensures SmoothFields(env, [], env[name], v.fields, None)
    ensures var child := WriteFields(env, [], env[name], v.fields);
            child.Ok? ==> MayPut(t, f, occ, ChildIn(child.value, how), None) && TreeFits(Put(t, f, occ, ChildIn(child.value, how), TreeGap(f.kind)), n)
    decreases v.fields, 2
  {
    assert TreeFits([], n - 1);
    var child := WriteFields(env, [], env[name], v.fields);
    FieldsSmooth(env, [], env[name], v.fields, n - 1);
    if child.Ok? { ShallowMayPut(t, f, occ, ChildIn(child.value, how), n); }
  }

  lemma {:induction false} ListSmooth(env: Env, t: UbfTree, f: FieldId, occ: nat, of: Ty, items: seq<Value>, n: nat)
    requires TreeFits(t, n) && n <= LEVELS && NestAll(items) < n
    ensures SmoothItems(env, t, f, occ, of, items, None)
    ensures var u := WriteItems(env, t, f, occ, of, items);
            u.Ok? ==> MayTrim(u.value, f, occ + |items|) && TreeFits(Trimmed(u.value, f, occ + |items|), n)
    decreases items, 2
  {
    ItemsSmooth(env, t, f, occ, of, items, n);
    var u := WriteItems(env, t, f, occ, of, items);
    if u.Ok? {
      FitsDeeper(u.value, n, LEVELS);
      ShallowMayTrim(u.value, f, occ + |items|);
      TrimFits(u.value, f, occ + |items|, n);
    }
  }

  lemma {:induction false} ItemsSmooth(env: Env, t: UbfTree, f: FieldId, occ: int, of: Ty, items: seq<Value>, n: nat)
    requires TreeFits(t, n) && n <= LEVELS && NestAll(items) < n
    ensures SmoothItems(env, t, f, occ, of, items, None)
    ensures WriteItems(env, t, f, occ, of, items).Ok? ==> TreeFits(WriteItems(env, t, f, occ, of, items).value, n)
    decreases items, 1
  {
    if items != [] {
      ShallowSmooth(env, t, f, occ, of, items[0], true, n);
      var u := Write(env, t, f, occ, of, items[0], true);
      if u.Ok? { ItemsSmooth(env, u.value, f, occ + 1, of, items[1..], n); }
    }
  }

  lemma {:induction false} FieldsSmooth(env: Env, t: UbfTree, descs: seq<Desc>, vs: seq<Value>, n: nat)
    requires TreeFits(t, n) && n <= LEVELS && NestAll(vs) < n
    ensures SmoothFields(env, t, descs, vs, None)
    ensures WriteFields(env, t, descs, vs).Ok? ==> TreeFits(WriteFields(env, t, descs, vs).value, n)
    decreases vs, 1
  {
    if descs != [] && vs != [] {
      var d := descs[0];
      ShallowSmooth(env, t, d.field, d.occ, d.ty, vs[0], false, n);
      var u := Write(env, t, d.field, d.occ, d.ty, vs[0], false);
      if u.Ok? { FieldsSmooth(env, u.value, descs[1..], vs[1..], n); }
    }
  }
}
