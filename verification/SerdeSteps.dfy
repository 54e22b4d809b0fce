/** The single edits a write of a value comes down to, and when each of them can be made: said on the value
    of the buffer, and proved to be what the native heap decides. */
module SerdeSteps {
  import opened Xatmi
  import opened UbfFields
  import opened UbfHeap
  import opened UbfForest
  import opened UbfTrees
  import opened UbfOwnership
  import opened UbfEdits
  import opened UbfComplex
  import opened SerdeModel
  import opened SerdeHeap
  import opened SerdeGroups

  // ----- one edit, on the value

  /** Every path through inline and pointer children has at most `n` UBFs. */
  predicate TreeFits(t: UbfTree, n: nat)
    decreases n, |t|
  {
    n > 0 && (t == [] || (TreeFitsIn(t[0].val, n) && TreeFits(t[1..], n)))
  }

  predicate TreeFitsIn(v: TreeVal, n: nat)
    decreases n, 0
  {
    n > 0 &&
    match v
    case TRef(TUbfBuf(c)) => TreeFits(c, n - 1)
    case TUbf(c) => TreeFits(c, n - 1)
    case _ => true
  }

  predicate TreeShallow(t: UbfTree, n: nat)
    decreases n, |t|
  {
    n > 0 && (t == [] || ((t[0].val.TUbf? ==> TreeShallow(t[0].val.occs, n - 1)) && TreeShallow(t[1..], n)))
  }

  /** There is a buffer to free: a target of the value, or of one of its inline children. */
  predicate Owns(t: UbfTree)
    decreases t
  {
    t != [] && (OwnsIn(t[0]) || Owns(t[1..]))
  }

  predicate OwnsIn(o: Occ<TreeVal>)
    decreases o
  {
    match o.val
    case TRef(_) => true
    case TUbf(c) => Owns(c)
    case _ => false
  }

  function TreeSize(t: UbfTree): nat
    decreases t
  {
    if t == [] then 0 else TreeSizeOf(t[0]) + TreeSize(t[1..])
  }

  function TreeSizeOf(o: Occ<TreeVal>): nat
    decreases o
  {
    match o.val
    case TData(b) => 8 + |b|
    case TView(n, b) => 8 + |n| + |b|
    case TNull => 16
    case TRef(_) => 16
    case TUbf(c) => 8 + TreeSize(c)
  }

  /** The occurrence may be removed or overwritten: it owns nothing, or the buffer it is in nests at most 128
      levels, so that what goes can be told from what stays. */
  predicate MayGo(t: UbfTree, f: FieldId, i: nat) {
    var g: Option<TreeVal> := Get(t, f, i);
    g.Some? ==>
      && (g.value.TUbf? ==> TreeShallow(g.value.occs, LEVELS + 1))
      && (OwnsIn(Occ(f, g.value)) ==> TreeFits(t, LEVELS))
  }

  /** The value can be written: what it replaces may go, and it fits a buffer that must not grow. */
  predicate MayPut(t: UbfTree, f: FieldId, i: nat, v: TreeVal, cap: Option<nat>) {
    MayGo(t, f, i) && (cap.Some? ==> TreeSize(Put(t, f, i, v, TreeGap(f.kind))) <= cap.value)
  }

  /** The occurrences from `first` on can be removed, last first. */
  predicate MayTrim(t: UbfTree, f: FieldId, first: nat) {
    forall k :: first <= k < |Column(t, f)| ==> MayTrimTo(t, f, k)
  }

  /** Once all after it are gone, occurrence `k` may go. */
  predicate MayTrimTo(t: UbfTree, f: FieldId, k: nat) {
    MayGo(Trimmed(t, f, k + 1), f, k)
  }

  // ----- all edits of a write

  /** The room a child structure starts with. */
  const CHILD: nat := 1024

  function ChildRoom(cap: Option<nat>): Option<nat> {
    if cap.Some? then Some(CHILD) else None
  }

  function ViewIn(view: string, bytes: seq<int>, how: How): TreeVal {
    if how == Inline then TView(view, bytes) else TRef(TRawBuf("VIEW", view, bytes))
  }

  function ChildIn(child: UbfTree, how: How): TreeVal {
    if how == Pointer then TRef(TUbfBuf(child)) else TUbf(child)
  }

  /** Each edit that writing the value makes can be made: every replacement is allowed and, in a buffer of
      `cap` bytes that must not grow, everything fits. */
  predicate Smooth(env: Env, t: UbfTree, f: FieldId, occ: int, ty: Ty, v: Value, element: bool, cap: Option<nat>)
    decreases v, 0
  {
    occ >= 0 ==>
    match ty
    case Leaf => v.VData? ==> MayPut(t, f, occ, TData(v.bytes), cap)
    case Viewed(view, how) => v.VView? ==> MayPut(t, f, occ, ViewIn(view, v.bytes, how), cap)
    case Struct(name, how) =>
      v.VStruct? && name in env ==>
        && SmoothFields(env, [], env[name], v.fields, ChildRoom(cap))
        && var child := WriteFields(env, [], env[name], v.fields);
           child.Ok? ==> MayPut(t, f, occ, ChildIn(child.value, how), cap)
    case Opt(of) =>
      if v.VSome? then Smooth(env, t, f, occ, of, v.of, element, cap)
      else if element && Mapped(of) then MayPut(t, f, occ, TreeGap(f.kind), cap)
      else MayTrim(t, f, occ)
    case Vec(of) =>
      v.VSeq? ==>
        && SmoothItems(env, t, f, occ, of, v.items, cap)
        && var u := WriteItems(env, t, f, occ, of, v.items);
           u.Ok? ==> MayTrim(u.value, f, occ + |v.items|)
    case Arr(of, _) => v.VSeq? ==> SmoothItems(env, t, f, occ, of, v.items, cap)
  }

  predicate SmoothItems(env: Env, t: UbfTree, f: FieldId, occ: int, of: Ty, items: seq<Value>, cap: Option<nat>)
    decreases items, 1
  {
    items != [] ==>
      && Smooth(env, t, f, occ, of, items[0], true, cap)
      && var u := Write(env, t, f, occ, of, items[0], true);
         u.Ok? ==> SmoothItems(env, u.value, f, occ + 1, of, items[1..], cap)
  }

  predicate SmoothFields(env: Env, t: UbfTree, descs: seq<Desc>, vs: seq<Value>, cap: Option<nat>)
    decreases vs, 1
  {
    descs != [] && vs != [] ==>
      && Smooth(env, t, descs[0].field, descs[0].occ, descs[0].ty, vs[0], false, cap)
      && var u := Write(env, t, descs[0].field, descs[0].occ, descs[0].ty, vs[0], false);
         u.Ok? ==> SmoothFields(env, u.value, descs[1..], vs[1..], cap)
  }

  predicate SmoothMembers(env: Env, t: UbfTree, members: seq<Desc>, base: int, row: seq<Value>, cap: Option<nat>)
    decreases |members|
  {
    members != [] && row != [] ==>
      && Smooth(env, t, members[0].field, base + members[0].occ, members[0].ty, row[0], true, cap)
      && var u := Write(env, t, members[0].field, base + members[0].occ, members[0].ty, row[0], true);
         u.Ok? ==> SmoothMembers(env, u.value, members[1..], base, row[1..], cap)
  }

  predicate SmoothRows(env: Env, t: UbfTree, members: seq<Desc>, base: int, rows: seq<seq<Value>>, cap: Option<nat>)
    decreases |rows|
  {
    rows != [] ==>
      && SmoothMembers(env, t, members, base, rows[0], cap)
      && var u := WriteMembers(env, t, members, base, rows[0]);
         u.Ok? ==> SmoothRows(env, u.value, members, base + 1, rows[1..], cap)
  }

  predicate SmoothClears(t: UbfTree, members: seq<Desc>, from: int)
    decreases |members|
  {
    members != [] && from + members[0].occ >= 0 ==>
      && MayTrim(t, members[0].field, from + members[0].occ)
      && SmoothClears(Trimmed(t, members[0].field, from + members[0].occ), members[1..], from)
  }

  /** The same for a vector of rows and its stale tails. */
  predicate SmoothVec(env: Env, t: UbfTree, members: seq<Desc>, base: int, rows: seq<seq<Value>>, cap: Option<nat>) {
    && SmoothRows(env, t, members, base, rows, cap)
    && var u := WriteRows(env, t, members, base, rows);
       u.Ok? ==> SmoothClears(u.value, members, base + |rows|)
  }

  // ----- what the heap decides is what the value says

  lemma {:induction false} FitsShown(h: Heap, s: seq<Occ<Val>>, m: nat, n: nat)
    requires Fits(h, s, m)
    ensures Fits(h, s, n) <==> TreeFits(Tree(h, s, m), n)
    decreases m, |s|
  {
    if s != [] {
      TreeCons(h, s, m);
      assert Tree(h, s, m)[1..] == Tree(h, s[1..], m);
      FitsInShown(h, s[0].val, m, n);
      FitsShown(h, s[1..], m, n);
    }
  }

  lemma {:induction false} FitsInShown(h: Heap, v: Val, m: nat, n: nat)
    requires FitsIn(h, v, m)
    ensures FitsIn(h, v, n) <==> TreeFitsIn(TreeIn(h, v, m), n)
    decreases m, 0
  {
    if n > 0 {
      match v
      case PtrVal(a) => if a != NULL && h[a].UbfBuf? { FitsShown(h, h[a].occs, m - 1, n - 1); }
      case UbfVal(c) => FitsShown(h, c, m - 1, n - 1);
      case _ =>
    }
  }

  lemma {:induction false} ShallowShown(h: Heap, s: seq<Occ<Val>>, m: nat, n: nat)
    requires Fits(h, s, m)
    ensures Shallow(s, n) <==> TreeShallow(Tree(h, s, m), n)
    decreases m, |s|
  {
    if s != [] {
      TreeCons(h, s, m);
      assert Tree(h, s, m)[1..] == Tree(h, s[1..], m);
      ShallowShown(h, s[1..], m, n);
      if n > 0 && s[0].val.UbfVal? { ShallowShown(h, s[0].val.occs, m - 1, n - 1); }
    }
  }

  lemma {:induction false} OwnsShown(h: Heap, s: seq<Occ<Val>>, m: nat)
    requires Fits(h, s, m)
    ensures Targets(s) != [] <==> Owns(Tree(h, s, m))
    decreases m, |s|
  {
    if s != [] {
      TreeCons(h, s, m);
      assert Tree(h, s, m)[1..] == Tree(h, s[1..], m);
      OwnsInShown(h, s[0], m);
      OwnsShown(h, s[1..], m);
    }
  }

  lemma {:induction false} OwnsInShown(h: Heap, o: Occ<Val>, m: nat)
    requires FitsIn(h, o.val, m)
    ensures TargetsIn(o) != [] <==> OwnsIn(Occ(o.field, TreeIn(h, o.val, m)))
    decreases m, 0
  {
    match o.val
    case UbfVal(c) => OwnsShown(h, c, m - 1);
    case _ =>
  }

  lemma {:induction false} SizeShown(h: Heap, s: seq<Occ<Val>>, m: nat)
    requires Fits(h, s, m)
    ensures Size(s) == TreeSize(Tree(h, s, m))
    decreases m, |s|
  {
    if s != [] {
      TreeCons(h, s, m);
      assert Tree(h, s, m)[1..] == Tree(h, s[1..], m);
      SizeShown(h, s[1..], m);
      match s[0].val
      case UbfVal(c) => SizeShown(h, c, m - 1);
      case _ =>
    }
  }

  /** In a forest the check before an edit refuses nothing but depth: every buffer of the program that nests at
      most 128 levels is an owned tree. */
  lemma OwnedIsShallow(h: Heap, r: Addr, rest: seq<Addr>)
    requires Forest(h, [r] + rest) && r in h
    ensures OwnedTree(h, r) <==> Fits(h, OccsOf(h[r]), LEVELS)
  {
    if Fits(h, OccsOf(h[r]), LEVELS) {
      var n: nat :| Whole(h, [r] + rest, n);
      assert [r] + [] + rest == [r] + rest;
      RestOf(h, r, [], rest, n);
      FitsComplete(h, OccsOf(h[r]), LEVELS);
      SameUnfold(h, Owned(h[r]), n - 1, LEVELS);
      PartSingle(h, r, Unfold(h, Owned(h[r]), n - 1), Unfold(h, [], n), Unfold(h, rest, n));
    }
  }

  lemma PartSingle(h: Heap, r: Addr, x: multiset<Addr>, y: multiset<Addr>, z: multiset<Addr>)
    requires multiset(h.Keys) == multiset{r} + (x + y + z)
    ensures Single(x) && Elems(x) !! {r}
  {
    forall a ensures x[a] <= 1 && (a == r ==> x[a] == 0) { assert multiset(h.Keys)[a] == multiset{r}[a] + x[a] + y[a] + z[a]; }
  }

  /** Whether an occurrence may be removed or overwritten shows in the value. */
  lemma MayGoShown(h: Heap, r: Addr, rest: seq<Addr>, t: UbfTree, f: FieldId, i: nat)
    requires Forest(h, [r] + rest) && Shows(h, r, t)
    ensures MayReplace(h, r, f, i) <==> MayGo(t, f, i)
  {
    var m: nat :| ShowsAt(h, h[r].occs, t, m);
    var s := h[r].occs;
    OwnedIsShallow(h, r, rest);
    FitsShown(h, s, m, LEVELS);
    TreeGet(h, s, f, i, m);
    if Get(s, f, i).Some? {
      var v := Get(s, f, i).value;
      GetFits(h, s, f, i, m);
      OwnsInShown(h, Occ(f, v), m);
      if v.UbfVal? { ShallowShown(h, v.occs, m - 1, LEVELS + 1); }
    }
  }

  lemma {:induction false} GetFits(h: Heap, s: seq<Occ<Val>>, f: FieldId, i: nat, m: nat)
    requires Fits(h, s, m) && Get(s, f, i).Some?
    ensures FitsIn(h, Get(s, f, i).value, m)
    decreases |s|
  {
    if s[0].field != f { GetFits(h, s[1..], f, i, m); }
    else if i > 0 { GetFits(h, s[1..], f, i - 1, m); }
  }

  /** So does whether a value fits. */
  lemma RoomShown(h: Heap, caps: map<Addr, nat>, r: Addr, t: UbfTree, f: FieldId, i: nat, v: Val, n: nat)
    requires Shows(h, r, t) && r in caps && FitsIn(h, v, n)
    ensures NoRoom(h, caps, r, f, i, v) <==> TreeSize(Put(t, f, i, TreeIn(h, v, n), TreeGap(f.kind))) > caps[r]
  {
    var m: nat :| ShowsAt(h, h[r].occs, t, m);
    var l := if m > n then m else n;
    ShowsMore(h, h[r].occs, t, m, l);
    FitsInMore(h, v, n, l);
    TreeInMore(h, v, n, l);
    PutFits(h, h[r].occs, f, i, v, l);
    TreePut(h, h[r].occs, f, i, v, l);
    SizeShown(h, Put(h[r].occs, f, i, v, Gap(f.kind)), l);
  }
}
