/** What a write touches: its own window of its own column, and nothing else. */
module SerdeWindows {
  import opened Xatmi
  import opened UbfFields
  import opened UbfTrees
  import opened UbfComplex
  import opened SerdeModel

  /** What a particular write covers: exactly `n` occurrences, or everything from the start on, leaving
      `n` there. */
  datatype Span = Fixed(n: nat) | Suffix(n: nat)

  function SpanOf(ty: Ty, v: Value, element: bool): Span {
    match ty
    case Opt(of) => if v.VSome? || (element && Mapped(of)) then Fixed(1) else Suffix(0)
    case Vec(_) => Suffix(if v.VSeq? then |v.items| else 0)
    case Arr(_, n) => Fixed(n)
    case _ => Fixed(1)
  }

  function Max(a: int, b: int): int { if a > b then a else b }

  /** The column `d` is `c` after a write at `lo` over `span`: what lies outside the window stays, and a
      gap below the window is filled with the native default. */
  ghost predicate Windowed(c: seq<TreeVal>, d: seq<TreeVal>, lo: nat, span: Span, gap: TreeVal) {
    && (span.n > 0 ==> forall k :: 0 <= k < lo ==> k < |d| && d[k] == if k < |c| then c[k] else gap)
    && (span == Fixed(0) ==> d == c)
    && (span.Fixed? && span.n > 0 ==> |d| == Max(|c|, lo + span.n) && forall k :: lo + span.n <= k < |c| ==> d[k] == c[k])
    && (span == Suffix(0) ==> d == if |c| > lo then c[..lo] else c)
    && (span.Suffix? && span.n > 0 ==> |d| == lo + span.n)
  }

  /** The whole effect of a write on a buffer. */
  ghost predicate Touches(t: UbfTree, u: UbfTree, f: FieldId, lo: nat, span: Span) {
    && Sorted(u)
    && (forall g :: g != f ==> Column(u, g) == Column(t, g))
    && Windowed(Column(t, f), Column(u, f), lo, span, TreeGap(f.kind))
  }

  lemma PutTouches(t: UbfTree, f: FieldId, lo: nat, v: TreeVal)
    requires Sorted(t)
    ensures Touches(t, Put(t, f, lo, v, TreeGap(f.kind)), f, lo, Fixed(1))
    ensures Get(Put(t, f, lo, v, TreeGap(f.kind)), f, lo) == Some(v)
  {
    var u := Put(t, f, lo, v, TreeGap(f.kind));
    PutSorted(t, f, lo, v, TreeGap(f.kind));
    forall g ensures Column(u, g) == if g == f then Written(Column(t, f), lo, v, TreeGap(f.kind)) else Column(t, g) {
      PutColumn(t, f, lo, v, TreeGap(f.kind), g);
    }
    GetColumn(u, f, lo);
  }

  /** Clearing a suffix leaves exactly what lies below it. */
  lemma {:induction false} ClearTouches(t: UbfTree, f: FieldId, lo: nat)
    requires Sorted(t)
    ensures Touches(t, Trimmed(t, f, lo), f, lo, Suffix(0))
    decreases |Column(t, f)|
  {
    var c := Column(t, f);
    if |c| > lo {
      var u := Del(t, f, |c| - 1);
      DelSorted(t, f, |c| - 1);
      forall g ensures Column(u, g) == if g == f then Removed(c, |c| - 1) else Column(t, g) { DelColumn(t, f, |c| - 1, g); }
      ClearTouches(u, f, lo);
      assert Column(u, f) == c[..|c| - 1];
    }
  }

  /** One occurrence and then `n` more after it. */
  lemma ThenFixed(c: seq<TreeVal>, d: seq<TreeVal>, e: seq<TreeVal>, lo: nat, n: nat, gap: TreeVal)
    requires Windowed(c, d, lo, Fixed(1), gap) && Windowed(d, e, lo + 1, Fixed(n), gap)
    ensures Windowed(c, e, lo, Fixed(1 + n), gap)
  {
    assert Fixed(1).n == 1 && Fixed(n).n == n && Fixed(1 + n).n == 1 + n;
    assert |d| == Max(|c|, lo + 1);
    if n > 0 {
      assert |e| == Max(|d|, lo + 1 + n);
      forall k | 0 <= k < lo ensures k < |e| && e[k] == if k < |c| then c[k] else gap { assert e[k] == d[k]; }
      forall k | lo + 1 + n <= k < |c| ensures e[k] == c[k] { assert d[k] == c[k]; }
    }
  }

  /** `n` occurrences and then the tail removed. */
  lemma ThenTrimmed(c: seq<TreeVal>, d: seq<TreeVal>, e: seq<TreeVal>, lo: nat, n: nat, gap: TreeVal)
    requires Windowed(c, d, lo, Fixed(n), gap) && Windowed(d, e, lo + n, Suffix(0), gap)
    ensures Windowed(c, e, lo, Suffix(n), gap)
  {
    assert Fixed(n).n == n && Suffix(0).n == 0 && Suffix(n).n == n;
    if n > 0 {
      assert |d| == Max(|c|, lo + n);
      forall k | 0 <= k < lo ensures e[k] == if k < |c| then c[k] else gap { assert e[k] == d[k]; }
    }
  }

  /** A write touches its window only. An element of a collection takes exactly one occurrence. */
  lemma {:induction false} WriteTouches(env: Env, t: UbfTree, f: FieldId, occ: int, ty: Ty, v: Value, element: bool)
    requires Sorted(t) && Write(env, t, f, occ, ty, v, element).Ok? && (element ==> IsSingle(ty))
    ensures occ >= 0 && Touches(t, Write(env, t, f, occ, ty, v, element).value, f, occ, SpanOf(ty, v, element))
    ensures element ==> SpanOf(ty, v, element) == Fixed(1)
    decreases v, 0
  {
    match ty
    case Leaf => PutTouches(t, f, occ, TData(v.bytes));
    case Viewed(view, how) => PutTouches(t, f, occ, if how == Inline then TView(view, v.bytes) else TRef(TRawBuf("VIEW", view, v.bytes)));
    case Struct(name, how) =>
      var child := WriteFields(env, [], env[name], v.fields).value;
      PutTouches(t, f, occ, if how == Pointer then TRef(TUbfBuf(child)) else TUbf(child));
    case Opt(of) =>
      if v.VSome? { WriteTouches(env, t, f, occ, of, v.of, element); }
      else if element && Mapped(of) { PutTouches(t, f, occ, TreeGap(f.kind)); }
      else { ClearTouches(t, f, occ); }
    case Vec(of) =>
      var u := WriteItems(env, t, f, occ, of, v.items).value;
      ItemsTouch(env, t, f, occ, of, v.items);
      ClearTouches(u, f, occ + |v.items|);
      ThenTrimmed(Column(t, f), Column(u, f), Column(Trimmed(u, f, occ + |v.items|), f), occ, |v.items|, TreeGap(f.kind));
    case Arr(of, n) => ItemsTouch(env, t, f, occ, of, v.items);
  }

  /** The elements of a collection land one after the other from `occ` on. */
  lemma {:induction false} ItemsTouch(env: Env, t: UbfTree, f: FieldId, occ: int, of: Ty, items: seq<Value>)
    requires Sorted(t) && occ >= 0 && IsSingle(of) && WriteItems(env, t, f, occ, of, items).Ok?
    ensures Touches(t, WriteItems(env, t, f, occ, of, items).value, f, occ, Fixed(|items|))
    decreases items, 1
  {
    if items != [] {
      var u := Write(env, t, f, occ, of, items[0], true).value;
      WriteTouches(env, t, f, occ, of, items[0], true);
      ItemsTouch(env, u, f, occ + 1, of, items[1..]);
      var w := WriteItems(env, u, f, occ + 1, of, items[1..]).value;
      ThenFixed(Column(t, f), Column(u, f), Column(w, f), occ, |items| - 1, TreeGap(f.kind));
    }
  }
}
