/** A UBF as its occurrences in field order, and the native operations on one occurrence. */
module UbfFields {
  import opened Xatmi

  /** What a field may hold; the identifier of a field encodes it. */
  datatype FieldKind = DataField | PtrField | UbfField | ViewField
  datatype FieldId = FieldId(kind: FieldKind, num: nat)
  datatype Occ<+V> = Occ(field: FieldId, val: V)

  function Rank(k: FieldKind): nat {
    match k case DataField => 0 case PtrField => 1 case UbfField => 2 case ViewField => 3
  }

  /** The order of the fields inside a buffer. */
  predicate Before(f: FieldId, g: FieldId) {
    Rank(f.kind) < Rank(g.kind) || (f.kind == g.kind && f.num < g.num)
  }

  ghost predicate Sorted<V>(s: seq<Occ<V>>) {
    forall i, j :: 0 <= i < j < |s| ==> !Before(s[j].field, s[i].field)
  }

  /** The occurrences of one field. */
  function Column<V>(s: seq<Occ<V>>, f: FieldId): seq<V> {
    if s == [] then []
    else if s[0].field == f then [s[0].val] + Column(s[1..], f)
    else Column(s[1..], f)
  }

  /** Native `Bfind`. */
  function Get<V>(s: seq<Occ<V>>, f: FieldId, i: nat): Option<V> {
    if s == [] then None
    else if s[0].field != f then Get(s[1..], f, i)
    else if i == 0 then Some(s[0].val)
    else Get(s[1..], f, i - 1)
  }

  function Gaps<V>(f: FieldId, n: nat, gap: V): seq<Occ<V>> {
    seq(n, _ => Occ(f, gap))
  }

  /** Native `Bchg`: replaces the occurrence or, past the last one, appends it after filling the gap. */
  function Put<V>(s: seq<Occ<V>>, f: FieldId, i: nat, v: V, gap: V): seq<Occ<V>> {
    if s == [] || Before(f, s[0].field) then Gaps(f, i, gap) + [Occ(f, v)] + s
    else if s[0].field != f then [s[0]] + Put(s[1..], f, i, v, gap)
    else if i == 0 then [Occ(f, v)] + s[1..]
    else [s[0]] + Put(s[1..], f, i - 1, v, gap)
  }

  /** Native `Bdel`: later occurrences move down. */
  function Del<V>(s: seq<Occ<V>>, f: FieldId, i: nat): seq<Occ<V>> {
    if s == [] then []
    else if s[0].field != f then [s[0]] + Del(s[1..], f, i)
    else if i == 0 then s[1..]
    else [s[0]] + Del(s[1..], f, i - 1)
  }

  // ----- columns

  lemma {:induction false} GetColumn<V>(s: seq<Occ<V>>, f: FieldId, i: nat)
    ensures Get(s, f, i) == if i < |Column(s, f)| then Some(Column(s, f)[i]) else None
  {
    if s != [] {
      if s[0].field != f { GetColumn(s[1..], f, i); }
      else if i > 0 { GetColumn(s[1..], f, i - 1); }
    }
  }

  lemma {:induction false} ColumnAppend<V>(a: seq<Occ<V>>, b: seq<Occ<V>>, f: FieldId)
    ensures Column(a + b, f) == Column(a, f) + Column(b, f)
  {
    if a == [] { assert a + b == b; }
    else {
      assert (a + b)[0] == a[0] && (a + b)[1..] == a[1..] + b;
      ColumnAppend(a[1..], b, f);
    }
  }

  lemma {:induction false} GapColumn<V>(f: FieldId, n: nat, gap: V, g: FieldId)
    ensures Column(Gaps(f, n, gap), g) == if g == f then seq(n, _ => gap) else []
  {
    if n > 0 {
      assert Gaps(f, n, gap)[1..] == Gaps(f, n - 1, gap);
      GapColumn(f, n - 1, gap, g);
      assert [gap] + seq(n - 1, _ => gap) == seq(n, _ => gap);
    }
  }

  lemma {:induction false} NoColumn<V>(s: seq<Occ<V>>, f: FieldId)
    requires Sorted(s) && (s != [] ==> Before(f, s[0].field))
    ensures Column(s, f) == []
  {
    if s != [] {
      if |s| > 1 { assert !Before(s[1].field, s[0].field); assert Before(f, s[1].field); }
      NoColumn(s[1..], f);
    }
  }

  /** A column with an occurrence written at `i`. */
  function Written<V>(col: seq<V>, i: nat, v: V, gap: V): seq<V> {
    if i < |col| then col[i := v] else col + seq(i - |col|, _ => gap) + [v]
  }

  function Removed<V>(col: seq<V>, i: nat): seq<V> {
    if i < |col| then col[..i] + col[i + 1..] else col
  }

  lemma WrittenTail<V>(x: V, col: seq<V>, i: nat, v: V, gap: V)
    requires i > 0
    ensures Written([x] + col, i, v, gap) == [x] + Written(col, i - 1, v, gap)
  {
  }

  /** Writing an occurrence writes its column and no other, and keeps the field order. */
  lemma {:induction false} PutColumn<V>(s: seq<Occ<V>>, f: FieldId, i: nat, v: V, gap: V, g: FieldId)
    requires Sorted(s)
    ensures Column(Put(s, f, i, v, gap), g) == if g == f then Written(Column(s, f), i, v, gap) else Column(s, g)
  {
    if s == [] || Before(f, s[0].field) {
      NoColumn(s, f);
      ColumnAppend(Gaps(f, i, gap) + [Occ(f, v)], s, g);
      ColumnAppend(Gaps(f, i, gap), [Occ(f, v)], g);
      GapColumn(f, i, gap, g);
      assert Column([Occ(f, v)], g) == if g == f then [v] else [];
    } else if s[0].field != f {
      PutColumn(s[1..], f, i, v, gap, g);
    } else if i > 0 {
      PutColumn(s[1..], f, i - 1, v, gap, g);
      WrittenTail(s[0].val, Column(s[1..], f), i, v, gap);
    }
  }

  lemma {:induction false} DelColumn<V>(s: seq<Occ<V>>, f: FieldId, i: nat, g: FieldId)
    ensures Column(Del(s, f, i), g) == if g == f then Removed(Column(s, f), i) else Column(s, g)
  {
    if s != [] {
      if s[0].field != f { DelColumn(s[1..], f, i, g); }
      else if i > 0 {
        DelColumn(s[1..], f, i - 1, g);
        assert Removed([s[0].val] + Column(s[1..], f), i) == [s[0].val] + Removed(Column(s[1..], f), i - 1);
      }
    }
  }

  // ----- splices

  /** Where `Put` and `Del` act: `s` is what comes before, the occurrence if there is one, and the rest. */
  function Cut<V>(s: seq<Occ<V>>, f: FieldId, i: nat): (seq<Occ<V>>, seq<Occ<V>>) {
    if s == [] then ([], [])
    else if s[0].field == f && i == 0 then ([], s[1..])
    else if Get(s, f, i).None? && Before(f, s[0].field) then ([], s)
    else
      var (a, b) := Cut(s[1..], f, if s[0].field == f then i - 1 else i);
      ([s[0]] + a, b)
  }

  /** The gap occurrences `Put` adds before the new one. */
  function Missing<V>(s: seq<Occ<V>>, f: FieldId, i: nat): nat {
    if i < |Column(s, f)| then 0 else i - |Column(s, f)|
  }

  lemma {:induction false} Splice<V>(s: seq<Occ<V>>, f: FieldId, i: nat)
    requires Get(s, f, i).Some?
    ensures var (a, b) := Cut(s, f, i);
            s == a + [Occ(f, Get(s, f, i).value)] + b && Del(s, f, i) == a + b
  {
    if !(s[0].field == f && i == 0) { Splice(s[1..], f, if s[0].field == f then i - 1 else i); }
  }

  /** Past the first occurrence, all of these look at the rest. */
  lemma PastFirst<V>(s: seq<Occ<V>>, f: FieldId, i: nat, j: nat, v: V, gap: V)
    requires s != [] && !Before(f, s[0].field) && !(s[0].field == f && i == 0)
    requires j == if s[0].field == f then i - 1 else i
    ensures Cut(s, f, i) == ([s[0]] + Cut(s[1..], f, j).0, Cut(s[1..], f, j).1)
    ensures Missing(s, f, i) == Missing(s[1..], f, j) && Get(s, f, i) == Get(s[1..], f, j)
    ensures Put(s, f, i, v, gap) == [s[0]] + Put(s[1..], f, j, v, gap)
  {
  }

  lemma Regroup<T>(x: T, a: seq<T>, g: seq<T>, o: seq<T>, b: seq<T>)
    ensures [x] + (a + g + o + b) == [x] + a + g + o + b
    ensures [x] + (a + b) == [x] + a + b
  {
  }

  lemma {:induction false} SplicePut<V>(s: seq<Occ<V>>, f: FieldId, i: nat, v: V, gap: V)
    requires Sorted(s)
    ensures var (a, b) := Cut(s, f, i);
            && Put(s, f, i, v, gap) == a + Gaps(f, Missing(s, f, i), gap) + [Occ(f, v)] + b
            && (Get(s, f, i).None? ==> s == a + b)
  {
    GetColumn(s, f, i);
    if s == [] || Before(f, s[0].field) {
      NoColumn(s, f);
      assert Gaps(f, i, gap) + [Occ(f, v)] + s == [] + Gaps(f, i, gap) + [Occ(f, v)] + s;
    } else if s[0].field == f && i == 0 {
      assert [Occ(f, v)] + s[1..] == [] + Gaps(f, 0, gap) + [Occ(f, v)] + s[1..];
    } else {
      var j := if s[0].field == f then i - 1 else i;
      SplicePut(s[1..], f, j, v, gap);
      PastFirst(s, f, i, j, v, gap);
      var (a, b) := Cut(s[1..], f, j);
      Regroup(s[0], a, Gaps(f, Missing(s, f, i), gap), [Occ(f, v)], b);
      Regroup(s[0], a, [], [], b);
    }
  }

  lemma {:induction false} PutSorted<V>(s: seq<Occ<V>>, f: FieldId, i: nat, v: V, gap: V)
    requires Sorted(s)
    ensures Sorted(Put(s, f, i, v, gap))
    ensures forall k :: 0 <= k < |Put(s, f, i, v, gap)| ==>
              Put(s, f, i, v, gap)[k].field == f || (exists j :: 0 <= j < |s| && s[j].field == Put(s, f, i, v, gap)[k].field)
  {
    if s == [] || Before(f, s[0].field) {
    } else if s[0].field != f || i > 0 {
      var j := if s[0].field == f then i - 1 else i;
      PutSorted(s[1..], f, j, v, gap);
      var t := Put(s[1..], f, j, v, gap);
      forall k | 0 <= k < |t| ensures !Before(t[k].field, s[0].field) {}
    }
  }

  lemma {:induction false} DelSorted<V>(s: seq<Occ<V>>, f: FieldId, i: nat)
    requires Sorted(s)
    ensures Sorted(Del(s, f, i))
  {
    if Get(s, f, i).Some? {
      Splice(s, f, i);
      var (a, b) := Cut(s, f, i);
      var t := a + b;
      forall k | 0 <= k < |t| ensures t[k] == s[if k < |a| then k else k + 1] {}
    } else { DelNothing(s, f, i); }
  }

  lemma {:induction false} DelNothing<V>(s: seq<Occ<V>>, f: FieldId, i: nat)
    requires Get(s, f, i).None?
    ensures Del(s, f, i) == s
  {
    if s != [] { DelNothing(s[1..], f, if s[0].field == f then i - 1 else i); }
  }

  /** Writing the next occurrence of the last field, or the first of a later field, appends. */
  lemma {:induction false} PutAtEnd<V>(s: seq<Occ<V>>, f: FieldId, v: V, gap: V)
    requires Sorted(s + [Occ(f, v)])
    ensures Put(s, f, |Column(s, f)|, v, gap) == s + [Occ(f, v)]
  {
    if s != [] {
      assert (s + [Occ(f, v)])[|s|].field == f && (s + [Occ(f, v)])[0] == s[0];
      assert s[1..] + [Occ(f, v)] == (s + [Occ(f, v)])[1..];
      PutAtEnd(s[1..], f, v, gap);
    }
  }

  lemma NoOccurrences<V>(s: seq<Occ<V>>)
    ensures s == [] <==> forall f :: Column(s, f) == []
  {
    if s != [] { assert Column(s, s[0].field) != []; }
  }

  /** A buffer in field order is determined by its columns. */
  lemma {:induction false} SameColumns<V>(s: seq<Occ<V>>, t: seq<Occ<V>>)
    requires Sorted(s) && Sorted(t) && forall f :: Column(s, f) == Column(t, f)
    ensures s == t
  {
    NoOccurrences(s);
    NoOccurrences(t);
    if s != [] && t != [] {
      var f, g := s[0].field, t[0].field;
      assert Column(s, f) == Column(t, f) && Column(s, g) == Column(t, g);
      if Before(f, g) { NoColumn(t, f); }
      if Before(g, f) { NoColumn(s, g); }
      assert f == g && s[0].val == Column(s, f)[0] == Column(t, f)[0] == t[0].val;
      forall h ensures Column(s[1..], h) == Column(t[1..], h) {
        assert Column(s, h) == Column(t, h);
        if h == f { assert Column(s, h)[1..] == Column(s[1..], h); }
      }
      SameColumns(s[1..], t[1..]);
    }
  }
}
