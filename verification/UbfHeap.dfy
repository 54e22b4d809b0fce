/** Typed buffers as an ownership graph. A PTR occurrence owns its target; an inline UBF lies inside its
    parent; freeing a buffer frees what it owns. */
module UbfHeap {
  import opened Xatmi
  import opened UbfFields

  type Addr = nat

  /** The value of an occurrence. `PtrVal(NULL)` and a VIEW without a name are the NULL placeholders. */
  datatype Val = DataVal(bytes: seq<int>) | ViewVal(name: string, bytes: seq<int>) | PtrVal(target: Addr) | UbfVal(occs: seq<Occ<Val>>)

  /** A typed allocation: a UBF, or any other type with its payload. */
  datatype Buf = UbfBuf(occs: seq<Occ<Val>>) | RawBuf(typeName: string, subtype: string, bytes: seq<int>)

  type Heap = map<Addr, Buf>

  /** What native `Bchg` fills skipped occurrences with. */
  function Gap(k: FieldKind): Val {
    match k
    case DataField => DataVal([])
    case PtrField => PtrVal(NULL)
    case UbfField => UbfVal([])
    case ViewField => ViewVal("", [])
  }

  function OccsOf(b: Buf): seq<Occ<Val>> {
    if b.UbfBuf? then b.occs else []
  }

  /** The buffers a UBF owns directly, those of its inline UBFs included, in field order. */
  function Targets(s: seq<Occ<Val>>): (r: seq<Addr>)
    ensures NULL !in r
    decreases s
  {
    if s == [] then [] else TargetsIn(s[0]) + Targets(s[1..])
  }

  function TargetsIn(o: Occ<Val>): (r: seq<Addr>)
    ensures NULL !in r
    decreases o
  {
    match o.val
    case PtrVal(a) => if a == NULL then [] else [a]
    case UbfVal(c) => Targets(c)
    case _ => []
  }

  function Owned(b: Buf): seq<Addr> {
    Targets(OccsOf(b))
  }

  // ----- unfolding the graph

  /** Every path from `us` ends within `n` buffers and meets live buffers only. */
  ghost predicate Complete(h: Heap, us: seq<Addr>, n: nat)
    decreases n, |us|
  {
    us == [] || (us[0] in h && n > 0 && Complete(h, Owned(h[us[0]]), n - 1) && Complete(h, us[1..], n))
  }

  /** The buffers met on the way, once per path. */
  ghost function Unfold(h: Heap, us: seq<Addr>, n: nat): multiset<Addr>
    decreases n, |us|
  {
    if us == [] then multiset{}
    else multiset{us[0]} + Below(h, us[0], n) + Unfold(h, us[1..], n)
  }

  ghost function Below(h: Heap, a: Addr, n: nat): multiset<Addr>
    decreases n, 0
  {
    if n > 0 && a in h then Unfold(h, Owned(h[a]), n - 1) else multiset{}
  }

  ghost function Elems(m: multiset<Addr>): set<Addr> {
    set a | a in m
  }

  ghost predicate Single(m: multiset<Addr>) {
    forall a :: m[a] <= 1
  }

  /** Native `tpfree` of several buffers: each is released and then what it owns is freed. `None` is a
      buffer freed twice. */
  function Free(h: Heap, us: seq<Addr>): Option<Heap>
    decreases |h|, |us|
  {
    if us == [] then Some(h)
    else if us[0] !in h then None
    else Free(h - {us[0]}, Owned(h[us[0]]) + us[1..])
  }

  // ----- laws

  lemma {:induction false} UnfoldAppend(h: Heap, us: seq<Addr>, vs: seq<Addr>, n: nat)
    ensures Complete(h, us + vs, n) <==> Complete(h, us, n) && Complete(h, vs, n)
    ensures Unfold(h, us + vs, n) == Unfold(h, us, n) + Unfold(h, vs, n)
    decreases |us|
  {
    if us == [] { assert us + vs == vs; }
    else {
      assert (us + vs)[0] == us[0] && (us + vs)[1..] == us[1..] + vs;
      UnfoldAppend(h, us[1..], vs, n);
    }
  }

  lemma UnfoldOne(h: Heap, a: Addr, n: nat)
    ensures Complete(h, [a], n) <==> a in h && n > 0 && Complete(h, Owned(h[a]), n - 1)
    ensures Unfold(h, [a], n) == multiset{a} + Below(h, a, n)
  {
    assert [a][1..] == [];
  }

  lemma {:induction false} MoreFuel(h: Heap, us: seq<Addr>, n: nat, m: nat)
    requires Complete(h, us, n) && n <= m
    ensures Complete(h, us, m) && Unfold(h, us, m) == Unfold(h, us, n)
    decreases n, |us|
  {
    if us != [] {
      MoreFuel(h, Owned(h[us[0]]), n - 1, m - 1);
      MoreFuel(h, us[1..], n, m);
    }
  }

  /** Only the buffers met matter. */
  lemma {:induction false} Frame(h: Heap, k: Heap, us: seq<Addr>, n: nat)
    requires Complete(h, us, n)
    requires forall a :: a in Unfold(h, us, n) ==> a in h && a in k && k[a] == h[a]
    ensures Complete(k, us, n) && Unfold(k, us, n) == Unfold(h, us, n)
    decreases n, |us|
  {
    if us != [] {
      assert us[0] in Unfold(h, us, n);
      forall a | a in Unfold(h, Owned(h[us[0]]), n - 1) ensures a in Unfold(h, us, n) {}
      forall a | a in Unfold(h, us[1..], n) ensures a in Unfold(h, us, n) {}
      Frame(h, k, Owned(h[us[0]]), n - 1);
      Frame(h, k, us[1..], n);
    }
  }

  lemma {:induction false} MeetsLive(h: Heap, us: seq<Addr>, n: nat)
    requires Complete(h, us, n)
    ensures forall a :: a in Unfold(h, us, n) ==> a in h
    decreases n, |us|
  {
    if us != [] {
      MeetsLive(h, Owned(h[us[0]]), n - 1);
      MeetsLive(h, us[1..], n);
    }
  }

  lemma TakeOut(us: seq<Addr>, i: nat)
    requires i < |us|
    ensures multiset(us) == multiset{us[i]} + multiset(us[..i] + us[i + 1..])
  {
    assert us == us[..i] + [us[i]] + us[i + 1..];
  }

  lemma UnfoldAround(h: Heap, us: seq<Addr>, i: nat, n: nat)
    requires i < |us|
    ensures Complete(h, us, n) <==> Complete(h, [us[i]], n) && Complete(h, us[..i] + us[i + 1..], n)
    ensures Unfold(h, us, n) == Unfold(h, [us[i]], n) + Unfold(h, us[..i] + us[i + 1..], n)
  {
    assert us == us[..i] + ([us[i]] + us[i + 1..]);
    UnfoldAppend(h, us[..i], [us[i]] + us[i + 1..], n);
    UnfoldAppend(h, [us[i]], us[i + 1..], n);
    UnfoldAppend(h, us[..i], us[i + 1..], n);
  }

  lemma SameRest(us: seq<Addr>, vs: seq<Addr>, i: nat)
    requires multiset(us) == multiset(vs) && us != [] && i < |vs| && vs[i] == us[0]
    ensures multiset(us[1..]) == multiset(vs[..i] + vs[i + 1..])
  {
    TakeOut(us, 0);
    TakeOut(vs, i);
    assert us[..0] + us[1..] == us[1..];
    Cancel(us[0], multiset(us[1..]), multiset(vs[..i] + vs[i + 1..]));
  }

  lemma Cancel(a: Addr, x: multiset<Addr>, y: multiset<Addr>)
    requires multiset{a} + x == multiset{a} + y
    ensures x == y
  {
    assert x == (multiset{a} + x) - multiset{a} && y == (multiset{a} + y) - multiset{a};
  }

  lemma Find(us: seq<Addr>, vs: seq<Addr>) returns (i: nat)
    requires us != [] && multiset(us) == multiset(vs)
    ensures i < |vs| && vs[i] == us[0]
  {
    assert us[0] in multiset(us);
    i :| 0 <= i < |vs| && vs[i] == us[0];
  }

  /** The order of the buffers does not matter. */
  lemma {:induction false} Reorder(h: Heap, us: seq<Addr>, vs: seq<Addr>, n: nat)
    requires multiset(us) == multiset(vs)
    ensures Complete(h, us, n) <==> Complete(h, vs, n)
    ensures Unfold(h, us, n) == Unfold(h, vs, n)
    decreases |us|
  {
    if us == [] {
      assert |multiset(vs)| == |vs|;
    } else {
      var i := Find(us, vs);
      var cs := vs[..i] + vs[i + 1..];
      assert us[..0] + us[1..] == us[1..];
      SameRest(us, vs, i);
      UnfoldAround(h, us, 0, n);
      UnfoldAround(h, vs, i, n);
      Reorder(h, us[1..], cs, n);
    }
  }

  lemma FreeStep(h: Heap, us: seq<Addr>, n: nat) returns (m: multiset<Addr>)
    requires us != [] && Complete(h, us, n) && Single(Unfold(h, us, n))
    ensures Complete(h - {us[0]}, Owned(h[us[0]]) + us[1..], n)
    ensures m == Unfold(h - {us[0]}, Owned(h[us[0]]) + us[1..], n)
    ensures Unfold(h, us, n) == multiset{us[0]} + m && us[0] !in m && Single(m)
  {
    var a, ts, rest := us[0], Owned(h[us[0]]), us[1..];
    var below, beside := Unfold(h, ts, n - 1), Unfold(h, rest, n);
    m := below + beside;
    assert Unfold(h, us, n) == multiset{a} + below + beside == multiset{a} + m;
    SingleSplit(Unfold(h, us, n), a, m);
    Shrink(h, a, ts, n - 1);
    Shrink(h, a, rest, n);
    MoreFuel(h - {a}, ts, n - 1, n);
    UnfoldAppend(h - {a}, ts, rest, n);
  }

  lemma Shrink(h: Heap, a: Addr, us: seq<Addr>, n: nat)
    requires Complete(h, us, n) && a !in Unfold(h, us, n)
    ensures Complete(h - {a}, us, n) && Unfold(h - {a}, us, n) == Unfold(h, us, n)
  {
    MeetsLive(h, us, n);
    Frame(h, h - {a}, us, n);
  }

  lemma SingleSplit(all: multiset<Addr>, a: Addr, m: multiset<Addr>)
    requires Single(all) && all == multiset{a} + m
    ensures a !in m && Single(m) && Elems(all) == {a} + Elems(m)
  {
    assert all[a] == 1 + m[a];
    forall b ensures m[b] <= 1 { assert m[b] <= all[b] <= 1; }
  }

  lemma Peel(h: Heap, a: Addr, m: multiset<Addr>, all: multiset<Addr>)
    requires all == multiset{a} + m
    ensures h - {a} - Elems(m) == h - Elems(all)
  {
  }

  /** Freeing buffers whose unfolding meets nothing twice frees exactly what it meets, each once. */
  lemma {:induction false} FreeExactly(h: Heap, us: seq<Addr>, n: nat)
    requires Complete(h, us, n) && Single(Unfold(h, us, n))
    ensures Free(h, us) == Some(h - Elems(Unfold(h, us, n)))
    decreases |h|, |us|
  {
    if us == [] {
      assert Elems(Unfold(h, us, n)) == {} && h - {} == h;
    } else {
      var m := FreeStep(h, us, n);
      FreeExactly(h - {us[0]}, Owned(h[us[0]]) + us[1..], n);
      Peel(h, us[0], m, Unfold(h, us, n));
    }
  }

  lemma {:induction false} TargetsAppend(a: seq<Occ<Val>>, b: seq<Occ<Val>>)
    ensures Targets(a + b) == Targets(a) + Targets(b)
  {
    if a == [] { assert a + b == b; }
    else {
      assert (a + b)[0] == a[0] && (a + b)[1..] == a[1..] + b;
      TargetsAppend(a[1..], b);
    }
  }

  lemma {:induction false} GapTargets(f: FieldId, n: nat)
    ensures Targets(Gaps(f, n, Gap(f.kind))) == []
  {
    if n > 0 {
      assert Gaps(f, n, Gap(f.kind))[1..] == Gaps(f, n - 1, Gap(f.kind));
      GapTargets(f, n - 1);
    }
  }

  /** What one occurrence owns. */
  function At(s: seq<Occ<Val>>, f: FieldId, i: nat): seq<Addr> {
    match Get(s, f, i) case None => [] case Some(v) => TargetsIn(Occ(f, v))
  }

  lemma TargetsOfOne(o: Occ<Val>)
    ensures Targets([o]) == TargetsIn(o)
  {
    assert [o][1..] == [];
  }

  lemma SpliceTargets(a: seq<Occ<Val>>, g: seq<Occ<Val>>, o: Occ<Val>, b: seq<Occ<Val>>)
    ensures Targets(a + g + [o] + b) == Targets(a) + Targets(g) + TargetsIn(o) + Targets(b)
  {
    TargetsAppend(a, g);
    TargetsAppend(a + g, [o]);
    TargetsAppend(a + g + [o], b);
    TargetsOfOne(o);
  }

  lemma Between(x: seq<Addr>, o: seq<Addr>, y: seq<Addr>)
    ensures multiset(x + [] + o + y) == multiset(x + y) + multiset(o)
  {
    assert x + [] == x;
  }

  /** What the buffer owns but for one occurrence. */
  function Others(s: seq<Occ<Val>>, f: FieldId, i: nat): seq<Addr> {
    Targets(Cut(s, f, i).0) + Targets(Cut(s, f, i).1)
  }

  lemma TargetsAround(s: seq<Occ<Val>>, f: FieldId, i: nat)
    requires Get(s, f, i).Some?
    ensures multiset(Targets(s)) == multiset(Others(s, f, i)) + multiset(At(s, f, i))
  {
    Splice(s, f, i);
    var (a, b) := Cut(s, f, i);
    SpliceTargets(a, [], Occ(f, Get(s, f, i).value), b);
    assert a + [] == a;
    Between(Targets(a), At(s, f, i), Targets(b));
  }

  /** Writing an occurrence exchanges exactly what it owned for what it now owns. */
  lemma PutTargets(s: seq<Occ<Val>>, f: FieldId, i: nat, v: Val)
    requires Sorted(s)
    ensures multiset(Targets(s)) + multiset(TargetsIn(Occ(f, v)))
         == multiset(Targets(Put(s, f, i, v, Gap(f.kind)))) + multiset(At(s, f, i))
  {
    PutAround(s, f, i, v);
    if Get(s, f, i).Some? { TargetsAround(s, f, i); }
    else {
      SplicePut(s, f, i, v, Gap(f.kind));
      TargetsAppend(Cut(s, f, i).0, Cut(s, f, i).1);
    }
  }

  lemma PutAround(s: seq<Occ<Val>>, f: FieldId, i: nat, v: Val)
    requires Sorted(s)
    ensures multiset(Targets(Put(s, f, i, v, Gap(f.kind)))) == multiset(Others(s, f, i)) + multiset(TargetsIn(Occ(f, v)))
  {
    var (a, b) := Cut(s, f, i);
    var gaps := Gaps(f, Missing(s, f, i), Gap(f.kind));
    SplicePut(s, f, i, v, Gap(f.kind));
    GapTargets(f, Missing(s, f, i));
    SpliceTargets(a, gaps, Occ(f, v), b);
    Between(Targets(a), TargetsIn(Occ(f, v)), Targets(b));
  }

  /** Deleting an occurrence gives up exactly what it owned. */
  lemma DelTargets(s: seq<Occ<Val>>, f: FieldId, i: nat)
    ensures multiset(Targets(s)) == multiset(Targets(Del(s, f, i))) + multiset(At(s, f, i))
  {
    if Get(s, f, i).Some? {
      TargetsAround(s, f, i);
      Splice(s, f, i);
      TargetsAppend(Cut(s, f, i).0, Cut(s, f, i).1);
    } else {
      DelNothing(s, f, i);
    }
  }

  // ----- well-formed contents

  /** The occurrences are in field order, and each value is of its field's kind, at every depth. */
  ghost predicate Proper(s: seq<Occ<Val>>) {
    Sorted(s) && ProperEach(s)
  }

  ghost predicate ProperEach(s: seq<Occ<Val>>)
    decreases s
  {
    s == [] || (ProperOcc(s[0]) && ProperEach(s[1..]))
  }

  ghost predicate ProperOcc(o: Occ<Val>)
    decreases o
  {
    match o.val
    case DataVal(_) => o.field.kind == DataField
    case ViewVal(_, _) => o.field.kind == ViewField
    case PtrVal(_) => o.field.kind == PtrField
    case UbfVal(c) => o.field.kind == UbfField && Sorted(c) && ProperEach(c)
  }

  lemma {:induction false} ProperAppend(a: seq<Occ<Val>>, b: seq<Occ<Val>>)
    ensures ProperEach(a + b) <==> ProperEach(a) && ProperEach(b)
  {
    if a == [] { assert a + b == b; }
    else {
      assert (a + b)[0] == a[0] && (a + b)[1..] == a[1..] + b;
      ProperAppend(a[1..], b);
    }
  }

  lemma {:induction false} ProperAt(s: seq<Occ<Val>>, k: nat)
    requires ProperEach(s) && k < |s|
    ensures ProperOcc(s[k])
  {
    if k > 0 { ProperAt(s[1..], k - 1); }
  }

  lemma {:induction false} GetProper(s: seq<Occ<Val>>, f: FieldId, i: nat)
    requires ProperEach(s) && Get(s, f, i).Some?
    ensures ProperOcc(Occ(f, Get(s, f, i).value))
  {
    if s[0].field != f { GetProper(s[1..], f, i); }
    else if i > 0 { GetProper(s[1..], f, i - 1); }
  }

  lemma {:induction false} GapsProper(f: FieldId, n: nat)
    ensures ProperEach(Gaps(f, n, Gap(f.kind)))
  {
    if n > 0 {
      assert Gaps(f, n, Gap(f.kind))[1..] == Gaps(f, n - 1, Gap(f.kind));
      GapsProper(f, n - 1);
    }
  }

  lemma {:induction false} PutProperEach(s: seq<Occ<Val>>, f: FieldId, i: nat, v: Val)
    requires ProperEach(s) && ProperOcc(Occ(f, v))
    ensures ProperEach(Put(s, f, i, v, Gap(f.kind)))
  {
    if s == [] || Before(f, s[0].field) {
      GapsProper(f, i);
      ProperAppend(Gaps(f, i, Gap(f.kind)), [Occ(f, v)]);
      ProperAppend(Gaps(f, i, Gap(f.kind)) + [Occ(f, v)], s);
      assert [Occ(f, v)][1..] == [];
    } else if s[0].field == f && i == 0 {
      assert ([Occ(f, v)] + s[1..])[1..] == s[1..];
    } else {
      var j := if s[0].field == f then i - 1 else i;
      PutProperEach(s[1..], f, j, v);
      assert ([s[0]] + Put(s[1..], f, j, v, Gap(f.kind)))[1..] == Put(s[1..], f, j, v, Gap(f.kind));
    }
  }

  lemma PutProper(s: seq<Occ<Val>>, f: FieldId, i: nat, v: Val)
    requires Proper(s) && ProperOcc(Occ(f, v))
    ensures Proper(Put(s, f, i, v, Gap(f.kind)))
  {
    PutSorted(s, f, i, v, Gap(f.kind));
    PutProperEach(s, f, i, v);
  }

  lemma {:induction false} DelProper(s: seq<Occ<Val>>, f: FieldId, i: nat)
    requires Proper(s)
    ensures Proper(Del(s, f, i))
  {
    DelSorted(s, f, i);
    if Get(s, f, i).Some? {
      Splice(s, f, i);
      var (a, b) := Cut(s, f, i);
      ProperAppend(a + [Occ(f, Get(s, f, i).value)], b);
      ProperAppend(a, [Occ(f, Get(s, f, i).value)]);
      ProperAppend(a, b);
    } else {
      DelNothing(s, f, i);
    }
  }
}
