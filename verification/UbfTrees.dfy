/** The value a UBF stands for: its occurrences with every owned target in place of its address. Two
    buffers with the same tree cannot be told apart by reading. */
module UbfTrees {
  import opened Xatmi
  import opened UbfFields
  import opened UbfHeap

  datatype TreeVal =
    | TData(bytes: seq<int>)
    | TView(name: string, bytes: seq<int>)
    | TNull
    | TRef(buf: TreeBuf)
    | TUbf(occs: seq<Occ<TreeVal>>)

  datatype TreeBuf = TUbfBuf(occs: seq<Occ<TreeVal>>) | TRawBuf(typeName: string, subtype: string, bytes: seq<int>)

  const LEVELS: nat := 128

  /** Below `s` every path through inline and pointer children has at most `n` UBFs, `s` included, and
      every target is live. */
  ghost predicate Fits(h: Heap, s: seq<Occ<Val>>, n: nat)
    decreases n, |s|
  {
    n > 0 && (s == [] || (FitsIn(h, s[0].val, n) && Fits(h, s[1..], n)))
  }

  ghost predicate FitsIn(h: Heap, v: Val, n: nat)
    decreases n, 0
  {
    n > 0 &&
    match v
    case PtrVal(a) => a != NULL ==> a in h && (h[a].UbfBuf? ==> Fits(h, h[a].occs, n - 1))
    case UbfVal(c) => Fits(h, c, n - 1)
    case _ => true
  }

  function Tree(h: Heap, s: seq<Occ<Val>>, n: nat): (t: seq<Occ<TreeVal>>)
    ensures |t| == |s| && forall i :: 0 <= i < |s| ==> t[i].field == s[i].field
    decreases n, 2
  {
    seq(|s|, i requires 0 <= i < |s| => Occ(s[i].field, TreeIn(h, s[i].val, n)))
  }

  function TreeIn(h: Heap, v: Val, n: nat): TreeVal
    decreases n, 1
  {
    match v
    case DataVal(b) => TData(b)
    case ViewVal(name, b) => TView(name, b)
    case PtrVal(a) => if a == NULL || a !in h then TNull else TRef(TreeBufOf(h, h[a], n))
    case UbfVal(c) => if n == 0 then TUbf([]) else TUbf(Tree(h, c, n - 1))
  }

  function TreeBufOf(h: Heap, b: Buf, n: nat): TreeBuf
    decreases n, 0
  {
    match b
    case RawBuf(t, u, x) => TRawBuf(t, u, x)
    case UbfBuf(s) => if n == 0 then TUbfBuf([]) else TUbfBuf(Tree(h, s, n - 1))
  }

  /** Inline children nest at most `n` deep, pointers not counted. */
  ghost predicate Shallow(s: seq<Occ<Val>>, n: nat)
    decreases n, |s|
  {
    n > 0 && (s == [] || ((s[0].val.UbfVal? ==> Shallow(s[0].val.occs, n - 1)) && Shallow(s[1..], n)))
  }

  // ----- laws

  lemma {:induction false} FitsAll(h: Heap, s: seq<Occ<Val>>, n: nat)
    requires n > 0
    ensures Fits(h, s, n) <==> forall i :: 0 <= i < |s| ==> FitsIn(h, s[i].val, n)
    decreases |s|
  {
    if s != [] {
      FitsAll(h, s[1..], n);
      assert forall i :: 0 < i < |s| ==> s[1..][i - 1] == s[i];
      if forall i :: 0 <= i < |s| ==> FitsIn(h, s[i].val, n) {
        forall i | 0 <= i < |s[1..]| ensures FitsIn(h, s[1..][i].val, n) { assert s[1..][i] == s[i + 1]; }
      }
    }
  }

  lemma {:induction false} FitsAppend(h: Heap, a: seq<Occ<Val>>, b: seq<Occ<Val>>, n: nat)
    ensures Fits(h, a + b, n) <==> Fits(h, a, n) && Fits(h, b, n)
    decreases |a|
  {
    if a == [] { assert a + b == b; }
    else {
      assert (a + b)[0] == a[0] && (a + b)[1..] == a[1..] + b;
      FitsAppend(h, a[1..], b, n);
    }
  }

  lemma {:induction false} FitsMore(h: Heap, s: seq<Occ<Val>>, n: nat, m: nat)
    requires Fits(h, s, n) && n <= m
    ensures Fits(h, s, m)
    decreases n, |s|
  {
    if s != [] {
      FitsInMore(h, s[0].val, n, m);
      FitsMore(h, s[1..], n, m);
    }
  }

  lemma {:induction false} FitsInMore(h: Heap, v: Val, n: nat, m: nat)
    requires FitsIn(h, v, n) && n <= m
    ensures FitsIn(h, v, m)
    decreases n, 0
  {
    match v
    case PtrVal(a) => if a != NULL && h[a].UbfBuf? { FitsMore(h, h[a].occs, n - 1, m - 1); }
    case UbfVal(c) => FitsMore(h, c, n - 1, m - 1);
    case _ =>
  }

  /** A UBF that fits has a finite unfolding. */
  lemma {:induction false} FitsComplete(h: Heap, s: seq<Occ<Val>>, n: nat)
    requires Fits(h, s, n)
    ensures Complete(h, Targets(s), n)
    decreases n, |s|
  {
    if s != [] {
      FitsInComplete(h, s[0], n);
      FitsComplete(h, s[1..], n);
      UnfoldAppend(h, TargetsIn(s[0]), Targets(s[1..]), n);
    }
  }

  lemma {:induction false} FitsInComplete(h: Heap, o: Occ<Val>, n: nat)
    requires FitsIn(h, o.val, n)
    ensures Complete(h, TargetsIn(o), n)
    decreases n, 0
  {
    match o.val
    case PtrVal(a) =>
      if a != NULL {
        if h[a].UbfBuf? { FitsComplete(h, h[a].occs, n - 1); }
        UnfoldOne(h, a, n);
      }
    case UbfVal(c) =>
      FitsComplete(h, c, n - 1);
      MoreFuel(h, Targets(c), n - 1, n);
    case _ =>
  }

  /** Deeper fuel shows the same tree. */
  lemma {:induction false} TreeMore(h: Heap, s: seq<Occ<Val>>, n: nat, m: nat)
    requires Fits(h, s, n) && n <= m
    ensures Tree(h, s, m) == Tree(h, s, n)
    decreases n, 1
  {
    FitsAll(h, s, n);
    forall i | 0 <= i < |s| ensures TreeIn(h, s[i].val, m) == TreeIn(h, s[i].val, n) {
      TreeInMore(h, s[i].val, n, m);
    }
  }

  lemma {:induction false} TreeInMore(h: Heap, v: Val, n: nat, m: nat)
    requires FitsIn(h, v, n) && n <= m
    ensures TreeIn(h, v, m) == TreeIn(h, v, n)
    decreases n, 0
  {
    match v
    case PtrVal(a) => if a != NULL && h[a].UbfBuf? { TreeMore(h, h[a].occs, n - 1, m - 1); }
    case UbfVal(c) => TreeMore(h, c, n - 1, m - 1);
    case _ =>
  }

  /** The tree depends on the buffers met and on nothing else. */
  lemma {:induction false} TreeFrame(h: Heap, k: Heap, s: seq<Occ<Val>>, n: nat)
    requires Fits(h, s, n)
    requires forall a :: a in Unfold(h, Targets(s), n) ==> a in h && a in k && k[a] == h[a]
    ensures Fits(k, s, n) && Tree(k, s, n) == Tree(h, s, n)
    decreases n, |s|
  {
    if s != [] {
      var rest := s[1..];
      UnfoldAppend(h, TargetsIn(s[0]), Targets(rest), n);
      forall a | a in Unfold(h, Targets(rest), n) ensures a in Unfold(h, Targets(s), n) {}
      forall a | a in Unfold(h, TargetsIn(s[0]), n) ensures a in Unfold(h, Targets(s), n) {}
      TreeInFrame(h, k, s[0], n);
      TreeFrame(h, k, rest, n);
      TreeCons(h, s, n);
      TreeCons(k, s, n);
    }
  }

  lemma TreeCons(h: Heap, s: seq<Occ<Val>>, n: nat)
    requires s != []
    ensures Tree(h, s, n) == [Occ(s[0].field, TreeIn(h, s[0].val, n))] + Tree(h, s[1..], n)
  {
  }

  lemma {:induction false} TreeInFrame(h: Heap, k: Heap, o: Occ<Val>, n: nat)
    requires FitsIn(h, o.val, n)
    requires forall a :: a in Unfold(h, TargetsIn(o), n) ==> a in h && a in k && k[a] == h[a]
    ensures FitsIn(k, o.val, n) && TreeIn(k, o.val, n) == TreeIn(h, o.val, n)
    decreases n, 0
  {
    match o.val
    case PtrVal(a) =>
      if a != NULL {
        UnfoldOne(h, a, n);
        assert a in Unfold(h, [a], n);
        if h[a].UbfBuf? {
          forall b | b in Unfold(h, Owned(h[a]), n - 1) ensures b in Unfold(h, [a], n) {}
          TreeFrame(h, k, h[a].occs, n - 1);
        }
      }
    case UbfVal(c) =>
      FitsComplete(h, c, n - 1);
      MoreFuel(h, Targets(c), n - 1, n);
      TreeFrame(h, k, c, n - 1);
    case _ =>
  }

  /** Editing by field and occurrence looks at fields only, so it commutes with taking the tree. */
  ghost predicate SameFields<V, W>(s: seq<Occ<V>>, t: seq<Occ<W>>) {
    |s| == |t| && forall i :: 0 <= i < |s| ==> s[i].field == t[i].field
  }

  lemma {:induction false} SameCount<V, W>(s: seq<Occ<V>>, t: seq<Occ<W>>, f: FieldId, i: nat)
    requires SameFields(s, t)
    ensures Get(s, f, i).None? <==> Get(t, f, i).None?
    ensures |Column(s, f)| == |Column(t, f)|
  {
    if s != [] {
      assert s[0].field == t[0].field;
      SameCount(s[1..], t[1..], f, i);
      if i > 0 { SameCount(s[1..], t[1..], f, i - 1); }
    }
  }

  lemma {:induction false} TreeGet(h: Heap, s: seq<Occ<Val>>, f: FieldId, i: nat, n: nat)
    ensures Get(Tree(h, s, n), f, i) == match Get(s, f, i) case None => None case Some(v) => Some(TreeIn(h, v, n))
  {
    if s != [] {
      TreeCons(h, s, n);
      if s[0].field != f { TreeGet(h, s[1..], f, i, n); }
      else if i > 0 { TreeGet(h, s[1..], f, i - 1, n); }
    }
  }

  lemma {:induction false} TreeDel(h: Heap, s: seq<Occ<Val>>, f: FieldId, i: nat, n: nat)
    ensures Tree(h, Del(s, f, i), n) == Del(Tree(h, s, n), f, i)
  {
    if s != [] {
      TreeCons(h, s, n);
      if s[0].field != f {
        TreeDel(h, s[1..], f, i, n);
        TreeCons(h, [s[0]] + Del(s[1..], f, i), n);
      } else if i > 0 {
        TreeDel(h, s[1..], f, i - 1, n);
        TreeCons(h, [s[0]] + Del(s[1..], f, i - 1), n);
      }
    }
  }

  function TreeGap(k: FieldKind): TreeVal {
    match k
    case DataField => TData([])
    case PtrField => TNull
    case UbfField => TUbf([])
    case ViewField => TView("", [])
  }

  lemma TreeAppend(h: Heap, a: seq<Occ<Val>>, b: seq<Occ<Val>>, n: nat)
    ensures Tree(h, a + b, n) == Tree(h, a, n) + Tree(h, b, n)
  {
  }

  lemma TreeGaps(h: Heap, f: FieldId, i: nat, n: nat)
    ensures Tree(h, Gaps(f, i, Gap(f.kind)), n) == Gaps(f, i, TreeGap(f.kind))
  {
    if n > 0 { assert Tree(h, [], n - 1) == []; }
  }

  lemma {:induction false} TreePut(h: Heap, s: seq<Occ<Val>>, f: FieldId, i: nat, v: Val, n: nat)
    ensures Tree(h, Put(s, f, i, v, Gap(f.kind)), n)
         == Put(Tree(h, s, n), f, i, TreeIn(h, v, n), TreeGap(f.kind))
  {
    if s == [] || Before(f, s[0].field) {
      TreeAppend(h, Gaps(f, i, Gap(f.kind)) + [Occ(f, v)], s, n);
      TreeAppend(h, Gaps(f, i, Gap(f.kind)), [Occ(f, v)], n);
      TreeGaps(h, f, i, n);
    } else {
      TreeCons(h, s, n);
      if s[0].field == f && i == 0 {
        TreeCons(h, [Occ(f, v)] + s[1..], n);
      } else {
        var j := if s[0].field == f then i - 1 else i;
        TreePut(h, s[1..], f, j, v, n);
        TreeCons(h, [s[0]] + Put(s[1..], f, j, v, Gap(f.kind)), n);
      }
    }
  }
}
