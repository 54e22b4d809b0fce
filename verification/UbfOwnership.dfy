/** What the check before an ownership-changing edit decides, and what its answer is good for. */
module UbfOwnership {
  import opened Xatmi
  import opened UbfFields
  import opened UbfHeap
  import opened UbfTrees

  /** The buffers met below a UBF. */
  ghost function Met(h: Heap, s: seq<Occ<Val>>): multiset<Addr> {
    Unfold(h, Targets(s), LEVELS)
  }

  ghost function MetIn(h: Heap, o: Occ<Val>): multiset<Addr> {
    Unfold(h, TargetsIn(o), LEVELS)
  }

  /** Within `n` levels, no buffer is met twice and none that was `seen`. */
  ghost predicate Clean(h: Heap, s: seq<Occ<Val>>, seen: set<Addr>, n: nat) {
    Fits(h, s, n) && Single(Met(h, s)) && Elems(Met(h, s)) !! seen
  }

  ghost predicate CleanIn(h: Heap, o: Occ<Val>, seen: set<Addr>, n: nat) {
    FitsIn(h, o.val, n) && Single(MetIn(h, o)) && Elems(MetIn(h, o)) !! seen
  }

  /** The buffer `r` with all it owns is a tree of live buffers of at most 128 levels, and nothing in it
      owns `r`. */
  ghost predicate OwnedTree(h: Heap, r: Addr) {
    r in h && Clean(h, OccsOf(h[r]), {r}, LEVELS)
  }

  lemma SumElems(x: multiset<Addr>, y: multiset<Addr>, seen: set<Addr>)
    ensures Elems(x + y) == Elems(x) + Elems(y)
    ensures Single(x + y) && Elems(x + y) !! seen
       <==> Single(x) && Elems(x) !! seen && Single(y) && Elems(y) !! seen + Elems(x)
  {
    if Single(x + y) {
      forall a ensures x[a] <= 1 && y[a] <= 1 && !(a in x && a in y) { assert (x + y)[a] <= 1; }
    }
    if Single(x) && Single(y) && Elems(y) !! seen + Elems(x) {
      forall a ensures (x + y)[a] <= 1 { if a in y { assert a in Elems(y) && a !in Elems(x); } }
    }
  }

  lemma MetCons(h: Heap, s: seq<Occ<Val>>)
    requires s != []
    ensures Met(h, s) == MetIn(h, s[0]) + Met(h, s[1..])
  {
    UnfoldAppend(h, TargetsIn(s[0]), Targets(s[1..]), LEVELS);
  }

  /** The check goes occurrence by occurrence, remembering what it met. */
  lemma CleanCons(h: Heap, s: seq<Occ<Val>>, seen: set<Addr>, n: nat)
    requires s != [] && n > 0
    ensures Clean(h, s, seen, n) <==> CleanIn(h, s[0], seen, n) && Clean(h, s[1..], seen + Elems(MetIn(h, s[0])), n)
    ensures Elems(Met(h, s)) == Elems(MetIn(h, s[0])) + Elems(Met(h, s[1..]))
  {
    MetCons(h, s);
    SumElems(MetIn(h, s[0]), Met(h, s[1..]), seen);
  }

  lemma MetNone(h: Heap, s: seq<Occ<Val>>)
    requires Targets(s) == []
    ensures Elems(Met(h, s)) == {} && Single(Met(h, s))
  {
  }

  lemma MetPtr(h: Heap, f: FieldId, a: Addr, n: nat)
    requires a != NULL && a in h && n < LEVELS && Complete(h, Owned(h[a]), n)
    ensures MetIn(h, Occ(f, PtrVal(a))) == multiset{a} + Met(h, OccsOf(h[a]))
  {
    UnfoldOne(h, a, LEVELS);
    MoreFuel(h, Owned(h[a]), n, LEVELS - 1);
    MoreFuel(h, Owned(h[a]), n, LEVELS);
  }

  lemma OneElem(a: Addr)
    ensures Elems(multiset{a}) == {a} && Single(multiset{a})
  {
  }

  /** A pointer is clean when its target is new, live and, if a UBF, clean itself. */
  lemma CleanPtr(h: Heap, f: FieldId, a: Addr, seen: set<Addr>, n: nat)
    requires a != NULL && 0 < n <= LEVELS
    ensures CleanIn(h, Occ(f, PtrVal(a)), seen, n)
       <==> a !in seen && a in h && (h[a].UbfBuf? ==> Clean(h, h[a].occs, seen + {a}, n - 1))
    ensures CleanIn(h, Occ(f, PtrVal(a)), seen, n)
        ==> Elems(MetIn(h, Occ(f, PtrVal(a)))) == {a} + Elems(Met(h, OccsOf(h[a])))
  {
    if FitsIn(h, PtrVal(a), n) {
      if h[a].UbfBuf? { FitsComplete(h, h[a].occs, n - 1); } else { MetNone(h, OccsOf(h[a])); }
      MetPtr(h, f, a, n - 1);
      OneElem(a);
      SumElems(multiset{a}, Met(h, OccsOf(h[a])), seen);
    }
  }

  lemma CleanInline(h: Heap, f: FieldId, c: seq<Occ<Val>>, seen: set<Addr>, n: nat)
    requires n > 0
    ensures CleanIn(h, Occ(f, UbfVal(c)), seen, n) <==> Clean(h, c, seen, n - 1)
    ensures MetIn(h, Occ(f, UbfVal(c))) == Met(h, c)
  {
  }

  lemma CleanPlain(h: Heap, o: Occ<Val>, seen: set<Addr>, n: nat)
    requires n > 0 && TargetsIn(o) == [] && !o.val.UbfVal?
    ensures CleanIn(h, o, seen, n) && Elems(MetIn(h, o)) == {}
  {
  }

  // ----- what an accepted tree allows

  /** What the occurrence owns, and what the others own. */
  lemma OneAndOthers(h: Heap, s: seq<Occ<Val>>, seen: set<Addr>, f: FieldId, i: nat)
    requires Clean(h, s, seen, LEVELS) && Get(s, f, i).Some?
    ensures Complete(h, At(s, f, i), LEVELS) && Complete(h, Others(s, f, i), LEVELS)
    ensures Single(Unfold(h, At(s, f, i), LEVELS))
    ensures Elems(Unfold(h, At(s, f, i), LEVELS)) !! seen + Elems(Unfold(h, Others(s, f, i), LEVELS))
  {
    var out, kept := At(s, f, i), Others(s, f, i);
    FitsComplete(h, s, LEVELS);
    TargetsAround(s, f, i);
    Reorder(h, Targets(s), kept + out, LEVELS);
    UnfoldAppend(h, kept, out, LEVELS);
    SumElems(Unfold(h, kept, LEVELS), Unfold(h, out, LEVELS), seen);
  }

  /** In an accepted tree, what one occurrence owns can be freed once the occurrence is gone or
      overwritten, whatever now stands in its place: nothing is freed twice, `r` is not freed, and what
      the other occurrences own stays. */
  lemma GiveUp(h: Heap, r: Addr, f: FieldId, i: nat, b: Buf)
    requires OwnedTree(h, r) && h[r].UbfBuf? && Get(h[r].occs, f, i).Some?
    ensures var out, k := At(h[r].occs, f, i), h[r := b];
            var gone := Unfold(h, out, LEVELS);
            && Complete(k, out, LEVELS) && Unfold(k, out, LEVELS) == gone && Single(gone)
            && Free(k, out) == Some(k - Elems(gone))
            && r !in Elems(gone)
            && Elems(Unfold(h, Others(h[r].occs, f, i), LEVELS)) !! Elems(gone)
  {
    var out := At(h[r].occs, f, i);
    OneAndOthers(h, h[r].occs, {r}, f, i);
    MeetsLive(h, out, LEVELS);
    assert r !in Unfold(h, out, LEVELS);
    Frame(h, h[r := b], out, LEVELS);
    FreeExactly(h[r := b], out, LEVELS);
  }

  /** The trees of distinct occurrences share no buffer. */
  lemma OccurrencesApart(h: Heap, s: seq<Occ<Val>>, seen: set<Addr>, n: nat, i: nat, j: nat)
    requires Clean(h, s, seen, n) && i < j < |s|
    ensures Elems(MetIn(h, s[i])) !! Elems(MetIn(h, s[j]))
    decreases |s|
  {
    CleanCons(h, s, seen, n);
    if i > 0 { OccurrencesApart(h, s[1..], seen + Elems(MetIn(h, s[0])), n, i - 1, j - 1); }
    else { MetAt(h, s[1..], j - 1); }
  }

  lemma {:induction false} MetAt(h: Heap, s: seq<Occ<Val>>, j: nat)
    requires j < |s|
    ensures Elems(MetIn(h, s[j])) <= Elems(Met(h, s))
    decreases |s|
  {
    MetCons(h, s);
    if j > 0 { MetAt(h, s[1..], j - 1); }
  }
}
