/** The edits of a UBF as changes of the heap, and what every sequence of edits keeps: each live buffer
    has exactly one owner, only what an edit removed is freed, and the edited buffer reads as edited. */
module UbfEdits {
  import opened Xatmi
  import opened UbfFields
  import opened UbfHeap
  import opened UbfForest
  import opened UbfTrees
  import opened UbfOwnership

  /** What goes when an occurrence goes: its targets and all they own. */
  ghost function Gone(h: Heap, r: Addr, f: FieldId, i: nat): set<Addr>
    requires r in h
  {
    Elems(Unfold(h, At(OccsOf(h[r]), f, i), LEVELS))
  }

  /** When an occurrence may be removed or overwritten: an inline child can be searched for pointers,
      and if there are any, the whole buffer is a tree. */
  ghost predicate MayReplace(h: Heap, r: Addr, f: FieldId, i: nat) {
    && r in h && h[r].UbfBuf?
    && Searchable(Get(h[r].occs, f, i))
    && (At(h[r].occs, f, i) != [] ==> OwnedTree(h, r))
  }

  ghost predicate Searchable(v: Option<Val>) {
    v.Some? && v.value.UbfVal? ==> Shallow(v.value.occs, LEVELS + 1)
  }

  ghost function Edited(h: Heap, r: Addr, s: seq<Occ<Val>>, gone: set<Addr>): Heap {
    h[r := UbfBuf(s)] - gone
  }

  ghost function AfterDelete(h: Heap, r: Addr, f: FieldId, i: nat): Heap
    requires r in h
  {
    Edited(h, r, Del(OccsOf(h[r]), f, i), Gone(h, r, f, i))
  }

  ghost function AfterPut(h: Heap, r: Addr, f: FieldId, i: nat, v: Val): Heap
    requires r in h
  {
    Edited(h, r, Put(OccsOf(h[r]), f, i, v, Gap(f.kind)), Gone(h, r, f, i))
  }

  // ----- one edit

  lemma SameUnfold(h: Heap, us: seq<Addr>, n: nat, m: nat)
    requires Complete(h, us, n) && Complete(h, us, m)
    ensures Unfold(h, us, n) == Unfold(h, us, m)
  {
    if n <= m { MoreFuel(h, us, n, m); } else { MoreFuel(h, us, m, n); }
  }

  /** What an allowed edit gives up can be freed, after the edit, each buffer once. */
  lemma GoneSafe(h: Heap, r: Addr, f: FieldId, i: nat, b: Buf)
    requires MayReplace(h, r, f, i)
    ensures var out, k := At(h[r].occs, f, i), h[r := b];
            && Complete(k, out, LEVELS) && Unfold(k, out, LEVELS) == Unfold(h, out, LEVELS)
            && Single(Unfold(k, out, LEVELS))
            && Free(k, out) == Some(k - Gone(h, r, f, i))
            && r !in Gone(h, r, f, i)
  {
    if At(h[r].occs, f, i) == [] {
      var k := h[r := b];
      assert Gone(h, r, f, i) == {} && k - {} == k;
    } else {
      GiveUp(h, r, f, i, b);
    }
  }

  /** Any edit that exchanges the occurrence's targets for buffers of the program keeps the forest. */
  lemma KeepsForest(h: Heap, r: Addr, f: FieldId, i: nat, s: seq<Occ<Val>>, come: seq<Addr>, rest: seq<Addr>)
    requires MayReplace(h, r, f, i) && Forest(h, [r] + come + rest)
    requires Exchanged(h[r], UbfBuf(s), come, At(h[r].occs, f, i))
    ensures Forest(Edited(h, r, s, Gone(h, r, f, i)), [r] + rest)
  {
    var out, k := At(h[r].occs, f, i), h[r := UbfBuf(s)];
    Rewire(h, r, UbfBuf(s), come, out, rest);
    assert multiset([r] + out + rest) == multiset(out + ([r] + rest));
    ReorderOwners(k, [r] + out + rest, out + ([r] + rest));
    var n: nat :| Whole(k, out + ([r] + rest), n);
    Discard(k, out, [r] + rest, n);
    GoneSafe(h, r, f, i, UbfBuf(s));
    SameUnfold(k, out, n, LEVELS);
    assert Whole(Edited(h, r, s, Gone(h, r, f, i)), [r] + rest, n);
  }

  lemma Parts(m: multiset<Addr>, r: Addr, x: multiset<Addr>, y: multiset<Addr>, z: multiset<Addr>)
    requires Single(m) && m == multiset{r} + (x + y + z)
    ensures r !in x && r !in y && r !in z
    ensures Clear(y, x) && Clear(z, x)
  {
    forall a ensures multiset{r}[a] + x[a] + y[a] + z[a] <= 1 { assert m[a] <= 1; }
    assert multiset{r}[r] == 1;
  }

  /** Neither what the edited buffer now owns nor what belongs to other owners is `r` or is freed. */
  lemma Spared(h: Heap, r: Addr, f: FieldId, i: nat, s: seq<Occ<Val>>, come: seq<Addr>, rest: seq<Addr>, n: nat)
    requires MayReplace(h, r, f, i) && Whole(h, [r] + come + rest, n)
    requires Exchanged(h[r], UbfBuf(s), come, At(h[r].occs, f, i))
    ensures Complete(h, Targets(s), n) && Complete(h, rest, n)
    ensures forall a :: a in Unfold(h, Targets(s), n) || a in Unfold(h, rest, n) ==> a in h && a != r && a !in Gone(h, r, f, i)
  {
    var out := At(h[r].occs, f, i);
    RestOf(h, r, come, rest, n);
    Redistributed(h, Owned(h[r]), come, Targets(s), out, n);
    Balance(multiset(h.Keys), r, Unfold(h, out, n), Unfold(h, Targets(s), n), Unfold(h, rest, n),
            Unfold(h, Owned(h[r]), n - 1), Unfold(h, come, n));
    MeetsLive(h, Targets(s), n);
    MeetsLive(h, rest, n);
    GoneInHeap(h, r, f, i, n);
  }

  lemma Redistributed(h: Heap, us: seq<Addr>, come: seq<Addr>, vs: seq<Addr>, out: seq<Addr>, n: nat)
    requires n > 0 && Complete(h, us, n - 1) && Complete(h, come, n)
    requires multiset(us) + multiset(come) == multiset(vs) + multiset(out)
    ensures Complete(h, vs, n) && Complete(h, out, n)
    ensures Unfold(h, vs, n) + Unfold(h, out, n) == Unfold(h, us, n - 1) + Unfold(h, come, n)
  {
    MoreFuel(h, us, n - 1, n);
    UnfoldAppend(h, us, come, n);
    UnfoldAppend(h, vs, out, n);
    Reorder(h, us + come, vs + out, n);
  }

  lemma Balance(keys: multiset<Addr>, r: Addr, x: multiset<Addr>, y: multiset<Addr>, z: multiset<Addr>, u: multiset<Addr>, v: multiset<Addr>)
    requires Single(keys) && keys == multiset{r} + (u + v + z) && y + x == u + v
    ensures r !in x && r !in y && r !in z && Clear(y, x) && Clear(z, x)
  {
    SwapParts(multiset{r}, x, y, z, u, v);
    Parts(keys, r, x, y, z);
  }

  lemma SwapParts(r: multiset<Addr>, x: multiset<Addr>, y: multiset<Addr>, z: multiset<Addr>, u: multiset<Addr>, v: multiset<Addr>)
    requires y + x == u + v
    ensures r + (u + v + z) == r + (x + y + z)
  {
    assert x + y == y + x;
  }

  lemma GoneInHeap(h: Heap, r: Addr, f: FieldId, i: nat, n: nat)
    requires MayReplace(h, r, f, i) && Complete(h, At(h[r].occs, f, i), n)
    ensures Gone(h, r, f, i) == Elems(Unfold(h, At(h[r].occs, f, i), n))
  {
    var out := At(h[r].occs, f, i);
    if out != [] {
      OneAndOthers(h, h[r].occs, {r}, f, i);
      SameUnfold(h, out, n, LEVELS);
    } else {
      assert Unfold(h, [], n) == Unfold(h, [], LEVELS);
    }
  }

  // ----- an edit as read back

  /** Deleting from the buffer deletes from its tree. */
  lemma DeleteReads(h: Heap, r: Addr, f: FieldId, i: nat, rest: seq<Addr>, n: nat)
    requires MayReplace(h, r, f, i) && Forest(h, [r] + rest) && Fits(h, h[r].occs, n)
    ensures var k := AfterDelete(h, r, f, i);
            && r in k && k[r] == UbfBuf(Del(h[r].occs, f, i))
            && Fits(k, k[r].occs, n) && Tree(k, k[r].occs, n) == Del(Tree(h, h[r].occs, n), f, i)
  {
    var s := Del(h[r].occs, f, i);
    DelTargets(h[r].occs, f, i);
    DelFits(h, h[r].occs, f, i, n);
    assert [r] + [] + rest == [r] + rest;
    EditReads(h, r, f, i, s, [], rest, n);
    TreeDel(h, h[r].occs, f, i, n);
  }

  /** Writing an occurrence writes it in the tree: with the value's own tree. `come` are the buffers of
      the program that the value brings with it. */
  lemma PutReads(h: Heap, r: Addr, f: FieldId, i: nat, v: Val, rest: seq<Addr>, n: nat)
    requires MayReplace(h, r, f, i) && Forest(h, [r] + TargetsIn(Occ(f, v)) + rest) && Sorted(h[r].occs)
    requires Fits(h, h[r].occs, n) && n > 1 && FitsIn(h, v, n)
    ensures var k := AfterPut(h, r, f, i, v);
            && r in k && k[r] == UbfBuf(Put(h[r].occs, f, i, v, Gap(f.kind)))
            && Fits(k, k[r].occs, n)
            && Tree(k, k[r].occs, n) == Put(Tree(h, h[r].occs, n), f, i, TreeIn(h, v, n), TreeGap(f.kind))
  {
    var s := Put(h[r].occs, f, i, v, Gap(f.kind));
    PutTargets(h[r].occs, f, i, v);
    PutFits(h, h[r].occs, f, i, v, n);
    EditReads(h, r, f, i, s, TargetsIn(Occ(f, v)), rest, n);
    TreePut(h, h[r].occs, f, i, v, n);
  }

  lemma EditReads(h: Heap, r: Addr, f: FieldId, i: nat, s: seq<Occ<Val>>, come: seq<Addr>, rest: seq<Addr>, n: nat)
    requires MayReplace(h, r, f, i) && Forest(h, [r] + come + rest) && Fits(h, s, n)
    requires Exchanged(h[r], UbfBuf(s), come, At(h[r].occs, f, i))
    ensures var k := Edited(h, r, s, Gone(h, r, f, i));
            r in k && k[r] == UbfBuf(s) && Fits(k, s, n) && Tree(k, s, n) == Tree(h, s, n)
  {
    var m: nat :| Whole(h, [r] + come + rest, m);
    var k := Edited(h, r, s, Gone(h, r, f, i));
    Spared(h, r, f, i, s, come, rest, m);
    GoneSafe(h, r, f, i, UbfBuf(s));
    FitsComplete(h, s, n);
    SameUnfold(h, Targets(s), n, m);
    EditedKeeps(h, r, s, Gone(h, r, f, i), Unfold(h, Targets(s), n));
    TreeFrame(h, k, s, n);
  }

  lemma EditedKeeps(h: Heap, r: Addr, s: seq<Occ<Val>>, gone: set<Addr>, met: multiset<Addr>)
    requires forall a :: a in met ==> a in h && a != r && a !in gone
    ensures forall a :: a in met ==> a in Edited(h, r, s, gone) && Edited(h, r, s, gone)[a] == h[a]
  {
  }

  /** Buffers of other owners read as before. */
  lemma OthersRead(h: Heap, r: Addr, f: FieldId, i: nat, s: seq<Occ<Val>>, come: seq<Addr>, rest: seq<Addr>, j: nat, n: nat)
    requires MayReplace(h, r, f, i) && Forest(h, [r] + come + rest) && j < |rest|
    requires Exchanged(h[r], UbfBuf(s), come, At(h[r].occs, f, i))
    requires rest[j] in h && Fits(h, OccsOf(h[rest[j]]), n)
    ensures var k := Edited(h, r, s, Gone(h, r, f, i));
            rest[j] in k && k[rest[j]] == h[rest[j]] && Tree(k, OccsOf(h[rest[j]]), n) == Tree(h, OccsOf(h[rest[j]]), n)
  {
    var m: nat :| Whole(h, [r] + come + rest, m);
    var q := rest[j];
    var k := Edited(h, r, s, Gone(h, r, f, i));
    Spared(h, r, f, i, s, come, rest, m);
    MeetsStarts(h, rest, m, j);
    forall a | a in Unfold(h, Owned(h[q]), n) ensures a in Unfold(h, rest, m) {
      FitsComplete(h, OccsOf(h[q]), n);
      MeetsBelow(h, rest, m, q, n, a);
    }
    TreeFrame(h, k, OccsOf(h[q]), n);
  }

  /** What lies below a buffer that is met is met. */
  lemma {:induction false} MeetsBelow(h: Heap, us: seq<Addr>, m: nat, q: Addr, n: nat, a: Addr)
    requires Complete(h, us, m) && q in Unfold(h, us, m) && q in h
    requires Complete(h, Owned(h[q]), n) && a in Unfold(h, Owned(h[q]), n)
    ensures a in Unfold(h, us, m)
    decreases m, |us|
  {
    if q == us[0] { SameUnfold(h, Owned(h[q]), n, m - 1); }
    else if q in Unfold(h, us[1..], m) { MeetsBelow(h, us[1..], m, q, n, a); }
    else { MeetsBelow(h, Owned(h[us[0]]), m - 1, q, n, a); }
  }

  lemma {:induction false} DelFits(h: Heap, s: seq<Occ<Val>>, f: FieldId, i: nat, n: nat)
    requires Fits(h, s, n)
    ensures Fits(h, Del(s, f, i), n)
    decreases |s|
  {
    if s != [] {
      if s[0].field != f { DelFits(h, s[1..], f, i, n); FitsCons(h, s[0], Del(s[1..], f, i), n); }
      else if i > 0 { DelFits(h, s[1..], f, i - 1, n); FitsCons(h, s[0], Del(s[1..], f, i - 1), n); }
    }
  }

  lemma FitsCons(h: Heap, o: Occ<Val>, s: seq<Occ<Val>>, n: nat)
    ensures Fits(h, [o] + s, n) <==> FitsIn(h, o.val, n) && Fits(h, s, n)
  {
    assert ([o] + s)[1..] == s;
    if n > 0 && s != [] {}
  }

  lemma {:induction false} GapsFit(h: Heap, f: FieldId, i: nat, n: nat)
    requires n > 1
    ensures Fits(h, Gaps(f, i, Gap(f.kind)), n)
    decreases i
  {
    assert Fits(h, [], n - 1);
    if i > 0 {
      GapsFit(h, f, i - 1, n);
      assert Gaps(f, i, Gap(f.kind))[1..] == Gaps(f, i - 1, Gap(f.kind));
    }
  }

  lemma {:induction false} PutFits(h: Heap, s: seq<Occ<Val>>, f: FieldId, i: nat, v: Val, n: nat)
    requires Fits(h, s, n) && FitsIn(h, v, n) && n > 1
    ensures Fits(h, Put(s, f, i, v, Gap(f.kind)), n)
    decreases |s|
  {
    if s == [] || Before(f, s[0].field) {
      GapsFit(h, f, i, n);
      FitsCons(h, Occ(f, v), [], n);
      assert [Occ(f, v)] + [] == [Occ(f, v)];
      FitsAppend(h, Gaps(f, i, Gap(f.kind)), [Occ(f, v)], n);
      FitsAppend(h, Gaps(f, i, Gap(f.kind)) + [Occ(f, v)], s, n);
    } else if s[0].field == f && i == 0 {
      FitsCons(h, Occ(f, v), s[1..], n);
    } else {
      var j := if s[0].field == f then i - 1 else i;
      PutFits(h, s[1..], f, j, v, n);
      FitsCons(h, s[0], Put(s[1..], f, j, v, Gap(f.kind)), n);
    }
  }
}
