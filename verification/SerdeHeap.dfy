/** How the single edits of a buffer act on what the program holds: the edited buffer's value changes as
    its tree does, the buffers of other owners stay, and each live buffer keeps exactly one owner. */
module SerdeHeap {
  import opened Xatmi
  import opened UbfFields
  import opened UbfHeap
  import opened UbfForest
  import opened UbfTrees
  import opened UbfOwnership
  import opened UbfEdits
  import opened UbfComplex
  import opened UbfClone
  import opened UbfRuns
  import opened SerdeModel

  ghost predicate ShowsAt(h: Heap, s: seq<Occ<Val>>, t: UbfTree, n: nat) {
    n > 1 && Fits(h, s, n) && Tree(h, s, n) == t
  }

  /** The buffer `r` has the value `t`. */
  ghost predicate Shows(h: Heap, r: Addr, t: UbfTree) {
    r in h && h[r].UbfBuf? && exists n: nat :: ShowsAt(h, h[r].occs, t, n)
  }

  ghost predicate SameOn(h: Heap, k: Heap, met: multiset<Addr>) {
    forall a :: a in met ==> a in h && a in k && k[a] == h[a]
  }

  ghost predicate KeptAt(h: Heap, k: Heap, owners: seq<Addr>, n: nat) {
    Complete(h, owners, n) && SameOn(h, k, Unfold(h, owners, n))
  }

  /** The buffers `owners` and all they own are untouched. */
  ghost predicate Kept(h: Heap, k: Heap, owners: seq<Addr>) {
    exists n: nat :: KeptAt(h, k, owners, n)
  }

  lemma KeptAgain(h: Heap, k: Heap, m: Heap, owners: seq<Addr>)
    requires Kept(h, k, owners) && Kept(k, m, owners)
    ensures Kept(h, m, owners)
  {
    var n: nat :| KeptAt(h, k, owners, n);
    var l: nat :| KeptAt(k, m, owners, l);
    Frame(h, k, owners, n);
    SameUnfold(k, owners, n, l);
    assert KeptAt(h, m, owners, n);
  }

  lemma KeptRest(h: Heap, k: Heap, r: Addr, rest: seq<Addr>)
    requires Kept(h, k, [r] + rest)
    ensures Kept(h, k, rest)
  {
    var n: nat :| KeptAt(h, k, [r] + rest, n);
    UnfoldAppend(h, [r], rest, n);
    assert KeptAt(h, k, rest, n);
  }

  lemma KeptSame(h: Heap, owners: seq<Addr>, rest: seq<Addr>)
    requires Forest(h, owners + rest)
    ensures Kept(h, h, rest)
  {
    var n: nat :| Whole(h, owners + rest, n);
    UnfoldAppend(h, owners, rest, n);
    MeetsLive(h, rest, n);
    assert KeptAt(h, h, rest, n);
  }

  lemma ShowsMore(h: Heap, s: seq<Occ<Val>>, t: UbfTree, n: nat, m: nat)
    requires ShowsAt(h, s, t, n) && n <= m
    ensures ShowsAt(h, s, t, m)
  {
    FitsMore(h, s, n, m);
    TreeMore(h, s, n, m);
  }

  /** An untouched buffer keeps its value. */
  lemma KeptShows(h: Heap, k: Heap, r: Addr, rest: seq<Addr>, t: UbfTree)
    requires Kept(h, k, [r] + rest) && Shows(h, r, t)
    ensures Shows(k, r, t) && k[r] == h[r]
  {
    var n: nat :| KeptAt(h, k, [r] + rest, n);
    var m: nat :| ShowsAt(h, h[r].occs, t, m);
    UnfoldAppend(h, [r], rest, n);
    UnfoldOne(h, r, n);
    FitsComplete(h, h[r].occs, m);
    SameUnfold(h, Owned(h[r]), n - 1, m);
    assert r in Unfold(h, [r] + rest, n);
    forall a | a in Unfold(h, Owned(h[r]), m) ensures a in h && a in k && k[a] == h[a] { assert a in Unfold(h, [r] + rest, n); }
    TreeFrame(h, k, h[r].occs, m);
    assert ShowsAt(k, k[r].occs, t, m);
  }

  lemma SwapOwners(h: Heap, c: Addr, r: Addr, rest: seq<Addr>)
    requires Forest(h, [c] + ([r] + rest))
    ensures Forest(h, [r] + ([c] + rest))
  {
    Swap([r], [c], rest);
    assert [r] + [c] + rest == [r] + ([c] + rest);
    ReorderOwners(h, [c] + ([r] + rest), [r] + ([c] + rest));
  }

  // ----- edits

  /** The buffer's fields are in order, so its value's are. */
  lemma ShowsSorted(h: Heap, r: Addr, t: UbfTree)
    requires Shows(h, r, t) && Sorted(h[r].occs)
    ensures Sorted(t) && forall f :: |Column(t, f)| == |Column(h[r].occs, f)|
  {
    var n: nat :| ShowsAt(h, h[r].occs, t, n);
    forall f ensures |Column(t, f)| == |Column(h[r].occs, f)| { SameCount(h[r].occs, t, f, 0); }
  }

  lemma SparedKept(h: Heap, r: Addr, f: FieldId, i: nat, s: seq<Occ<Val>>, come: seq<Addr>, rest: seq<Addr>)
    requires MayReplace(h, r, f, i) && Forest(h, [r] + come + rest)
    requires Exchanged(h[r], UbfBuf(s), come, At(h[r].occs, f, i))
    ensures Kept(h, Edited(h, r, s, Gone(h, r, f, i)), rest)
  {
    var n: nat :| Whole(h, [r] + come + rest, n);
    Spared(h, r, f, i, s, come, rest, n);
    assert KeptAt(h, Edited(h, r, s, Gone(h, r, f, i)), rest, n);
  }

  /** Writing the value `v`, which brings buffers of the program along. */
  lemma PutShows(h: Heap, r: Addr, f: FieldId, i: nat, v: Val, rest: seq<Addr>, t: UbfTree, n: nat)
    requires MayReplace(h, r, f, i) && Forest(h, [r] + TargetsIn(Occ(f, v)) + rest) && Sorted(h[r].occs)
    requires Shows(h, r, t) && FitsIn(h, v, n)
    ensures var k := AfterPut(h, r, f, i, v);
            && Forest(k, [r] + rest) && Kept(h, k, rest)
            && Shows(k, r, Put(t, f, i, TreeIn(h, v, n), TreeGap(f.kind)))
  {
    var m: nat :| ShowsAt(h, h[r].occs, t, m);
    var l := if m > n then m else n;
    ShowsMore(h, h[r].occs, t, m, l);
    FitsInMore(h, v, n, l);
    TreeInMore(h, v, n, l);
    PutTargets(h[r].occs, f, i, v);
    var s := Put(h[r].occs, f, i, v, Gap(f.kind));
    KeepsForest(h, r, f, i, s, TargetsIn(Occ(f, v)), rest);
    SparedKept(h, r, f, i, s, TargetsIn(Occ(f, v)), rest);
    PutReads(h, r, f, i, v, rest, l);
    var k := AfterPut(h, r, f, i, v);
    assert ShowsAt(k, k[r].occs, Put(t, f, i, TreeIn(h, v, n), TreeGap(f.kind)), l);
  }

  lemma PlainShows(h: Heap, r: Addr, f: FieldId, i: nat, v: Val, rest: seq<Addr>, t: UbfTree)
    requires MayReplace(h, r, f, i) && Forest(h, [r] + rest) && Sorted(h[r].occs) && Shows(h, r, t)
    requires v.DataVal? || v.ViewVal? || v == PtrVal(NULL)
    ensures var k := AfterPut(h, r, f, i, v);
            && Forest(k, [r] + rest) && Kept(h, k, rest)
            && Shows(k, r, Put(t, f, i, TreeIn(h, v, 1), TreeGap(f.kind)))
  {
    assert [r] + [] + rest == [r] + rest;
    PutShows(h, r, f, i, v, rest, t, 1);
  }

  /** Storing a pointer to a UBF of the program. */
  lemma PtrShows(h: Heap, r: Addr, f: FieldId, i: nat, c: Addr, rest: seq<Addr>, t: UbfTree, b: TreeBuf, n: nat)
    requires MayReplace(h, r, f, i) && Forest(h, [c] + ([r] + rest)) && Sorted(h[r].occs) && Shows(h, r, t)
    requires c != NULL && c in h && (h[c].UbfBuf? ==> Fits(h, h[c].occs, n)) && TreeBufOf(h, h[c], n + 1) == b
    ensures var k := AfterPut(h, r, f, i, PtrVal(c));
            && Forest(k, [r] + rest) && Kept(h, k, rest)
            && Shows(k, r, Put(t, f, i, TRef(b), TreeGap(f.kind)))
  {
    Swap([r], [c], rest);
    ReorderOwners(h, [c] + ([r] + rest), [r] + [c] + rest);
    PutShows(h, r, f, i, PtrVal(c), rest, t, n + 1);
  }

  lemma ShellKept(h: Heap, c: Addr, owners: seq<Addr>)
    requires Forest(h, [c] + owners) && c in h
    ensures Kept(h, h - {c}, owners)
  {
    var n: nat :| Whole(h, [c] + owners, n);
    assert [c] + [] + owners == [c] + owners;
    RestOf(h, c, [], owners, n);
    MeetsLive(h, owners, n);
    assert KeptAt(h, h - {c}, owners, n);
  }

  /** Without the child's shell, its targets are the program's and everything else is as before. */
  lemma WithoutChild(h: Heap, r: Addr, f: FieldId, i: nat, c: Addr, rest: seq<Addr>, t: UbfTree)
    requires MayReplace(h, r, f, i) && Forest(h, [c] + ([r] + rest)) && Shows(h, r, t) && c in h && h[c].UbfBuf?
    ensures r != c && c !in Gone(h, r, f, i) && Gone(h - {c}, r, f, i) == Gone(h, r, f, i)
    ensures MayReplace(h - {c}, r, f, i) && Forest(h - {c}, [r] + Owned(h[c]) + rest)
    ensures Shows(h - {c}, r, t) && Kept(h, h - {c}, rest)
  {
    Swap([r], [c], rest);
    ReorderOwners(h, [c] + ([r] + rest), [r] + [c] + rest);
    ShellDissolved(h, r, c, rest);
    ChildApart(h, r, f, i, c, rest);
    ShellKept(h, c, [r] + rest);
    KeptShows(h, h - {c}, r, rest, t);
    KeptRest(h, h - {c}, r, rest);
  }

  /** Embedding a UBF of the program. */
  lemma EmbedShows(h: Heap, r: Addr, f: FieldId, i: nat, c: Addr, rest: seq<Addr>, t: UbfTree, u: UbfTree)
    requires MayReplace(h, r, f, i) && Forest(h, [c] + ([r] + rest)) && Sorted(h[r].occs) && Shows(h, r, t) && Shows(h, c, u)
    ensures r != c && c !in Gone(h, r, f, i)
    ensures var k := AfterEmbed(h, r, f, i, c);
            && Forest(k, [r] + rest) && Kept(h, k, rest)
            && Shows(k, r, Put(t, f, i, TUbf(u), TreeGap(f.kind)))
  {
    var n: nat :| ShowsAt(h, h[c].occs, u, n);
    WithoutChild(h, r, f, i, c, rest, t);
    ShellTree(h, c, [r] + rest, n);
    PutShows(h - {c}, r, f, i, UbfVal(h[c].occs), rest, t, n + 1);
    TwoRemovals(h, r, c, Put(h[r].occs, f, i, UbfVal(h[c].occs), Gap(f.kind)), Gone(h, r, f, i));
    KeptAgain(h, h - {c}, AfterEmbed(h, r, f, i, c), rest);
  }

  /** What a buffer of the program shows does not depend on its own shell. */
  lemma ShellTree(h: Heap, c: Addr, owners: seq<Addr>, n: nat)
    requires Forest(h, [c] + owners) && c in h && h[c].UbfBuf? && Fits(h, h[c].occs, n)
    ensures Fits(h - {c}, h[c].occs, n) && Tree(h - {c}, h[c].occs, n) == Tree(h, h[c].occs, n)
  {
    var m: nat :| Whole(h, [c] + owners, m);
    assert [c] + [] + owners == [c] + owners;
    RestOf(h, c, [], owners, m);
    AwayFromShell(h, c, n, m - 1);
  }

  lemma AwayFromShell(h: Heap, c: Addr, n: nat, m: nat)
    requires c in h && h[c].UbfBuf? && Fits(h, h[c].occs, n)
    requires Complete(h, Owned(h[c]), m) && c !in Unfold(h, Owned(h[c]), m)
    ensures Fits(h - {c}, h[c].occs, n) && Tree(h - {c}, h[c].occs, n) == Tree(h, h[c].occs, n)
  {
    FitsComplete(h, h[c].occs, n);
    SameUnfold(h, Owned(h[c]), m, n);
    MeetsLive(h, Owned(h[c]), n);
    TreeFrame(h, h - {c}, h[c].occs, n);
  }

  lemma DeleteKeeps(h: Heap, r: Addr, f: FieldId, i: nat, rest: seq<Addr>)
    requires MayReplace(h, r, f, i) && Forest(h, [r] + rest)
    ensures Forest(AfterDelete(h, r, f, i), [r] + rest) && Kept(h, AfterDelete(h, r, f, i), rest)
  {
    DelExchanged(h, r, f, i);
    assert [r] + [] + rest == [r] + rest;
    KeepsForest(h, r, f, i, Del(h[r].occs, f, i), [], rest);
    SparedKept(h, r, f, i, Del(h[r].occs, f, i), [], rest);
  }

  lemma DeleteShows(h: Heap, r: Addr, f: FieldId, i: nat, rest: seq<Addr>, t: UbfTree)
    requires MayReplace(h, r, f, i) && Forest(h, [r] + rest) && Shows(h, r, t)
    ensures var k := AfterDelete(h, r, f, i);
            && Forest(k, [r] + rest) && Kept(h, k, rest) && Shows(k, r, Del(t, f, i))
  {
    var n: nat :| ShowsAt(h, h[r].occs, t, n);
    DeleteKeeps(h, r, f, i, rest);
    DeleteReads(h, r, f, i, rest, n);
    assert ShowsAt(AfterDelete(h, r, f, i), Del(h[r].occs, f, i), Del(t, f, i), n);
  }

  /** Trimming one occurrence more deletes one occurrence more. */
  lemma {:induction false} TrimStep(t: UbfTree, f: FieldId, first: nat)
    requires |Column(t, f)| > first
    ensures Trimmed(t, f, first) == Del(Trimmed(t, f, first + 1), f, first)
    decreases |Column(t, f)|
  {
    var u := Del(t, f, |Column(t, f)| - 1);
    DelColumn(t, f, |Column(t, f)| - 1, f);
    if |Column(t, f)| > first + 1 { TrimStep(u, f, first); }
  }

  /** Deleting the occurrences from the end down to `first`. */
  lemma {:induction false} ClearShows(h: Heap, r: Addr, f: FieldId, total: nat, first: nat, rest: seq<Addr>, t: UbfTree)
    requires Forest(h, [r] + rest) && Shows(h, r, t) && Clearable(h, r, f, total, first) && total == |Column(t, f)|
    ensures var k := Cleared(h, r, f, total, first);
            Forest(k, [r] + rest) && Kept(h, k, rest) && Shows(k, r, Trimmed(t, f, first))
    decreases if total > first then total - first else 0
  {
    if first >= total {
      KeptSame(h, [r], rest);
    } else {
      ClearShows(h, r, f, total, first + 1, rest, t);
      var k := Cleared(h, r, f, total, first + 1);
      TrimStep(t, f, first);
      DeleteShows(k, r, f, first, rest, Trimmed(t, f, first + 1));
      KeptAgain(h, k, AfterDelete(k, r, f, first), rest);
    }
  }

  /** Dropping one of the program's buffers. */
  lemma DropKeeps(h: Heap, c: Addr, owners: seq<Addr>) returns (n: nat)
    requires Forest(h, [c] + owners)
    ensures Trees(h, [c], n)
    ensures var k := h - Elems(Unfold(h, [c], n));
            Free(h, [c]) == Some(k) && Forest(k, owners) && Kept(h, k, owners)
  {
    n :| Whole(h, [c] + owners, n);
    var k := h - Elems(Unfold(h, [c], n));
    Discard(h, [c], owners, n);
    UnfoldAppend(h, [c], owners, n);
    SumElems(Unfold(h, [c], n), Unfold(h, owners, n), {});
    MeetsLive(h, owners, n);
    assert Whole(k, owners, n);
    forall a | a in Unfold(h, owners, n) ensures a in k && k[a] == h[a] { assert a in Elems(Unfold(h, owners, n)); }
    assert KeptAt(h, k, owners, n);
  }

  /** A new buffer. */
  lemma AllocKeeps(h: Heap, owners: seq<Addr>, c: Addr, b: Buf)
    requires Forest(h, owners) && c !in h && Owned(b) == []
    ensures Forest(h[c := b], [c] + owners) && Kept(h, h[c := b], owners)
    ensures b == UbfBuf([]) ==> Shows(h[c := b], c, [])
  {
    Allocate(h, owners, c, b);
    var n: nat :| Whole(h, owners, n);
    MeetsLive(h, owners, n);
    assert KeptAt(h, h[c := b], owners, n);
    if b == UbfBuf([]) { assert ShowsAt(h[c := b], [], [], 2); }
  }
}
