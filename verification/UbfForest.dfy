/** When every live buffer has exactly one owner, and the moves that keep it so: a parent gives up and
    takes over targets, given-up targets are freed or handed out, a shell is dissolved, a buffer is
    allocated. */
module UbfForest {
  import opened Xatmi
  import opened UbfFields
  import opened UbfHeap

  /** Unfolding the program's own buffers meets every live buffer exactly once, and no dead one. */
  ghost predicate Whole(h: Heap, owners: seq<Addr>, n: nat) {
    Complete(h, owners, n) && Unfold(h, owners, n) == multiset(h.Keys)
  }

  ghost predicate Forest(h: Heap, owners: seq<Addr>) {
    exists n: nat :: Whole(h, owners, n)
  }

  lemma WholeSingle(h: Heap, owners: seq<Addr>, n: nat)
    requires Whole(h, owners, n)
    ensures Single(Unfold(h, owners, n))
  {
  }

  lemma ReorderOwners(h: Heap, owners: seq<Addr>, others: seq<Addr>)
    requires Forest(h, owners) && multiset(owners) == multiset(others)
    ensures Forest(h, others)
  {
    var n: nat :| Whole(h, owners, n);
    Reorder(h, owners, others, n);
    assert Whole(h, others, n);
  }

  // ----- what a forest is

  /** The two buffers, if they are two, own nothing in common. */
  ghost predicate Disjoint(h: Heap, b: Addr, c: Addr) {
    b in h && c in h && b != c ==> forall t :: t in Owned(h[b]) ==> t !in Owned(h[c])
  }

  ghost predicate Distinct(s: seq<Addr>) {
    forall i, j :: 0 <= i < j < |s| ==> s[i] != s[j]
  }

  lemma {:induction false} MeetsStarts(h: Heap, us: seq<Addr>, n: nat, i: nat)
    requires i < |us|
    ensures us[i] in Unfold(h, us, n)
    decreases i
  {
    if i > 0 { MeetsStarts(h, us[1..], n, i - 1); }
  }

  lemma {:induction false} MeetsOwned(h: Heap, us: seq<Addr>, n: nat, b: Addr, t: Addr)
    requires Complete(h, us, n) && b in Unfold(h, us, n) && b in h && t in Owned(h[b])
    ensures t in Unfold(h, us, n)
    decreases n, |us|
  {
    var u := us[0];
    if b == u {
      var i :| 0 <= i < |Owned(h[u])| && Owned(h[u])[i] == t;
      MeetsStarts(h, Owned(h[u]), n - 1, i);
    } else if b in Unfold(h, us[1..], n) {
      MeetsOwned(h, us[1..], n, b, t);
    } else {
      MeetsOwned(h, Owned(h[u]), n - 1, b, t);
    }
  }

  ghost predicate Clear(m: multiset<Addr>, k: multiset<Addr>) {
    forall a :: a in m ==> a !in k
  }

  /** A singly met unfolding splits into its first buffer, what that owns, and the rest. */
  lemma Split(h: Heap, us: seq<Addr>, n: nat)
    requires us != [] && Complete(h, us, n) && Single(Unfold(h, us, n))
    ensures var below, beside := Unfold(h, Owned(h[us[0]]), n - 1), Unfold(h, us[1..], n);
            && Single(below) && Single(beside) && Clear(below, beside)
            && us[0] !in below && us[0] !in beside
  {
    var all, below, beside := Unfold(h, us, n), Unfold(h, Owned(h[us[0]]), n - 1), Unfold(h, us[1..], n);
    assert Below(h, us[0], n) == below;
    assert all == multiset{us[0]} + below + beside;
    forall a ensures below[a] + beside[a] + multiset{us[0]}[a] <= 1 { assert all[a] <= 1; }
    forall a | a in below ensures a !in beside { assert below[a] + beside[a] <= 1; }
  }

  /** Nothing owned below or beside is shared: within `us` and what `us` own. */
  lemma {:induction false} SingleMeansTree(h: Heap, us: seq<Addr>, n: nat, b: Addr)
    requires Complete(h, us, n) && Single(Unfold(h, us, n)) && b in Unfold(h, us, n) && b in h
    ensures Distinct(us) && Distinct(Owned(h[b])) && forall t :: t in Owned(h[b]) ==> t !in us
    decreases n, |us|
  {
    Split(h, us, n);
    var u, rest := us[0], us[1..];
    StartsDistinct(h, us, n);
    if b == u {
      StartsDistinct(h, Owned(h[u]), n - 1);
      forall t | t in Owned(h[b]) ensures t !in us { OwnedAway(h, us, n, t); }
    } else if b in Unfold(h, rest, n) {
      SingleMeansTree(h, rest, n, b);
      forall t | t in Owned(h[b]) ensures t != u { MeetsOwned(h, rest, n, b, t); }
    } else {
      SingleMeansTree(h, Owned(h[u]), n - 1, b);
      forall t | t in Owned(h[b]) ensures t !in us {
        MeetsOwned(h, Owned(h[u]), n - 1, b, t);
        StartsAway(h, us, n, t);
      }
    }
  }

  lemma {:induction false} StartsDistinct(h: Heap, us: seq<Addr>, n: nat)
    requires Complete(h, us, n) && Single(Unfold(h, us, n))
    ensures Distinct(us)
    decreases |us|
  {
    if us != [] {
      Split(h, us, n);
      StartsDistinct(h, us[1..], n);
      forall i | 0 < i < |us| ensures us[i] != us[0] { MeetsStarts(h, us[1..], n, i - 1); }
    }
  }

  /** What lies below the first buffer is none of the starts. */
  lemma StartsAway(h: Heap, us: seq<Addr>, n: nat, t: Addr)
    requires us != [] && Complete(h, us, n) && Single(Unfold(h, us, n)) && t in Unfold(h, Owned(h[us[0]]), n - 1)
    ensures t !in us
  {
    Split(h, us, n);
    forall i | 0 < i < |us| ensures us[i] != t { MeetsStarts(h, us[1..], n, i - 1); }
  }

  lemma OwnedAway(h: Heap, us: seq<Addr>, n: nat, t: Addr)
    requires us != [] && Complete(h, us, n) && Single(Unfold(h, us, n)) && t in Owned(h[us[0]])
    ensures t !in us
  {
    var ts := Owned(h[us[0]]);
    var i :| 0 <= i < |ts| && ts[i] == t;
    MeetsStarts(h, ts, n - 1, i);
    StartsAway(h, us, n, t);
  }

  lemma {:induction false} NothingShared(h: Heap, us: seq<Addr>, n: nat, b: Addr, c: Addr)
    requires Complete(h, us, n) && Single(Unfold(h, us, n))
    requires b in Unfold(h, us, n) && c in Unfold(h, us, n)
    ensures Disjoint(h, b, c)
    decreases n, |us|
  {
    if b in h && c in h && b != c {
      Split(h, us, n);
      var u, ts, rest := us[0], Owned(h[us[0]]), us[1..];
      if b in Unfold(h, rest, n) && c in Unfold(h, rest, n) { NothingShared(h, rest, n, b, c); }
      else if b in Unfold(h, ts, n - 1) && c in Unfold(h, ts, n - 1) { NothingShared(h, ts, n - 1, b, c); }
      else if b == u { OneAbove(h, us, n, c); }
      else if c == u { OneAbove(h, us, n, b); }
      else if b in Unfold(h, ts, n - 1) { SideBySide(h, us, n, b, c); }
      else { SideBySide(h, us, n, c, b); }
    }
  }

  lemma OneAbove(h: Heap, us: seq<Addr>, n: nat, c: Addr)
    requires us != [] && Complete(h, us, n) && Single(Unfold(h, us, n)) && c in h && c != us[0]
    requires c in Unfold(h, Owned(h[us[0]]), n - 1) || c in Unfold(h, us[1..], n)
    ensures forall t :: t in Owned(h[us[0]]) ==> t !in Owned(h[c])
  {
    Split(h, us, n);
    var ts := Owned(h[us[0]]);
    if c in Unfold(h, ts, n - 1) { SingleMeansTree(h, ts, n - 1, c); }
    else {
      forall t | t in ts ensures t !in Owned(h[c]) {
        var i :| 0 <= i < |ts| && ts[i] == t;
        MeetsStarts(h, ts, n - 1, i);
        if t in Owned(h[c]) { MeetsOwned(h, us[1..], n, c, t); }
      }
    }
  }

  lemma SideBySide(h: Heap, us: seq<Addr>, n: nat, b: Addr, c: Addr)
    requires us != [] && Complete(h, us, n) && Single(Unfold(h, us, n)) && b in h && c in h
    requires b in Unfold(h, Owned(h[us[0]]), n - 1) && c in Unfold(h, us[1..], n)
    ensures forall t :: t in Owned(h[b]) ==> t !in Owned(h[c])
  {
    Split(h, us, n);
    forall t | t in Owned(h[b]) ensures t !in Owned(h[c]) {
      MeetsOwned(h, Owned(h[us[0]]), n - 1, b, t);
      if t in Owned(h[c]) { MeetsOwned(h, us[1..], n, c, t); }
    }
  }

  /** In a forest every live buffer has exactly one owner: the program holds each of its own buffers
      once, no PTR occurrence names one of those, and no two PTR occurrences anywhere name the same
      target. Every target is live. */
  lemma OneOwnerEach(h: Heap, owners: seq<Addr>, b: Addr, c: Addr)
    requires Forest(h, owners) && b in h && c in h
    ensures Distinct(owners) && Distinct(Owned(h[b]))
    ensures forall t :: t in Owned(h[b]) ==> t in h && t !in owners
    ensures b != c ==> forall t :: t in Owned(h[b]) ==> t !in Owned(h[c])
  {
    var n: nat :| Whole(h, owners, n);
    WholeSingle(h, owners, n);
    SingleMeansTree(h, owners, n, b);
    NothingShared(h, owners, n, b, c);
    forall t | t in Owned(h[b]) ensures t in h { MeetsOwned(h, owners, n, b, t); }
  }

  // ----- moves

  /** `r`'s new contents own what it owned, plus `come`, less `out`. */
  ghost predicate Exchanged(old': Buf, new': Buf, come: seq<Addr>, out: seq<Addr>) {
    multiset(Owned(old')) + multiset(come) == multiset(Owned(new')) + multiset(out)
  }

  lemma Around(h: Heap, r: Addr, us: seq<Addr>, rest: seq<Addr>, n: nat)
    ensures Complete(h, [r] + us + rest, n) <==> Complete(h, [r], n) && Complete(h, us, n) && Complete(h, rest, n)
    ensures Unfold(h, [r] + us + rest, n) == Unfold(h, [r], n) + Unfold(h, us, n) + Unfold(h, rest, n)
  {
    UnfoldAppend(h, [r] + us, rest, n);
    UnfoldAppend(h, [r], us, n);
  }

  /** Everything beside and below `r`. */
  ghost function Rest(h: Heap, r: Addr, us: seq<Addr>, rest: seq<Addr>, n: nat): multiset<Addr>
    requires r in h && n > 0
  {
    Unfold(h, Owned(h[r]), n - 1) + Unfold(h, us, n) + Unfold(h, rest, n)
  }

  lemma RestOf(h: Heap, r: Addr, us: seq<Addr>, rest: seq<Addr>, n: nat)
    requires Whole(h, [r] + us + rest, n)
    ensures r in h && n > 0 && Complete(h, Owned(h[r]), n - 1) && Complete(h, us, n) && Complete(h, rest, n)
    ensures multiset(h.Keys) == multiset{r} + Rest(h, r, us, rest, n)
    ensures r !in Unfold(h, Owned(h[r]), n - 1) && r !in Unfold(h, us, n) && r !in Unfold(h, rest, n)
  {
    Around(h, r, us, rest, n);
    UnfoldOne(h, r, n);
    var m := Rest(h, r, us, rest, n);
    assert multiset(h.Keys) == multiset{r} + m;
    assert m[r] == 0 by { assert multiset(h.Keys)[r] == 1 + m[r]; }
  }

  lemma Unchanged(h: Heap, r: Addr, b: Buf, us: seq<Addr>, n: nat, m: nat)
    requires Complete(h, us, n) && r !in Unfold(h, us, n) && n <= m
    ensures Complete(h[r := b], us, m) && Unfold(h[r := b], us, m) == Unfold(h, us, n)
  {
    MeetsLive(h, us, n);
    Frame(h, h[r := b], us, n);
    MoreFuel(h[r := b], us, n, m);
  }

  lemma Rewired(h: Heap, r: Addr, b: Buf, come: seq<Addr>, out: seq<Addr>, n: nat)
    requires r in h && n > 0 && Complete(h, Owned(h[r]), n - 1) && Complete(h, come, n)
    requires r !in Unfold(h, Owned(h[r]), n - 1) && r !in Unfold(h, come, n)
    requires Exchanged(h[r], b, come, out)
    ensures Complete(h[r := b], Owned(b), n) && Complete(h[r := b], out, n)
    ensures Unfold(h[r := b], Owned(b), n) + Unfold(h[r := b], out, n)
         == Unfold(h, Owned(h[r]), n - 1) + Unfold(h, come, n)
  {
    var k := h[r := b];
    Unchanged(h, r, b, Owned(h[r]), n - 1, n);
    Unchanged(h, r, b, come, n, n);
    UnfoldAppend(k, Owned(h[r]), come, n);
    UnfoldAppend(k, Owned(b), out, n);
    Reorder(k, Owned(h[r]) + come, Owned(b) + out, n);
  }

  /** The program's buffer `r` takes over its buffers `come` and gives up `out`, which become the
      program's. */
  lemma Rewire(h: Heap, r: Addr, b: Buf, come: seq<Addr>, out: seq<Addr>, rest: seq<Addr>)
    requires Forest(h, [r] + come + rest) && r in h && Exchanged(h[r], b, come, out)
    ensures Forest(h[r := b], [r] + out + rest)
  {
    var n: nat :| Whole(h, [r] + come + rest, n);
    var k := h[r := b];
    RestOf(h, r, come, rest, n);
    Rewired(h, r, b, come, out, n);
    Unchanged(h, r, b, rest, n, n + 1);
    MoreFuel(k, out, n, n + 1);
    UnfoldOne(k, r, n + 1);
    Around(k, r, out, rest, n + 1);
    assert k.Keys == h.Keys;
    Recount(multiset{r}, Unfold(k, Owned(b), n), Unfold(k, out, n), Unfold(h, Owned(h[r]), n - 1), Unfold(h, come, n), Unfold(h, rest, n));
    assert Whole(k, [r] + out + rest, n + 1);
  }

  lemma Recount(r: multiset<Addr>, a: multiset<Addr>, b: multiset<Addr>, x: multiset<Addr>, y: multiset<Addr>, z: multiset<Addr>)
    requires a + b == x + y
    ensures r + a + b + z == r + (x + y + z)
  {
    assert r + a + b + z == r + (a + b) + z;
  }

  /** Freeing buffers of the program frees what they own as well, each once, and nothing else's. */
  lemma Discard(h: Heap, out: seq<Addr>, rest: seq<Addr>, n: nat)
    requires Whole(h, out + rest, n)
    ensures Complete(h, out, n) && Free(h, out) == Some(h - Elems(Unfold(h, out, n)))
    ensures Whole(h - Elems(Unfold(h, out, n)), rest, n)
  {
    UnfoldAppend(h, out, rest, n);
    var gone, kept := Unfold(h, out, n), Unfold(h, rest, n);
    var k := h - Elems(gone);
    forall a ensures gone[a] + kept[a] <= 1 { assert (gone + kept)[a] == multiset(h.Keys)[a]; }
    FreeExactly(h, out, n);
    MeetsLive(h, rest, n);
    forall a | a in kept ensures a in k && k[a] == h[a] { assert gone[a] + kept[a] <= 1; }
    Frame(h, k, rest, n);
    KeptKeys(h, gone, kept);
  }

  lemma KeptKeys(h: Heap, gone: multiset<Addr>, kept: multiset<Addr>)
    requires multiset(h.Keys) == gone + kept
    ensures multiset((h - Elems(gone)).Keys) == kept
  {
    forall a ensures kept[a] == multiset((h - Elems(gone)).Keys)[a] {
      assert gone[a] + kept[a] == multiset(h.Keys)[a];
    }
  }

  lemma NoneMeetsNone(h: Heap, n: nat)
    ensures Unfold(h, [], n) == multiset{}
  {
  }

  lemma DropKey(h: Heap, c: Addr, m: multiset<Addr>)
    requires multiset(h.Keys) == multiset{c} + m
    ensures multiset((h - {c}).Keys) == m
  {
    forall a ensures multiset((h - {c}).Keys)[a] == m[a] { assert multiset(h.Keys)[a] == multiset{c}[a] + m[a]; }
  }

  /** Dropping a shell whose targets have been taken over hands them to the program. */
  lemma Dissolve(h: Heap, c: Addr, rest: seq<Addr>)
    requires Forest(h, [c] + rest) && c in h
    ensures Forest(h - {c}, Owned(h[c]) + rest)
  {
    var n: nat :| Whole(h, [c] + rest, n);
    assert [c] + [] + rest == [c] + rest;
    RestOf(h, c, [], rest, n);
    Shrink(h, c, Owned(h[c]), n - 1);
    Shrink(h, c, rest, n);
    MoreFuel(h - {c}, Owned(h[c]), n - 1, n);
    UnfoldAppend(h - {c}, Owned(h[c]), rest, n);
    NoneMeetsNone(h, n);
    DropKey(h, c, Rest(h, c, [], rest, n));
    assert Whole(h - {c}, Owned(h[c]) + rest, n);
  }

  /** A new buffer that owns nothing. */
  lemma Allocate(h: Heap, owners: seq<Addr>, c: Addr, b: Buf)
    requires Forest(h, owners) && c !in h && Owned(b) == []
    ensures Forest(h[c := b], [c] + owners)
  {
    var n: nat :| Whole(h, owners, n);
    var k := h[c := b];
    AddedFrame(h, c, b, owners, n);
    UnfoldOne(k, c, n + 1);
    UnfoldAppend(k, [c], owners, n + 1);
    NoneMeetsNone(k, n);
    AddKey(h, c, b);
    assert Whole(k, [c] + owners, n + 1);
  }

  lemma AddedFrame(h: Heap, c: Addr, b: Buf, us: seq<Addr>, n: nat)
    requires Complete(h, us, n) && c !in h
    ensures Complete(h[c := b], us, n + 1) && Unfold(h[c := b], us, n + 1) == Unfold(h, us, n)
  {
    MeetsLive(h, us, n);
    Frame(h, h[c := b], us, n);
    MoreFuel(h[c := b], us, n, n + 1);
  }

  lemma AddKey(h: Heap, c: Addr, b: Buf)
    requires c !in h
    ensures multiset(h[c := b].Keys) == multiset{c} + multiset(h.Keys)
  {
  }
}
