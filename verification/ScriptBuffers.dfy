/** The slot collection as the object the library updates in place, and the callback bridge around it. */
module ScriptBuffers {
  import opened Xatmi
  import opened ScriptModel
  import opened ScriptRuns

  datatype Result<+T> = Ok(value: T) | Err

  class ScriptCtx {
    var heap: Heap

    /** Native `tpfree`, on a live allocation only. */
    method TpFree(p: Ptr)
      requires p in heap
      modifies this
      ensures heap == old(heap) - {p}
    {
      heap := heap - {p};
    }
  }

  /** The script engine's own slots. */
  class Provider {
    var cells: map<nat, Cell>
  }

  class TpScrBuffers {
    const ctx: ScriptCtx
    const provider: Provider
    const pointers: array<Ptr>
    const lengths: array<int>
    const links: array<nat>
    const enabled: array<bool>
    var owned: bool
    var native: Option<seq<Option<nat>>>

    predicate Valid() {
      pointers.Length == lengths.Length == links.Length == enabled.Length == 3 && pointers != links
    }

    function View(): Slots
      reads this, pointers, lengths, links, enabled
    {
      Slots(pointers[..], lengths[..], links[..], enabled[..], owned, native)
    }

    function All(): World
      reads this, pointers, lengths, links, enabled, ctx, provider
    {
      World(View(), provider.cells, ctx.heap)
    }

    constructor (c: ScriptCtx, p: Provider)
      ensures Valid() && View() == EMPTY_SLOTS && ctx == c && provider == p
      ensures fresh(pointers) && fresh(lengths) && fresh(links) && fresh(enabled)
    {
      ctx, provider := c, p;
      pointers := new Ptr[3] (_ => NULL);
      lengths := new int[3] (_ => 0);
      links := new nat[3] (i => i);
      enabled := new bool[3] (_ => true);
      owned, native := true, None;
    }

    /** Write the slots out to the provider's. */
    method SyncNative()
      requires Valid() && Three(View())
      modifies provider
      ensures All() == Sync(old(All()))
      ensures WrittenOut(View(), old(provider.cells), provider.cells)
    {
      SyncWrites(All());
      if native.None? { return; }
      var i := 0;
      while i < 3
        invariant 0 <= i <= 3 && provider.cells == Synced(View(), old(provider.cells), i)
      {
        if native.value[i].Some? {
          provider.cells := provider.cells[native.value[i].value := Cell(pointers[i], lengths[i])];
        }
        i := i + 1;
      }
    }

    /** Update a slot and the slots linked to it; free what nothing refers to any more. */
    method Replace(index: nat, next: Ptr, length: int)
      requires Valid() && Three(View()) && index < 3
      requires pointers[index] != NULL ==> pointers[index] in ctx.heap
      modifies pointers, lengths, provider, ctx
      ensures All() == ScriptModel.Replace(old(All()), index, next, length)
      ensures forall k :: 0 <= k < 3 && links[k] == links[index] ==> pointers[k] == next && lengths[k] == length
      ensures forall k :: 0 <= k < 3 && links[k] != links[index] ==> pointers[k] == old(pointers[k]) && lengths[k] == old(lengths[k])
      ensures WrittenOut(View(), old(provider.cells), provider.cells)
      ensures var previous := old(pointers[index]);
              ctx.heap == if previous != NULL && previous !in pointers[..] then old(ctx.heap) - {previous} else old(ctx.heap)
    {
      var previous := pointers[index];
      ghost var s := View();
      var i := 0;
      while i < 3
        invariant 0 <= i <= 3
        invariant forall k :: 0 <= k < 3 ==> pointers[k] == (if k < i then Relinked(s, index, next, length).ptrs[k] else s.ptrs[k])
        invariant forall k :: 0 <= k < 3 ==> lengths[k] == (if k < i then Relinked(s, index, next, length).lens[k] else s.lens[k])
        modifies pointers, lengths
      {
        if links[i] == links[index] {
          pointers[i] := next;
          lengths[i] := length;
        }
        i := i + 1;
      }
      assert View() == Relinked(s, index, next, length);
      SyncNative();
      if previous != NULL && pointers[0] != previous && pointers[1] != previous && pointers[2] != previous {
        ctx.TpFree(previous);
      }
    }

    /** Move a buffer of the program into a slot, or clear the slot. A refused buffer is dropped. */
    method Set(index: nat, buffer: Option<Cell>, foreign: bool) returns (r: Result<()>)
      requires Valid() && Three(View()) && index < 3
      requires pointers[index] != NULL ==> pointers[index] in ctx.heap
      requires buffer.Some? ==> buffer.value.ptr in ctx.heap
      modifies pointers, lengths, provider, ctx
      ensures r.Ok? <==> enabled[index] && !foreign && (buffer.Some? ==> buffer.value.len <= I64_MAX)
      ensures r.Ok? <==> Accepted(old(View()), index, buffer, foreign)
      ensures r.Ok? ==> All() == ScriptModel.Replace(old(All()), index,
                                   if buffer.Some? then buffer.value.ptr else NULL, if buffer.Some? then buffer.value.len else 0)
      ensures r.Ok? ==> forall k :: 0 <= k < 3 && links[k] == links[index] ==>
                Cell(pointers[k], lengths[k]) == if buffer.Some? then buffer.value else Cell(NULL, 0)
      ensures r.Ok? ==> forall k :: 0 <= k < 3 && links[k] != links[index] ==> pointers[k] == old(pointers[k]) && lengths[k] == old(lengths[k])
      ensures r.Ok? ==> WrittenOut(View(), old(provider.cells), provider.cells)
      ensures r.Err? ==> All() == if buffer.Some? then Freed(old(All()), buffer.value.ptr) else old(All())
    {
      if !enabled[index] || foreign || (buffer.Some? && buffer.value.len > I64_MAX) {
        if buffer.Some? { ctx.TpFree(buffer.value.ptr); }
        return Err;
      }
      if buffer.Some? { Replace(index, buffer.value.ptr, buffer.value.len); } else { Replace(index, NULL, 0); }
      r := Ok(());
    }

    /** Make one slot refer to what another refers to. */
    method Alias(destination: nat, source: nat) returns (r: Result<()>)
      requires Valid() && Three(View()) && destination < 3 && source < 3
      requires pointers[destination] != NULL ==> pointers[destination] in ctx.heap
      modifies pointers, lengths, provider, ctx
      ensures r.Ok? <==> old(View()).enabled[destination]
      ensures All() == if r.Ok? then ScriptModel.Replace(old(All()), destination, old(View()).ptrs[source], old(View()).lens[source])
                       else old(All())
      ensures r.Ok? ==> forall k :: 0 <= k < 3 && links[k] == links[destination] ==>
                pointers[k] == old(pointers[source]) && lengths[k] == old(lengths[source])
      ensures r.Ok? ==> forall k :: 0 <= k < 3 && links[k] != links[destination] ==> pointers[k] == old(pointers[k]) && lengths[k] == old(lengths[k])
      ensures r.Ok? ==> WrittenOut(View(), old(provider.cells), provider.cells)
    {
      if !enabled[destination] { return Err; }
      Replace(destination, pointers[source], lengths[source]);
      r := Ok(());
    }

    /** Look at a slot. A CARRAY reports the recorded length; a text is reported with its terminator and
        never its spare capacity; the byte views of all other types are empty. */
    method Get(index: nat) returns (r: Result<Option<Cell>>)
      requires Valid() && Three(View()) && index < 3
      ensures pointers[index] == NULL ==> r == Ok(None)
      ensures pointers[index] != NULL ==> (r.Ok? <==> Readable(All(), index))
      ensures pointers[index] != NULL ==>
                (r.Ok? <==> pointers[index] in ctx.heap && 0 <= lengths[index] <= ctx.heap[pointers[index]].size)
      ensures pointers[index] != NULL && r.Ok? ==>
                var info := ctx.heap[pointers[index]];
                && r.value.Some? && r.value.value.ptr == pointers[index]
                && (info.typeName == "CARRAY" ==> r.value.value.len == lengths[index])
                && (info.typeName in {"STRING", "JSON"} ==> r.value.value.len == info.text)
                && (info.typeName !in {"CARRAY", "STRING", "JSON"} ==> r.value.value.len == 0)
    {
      if pointers[index] == NULL { return Ok(None); }
      if lengths[index] < 0 || pointers[index] !in ctx.heap { return Err; }
      var info := ctx.heap[pointers[index]];
      if lengths[index] > info.size { return Err; }
      r := Ok(Some(Cell(pointers[index], Initialized(info, lengths[index]))));
    }

    /** Take a buffer out; every slot that refers to it is cleared. What is returned is what looking at the
        slot would have shown. */
    method Take(index: nat) returns (r: Result<Option<Cell>>)
      requires Valid() && Three(View()) && index < 3
      modifies pointers, lengths, provider
      ensures old(pointers[index]) == NULL ==> r == Ok(None)
      ensures r.Ok? && r.value.Some? <==> old(pointers[index]) != NULL && Readable(old(All()), index)
      ensures All() == if r.Ok? && r.value.Some? then Taken(old(All()), index) else old(All())
      ensures r.Ok? && r.value.Some? ==>
                var p, info := old(pointers[index]), ctx.heap[old(pointers[index])];
                && r.value.value.ptr == p
                && (info.typeName == "CARRAY" ==> r.value.value.len == old(lengths[index]))
                && (info.typeName in {"STRING", "JSON"} ==> r.value.value.len == info.text)
                && (info.typeName !in {"CARRAY", "STRING", "JSON"} ==> r.value.value.len == 0)
      ensures r.Ok? && r.value.Some? ==> forall k :: 0 <= k < 3 ==>
                if old(pointers[k]) == old(pointers[index]) then pointers[k] == NULL && lengths[k] == 0
                else pointers[k] == old(pointers[k]) && lengths[k] == old(lengths[k])
      ensures r.Ok? && r.value.Some? ==> WrittenOut(View(), old(provider.cells), provider.cells)
    {
      r := Get(index);
      if r.Err? || r.value.None? { return; }
      WriteSlots(AliasesOf(index), NULL, 0);
      SyncNative();
    }

    function AliasesOf(index: nat): seq<bool>
      requires Valid() && Three(View()) && index < 3
      reads this, pointers, lengths, links, enabled
    {
      Aliases(View(), index)
    }

    method WriteSlots(which: seq<bool>, p: Ptr, n: int)
      requires Valid() && Three(View()) && |which| == 3
      modifies pointers, lengths
      ensures View() == Assigned(old(View()), which, p, n)
    {
      ghost var s := View();
      var i := 0;
      while i < 3
        invariant 0 <= i <= 3
        invariant forall k :: 0 <= k < 3 ==> pointers[k] == (if k < i then Assigned(s, which, p, n).ptrs[k] else s.ptrs[k])
        invariant forall k :: 0 <= k < 3 ==> lengths[k] == (if k < i then Assigned(s, which, p, n).lens[k] else s.lens[k])
      {
        if which[i] {
          pointers[i] := p;
          lengths[i] := n;
        }
        i := i + 1;
      }
      assert View() == Assigned(s, which, p, n);
    }

    /** Edit a buffer. The closure is free with the buffer it gets: in the end it has made of it the buffer
        `made`, and of the heap `heap`; it may have failed or unwound. The result goes back to every slot
        the buffer was taken from. */
    method Edit(index: nat, made: Cell, heap: Heap) returns (r: Result<()>)
      requires Valid() && Three(View()) && index < 3
      modifies pointers, lengths, provider, ctx
      ensures r.Ok? <==> old(pointers[index]) != NULL && Readable(old(All()), index)
      ensures All() == if r.Ok? then Restored(Taken(old(All()), index).(heap := heap), Aliases(old(View()), index), made.ptr, made.len)
                       else old(All())
      ensures r.Ok? ==> forall k :: 0 <= k < 3 ==>
                if old(pointers[k]) == old(pointers[index]) then pointers[k] == made.ptr && lengths[k] == made.len
                else pointers[k] == old(pointers[k]) && lengths[k] == old(lengths[k])
      ensures r.Ok? ==> ctx.heap == heap && WrittenOut(View(), old(provider.cells), provider.cells)
    {
      var aliases := AliasesOf(index);
      var taken := Take(index);
      if taken.Err? || taken.value.None? { return Err; }
      ctx.heap := heap;
      WriteSlots(aliases, made.ptr, made.len);
      SyncNative();
      r := Ok(());
    }

    /** A script run: the native layer leaves the slots and the heap as it sees fit. */
    method Execute(ptrs: seq<Ptr>, lens: seq<int>, heap: Heap)
      requires Valid() && Three(View()) && |ptrs| == |lens| == 3
      modifies pointers, lengths, provider, ctx
      ensures All() == Sync(World(old(View()).(ptrs := ptrs, lens := lens), old(provider.cells), heap))
      ensures pointers[..] == ptrs && lengths[..] == lens && ctx.heap == heap && WrittenOut(View(), old(provider.cells), provider.cells)
    {
      ctx.heap := heap;
      SetSlots(ptrs, lens);
      SyncNative();
    }

    method SetSlots(ptrs: seq<Ptr>, lens: seq<int>)
      requires Valid() && Three(View()) && |ptrs| == |lens| == 3
      modifies pointers, lengths
      ensures View() == old(View()).(ptrs := ptrs, lens := lens)
    {
      pointers[0], pointers[1], pointers[2] := ptrs[0], ptrs[1], ptrs[2];
      lengths[0], lengths[1], lengths[2] := lens[0], lens[1], lens[2];
      assert pointers[..] == ptrs && lengths[..] == lens;
    }

    /** Adopt one slot; a slot that is the same provider slot as an earlier one is linked to it. */
    method AdoptSlot(i: nat, at: seq<Option<nat>>, lens: seq<Option<nat>>)
      requires Valid() && i < 3 && |at| == |lens| == 3
      requires at[i].Some? ==> at[i] == lens[i] && at[i].value in provider.cells
      requires pointers[i] == NULL && lengths[i] == 0 && links[i] == i
      requires forall k :: 0 <= k < i ==> links[k] == LinkOf(at, k)
      modifies pointers, lengths, links, enabled
      ensures enabled[i] == at[i].Some? && links[i] == LinkOf(at, i)
      ensures pointers[i] == if at[i].Some? then provider.cells[at[i].value].ptr else NULL
      ensures lengths[i] == if at[i].Some? then provider.cells[at[i].value].len else 0
      ensures forall k :: 0 <= k < 3 && k != i ==> enabled[k] == old(enabled[k]) && links[k] == old(links[k])
      ensures forall k :: 0 <= k < 3 && k != i ==> pointers[k] == old(pointers[k]) && lengths[k] == old(lengths[k])
    {
      enabled[i] := at[i].Some?;
      if !enabled[i] { return; }
      pointers[i] := provider.cells[at[i].value].ptr;
      lengths[i] := provider.cells[lens[i].value].len;
      var j := 0;
      while j < i
        invariant 0 <= j <= i
        invariant links[i] == if j > 1 && at[i] == at[1] then LinkOf(at, 1) else if j > 0 && at[i] == at[0] then 0 else i
        invariant forall k :: 0 <= k < 3 && k != i ==> links[k] == old(links[k])
        modifies links
      {
        if at[i] == at[j] { links[i] := links[j]; }
        j := j + 1;
      }
    }

    /** Check the slots and give them back to the provider. Buffers of another context are refused, and so
        are a buffer in a slot the provider did not supply and two slots that are one provider slot but
        differ; nothing else is. */
    method ReturnToNative(foreign: bool, at: seq<Option<nat>>) returns (r: Result<()>)
      requires Valid() && Three(View()) && |at| == 3
      modifies this, provider
      ensures r.Ok? <==> !foreign && Returnable(old(View()), at)
      ensures All() == if r.Ok? then Returned(old(All()), at) else old(All())
      ensures r.Err? ==> foreign || (exists i :: 0 <= i < 3 && at[i].None? && pointers[i] != NULL)
                         || exists i, j :: 0 <= j < i < 3 && at[i].Some? && at[i] == at[j] && (pointers[i] != pointers[j] || lengths[i] != lengths[j])
      ensures r.Ok? ==> !foreign && !owned
      ensures r.Ok? ==> forall i :: 0 <= i < 3 ==>
                if at[i].Some? then at[i].value in provider.cells && provider.cells[at[i].value] == Cell(pointers[i], lengths[i])
                else pointers[i] == NULL
    {
      if foreign { return Err; }
      var i := 0;
      while i < 3
        invariant 0 <= i <= 3
        invariant forall k :: 0 <= k < i && at[k].None? ==> pointers[k] == NULL
        invariant forall k, l :: 0 <= l < k < i && at[k].Some? && at[k] == at[l] ==> pointers[k] == pointers[l] && lengths[k] == lengths[l]
        modifies {}
      {
        if at[i].None? && pointers[i] != NULL { return Err; }
        var j := 0;
        while j < i
          invariant 0 <= j <= i
          invariant forall l :: 0 <= l < j && at[i].Some? && at[i] == at[l] ==> pointers[i] == pointers[l] && lengths[i] == lengths[l]
          modifies {}
        {
          if at[i].Some? && at[i] == at[j] && (pointers[i] != pointers[j] || lengths[i] != lengths[j]) { return Err; }
          j := j + 1;
        }
        i := i + 1;
      }
      ghost var s := View().(native := Some(at));
      i := 0;
      while i < 3
        invariant 0 <= i <= 3 && provider.cells == Synced(s, old(provider.cells), i)
        modifies provider
      {
        if at[i].Some? { provider.cells := provider.cells[at[i].value := Cell(pointers[i], lengths[i])]; }
        i := i + 1;
      }
      ReturnWrites(old(All()), at);
      owned := false;
      r := Ok(());
    }

    /** Drop the collection: the provider's slots are nulled, and each allocation still owned is freed
        once. */
    method Close()
      requires Valid() && Three(View())
      requires owned ==> Held(View().ptrs) <= ctx.heap.Keys
      modifies pointers, lengths, provider, ctx
      ensures All() == Dropped(old(All()))
      ensures owned ==> pointers[..] == [NULL, NULL, NULL] && WrittenOut(View(), old(provider.cells), provider.cells)
      ensures owned ==> ctx.heap == old(ctx.heap) - (set i | 0 <= i < 3 && old(View()).ptrs[i] != NULL :: old(View()).ptrs[i])
    {
      if !owned { return; }
      var p := pointers[..];
      SetSlots([NULL, NULL, NULL], [0, 0, 0]);
      SyncNative();
      ghost var heap := ctx.heap;
      var i := 0;
      while i < 3
        invariant 0 <= i <= 3 && ctx.heap == heap - Held(p[..i])
        modifies ctx
      {
        assert Held(p[..i + 1]) == Held(p[..i]) + (if p[i] == NULL then {} else {p[i]}) by { HeldNext(p, i); }
        if p[i] != NULL && p[i] !in p[..i] {
          NotHeldYet(p, i);
          ctx.TpFree(p[i]);
        } else if p[i] != NULL {
          assert p[i] in Held(p[..i]);
        }
        i := i + 1;
      }
      assert p[..3] == p;
    }
  }

  lemma HeldNext(p: seq<Ptr>, i: nat)
    requires i < |p|
    ensures Held(p[..i + 1]) == Held(p[..i]) + (if p[i] == NULL then {} else {p[i]})
  {
    var longer := p[..i + 1];
    forall q | q in Held(longer) ensures q in Held(p[..i]) + (if p[i] == NULL then {} else {p[i]}) {
      var k :| 0 <= k < |longer| && longer[k] == q && q != NULL;
      if k < i { assert p[..i][k] == q; }
    }
    forall q | q in Held(p[..i]) ensures q in Held(longer) {
      var k :| 0 <= k < |p[..i]| && p[..i][k] == q && q != NULL;
      assert longer[k] == q;
    }
    if p[i] != NULL { assert longer[i] == p[i]; }
  }

  lemma NotHeldYet(p: seq<Ptr>, i: nat)
    requires i < |p| && p[i] != NULL && p[i] !in p[..i]
    ensures p[i] !in Held(p[..i]) && p[i] in Held(p)
  {
  }

  /** Adopt the provider's slots for a callback. */
  method AdoptCallback(ctx: ScriptCtx, provider: Provider, pointers: seq<Option<nat>>, lengths: seq<Option<nat>>)
    returns (r: Result<TpScrBuffers>)
    requires |pointers| == |lengths| == 3
    requires forall i :: 0 <= i < 3 && pointers[i].Some? ==> pointers[i].value in provider.cells
    requires forall i :: 0 <= i < 3 && pointers[i].Some? && lengths[i].Some? ==> pointers[i] == lengths[i]
    ensures r.Ok? <==> PairedSlots(pointers, lengths)
    ensures r.Ok? ==> fresh(r.value) && r.value.Valid() && r.value.ctx == ctx && r.value.provider == provider
                      && r.value.View() == Adopted(pointers, provider.cells)
  {
    var i := 0;
    while i < 3
      invariant 0 <= i <= 3 && forall k :: 0 <= k < i ==> (pointers[k].Some? <==> lengths[k].Some?)
    {
      if pointers[i].Some? != lengths[i].Some? { return Err; }
      i := i + 1;
    }
    var b := new TpScrBuffers(ctx, provider);
    ghost var goal := Adopted(pointers, provider.cells);
    assert b.View().links == [0, 1, 2];
    assert b.links[0] == b.View().links[0] && b.links[1] == b.View().links[1] && b.links[2] == b.View().links[2];
    i := 0;
    while i < 3
      invariant 0 <= i <= 3
      invariant forall k :: 0 <= k < i ==> b.enabled[k] == goal.enabled[k] && b.links[k] == goal.links[k]
      invariant forall k :: 0 <= k < i ==> b.pointers[k] == goal.ptrs[k] && b.lengths[k] == goal.lens[k]
      invariant forall k :: i <= k < 3 ==> b.pointers[k] == NULL && b.lengths[k] == 0 && b.links[k] == k
      modifies b.pointers, b.lengths, b.links, b.enabled
    {
      b.AdoptSlot(i, pointers, lengths);
      i := i + 1;
    }
    b.native := Some(pointers);
    assert b.View() == goal;
    r := Ok(b);
  }

  /** The end of a callback: the buffers go back to the provider; if they cannot, the callback fails and
      the collection is dropped. */
  method FinishCallback(buffers: TpScrBuffers, foreign: bool, at: seq<Option<nat>>) returns (r: Result<()>)
    requires buffers.Valid() && Three(buffers.View()) && |at| == 3 && buffers.owned
    requires Held(buffers.View().ptrs) <= buffers.ctx.heap.Keys
    modifies buffers, buffers.pointers, buffers.lengths, buffers.provider, buffers.ctx
    ensures r.Ok? <==> !foreign && Returnable(old(buffers.View()), at)
    ensures buffers.All() == if r.Ok? then Returned(old(buffers.All()), at) else Dropped(old(buffers.All()))
  {
    r := buffers.ReturnToNative(foreign, at);
    buffers.Close();
  }
}
