/** Flat groups as they are written to the native heap. */
module UbfGroups {
  import opened Xatmi
  import opened UbfFields
  import opened UbfHeap
  import opened UbfForest
  import opened UbfTrees
  import opened UbfComplex
  import opened SerdeModel
  import opened SerdeHeap
  import opened SerdeRoundTrip
  import opened SerdeGroups
  import opened SerdeTyping
  import opened SerdeSteps
  import opened UbfSerde

  /** `k` members of a row are written, the value so far is `u`, and writing the others gives `result`; if all
      the edits can be made, so can those that are left. */
  ghost predicate RowMidway(env: Env, h: Heap, now: Heap, r: Addr, rest: seq<Addr>, t: UbfTree, u: UbfTree, result: Result<UbfTree>,
                            members: seq<Desc>, base: int, row: seq<Value>, k: nat, cap: Option<nat>) {
    && k <= |members| == |row| && Wrote(h, now, r, rest, None, Ok(u))
    && result == WriteMembers(env, u, members[k..], base, row[k..])
    && (SmoothMembers(env, t, members, base, row, cap) ==> SmoothMembers(env, u, members[k..], base, row[k..], cap))
  }

  lemma MembersFrom(env: Env, t: UbfTree, members: seq<Desc>, base: int, row: seq<Value>, k: nat)
    requires k < |members| == |row|
    ensures var next := Write(env, t, members[k].field, base + members[k].occ, members[k].ty, row[k], true);
            WriteMembers(env, t, members[k..], base, row[k..])
              == if next.Err? then Err(next.error) else WriteMembers(env, next.value, members[k + 1..], base, row[k + 1..])
  {
    assert members[k..][0] == members[k] && members[k..][1..] == members[k + 1..];
    assert row[k..][0] == row[k] && row[k..][1..] == row[k + 1..];
  }

  lemma SmoothMembersFrom(env: Env, t: UbfTree, members: seq<Desc>, base: int, row: seq<Value>, k: nat, cap: Option<nat>)
    requires k < |members| == |row|
    ensures SmoothMembers(env, t, members[k..], base, row[k..], cap) ==>
              && Smooth(env, t, members[k].field, base + members[k].occ, members[k].ty, row[k], true, cap)
              && var u := Write(env, t, members[k].field, base + members[k].occ, members[k].ty, row[k], true);
                 u.Ok? ==> SmoothMembers(env, u.value, members[k + 1..], base, row[k + 1..], cap)
  {
    assert members[k..][0] == members[k] && members[k..][1..] == members[k + 1..];
    assert row[k..][0] == row[k] && row[k..][1..] == row[k + 1..];
  }

  lemma RowStart(env: Env, h: Heap, r: Addr, rest: seq<Addr>, t: UbfTree, members: seq<Desc>, base: int, row: seq<Value>, cap: Option<nat>)
    requires Holding(h, r, rest, t) && |members| == |row|
    ensures RowMidway(env, h, h, r, rest, t, t, WriteMembers(env, t, members, base, row), members, base, row, 0, cap)
  {
    KeptSame(h, [r], rest);
    assert members[0..] == members && row[0..] == row;
  }

  lemma RowEnd(env: Env, h: Heap, now: Heap, r: Addr, rest: seq<Addr>, t: UbfTree, u: UbfTree, result: Result<UbfTree>,
               members: seq<Desc>, base: int, row: seq<Value>, cap: Option<nat>)
    requires RowMidway(env, h, now, r, rest, t, u, result, members, base, row, |members|, cap)
    ensures Wrote(h, now, r, rest, None, result)
  {
  }

  /** One row: each member at its own offset from the base. */
  method WriteRow(ctx: UbfContext, env: Env, r: Addr, members: seq<Desc>, base: int, row: seq<Value>, realloc: bool,
                  ghost rest: seq<Addr>, ghost t: UbfTree) returns (e: Option<UbfError>)
    requires ctx.Valid() && Holding(ctx.heap, r, rest, t)
    modifies ctx
    ensures ctx.Valid() && Wrote(old(ctx.heap), ctx.heap, r, rest, e, WriteMembers(env, t, members, base, row))
    ensures Spends([r] + rest, old(ctx.caps), ctx.caps, old(ctx.allocs), ctx.allocs, realloc)
    ensures e != None ==> !TypedRow(env, members, base, row) || ctx.allocs == 0
                          || !SmoothMembers(env, t, members, base, row, Limit(old(ctx.caps), r, realloc))
  {
    ghost var h, u, result, cap := ctx.heap, t, WriteMembers(env, t, members, base, row), Limit(ctx.caps, r, realloc);
    ghost var caps, allocs := ctx.caps, ctx.allocs;
    if |members| != |row| {
      NothingWrote(h, r, rest, BEINVAL, result);
      return Some(BEINVAL);
    }
    RowStart(env, h, r, rest, t, members, base, row, cap);
    assert SaneAt(h[r], r, caps, ctx.next);
    e := None;
    var k := 0;
    while k < |members|
      invariant 0 <= k <= |members| && e == None && ctx.Valid()
      invariant RowMidway(env, h, ctx.heap, r, rest, t, u, result, members, base, row, k, cap)
      invariant Spends([r] + rest, caps, ctx.caps, allocs, ctx.allocs, realloc)
    {
      e, u := WriteRowMember(ctx, env, r, members, base, row, k, realloc, rest, h, t, u, result, cap, caps, allocs);
      if e != None { return; }
      k := k + 1;
    }
    RowEnd(env, h, ctx.heap, r, rest, t, u, result, members, base, row, cap);
  }

  method WriteRowMember(ctx: UbfContext, env: Env, r: Addr, members: seq<Desc>, base: int, row: seq<Value>, k: nat, realloc: bool,
                        ghost rest: seq<Addr>, ghost h: Heap, ghost t: UbfTree, ghost u: UbfTree, ghost result: Result<UbfTree>,
                        ghost cap: Option<nat>, ghost caps: map<Addr, nat>, ghost allocs: nat)
    returns (e: Option<UbfError>, ghost next: UbfTree)
    requires ctx.Valid() && k < |members| && RowMidway(env, h, ctx.heap, r, rest, t, u, result, members, base, row, k, cap)
    requires r in caps && cap == Limit(caps, r, realloc) && Spends([r] + rest, caps, ctx.caps, allocs, ctx.allocs, realloc)
    modifies ctx
    ensures ctx.Valid() && Spends([r] + rest, caps, ctx.caps, allocs, ctx.allocs, realloc)
    ensures e == None ==> RowMidway(env, h, ctx.heap, r, rest, t, next, result, members, base, row, k + 1, cap)
    ensures e != None ==> Wrote(h, ctx.heap, r, rest, e, result)
    ensures e != None ==> !TypedRow(env, members, base, row) || ctx.allocs == 0 || !SmoothMembers(env, t, members, base, row, cap)
  {
    var m := members[k];
    ghost var was, written := ctx.heap, Write(env, u, m.field, base + m.occ, m.ty, row[k], true);
    ghost var caps1, allocs1 := ctx.caps, ctx.allocs;
    e := WriteField(ctx, env, r, m.field, base + m.occ, m.ty, row[k], true, realloc, rest, u);
    SpendsOn([r] + rest, caps, caps1, ctx.caps, allocs, allocs1, ctx.allocs, realloc);
    MembersFrom(env, u, members, base, row, k);
    SmoothMembersFrom(env, u, members, base, row, k, cap);
    OneMore(h, was, ctx.heap, r, rest, e, u, written, result);
    next := if e == None then written.value else u;
  }

  /** `k` rows are written, the value so far is `u`, and writing the others gives `result`; if all the edits
      can be made, so can those that are left. */
  ghost predicate RowsMidway(env: Env, h: Heap, now: Heap, r: Addr, rest: seq<Addr>, t: UbfTree, u: UbfTree, result: Result<UbfTree>,
                             members: seq<Desc>, base: int, rows: seq<seq<Value>>, k: nat, cap: Option<nat>) {
    && k <= |rows| && Wrote(h, now, r, rest, None, Ok(u))
    && result == WriteRows(env, u, members, base + k, rows[k..])
    && (SmoothRows(env, t, members, base, rows, cap) ==> SmoothRows(env, u, members, base + k, rows[k..], cap))
  }

  lemma SmoothRowsFrom(env: Env, t: UbfTree, members: seq<Desc>, base: int, rows: seq<seq<Value>>, k: nat, cap: Option<nat>)
    requires k < |rows|
    ensures SmoothRows(env, t, members, base + k, rows[k..], cap) ==>
              && SmoothMembers(env, t, members, base + k, rows[k], cap)
              && var u := WriteMembers(env, t, members, base + k, rows[k]);
                 u.Ok? ==> SmoothRows(env, u.value, members, base + (k + 1), rows[k + 1..], cap)
  {
    assert rows[k..][0] == rows[k] && rows[k..][1..] == rows[k + 1..];
    assert base + k + 1 == base + (k + 1);
  }

  lemma RowsFrom(env: Env, t: UbfTree, members: seq<Desc>, base: int, rows: seq<seq<Value>>, k: nat)
    requires k < |rows|
    ensures var next := WriteMembers(env, t, members, base + k, rows[k]);
            WriteRows(env, t, members, base + k, rows[k..])
              == if !ValidRow(members, base + k) then Err(BEINVAL)
                 else if next.Err? then Err(next.error)
                 else WriteRows(env, next.value, members, base + (k + 1), rows[k + 1..])
  {
    assert rows[k..][0] == rows[k] && rows[k..][1..] == rows[k + 1..];
  }

  lemma RowsStart(env: Env, h: Heap, r: Addr, rest: seq<Addr>, t: UbfTree, members: seq<Desc>, base: int, rows: seq<seq<Value>>, cap: Option<nat>)
    requires Holding(h, r, rest, t)
    ensures RowsMidway(env, h, h, r, rest, t, t, WriteRows(env, t, members, base, rows), members, base, rows, 0, cap)
  {
    KeptSame(h, [r], rest);
    assert rows[0..] == rows;
  }

  lemma RowsEnd(env: Env, h: Heap, now: Heap, r: Addr, rest: seq<Addr>, t: UbfTree, u: UbfTree, result: Result<UbfTree>,
                members: seq<Desc>, base: int, rows: seq<seq<Value>>, cap: Option<nat>)
    requires RowsMidway(env, h, now, r, rest, t, u, result, members, base, rows, |rows|, cap)
    ensures Wrote(h, now, r, rest, None, result)
  {
  }

  predicate ValidAt(members: seq<Desc>, base: int, k: nat) {
    ValidRow(members, base + k)
  }

  lemma AllBetween(members: seq<Desc>, base: int, n: nat)
    requires ValidRow(members, base) && ValidRow(members, base + n)
    ensures forall k :: 0 <= k <= n ==> ValidAt(members, base, k)
  {
    forall k | 0 <= k <= n ensures ValidAt(members, base, k) { ValidBetween(members, base, base + n, base + k); }
  }

  /** The rows, one after the other. */
  method WriteEachRow(ctx: UbfContext, env: Env, r: Addr, members: seq<Desc>, base: int, rows: seq<seq<Value>>, realloc: bool,
                      ghost rest: seq<Addr>, ghost t: UbfTree) returns (e: Option<UbfError>)
    requires ctx.Valid() && Holding(ctx.heap, r, rest, t) && ValidRow(members, base) && ValidRow(members, base + |rows|)
    modifies ctx
    ensures ctx.Valid() && Wrote(old(ctx.heap), ctx.heap, r, rest, e, WriteRows(env, t, members, base, rows))
    ensures Spends([r] + rest, old(ctx.caps), ctx.caps, old(ctx.allocs), ctx.allocs, realloc)
    ensures e != None ==> !TypedRows(env, members, base, rows) || ctx.allocs == 0
                          || !SmoothRows(env, t, members, base, rows, Limit(old(ctx.caps), r, realloc))
  {
    ghost var h, u, result, cap := ctx.heap, t, WriteRows(env, t, members, base, rows), Limit(ctx.caps, r, realloc);
    ghost var caps, allocs := ctx.caps, ctx.allocs;
    AllBetween(members, base, |rows|);
    RowsStart(env, h, r, rest, t, members, base, rows, cap);
    assert SaneAt(h[r], r, caps, ctx.next);
    e := None;
    var k := 0;
    while k < |rows|
      invariant 0 <= k <= |rows| && e == None && ctx.Valid()
      invariant RowsMidway(env, h, ctx.heap, r, rest, t, u, result, members, base, rows, k, cap)
      invariant Spends([r] + rest, caps, ctx.caps, allocs, ctx.allocs, realloc)
    {
      e, u := WriteNextRow(ctx, env, r, members, base, rows, k, realloc, rest, h, t, u, result, cap, caps, allocs);
      if e != None { return; }
      k := k + 1;
    }
    RowsEnd(env, h, ctx.heap, r, rest, t, u, result, members, base, rows, cap);
  }

  method WriteNextRow(ctx: UbfContext, env: Env, r: Addr, members: seq<Desc>, base: int, rows: seq<seq<Value>>, k: nat, realloc: bool,
                      ghost rest: seq<Addr>, ghost h: Heap, ghost t: UbfTree, ghost u: UbfTree, ghost result: Result<UbfTree>,
                      ghost cap: Option<nat>, ghost caps: map<Addr, nat>, ghost allocs: nat)
    returns (e: Option<UbfError>, ghost next: UbfTree)
    requires ctx.Valid() && k < |rows| && RowsMidway(env, h, ctx.heap, r, rest, t, u, result, members, base, rows, k, cap)
    requires r in caps && cap == Limit(caps, r, realloc) && Spends([r] + rest, caps, ctx.caps, allocs, ctx.allocs, realloc)
    modifies ctx
    ensures ctx.Valid() && Spends([r] + rest, caps, ctx.caps, allocs, ctx.allocs, realloc)
    ensures e == None ==> RowsMidway(env, h, ctx.heap, r, rest, t, next, result, members, base, rows, k + 1, cap)
    ensures e != None ==> Wrote(h, ctx.heap, r, rest, e, result)
    ensures e != None ==> !ValidAt(members, base, k) || !TypedRows(env, members, base, rows) || ctx.allocs == 0
                          || !SmoothRows(env, t, members, base, rows, cap)
  {
    next := u;
    RowsFrom(env, u, members, base, rows, k);
    SmoothRowsFrom(env, u, members, base, rows, k, cap);
    if !ValidRow(members, base + k) { return Some(BEINVAL), u; }
    ghost var was, written := ctx.heap, WriteMembers(env, u, members, base + k, rows[k]);
    e := WriteRow(ctx, env, r, members, base + k, rows[k], realloc, rest, u);
    OneMore(h, was, ctx.heap, r, rest, e, u, written, result);
    if e == None { next := written.value; }
  }

  /** `k` members' columns are trimmed, the value so far is `u`, and trimming the others gives `goal`; if all
      the deletions are allowed, so are those that are left. */
  ghost predicate ClearMidway(h: Heap, now: Heap, r: Addr, rest: seq<Addr>, t: UbfTree, u: UbfTree, goal: UbfTree, members: seq<Desc>, from: int, k: nat) {
    && k <= |members| && ValidRow(members[k..], from) && Wrote(h, now, r, rest, None, Ok(u))
    && goal == ClearMembers(u, members[k..], from)
    && (SmoothClears(t, members, from) ==> SmoothClears(u, members[k..], from))
  }

  lemma ClearFromMember(t: UbfTree, members: seq<Desc>, from: int, k: nat)
    requires k < |members| && ValidRow(members[k..], from)
    ensures from + members[k].occ >= 0 && ValidRow(members[k + 1..], from)
    ensures ClearMembers(t, members[k..], from) == ClearMembers(Trimmed(t, members[k].field, from + members[k].occ), members[k + 1..], from)
    ensures SmoothClears(t, members[k..], from) ==>
              && MayTrim(t, members[k].field, from + members[k].occ)
              && SmoothClears(Trimmed(t, members[k].field, from + members[k].occ), members[k + 1..], from)
  {
    assert members[k..][0] == members[k] && members[k..][1..] == members[k + 1..];
  }

  /** Each member's stale tail, wherever it starts. */
  method ClearColumns(ctx: UbfContext, r: Addr, members: seq<Desc>, from: int, ghost rest: seq<Addr>, ghost t: UbfTree) returns (e: Option<UbfError>)
    requires ctx.Valid() && Holding(ctx.heap, r, rest, t) && ValidRow(members, from)
    modifies ctx
    ensures ctx.Valid() && Wrote(old(ctx.heap), ctx.heap, r, rest, e, Ok(ClearMembers(t, members, from)))
    ensures ctx.caps == old(ctx.caps) && ctx.allocs == old(ctx.allocs)
    ensures e != None ==> !SmoothClears(t, members, from)
  {
    ghost var h, u, goal := ctx.heap, t, ClearMembers(t, members, from);
    KeptSame(h, [r], rest);
    assert members[0..] == members;
    e := None;
    var k := 0;
    while k < |members|
      invariant 0 <= k <= |members| && e == None && ctx.Valid() && ClearMidway(h, ctx.heap, r, rest, t, u, goal, members, from, k)
      invariant ctx.caps == old(ctx.caps) && ctx.allocs == old(ctx.allocs)
    {
      e, u := ClearColumn(ctx, r, members, from, k, rest, h, t, u, goal);
      if e != None { return; }
      k := k + 1;
    }
  }

  method ClearColumn(ctx: UbfContext, r: Addr, members: seq<Desc>, from: int, k: nat,
                     ghost rest: seq<Addr>, ghost h: Heap, ghost t: UbfTree, ghost u: UbfTree, ghost goal: UbfTree)
    returns (e: Option<UbfError>, ghost next: UbfTree)
    requires ctx.Valid() && k < |members| && ClearMidway(h, ctx.heap, r, rest, t, u, goal, members, from, k)
    modifies ctx
    ensures ctx.Valid() && ctx.caps == old(ctx.caps) && ctx.allocs == old(ctx.allocs)
    ensures e == None ==> ClearMidway(h, ctx.heap, r, rest, t, next, goal, members, from, k + 1)
    ensures e != None ==> Wrote(h, ctx.heap, r, rest, e, Ok(goal)) && !SmoothClears(t, members, from)
  {
    ClearFromMember(u, members, from, k);
    next := Trimmed(u, members[k].field, from + members[k].occ);
    ghost var was := ctx.heap;
    e := ClearSuffix(ctx, r, members[k].field, from + members[k].occ, rest, u);
    OneMore(h, was, ctx.heap, r, rest, e, u, Ok(next), Ok(goal));
  }

  /** A vector of rows: validated up front, written, its stale tails removed. Whenever it succeeds, and the
      rows nest at most 128 levels, the buffer reads back as these rows. It fails only if the rows are not
      of their type or reach outside the native index range, an edit may not be made, or memory has run out. */
  method WriteVector(ctx: UbfContext, env: Env, r: Addr, members: seq<Desc>, base: int, rows: seq<seq<Value>>, realloc: bool,
                     ghost rest: seq<Addr>, ghost t: UbfTree) returns (e: Option<UbfError>)
    requires ctx.Valid() && Holding(ctx.heap, r, rest, t)
    modifies ctx
    ensures ctx.Valid() && Wrote(old(ctx.heap), ctx.heap, r, rest, e, WriteVec(env, t, members, base, rows))
    ensures e == None && NoOverlaps(env) && OwnFields(members) && members != [] ==>
              Gives(ReadVec(env, WriteVec(env, t, members, base, rows).value, members, base, LEVELS), rows, NestRows(rows), LEVELS)
    ensures Spends([r] + rest, old(ctx.caps), ctx.caps, old(ctx.allocs), ctx.allocs, realloc)
    ensures e == None ==> RowFits(members, base) && RowFits(members, base + |rows|) && TypedRows(env, members, base, rows)
    ensures e != None ==> !(RowFits(members, base) && RowFits(members, base + |rows|) && TypedRows(env, members, base, rows)) || ctx.allocs == 0
                          || !SmoothVec(env, t, members, base, rows, Limit(old(ctx.caps), r, realloc))
  {
    ghost var result := WriteVec(env, t, members, base, rows);
    VecSucceeds(env, t, members, base, rows);
    ValidIsFitting(members, base);
    ValidIsFitting(members, base + |rows|);
    NothingWrote(ctx.heap, r, rest, BEINVAL, result);
    if Occurrence(base, |rows|).Err? || !ValidRow(members, base) || !ValidRow(members, base + |rows|) { return Some(BEINVAL); }
    assert SaneAt(ctx.heap[r], r, ctx.caps, ctx.next);
    ShowsSorted(ctx.heap, r, t);
    e := WriteEachRow(ctx, env, r, members, base, rows, realloc, rest, t);
    if e != None { return; }
    ghost var h, first := ctx.heap, WriteRows(env, t, members, base, rows);
    e := ClearColumns(ctx, r, members, base + |rows|, rest, first.value);
    WroteThen(old(ctx.heap), h, ctx.heap, r, rest, e, first, result);
    if e == None && NoOverlaps(env) && OwnFields(members) && members != [] { GroupRoundTrip(env, t, members, base, rows, LEVELS); }
  }
}
