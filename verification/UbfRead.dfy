/** Reading a mapped structure from the native heap, with the scope that watches the buffers being read:
    an address already being read, or a 129th one, is refused. */
module UbfRead {
  import opened Xatmi
  import opened UbfFields
  import opened UbfHeap
  import opened UbfTrees
  import opened UbfComplex
  import opened UbfClone
  import opened SerdeModel
  import opened SerdeHeap
  import opened SerdeRoundTrip

  /** Where in the buffer the occurrence is. */
  function Position(s: seq<Occ<Val>>, f: FieldId, i: nat): nat {
    if s == [] then 0
    else if s[0].field != f then 1 + Position(s[1..], f, i)
    else if i == 0 then 0
    else 1 + Position(s[1..], f, i - 1)
  }

  lemma {:induction false} PositionIs(s: seq<Occ<Val>>, f: FieldId, i: nat)
    requires Get(s, f, i).Some?
    ensures Position(s, f, i) < |s| && s[Position(s, f, i)] == Occ(f, Get(s, f, i).value)
  {
    if s[0].field != f { PositionIs(s[1..], f, i); }
    else if i > 0 { PositionIs(s[1..], f, i - 1); }
  }

  /** A child UBF and its address. */
  datatype Child = Child(at: Node, occs: seq<Occ<Val>>)

  function ChildOf(h: Heap, s: seq<Occ<Val>>, at: Node, f: FieldId, occ: nat, how: How): Option<Child> {
    var g: Option<Val> := Get(s, f, occ);
    if g.None? then None
    else if how == Inline && g.value.UbfVal? then Some(Child(Node(at.base, at.steps + [Position(s, f, occ)]), g.value.occs))
    else if how == Pointer && g.value.PtrVal? && g.value.target != NULL && g.value.target in h && h[g.value.target].UbfBuf?
    then Some(Child(Node(g.value.target, []), h[g.value.target].occs))
    else None
  }

  predicate NullVal(v: Val) {
    v == PtrVal(NULL) || (v.ViewVal? && v.name == "")
  }

  function Left(path: seq<Node>): nat {
    if |path| < LEVELS then LEVELS - |path| else 0
  }

  /** Read a field of type `ty` from the UBF `s` at the address `at`; `path` are the buffers entered. */
  function ReadField(env: Env, h: Heap, s: seq<Occ<Val>>, at: Node, f: FieldId, occ: int, ty: Ty, path: seq<Node>): Result<Value>
    decreases Left(path), 0, ty, 0
  {
    if occ < 0 then Err(BEINVAL)
    else if !Checked(ty, f, occ) then Err(BTYPERR)
    else match ty
    case Leaf =>
      var g: Option<Val> := Get(s, f, occ);
      if g.Some? && g.value.DataVal? then Ok(VData(g.value.bytes)) else Err(BNOTPRES)
    case Viewed(view, how) =>
      var g: Option<Val> := Get(s, f, occ);
      if g.Some? && how == Inline && g.value.ViewVal? && g.value.name == view && view != "" then Ok(VView(g.value.bytes))
      else if g.Some? && how == Pointer && g.value.PtrVal? && g.value.target != NULL && g.value.target in h && h[g.value.target].RawBuf?
              && h[g.value.target].typeName == "VIEW" && h[g.value.target].subtype == view then Ok(VView(h[g.value.target].bytes))
      else Err(BTYPERR)
    case Struct(name, how) =>
      var child := ChildOf(h, s, at, f, occ, how);
      if child.None? || name !in env then Err(BTYPERR)
      else if |path| >= LEVELS || child.value.at in path then Err(BEINVAL)
      else
        (match ReadMembers(env, h, child.value.occs, child.value.at, env[name], path + [child.value.at])
         case Err(e) => Err(e)
         case Ok(vs) => Ok(VStruct(vs)))
    case Opt(of) =>
      if !IsSingle(of) || of.Opt? then Err(BEINVAL)
      else
        var g: Option<Val> := Get(s, f, occ);
        if g.None? || (Mapped(of) && NullVal(g.value)) then Ok(VNone)
        else
          (match ReadField(env, h, s, at, f, occ, of, path)
           case Err(e) => Err(e)
           case Ok(v) => Ok(VSome(v)))
    case Vec(of) =>
      if !IsSingle(of) then Err(BEINVAL)
      else
        (match ReadElements(env, h, s, at, f, occ, of, if |Column(s, f)| > occ then |Column(s, f)| - occ else 0, path)
         case Err(e) => Err(e)
         case Ok(items) => Ok(VSeq(items)))
    case Arr(of, n) =>
      if !IsSingle(of) || Occurrence(occ, n).Err? then Err(BEINVAL)
      else
        (match ReadElements(env, h, s, at, f, occ, of, n, path)
         case Err(e) => Err(e)
         case Ok(items) => Ok(VSeq(items)))
  }

  function ReadElements(env: Env, h: Heap, s: seq<Occ<Val>>, at: Node, f: FieldId, occ: int, of: Ty, count: nat, path: seq<Node>): Result<seq<Value>>
    decreases Left(path), 0, of, count + 1
  {
    if count == 0 then Ok([])
    else
      match ReadField(env, h, s, at, f, occ, of, path)
      case Err(e) => Err(e)
      case Ok(v) =>
        match ReadElements(env, h, s, at, f, occ + 1, of, count - 1, path)
        case Err(e) => Err(e)
        case Ok(vs) => Ok([v] + vs)
  }

  function ReadMembers(env: Env, h: Heap, s: seq<Occ<Val>>, at: Node, descs: seq<Desc>, path: seq<Node>): Result<seq<Value>>
    decreases Left(path), 1, |descs|
  {
    if descs == [] then Ok([])
    else
      match ReadField(env, h, s, at, descs[0].field, descs[0].occ, descs[0].ty, path)
      case Err(e) => Err(e)
      case Ok(v) =>
        match ReadMembers(env, h, s, at, descs[1..], path)
        case Err(e) => Err(e)
        case Ok(vs) => Ok([v] + vs)
  }

  // ----- a read of the heap is a read of the value

  /** Everything being read lies above, or is, the UBF now read. */
  ghost predicate Above(h: Heap, path: seq<Node>, at: Node) {
    forall p :: p in path ==> exists len: nat :: Leads(h, p, at, len)
  }

  /** A child's address is not among those being read. */
  lemma ChildIsNew(h: Heap, s: seq<Occ<Val>>, at: Node, path: seq<Node>, child: Child, n: nat)
    requires NodeAt(h, at) == Some(s) && Above(h, path, at) && Leads(h, at, child.at, 1) && FitsNode(h, child.at, n)
    ensures child.at !in path && Above(h, path + [child.at], child.at)
  {
    if child.at in path {
      var len: nat :| Leads(h, child.at, at, len);
      LeadsOn(h, child.at, at, child.at, len);
      LoopNeverFits(h, child.at, len + 1, n);
    }
    forall p | p in path + [child.at] ensures exists len: nat :: Leads(h, p, child.at, len) {
      if p in path {
        var len: nat :| Leads(h, p, at, len);
        LeadsOn(h, p, at, child.at, len);
      } else {
        assert Leads(h, p, child.at, 0) by {
          forall d: nat | FitsNode(h, p, d) ensures d > 0 && FitsNode(h, p, d - 0) { assert Fits(h, NodeAt(h, p).value, d); }
        }
      }
    }
  }

  lemma LeadsOn(h: Heap, p: Node, at: Node, low: Node, len: nat)
    requires Leads(h, p, at, len) && Leads(h, at, low, 1)
    ensures Leads(h, p, low, len + 1)
  {
    forall d: nat | FitsNode(h, p, d) ensures d > len + 1 && FitsNode(h, low, d - (len + 1)) {
      assert FitsNode(h, at, d - len);
      assert FitsNode(h, low, d - len - 1);
    }
  }

  /** The child has the value that the tree has for it, and fits one level less. */
  lemma ChildShows(h: Heap, s: seq<Occ<Val>>, at: Node, f: FieldId, occ: nat, how: How, n: nat)
    requires NodeAt(h, at) == Some(s) && Fits(h, s, n)
    ensures var c := ChildOf(h, s, at, f, occ, how);
            match ChildAt(Tree(h, s, n), f, occ, how)
            case None => c.None?
            case Some(t) => c.Some? && n > 1 && Fits(h, c.value.occs, n - 1) && t == Tree(h, c.value.occs, n - 1)
                            && NodeAt(h, c.value.at) == Some(c.value.occs) && Leads(h, at, c.value.at, 1)
  {
    TreeGet(h, s, f, occ, n);
    if Get(s, f, occ).Some? {
      PositionIs(s, f, occ);
      FitsAll(h, s, n);
      assert FitsIn(h, Get(s, f, occ).value, n);
      StepDown(h, at, Position(s, f, occ));
    }
  }

  lemma {:induction false} ReadsTree(env: Env, h: Heap, s: seq<Occ<Val>>, at: Node, f: FieldId, occ: int, ty: Ty, path: seq<Node>, n: nat)
    requires NodeAt(h, at) == Some(s) && Fits(h, s, n) && Above(h, path, at) && |path| <= LEVELS
    ensures ReadField(env, h, s, at, f, occ, ty, path) == Read(env, Tree(h, s, n), f, occ, ty, Left(path))
    decreases Left(path), 1, ty, 0
  {
    if occ >= 0 && Checked(ty, f, occ) {
      TreeGet(h, s, f, occ, n);
      if Get(s, f, occ).Some? {
        PositionIs(s, f, occ);
        FitsAll(h, s, n);
        assert FitsIn(h, Get(s, f, occ).value, n);
      }
      match ty
      case Struct(name, how) => StructReadsTree(env, h, s, at, f, occ, name, how, path, n);
      case Opt(of) => if IsSingle(of) && !of.Opt? { ReadsTree(env, h, s, at, f, occ, of, path, n); }
      case Vec(of) =>
        SameCount(s, Tree(h, s, n), f, 0);
        ElementsReadTree(env, h, s, at, f, occ, of, if |Column(s, f)| > occ then |Column(s, f)| - occ else 0, path, n);
      case Arr(of, k) => ElementsReadTree(env, h, s, at, f, occ, of, k, path, n);
      case _ =>
    }
  }

  lemma {:induction false} StructReadsTree(env: Env, h: Heap, s: seq<Occ<Val>>, at: Node, f: FieldId, occ: nat, name: string, how: How, path: seq<Node>, n: nat)
    requires NodeAt(h, at) == Some(s) && Fits(h, s, n) && Above(h, path, at) && |path| <= LEVELS
    requires Checked(Struct(name, how), f, occ)
    ensures ReadField(env, h, s, at, f, occ, Struct(name, how), path) == Read(env, Tree(h, s, n), f, occ, Struct(name, how), Left(path))
    decreases Left(path), 0
  {
    var child := ChildOf(h, s, at, f, occ, how);
    ChildShows(h, s, at, f, occ, how, n);
    if child.Some? && name in env && |path| < LEVELS {
      ChildIsNew(h, s, at, path, child.value, n - 1);
      assert Left(path + [child.value.at]) == Left(path) - 1;
      MembersReadTree(env, h, child.value.occs, child.value.at, env[name], path + [child.value.at], n - 1);
    }
  }

  lemma {:induction false} ElementsReadTree(env: Env, h: Heap, s: seq<Occ<Val>>, at: Node, f: FieldId, occ: int, of: Ty, count: nat, path: seq<Node>, n: nat)
    requires NodeAt(h, at) == Some(s) && Fits(h, s, n) && Above(h, path, at) && |path| <= LEVELS
    ensures ReadElements(env, h, s, at, f, occ, of, count, path) == ReadItems(env, Tree(h, s, n), f, occ, of, count, Left(path))
    decreases Left(path), 1, of, count + 1
  {
    if count > 0 {
      ReadsTree(env, h, s, at, f, occ, of, path, n);
      ElementsReadTree(env, h, s, at, f, occ + 1, of, count - 1, path, n);
    }
  }

  lemma {:induction false} MembersReadTree(env: Env, h: Heap, s: seq<Occ<Val>>, at: Node, descs: seq<Desc>, path: seq<Node>, n: nat)
    requires NodeAt(h, at) == Some(s) && Fits(h, s, n) && Above(h, path, at) && |path| <= LEVELS
    ensures ReadMembers(env, h, s, at, descs, path) == ReadFields(env, Tree(h, s, n), descs, Left(path))
    decreases Left(path), 2, |descs|
  {
    if descs != [] {
      ReadsTree(env, h, s, at, descs[0].field, descs[0].occ, descs[0].ty, path, n);
      MembersReadTree(env, h, s, at, descs[1..], path, n);
    }
  }

  /** `ubf_read` of a buffer: nothing is being read yet. */
  function UbfRead(env: Env, h: Heap, r: Addr, name: string): Result<seq<Value>>
    requires name in env && r in h && h[r].UbfBuf?
  {
    ReadMembers(env, h, h[r].occs, Node(r, []), env[name], [])
  }

  /** Reading a buffer is reading its value: within a buffer of finite depth the scope never meets an
      address twice. */
  lemma ReadIsOfValue(env: Env, h: Heap, r: Addr, name: string, t: UbfTree)
    requires name in env && Shows(h, r, t)
    ensures UbfRead(env, h, r, name) == ReadFields(env, t, env[name], LEVELS)
  {
    var n: nat :| ShowsAt(h, h[r].occs, t, n);
    MembersReadTree(env, h, h[r].occs, Node(r, []), env[name], [], n);
  }

  /** The round trip on the native heap. A buffer that shows what a successful write made of it, as
      `UbfWrite` promises, is read back from the heap as the structure written exactly if its children nest
      at most 128 levels. */
  lemma HeapRoundTrip(env: Env, h: Heap, r: Addr, name: string, t: UbfTree, fields: seq<Value>)
    requires NoOverlaps(env) && name in env && Sorted(t) && WriteFields(env, t, env[name], fields).Ok?
    requires Shows(h, r, WriteFields(env, t, env[name], fields).value)
    ensures UbfRead(env, h, r, name) == Ok(fields) <==> NestAll(fields) <= LEVELS
    ensures NestAll(fields) > LEVELS ==> UbfRead(env, h, r, name).Err?
  {
    ReadIsOfValue(env, h, r, name, WriteFields(env, t, env[name], fields).value);
    StructureRoundTrip(env, t, name, fields);
  }
}
