/** The structure mappings as functions on the value of a buffer: what writing a field of a given Rust
    type does to it, and what reading that field back gives. */
module SerdeModel {
  import opened Xatmi
  import opened UbfFields
  import opened UbfHeap
  import opened UbfTrees
  import opened UbfComplex

  type UbfTree = seq<Occ<TreeVal>>

  datatype How = Inline | Pointer

  /** A mapped Rust type: a scalar, a mapped structure or a VIEW (inline or behind a pointer), and the
      wrappers `Option`, `Vec` and `[T; N]`. */
  datatype Ty = Leaf | Struct(name: string, how: How) | Viewed(view: string, how: How) | Opt(of: Ty) | Vec(of: Ty) | Arr(of: Ty, n: nat)

  /** One field of a structure. `env` names the structures, so they may be recursive. */
  datatype Desc = Desc(field: FieldId, occ: int, ty: Ty)
  type Env = map<string, seq<Desc>>

  datatype Value = VData(bytes: seq<int>) | VStruct(fields: seq<Value>) | VView(bytes: seq<int>) | VNone | VSome(of: Value) | VSeq(items: seq<Value>)

  // ----- occurrences and widths

  function Occurrence(first: int, index: nat): (r: Result<int>)
    ensures r.Ok? <==> first >= 0 && first + index <= I32_MAX
    ensures r.Ok? ==> r.value == first + index
  {
    if first < 0 then Err(BEINVAL)
    else if index > I32_MAX || first + index > I32_MAX then Err(BEINVAL)
    else Ok(first + index)
  }

  function Base(ty: Ty): Ty {
    match ty case Opt(t) => Base(t) case Vec(t) => Base(t) case Arr(t, _) => Base(t) case _ => ty
  }

  /** The native field kind a type is stored in. */
  function KindOf(ty: Ty): FieldKind {
    match Base(ty)
    case Struct(_, Inline) => UbfField
    case Viewed(_, Inline) => ViewField
    case Struct(_, Pointer) => PtrField
    case Viewed(_, Pointer) => PtrField
    case _ => DataField
  }

  predicate Mapped(ty: Ty) {
    !Base(ty).Leaf?
  }

  /** Whether a value of the type always takes exactly one occurrence. An optional element needs a native
      NULL placeholder, which only PTR and VIEW occurrences have. */
  predicate IsSingle(ty: Ty) {
    match ty
    case Opt(t) => KindOf(t) == PtrField || KindOf(t) == ViewField
    case Vec(_) => false
    case Arr(_, _) => false
    case _ => true
  }

  /** Complex mappings check the occurrence and the kind of the field first. */
  predicate Checked(ty: Ty, f: FieldId, occ: int) {
    Mapped(ty) ==> occ >= 0 && f.kind == KindOf(ty)
  }

  predicate TreeHasPointer(t: UbfTree)
    decreases t
  {
    t != [] && (TreePointerIn(t[0]) || TreeHasPointer(t[1..]))
  }

  predicate TreePointerIn(o: Occ<TreeVal>)
    decreases o
  {
    match o.val
    case TNull => true
    case TRef(_) => true
    case TUbf(c) => TreeHasPointer(c)
    case _ => false
  }

  /** The occurrences of a field from `first` on are gone. */
  function Trimmed(t: UbfTree, f: FieldId, first: nat): UbfTree
    decreases |Column(t, f)|
  {
    if |Column(t, f)| <= first then t
    else
      DelColumn(t, f, |Column(t, f)| - 1, f);
      Trimmed(Del(t, f, |Column(t, f)| - 1), f, first)
  }

  // ----- writing

  function PutAt(t: UbfTree, f: FieldId, occ: int, v: TreeVal): Result<UbfTree> {
    if occ < 0 then Err(BEINVAL) else Ok(Put(t, f, occ, v, TreeGap(f.kind)))
  }

  /** Write the value `v` of type `ty`. `element` is set inside a collection, where an absent optional
      value keeps its position. */
  function Write(env: Env, t: UbfTree, f: FieldId, occ: int, ty: Ty, v: Value, element: bool): Result<UbfTree>
    decreases v, 0
  {
    if !Checked(ty, f, occ) then Err(if occ < 0 then BEINVAL else BTYPERR)
    else match ty
    case Leaf => if v.VData? && f.kind == DataField then PutAt(t, f, occ, TData(v.bytes)) else Err(BTYPERR)
    case Viewed(view, how) =>
      if !v.VView? || view == "" then Err(BEINVAL)
      else PutAt(t, f, occ, if how == Inline then TView(view, v.bytes) else TRef(TRawBuf("VIEW", view, v.bytes)))
    case Struct(name, how) =>
      if !v.VStruct? || name !in env then Err(BEINVAL)
      else
        (match WriteFields(env, [], env[name], v.fields)
         case Err(e) => Err(e)
         case Ok(child) =>
           if how == Pointer then PutAt(t, f, occ, TRef(TUbfBuf(child)))
           else if TreeHasPointer(child) then Err(BEINVAL)
           else PutAt(t, f, occ, TUbf(child)))
    case Opt(of) =>
      if occ < 0 || !IsSingle(of) || of.Opt? then Err(BEINVAL)
      else if v.VSome? then Write(env, t, f, occ, of, v.of, element)
      else if !v.VNone? then Err(BEINVAL)
      else if element && Mapped(of) then (if IsSingle(ty) then PutAt(t, f, occ, TreeGap(f.kind)) else Err(BEINVAL))
      else Ok(Trimmed(t, f, occ))
    case Vec(of) =>
      if !v.VSeq? || !IsSingle(of) || Occurrence(occ, |v.items|).Err? then Err(BEINVAL)
      else
        (match WriteItems(env, t, f, occ, of, v.items)
         case Err(e) => Err(e)
         case Ok(u) => Ok(Trimmed(u, f, occ + |v.items|)))
    case Arr(of, n) =>
      if !v.VSeq? || |v.items| != n || !IsSingle(of) || Occurrence(occ, n).Err? then Err(BEINVAL)
      else WriteItems(env, t, f, occ, of, v.items)
  }

  /** Consecutive elements from `occ` on. */
  function WriteItems(env: Env, t: UbfTree, f: FieldId, occ: int, of: Ty, items: seq<Value>): Result<UbfTree>
    decreases items, 1
  {
    if items == [] then Ok(t)
    else
      match Write(env, t, f, occ, of, items[0], true)
      case Err(e) => Err(e)
      case Ok(u) => WriteItems(env, u, f, occ + 1, of, items[1..])
  }

  /** A structure, field by field. */
  function WriteFields(env: Env, t: UbfTree, descs: seq<Desc>, vs: seq<Value>): Result<UbfTree>
    decreases vs, 1
  {
    if descs == [] || vs == [] then (if descs == [] && vs == [] then Ok(t) else Err(BEINVAL))
    else
      match Write(env, t, descs[0].field, descs[0].occ, descs[0].ty, vs[0], false)
      case Err(e) => Err(e)
      case Ok(u) => WriteFields(env, u, descs[1..], vs[1..])
  }

  // ----- reading

  /** Whether the occurrence is a native NULL. */
  predicate NullAt(v: TreeVal) {
    v.TNull? || (v.TView? && v.name == "")
  }

  /** Read a field of type `ty`. `levels` is how many more child levels the active read may enter. */
  function Read(env: Env, t: UbfTree, f: FieldId, occ: int, ty: Ty, levels: nat): Result<Value>
    decreases levels, 0, ty, 0
  {
    if occ < 0 then Err(BEINVAL)
    else if !Checked(ty, f, occ) then Err(BTYPERR)
    else match ty
    case Leaf =>
      var g: Option<TreeVal> := Get(t, f, occ);
      if g.Some? && g.value.TData? then Ok(VData(g.value.bytes)) else Err(BNOTPRES)
    case Viewed(view, how) =>
      var g: Option<TreeVal> := Get(t, f, occ);
      if g.Some? && how == Inline && g.value.TView? && g.value.name == view && view != "" then Ok(VView(g.value.bytes))
      else if g.Some? && how == Pointer && g.value.TRef? && g.value.buf.TRawBuf?
              && g.value.buf.typeName == "VIEW" && g.value.buf.subtype == view then Ok(VView(g.value.buf.bytes))
      else Err(BTYPERR)
    case Struct(name, how) =>
      var child := ChildAt(t, f, occ, how);
      if child.None? || name !in env then Err(BTYPERR)
      else if levels == 0 then Err(BEINVAL)
      else
        (match ReadFields(env, child.value, env[name], levels - 1)
         case Err(e) => Err(e)
         case Ok(vs) => Ok(VStruct(vs)))
    case Opt(of) =>
      if !IsSingle(of) || of.Opt? then Err(BEINVAL)
      else
        var g: Option<TreeVal> := Get(t, f, occ);
        if g.None? || (Mapped(of) && NullAt(g.value)) then Ok(VNone)
        else
          (match Read(env, t, f, occ, of, levels)
           case Err(e) => Err(e)
           case Ok(v) => Ok(VSome(v)))
    case Vec(of) =>
      if !IsSingle(of) then Err(BEINVAL)
      else ReadSeq(env, t, f, occ, of, if |Column(t, f)| > occ then |Column(t, f)| - occ else 0, levels)
    case Arr(of, n) =>
      if !IsSingle(of) || Occurrence(occ, n).Err? then Err(BEINVAL)
      else ReadSeq(env, t, f, occ, of, n, levels)
  }

  function ReadSeq(env: Env, t: UbfTree, f: FieldId, occ: int, of: Ty, count: nat, levels: nat): Result<Value>
    decreases levels, 0, of, count + 2
  {
    match ReadItems(env, t, f, occ, of, count, levels)
    case Err(e) => Err(e)
    case Ok(items) => Ok(VSeq(items))
  }

  function ReadItems(env: Env, t: UbfTree, f: FieldId, occ: int, of: Ty, count: nat, levels: nat): Result<seq<Value>>
    decreases levels, 0, of, count + 1
  {
    if count == 0 then Ok([])
    else
      match Read(env, t, f, occ, of, levels)
      case Err(e) => Err(e)
      case Ok(v) =>
        match ReadItems(env, t, f, occ + 1, of, count - 1, levels)
        case Err(e) => Err(e)
        case Ok(vs) => Ok([v] + vs)
  }

  function ReadFields(env: Env, t: UbfTree, descs: seq<Desc>, levels: nat): Result<seq<Value>>
    decreases levels, 1, |descs|
  {
    if descs == [] then Ok([])
    else
      match Read(env, t, descs[0].field, descs[0].occ, descs[0].ty, levels)
      case Err(e) => Err(e)
      case Ok(v) =>
        match ReadFields(env, t, descs[1..], levels)
        case Err(e) => Err(e)
        case Ok(vs) => Ok([v] + vs)
  }

  /** The inline child, or the UBF a pointer names. */
  function ChildAt(t: UbfTree, f: FieldId, occ: nat, how: How): Option<UbfTree> {
    var g: Option<TreeVal> := Get(t, f, occ);
    if g.None? then None
    else if how == Inline && g.value.TUbf? then Some(g.value.occs)
    else if how == Pointer && g.value.TRef? && g.value.buf.TUbfBuf? then Some(g.value.buf.occs)
    else None
  }

  // ----- what a value needs

  /** How deep the child structures of a value nest. */
  function Nest(v: Value): nat {
    match v
    case VStruct(vs) => 1 + NestAll(vs)
    case VSome(x) => Nest(x)
    case VSeq(vs) => NestAll(vs)
    case _ => 0
  }

  function NestAll(vs: seq<Value>): nat {
    if vs == [] then 0 else if Nest(vs[0]) > NestAll(vs[1..]) then Nest(vs[0]) else NestAll(vs[1..])
  }

  /** The occurrences a type maps: a fixed number from the start, or everything from the start on. */
  function Extent(ty: Ty): Option<nat> {
    match ty case Opt(_) => None case Vec(_) => None case Arr(_, n) => Some(n) case _ => Some(1)
  }

  /** Two fields of a structure map no common occurrence. */
  predicate Apart(a: Desc, b: Desc) {
    || a.field != b.field
    || (Extent(a.ty).Some? && a.occ + Extent(a.ty).value <= b.occ)
    || (Extent(b.ty).Some? && b.occ + Extent(b.ty).value <= a.occ)
  }

  ghost predicate NoOverlap(descs: seq<Desc>) {
    forall i, j :: 0 <= i < j < |descs| ==> Apart(descs[i], descs[j])
  }

  ghost predicate NoOverlaps(env: Env) {
    forall name :: name in env ==> NoOverlap(env[name])
  }
}
