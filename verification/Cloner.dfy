/** Reflective deep copy (pkg/conversion/cloner.go) over an explicit heap. */
module Cloner {
  import opened Wrappers

  type Addr = nat

  /** Part of a backing array. */
  datatype Window = Window(addr: Addr, off: nat, len: nat)

  datatype Field = Field(exported: bool, value: Value)

  /** A value as reflection sees it. None stands for nil. `Unsupported` is a channel, a function or a
      raw pointer; `bytes` marks exactly the type []byte, which has a copy function of its own. */
  datatype Value =
    | Basic(content: string)
    | Unsupported
    | Interface(dynamic: Option<Value>)
    | Ptr(target: Option<Addr>)
    | Slice(bytes: bool, window: Option<Window>)
    | Map(cell: Option<Addr>)
    | Array(elems: seq<Value>)
    | Struct(fields: seq<Field>)

  datatype Cell =
    | Pointee(value: Value)
    | Backing(items: seq<Value>)
    | Table(entries: map<Value, Value>)

  datatype Heap = Heap(cells: map<Addr, Cell>, next: Addr)

  // ---- What a value unfolds to ----

  /** What kind of reference a nil or an unfollowed reference is. */
  datatype Kind = InterfaceKind | PtrKind | SliceKind(bytes: bool) | MapKind

  /** One constructor for each kind of value: of two trees that are equal, each part is of the same kind in both. */
  datatype Tree =
    | Leaf(v: Value)
    | Nil(kind: Kind)
    | Cut(kind: Kind)
    | Dynamic(t: Tree)
    | Target(t: Tree)
    | Elements(bytes: bool, ts: seq<Tree>)
    | Dict(ts': map<Value, Tree>)
    | Tuple(ts: seq<Tree>)
    | Record(exported: seq<bool>, ts: seq<Tree>)

  predicate PtrOk(h: Heap, a: Addr) { a in h.cells && h.cells[a].Pointee? }

  predicate WindowOk(h: Heap, w: Window) {
    w.addr in h.cells && h.cells[w.addr].Backing? && w.off + w.len <= |h.cells[w.addr].items|
  }

  predicate MapOk(h: Heap, a: Addr) { a in h.cells && h.cells[a].Table? }

  function Items(h: Heap, w: Window): (items: seq<Value>)
    requires WindowOk(h, w)
    ensures |items| == w.len
  {
    h.cells[w.addr].items[w.off..w.off + w.len]
  }

  /** The tree a value unfolds to when `d` references are followed, nil and empty kept apart. */
  function Unfold(h: Heap, v: Value, d: nat): Tree
    decreases d, v
  {
    match v
    case Basic(_) => Leaf(v)
    case Unsupported => Leaf(v)
    case Interface(None) => Nil(InterfaceKind)
    case Interface(Some(w)) => Dynamic(Unfold(h, w, d))
    case Ptr(None) => Nil(PtrKind)
    case Ptr(Some(a)) => if d == 0 || !PtrOk(h, a) then Cut(PtrKind) else Target(Unfold(h, h.cells[a].value, d - 1))
    case Slice(bytes, None) => Nil(SliceKind(bytes))
    case Slice(bytes, Some(w)) =>
      if d == 0 || !WindowOk(h, w) then Cut(SliceKind(bytes))
      else Elements(bytes, seq(w.len, i requires 0 <= i < w.len => Unfold(h, Items(h, w)[i], d - 1)))
    case Map(None) => Nil(MapKind)
    case Map(Some(a)) =>
      if d == 0 || !MapOk(h, a) then Cut(MapKind)
      else Dict(map k | k in h.cells[a].entries :: Unfold(h, h.cells[a].entries[k], d - 1))
    case Array(elems) => Tuple(seq(|elems|, i requires 0 <= i < |elems| => Unfold(h, elems[i], d)))
    case Struct(fields) =>
      Record(Exported(fields), seq(|fields|, i requires 0 <= i < |fields| => Unfold(h, fields[i].value, d)))
  }

  function Exported(fields: seq<Field>): (flags: seq<bool>)
    ensures |flags| == |fields|
  {
    seq(|fields|, i requires 0 <= i < |fields| => fields[i].exported)
  }

  /** Whether the cell `a` can be reached from `v` over at most `d` further references. */
  ghost predicate Reaches(h: Heap, v: Value, a: Addr, d: nat)
    decreases d, v
  {
    match v
    case Interface(Some(w)) => Reaches(h, w, a, d)
    case Ptr(Some(b)) => a == b || (d > 0 && PtrOk(h, b) && Reaches(h, h.cells[b].value, a, d - 1))
    case Slice(_, Some(w)) =>
      a == w.addr || (d > 0 && WindowOk(h, w) && exists i :: 0 <= i < w.len && Reaches(h, Items(h, w)[i], a, d - 1))
    case Map(Some(b)) =>
      || a == b
      || (d > 0 && MapOk(h, b) && exists k :: k in h.cells[b].entries && Reaches(h, k, a, d - 1))
      || (d > 0 && MapOk(h, b) && exists k :: k in h.cells[b].entries && Reaches(h, h.cells[b].entries[k], a, d - 1))
    case Array(elems) => exists i :: 0 <= i < |elems| && Reaches(h, elems[i], a, d)
    case Struct(fields) => exists i :: 0 <= i < |fields| && Reaches(h, fields[i].value, a, d)
    case _ => false
  }

  predicate AllExported(fields: seq<Field>) {
    forall i :: 0 <= i < |fields| ==> fields[i].exported
  }

  /** Whether the cell `a` is reached through a part that is handed over as it is: a struct with an
      unexported field, or a map key. */
  ghost predicate Leaks(h: Heap, v: Value, a: Addr, d: nat)
    decreases d, v
  {
    match v
    case Interface(Some(w)) => Leaks(h, w, a, d)
    case Ptr(Some(b)) => d > 0 && PtrOk(h, b) && Leaks(h, h.cells[b].value, a, d - 1)
    case Slice(_, Some(w)) =>
      d > 0 && WindowOk(h, w) && exists i :: 0 <= i < w.len && Leaks(h, Items(h, w)[i], a, d - 1)
    case Map(Some(b)) =>
      || (d > 0 && MapOk(h, b) && exists k :: k in h.cells[b].entries && Reaches(h, k, a, d - 1))
      || (d > 0 && MapOk(h, b) && exists k :: k in h.cells[b].entries && Leaks(h, h.cells[b].entries[k], a, d - 1))
    case Array(elems) => exists i :: 0 <= i < |elems| && Leaks(h, elems[i], a, d)
    case Struct(fields) =>
      exists i :: 0 <= i < |fields| &&
        if AllExported(fields) then Leaks(h, fields[i].value, a, d) else Reaches(h, fields[i].value, a, d)
    case _ => false
  }

  /** Whether the copy comes across an unsupported value within `d` references. */
  ghost predicate Fails(h: Heap, v: Value, d: nat)
    decreases d, v
  {
    match v
    case Unsupported => true
    case Interface(Some(w)) => Fails(h, w, d)
    case Ptr(Some(b)) => d > 0 && PtrOk(h, b) && Fails(h, h.cells[b].value, d - 1)
    case Slice(bytes, Some(w)) =>
      !bytes && d > 0 && WindowOk(h, w) && exists i :: 0 <= i < w.len && Fails(h, Items(h, w)[i], d - 1)
    case Map(Some(b)) =>
      d > 0 && MapOk(h, b) && exists k :: k in h.cells[b].entries && Fails(h, h.cells[b].entries[k], d - 1)
    case Array(elems) => exists i :: 0 <= i < |elems| && Fails(h, elems[i], d)
    case Struct(fields) =>
      exists i :: 0 <= i < |fields| && AllExported(fields[..i + 1]) && Fails(h, fields[i].value, d)
    case _ => false
  }

  // ---- Heaps without dangling references, and their extensions ----

  /** Every reference in `v` itself leads to a cell of the heap. */
  predicate Inside(h: Heap, v: Value) {
    match v
    case Interface(Some(w)) => Inside(h, w)
    case Ptr(Some(a)) => a in h.cells
    case Slice(_, Some(w)) => w.addr in h.cells
    case Map(Some(a)) => a in h.cells
    case Array(elems) => forall i :: 0 <= i < |elems| ==> Inside(h, elems[i])
    case Struct(fields) => forall i :: 0 <= i < |fields| ==> Inside(h, fields[i].value)
    case _ => true
  }

  predicate CellInside(h: Heap, c: Cell) {
    match c
    case Pointee(v) => Inside(h, v)
    case Backing(items) => forall i :: 0 <= i < |items| ==> Inside(h, items[i])
    case Table(entries) => forall k :: k in entries ==> Inside(h, k) && Inside(h, entries[k])
  }

  ghost predicate Sound(h: Heap) {
    && (forall a :: a in h.cells ==> a < h.next)
    && (forall a :: a in h.cells ==> CellInside(h, h.cells[a]))
  }

  /** `h'` has every cell of `h`, unchanged. */
  ghost predicate Extends(h: Heap, h': Heap) {
    && h.next <= h'.next
    && forall a :: a in h.cells ==> a in h'.cells && h'.cells[a] == h.cells[a]
  }

  lemma {:induction false} InsideExtension(h: Heap, h': Heap, v: Value)
    requires Extends(h, h') && Inside(h, v)
    ensures Inside(h', v)
  {
    match v
    case Interface(Some(w)) => InsideExtension(h, h', w);
    case Array(elems) => forall i | 0 <= i < |elems| ensures Inside(h', elems[i]) { InsideExtension(h, h', elems[i]); }
    case Struct(fields) =>
      forall i | 0 <= i < |fields| ensures Inside(h', fields[i].value) { InsideExtension(h, h', fields[i].value); }
    case _ =>
  }

  /** Nothing that a sound heap says about a value changes when the heap grows. */
  lemma {:induction false} UnfoldFrame(h: Heap, h': Heap, v: Value, d: nat)
    requires Extends(h, h') && Sound(h) && Inside(h, v)
    ensures Unfold(h', v, d) == Unfold(h, v, d)
    decreases d, v
  {
    match v
    case Interface(Some(w)) => UnfoldFrame(h, h', w, d);
    case Ptr(Some(a)) => if d > 0 && PtrOk(h, a) { UnfoldFrame(h, h', h.cells[a].value, d - 1); }
    case Slice(_, Some(w)) =>
      if d > 0 && WindowOk(h, w) {
        assert Items(h', w) == Items(h, w);
        forall i | 0 <= i < w.len ensures Unfold(h', Items(h, w)[i], d - 1) == Unfold(h, Items(h, w)[i], d - 1) {
          UnfoldFrame(h, h', Items(h, w)[i], d - 1);
        }
      }
    case Map(Some(a)) =>
      if d > 0 && MapOk(h, a) {
        var m := h.cells[a].entries;
        forall k | k in m ensures Unfold(h', m[k], d - 1) == Unfold(h, m[k], d - 1) {
          UnfoldFrame(h, h', m[k], d - 1);
        }
        MapUnfoldFrame(h, h', a, d);
      }
    case Array(elems) =>
      forall i | 0 <= i < |elems| ensures Unfold(h', elems[i], d) == Unfold(h, elems[i], d) {
        UnfoldFrame(h, h', elems[i], d);
      }
    case Struct(fields) =>
      forall i | 0 <= i < |fields| ensures Unfold(h', fields[i].value, d) == Unfold(h, fields[i].value, d) {
        UnfoldFrame(h, h', fields[i].value, d);
      }
      StructUnfoldFrame(h, h', fields, d);
    case _ =>
  }

  lemma MapUnfoldFrame(h: Heap, h': Heap, a: Addr, d: nat)
    requires d > 0 && Extends(h, h') && MapOk(h, a)
    requires var m := h.cells[a].entries; forall k :: k in m ==> Unfold(h', m[k], d - 1) == Unfold(h, m[k], d - 1)
    ensures Unfold(h', Map(Some(a)), d) == Unfold(h, Map(Some(a)), d)
  {
  }

  lemma StructUnfoldFrame(h: Heap, h': Heap, fields: seq<Field>, d: nat)
    requires forall i :: 0 <= i < |fields| ==> Unfold(h', fields[i].value, d) == Unfold(h, fields[i].value, d)
    ensures Unfold(h', Struct(fields), d) == Unfold(h, Struct(fields), d)
  {
  }

  lemma {:induction false} ReachFrame(h: Heap, h': Heap, v: Value, a: Addr, d: nat)
    requires Extends(h, h') && Sound(h) && Inside(h, v)
    ensures Reaches(h', v, a, d) == Reaches(h, v, a, d)
    ensures Reaches(h, v, a, d) ==> a in h.cells
    decreases d, v
  {
    match v
    case Interface(Some(w)) => ReachFrame(h, h', w, a, d);
    case Ptr(Some(b)) => if d > 0 && PtrOk(h, b) { ReachFrame(h, h', h.cells[b].value, a, d - 1); }
    case Slice(_, Some(w)) =>
      if d > 0 && WindowOk(h, w) {
        assert Items(h', w) == Items(h, w);
        forall i | 0 <= i < w.len
          ensures Reaches(h', Items(h, w)[i], a, d - 1) == Reaches(h, Items(h, w)[i], a, d - 1)
          ensures Reaches(h, Items(h, w)[i], a, d - 1) ==> a in h.cells
        {
          ReachFrame(h, h', Items(h, w)[i], a, d - 1);
        }
      }
    case Map(Some(b)) =>
      if d > 0 && MapOk(h, b) {
        var m := h.cells[b].entries;
        forall k | k in m
          ensures Reaches(h', k, a, d - 1) == Reaches(h, k, a, d - 1)
          ensures Reaches(h', m[k], a, d - 1) == Reaches(h, m[k], a, d - 1)
          ensures Reaches(h, k, a, d - 1) || Reaches(h, m[k], a, d - 1) ==> a in h.cells
        {
          ReachFrame(h, h', k, a, d - 1);
          ReachFrame(h, h', m[k], a, d - 1);
        }
      }
    case Array(elems) =>
      forall i | 0 <= i < |elems|
        ensures Reaches(h', elems[i], a, d) == Reaches(h, elems[i], a, d)
        ensures Reaches(h, elems[i], a, d) ==> a in h.cells
      {
        ReachFrame(h, h', elems[i], a, d);
      }
    case Struct(fields) =>
      forall i | 0 <= i < |fields|
        ensures Reaches(h', fields[i].value, a, d) == Reaches(h, fields[i].value, a, d)
        ensures Reaches(h, fields[i].value, a, d) ==> a in h.cells
      {
        ReachFrame(h, h', fields[i].value, a, d);
      }
    case _ =>
  }

  lemma {:induction false} LeakFrame(h: Heap, h': Heap, v: Value, a: Addr, d: nat)
    requires Extends(h, h') && Sound(h) && Inside(h, v)
    ensures Leaks(h', v, a, d) == Leaks(h, v, a, d)
    ensures Leaks(h, v, a, d) ==> Reaches(h, v, a, d)
    decreases d, v
  {
    match v
    case Interface(Some(w)) => LeakFrame(h, h', w, a, d);
    case Ptr(Some(b)) => if d > 0 && PtrOk(h, b) { LeakFrame(h, h', h.cells[b].value, a, d - 1); }
    case Slice(_, Some(w)) =>
      if d > 0 && WindowOk(h, w) {
        assert Items(h', w) == Items(h, w);
        forall i | 0 <= i < w.len
          ensures Leaks(h', Items(h, w)[i], a, d - 1) == Leaks(h, Items(h, w)[i], a, d - 1)
          ensures Leaks(h, Items(h, w)[i], a, d - 1) ==> Reaches(h, Items(h, w)[i], a, d - 1)
        {
          LeakFrame(h, h', Items(h, w)[i], a, d - 1);
        }
      }
    case Map(Some(b)) =>
      if d > 0 && MapOk(h, b) {
        var m := h.cells[b].entries;
        forall k | k in m
          ensures Reaches(h', k, a, d - 1) == Reaches(h, k, a, d - 1)
          ensures Leaks(h', m[k], a, d - 1) == Leaks(h, m[k], a, d - 1)
          ensures Leaks(h, m[k], a, d - 1) ==> Reaches(h, m[k], a, d - 1)
        {
          ReachFrame(h, h', k, a, d - 1);
          LeakFrame(h, h', m[k], a, d - 1);
        }
        MapLeakFrame(h, h', b, a, d);
      }
    case Array(elems) =>
      forall i | 0 <= i < |elems|
        ensures Leaks(h', elems[i], a, d) == Leaks(h, elems[i], a, d)
        ensures Leaks(h, elems[i], a, d) ==> Reaches(h, elems[i], a, d)
      {
        LeakFrame(h, h', elems[i], a, d);
      }
    case Struct(fields) =>
      forall i | 0 <= i < |fields|
        ensures Leaks(h', fields[i].value, a, d) == Leaks(h, fields[i].value, a, d)
        ensures Reaches(h', fields[i].value, a, d) == Reaches(h, fields[i].value, a, d)
        ensures Leaks(h, fields[i].value, a, d) ==> Reaches(h, fields[i].value, a, d)
      {
        LeakFrame(h, h', fields[i].value, a, d);
        ReachFrame(h, h', fields[i].value, a, d);
      }
      StructLeakFrame(h, h', fields, a, d);
    case _ =>
  }

  lemma MapLeakFrame(h: Heap, h': Heap, b: Addr, a: Addr, d: nat)
    requires d > 0 && Extends(h, h') && MapOk(h, b)
    requires var m := h.cells[b].entries;
             forall k :: k in m ==>
               && Reaches(h', k, a, d - 1) == Reaches(h, k, a, d - 1)
               && Leaks(h', m[k], a, d - 1) == Leaks(h, m[k], a, d - 1)
               && (Leaks(h, m[k], a, d - 1) ==> Reaches(h, m[k], a, d - 1))
    ensures Leaks(h', Map(Some(b)), a, d) == Leaks(h, Map(Some(b)), a, d)
    ensures Leaks(h, Map(Some(b)), a, d) ==> Reaches(h, Map(Some(b)), a, d)
  {
  }

  lemma StructLeakFrame(h: Heap, h': Heap, fields: seq<Field>, a: Addr, d: nat)
    requires forall i :: 0 <= i < |fields| ==>
               && Leaks(h', fields[i].value, a, d) == Leaks(h, fields[i].value, a, d)
               && Reaches(h', fields[i].value, a, d) == Reaches(h, fields[i].value, a, d)
               && (Leaks(h, fields[i].value, a, d) ==> Reaches(h, fields[i].value, a, d))
    ensures Leaks(h', Struct(fields), a, d) == Leaks(h, Struct(fields), a, d)
    ensures Leaks(h, Struct(fields), a, d) ==> Reaches(h, Struct(fields), a, d)
  {
  }

  lemma {:induction false} FailFrame(h: Heap, h': Heap, v: Value, d: nat)
    requires Extends(h, h') && Sound(h) && Inside(h, v)
    ensures Fails(h', v, d) == Fails(h, v, d)
    decreases d, v
  {
    match v
    case Interface(Some(w)) => FailFrame(h, h', w, d);
    case Ptr(Some(b)) => if d > 0 && PtrOk(h, b) { FailFrame(h, h', h.cells[b].value, d - 1); }
    case Slice(_, Some(w)) =>
      if d > 0 && WindowOk(h, w) {
        assert Items(h', w) == Items(h, w);
        forall i | 0 <= i < w.len ensures Fails(h', Items(h, w)[i], d - 1) == Fails(h, Items(h, w)[i], d - 1) {
          FailFrame(h, h', Items(h, w)[i], d - 1);
        }
      }
    case Map(Some(b)) =>
      if d > 0 && MapOk(h, b) {
        var m := h.cells[b].entries;
        forall k | k in m ensures Fails(h', m[k], d - 1) == Fails(h, m[k], d - 1) { FailFrame(h, h', m[k], d - 1); }
      }
    case Array(elems) =>
      forall i | 0 <= i < |elems| ensures Fails(h', elems[i], d) == Fails(h, elems[i], d) {
        FailFrame(h, h', elems[i], d);
      }
    case Struct(fields) =>
      forall i | 0 <= i < |fields| ensures Fails(h', fields[i].value, d) == Fails(h, fields[i].value, d) {
        FailFrame(h, h', fields[i].value, d);
      }
    case _ =>
  }

  // ---- Kinds ----

  /** Source and copy are of the same kind at every position within `d` references: the same constructor, nil where
      the other is nil, the same mark of []byte, as many elements, the same keys, and fields of the same visibility. */
  ghost predicate SameKind(h: Heap, v: Value, h': Heap, r: Value, d: nat)
    decreases d, v
  {
    match v
    case Basic(_) => r == v
    case Unsupported => r == v
    case Interface(None) => r == v
    case Interface(Some(w)) => r.Interface? && r.dynamic.Some? && SameKind(h, w, h', r.dynamic.value, d)
    case Ptr(None) => r == v
    case Ptr(Some(a)) =>
      && r.Ptr? && r.target.Some?
      && (d > 0 ==> PtrOk(h, a) == PtrOk(h', r.target.value))
      && (d > 0 && PtrOk(h, a) ==> SameKind(h, h.cells[a].value, h', h'.cells[r.target.value].value, d - 1))
    case Slice(_, None) => r == v
    case Slice(bytes, Some(w)) =>
      && r.Slice? && r.bytes == bytes && r.window.Some?
      && (d > 0 ==> WindowOk(h, w) == WindowOk(h', r.window.value))
      && (d > 0 && WindowOk(h, w) ==>
            && w.len == r.window.value.len
            && forall i :: 0 <= i < w.len ==> SameKind(h, Items(h, w)[i], h', Items(h', r.window.value)[i], d - 1))
    case Map(None) => r == v
    case Map(Some(a)) =>
      && r.Map? && r.cell.Some?
      && (d > 0 ==> MapOk(h, a) == MapOk(h', r.cell.value))
      && (d > 0 && MapOk(h, a) ==>
            var m, n := h.cells[a].entries, h'.cells[r.cell.value].entries;
            m.Keys == n.Keys && forall k :: k in m ==> SameKind(h, m[k], h', n[k], d - 1))
    case Array(elems) =>
      r.Array? && |r.elems| == |elems| && forall i :: 0 <= i < |elems| ==> SameKind(h, elems[i], h', r.elems[i], d)
    case Struct(fields) =>
      && r.Struct? && |r.fields| == |fields|
      && forall i :: 0 <= i < |fields| ==>
           r.fields[i].exported == fields[i].exported && SameKind(h, fields[i].value, h', r.fields[i].value, d)
  }

  /** Values unfold alike exactly when they are of the same kind at every position. */
  lemma {:induction false} UnfoldsAlikeIffSameKind(h: Heap, v: Value, h': Heap, r: Value, d: nat)
    ensures Unfold(h', r, d) == Unfold(h, v, d) <==> SameKind(h, v, h', r, d)
    decreases d, v, 1
  {
    hide Unfold, SameKind;
    if !SameConstructor(v, r) {
      OtherConstructor(h, v, h', r, d);
    } else {
      match v
      case Interface(Some(w)) =>
        UnfoldsAlikeIffSameKind(h, w, h', r.dynamic.value, d);
        DynamicsUnfoldAlike(h, w, h', r.dynamic.value, d);
      case Ptr(Some(a)) =>
        var b := r.target.value;
        if d > 0 && PtrOk(h, a) && PtrOk(h', b) {
          UnfoldsAlikeIffSameKind(h, h.cells[a].value, h', h'.cells[b].value, d - 1);
        }
        TargetsUnfoldAlike(h, a, h', b, d);
      case Slice(_, Some(w)) => SlicesUnfoldAlike(h, v, h', r, d);
      case Map(Some(a)) => MapsUnfoldAlike(h, v, h', r, d);
      case Array(elems) => ArraysUnfoldAlike(h, v, h', r, d);
      case Struct(fields) => StructsUnfoldAlike(h, v, h', r, d);
      case _ => PlainValues(h, v, h', r, d);
    }
  }

  /** At the top the two values are of one kind. */
  predicate SameConstructor(v: Value, r: Value) {
    match v
    case Basic(_) => r.Basic?
    case Unsupported => r.Unsupported?
    case Interface(w) => r.Interface? && r.dynamic.Some? == w.Some?
    case Ptr(a) => r.Ptr? && r.target.Some? == a.Some?
    case Slice(_, w) => r.Slice? && r.window.Some? == w.Some?
    case Map(a) => r.Map? && r.cell.Some? == a.Some?
    case Array(_) => r.Array?
    case Struct(_) => r.Struct?
  }

  lemma OtherConstructor(h: Heap, v: Value, h': Heap, r: Value, d: nat)
    requires !SameConstructor(v, r)
    ensures Unfold(h', r, d) != Unfold(h, v, d) && !SameKind(h, v, h', r, d)
  {
  }

  lemma PlainValues(h: Heap, v: Value, h': Heap, r: Value, d: nat)
    requires SameConstructor(v, r)
    requires match v
             case Basic(_) => true
             case Unsupported => true
             case Interface(None) => true
             case Ptr(None) => true
             case Slice(_, None) => true
             case Map(None) => true
             case _ => false
    ensures Unfold(h', r, d) == Unfold(h, v, d) <==> SameKind(h, v, h', r, d)
  {
  }

  lemma DynamicsUnfoldAlike(h: Heap, v: Value, h': Heap, r: Value, d: nat)
    requires Unfold(h', r, d) == Unfold(h, v, d) <==> SameKind(h, v, h', r, d)
    ensures Unfold(h', Interface(Some(r)), d) == Unfold(h, Interface(Some(v)), d)
            <==> SameKind(h, Interface(Some(v)), h', Interface(Some(r)), d)
  {
  }

  lemma TargetsUnfoldAlike(h: Heap, a: Addr, h': Heap, b: Addr, d: nat)
    requires d > 0 && PtrOk(h, a) && PtrOk(h', b) ==>
               var v, r := h.cells[a].value, h'.cells[b].value;
               Unfold(h', r, d - 1) == Unfold(h, v, d - 1) <==> SameKind(h, v, h', r, d - 1)
    ensures Unfold(h', Ptr(Some(b)), d) == Unfold(h, Ptr(Some(a)), d)
            <==> SameKind(h, Ptr(Some(a)), h', Ptr(Some(b)), d)
  {
  }

  lemma {:induction false} SlicesUnfoldAlike(h: Heap, v: Value, h': Heap, r: Value, d: nat)
    requires v.Slice? && v.window.Some? && r.Slice? && r.window.Some?
    ensures Unfold(h', r, d) == Unfold(h, v, d) <==> SameKind(h, v, h', r, d)
    decreases d, v, 0
  {
    hide Unfold, SameKind;
    var w, u := v.window.value, r.window.value;
    if d > 0 && WindowOk(h, w) && WindowOk(h', u) {
      var vs, rs := Items(h, w), Items(h', u);
      forall i | 0 <= i < w.len && i < u.len
        ensures Unfold(h', rs[i], d - 1) == Unfold(h, vs[i], d - 1) <==> SameKind(h, vs[i], h', rs[i], d - 1)
      {
        UnfoldsAlikeIffSameKind(h, vs[i], h', rs[i], d - 1);
      }
      ItemsUnfoldAlike(h, v, h', r, d);
    } else {
      NoItems(h, v, h', r, d);
    }
  }

  lemma NoItems(h: Heap, v: Value, h': Heap, r: Value, d: nat)
    requires v.Slice? && v.window.Some? && r.Slice? && r.window.Some?
    requires !(d > 0 && WindowOk(h, v.window.value) && WindowOk(h', r.window.value))
    ensures Unfold(h', r, d) == Unfold(h, v, d) <==> SameKind(h, v, h', r, d)
  {
  }

  lemma ItemsUnfoldAlike(h: Heap, v: Value, h': Heap, r: Value, d: nat)
    requires v.Slice? && v.window.Some? && r.Slice? && r.window.Some? && d > 0
    requires WindowOk(h, v.window.value) && WindowOk(h', r.window.value)
    requires var vs, rs := Items(h, v.window.value), Items(h', r.window.value);
             forall i :: 0 <= i < |vs| && i < |rs| ==>
               (Unfold(h', rs[i], d - 1) == Unfold(h, vs[i], d - 1) <==> SameKind(h, vs[i], h', rs[i], d - 1))
    ensures Unfold(h', r, d) == Unfold(h, v, d) <==> SameKind(h, v, h', r, d)
  {
    var vs, rs := Items(h, v.window.value), Items(h', r.window.value);
    var t, t' := Unfold(h, v, d).ts, Unfold(h', r, d).ts;
    assert |t| == |vs| && |t'| == |rs|;
    assert forall i :: 0 <= i < |vs| ==> t[i] == Unfold(h, vs[i], d - 1);
    assert forall i :: 0 <= i < |rs| ==> t'[i] == Unfold(h', rs[i], d - 1);
  }

  lemma {:induction false} MapsUnfoldAlike(h: Heap, v: Value, h': Heap, r: Value, d: nat)
    requires v.Map? && v.cell.Some? && r.Map? && r.cell.Some?
    ensures Unfold(h', r, d) == Unfold(h, v, d) <==> SameKind(h, v, h', r, d)
    decreases d, v, 0
  {
    hide Unfold, SameKind;
    var a, b := v.cell.value, r.cell.value;
    if d > 0 && MapOk(h, a) && MapOk(h', b) {
      var m, n := h.cells[a].entries, h'.cells[b].entries;
      forall k | k in m && k in n
        ensures Unfold(h', n[k], d - 1) == Unfold(h, m[k], d - 1) <==> SameKind(h, m[k], h', n[k], d - 1)
      {
        UnfoldsAlikeIffSameKind(h, m[k], h', n[k], d - 1);
      }
      EntriesUnfoldAlike(h, v, h', r, d);
    } else {
      NoEntries(h, v, h', r, d);
    }
  }

  lemma NoEntries(h: Heap, v: Value, h': Heap, r: Value, d: nat)
    requires v.Map? && v.cell.Some? && r.Map? && r.cell.Some?
    requires !(d > 0 && MapOk(h, v.cell.value) && MapOk(h', r.cell.value))
    ensures Unfold(h', r, d) == Unfold(h, v, d) <==> SameKind(h, v, h', r, d)
  {
  }

  lemma EntriesUnfoldAlike(h: Heap, v: Value, h': Heap, r: Value, d: nat)
    requires v.Map? && v.cell.Some? && r.Map? && r.cell.Some? && d > 0 && MapOk(h, v.cell.value) && MapOk(h', r.cell.value)
    requires var m, n := h.cells[v.cell.value].entries, h'.cells[r.cell.value].entries;
             forall k :: k in m && k in n ==>
               (Unfold(h', n[k], d - 1) == Unfold(h, m[k], d - 1) <==> SameKind(h, m[k], h', n[k], d - 1))
    ensures Unfold(h', r, d) == Unfold(h, v, d) <==> SameKind(h, v, h', r, d)
  {
    var m, n := h.cells[v.cell.value].entries, h'.cells[r.cell.value].entries;
    var t, t' := Unfold(h, v, d).ts', Unfold(h', r, d).ts';
    assert t.Keys == m.Keys && t'.Keys == n.Keys;
    assert forall k :: k in m ==> t[k] == Unfold(h, m[k], d - 1);
    assert forall k :: k in n ==> t'[k] == Unfold(h', n[k], d - 1);
  }

  lemma {:induction false} ArraysUnfoldAlike(h: Heap, v: Value, h': Heap, r: Value, d: nat)
    requires v.Array? && r.Array?
    ensures Unfold(h', r, d) == Unfold(h, v, d) <==> SameKind(h, v, h', r, d)
    decreases d, v, 0
  {
    var vs, rs := v.elems, r.elems;
    assert |Unfold(h, v, d).ts| == |vs| && |Unfold(h', r, d).ts| == |rs|;
    if |vs| != |rs| { return; }
    forall i | 0 <= i < |vs|
      ensures Unfold(h', rs[i], d) == Unfold(h, vs[i], d) <==> SameKind(h, vs[i], h', rs[i], d)
    {
      UnfoldsAlikeIffSameKind(h, vs[i], h', rs[i], d);
    }
    var t, t' := Unfold(h, v, d).ts, Unfold(h', r, d).ts;
    assert forall i :: 0 <= i < |vs| ==> t[i] == Unfold(h, vs[i], d) && t'[i] == Unfold(h', rs[i], d);
  }

  lemma {:induction false} StructsUnfoldAlike(h: Heap, v: Value, h': Heap, r: Value, d: nat)
    requires v.Struct? && r.Struct?
    ensures Unfold(h', r, d) == Unfold(h, v, d) <==> SameKind(h, v, h', r, d)
    decreases d, v, 0
  {
    var vs, rs := v.fields, r.fields;
    assert |Unfold(h, v, d).ts| == |vs| && |Unfold(h', r, d).ts| == |rs|;
    if |vs| != |rs| { return; }
    forall i | 0 <= i < |vs|
      ensures Unfold(h', rs[i].value, d) == Unfold(h, vs[i].value, d) <==> SameKind(h, vs[i].value, h', rs[i].value, d)
    {
      UnfoldsAlikeIffSameKind(h, vs[i].value, h', rs[i].value, d);
    }
    assert forall i :: 0 <= i < |vs| ==> Exported(vs)[i] == vs[i].exported && Exported(rs)[i] == rs[i].exported;
    var t, t' := Unfold(h, v, d).ts, Unfold(h', r, d).ts;
    assert forall i :: 0 <= i < |vs| ==> t[i] == Unfold(h, vs[i].value, d) && t'[i] == Unfold(h', rs[i].value, d);
  }

  // ---- Nothing is shared within a copy ----

  /** No cell but an old one is reached from both values. */
  ghost predicate Apart(old_: set<Addr>, h: Heap, v: Value, w: Value, d: nat) {
    forall a :: Reaches(h, v, a, d) && Reaches(h, w, a, d) ==> a in old_
  }

  ghost predicate AllApart(old_: set<Addr>, h: Heap, vs: seq<Value>, d: nat) {
    forall i, j :: 0 <= i < j < |vs| ==> Apart(old_, h, vs[i], vs[j], d)
  }

  ghost predicate EntriesApart(old_: set<Addr>, h: Heap, m: map<Value, Value>, d: nat) {
    forall k, l :: k in m && l in m && k != l ==> Apart(old_, h, m[k], m[l], d)
  }

  /** Within `d` references, there is one way only to each cell that is not an old one. */
  ghost predicate Unshared(old_: set<Addr>, h: Heap, v: Value, d: nat)
    decreases d, v
  {
    match v
    case Interface(Some(w)) => Unshared(old_, h, w, d)
    case Ptr(Some(b)) =>
      b in old_ || (d > 0 && PtrOk(h, b) ==>
                      Unshared(old_, h, h.cells[b].value, d - 1) && !Reaches(h, h.cells[b].value, b, d - 1))
    case Slice(_, Some(w)) =>
      w.addr in old_ || (d > 0 && WindowOk(h, w) ==>
                           && AllApart(old_, h, Items(h, w), d - 1)
                           && forall i :: 0 <= i < w.len ==>
                                Unshared(old_, h, Items(h, w)[i], d - 1) && !Reaches(h, Items(h, w)[i], w.addr, d - 1))
    case Map(Some(b)) =>
      b in old_ || (d > 0 && MapOk(h, b) ==>
                      var m := h.cells[b].entries;
                      && (forall k :: k in m ==> Unshared(old_, h, m[k], d - 1) && !Reaches(h, m[k], b, d - 1))
                      && EntriesApart(old_, h, m, d - 1))
    case Array(elems) =>
      AllApart(old_, h, elems, d) && forall i :: 0 <= i < |elems| ==> Unshared(old_, h, elems[i], d)
    case Struct(fields) =>
      AllApart(old_, h, Values(fields), d) && forall i :: 0 <= i < |fields| ==> Unshared(old_, h, fields[i].value, d)
    case _ => true
  }

  lemma ApartFrame(old_: set<Addr>, h: Heap, h': Heap, v: Value, w: Value, d: nat)
    requires Extends(h, h') && Sound(h) && Inside(h, v) && Inside(h, w)
    ensures Apart(old_, h', v, w, d) == Apart(old_, h, v, w, d)
  {
    hide Reaches, Sound, Inside, Extends;
    forall a ensures Reaches(h', v, a, d) == Reaches(h, v, a, d) && Reaches(h', w, a, d) == Reaches(h, w, a, d) {
      ReachFrame(h, h', v, a, d);
      ReachFrame(h, h', w, a, d);
    }
  }

  lemma AllApartFrame(old_: set<Addr>, h: Heap, h': Heap, vs: seq<Value>, d: nat)
    requires Extends(h, h') && Sound(h) && forall i :: 0 <= i < |vs| ==> Inside(h, vs[i])
    ensures AllApart(old_, h', vs, d) == AllApart(old_, h, vs, d)
  {
    hide Apart, Sound, Inside, Extends;
    forall i, j | 0 <= i < j < |vs| ensures Apart(old_, h', vs[i], vs[j], d) == Apart(old_, h, vs[i], vs[j], d) {
      ApartFrame(old_, h, h', vs[i], vs[j], d);
    }
  }

  lemma {:induction false} UnsharedFrame(old_: set<Addr>, h: Heap, h': Heap, v: Value, d: nat)
    requires Extends(h, h') && Sound(h) && Inside(h, v)
    ensures Unshared(old_, h', v, d) == Unshared(old_, h, v, d)
    decreases d, v, 1
  {
    hide Reaches, AllApart, Apart;
    match v
    case Interface(Some(w)) => UnsharedFrame(old_, h, h', w, d);
    case Ptr(Some(b)) =>
      if d > 0 && PtrOk(h, b) {
        UnsharedFrame(old_, h, h', h.cells[b].value, d - 1);
        ReachFrame(h, h', h.cells[b].value, b, d - 1);
      }
    case Slice(_, Some(w)) => if d > 0 && WindowOk(h, w) { SliceUnsharedFrame(old_, h, h', v, d); }
    case Map(Some(b)) => if d > 0 && MapOk(h, b) { MapUnsharedFrame(old_, h, h', v, d); }
    case Array(elems) => ListUnsharedFrame(old_, h, h', v, elems, d);
    case Struct(fields) => ListUnsharedFrame(old_, h, h', v, Values(fields), d);
    case _ =>
  }

  lemma {:induction false} SliceUnsharedFrame(old_: set<Addr>, h: Heap, h': Heap, v: Value, d: nat)
    requires Extends(h, h') && Sound(h) && Inside(h, v) && v.Slice? && v.window.Some? && WindowOk(h, v.window.value) && d > 0
    ensures Unshared(old_, h', v, d) == Unshared(old_, h, v, d)
    decreases d, v, 0
  {
    hide Reaches, AllApart, Apart;
    var w := v.window.value;
    var vs := Items(h, w);
    assert Items(h', w) == vs;
    forall i | 0 <= i < w.len
      ensures Unshared(old_, h', vs[i], d - 1) == Unshared(old_, h, vs[i], d - 1)
      ensures Reaches(h', vs[i], w.addr, d - 1) == Reaches(h, vs[i], w.addr, d - 1)
    {
      UnsharedFrame(old_, h, h', vs[i], d - 1);
      ReachFrame(h, h', vs[i], w.addr, d - 1);
    }
    AllApartFrame(old_, h, h', vs, d - 1);
  }

  lemma {:induction false} MapUnsharedFrame(old_: set<Addr>, h: Heap, h': Heap, v: Value, d: nat)
    requires Extends(h, h') && Sound(h) && Inside(h, v) && v.Map? && v.cell.Some? && MapOk(h, v.cell.value) && d > 0
    ensures Unshared(old_, h', v, d) == Unshared(old_, h, v, d)
    decreases d, v, 0
  {
    hide Reaches, AllApart, Apart;
    var b := v.cell.value;
    var m := h.cells[b].entries;
    forall k | k in m
      ensures Unshared(old_, h', m[k], d - 1) == Unshared(old_, h, m[k], d - 1)
      ensures Reaches(h', m[k], b, d - 1) == Reaches(h, m[k], b, d - 1)
    {
      UnsharedFrame(old_, h, h', m[k], d - 1);
      ReachFrame(h, h', m[k], b, d - 1);
    }
    forall k, l | k in m && l in m ensures Apart(old_, h', m[k], m[l], d - 1) == Apart(old_, h, m[k], m[l], d - 1) {
      ApartFrame(old_, h, h', m[k], m[l], d - 1);
    }
  }

  /** The parts of an array or a struct. */
  predicate IsListOf(v: Value, vs: seq<Value>) { (v.Array? && v.elems == vs) || (v.Struct? && Values(v.fields) == vs) }

  lemma {:induction false} ListUnsharedFrame(old_: set<Addr>, h: Heap, h': Heap, v: Value, vs: seq<Value>, d: nat)
    requires Extends(h, h') && Sound(h) && Inside(h, v) && IsListOf(v, vs)
    ensures Unshared(old_, h', v, d) == Unshared(old_, h, v, d)
    decreases d, v, 0
  {
    hide Reaches, AllApart, Apart, Sound, Extends;
    forall i | 0 <= i < |vs| ensures Inside(h, vs[i]) && Unshared(old_, h', vs[i], d) == Unshared(old_, h, vs[i], d) {
      if v.Array? { assert vs[i] == v.elems[i]; } else { assert vs[i] == v.fields[i].value; }
      UnsharedFrame(old_, h, h', vs[i], d);
    }
    AllApartFrame(old_, h, h', vs, d);
    if v.Struct? { assert forall i :: 0 <= i < |v.fields| ==> v.fields[i].value == vs[i]; }
  }

  /** A set of old cells may be made smaller by cells that are not reached. */
  lemma {:induction false} UnsharedNarrow(old_: set<Addr>, fewer: set<Addr>, h: Heap, v: Value, d: nat)
    requires Unshared(old_, h, v, d) && forall a :: a in old_ && Reaches(h, v, a, d) ==> a in fewer
    ensures Unshared(fewer, h, v, d)
    decreases d, v, 1
  {
    hide AllApart, Apart;
    match v
    case Interface(Some(w)) => UnsharedNarrow(old_, fewer, h, w, d);
    case Ptr(Some(b)) =>
      if b !in fewer && d > 0 && PtrOk(h, b) {
        assert Reaches(h, v, b, d);
        UnsharedNarrow(old_, fewer, h, h.cells[b].value, d - 1);
      }
    case Slice(_, Some(w)) => SliceUnsharedNarrow(old_, fewer, h, v, d);
    case Map(Some(b)) => MapUnsharedNarrow(old_, fewer, h, v, d);
    case Array(elems) => ListUnsharedNarrow(old_, fewer, h, v, elems, d);
    case Struct(fields) => ListUnsharedNarrow(old_, fewer, h, v, Values(fields), d);
    case _ =>
  }

  lemma ApartNarrow(old_: set<Addr>, fewer: set<Addr>, h: Heap, v: Value, w: Value, d: nat)
    requires Apart(old_, h, v, w, d) && forall a :: a in old_ && Reaches(h, v, a, d) ==> a in fewer
    ensures Apart(fewer, h, v, w, d)
  {
    hide Reaches;
  }

  lemma {:induction false} SliceUnsharedNarrow(old_: set<Addr>, fewer: set<Addr>, h: Heap, v: Value, d: nat)
    requires Unshared(old_, h, v, d) && v.Slice? && v.window.Some?
    requires forall a :: a in old_ && Reaches(h, v, a, d) ==> a in fewer
    ensures Unshared(fewer, h, v, d)
    decreases d, v, 0
  {
    hide Apart;
    var w := v.window.value;
    if w.addr !in fewer && d > 0 && WindowOk(h, w) {
      assert Reaches(h, v, w.addr, d);
      var vs := Items(h, w);
      forall i | 0 <= i < w.len
        ensures Unshared(fewer, h, vs[i], d - 1) && forall a :: a in old_ && Reaches(h, vs[i], a, d - 1) ==> a in fewer
      {
        UnsharedNarrow(old_, fewer, h, vs[i], d - 1);
      }
      forall i, j | 0 <= i < j < w.len ensures Apart(fewer, h, vs[i], vs[j], d - 1) {
        ApartNarrow(old_, fewer, h, vs[i], vs[j], d - 1);
      }
    }
  }

  lemma {:induction false} MapUnsharedNarrow(old_: set<Addr>, fewer: set<Addr>, h: Heap, v: Value, d: nat)
    requires Unshared(old_, h, v, d) && v.Map? && v.cell.Some?
    requires forall a :: a in old_ && Reaches(h, v, a, d) ==> a in fewer
    ensures Unshared(fewer, h, v, d)
    decreases d, v, 0
  {
    hide Apart;
    var b := v.cell.value;
    if b !in fewer && d > 0 && MapOk(h, b) {
      assert Reaches(h, v, b, d);
      var m := h.cells[b].entries;
      forall k | k in m
        ensures Unshared(fewer, h, m[k], d - 1) && forall a :: a in old_ && Reaches(h, m[k], a, d - 1) ==> a in fewer
      {
        UnsharedNarrow(old_, fewer, h, m[k], d - 1);
      }
      forall k, l | k in m && l in m && k != l ensures Apart(fewer, h, m[k], m[l], d - 1) {
        ApartNarrow(old_, fewer, h, m[k], m[l], d - 1);
      }
    }
  }

  lemma {:induction false} ListUnsharedNarrow(old_: set<Addr>, fewer: set<Addr>, h: Heap, v: Value, vs: seq<Value>, d: nat)
    requires Unshared(old_, h, v, d) && IsListOf(v, vs)
    requires forall a :: a in old_ && Reaches(h, v, a, d) ==> a in fewer
    ensures Unshared(fewer, h, v, d)
    decreases d, v, 0
  {
    hide Apart;
    forall i | 0 <= i < |vs|
      ensures Unshared(fewer, h, vs[i], d) && forall a :: a in old_ && Reaches(h, vs[i], a, d) ==> a in fewer
    {
      if v.Array? { assert vs[i] == v.elems[i]; } else { assert vs[i] == v.fields[i].value; }
      UnsharedNarrow(old_, fewer, h, vs[i], d);
    }
    forall i, j | 0 <= i < j < |vs| ensures Apart(fewer, h, vs[i], vs[j], d) {
      ApartNarrow(old_, fewer, h, vs[i], vs[j], d);
    }
    if v.Struct? { assert forall i :: 0 <= i < |v.fields| ==> v.fields[i].value == vs[i]; }
  }

  /** A value of the old heap shares nothing else. */
  lemma {:induction false} OldIsUnshared(h: Heap, h': Heap, v: Value, d: nat)
    requires Sound(h) && Extends(h, h') && Inside(h, v)
    ensures Unshared(h.cells.Keys, h', v, d)
    decreases d, v, 1
  {
    hide Reaches, Apart;
    match v
    case Interface(Some(w)) => OldIsUnshared(h, h', w, d);
    case Array(elems) => OldListIsUnshared(h, h', v, elems, d);
    case Struct(fields) => OldListIsUnshared(h, h', v, Values(fields), d);
    case _ =>
  }

  lemma {:induction false} OldListIsUnshared(h: Heap, h': Heap, v: Value, vs: seq<Value>, d: nat)
    requires Sound(h) && Extends(h, h') && Inside(h, v) && IsListOf(v, vs)
    ensures Unshared(h.cells.Keys, h', v, d)
    decreases d, v, 0
  {
    hide Reaches, Sound, Extends;
    forall i | 0 <= i < |vs| ensures Inside(h, vs[i]) && Unshared(h.cells.Keys, h', vs[i], d) {
      if v.Array? { assert vs[i] == v.elems[i]; } else { assert vs[i] == v.fields[i].value; }
      OldIsUnshared(h, h', vs[i], d);
    }
    forall i, j | 0 <= i < j < |vs| ensures Apart(h.cells.Keys, h', vs[i], vs[j], d) {
      forall a | Reaches(h', vs[i], a, d) ensures a in h.cells { ReachFrame(h, h', vs[i], a, d); }
    }
    if v.Struct? { assert forall i :: 0 <= i < |v.fields| ==> v.fields[i].value == vs[i]; }
  }

  // ---- Copies ----

  /** `r` in `h'` unfolds like `v` in `h`, of the cells of `h` it reaches exactly those leaked, and each new cell in one
      way only. */
  ghost predicate IsCopy(h: Heap, v: Value, h': Heap, r: Value) {
    && Inside(h', r)
    && (forall d: nat :: Unfold(h', r, d) == Unfold(h, v, d))
    && (forall a, d: nat :: Leaks(h, v, a, d) == (a in h.cells && Reaches(h', r, a, d)))
    && (forall d: nat :: Unshared(h.cells.Keys, h', r, d))
  }

  ghost predicate AreCopies(h: Heap, vs: seq<Value>, h': Heap, rs: seq<Value>) {
    && |rs| == |vs| && (forall i :: 0 <= i < |vs| ==> IsCopy(h, vs[i], h', rs[i]))
    && (forall d: nat :: AllApart(h.cells.Keys, h', rs, d))
  }

  lemma ExtendsKeepsCells(h: Heap, h': Heap)
    requires Extends(h, h')
    ensures forall a :: a in h.cells ==> a in h'.cells
  {
  }

  /** A copy made between two heaps is a copy between an earlier and a later one. */
  lemma WidenCopy(h0: Heap, h1: Heap, v: Value, h2: Heap, r: Value, h3: Heap)
    requires Sound(h0) && Sound(h1) && Sound(h2) && Extends(h0, h1) && Extends(h1, h2) && Extends(h2, h3)
    requires Inside(h0, v) && IsCopy(h1, v, h2, r)
    ensures IsCopy(h0, v, h3, r)
  {
    hide Unfold, Reaches, Leaks, Sound, Inside, Extends, Unshared;
    InsideExtension(h2, h3, r);
    assert forall a :: a in h0.cells ==> a in h1.cells by { ExtendsKeepsCells(h0, h1); }
    forall d: nat ensures Unshared(h0.cells.Keys, h3, r, d) { WidenUnshared(h0, h1, v, h2, r, h3, d); }
    forall d: nat ensures Unfold(h3, r, d) == Unfold(h0, v, d) {
      UnfoldFrame(h0, h1, v, d);
      UnfoldFrame(h2, h3, r, d);
    }
    forall a, d: nat ensures Leaks(h0, v, a, d) == (a in h0.cells && Reaches(h3, r, a, d)) {
      LeakFrame(h0, h1, v, a, d);
      ReachFrame(h0, h1, v, a, d);
      ReachFrame(h2, h3, r, a, d);
    }
  }

  /** Of the cells that were there, a copy of an older value reaches older ones only. */
  lemma CopyReachesOld(h0: Heap, h1: Heap, v: Value, h2: Heap, r: Value, a: Addr, d: nat)
    requires Sound(h0) && Sound(h1) && Extends(h0, h1) && Inside(h0, v) && IsCopy(h1, v, h2, r)
    requires a in h1.cells && Reaches(h2, r, a, d)
    ensures a in h0.cells
  {
    hide Unfold, Reaches, Leaks, Sound, Inside, Extends, Unshared;
    assert Leaks(h1, v, a, d);
    LeakFrame(h0, h1, v, a, d);
    ReachFrame(h0, h1, v, a, d);
  }

  lemma WidenUnshared(h0: Heap, h1: Heap, v: Value, h2: Heap, r: Value, h3: Heap, d: nat)
    requires Sound(h0) && Sound(h1) && Sound(h2) && Extends(h0, h1) && Extends(h2, h3)
    requires Inside(h0, v) && IsCopy(h1, v, h2, r)
    ensures Unshared(h0.cells.Keys, h3, r, d)
  {
    hide Unfold, Reaches, Leaks, Sound, Inside, Extends, Unshared;
    UnsharedFrame(h1.cells.Keys, h2, h3, r, d);
    forall a | a in h1.cells.Keys && Reaches(h3, r, a, d) ensures a in h0.cells.Keys {
      ReachFrame(h2, h3, r, a, d);
      CopyReachesOld(h0, h1, v, h2, r, a, d);
    }
    UnsharedNarrow(h1.cells.Keys, h0.cells.Keys, h3, r, d);
  }

  /** What is copied later shares nothing new with what was there before. */
  lemma LaterCopyIsApart(h0: Heap, h1: Heap, earlier: Value, v: Value, h2: Heap, r: Value, d: nat)
    requires Sound(h0) && Sound(h1) && Extends(h0, h1) && Extends(h1, h2)
    requires Inside(h1, earlier) && Inside(h0, v) && IsCopy(h1, v, h2, r)
    ensures Apart(h0.cells.Keys, h2, earlier, r, d) && Apart(h0.cells.Keys, h2, r, earlier, d)
  {
    hide Unfold, Reaches, Leaks, Sound, Inside, Extends, Unshared, IsCopy;
    forall a | Reaches(h2, earlier, a, d) && Reaches(h2, r, a, d) ensures a in h0.cells.Keys {
      ReachFrame(h1, h2, earlier, a, d);
      CopyReachesOld(h0, h1, v, h2, r, a, d);
    }
  }

  /** A value all of whose references leak is its own copy. */
  lemma SelfCopy(h: Heap, v: Value, h': Heap)
    requires Sound(h) && Extends(h, h') && Inside(h, v)
    requires forall a, d: nat :: Reaches(h, v, a, d) ==> Leaks(h, v, a, d)
    ensures IsCopy(h, v, h', v)
  {
    hide Unfold, Reaches, Leaks, Sound, Inside, Unshared;
    InsideExtension(h, h', v);
    forall d: nat ensures Unfold(h', v, d) == Unfold(h, v, d) { UnfoldFrame(h, h', v, d); }
    forall d: nat ensures Unshared(h.cells.Keys, h', v, d) { OldIsUnshared(h, h', v, d); }
    forall a, d: nat ensures Leaks(h, v, a, d) == (a in h.cells && Reaches(h', v, a, d)) {
      LeakFrame(h, h', v, a, d);
      ReachFrame(h, h', v, a, d);
    }
  }

  function Alloc(h: Heap, c: Cell): Heap {
    Heap(h.cells[h.next := c], h.next + 1)
  }

  lemma AllocExtends(h: Heap, c: Cell)
    requires Sound(h) && CellInside(h, c)
    ensures Sound(Alloc(h, c)) && Extends(h, Alloc(h, c)) && h.next !in h.cells
  {
    var h' := Alloc(h, c);
    forall a | a in h'.cells ensures CellInside(h', h'.cells[a]) { CellInsideExtension(h, h', h'.cells[a]); }
  }

  lemma CellInsideExtension(h: Heap, h': Heap, c: Cell)
    requires Extends(h, h') && CellInside(h, c)
    ensures CellInside(h', c)
  {
    match c
    case Pointee(v) => InsideExtension(h, h', v);
    case Backing(items) =>
      forall i | 0 <= i < |items| ensures Inside(h', items[i]) { InsideExtension(h, h', items[i]); }
    case Table(entries) =>
      forall k | k in entries ensures Inside(h', k) && Inside(h', entries[k]) {
        InsideExtension(h, h', k);
        InsideExtension(h, h', entries[k]);
      }
  }

  lemma PtrCopy(h: Heap, a: Addr, h1: Heap, r: Value)
    requires Sound(h) && Sound(h1) && Extends(h, h1) && PtrOk(h, a) && IsCopy(h, h.cells[a].value, h1, r)
    ensures IsCopy(h, Ptr(Some(a)), Alloc(h1, Pointee(r)), Ptr(Some(h1.next)))
  {
    hide Unfold, Reaches, Leaks, Sound, Extends, Unshared, IsCopy;
    var h2, v, p := Alloc(h1, Pointee(r)), Ptr(Some(a)), Ptr(Some(h1.next));
    CopiesAreInside(h, h.cells[a].value, h1, r);
    AllocExtends(h1, Pointee(r));
    FreshCell(h, h1);
    forall d: nat ensures Unfold(h2, p, d) == Unfold(h, v, d) { PtrUnfolds(h, a, h1, r, d); }
    forall d: nat ensures Unshared(h.cells.Keys, h2, p, d) { PtrUnshared(h.cells.Keys, h, h.cells[a].value, h1, r, d); }
    forall b, d: nat ensures Leaks(h, v, b, d) == (b in h.cells && Reaches(h2, p, b, d)) { PtrLeaks(h, a, h1, r, b, d); }
    assert Inside(h2, p);
    MakeCopy(h, v, h2, p);
  }

  lemma MakeCopy(h: Heap, v: Value, h': Heap, r: Value)
    requires Inside(h', r) && forall d: nat :: Unfold(h', r, d) == Unfold(h, v, d)
    requires forall a, d: nat :: Leaks(h, v, a, d) == (a in h.cells && Reaches(h', r, a, d))
    requires forall d: nat :: Unshared(h.cells.Keys, h', r, d)
    ensures IsCopy(h, v, h', r)
  {
    hide Unfold, Reaches, Leaks, Unshared, Inside;
  }

  lemma PtrUnfolds(h: Heap, a: Addr, h1: Heap, r: Value, d: nat)
    requires Sound(h1) && PtrOk(h, a) && IsCopy(h, h.cells[a].value, h1, r)
    ensures Unfold(Alloc(h1, Pointee(r)), Ptr(Some(h1.next)), d) == Unfold(h, Ptr(Some(a)), d)
  {
    hide IsCopy, Sound;
    if d > 0 {
      CopyUnfolds(h, h.cells[a].value, h1, r, d - 1);
      AllocExtends(h1, Pointee(r));
      UnfoldFrame(h1, Alloc(h1, Pointee(r)), r, d - 1);
    }
  }

  lemma PtrLeaks(h: Heap, a: Addr, h1: Heap, r: Value, b: Addr, d: nat)
    requires Sound(h1) && PtrOk(h, a) && h1.next !in h.cells && IsCopy(h, h.cells[a].value, h1, r)
    ensures Leaks(h, Ptr(Some(a)), b, d) == (b in h.cells && Reaches(Alloc(h1, Pointee(r)), Ptr(Some(h1.next)), b, d))
  {
    hide Sound, Unfold, Unshared;
    if d > 0 {
      AllocExtends(h1, Pointee(r));
      ReachFrame(h1, Alloc(h1, Pointee(r)), r, b, d - 1);
    }
  }

  lemma PtrUnshared(old_: set<Addr>, h: Heap, v: Value, h1: Heap, r: Value, d: nat)
    requires Sound(h1) && IsCopy(h, v, h1, r) && old_ == h.cells.Keys
    ensures Unshared(old_, Alloc(h1, Pointee(r)), Ptr(Some(h1.next)), d)
  {
    hide Reaches, Unfold, Leaks;
    if d > 0 {
      var h2 := Alloc(h1, Pointee(r));
      AllocExtends(h1, Pointee(r));
      UnsharedFrame(old_, h1, h2, r, d - 1);
      ReachFrame(h1, h2, r, h1.next, d - 1);
    }
  }

  lemma SliceUnshared(old_: set<Addr>, bytes: bool, h1: Heap, h2: Heap, w: Window, d: nat)
    requires Sound(h1) && Extends(h1, h2) && WindowOk(h2, w) && w.addr !in h1.cells
    requires forall i :: 0 <= i < w.len ==> Inside(h1, Items(h2, w)[i])
    requires d > 0 ==> AllApart(old_, h1, Items(h2, w), d - 1)
    requires d > 0 ==> forall i :: 0 <= i < w.len ==> Unshared(old_, h1, Items(h2, w)[i], d - 1)
    ensures Unshared(old_, h2, Slice(bytes, Some(w)), d)
  {
    hide Reaches, Sound, Extends, AllApart;
    if d > 0 {
      var vs := Items(h2, w);
      AllApartFrame(old_, h1, h2, vs, d - 1);
      forall i | 0 <= i < w.len ensures Unshared(old_, h2, vs[i], d - 1) && !Reaches(h2, vs[i], w.addr, d - 1) {
        UnsharedFrame(old_, h1, h2, vs[i], d - 1);
        ReachFrame(h1, h2, vs[i], w.addr, d - 1);
      }
    }
  }

  lemma MapUnshared(old_: set<Addr>, h1: Heap, h2: Heap, b: Addr, d: nat)
    requires Sound(h1) && Extends(h1, h2) && MapOk(h2, b) && b !in h1.cells
    requires forall k :: k in h2.cells[b].entries ==> Inside(h1, h2.cells[b].entries[k])
    requires d > 0 ==> var m := h2.cells[b].entries;
               EntriesApart(old_, h1, m, d - 1) && forall k :: k in m ==> Unshared(old_, h1, m[k], d - 1)
    ensures Unshared(old_, h2, Map(Some(b)), d)
  {
    hide Reaches, Sound, Extends, Apart;
    if d > 0 {
      var m := h2.cells[b].entries;
      forall k | k in m ensures Unshared(old_, h2, m[k], d - 1) && !Reaches(h2, m[k], b, d - 1) {
        UnsharedFrame(old_, h1, h2, m[k], d - 1);
        ReachFrame(h1, h2, m[k], b, d - 1);
      }
      forall k, l | k in m && l in m && k != l ensures Apart(old_, h2, m[k], m[l], d - 1) {
        ApartFrame(old_, h1, h2, m[k], m[l], d - 1);
      }
    }
  }

  lemma SliceCopy(h: Heap, bytes: bool, w: Window, h1: Heap, rs: seq<Value>)
    requires Sound(h) && Sound(h1) && Extends(h, h1) && WindowOk(h, w) && AreCopies(h, Items(h, w), h1, rs)
    ensures IsCopy(h, Slice(bytes, Some(w)), Alloc(h1, Backing(rs)), Slice(bytes, Some(Window(h1.next, 0, |rs|))))
  {
    var h2, v := Alloc(h1, Backing(rs)), Slice(bytes, Some(w));
    var w2 := Window(h1.next, 0, |rs|);
    var r := Slice(bytes, Some(w2));
    AllocExtends(h1, Backing(rs));
    assert WindowOk(h2, w2) && Items(h2, w2) == rs;
    FreshCell(h, h1);
    FreshCell(h1, h1);
    hide Unfold, Reaches, Leaks, Sound, Extends, AreCopies, Unshared, AllApart;
    forall d: nat ensures Unshared(h.cells.Keys, h2, r, d) {
      SliceUnshared(h.cells.Keys, bytes, h1, h2, w2, d);
    }
    forall d: nat ensures Unfold(h2, r, d) == Unfold(h, v, d) {
      SliceUnfolds(h, bytes, w, h1, h2, w2, d);
    }
    forall b, d: nat ensures Leaks(h, v, b, d) == (b in h.cells && Reaches(h2, r, b, d)) {
      SliceLeaks(h, bytes, w, h1, h2, w2, b, d);
    }
  }

  /** The window `w2` of `h2` was filled in `h1` with copies of the items of the window `w`. */
  ghost predicate Recopied(h: Heap, w: Window, h1: Heap, h2: Heap, w2: Window) {
    && Sound(h1) && Extends(h1, h2) && WindowOk(h, w) && WindowOk(h2, w2)
    && AreCopies(h, Items(h, w), h1, Items(h2, w2))
  }

  lemma SliceUnfolds(h: Heap, bytes: bool, w: Window, h1: Heap, h2: Heap, w2: Window, d: nat)
    requires Recopied(h, w, h1, h2, w2)
    ensures Unfold(h2, Slice(bytes, Some(w2)), d) == Unfold(h, Slice(bytes, Some(w)), d)
  {
    hide IsCopy, Sound, Extends, Items;
    if d > 0 {
      var vs, rs := Items(h, w), Items(h2, w2);
      forall i | 0 <= i < |rs| ensures Unfold(h2, rs[i], d - 1) == Unfold(h, vs[i], d - 1) {
        CopyUnfolds(h, vs[i], h1, rs[i], d - 1);
        UnfoldFrame(h1, h2, rs[i], d - 1);
      }
    }
  }

  lemma SliceLeaks(h: Heap, bytes: bool, w: Window, h1: Heap, h2: Heap, w2: Window, b: Addr, d: nat)
    requires Recopied(h, w, h1, h2, w2) && w2.addr !in h.cells
    ensures Leaks(h, Slice(bytes, Some(w)), b, d) == (b in h.cells && Reaches(h2, Slice(bytes, Some(w2)), b, d))
  {
    hide Unfold, Sound, Extends, Items, Inside;
    if d > 0 {
      var vs, rs := Items(h, w), Items(h2, w2);
      forall i | 0 <= i < |rs| ensures Leaks(h, vs[i], b, d - 1) == (b in h.cells && Reaches(h2, rs[i], b, d - 1)) {
        ReachFrame(h1, h2, rs[i], b, d - 1);
      }
    }
  }

  lemma CopyUnfolds(h: Heap, v: Value, h': Heap, r: Value, d: nat)
    requires IsCopy(h, v, h', r)
    ensures Inside(h', r) && Unfold(h', r, d) == Unfold(h, v, d)
  {
  }

  lemma MapCopy(h: Heap, a: Addr, h1: Heap, entries: map<Value, Value>)
    requires Sound(h) && Sound(h1) && Extends(h, h1) && MapOk(h, a) && entries.Keys == h.cells[a].entries.Keys
    requires forall k :: k in entries ==> Inside(h1, k) && IsCopy(h, h.cells[a].entries[k], h1, entries[k])
    requires forall d: nat :: EntriesApart(h.cells.Keys, h1, entries, d)
    ensures IsCopy(h, Map(Some(a)), Alloc(h1, Table(entries)), Map(Some(h1.next)))
  {
    hide Unfold, Reaches, Leaks, Sound, Extends, Unshared, Apart, EntriesApart, IsCopy;
    var h2 := Alloc(h1, Table(entries));
    forall k | k in entries ensures Inside(h1, entries[k]) { CopiesAreInside(h, h.cells[a].entries[k], h1, entries[k]); }
    AllocExtends(h1, Table(entries));
    FreshCell(h1, h1);
    forall d: nat ensures Unshared(h.cells.Keys, h2, Map(Some(h1.next)), d) {
      if d > 0 {
        forall k | k in entries ensures Unshared(h.cells.Keys, h1, entries[k], d - 1) {
          CopyIsUnshared(h, h.cells[a].entries[k], h1, entries[k], d - 1);
        }
      }
      MapUnshared(h.cells.Keys, h1, h2, h1.next, d);
    }
    assert Refilled(h, a, h1, h2, h1.next) by { FreshCell(h, h1); KeysInside(h, a); }
    forall d: nat ensures Unfold(h2, Map(Some(h1.next)), d) == Unfold(h, Map(Some(a)), d) {
      MapUnfolds(h, a, h1, h2, h1.next, d);
    }
    forall b, d: nat ensures Leaks(h, Map(Some(a)), b, d) == (b in h.cells && Reaches(h2, Map(Some(h1.next)), b, d)) {
      MapLeaks(h, a, h1, h2, h1.next, b, d);
    }
    assert Inside(h2, Map(Some(h1.next)));
    MakeCopy(h, Map(Some(a)), h2, Map(Some(h1.next)));
  }

  lemma CopyIsUnshared(h: Heap, v: Value, h': Heap, r: Value, d: nat)
    requires IsCopy(h, v, h', r)
    ensures Unshared(h.cells.Keys, h', r, d)
  {
  }

  lemma FreshCell(h: Heap, h1: Heap)
    requires Sound(h1) && (h == h1 || Extends(h, h1))
    ensures h1.next !in h.cells
  {
  }

  lemma KeysInside(h: Heap, a: Addr)
    requires Sound(h) && MapOk(h, a)
    ensures forall k :: k in h.cells[a].entries ==> Inside(h, k)
  {
  }

  /** The table `b` of `h2` was filled in `h1` with copies of the values of the table `a`. */
  ghost predicate Refilled(h: Heap, a: Addr, h1: Heap, h2: Heap, b: Addr) {
    && Sound(h) && Sound(h1) && Extends(h, h1) && Extends(h1, h2) && MapOk(h, a) && MapOk(h2, b) && b !in h.cells
    && h2.cells[b].entries.Keys == h.cells[a].entries.Keys
    && forall k :: k in h.cells[a].entries ==>
         Inside(h, k) && IsCopy(h, h.cells[a].entries[k], h1, h2.cells[b].entries[k])
  }

  lemma MapUnfolds(h: Heap, a: Addr, h1: Heap, h2: Heap, b: Addr, d: nat)
    requires Refilled(h, a, h1, h2, b)
    ensures Unfold(h2, Map(Some(b)), d) == Unfold(h, Map(Some(a)), d)
  {
    hide IsCopy, Sound, Extends, Inside;
    if d > 0 {
      var m, n := h.cells[a].entries, h2.cells[b].entries;
      forall k | k in m ensures Unfold(h2, n[k], d - 1) == Unfold(h, m[k], d - 1) {
        CopyUnfolds(h, m[k], h1, n[k], d - 1);
        UnfoldFrame(h1, h2, n[k], d - 1);
      }
    }
  }

  lemma MapLeaks(h: Heap, a: Addr, h1: Heap, h2: Heap, b: Addr, c: Addr, d: nat)
    requires Refilled(h, a, h1, h2, b)
    ensures Leaks(h, Map(Some(a)), c, d) == (c in h.cells && Reaches(h2, Map(Some(b)), c, d))
  {
    hide IsCopy, Inside, Sound;
    if d > 0 { MapShares(h, h.cells[a].entries, h2, h2.cells[b].entries, h1, c, d - 1); }
  }

  lemma MapShares(h: Heap, m: map<Value, Value>, h2: Heap, entries: map<Value, Value>, h1: Heap, b: Addr, d: nat)
    requires Sound(h) && Sound(h1) && Extends(h, h1) && Extends(h1, h2) && entries.Keys == m.Keys
    requires forall k :: k in m ==> Inside(h, k) && IsCopy(h, m[k], h1, entries[k])
    ensures (exists k :: k in m && Reaches(h, k, b, d)) <==> b in h.cells && exists k :: k in entries && Reaches(h2, k, b, d)
    ensures (exists k :: k in m && Leaks(h, m[k], b, d))
            <==> b in h.cells && exists k :: k in entries && Reaches(h2, entries[k], b, d)
  {
    hide Reaches, Leaks, Unfold, Inside, Sound;
    forall k | k in m
      ensures Reaches(h2, k, b, d) == Reaches(h, k, b, d) && (Reaches(h, k, b, d) ==> b in h.cells)
      ensures Leaks(h, m[k], b, d) == (b in h.cells && Reaches(h2, entries[k], b, d))
    {
      ReachFrame(h, h2, k, b, d);
      ReachFrame(h1, h2, entries[k], b, d);
    }
  }

  lemma InterfaceCopy(h: Heap, v: Value, h': Heap, r: Value)
    requires IsCopy(h, v, h', r)
    ensures IsCopy(h, Interface(Some(v)), h', Interface(Some(r)))
  {
    forall a, d: nat ensures Leaks(h, Interface(Some(v)), a, d) == (a in h.cells && Reaches(h', Interface(Some(r)), a, d)) {
      assert Leaks(h, Interface(Some(v)), a, d) == Leaks(h, v, a, d);
    }
    forall d: nat ensures Unshared(h.cells.Keys, h', Interface(Some(r)), d) {
      assert Unshared(h.cells.Keys, h', r, d);
    }
  }

  lemma ListUnshared(old_: set<Addr>, h: Heap, v: Value, vs: seq<Value>, d: nat)
    requires IsListOf(v, vs) && AllApart(old_, h, vs, d) && forall i :: 0 <= i < |vs| ==> Unshared(old_, h, vs[i], d)
    ensures Unshared(old_, h, v, d)
  {
    hide AllApart;
    if v.Struct? { assert forall i :: 0 <= i < |v.fields| ==> v.fields[i].value == vs[i]; }
  }

  lemma ArrayCopy(h: Heap, vs: seq<Value>, h': Heap, rs: seq<Value>)
    requires AreCopies(h, vs, h', rs)
    ensures IsCopy(h, Array(vs), h', Array(rs))
  {
    hide AllApart, Unshared;
    forall d: nat ensures Unshared(h.cells.Keys, h', Array(rs), d) {
      assert forall i :: 0 <= i < |rs| ==> Unshared(h.cells.Keys, h', rs[i], d);
      ListUnshared(h.cells.Keys, h', Array(rs), rs, d);
    }
    forall a, d: nat ensures Leaks(h, Array(vs), a, d) == (a in h.cells && Reaches(h', Array(rs), a, d)) {
      assert forall i :: 0 <= i < |vs| ==> Leaks(h, vs[i], a, d) == (a in h.cells && Reaches(h', rs[i], a, d));
    }
    forall d: nat ensures Unfold(h', Array(rs), d) == Unfold(h, Array(vs), d) {
      assert forall i :: 0 <= i < |vs| ==> Unfold(h', rs[i], d) == Unfold(h, vs[i], d);
    }
  }

  /** Copied fields, all of them settable. */
  lemma StructCopy(h: Heap, fields: seq<Field>, h': Heap, copied: seq<Field>)
    requires Exported(copied) == Exported(fields) && AllExported(fields)
    requires forall i :: 0 <= i < |fields| ==> IsCopy(h, fields[i].value, h', copied[i].value)
    requires forall d: nat :: AllApart(h.cells.Keys, h', Values(copied), d)
    ensures IsCopy(h, Struct(fields), h', Struct(copied))
  {
    hide AllApart, Unshared;
    forall d: nat ensures Unshared(h.cells.Keys, h', Struct(copied), d) {
      assert forall i :: 0 <= i < |copied| ==> Unshared(h.cells.Keys, h', copied[i].value, d);
      ListUnshared(h.cells.Keys, h', Struct(copied), Values(copied), d);
    }
    forall d: nat ensures Unfold(h', Struct(copied), d) == Unfold(h, Struct(fields), d) {
      assert forall i :: 0 <= i < |fields| ==> Unfold(h', copied[i].value, d) == Unfold(h, fields[i].value, d);
    }
    forall a, d: nat ensures Leaks(h, Struct(fields), a, d) == (a in h.cells && Reaches(h', Struct(copied), a, d)) {
      assert forall i :: 0 <= i < |fields| ==>
          Leaks(h, fields[i].value, a, d) == (a in h.cells && Reaches(h', copied[i].value, a, d));
    }
    assert Inside(h', Struct(copied)) by {
      forall i | 0 <= i < |copied| ensures Inside(h', copied[i].value) {
        CopiesAreInside(h, fields[i].value, h', copied[i].value);
      }
    }
  }

  // ---- Acyclic objects ----

  /** The references in `v` that the copy follows lead to cells of the right kind, ranked below `b`. */
  ghost predicate Fits(h: Heap, rank: map<Addr, nat>, v: Value, b: nat) {
    match v
    case Interface(Some(w)) => Fits(h, rank, w, b)
    case Ptr(Some(a)) => PtrOk(h, a) && a in rank && rank[a] < b
    case Slice(bytes, Some(w)) =>
      && WindowOk(h, w) && w.addr in rank && rank[w.addr] < b
      && (bytes ==> forall i :: 0 <= i < w.len ==> Items(h, w)[i].Basic?)
    case Map(Some(a)) => MapOk(h, a) && a in rank && rank[a] < b
    case Array(elems) => forall i :: 0 <= i < |elems| ==> Fits(h, rank, elems[i], b)
    case Struct(fields) => forall i :: 0 <= i < Leading(fields) ==> Fits(h, rank, fields[i].value, b)
    case _ => true
  }

  /** How many fields there are before the first unexported one. */
  function Leading(fields: seq<Field>): (n: nat)
    ensures n <= |fields| && (forall i :: 0 <= i < n ==> fields[i].exported) && (n < |fields| ==> !fields[n].exported)
  {
    if fields == [] || !fields[0].exported then 0 else 1 + Leading(fields[1..])
  }

  ghost predicate CellFits(h: Heap, rank: map<Addr, nat>, c: Cell, b: nat) {
    match c
    case Pointee(v) => Fits(h, rank, v, b)
    case Backing(items) => forall i :: 0 <= i < |items| ==> Fits(h, rank, items[i], b)
    case Table(entries) => forall k :: k in entries ==> Fits(h, rank, entries[k], b)
  }

  /** References lead from higher to lower ranks: the ranked part of the heap has no cycle. */
  ghost predicate Ranked(h: Heap, rank: map<Addr, nat>) {
    forall a :: a in rank ==> a in h.cells && CellFits(h, rank, h.cells[a], rank[a])
  }

  ghost predicate Acyclic(h: Heap, v: Value) {
    exists rank: map<Addr, nat>, b: nat :: Ranked(h, rank) && Fits(h, rank, v, b)
  }

  lemma {:induction false} FitsExtension(h: Heap, h': Heap, rank: map<Addr, nat>, v: Value, b: nat)
    requires Extends(h, h') && Fits(h, rank, v, b)
    ensures Fits(h', rank, v, b)
  {
    match v
    case Interface(Some(w)) => FitsExtension(h, h', rank, w, b);
    case Slice(_, Some(w)) => assert Items(h', w) == Items(h, w);
    case Array(elems) =>
      forall i | 0 <= i < |elems| ensures Fits(h', rank, elems[i], b) { FitsExtension(h, h', rank, elems[i], b); }
    case Struct(fields) =>
      forall i | 0 <= i < Leading(fields) ensures Fits(h', rank, fields[i].value, b) {
        FitsExtension(h, h', rank, fields[i].value, b);
      }
    case _ =>
  }

  lemma RankedExtension(h: Heap, h': Heap, rank: map<Addr, nat>)
    requires Extends(h, h') && Ranked(h, rank)
    ensures Ranked(h', rank)
  {
    forall a | a in rank ensures CellFits(h', rank, h'.cells[a], rank[a]) {
      match h.cells[a]
      case Pointee(v) => FitsExtension(h, h', rank, v, rank[a]);
      case Backing(items) =>
        forall i | 0 <= i < |items| ensures Fits(h', rank, items[i], rank[a]) {
          FitsExtension(h, h', rank, items[i], rank[a]);
        }
      case Table(entries) =>
        forall k | k in entries ensures Fits(h', rank, entries[k], rank[a]) {
          FitsExtension(h, h', rank, entries[k], rank[a]);
        }
    }
  }

  // ---- The copy ----

  /** What a copy of `v` promises: the heap only grows, a copy comes back exactly when nothing
      unsupported is met. */
  ghost predicate Outcome(h: Heap, v: Value, h': Heap, r: Option<Value>) {
    && Sound(h') && Extends(h, h')
    && match r
       case Some(c) => IsCopy(h, v, h', c) && forall d: nat :: !Fails(h, v, d)
       case None => exists d: nat :: Fails(h, v, d)
  }

  method CopyValue(h: Heap, v: Value, ghost rank: map<Addr, nat>, ghost b: nat) returns (h': Heap, r: Option<Value>)
    requires Sound(h) && Inside(h, v) && Ranked(h, rank) && Fits(h, rank, v, b)
    ensures Outcome(h, v, h', r)
    decreases b, v, 1
  {
    match v {
      case Unsupported =>
        h', r := h, None;
        assert Fails(h, v, 0);
      case Array(elems) =>
        var rs;
        h', rs := CopyAll(h, elems, rank, b);
        r := if rs.Some? then Some(Array(rs.value)) else None;
        ArrayOutcome(h, elems, h', rs);
      case Interface(Some(w)) =>
        var c;
        h', c := CopyValue(h, w, rank, b);
        r := if c.Some? then Some(Interface(c)) else None;
        InterfaceOutcome(h, w, h', c);
      case Map(Some(a)) =>
        h', r := CopyMap(h, a, rank, b);
      case Ptr(Some(a)) =>
        h', r := CopyPtr(h, a, rank, b);
      case Slice(bytes, Some(w)) =>
        h', r := CopySlice(h, bytes, w, rank, b);
      case Struct(fields) =>
        h', r := CopyFields(h, fields, rank, b);
      case _ =>
        h', r := h, Some(v);
        SelfCopy(h, v, h);
    }
  }

  /** Copies element by element; None if one of them cannot be copied. */
  method CopyAll(h: Heap, vs: seq<Value>, ghost rank: map<Addr, nat>, ghost b: nat)
    returns (h': Heap, rs: Option<seq<Value>>)
    requires Sound(h) && Ranked(h, rank)
    requires forall i :: 0 <= i < |vs| ==> Inside(h, vs[i]) && Fits(h, rank, vs[i], b)
    ensures AllOutcome(h, vs, h', rs)
    decreases b, vs
  {
    h' := h;
    var copies: seq<Value> := [];
    for i := 0 to |vs|
      invariant AllOutcome(h, vs[..i], h', Some(copies))
    {
      Moved(h, h', rank, vs[i], b);
      var h2, c := CopyValue(h', vs[i], rank, b);
      ExtendOutcome(h, vs[..i], h', copies, vs[i], h2, c);
      assert vs[..i + 1] == vs[..i] + [vs[i]];
      h' := h2;
      if c.None? {
        return h', None;
      }
      copies := copies + [c.value];
    }
    assert vs[..|vs|] == vs;
    return h', Some(copies);
  }

  ghost predicate AllOutcome(h: Heap, vs: seq<Value>, h': Heap, rs: Option<seq<Value>>) {
    && Sound(h') && Extends(h, h')
    && match rs
       case Some(cs) => AreCopies(h, vs, h', cs) && forall i, d: nat :: 0 <= i < |vs| ==> !Fails(h, vs[i], d)
       case None => exists i, d: nat :: 0 <= i < |vs| && Fails(h, vs[i], d)
  }

  method CopyPtr(h: Heap, a: Addr, ghost rank: map<Addr, nat>, ghost b: nat) returns (h': Heap, r: Option<Value>)
    requires Sound(h) && Ranked(h, rank) && PtrOk(h, a) && a in rank && rank[a] < b
    ensures Outcome(h, Ptr(Some(a)), h', r)
    decreases b, Ptr(Some(a)), 0
  {
    var h1, c := CopyValue(h, h.cells[a].value, rank, rank[a]);
    PtrOutcome(h, a, h1, c);
    if c.None? {
      return h1, None;
    }
    return Alloc(h1, Pointee(c.value)), Some(Ptr(Some(h1.next)));
  }

  /** []byte is copied as a block, any other slice element by element. */
  method CopySlice(h: Heap, bytes: bool, w: Window, ghost rank: map<Addr, nat>, ghost b: nat)
    returns (h': Heap, r: Option<Value>)
    requires Sound(h) && Ranked(h, rank) && Fits(h, rank, Slice(bytes, Some(w)), b)
    ensures Outcome(h, Slice(bytes, Some(w)), h', r)
    decreases b, Slice(bytes, Some(w)), 0
  {
    var h1, rs := h, Some(Items(h, w));
    if bytes {
      BasicsAreCopies(h, Items(h, w));
    } else {
      h1, rs := CopyAll(h, Items(h, w), rank, rank[w.addr]);
    }
    SliceOutcome(h, bytes, w, h1, rs);
    if rs.None? {
      return h1, None;
    }
    return Alloc(h1, Backing(rs.value)), Some(Slice(bytes, Some(Window(h1.next, 0, |rs.value|))));
  }

  method CopyMap(h: Heap, a: Addr, ghost rank: map<Addr, nat>, ghost b: nat) returns (h': Heap, r: Option<Value>)
    requires Sound(h) && Ranked(h, rank) && MapOk(h, a) && a in rank && rank[a] < b
    ensures Outcome(h, Map(Some(a)), h', r)
    decreases b, Map(Some(a)), 0
  {
    var m := h.cells[a].entries;
    var keys, copies := m.Keys, map[];
    h' := h;
    while keys != {}
      invariant keys <= m.Keys && TableOutcome(h, m, keys, h', copies)
      decreases keys
    {
      var k :| k in keys;
      Moved(h, h', rank, m[k], rank[a]);
      var h2, c := CopyValue(h', m[k], rank, rank[a]);
      ExtendTable(h, a, keys, h', copies, k, h2, c);
      h' := h2;
      if c.None? {
        return h', None;
      }
      keys, copies := keys - {k}, copies[k := c.value];
    }
    MapOutcome(h, a, h', copies);
    return Alloc(h', Table(copies)), Some(Map(Some(h'.next)));
  }

  /** Field by field; a struct with a field that cannot be set is handed over as it is. */
  method CopyFields(h: Heap, fields: seq<Field>, ghost rank: map<Addr, nat>, ghost b: nat)
    returns (h': Heap, r: Option<Value>)
    requires Sound(h) && Ranked(h, rank) && Inside(h, Struct(fields)) && Fits(h, rank, Struct(fields), b)
    ensures Outcome(h, Struct(fields), h', r)
    decreases b, Struct(fields), 0
  {
    hide IsCopy, Unfold, Reaches, Leaks, Unshared, Sound;
    h' := h;
    var copies: seq<Value> := [];
    NothingCopied(h);
    for i := 0 to |fields|
      invariant AllExported(fields[..i]) && AllOutcome(h, Values(fields[..i]), h', Some(copies))
    {
      if !fields[i].exported {
        SharedStruct(h, fields, i, h');
        return h', Some(Struct(fields));
      }
      StillLeading(fields, i);
      Moved(h, h', rank, fields[i].value, b);
      var h2, c := CopyValue(h', fields[i].value, rank, b);
      ExtendOutcome(h, Values(fields[..i]), h', copies, fields[i].value, h2, c);
      assert Values(fields[..i + 1]) == Values(fields[..i]) + [fields[i].value];
      assert AllExported(fields[..i + 1]);
      h' := h2;
      if c.None? {
        ghost var d: nat :| Fails(h, fields[i].value, d);
        assert Fails(h, Struct(fields), d);
        return h', None;
      }
      copies := copies + [c.value];
    }
    assert fields[..|fields|] == fields;
    StructOutcome(h, fields, h', copies);
    return h', Some(Struct(Rebuilt(fields, copies)));
  }

  lemma NothingCopied(h: Heap)
    requires Sound(h)
    ensures AllOutcome(h, Values([]), h, Some([]))
  {
  }

  lemma StillLeading(fields: seq<Field>, i: nat)
    requires i < |fields| && AllExported(fields[..i]) && fields[i].exported
    ensures i < Leading(fields)
  {
    hide Leading, AllExported;
    assert forall j :: 0 <= j < i ==> fields[j].exported by { ExportedBefore(fields, i); }
  }

  lemma ExportedBefore(fields: seq<Field>, i: nat)
    requires i <= |fields| && AllExported(fields[..i])
    ensures forall j :: 0 <= j < i ==> fields[j].exported
  {
    assert forall j :: 0 <= j < i ==> fields[..i][j] == fields[j];
  }

  function Values(fields: seq<Field>): (vs: seq<Value>)
    ensures |vs| == |fields|
  {
    seq(|fields|, i requires 0 <= i < |fields| => fields[i].value)
  }

  function Rebuilt(fields: seq<Field>, values: seq<Value>): (r: seq<Field>)
    requires |fields| == |values|
    ensures |r| == |fields|
  {
    seq(|fields|, i requires 0 <= i < |fields| => Field(fields[i].exported, values[i]))
  }

  ghost predicate TableOutcome(h: Heap, m: map<Value, Value>, left: set<Value>, h': Heap, copies: map<Value, Value>) {
    && Sound(h') && Extends(h, h') && copies.Keys == m.Keys - left
    && (forall k :: k in copies ==> IsCopy(h, m[k], h', copies[k]) && forall d: nat :: !Fails(h, m[k], d))
    && (forall d: nat :: EntriesApart(h.cells.Keys, h', copies, d))
  }

  lemma Moved(h: Heap, h': Heap, rank: map<Addr, nat>, v: Value, b: nat)
    requires Extends(h, h') && Ranked(h, rank) && Fits(h, rank, v, b) && Inside(h, v)
    ensures Ranked(h', rank) && Fits(h', rank, v, b) && Inside(h', v)
  {
    RankedExtension(h, h', rank);
    FitsExtension(h, h', rank, v, b);
    InsideExtension(h, h', v);
  }

  lemma FailsInExtension(h: Heap, h': Heap, v: Value)
    requires Extends(h, h') && Sound(h) && Inside(h, v)
    ensures forall d: nat :: Fails(h', v, d) == Fails(h, v, d)
  {
    forall d: nat ensures Fails(h', v, d) == Fails(h, v, d) { FailFrame(h, h', v, d); }
  }

  lemma ExtendOutcome(h: Heap, vs: seq<Value>, h1: Heap, cs: seq<Value>, v: Value, h2: Heap, c: Option<Value>)
    requires Sound(h) && Inside(h, v) && forall i :: 0 <= i < |vs| ==> Inside(h, vs[i])
    requires AllOutcome(h, vs, h1, Some(cs)) && Outcome(h1, v, h2, c)
    ensures Sound(h2) && Extends(h, h2)
    ensures c.Some? ==> AllOutcome(h, vs + [v], h2, Some(cs + [c.value]))
    ensures c.None? ==> exists d: nat :: Fails(h, v, d)
  {
    hide IsCopy, Fails, Sound, Inside, AllApart;
    FailsInExtension(h, h1, v);
    if c.Some? {
      WidenCopy(h, h1, v, h2, c.value, h2);
      forall i | 0 <= i < |vs| ensures IsCopy(h, vs[i], h2, cs[i]) { WidenCopy(h, h, vs[i], h1, cs[i], h2); }
      forall d: nat ensures AllApart(h.cells.Keys, h2, cs + [c.value], d) {
        OneMoreApart(h, vs, h1, cs, v, h2, c.value, d);
      }
    }
  }

  lemma OneMoreApart(h: Heap, vs: seq<Value>, h1: Heap, cs: seq<Value>, v: Value, h2: Heap, c: Value, d: nat)
    requires Sound(h) && Sound(h1) && Inside(h, v) && Extends(h, h1) && Extends(h1, h2)
    requires AreCopies(h, vs, h1, cs) && IsCopy(h1, v, h2, c)
    ensures AllApart(h.cells.Keys, h2, cs + [c], d)
  {
    hide IsCopy, Sound, Inside, Extends, Apart;
    var all := cs + [c];
    forall i | 0 <= i < |cs| ensures Inside(h1, cs[i]) { CopiesAreInside(h, vs[i], h1, cs[i]); }
    forall i, j | 0 <= i < j < |all| ensures Apart(h.cells.Keys, h2, all[i], all[j], d) {
      if j < |cs| {
        assert AllApart(h.cells.Keys, h1, cs, d);
        ApartFrame(h.cells.Keys, h1, h2, cs[i], cs[j], d);
      } else {
        LaterCopyIsApart(h, h1, cs[i], v, h2, c, d);
      }
    }
  }

  lemma ExtendTable(h: Heap, a: Addr, left: set<Value>, h1: Heap, copies: map<Value, Value>, k: Value,
                    h2: Heap, c: Option<Value>)
    requires Sound(h) && MapOk(h, a) && k in left && k in h.cells[a].entries
    requires TableOutcome(h, h.cells[a].entries, left, h1, copies) && Outcome(h1, h.cells[a].entries[k], h2, c)
    ensures Sound(h2) && Extends(h, h2)
    ensures c.Some? ==> TableOutcome(h, h.cells[a].entries, left - {k}, h2, copies[k := c.value])
    ensures c.None? ==> Outcome(h, Map(Some(a)), h2, None)
  {
    hide IsCopy, Unfold, Leaks, Reaches, Fails, Sound, Inside, Apart;
    var m := h.cells[a].entries;
    EntriesInside(h, a);
    FailsInExtension(h, h1, m[k]);
    if c.Some? {
      WidenCopy(h, h1, m[k], h2, c.value, h2);
      forall j | j in copies ensures IsCopy(h, m[j], h2, copies[j]) { WidenCopy(h, h, m[j], h1, copies[j], h2); }
      var next := copies[k := c.value];
      forall d: nat ensures EntriesApart(h.cells.Keys, h2, next, d) {
        OneMoreEntryApart(h, m, h1, copies, m[k], h2, c.value, k, d);
      }
    } else {
      var d: nat :| Fails(h, m[k], d);
      EntryFails(h, a, k, d);
    }
  }

  lemma OneMoreEntryApart(h: Heap, m: map<Value, Value>, h1: Heap, copies: map<Value, Value>, v: Value, h2: Heap, c: Value,
                          k: Value, d: nat)
    requires Sound(h) && Sound(h1) && Inside(h, v) && Extends(h, h1) && Extends(h1, h2) && IsCopy(h1, v, h2, c)
    requires forall i :: i in copies ==> i in m && IsCopy(h, m[i], h1, copies[i])
    requires EntriesApart(h.cells.Keys, h1, copies, d)
    ensures EntriesApart(h.cells.Keys, h2, copies[k := c], d)
  {
    hide IsCopy, Sound, Inside, Extends, Apart;
    var next := copies[k := c];
    forall j, l | j in next && l in next && j != l ensures Apart(h.cells.Keys, h2, next[j], next[l], d) {
      if j != k { CopiesAreInside(h, m[j], h1, copies[j]); }
      if l != k { CopiesAreInside(h, m[l], h1, copies[l]); }
      if j == k {
        LaterCopyIsApart(h, h1, copies[l], v, h2, c, d);
      } else if l == k {
        LaterCopyIsApart(h, h1, copies[j], v, h2, c, d);
      } else {
        ApartFrame(h.cells.Keys, h1, h2, copies[j], copies[l], d);
      }
    }
  }

  lemma EntriesInside(h: Heap, a: Addr)
    requires Sound(h) && MapOk(h, a)
    ensures forall k :: k in h.cells[a].entries ==> Inside(h, h.cells[a].entries[k])
  {
  }

  lemma EntryFails(h: Heap, a: Addr, k: Value, d: nat)
    requires MapOk(h, a) && k in h.cells[a].entries && Fails(h, h.cells[a].entries[k], d)
    ensures Fails(h, Map(Some(a)), d + 1)
  {
  }

  lemma ArrayOutcome(h: Heap, vs: seq<Value>, h': Heap, rs: Option<seq<Value>>)
    requires AllOutcome(h, vs, h', rs)
    ensures Outcome(h, Array(vs), h', if rs.Some? then Some(Array(rs.value)) else None)
  {
    if rs.Some? {
      ArrayCopy(h, vs, h', rs.value);
    } else {
      var i, d: nat :| 0 <= i < |vs| && Fails(h, vs[i], d);
      assert Fails(h, Array(vs), d);
    }
  }

  lemma InterfaceOutcome(h: Heap, v: Value, h': Heap, c: Option<Value>)
    requires Outcome(h, v, h', c)
    ensures Outcome(h, Interface(Some(v)), h', if c.Some? then Some(Interface(c)) else None)
  {
    if c.Some? {
      InterfaceCopy(h, v, h', c.value);
    } else {
      var d: nat :| Fails(h, v, d);
      assert Fails(h, Interface(Some(v)), d);
    }
  }

  lemma PtrOutcome(h: Heap, a: Addr, h1: Heap, c: Option<Value>)
    requires Sound(h) && PtrOk(h, a) && Outcome(h, h.cells[a].value, h1, c)
    ensures c.Some? ==> Outcome(h, Ptr(Some(a)), Alloc(h1, Pointee(c.value)), Some(Ptr(Some(h1.next))))
    ensures c.None? ==> Outcome(h, Ptr(Some(a)), h1, None)
  {
    hide IsCopy;
    if c.Some? {
      PtrCopy(h, a, h1, c.value);
      forall d: nat ensures !Fails(h, Ptr(Some(a)), d) { }
      assert Inside(h1, c.value) by { CopiesAreInside(h, h.cells[a].value, h1, c.value); }
      AllocExtends(h1, Pointee(c.value));
    } else {
      var d: nat :| Fails(h, h.cells[a].value, d);
      assert Fails(h, Ptr(Some(a)), d + 1);
    }
  }

  lemma CopiesAreInside(h: Heap, v: Value, h': Heap, r: Value)
    requires IsCopy(h, v, h', r)
    ensures Inside(h', r)
  {
  }

  lemma SliceOutcome(h: Heap, bytes: bool, w: Window, h1: Heap, rs: Option<seq<Value>>)
    requires Sound(h) && WindowOk(h, w) && AllOutcome(h, Items(h, w), h1, rs) && (bytes ==> rs.Some?)
    ensures rs.Some? ==> Outcome(h, Slice(bytes, Some(w)), Alloc(h1, Backing(rs.value)),
                                 Some(Slice(bytes, Some(Window(h1.next, 0, |rs.value|)))))
    ensures rs.None? ==> Outcome(h, Slice(bytes, Some(w)), h1, None)
  {
    hide IsCopy;
    if rs.Some? {
      SliceCopy(h, bytes, w, h1, rs.value);
      forall d: nat ensures !Fails(h, Slice(bytes, Some(w)), d) { }
      forall i | 0 <= i < |rs.value| ensures Inside(h1, rs.value[i]) {
        CopiesAreInside(h, Items(h, w)[i], h1, rs.value[i]);
      }
      AllocExtends(h1, Backing(rs.value));
    } else {
      var i, d: nat :| 0 <= i < w.len && Fails(h, Items(h, w)[i], d);
      assert Fails(h, Slice(bytes, Some(w)), d + 1);
    }
  }

  lemma BasicsAreCopies(h: Heap, vs: seq<Value>)
    requires Sound(h) && forall i :: 0 <= i < |vs| ==> vs[i].Basic?
    ensures AllOutcome(h, vs, h, Some(vs))
  {
    forall i | 0 <= i < |vs| ensures IsCopy(h, vs[i], h, vs[i]) { SelfCopy(h, vs[i], h); }
  }

  lemma MapOutcome(h: Heap, a: Addr, h1: Heap, copies: map<Value, Value>)
    requires Sound(h) && MapOk(h, a) && TableOutcome(h, h.cells[a].entries, {}, h1, copies)
    ensures Outcome(h, Map(Some(a)), Alloc(h1, Table(copies)), Some(Map(Some(h1.next))))
  {
    hide IsCopy;
    KeysInside(h, a);
    forall k | k in copies ensures Inside(h1, k) && Inside(h1, copies[k]) {
      InsideExtension(h, h1, k);
      CopiesAreInside(h, h.cells[a].entries[k], h1, copies[k]);
    }
    MapCopy(h, a, h1, copies);
    forall d: nat ensures !Fails(h, Map(Some(a)), d) { }
    AllocExtends(h1, Table(copies));
  }

  lemma StructOutcome(h: Heap, fields: seq<Field>, h': Heap, copies: seq<Value>)
    requires AllExported(fields) && AllOutcome(h, Values(fields), h', Some(copies))
    ensures Outcome(h, Struct(fields), h', Some(Struct(Rebuilt(fields, copies))))
  {
    hide IsCopy;
    forall i | 0 <= i < |fields| ensures IsCopy(h, fields[i].value, h', Rebuilt(fields, copies)[i].value) {
      assert IsCopy(h, Values(fields)[i], h', copies[i]);
    }
    forall i, d: nat | 0 <= i < |fields| ensures !Fails(h, fields[i].value, d) {
      assert !Fails(h, Values(fields)[i], d);
    }
    assert Values(Rebuilt(fields, copies)) == copies;
    StructCopy(h, fields, h', Rebuilt(fields, copies));
    forall d: nat ensures !Fails(h, Struct(fields), d) { }
  }

  lemma SharedStruct(h: Heap, fields: seq<Field>, n: nat, h': Heap)
    requires Sound(h) && Sound(h') && Extends(h, h') && Inside(h, Struct(fields))
    requires n < |fields| && !fields[n].exported
    requires forall i, d: nat :: 0 <= i < n ==> !Fails(h, Values(fields[..n])[i], d)
    ensures Outcome(h, Struct(fields), h', Some(Struct(fields)))
  {
    assert !AllExported(fields);
    SelfCopy(h, Struct(fields), h');
    forall d: nat ensures !Fails(h, Struct(fields), d) {
      forall i | 0 <= i < |fields| ensures AllExported(fields[..i + 1]) ==> !Fails(h, fields[i].value, d) {
        if i < n {
          assert Values(fields[..n])[i] == fields[i].value;
        } else {
          assert fields[..i + 1][n] == fields[n];
        }
      }
    }
  }

  /** Any acyclic object is copied or refused, and the original heap is left alone. */
  method DeepCopy(h: Heap, v: Value) returns (h': Heap, r: Option<Value>)
    requires Sound(h) && Inside(h, v) && Acyclic(h, v)
    ensures Outcome(h, v, h', r)
  {
    ghost var rank: map<Addr, nat>, b: nat :| Ranked(h, rank) && Fits(h, rank, v, b);
    h', r := CopyValue(h, v, rank, b);
  }

  // ---- When nothing is shared ----

  /** A copy is of the same kind as its source at every position, through every reference. */
  lemma CopiesKeepTheirKind(h: Heap, v: Value, h': Heap, r: Value, d: nat)
    requires IsCopy(h, v, h', r)
    ensures SameKind(h, v, h', r, d)
  {
    UnfoldsAlikeIffSameKind(h, v, h', r, d);
  }

  ghost predicate CanReach(h: Heap, v: Value, a: Addr) { exists d: nat :: Reaches(h, v, a, d) }

  ghost predicate CanLeak(h: Heap, v: Value, a: Addr) { exists d: nat :: Leaks(h, v, a, d) }

  /** The cells that both the source and its copy can reach are exactly those the source leaks. */
  lemma SharesExactlyTheLeaks(h: Heap, v: Value, h': Heap, r: Value, a: Addr)
    requires Sound(h) && Inside(h, v) && IsCopy(h, v, h', r)
    ensures CanReach(h, v, a) && CanReach(h', r, a) <==> CanLeak(h, v, a)
  {
    hide Unfold, Inside, Sound;
    ExtendsItself(h);
    if CanReach(h, v, a) && CanReach(h', r, a) {
      var d: nat :| Reaches(h, v, a, d);
      ReachFrame(h, h, v, a, d);
      var e: nat :| Reaches(h', r, a, e);
      assert Leaks(h, v, a, e);
    }
    if CanLeak(h, v, a) {
      var d: nat :| Leaks(h, v, a, d);
      LeakFrame(h, h, v, a, d);
      assert Reaches(h', r, a, d);
    }
  }

  lemma ExtendsItself(h: Heap)
    ensures Extends(h, h)
  {
  }

  predicate ReferenceFree(v: Value) {
    match v
    case Interface(Some(w)) => ReferenceFree(w)
    case Ptr(Some(_)) => false
    case Slice(_, Some(_)) => false
    case Map(Some(_)) => false
    case Array(elems) => forall i :: 0 <= i < |elems| ==> ReferenceFree(elems[i])
    case Struct(fields) => forall i :: 0 <= i < |fields| ==> ReferenceFree(fields[i].value)
    case _ => true
  }

  /** Within `d` references there is no unexported field and no map key that holds a reference. */
  predicate Transparent(h: Heap, v: Value, d: nat)
    decreases d, v
  {
    match v
    case Interface(Some(w)) => Transparent(h, w, d)
    case Ptr(Some(b)) => d > 0 && PtrOk(h, b) ==> Transparent(h, h.cells[b].value, d - 1)
    case Slice(_, Some(w)) =>
      d > 0 && WindowOk(h, w) ==> forall i :: 0 <= i < w.len ==> Transparent(h, Items(h, w)[i], d - 1)
    case Map(Some(b)) =>
      d > 0 && MapOk(h, b) ==>
        forall k :: k in h.cells[b].entries ==> ReferenceFree(k) && Transparent(h, h.cells[b].entries[k], d - 1)
    case Array(elems) => forall i :: 0 <= i < |elems| ==> Transparent(h, elems[i], d)
    case Struct(fields) =>
      AllExported(fields) && forall i :: 0 <= i < |fields| ==> Transparent(h, fields[i].value, d)
    case _ => true
  }

  lemma {:induction false} ReferenceFreeReachesNothing(h: Heap, v: Value, a: Addr, d: nat)
    requires ReferenceFree(v)
    ensures !Reaches(h, v, a, d)
  {
    match v
    case Interface(Some(w)) => ReferenceFreeReachesNothing(h, w, a, d);
    case Array(elems) =>
      forall i | 0 <= i < |elems| ensures !Reaches(h, elems[i], a, d) { ReferenceFreeReachesNothing(h, elems[i], a, d); }
    case Struct(fields) =>
      forall i | 0 <= i < |fields| ensures !Reaches(h, fields[i].value, a, d) {
        ReferenceFreeReachesNothing(h, fields[i].value, a, d);
      }
    case _ =>
  }

  lemma {:induction false} TransparentNeverLeaks(h: Heap, v: Value, a: Addr, d: nat)
    requires Transparent(h, v, d)
    ensures !Leaks(h, v, a, d)
    decreases d, v
  {
    match v
    case Interface(Some(w)) => TransparentNeverLeaks(h, w, a, d);
    case Ptr(Some(b)) => if d > 0 && PtrOk(h, b) { TransparentNeverLeaks(h, h.cells[b].value, a, d - 1); }
    case Slice(_, Some(w)) =>
      if d > 0 && WindowOk(h, w) {
        forall i | 0 <= i < w.len ensures !Leaks(h, Items(h, w)[i], a, d - 1) {
          TransparentNeverLeaks(h, Items(h, w)[i], a, d - 1);
        }
      }
    case Map(Some(b)) =>
      if d > 0 && MapOk(h, b) {
        var m := h.cells[b].entries;
        forall k | k in m ensures !Reaches(h, k, a, d - 1) && !Leaks(h, m[k], a, d - 1) {
          ReferenceFreeReachesNothing(h, k, a, d - 1);
          TransparentNeverLeaks(h, m[k], a, d - 1);
        }
      }
    case Array(elems) =>
      forall i | 0 <= i < |elems| ensures !Leaks(h, elems[i], a, d) { TransparentNeverLeaks(h, elems[i], a, d); }
    case Struct(fields) =>
      forall i | 0 <= i < |fields| ensures !Leaks(h, fields[i].value, a, d) {
        TransparentNeverLeaks(h, fields[i].value, a, d);
      }
    case _ =>
  }

  /** The copy of an object without unexported fields and with reference-free keys shares no cell. */
  lemma TransparentCopiesShareNothing(h: Heap, v: Value, h': Heap, r: Value, a: Addr, d: nat)
    requires IsCopy(h, v, h', r) && Transparent(h, v, d) && a in h.cells
    ensures !Reaches(h', r, a, d)
  {
    TransparentNeverLeaks(h, v, a, d);
  }
}
