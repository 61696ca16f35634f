/** The reflective deep copy: a recursive copy from one part of a heap of pointers, structs, slices and maps to another.

    A value is what a variable holds; what it leads to lives in the heap, whose addresses are never reused. The tree of
    a value is what a reader sees by following everything. */
module DeepCopy {
  import opened Options

  datatype Field = Field(name: string, value: Value)

  datatype Value =
    | Scalar(typ: string, payload: int)
    | Pointer(typ: string, to: Option<nat>)
    | Struct(fields: seq<Field>)
    | Slice(typ: string, backing: Option<nat>)
    | Map(typ: string, table: Option<nat>)

  datatype Cell = Box(value: Value) | Elements(elems: seq<Value>) | Entries(entries: map<string, Value>)

  type Heap = seq<Cell>

  datatype TreeField = TreeField(name: string, tree: Tree)

  datatype Tree =
    | TScalar(typ: string, payload: int)
    | TNil(typ: string)
    | TPointer(typ: string, target: Tree)
    | TStruct(fields: seq<TreeField>)
    | TNilSlice(typ: string)
    | TSlice(typ: string, elems: seq<Tree>)
    | TNilMap(typ: string)
    | TMap(typ: string, entries: map<string, Tree>)

  // Well-formed, acyclic values

  ghost predicate DistinctNames(fields: seq<Field>) {
    forall i, j | 0 <= i < j < |fields| :: fields[i].name != fields[j].name
  }

  /** Following `v` ends within `d` steps, at cells of the right kind. */
  ghost predicate Acyclic(h: Heap, v: Value, d: nat)
    decreases d
  {
    d > 0 &&
    match v
    case Scalar(_, _) => true
    case Pointer(_, None) => true
    case Pointer(_, Some(a)) => a < |h| && h[a].Box? && Acyclic(h, h[a].value, d - 1)
    case Struct(fields) =>
      DistinctNames(fields) && forall i | 0 <= i < |fields| :: Acyclic(h, fields[i].value, d - 1)
    case Slice(_, None) => true
    case Slice(_, Some(a)) =>
      a < |h| && h[a].Elements? && forall i | 0 <= i < |h[a].elems| :: Acyclic(h, h[a].elems[i], d - 1)
    case Map(_, None) => true
    case Map(_, Some(a)) =>
      a < |h| && h[a].Entries? && forall k | k in h[a].entries :: Acyclic(h, h[a].entries[k], d - 1)
  }

  ghost function Unfold(h: Heap, v: Value, d: nat): Tree
    requires Acyclic(h, v, d)
    decreases d
  {
    match v
    case Scalar(t, n) => TScalar(t, n)
    case Pointer(t, None) => TNil(t)
    case Pointer(t, Some(a)) => TPointer(t, Unfold(h, h[a].value, d - 1))
    case Struct(fields) =>
      TStruct(seq(|fields|, i requires 0 <= i < |fields| =>
        TreeField(fields[i].name, Unfold(h, fields[i].value, d - 1))))
    case Slice(t, None) => TNilSlice(t)
    case Slice(t, Some(a)) =>
      TSlice(t, seq(|h[a].elems|, i requires 0 <= i < |h[a].elems| => Unfold(h, h[a].elems[i], d - 1)))
    case Map(t, None) => TNilMap(t)
    case Map(t, Some(a)) => TMap(t, map k | k in h[a].entries :: Unfold(h, h[a].entries[k], d - 1))
  }

  predicate AtLeast(a: nat, n: nat) {
    n <= a
  }

  /** The addresses from `n` on. */
  ghost function From(n: nat): iset<nat> {
    iset a: nat | AtLeast(a, n)
  }

  predicate Differs(a: nat, b: nat) {
    a != b
  }

  /** Every address but `a`. */
  ghost function Except(a: nat): iset<nat> {
    iset b: nat | Differs(b, a)
  }

  /** Every cell reachable from `v` has its address in `s`. */
  ghost predicate Within(h: Heap, v: Value, d: nat, s: iset<nat>)
    requires Acyclic(h, v, d)
    decreases d
  {
    match v
    case Scalar(_, _) => true
    case Pointer(_, None) => true
    case Pointer(_, Some(a)) => a in s && Within(h, h[a].value, d - 1, s)
    case Struct(fields) => forall i | 0 <= i < |fields| :: Within(h, fields[i].value, d - 1, s)
    case Slice(_, None) => true
    case Slice(_, Some(a)) => a in s && forall i | 0 <= i < |h[a].elems| :: Within(h, h[a].elems[i], d - 1, s)
    case Map(_, None) => true
    case Map(_, Some(a)) => a in s && forall k | k in h[a].entries :: Within(h, h[a].entries[k], d - 1, s)
  }

  /** `h'` keeps every cell of `h` in `s`. */
  ghost predicate Extends(h: Heap, h': Heap, s: iset<nat>) {
    |h| <= |h'| && forall a | 0 <= a < |h| && a in s :: h'[a] == h[a]
  }

  lemma {:induction false} Frame(h: Heap, h': Heap, v: Value, d: nat, s: iset<nat>)
    requires Acyclic(h, v, d) && Within(h, v, d, s) && Extends(h, h', s)
    ensures Acyclic(h', v, d) && Within(h', v, d, s) && Unfold(h', v, d) == Unfold(h, v, d)
    decreases d
  {
    match v
    case Scalar(_, _) =>
    case Pointer(_, None) =>
    case Pointer(_, Some(a)) => Frame(h, h', h[a].value, d - 1, s);
    case Struct(fields) =>
      forall i | 0 <= i < |fields|
        ensures Acyclic(h', fields[i].value, d - 1) && Within(h', fields[i].value, d - 1, s)
        ensures Unfold(h', fields[i].value, d - 1) == Unfold(h, fields[i].value, d - 1)
      {
        Frame(h, h', fields[i].value, d - 1, s);
      }
    case Slice(_, None) =>
    case Slice(_, Some(a)) =>
      forall i | 0 <= i < |h[a].elems|
        ensures Acyclic(h', h[a].elems[i], d - 1) && Within(h', h[a].elems[i], d - 1, s)
        ensures Unfold(h', h[a].elems[i], d - 1) == Unfold(h, h[a].elems[i], d - 1)
      {
        Frame(h, h', h[a].elems[i], d - 1, s);
      }
    case Map(_, None) =>
    case Map(_, Some(a)) =>
      forall k | k in h[a].entries
        ensures Acyclic(h', h[a].entries[k], d - 1) && Within(h', h[a].entries[k], d - 1, s)
        ensures Unfold(h', h[a].entries[k], d - 1) == Unfold(h, h[a].entries[k], d - 1)
      {
        Frame(h, h', h[a].entries[k], d - 1, s);
      }
  }

  lemma {:induction false} WithinMonotone(h: Heap, v: Value, d: nat, s: iset<nat>, t: iset<nat>)
    requires Acyclic(h, v, d) && Within(h, v, d, s) && s <= t
    ensures Within(h, v, d, t)
    decreases d
  {
    match v
    case Scalar(_, _) =>
    case Pointer(_, None) =>
    case Pointer(_, Some(a)) => WithinMonotone(h, h[a].value, d - 1, s, t);
    case Struct(fields) =>
      forall i | 0 <= i < |fields| { WithinMonotone(h, fields[i].value, d - 1, s, t); }
    case Slice(_, None) =>
    case Slice(_, Some(a)) =>
      forall i | 0 <= i < |h[a].elems| { WithinMonotone(h, h[a].elems[i], d - 1, s, t); }
    case Map(_, None) =>
    case Map(_, Some(a)) =>
      forall k | k in h[a].entries { WithinMonotone(h, h[a].entries[k], d - 1, s, t); }
  }

  lemma {:induction false} WithinAll(h: Heap, v: Value, d: nat)
    requires Acyclic(h, v, d)
    ensures Within(h, v, d, From(0))
    decreases d
  {
    match v
    case Scalar(_, _) =>
    case Pointer(_, None) =>
    case Pointer(_, Some(a)) => WithinAll(h, h[a].value, d - 1);
    case Struct(fields) =>
      forall i | 0 <= i < |fields| { WithinAll(h, fields[i].value, d - 1); }
    case Slice(_, None) =>
    case Slice(_, Some(a)) =>
      forall i | 0 <= i < |h[a].elems| { WithinAll(h, h[a].elems[i], d - 1); }
    case Map(_, None) =>
    case Map(_, Some(a)) =>
      forall k | k in h[a].entries { WithinAll(h, h[a].entries[k], d - 1); }
  }

  // What a copy means

  /** The zero value of the type of `v`. */
  function ZeroLike(v: Value): Value {
    match v
    case Scalar(t, _) => Scalar(t, 0)
    case Pointer(t, _) => Pointer(t, None)
    case Struct(fields) =>
      Struct(seq(|fields|, i requires 0 <= i < |fields| => Field(fields[i].name, ZeroLike(fields[i].value))))
    case Slice(t, _) => Slice(t, None)
    case Map(t, _) => Map(t, None)
  }

  function Zero(t: Tree): Tree {
    match t
    case TScalar(typ, _) => TScalar(typ, 0)
    case TNil(typ) => TNil(typ)
    case TPointer(typ, _) => TNil(typ)
    case TStruct(fields) =>
      TStruct(seq(|fields|, i requires 0 <= i < |fields| => TreeField(fields[i].name, Zero(fields[i].tree))))
    case TNilSlice(typ) => TNilSlice(typ)
    case TSlice(typ, _) => TNilSlice(typ)
    case TNilMap(typ) => TNilMap(typ)
    case TMap(typ, _) => TNilMap(typ)
  }

  /** The first position of a name. */
  function Position(names: seq<string>, name: string): (at: Option<nat>)
    ensures at.Some? ==> at.value < |names| && names[at.value] == name
    ensures at.None? ==> forall i | 0 <= i < |names| :: names[i] != name
  {
    if names == [] then None
    else if names[0] == name then Some(0)
    else
      match Position(names[1..], name)
      case None => None
      case Some(i) => Some(i + 1)
  }

  function FieldNames(fields: seq<Field>): seq<string> {
    seq(|fields|, i requires 0 <= i < |fields| => fields[i].name)
  }

  function TreeNames(fields: seq<TreeField>): seq<string> {
    seq(|fields|, i requires 0 <= i < |fields| => fields[i].name)
  }

  function FieldNamed(fields: seq<TreeField>, name: string): (at: Option<nat>)
    ensures at.Some? ==> at.value < |fields| && fields[at.value].name == name
    ensures at.None? ==> forall i | 0 <= i < |fields| :: fields[i].name != name
  {
    var at := Position(TreeNames(fields), name);
    assert forall i | 0 <= i < |fields| :: TreeNames(fields)[i] == fields[i].name;
    at
  }

  /** The destination after copying `src` over it: nil and absent parts keep the destination, everything else is the
      source's, a scalar or slice only if it has the destination's type. */
  function Merge(dst: Tree, src: Tree): Tree
    decreases src, 1
  {
    match src
    case TScalar(t, _) => if dst.TScalar? && dst.typ == t then src else dst
    case TNil(_) => dst
    case TPointer(_, _) => src
    case TStruct(_) => if dst.TStruct? then TStruct(MergeFields(dst.fields, src)) else dst
    case TNilSlice(_) => dst
    case TSlice(t, _) => if (dst.TSlice? || dst.TNilSlice?) && dst.typ == t then src else dst
    case TNilMap(_) => dst
    case TMap(_, _) => src
  }

  function MergeFields(ours: seq<TreeField>, src: Tree): seq<TreeField>
    requires src.TStruct?
    decreases src, 0
  {
    seq(|ours|, i requires 0 <= i < |ours| =>
      match FieldNamed(src.fields, ours[i].name)
      case None => ours[i]
      case Some(j) => TreeField(ours[i].name, Merge(ours[i].tree, src.fields[j].tree)))
  }

  /** What the code needs of the destination's type so that reflection does not panic. */
  ghost predicate Fits(dst: Tree, src: Tree) {
    match src
    case TPointer(t, _) => (dst.TNil? || dst.TPointer?) && dst.typ == t
    case TStruct(theirs) =>
      dst.TStruct? &&
      forall i | 0 <= i < |dst.fields| && FieldNamed(theirs, dst.fields[i].name).Some? ::
        Fits(dst.fields[i].tree, theirs[FieldNamed(theirs, dst.fields[i].name).value].tree)
    case TMap(t, _) => (dst.TNilMap? || dst.TMap?) && dst.typ == t
    case _ => true
  }

  ghost predicate DistinctTreeNames(t: Tree) {
    t.TStruct? ==>
      && (forall i, j | 0 <= i < j < |t.fields| :: t.fields[i].name != t.fields[j].name)
      && (forall i | 0 <= i < |t.fields| :: DistinctTreeNames(t.fields[i].tree))
  }

  /** Copying over the zero value of its type reproduces the source exactly. */
  lemma {:induction false} CopyOverZero(src: Tree)
    requires DistinctTreeNames(src)
    ensures Fits(Zero(src), src) && Merge(Zero(src), src) == src
  {
    if src.TStruct? {
      var fields := src.fields;
      forall i | 0 <= i < |fields|
        ensures FieldNamed(fields, fields[i].name) == Some(i)
        ensures Fits(Zero(fields[i].tree), fields[i].tree)
        ensures Merge(Zero(fields[i].tree), fields[i].tree) == fields[i].tree
      {
        CopyOverZero(fields[i].tree);
      }
      assert MergeFields(Zero(src).fields, src) == fields;
    }
  }

  /** Copying the same source twice is copying it once. */
  lemma {:induction false} CopyIsIdempotent(dst: Tree, src: Tree)
    ensures Merge(Merge(dst, src), src) == Merge(dst, src)
    decreases src
  {
    if src.TStruct? && dst.TStruct? {
      var once := MergeFields(dst.fields, src);
      forall i | 0 <= i < |dst.fields| && FieldNamed(src.fields, dst.fields[i].name).Some?
        ensures MergeFields(once, src)[i] == once[i]
      {
        var j := FieldNamed(src.fields, dst.fields[i].name).value;
        CopyIsIdempotent(dst.fields[i].tree, src.fields[j].tree);
      }
      assert MergeFields(once, src) == once;
    }
  }

  /** Whatever a source can be copied over, it can be copied over again. */
  lemma {:induction false} MergeStillFits(dst: Tree, src: Tree)
    requires Fits(dst, src)
    ensures Fits(Merge(dst, src), src)
    decreases src
  {
    if src.TStruct? {
      var merged := MergeFields(dst.fields, src);
      assert Merge(dst, src).fields == merged;
      forall i | 0 <= i < |merged| && FieldNamed(src.fields, merged[i].name).Some?
        ensures Fits(merged[i].tree, src.fields[FieldNamed(src.fields, merged[i].name).value].tree)
      {
        MergeStillFits(dst.fields[i].tree, src.fields[FieldNamed(src.fields, merged[i].name).value].tree);
      }
    }
  }

  /** What stands at a path of field names. */
  function At(t: Tree, path: seq<string>): Option<Tree>
    decreases |path|
  {
    if path == [] then Some(t)
    else if !t.TStruct? then None
    else
      match FieldNamed(t.fields, path[0])
      case None => None
      case Some(i) => At(t.fields[i].tree, path[1..])
  }

  predicate SameType(dst: Tree, src: Tree) {
    match src
    case TScalar(t, _) => dst.TScalar? && dst.typ == t
    case TSlice(t, _) => (dst.TSlice? || dst.TNilSlice?) && dst.typ == t
    case _ => true
  }

  predicate IsNil(t: Tree) {
    t.TNil? || t.TNilSlice? || t.TNilMap?
  }

  /** What a copy leaves, field by field at any depth: where the source has something that is not nil and can be
      assigned, that; where it has nothing, nil or something of another type, what the destination had. */
  lemma {:induction false} CopyAtEveryPath(dst: Tree, src: Tree, path: seq<string>)
    requires Fits(dst, src) && At(dst, path).Some? && !At(dst, path).value.TStruct?
    ensures var ours, theirs, out := At(dst, path).value, At(src, path), At(Merge(dst, src), path);
            out == Some(if theirs.Some? && !IsNil(theirs.value) && !theirs.value.TStruct?
                           && SameType(ours, theirs.value) then theirs.value
                        else ours)
    decreases |path|
  {
    if path == [] {
    } else if src.TStruct? {
      var i := FieldNamed(dst.fields, path[0]).value;
      var merged := MergeFields(dst.fields, src);
      assert Merge(dst, src).fields == merged;
      SameNames(dst.fields, merged, path[0]);
      var j := FieldNamed(src.fields, path[0]);
      if j.Some? {
        CopyAtEveryPath(dst.fields[i].tree, src.fields[j.value].tree, path[1..]);
      }
    } else {
      assert Merge(dst, src) == dst;
    }
  }

  lemma SameNames(a: seq<TreeField>, b: seq<TreeField>, name: string)
    requires |a| == |b| && forall i | 0 <= i < |a| :: a[i].name == b[i].name
    ensures FieldNamed(a, name) == FieldNamed(b, name)
  {
    assert TreeNames(a) == TreeNames(b);
  }

  /** A field of the destination that the source lacks, or holds nil in, keeps its value. */
  lemma CopyKeepsAbsentFields(dst: Tree, src: Tree, i: nat)
    requires dst.TStruct? && src.TStruct? && i < |dst.fields|
    requires var j := FieldNamed(src.fields, dst.fields[i].name);
             j.Some? ==> src.fields[j.value].tree.TNil? || src.fields[j.value].tree.TNilSlice?
                         || src.fields[j.value].tree.TNilMap?
    ensures Merge(dst, src).TStruct? && |Merge(dst, src).fields| == |dst.fields|
    ensures Merge(dst, src).fields[i] == dst.fields[i]
  {
    assert Merge(dst, src).fields == MergeFields(dst.fields, src);
    var j := FieldNamed(src.fields, dst.fields[i].name);
    if j.Some? {
      assert Merge(dst.fields[i].tree, src.fields[j.value].tree) == dst.fields[i].tree;
    }
  }

  lemma {:induction false} UnfoldZero(h: Heap, v: Value, d: nat, s: iset<nat>)
    requires Acyclic(h, v, d)
    ensures Acyclic(h, ZeroLike(v), d) && Within(h, ZeroLike(v), d, s)
    ensures Unfold(h, ZeroLike(v), d) == Zero(Unfold(h, v, d))
    decreases d
  {
    if v.Struct? {
      var zeros := ZeroLike(v).fields;
      assert forall i | 0 <= i < |zeros| :: zeros[i].name == v.fields[i].name;
      forall i | 0 <= i < |zeros|
        ensures Acyclic(h, zeros[i].value, d - 1) && Within(h, zeros[i].value, d - 1, s)
        ensures Unfold(h, zeros[i].value, d - 1) == Zero(Unfold(h, v.fields[i].value, d - 1))
      {
        UnfoldZero(h, v.fields[i].value, d - 1, s);
      }
    }
  }

  lemma {:induction false} UnfoldHasDistinctNames(h: Heap, v: Value, d: nat)
    requires Acyclic(h, v, d)
    ensures DistinctTreeNames(Unfold(h, v, d))
    decreases d
  {
    if v.Struct? {
      forall i | 0 <= i < |v.fields|
        ensures DistinctTreeNames(Unfold(h, v.fields[i].value, d - 1))
      {
        UnfoldHasDistinctNames(h, v.fields[i].value, d - 1);
      }
    }
  }

  // The copy

  function FieldOf(fields: seq<Field>, name: string): (at: Option<nat>)
    ensures at.Some? ==> at.value < |fields|
  {
    Position(FieldNames(fields), name)
  }

  lemma FieldOfUnfolds(fields: seq<Field>, trees: seq<TreeField>, name: string)
    requires |fields| == |trees| && forall i | 0 <= i < |fields| :: fields[i].name == trees[i].name
    ensures FieldOf(fields, name) == FieldNamed(trees, name)
  {
    assert FieldNames(fields) == TreeNames(trees);
  }

  /** What rcopy promises of a destination's new content `out`, in the heap `h'` it leaves, against the heap it met. */
  ghost predicate Copied(h: Heap, dst: Value, src: Value, d: nat, s: iset<nat>, h': Heap, out: Value)
    requires Acyclic(h, dst, d) && Acyclic(h, src, d)
  {
    && Extends(h, h', From(0))
    && Acyclic(h', out, d)
    && Unfold(h', out, d) == Merge(Unfold(h, dst, d), Unfold(h, src, d))
    && (Within(h, dst, d, s) ==> Within(h', out, d, s))
  }

  /** A destination field `ours` now holds `field`, which unfolds as the merge says. */
  ghost predicate FieldCopied(h: Heap, ours: Field, merged: TreeField, d: nat, s: iset<nat>, h': Heap, field: Field)
    requires Acyclic(h, ours.value, d)
  {
    && Acyclic(h', field.value, d)
    && TreeField(field.name, Unfold(h', field.value, d)) == merged
    && field.name == ours.name
    && (Within(h, ours.value, d, s) ==> Within(h', field.value, d, s))
  }

  /** `v` reaches only cells in `s`, and looks like `theirs` did. */
  ghost predicate ElementCopied(h: Heap, theirs: Value, d: nat, s: iset<nat>, h': Heap, v: Value)
    requires Acyclic(h, theirs, d)
  {
    Acyclic(h', v, d) && Within(h', v, d, s) && Unfold(h', v, d) == Unfold(h, theirs, d)
  }

  lemma FrameElement(h: Heap, theirs: Value, d: nat, n: nat, h': Heap, h'': Heap, v: Value)
    requires Acyclic(h, theirs, d) && ElementCopied(h, theirs, d, From(n), h', v) && Extends(h', h'', From(n))
    ensures ElementCopied(h, theirs, d, From(n), h'', v)
  {
    Frame(h', h'', v, d, From(n));
  }

  /** The entries copied before stay copied when one more is set. */
  lemma EntriesLast(h: Heap, source: map<string, Value>, d: nat, a: nat, before: Heap, h': Heap, k: string)
    requires forall j | j in source :: Acyclic(h, source[j], d)
    requires a < |before| <= |h'| && before[a].Entries? && h'[a].Entries? && Extends(before, h', From(a + 1))
    requires before[a].entries.Keys <= source.Keys && k in source && k in h'[a].entries
    requires h'[a].entries == before[a].entries[k := h'[a].entries[k]]
    requires forall j | j in before[a].entries ::
               ElementCopied(h, source[j], d, From(a + 1), before, before[a].entries[j])
    requires ElementCopied(h, source[k], d, From(a + 1), h', h'[a].entries[k])
    ensures forall j | j in h'[a].entries :: ElementCopied(h, source[j], d, From(a + 1), h', h'[a].entries[j])
  {
    forall j | j in before[a].entries
      ensures ElementCopied(h, source[j], d, From(a + 1), h', before[a].entries[j])
    {
      FrameElement(h, source[j], d, a + 1, before, h', before[a].entries[j]);
    }
  }

  lemma FrameField(h: Heap, h': Heap, v: Value, d: nat, s: iset<nat>)
    requires Acyclic(h, v, d) && Extends(h, h', From(0))
    ensures Acyclic(h', v, d) && Unfold(h', v, d) == Unfold(h, v, d)
    ensures Within(h, v, d, s) ==> Within(h', v, d, s)
  {
    WithinAll(h, v, d);
    Frame(h, h', v, d, From(0));
    if Within(h, v, d, s) {
      Frame(h, h', v, d, s);
    }
  }

  lemma ElementWithin(h: Heap, theirs: Value, d: nat, a: nat, s: iset<nat>, h': Heap, v: Value)
    requires Acyclic(h, theirs, d) && From(|h|) <= s && |h| <= a
    requires ElementCopied(h, theirs, d, From(a + 1), h', v)
    ensures Acyclic(h', v, d) && Within(h', v, d, s) && Unfold(h', v, d) == Unfold(h, theirs, d)
  {
    assert From(a + 1) <= From(|h|);
    WithinMonotone(h', v, d, From(a + 1), s);
  }

  lemma MapCopied(h: Heap, src: Value, d: nat, s: iset<nat>, h': Heap, a: nat)
    requires Acyclic(h, src, d) && src.Map? && src.table.Some?
    requires From(|h|) <= s && |h| <= a < |h'| && h'[a].Entries?
    requires h'[a].entries.Keys == h[src.table.value].entries.Keys
    requires forall k | k in h'[a].entries ::
               ElementCopied(h, h[src.table.value].entries[k], d - 1, From(a + 1), h', h'[a].entries[k])
    ensures ElementCopied(h, src, d, s, h', Map(src.typ, Some(a)))
  {
    var out, source := Map(src.typ, Some(a)), h[src.table.value].entries;
    forall k | k in h'[a].entries
      ensures Acyclic(h', h'[a].entries[k], d - 1) && Within(h', h'[a].entries[k], d - 1, s)
      ensures Unfold(h', h'[a].entries[k], d - 1) == Unfold(h, source[k], d - 1)
    {
      ElementWithin(h, source[k], d - 1, a, s, h', h'[a].entries[k]);
    }
    assert Acyclic(h', out, d) && Within(h', out, d, s) by {
      hide Unfold, ElementCopied;
      assert d > 0 && a in s;
    }
    MapLooks(h, src, d, h', out);
  }

  lemma MapLooks(h: Heap, src: Value, d: nat, h': Heap, out: Value)
    requires Acyclic(h, src, d) && src.Map? && src.table.Some?
    requires Acyclic(h', out, d) && out.Map? && out.table.Some? && out.typ == src.typ
    requires h'[out.table.value].entries.Keys == h[src.table.value].entries.Keys
    requires forall k | k in h'[out.table.value].entries ::
               Unfold(h', h'[out.table.value].entries[k], d - 1) == Unfold(h, h[src.table.value].entries[k], d - 1)
    ensures Unfold(h', out, d) == Unfold(h, src, d)
  {
    assert Unfold(h', out, d).entries == Unfold(h, src, d).entries;
  }

  lemma SliceCopied(h: Heap, src: Value, d: nat, s: iset<nat>, h': Heap, a: nat)
    requires Acyclic(h, src, d) && src.Slice? && src.backing.Some?
    requires From(|h|) <= s && |h| <= a < |h'| && h'[a].Elements?
    requires |h'[a].elems| == |h[src.backing.value].elems|
    requires forall j | 0 <= j < |h'[a].elems| ::
               ElementCopied(h, h[src.backing.value].elems[j], d - 1, From(a + 1), h', h'[a].elems[j])
    ensures ElementCopied(h, src, d, s, h', Slice(src.typ, Some(a)))
  {
    var out, source := Slice(src.typ, Some(a)), h[src.backing.value].elems;
    forall j | 0 <= j < |source|
      ensures Acyclic(h', h'[a].elems[j], d - 1) && Within(h', h'[a].elems[j], d - 1, s)
      ensures Unfold(h', h'[a].elems[j], d - 1) == Unfold(h, source[j], d - 1)
    {
      ElementWithin(h, source[j], d - 1, a, s, h', h'[a].elems[j]);
    }
    assert Acyclic(h', out, d) && Within(h', out, d, s);
    assert Unfold(h', out, d).elems == Unfold(h, src, d).elems;
  }

  /** A fresh copy is what a destination of the same type then holds. */
  lemma FreshIsCopied(h: Heap, dst: Value, src: Value, d: nat, s: iset<nat>, h': Heap, out: Value)
    requires Acyclic(h, dst, d) && Acyclic(h, src, d) && Extends(h, h', From(0))
    requires ElementCopied(h, src, d, s, h', out)
    requires (src.Map? && src.table.Some?) || (src.Slice? && src.backing.Some? && dst.Slice? && dst.typ == src.typ)
    ensures Copied(h, dst, src, d, s, h', out)
  {
  }

  /** Field `j` of the merge. */
  ghost function MergedField(h: Heap, dst: Value, src: Value, d: nat, j: nat): TreeField
    requires Acyclic(h, dst, d) && Acyclic(h, src, d) && dst.Struct? && src.Struct? && j < |dst.fields|
  {
    MergeFields(Unfold(h, dst, d).fields, Unfold(h, src, d))[j]
  }

  lemma StructParts(h: Heap, dst: Value, src: Value, d: nat)
    requires Acyclic(h, dst, d) && Acyclic(h, src, d) && src.Struct?
    requires Fits(Unfold(h, dst, d), Unfold(h, src, d))
    ensures d > 0 && dst.Struct?
    ensures forall i | 0 <= i < |dst.fields| :: Acyclic(h, dst.fields[i].value, d - 1)
    ensures forall i | 0 <= i < |src.fields| :: Acyclic(h, src.fields[i].value, d - 1)
  {
  }

  lemma FieldFits(dst: Tree, src: Tree, i: nat)
    requires src.TStruct? && Fits(dst, src) && i < |dst.fields|
    ensures var k := FieldNamed(src.fields, dst.fields[i].name);
            k.Some? ==> Fits(dst.fields[i].tree, src.fields[k.value].tree)
  {
  }

  /** After the fields before it, field `i` can be copied, and until then it is as the destination had it. */
  lemma FieldReady(h: Heap, dst: Value, src: Value, d: nat, s: iset<nat>, before: Heap, i: nat)
    requires Acyclic(h, dst, d) && Acyclic(h, src, d) && src.Struct? && dst.Struct? && i < |dst.fields|
    requires Fits(Unfold(h, dst, d), Unfold(h, src, d)) && Extends(h, before, From(0))
    ensures Acyclic(before, dst.fields[i].value, d - 1)
    ensures var k := FieldOf(src.fields, dst.fields[i].name);
            if k.Some? then
              && Acyclic(before, src.fields[k.value].value, d - 1)
              && Fits(Unfold(before, dst.fields[i].value, d - 1), Unfold(before, src.fields[k.value].value, d - 1))
            else FieldCopied(h, dst.fields[i], MergedField(h, dst, src, d, i), d - 1, s, before, dst.fields[i])
  {
    var theirs := Unfold(h, src, d).fields;
    FieldOfUnfolds(src.fields, theirs, dst.fields[i].name);
    FrameField(h, before, dst.fields[i].value, d - 1, s);
    var k := FieldOf(src.fields, dst.fields[i].name);
    if k.Some? {
      FrameField(h, before, src.fields[k.value].value, d - 1, s);
      FieldFits(Unfold(h, dst, d), Unfold(h, src, d), i);
    }
  }

  lemma FieldDone(
    h: Heap, dst: Value, src: Value, d: nat, s: iset<nat>, before: Heap, h': Heap, i: nat, value: Value)
    requires Acyclic(h, dst, d) && Acyclic(h, src, d) && src.Struct? && dst.Struct? && i < |dst.fields|
    requires Extends(h, before, From(0)) && FieldOf(src.fields, dst.fields[i].name).Some?
    requires var theirs := src.fields[FieldOf(src.fields, dst.fields[i].name).value].value;
             && Acyclic(before, dst.fields[i].value, d - 1) && Acyclic(before, theirs, d - 1)
             && Copied(before, dst.fields[i].value, theirs, d - 1, s, h', value)
    ensures FieldCopied(h, dst.fields[i], MergedField(h, dst, src, d, i), d - 1, s,
                        h', Field(dst.fields[i].name, value))
  {
    FieldOfUnfolds(src.fields, Unfold(h, src, d).fields, dst.fields[i].name);
    FrameField(h, before, dst.fields[i].value, d - 1, s);
    FrameField(h, before, src.fields[FieldOf(src.fields, dst.fields[i].name).value].value, d - 1, s);
  }

  lemma FieldLasts(
    h: Heap, ours: Field, merged: TreeField, d: nat, s: iset<nat>, before: Heap, h': Heap, field: Field)
    requires Acyclic(h, ours.value, d) && FieldCopied(h, ours, merged, d, s, before, field)
    requires Extends(before, h', From(0))
    ensures FieldCopied(h, ours, merged, d, s, h', field)
  {
    FrameField(before, h', field.value, d, s);
  }

  lemma StructCopied(h: Heap, dst: Value, src: Value, d: nat, s: iset<nat>, h': Heap, out: Value)
    requires Acyclic(h, dst, d) && Acyclic(h, src, d) && dst.Struct? && src.Struct? && Extends(h, h', From(0))
    requires out.Struct? && |out.fields| == |dst.fields|
    requires forall j | 0 <= j < |dst.fields| ::
               FieldCopied(h, dst.fields[j], MergedField(h, dst, src, d, j), d - 1, s, h', out.fields[j])
    ensures Copied(h, dst, src, d, s, h', out)
  {
    assert Unfold(h', out, d).fields == MergeFields(Unfold(h, dst, d).fields, Unfold(h, src, d));
  }

  class Memory {
    var cells: Heap

    constructor (cells: Heap)
      ensures this.cells == cells
    {
      this.cells := cells;
    }

    /** Copies `src` over a settable destination holding `dst`; the result is what the destination then holds. New cells
        are made at the end of the heap and filled in place; no earlier cell changes. `d` bounds the depth of both, and
        `s` any set of addresses, holding all new ones, that the destination stays within. */
    method RCopy(dst: Value, src: Value, ghost d: nat, ghost s: iset<nat>) returns (out: Value)
      requires Acyclic(cells, dst, d) && Acyclic(cells, src, d) && From(|cells|) <= s
      requires Fits(Unfold(cells, dst, d), Unfold(cells, src, d))
      modifies this
      ensures Copied(old(cells), dst, src, d, s, cells, out)
      decreases d, 1
    {
      match src
      case Scalar(t, _) =>
        out := if dst.Scalar? && dst.typ == t then src else dst;
      case Pointer(_, None) =>
        out := dst;
      case Pointer(t, Some(a)) =>
        out := CopyPointer(dst, src, d, s);
      case Struct(_) =>
        out := CopyStruct(dst, src, d, s);
      case Slice(t, to) =>
        if to.None? || !dst.Slice? || t != dst.typ {
          out := dst;
        } else {
          out := CopySlice(dst, src, d, s);
        }
      case Map(_, None) =>
        out := dst;
      case Map(_, Some(_)) =>
        out := CopyMap(dst, src, d, s);
    }

    /** A new cell holding the zero value takes the pointer's place, and the pointed-to value is copied into it. */
    method CopyPointer(dst: Value, src: Value, ghost d: nat, ghost s: iset<nat>) returns (out: Value)
      requires Acyclic(cells, dst, d) && Acyclic(cells, src, d) && From(|cells|) <= s
      requires src.Pointer? && src.to.Some?
      modifies this
      ensures Copied(old(cells), dst, src, d, s, cells, out)
      decreases d, 0
    {
      ghost var h := cells;
      var target := cells[src.to.value].value;
      var a := |cells|;
      cells := cells + [Box(ZeroLike(target))];
      var content := CopyFresh(target, d - 1, h, From(a + 1));
      ghost var filled := cells;
      cells := cells[a := Box(content)];
      out := Pointer(src.typ, Some(a));
      Frame(filled, cells, content, d - 1, From(a + 1));
      WithinMonotone(cells, content, d - 1, From(a + 1), s);
    }

    /** Field by field in the destination's order; a field the source lacks is left alone. */
    method CopyStruct(dst: Value, src: Value, ghost d: nat, ghost s: iset<nat>) returns (out: Value)
      requires Acyclic(cells, dst, d) && Acyclic(cells, src, d) && From(|cells|) <= s
      requires src.Struct? && Fits(Unfold(cells, dst, d), Unfold(cells, src, d))
      modifies this
      ensures Copied(old(cells), dst, src, d, s, cells, out)
      decreases d, 0
    {
      hide Acyclic, Unfold, Fits, FieldCopied, MergeFields, FieldNamed, FieldOf;
      ghost var h := cells;
      StructParts(h, dst, src, d);
      var fields := dst.fields;
      var i := 0;
      while i < |fields|
        invariant 0 <= i <= |fields| == |dst.fields|
        invariant Extends(h, cells, From(0))
        invariant forall j | 0 <= j < i ::
                    FieldCopied(h, dst.fields[j], MergedField(h, dst, src, d, j), d - 1, s, cells, fields[j])
        invariant forall j | i <= j < |fields| :: fields[j] == dst.fields[j]
      {
        ghost var before := cells;
        var name, current := fields[i].name, fields[i].value;
        FieldReady(h, dst, src, d, s, before, i);
        var k := FieldOf(src.fields, name);
        if k.Some? {
          var value := RCopy(current, src.fields[k.value].value, d - 1, s);
          FieldDone(h, dst, src, d, s, before, cells, i, value);
          fields := fields[i := Field(name, value)];
        }
        forall j | 0 <= j < i
          ensures FieldCopied(h, dst.fields[j], MergedField(h, dst, src, d, j), d - 1, s, cells, fields[j])
        {
          FieldLasts(h, dst.fields[j], MergedField(h, dst, src, d, j), d - 1, s, before, cells, fields[j]);
        }
        i := i + 1;
      }
      out := Struct(fields);
      StructCopied(h, dst, src, d, s, cells, out);
    }

    /** A new backing array of zero values, filled one element at a time. */
    method CopySlice(dst: Value, src: Value, ghost d: nat, ghost s: iset<nat>) returns (out: Value)
      requires Acyclic(cells, dst, d) && Acyclic(cells, src, d) && From(|cells|) <= s
      requires src.Slice? && src.backing.Some? && dst.Slice? && dst.typ == src.typ
      modifies this
      ensures Copied(old(cells), dst, src, d, s, cells, out)
      decreases d, 0
    {
      ghost var h := cells;
      var source := cells[src.backing.value].elems;
      assert forall j | 0 <= j < |source| :: Acyclic(h, source[j], d - 1);
      hide Acyclic, Unfold, Within, Merge, Copied, ZeroLike, ElementCopied;
      var a := |cells|;
      cells := cells + [Elements(seq(|source|, i requires 0 <= i < |source| => ZeroLike(source[i])))];
      var i := 0;
      while i < |source|
        invariant 0 <= i <= |source|
        invariant Extends(h, cells, From(0)) && a < |cells| && cells[a].Elements? && |cells[a].elems| == |source|
        invariant forall j | 0 <= j < i :: ElementCopied(h, source[j], d - 1, From(a + 1), cells, cells[a].elems[j])
      {
        ghost var before := cells;
        var value := CopyFresh(source[i], d - 1, h, From(a + 1));
        ghost var grown := cells;
        cells := cells[a := Elements(cells[a].elems[i := value])];
        FrameElement(h, source[i], d - 1, a + 1, grown, cells, value);
        forall j | 0 <= j < i
          ensures ElementCopied(h, source[j], d - 1, From(a + 1), cells, cells[a].elems[j])
        {
          FrameElement(h, source[j], d - 1, a + 1, before, cells, before[a].elems[j]);
        }
        i := i + 1;
      }
      out := Slice(src.typ, Some(a));
      SliceCopied(h, src, d, s, cells, a);
      FreshIsCopied(h, dst, src, d, s, cells, out);
    }

    /** A new table, one copied value per key. */
    method CopyMap(dst: Value, src: Value, ghost d: nat, ghost s: iset<nat>) returns (out: Value)
      requires Acyclic(cells, dst, d) && Acyclic(cells, src, d) && From(|cells|) <= s
      requires src.Map? && src.table.Some?
      modifies this
      ensures Copied(old(cells), dst, src, d, s, cells, out)
      decreases d, 0
    {
      ghost var h := cells;
      var source := cells[src.table.value].entries;
      assert forall k | k in source :: Acyclic(h, source[k], d - 1);
      hide Acyclic, Unfold, Within, Merge, MergeFields, Fits, Copied, ElementCopied;
      var a := |cells|;
      cells := cells + [Entries(map[])];
      var keys := source.Keys;
      while keys != {}
        invariant keys <= source.Keys
        invariant Extends(h, cells, From(0)) && a < |cells| && cells[a].Entries?
        invariant cells[a].entries.Keys == source.Keys - keys
        invariant forall k | k in cells[a].entries ::
                    ElementCopied(h, source[k], d - 1, From(a + 1), cells, cells[a].entries[k])
        decreases keys
      {
        ghost var before := cells;
        var k :| k in keys;
        SetMapIndex(a, k, source[k], d - 1, h);
        EntriesLast(h, source, d - 1, a, before, cells, k);
        keys := keys - {k};
      }
      out := Map(src.typ, Some(a));
      MapCopied(h, src, d, s, cells, a);
      FreshIsCopied(h, dst, src, d, s, cells, out);
    }

    /** Copies one value of `h` and stores it under `k` in the table `a`. */
    method SetMapIndex(a: nat, k: string, src: Value, ghost d: nat, ghost h: Heap)
      requires Acyclic(h, src, d) && Extends(h, cells, From(0)) && |h| <= a < |cells| && cells[a].Entries?
      modifies this
      ensures Extends(h, cells, From(0)) && Extends(old(cells), cells, From(a + 1)) && cells[a].Entries?
      ensures k in cells[a].entries && cells[a].entries == old(cells)[a].entries[k := cells[a].entries[k]]
      ensures ElementCopied(h, src, d, From(a + 1), cells, cells[a].entries[k])
      decreases d, 3
    {
      hide Unfold, Within, ElementCopied;
      var value := CopyFresh(src, d, h, From(a + 1));
      ghost var grown := cells;
      cells := cells[a := Entries(cells[a].entries[k := value])];
      FrameElement(h, src, d, a + 1, grown, cells, value);
    }

    /** Copies a value of `h` over the zero value of its type, reaching only cells made on the way. */
    method CopyFresh(src: Value, ghost d: nat, ghost h: Heap, ghost s: iset<nat>) returns (out: Value)
      requires Acyclic(h, src, d) && Extends(h, cells, From(0)) && From(|cells|) <= s
      modifies this
      ensures Extends(old(cells), cells, From(0))
      ensures ElementCopied(h, src, d, s, cells, out)
      decreases d, 2
    {
      WithinAll(h, src, d);
      Frame(h, cells, src, d, From(0));
      UnfoldZero(cells, src, d, s);
      UnfoldHasDistinctNames(cells, src, d);
      CopyOverZero(Unfold(cells, src, d));
      out := RCopy(ZeroLike(src), src, d, s);
    }

    /** A copy of what `src` points to, in a new cell. `zero` is the zero value of the pointed-to type. Everything the
        heap held is unchanged, and every cell the copy reaches is new. */
    method CopyOf(src: Value, zero: Value, ghost d: nat) returns (dst: Value)
      requires src.Pointer? && Acyclic(cells, src, d + 1)
      requires Acyclic(cells, zero, d) && Within(cells, zero, d, iset{})
      requires src.to.Some? ==> zero == ZeroLike(cells[src.to.value].value)
      modifies this
      ensures Extends(old(cells), cells, From(0))
      ensures Acyclic(cells, dst, d + 1) && Within(cells, dst, d + 1, From(|old(cells)|))
      ensures dst.Pointer? && dst.to == Some(|old(cells)|)
      ensures Acyclic(cells, src, d + 1) && Unfold(cells, src, d + 1) == Unfold(old(cells), src, d + 1)
      ensures if src.to.Some? then Unfold(cells, dst, d + 1) == Unfold(old(cells), src, d + 1)
              else cells == old(cells) + [Box(zero)]
    {
      ghost var h := cells;
      var a := |cells|;
      cells := cells + [Box(zero)];
      if src.to.Some? {
        var content := CopyFresh(cells[src.to.value].value, d, h, From(a + 1));
        ghost var filled := cells;
        cells := cells[a := Box(content)];
        Frame(filled, cells, content, d, From(a + 1));
        WithinMonotone(cells, content, d, From(a + 1), From(a));
      } else {
        WithinMonotone(h, zero, d, iset{}, From(a));
        Frame(h, cells, zero, d, From(a));
      }
      FrameField(h, cells, src, d + 1, From(0));
      dst := Pointer(src.typ, Some(a));
    }

    /** Copies what `src` points to over the existing cell `to`. Only that cell changes, the source looks the same
        afterwards, and the cell looks as the merge says. The source must not reach the destination cell. */
    method Copy(to: nat, src: Value, ghost d: nat)
      requires to < |cells| && cells[to].Box? && Acyclic(cells, cells[to].value, d)
      requires src.Pointer? && Acyclic(cells, src, d + 1) && Within(cells, src, d + 1, Except(to))
      requires src.to.Some? ==> Fits(Unfold(cells, cells[to].value, d), Unfold(cells, cells[src.to.value].value, d))
      modifies this
      ensures Extends(old(cells), cells, Except(to)) && cells[to].Box?
      ensures Acyclic(cells, src, d + 1) && Unfold(cells, src, d + 1) == Unfold(old(cells), src, d + 1)
      ensures Within(cells, src, d + 1, Except(to))
      ensures Acyclic(cells, cells[to].value, d)
      ensures Unfold(cells, cells[to].value, d) ==
              var before := Unfold(old(cells), old(cells)[to].value, d);
              if src.to.None? then before else Merge(before, Unfold(old(cells), old(cells)[src.to.value].value, d))
    {
      ghost var h := cells;
      if src.to.Some? {
        SelfFree(h, to, d);
        var content := RCopy(cells[to].value, cells[src.to.value].value, d, Except(to) + From(|cells|));
        ghost var filled := cells;
        cells := cells[to := Box(content)];
        assert Except(to) + From(|h|) == Except(to);
        Frame(filled, cells, content, d, Except(to));
      }
      Frame(h, cells, src, d + 1, Except(to));
    }

    /** Whenever one copy is allowed so is a second, and it changes nothing that a reader of the destination sees. */
    method CopyTwice(to: nat, src: Value, ghost d: nat)
      requires to < |cells| && cells[to].Box? && Acyclic(cells, cells[to].value, d)
      requires src.Pointer? && Acyclic(cells, src, d + 1) && Within(cells, src, d + 1, Except(to))
      requires src.to.Some? ==> Fits(Unfold(cells, cells[to].value, d), Unfold(cells, cells[src.to.value].value, d))
      modifies this
      ensures Extends(old(cells), cells, Except(to)) && cells[to].Box?
      ensures Acyclic(cells, src, d + 1) && Unfold(cells, src, d + 1) == Unfold(old(cells), src, d + 1)
      ensures Acyclic(cells, cells[to].value, d)
      ensures Unfold(cells, cells[to].value, d) ==
              var before := Unfold(old(cells), old(cells)[to].value, d);
              if src.to.None? then before else Merge(before, Unfold(old(cells), old(cells)[src.to.value].value, d))
    {
      ghost var before := Unfold(cells, cells[to].value, d);
      ghost var h := cells;
      Copy(to, src, d);
      if src.to.Some? {
        ghost var source := Unfold(h, h[src.to.value].value, d);
        assert Unfold(cells, cells[src.to.value].value, d) == source;
        MergeStillFits(before, source);
        CopyIsIdempotent(before, source);
      }
      ghost var once := cells;
      Copy(to, src, d);
      assert Extends(h, cells, Except(to)) by {
        assert Extends(h, once, Except(to)) && Extends(once, cells, Except(to));
      }
    }
  }

  /** Depth bounds do not matter to where a value leads. */
  lemma {:induction false} WithinAtAnyDepth(h: Heap, v: Value, d: nat, e: nat, s: iset<nat>)
    requires Acyclic(h, v, d) && Acyclic(h, v, e) && Within(h, v, e, s)
    ensures Within(h, v, d, s)
    decreases d
  {
    match v
    case Scalar(_, _) =>
    case Pointer(_, None) =>
    case Pointer(_, Some(a)) => WithinAtAnyDepth(h, h[a].value, d - 1, e - 1, s);
    case Struct(fields) =>
      forall i | 0 <= i < |fields| { WithinAtAnyDepth(h, fields[i].value, d - 1, e - 1, s); }
    case Slice(_, None) =>
    case Slice(_, Some(a)) =>
      forall i | 0 <= i < |h[a].elems| { WithinAtAnyDepth(h, h[a].elems[i], d - 1, e - 1, s); }
    case Map(_, None) =>
    case Map(_, Some(a)) =>
      forall k | k in h[a].entries { WithinAtAnyDepth(h, h[a].entries[k], d - 1, e - 1, s); }
  }

  /** A value that leads to cell `a` gives that cell's content a smaller bound. */
  lemma {:induction false} LeadsTo(h: Heap, v: Value, d: nat, a: nat) returns (e: nat)
    requires Acyclic(h, v, d) && !Within(h, v, d, Except(a)) && a < |h| && h[a].Box?
    ensures e < d && Acyclic(h, h[a].value, e)
    decreases d
  {
    match v
    case Pointer(_, Some(b)) =>
      if a == b {
        e := d - 1;
      } else {
        e := LeadsTo(h, h[b].value, d - 1, a);
      }
    case Struct(fields) =>
      var i :| 0 <= i < |fields| && !Within(h, fields[i].value, d - 1, Except(a));
      e := LeadsTo(h, fields[i].value, d - 1, a);
    case Slice(_, Some(b)) =>
      var i :| 0 <= i < |h[b].elems| && !Within(h, h[b].elems[i], d - 1, Except(a));
      e := LeadsTo(h, h[b].elems[i], d - 1, a);
    case Map(_, Some(b)) =>
      var k :| k in h[b].entries && !Within(h, h[b].entries[k], d - 1, Except(a));
      e := LeadsTo(h, h[b].entries[k], d - 1, a);
    case _ =>
      assert false;
  }

  /** The content of a cell does not lead back to the cell. */
  lemma {:induction false} SelfFree(h: Heap, a: nat, d: nat)
    requires a < |h| && h[a].Box? && Acyclic(h, h[a].value, d)
    ensures Within(h, h[a].value, d, Except(a))
    decreases d
  {
    if !Within(h, h[a].value, d, Except(a)) {
      var e := LeadsTo(h, h[a].value, d, a);
      SelfFree(h, a, e);
      WithinAtAnyDepth(h, h[a].value, d, e, Except(a));
    }
  }
}
