/** The copy a processor works on, at the level of maps and lists that share memory.

    Objects and lists are nodes; a member or an element is a plain value or a link to a node. */
module JsonHeap {
  import opened Options
  import opened Binary64

  datatype Label = Field(name: string) | Index(i: nat)
  datatype Shape = AnObject | AList
  datatype Scalar = Nil | Flag(b: bool) | Number(n: int) | Text(s: string)

  /** A JSON value without identity: what a tree of nodes denotes, and what its JSON text carries. */
  datatype Tree = Leaf(scalar: Scalar) | Branch(shape: Shape, slots: map<Label, Tree>)

  datatype Value = Plain(scalar: Scalar) | To(node: Node)

  class Node {
    const shape: Shape
    var slots: map<Label, Value>
    ghost var repr: set<Node>

    constructor (shape: Shape)
      ensures this.shape == shape && slots == map[] && repr == {this}
    {
      this.shape, slots, repr := shape, map[], {this};
    }

    /** A tree: no node is reachable in two ways. */
    ghost predicate Valid()
      reads this, repr
      ensures Valid() ==> this in repr
      decreases repr, 1
    {
      this in repr && ChildrenValid() && ChildrenApart()
    }

    ghost predicate ChildrenValid()
      requires this in repr
      reads this, repr
      decreases repr, 0
    {
      forall l :: l in slots && slots[l].To? ==>
        && slots[l].node in repr && slots[l].node.repr <= repr && this !in slots[l].node.repr
        && slots[l].node.Valid()
    }

    ghost predicate ChildrenApart()
      reads this, repr
    {
      forall l, k :: l in slots && k in slots && l != k && slots[l].To? && slots[k].To? ==>
        slots[l].node in repr && slots[k].node in repr && slots[l].node.repr !! slots[k].node.repr
    }

    /** The value the node denotes. */
    function ToTree(): (t: Tree)
      requires Valid()
      reads this, repr
      ensures t.Branch? && t.shape == shape
      decreases repr, 0
    {
      assert ChildrenValid();
      Branch(shape, map l | l in slots :: if slots[l].Plain? then Leaf(slots[l].scalar) else slots[l].node.ToTree())
    }

    function MemberTree(l: Label): Tree
      requires Valid() && l in slots
      reads this, repr
    {
      assert ChildrenValid();
      if slots[l].Plain? then Leaf(slots[l].scalar) else slots[l].node.ToTree()
    }

    lemma Members()
      requires Valid()
      ensures ToTree().slots.Keys == slots.Keys
      ensures forall l :: l in slots ==> ToTree().slots[l] == MemberTree(l)
    {
    }

    /** m[l] = v for a v with no node in common with m, or delete(m, l). */
    method Edit(l: Label, v: Option<Value>)
      requires Valid() && Separate(v, repr)
      modifies this
      ensures Valid() && ValidChange(v) && repr == old(repr) + NodesOf(v)
      ensures ToTree() == Branch(shape, Edited(old(ToTree()).slots, l, TreeChange(v)))
    {
      hide ToTree, ChildrenValid, ChildrenApart;
      ghost var tree := ToTree();
      Members();
      Store(l, v);
      Members();
      assert ToTree().slots == Edited(tree.slots, l, TreeChange(v));
    }

    method Store(l: Label, v: Option<Value>)
      requires Valid() && Separate(v, repr)
      modifies this
      ensures Valid() && ValidChange(v) && repr == old(repr) + NodesOf(v)
      ensures slots == if v.Some? then old(slots)[l := v.value] else old(slots) - {l}
      ensures forall k :: k in old(slots) && k != l && old(slots)[k].To? ==>
                && old(slots[k].node.Valid()) && old(slots)[k].node.Valid()
                && old(slots)[k].node.ToTree() == old(slots[k].node.ToTree())
    {
      hide ToTree;
      ghost var was := slots;
      slots := if v.Some? then slots[l := v.value] else slots - {l};
      repr := repr + NodesOf(v);
      forall k | k in was && k != l && was[k].To?
        ensures was[k].node.Valid() && this !in was[k].node.repr && was[k].node.ToTree() == old(was[k].node.ToTree())
      {
        assert old(was[k].node.Valid());
      }
      assert ChildrenApart();
    }

    /** The same one level below: m[at][l] = v, or delete(m[at], l). */
    method EditBelow(at: Label, l: Label, v: Option<Value>)
      requires Valid() && at in slots && slots[at].To? && Separate(v, repr)
      modifies this, slots[at].node
      ensures Valid() && ValidChange(v) && repr == old(repr) + NodesOf(v)
      ensures at in old(ToTree()).slots && old(ToTree()).slots[at].Branch?
      ensures ToTree() == Branch(shape, old(ToTree()).slots[at := EditedBranch(old(ToTree()).slots[at], l, TreeChange(v))])
    {
      hide ToTree;
      ghost var tree := ToTree();
      assert ChildrenValid();
      Members();
      StoreBelow(at, l, v);
      hide ChildrenValid, ChildrenApart;
      Members();
      assert ToTree().slots == tree.slots[at := EditedBranch(tree.slots[at], l, TreeChange(v))];
    }

    method StoreBelow(at: Label, l: Label, v: Option<Value>)
      requires Valid() && at in slots && slots[at].To? && Separate(v, repr)
      modifies this, slots[at].node
      ensures Valid() && ValidChange(v) && repr == old(repr) + NodesOf(v) && slots == old(slots)
      ensures old(slots[at].node.Valid()) && slots[at].node.Valid()
      ensures slots[at].node.ToTree()
           == Branch(slots[at].node.shape, Edited(old(slots[at].node.ToTree()).slots, l, TreeChange(v)))
      ensures forall k :: k in old(slots) && k != at && old(slots)[k].To? ==>
                && old(slots[k].node.Valid()) && slots[k].node.Valid()
                && slots[k].node.ToTree() == old(slots[k].node.ToTree())
    {
      hide ToTree;
      assert ChildrenValid() && ChildrenApart();
      var child := slots[at].node;
      child.Edit(l, v);
      repr := repr + NodesOf(v);
      forall k | k in slots && k != at && slots[k].To?
        ensures slots[k].node.Valid() && this !in slots[k].node.repr && slots[k].node.repr == old(slots[k].node.repr)
        ensures slots[k].node.ToTree() == old(slots[k].node.ToTree())
      {
        assert old(slots[k].node.Valid()) && old(slots[k].node.repr !! child.repr);
      }
      assert ChildrenApart();
    }
  }

  function Edited(slots: map<Label, Tree>, l: Label, t: Option<Tree>): map<Label, Tree> {
    if t.Some? then slots[l := t.value] else slots - {l}
  }

  function EditedBranch(t: Tree, l: Label, change: Option<Tree>): Tree
    requires t.Branch?
  {
    Branch(t.shape, Edited(t.slots, l, change))
  }

  ghost function NodesOf(v: Option<Value>): set<Node>
    reads if v.Some? && v.value.To? then {v.value.node} else {}
  {
    if v.Some? && v.value.To? then v.value.node.repr else {}
  }

  ghost predicate ValidChange(v: Option<Value>)
    reads if v.Some? && v.value.To? then {v.value.node} + v.value.node.repr else {}
  {
    v.Some? ==> ValidValue(v.value)
  }

  ghost predicate Separate(v: Option<Value>, nodes: set<Node>)
    reads if v.Some? && v.value.To? then {v.value.node} + v.value.node.repr else {}
  {
    ValidChange(v) && NodesOf(v) !! nodes
  }

  function TreeChange(v: Option<Value>): Option<Tree>
    requires ValidChange(v)
    reads if v.Some? && v.value.To? then {v.value.node} + v.value.node.repr else {}
  {
    if v.Some? then Some(TreeOf(v.value)) else None
  }

  ghost predicate ValidValue(v: Value)
    reads if v.To? then {v.node} + v.node.repr else {}
  {
    v.To? ==> v.node.Valid()
  }

  function TreeOf(v: Value): Tree
    requires ValidValue(v)
    reads if v.To? then {v.node} + v.node.repr else {}
  {
    if v.Plain? then Leaf(v.scalar) else v.node.ToTree()
  }

  // ---------------------------------------------------------------- the copy

  function RoundedScalar(s: Scalar): Scalar {
    if s.Number? then Number(Round(s.n)) else s
  }

  /** A value after `json.Marshal` and `json.Unmarshal`: its numbers are read back as binary64. */
  function Rounded(t: Tree): (r: Tree)
    ensures r.Branch? <==> t.Branch?
    ensures t.Branch? ==> r.shape == t.shape && r.slots.Keys == t.slots.Keys
  {
    match t
    case Leaf(s) => Leaf(RoundedScalar(s))
    case Branch(shape, slots) => Branch(shape, map l | l in slots :: Rounded(slots[l]))
  }

  function Except(slots: map<Label, Tree>, todo: set<Label>): map<Label, Tree> {
    map l | l in slots && l !in todo :: slots[l]
  }

  lemma OneLessToDo(slots: map<Label, Tree>, todo: set<Label>, l: Label)
    requires l in slots && l in todo
    ensures Except(slots, todo)[l := slots[l]] == Except(slots, todo - {l})
  {
  }

  lemma NothingToDo(slots: map<Label, Tree>)
    ensures Except(slots, {}) == slots
  {
  }

  /** A value in memory, made of nothing but new nodes. */
  method Build(t: Tree) returns (v: Value)
    ensures v.To? <==> t.Branch?
    ensures v.To? ==> v.node.Valid() && fresh(v.node.repr)
    ensures TreeOf(v) == t
    decreases t, 1
  {
    match t {
      case Leaf(s) => v := Plain(s);
      case Branch(_, _) =>
        var node := BuildNode(t);
        v := To(node);
    }
  }

  method BuildNode(t: Tree) returns (node: Node)
    requires t.Branch?
    ensures node.Valid() && fresh(node.repr)
    ensures node.ToTree() == t
    decreases t, 0
  {
    hide Node.Valid, Node.ToTree, Except;
    node := new Node(t.shape);
    var todo := t.slots.Keys;
    NothingBuilt(node, t.slots);
    while todo != {}
      invariant todo <= t.slots.Keys
      invariant node.Valid() && fresh(node.repr)
      invariant node.ToTree() == Branch(t.shape, Except(t.slots, todo))
      decreases |todo|
    {
      var l :| l in todo;
      BuildMember(node, l, t.slots[l]);
      OneLessToDo(t.slots, todo, l);
      todo := todo - {l};
    }
    NothingToDo(t.slots);
  }

  method BuildMember(node: Node, l: Label, t: Tree)
    requires node.Valid()
    modifies node
    ensures node.Valid() && fresh(node.repr - old(node.repr))
    ensures node.ToTree() == Branch(node.shape, old(node.ToTree()).slots[l := t])
    decreases t, 2
  {
    hide Node.Valid, Node.ChildrenValid, Node.ChildrenApart, Node.ToTree, TreeOf;
    var member := Build(t);
    node.Edit(l, Some(member));
  }

  lemma NothingBuilt(node: Node, slots: map<Label, Tree>)
    requires node.repr == {node} && node.slots == map[]
    ensures node.Valid() && node.ToTree() == Branch(node.shape, Except(slots, slots.Keys))
  {
    assert node.ChildrenValid();
  }

  /** `deepCopyMap`: the copy denotes the same value, numbers rounded, and shares no node. */
  method DeepCopy(m: Node) returns (copy: Node)
    requires m.Valid()
    ensures copy.Valid() && fresh(copy.repr)
    ensures copy.ToTree() == Rounded(m.ToTree())
  {
    copy := BuildNode(Rounded(m.ToTree()));
  }

  ghost predicate AllDoubles(t: Tree) {
    match t
    case Leaf(s) => s.Number? ==> IsDouble(s.n)
    case Branch(_, slots) => forall l :: l in slots ==> AllDoubles(slots[l])
  }

  /** The copy denotes the same value exactly when every number is a binary64. */
  lemma {:induction false} CopyIsExactForDoubles(t: Tree)
    ensures Rounded(t) == t <==> AllDoubles(t)
  {
    hide IsDouble, Round;
    match t {
      case Leaf(s) => if s.Number? { DoublesAreFixed(s.n); }
      case Branch(shape, slots) =>
        forall l | l in slots ensures Rounded(slots[l]) == slots[l] <==> AllDoubles(slots[l]) {
          CopyIsExactForDoubles(slots[l]);
        }
        assert AllDoubles(t) ==> Rounded(t).slots == slots;
        assert Rounded(t) == t ==> forall l :: l in slots ==> Rounded(t).slots[l] == slots[l];
    }
  }

  /** So a copy of a copy is the same as the copy. */
  lemma {:induction false} CopyIsAllDoubles(t: Tree)
    ensures AllDoubles(Rounded(t)) && Rounded(Rounded(t)) == Rounded(t)
  {
    hide IsDouble, Round;
    match t {
      case Leaf(s) => if s.Number? { DoublesAreFixed(s.n); }
      case Branch(shape, slots) =>
        forall l | l in slots ensures AllDoubles(Rounded(slots[l])) { CopyIsAllDoubles(slots[l]); }
    }
    CopyIsExactForDoubles(Rounded(t));
  }

  // ---------------------------------------------------------------- writes to the copy

  /** The ways handlers write to the metadata map, and to the maps and lists in it. */
  datatype Write =
    | SetMember(key: string, value: Tree)
    | DropMember(key: string)
    | SetIn(member: string, key: string, value: Tree)
    | DropIn(member: string, key: string)
    | Append(member: string, value: Tree)

  predicate Has(t: Tree, member: string, shape: Shape)
    requires t.Branch?
  {
    Field(member) in t.slots && t.slots[Field(member)].Branch? && t.slots[Field(member)].shape == shape
  }

  /** `ensureMap` and `ensureSlice`: anything else is replaced by an empty one. */
  function Ensured(t: Tree, member: string, shape: Shape): (r: Tree)
    requires t.Branch?
    ensures r.Branch? && r.shape == t.shape && Has(r, member, shape)
  {
    if Has(t, member, shape) then t else Branch(t.shape, t.slots[Field(member) := Branch(shape, map[])])
  }

  function WrittenBelow(t: Tree, member: string, l: Label, change: Option<Tree>): (r: Tree)
    requires t.Branch? && Field(member) in t.slots && t.slots[Field(member)].Branch?
    ensures r.Branch? && r.shape == t.shape
  {
    Branch(t.shape, t.slots[Field(member) := EditedBranch(t.slots[Field(member)], l, change)])
  }

  function Written(t: Tree, w: Write): (r: Tree)
    requires t.Branch?
    ensures r.Branch? && r.shape == t.shape
  {
    match w
    case SetMember(key, v) => EditedBranch(t, Field(key), Some(v))
    case DropMember(key) => EditedBranch(t, Field(key), None)
    case SetIn(member, key, v) => WrittenBelow(Ensured(t, member, AnObject), member, Field(key), Some(v))
    case DropIn(member, key) => if Has(t, member, AnObject) then WrittenBelow(t, member, Field(key), None) else t
    case Append(member, v) =>
      var e := Ensured(t, member, AList);
      WrittenBelow(e, member, Index(|e.slots[Field(member)].slots|), Some(v))
  }

  function WrittenAll(t: Tree, writes: seq<Write>): (r: Tree)
    requires t.Branch?
    ensures r.Branch?
  {
    if writes == [] then t else Written(WrittenAll(t, writes[..|writes| - 1]), writes[|writes| - 1])
  }

  class WorkingCopy {
    const metadata: Node

    /** `NewProcessor` */
    constructor (caller: Node)
      requires caller.Valid()
      ensures metadata.Valid() && fresh(metadata.repr)
      ensures metadata.ToTree() == Rounded(caller.ToTree())
    {
      hide Node.Valid, Node.ChildrenValid, Node.ChildrenApart, Node.ToTree, Rounded;
      var copy := DeepCopy(caller);
      metadata := copy;
    }

    method Ensure(member: string, shape: Shape)
      requires metadata.Valid()
      modifies metadata.repr
      ensures metadata.Valid() && fresh(metadata.repr - old(metadata.repr))
      ensures metadata.ToTree() == Ensured(old(metadata.ToTree()), member, shape)
    {
      hide Node.ToTree, Node.ChildrenApart, TreeOf;
      metadata.Members();
      var l := Field(member);
      if !(l in metadata.slots && metadata.slots[l].To? && metadata.slots[l].node.shape == shape) {
        BuildMember(metadata, l, Branch(shape, map[]));
      }
    }

    method EditMember(member: string, l: Label, change: Option<Tree>)
      requires metadata.Valid()
      requires Field(member) in metadata.ToTree().slots && metadata.ToTree().slots[Field(member)].Branch?
      modifies metadata.repr
      ensures metadata.Valid() && fresh(metadata.repr - old(metadata.repr))
      ensures metadata.ToTree() == WrittenBelow(old(metadata.ToTree()), member, l, change)
    {
      hide Node.ToTree, Node.ChildrenApart, TreeOf, Edited;
      metadata.Members();
      var v: Option<Value> := None;
      if change.Some? {
        var built := Build(change.value);
        v := Some(built);
      }
      metadata.EditBelow(Field(member), l, v);
    }

    /** One write, in place. */
    method Do(w: Write)
      requires metadata.Valid()
      modifies metadata.repr
      ensures metadata.Valid() && fresh(metadata.repr - old(metadata.repr))
      ensures metadata.ToTree() == Written(old(metadata.ToTree()), w)
    {
      hide Node.Valid, Node.ChildrenApart, Node.ChildrenValid, Node.ToTree, Ensured, WrittenBelow;
      match w {
        case SetMember(key, v) => BuildMember(metadata, Field(key), v);
        case DropMember(key) => metadata.Edit(Field(key), None);
        case SetIn(member, key, v) =>
          Ensure(member, AnObject);
          EditMember(member, Field(key), Some(v));
        case DropIn(member, key) =>
          if Has(metadata.ToTree(), member, AnObject) {
            EditMember(member, Field(key), None);
          }
        case Append(member, v) =>
          Ensure(member, AList);
          EditMember(member, Index(|metadata.ToTree().slots[Field(member)].slots|), Some(v));
      }
    }

    method DoAll(writes: seq<Write>)
      requires metadata.Valid()
      modifies metadata.repr
      ensures metadata.Valid() && fresh(metadata.repr - old(metadata.repr))
      ensures metadata.ToTree() == WrittenAll(old(metadata.ToTree()), writes)
    {
      hide Node.Valid, Node.ChildrenApart, Node.ChildrenValid, Node.ToTree, Written;
      for i := 0 to |writes|
        invariant metadata.Valid() && fresh(metadata.repr - old(metadata.repr))
        invariant metadata.ToTree() == WrittenAll(old(metadata.ToTree()), writes[..i])
      {
        assert writes[..i + 1][..i] == writes[..i];
        Do(writes[i]);
      }
      assert writes[..|writes|] == writes;
    }
  }

  /** Whatever a processor writes to its copy, and wherever it stops, the caller's metadata has no
      node in common with the copy and still denotes what it did. */
  method CopyThenWrite(caller: Node, writes: seq<Write>) returns (copy: WorkingCopy)
    requires caller.Valid()
    ensures copy.metadata.Valid() && fresh(copy.metadata.repr)
    ensures copy.metadata.repr !! caller.repr
    ensures caller.Valid() && caller.ToTree() == old(caller.ToTree())
    ensures copy.metadata.ToTree() == WrittenAll(Rounded(old(caller.ToTree())), writes)
  {
    hide Node.Valid, Node.ChildrenApart, Node.ChildrenValid, Node.ToTree, WrittenAll;
    copy := new WorkingCopy(caller);
    copy.DoAll(writes);
  }

  function RoundedWrite(w: Write): Write {
    match w
    case SetMember(key, v) => SetMember(key, Rounded(v))
    case SetIn(member, key, v) => SetIn(member, key, Rounded(v))
    case Append(member, v) => Append(member, Rounded(v))
    case _ => w
  }

  function RoundedChange(change: Option<Tree>): Option<Tree> {
    if change.Some? then Some(Rounded(change.value)) else None
  }

  lemma RoundedEdit(t: Tree, l: Label, change: Option<Tree>)
    requires t.Branch?
    ensures Rounded(EditedBranch(t, l, change)) == EditedBranch(Rounded(t), l, RoundedChange(change))
  {
    hide RoundedScalar;
    var a, b := Rounded(EditedBranch(t, l, change)).slots, EditedBranch(Rounded(t), l, RoundedChange(change)).slots;
    assert a.Keys == b.Keys;
    forall k | k in a ensures a[k] == b[k] {
      if k != l { assert a[k] == Rounded(t.slots[k]); }
    }
    assert a == b;
  }

  lemma RoundedEditBelow(t: Tree, member: string, l: Label, change: Option<Tree>)
    requires t.Branch? && Field(member) in t.slots && t.slots[Field(member)].Branch?
    ensures Rounded(WrittenBelow(t, member, l, change)) == WrittenBelow(Rounded(t), member, l, RoundedChange(change))
  {
    var child := EditedBranch(t.slots[Field(member)], l, change);
    assert WrittenBelow(t, member, l, change) == EditedBranch(t, Field(member), Some(child));
    RoundedEdit(t, Field(member), Some(child));
    RoundedEdit(t.slots[Field(member)], l, change);
  }

  lemma RoundedEnsured(t: Tree, member: string, shape: Shape)
    requires t.Branch?
    ensures Rounded(Ensured(t, member, shape)) == Ensured(Rounded(t), member, shape)
  {
    var empty := Branch(shape, map[]);
    assert Rounded(empty).slots == map[];
    RoundedEdit(t, Field(member), Some(empty));
  }

  /** Writing then storing and loading is storing and loading then writing: the numbers of the
      payload are rounded either way, and no write depends on them. */
  lemma CopyCommutesWithWrite(t: Tree, w: Write)
    requires t.Branch?
    ensures Rounded(Written(t, w)) == Written(Rounded(t), RoundedWrite(w))
  {
    hide Rounded, EditedBranch, Ensured, WrittenBelow;
    RoundedShape(t);
    match w {
      case SetMember(key, v) => RoundedEdit(t, Field(key), Some(v));
      case DropMember(key) => RoundedEdit(t, Field(key), None);
      case SetIn(member, key, v) =>
        RoundedEnsured(t, member, AnObject);
        RoundedEditBelow(Ensured(t, member, AnObject), member, Field(key), Some(v));
      case DropIn(member, key) =>
        if Has(t, member, AnObject) { RoundedEditBelow(t, member, Field(key), None); }
      case Append(member, v) =>
        RoundedEnsured(t, member, AList);
        var e := Ensured(t, member, AList);
        RoundedShape(e);
        RoundedShape(e.slots[Field(member)]);
        RoundedEditBelow(e, member, Index(|e.slots[Field(member)].slots|), Some(v));
    }
  }

  lemma RoundedShape(t: Tree)
    requires t.Branch?
    ensures |Rounded(t).slots| == |t.slots|
    ensures forall l :: l in t.slots ==> Rounded(t).slots[l] == Rounded(t.slots[l])
    ensures forall l :: l in t.slots && t.slots[l].Branch? ==>
              Rounded(t.slots[l]).Branch? && Rounded(t.slots[l]).shape == t.slots[l].shape
    ensures forall l :: l in t.slots ==> (Rounded(t.slots[l]).Branch? <==> t.slots[l].Branch?)
  {
    assert |Rounded(t).slots.Keys| == |t.slots.Keys|;
  }
}
