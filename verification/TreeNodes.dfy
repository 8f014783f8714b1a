/** The tree as linked nodes: `create_tree` allocates them, `bst_search` walks down them. */
module TreeNodes {
  import opened TreeWire
  import opened DecisionTree

  class TreeNode {
    var id: int
    var name: string
    var value: real
    var cls: int
    var lchild: TreeNode?
    var rchild: TreeNode?
    ghost var repr: set<TreeNode>

    ghost predicate Valid()
      reads this, repr
      decreases repr
    {
      && this in repr
      && (lchild != null ==> lchild in repr && lchild.repr < repr && this !in lchild.repr && lchild.Valid())
      && (rchild != null ==> rchild in repr && rchild.repr < repr && this !in rchild.repr && rchild.Valid())
    }

    ghost function Shape(): (b: Built)
      requires Valid()
      reads this, repr
      ensures b.Cell?
      decreases repr
    {
      Cell(id, name, value, cls,
           if lchild == null then Null else lchild.Shape(), if rchild == null then Null else rchild.Shape())
    }

    constructor (r: Record)
      requires r.name.Some?
      ensures Valid() && fresh(repr) && Shape() == Cell(r.id, r.name.value, r.value, r.cls, Null, Null)
      ensures repr == {this} && lchild == null && rchild == null
    {
      id, name, value, cls := r.id, r.name.value, r.value, r.cls;
      lchild, rchild := null, null;
      repr := {this};
    }

    method Attach(left: TreeNode?, right: TreeNode?)
      modifies this
      requires ValidTree(left) && ValidTree(right) && this !in ReprOf(left) && this !in ReprOf(right)
      ensures Valid() && repr == {this} + ReprOf(left) + ReprOf(right)
      ensures Shape() == old(Cell(id, name, value, cls, ShapeOf(left), ShapeOf(right)))
    {
      lchild, rchild := left, right;
      repr := {this} + ReprOf(left) + ReprOf(right);
    }
  }

  ghost predicate ValidTree(t: TreeNode?)
    reads if t == null then {} else {t} + t.repr
  {
    t != null ==> t.Valid()
  }

  ghost function ShapeOf(t: TreeNode?): Built
    requires ValidTree(t)
    reads if t == null then {} else {t} + t.repr
  {
    if t == null then Null else t.Shape()
  }

  ghost function ReprOf(t: TreeNode?): set<TreeNode>
    reads if t == null then {} else {t}
  {
    if t == null then {} else t.repr
  }

  /** `find_lchild` (`skip` = 0) and `find_rchild` (`skip` = 1). */
  method FindNext(records: seq<Record>, from: nat, father: int, skip: nat) returns (at: nat)
    requires from <= |records|
    ensures from <= at <= |records| && records[at..] == FindChild(records[from..], father, skip)
  {
    at := from;
    var left := skip;
    while at < |records|
      invariant from <= at <= |records|
      invariant FindChild(records[at..], father, left) == FindChild(records[from..], father, skip)
    {
      assert records[at..][1..] == records[at + 1..];
      if records[at].father == father {
        if left == 0 { return; }
        left := left - 1;
      }
      at := at + 1;
    }
  }

  /** `create_tree`, from the record at `from` on. */
  method CreateTree(records: seq<Record>, from: nat) returns (t: TreeNode?)
    requires from <= |records| && Named(records)
    ensures ValidTree(t) && fresh(ReprOf(t))
    ensures ShapeOf(t) == Create(records[from..])
    decreases |records| - from, 1
  {
    NamedFrom(records, from);
    if from == |records| { return null; }
    var r := records[from];
    assert r in records && records[from..][1..] == records[from + 1..];
    var node := new TreeNode(r);
    if r.name.value != "leaf" {
      var left := CreateChild(records, from + 1, r.id, 0);
      var right := CreateChild(records, from + 1, r.id, 1);
      node.Attach(left, right);
    }
    t := node;
  }

  /** The subtree below the record that a search for a child finds. */
  method CreateChild(records: seq<Record>, from: nat, father: int, skip: nat) returns (t: TreeNode?)
    requires from <= |records| && Named(records)
    ensures ValidTree(t) && fresh(ReprOf(t))
    ensures ShapeOf(t) == Create(FindChild(records[from..], father, skip))
    decreases |records| - from, 2
  {
    var at := FindNext(records, from, father, skip);
    t := CreateTree(records, at);
  }

  lemma NamedFrom(records: seq<Record>, from: nat)
    requires from <= |records| && Named(records)
    ensures Named(records[from..])
  {
  }

  /** `bst_search`: walks down until a leaf, a missing child or a feature that is not measured. */
  method BstSearch(root: TreeNode?, items: seq<Item>) returns (r: TreeNode?)
    requires ValidTree(root)
    ensures ValidTree(r) && ReprOf(r) <= ReprOf(root)
    ensures ShapeOf(r) == Search(ShapeOf(root), items)
    ensures Complete(ShapeOf(root)) && AllSupplied(items, NamesOf(ShapeOf(root))) ==> r != null && r.name == "leaf"
  {
    if Complete(ShapeOf(root)) && AllSupplied(items, NamesOf(ShapeOf(root))) { SuppliedSearchEnds(ShapeOf(root), items); }
    var found := false;
    var node, pre := root, root;
    while node != null && node.name != "leaf"
      invariant ValidTree(node) && ReprOf(node) <= ReprOf(root)
      invariant Search(ShapeOf(node), items) == Search(ShapeOf(root), items)
      invariant !found ==> node == root && pre == root
      decreases ReprOf(node)
    {
      var i := 0;
      found := false;
      while i < |items| && !found
        invariant i <= |items|
        invariant found ==> i < |items| && Lookup(items, node.name) == Some(items[i].value)
        invariant !found ==> Lookup(items, node.name) == Lookup(items[i..], node.name)
        decreases |items| - i, !found
      {
        assert items[i..][1..] == items[i + 1..];
        if node.name == items[i].name { found := true; } else { i := i + 1; }
      }
      if !found { return null; }
      pre := node;
      node := if items[i].value <= node.value then node.lchild else node.rchild;
    }
    r := if found then node else pre;
  }

  /** What the switch does with a text and measurements: the leaf that comes out is the one the sent tree decides for. */
  method Classify(text: string, items: seq<Item>, atof: string -> real, ghost t: Tree) returns (leaf: TreeNode?)
    requires t.Test? && t.id == 0 && Distinct(t) && CleanTree(t) && text == Print(t)
    ensures ValidTree(leaf)
    ensures ShapeOf(leaf) == match Decide(t, items, atof) case None => Null case Some(l) => Image(l, atof)
    ensures AllSupplied(items, Features(t)) ==> leaf != null
  {
    SentTreeDecides(t, items, atof);
    var records := ParseText(text, atof);
    assert records[0..] == records;
    var root := CreateTree(records, 0);
    leaf := BstSearch(root, items);
  }
}
