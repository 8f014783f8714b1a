/** Rebuilding a decision tree from its records and searching it. */
module DecisionTree {
  import opened TreeWire

  /** A tree as the switch holds it. */
  datatype Built = Null | Cell(id: int, name: string, value: real, cls: int, left: Built, right: Built)

  datatype Item = Item(name: string, value: real)

  /** The list from the (`skip` + 1)-th record whose father is `father` on. */
  function FindChild(l: seq<Record>, father: int, skip: nat): (r: seq<Record>)
    ensures |r| <= |l| && (r != [] ==> r[0].father == father)
    ensures forall x :: x in r ==> x in l
    decreases |l|
  {
    if l == [] then []
    else if l[0].father != father then FindChild(l[1..], father, skip)
    else if skip > 0 then FindChild(l[1..], father, skip - 1)
    else l
  }

  /** All records have a name; one without would make `create_tree` read through a null pointer. */
  ghost predicate Named(l: seq<Record>) {
    forall r :: r in l ==> r.name.Some?
  }

  /** `create_tree`. */
  function Create(l: seq<Record>): Built
    requires Named(l)
    decreases |l|
  {
    if l == [] then Null else
      assert l[0] in l;
      var r := l[0];
      if r.name.value == "leaf" then Cell(r.id, "leaf", r.value, r.cls, Null, Null)
      else Cell(r.id, r.name.value, r.value, r.cls, Create(FindChild(l[1..], r.id, 0)), Create(FindChild(l[1..], r.id, 1)))
  }

  /** The search through the items in `bst_search`. */
  function Lookup(items: seq<Item>, name: string): Option<real> {
    if items == [] then None else if items[0].name == name then Some(items[0].value) else Lookup(items[1..], name)
  }

  /** `bst_search`. */
  function Search(b: Built, items: seq<Item>): Built {
    if b.Null? || b.name == "leaf" then b else
      match Lookup(items, b.name)
      case None => Null
      case Some(v) => Search(if v <= b.value then b.left else b.right, items)
  }

  /** Item `i` is the first of the name. */
  ghost predicate FirstOf(items: seq<Item>, name: string, i: nat) {
    i < |items| && items[i].name == name && forall j :: 0 <= j < i ==> items[j].name != name
  }

  ghost predicate Supplied(items: seq<Item>, name: string) {
    exists i :: 0 <= i < |items| && items[i].name == name
  }

  /** The search through the items finds the first of the name, wherever it stands, and nothing only if there is none. */
  lemma {:induction false} LookupIsFirst(items: seq<Item>, name: string)
    ensures Lookup(items, name).None? <==> !Supplied(items, name)
    ensures forall i: nat :: FirstOf(items, name, i) ==> Lookup(items, name) == Some(items[i].value)
    ensures Supplied(items, name) ==> exists i: nat :: FirstOf(items, name, i)
  {
    if items != [] {
      var rest := items[1..];
      LookupIsFirst(rest, name);
      forall i: nat | FirstOf(items, name, i) ensures Lookup(items, name) == Some(items[i].value) {
        if i > 0 {
          assert forall j :: 0 <= j < i - 1 ==> rest[j] == items[j + 1];
          assert FirstOf(rest, name, i - 1);
        }
      }
      if items[0].name == name {
        assert FirstOf(items, name, 0);
      } else {
        if i :| 0 <= i < |items| && items[i].name == name { assert rest[i - 1].name == name; }
        if i: nat :| FirstOf(rest, name, i) {
          assert forall j :: 0 < j < i + 1 ==> items[j] == rest[j - 1];
          assert FirstOf(items, name, i + 1);
        }
      }
    }
  }

  // ---------- what trees mean ----------

  /** What a feature is measured as: the value of the first item of its name. */
  ghost function Measured(items: seq<Item>, name: string): Option<real> {
    if exists i: nat :: FirstOf(items, name, i) then var i: nat :| FirstOf(items, name, i); Some(items[i].value) else None
  }

  lemma LookupIsMeasured(items: seq<Item>, name: string)
    ensures Lookup(items, name) == Measured(items, name) && (Measured(items, name).Some? <==> Supplied(items, name))
  {
    LookupIsFirst(items, name);
  }

  function Image(t: Tree, atof: string -> real): Built {
    match t
    case Leaf(id, cls) => Cell(id, "leaf", atof("0"), cls, Null, Null)
    case Test(id, name, threshold, cls, left, right) =>
      Cell(id, name, atof(threshold), cls, Image(left, atof), Image(right, atof))
  }

  /** The leaf a tree decides for, or nothing if a feature it asks for on the way is not measured. */
  ghost function Decide(t: Tree, items: seq<Item>, atof: string -> real): Option<Tree> {
    match t
    case Leaf(_, _) => Some(t)
    case Test(_, name, threshold, _, left, right) =>
      match Measured(items, name)
      case None => None
      case Some(v) => if v <= atof(threshold) then Decide(left, items, atof) else Decide(right, items, atof)
  }

  /** The features a tree asks for anywhere. */
  function Features(t: Tree): set<string> {
    match t
    case Leaf(_, _) => {}
    case Test(_, name, _, _, left, right) => {name} + Features(left) + Features(right)
  }

  ghost predicate AllSupplied(items: seq<Item>, names: set<string>) {
    forall name :: name in names ==> Supplied(items, name)
  }

  /** With all its features measured a tree decides, and for a leaf. */
  lemma {:induction false} SuppliedDecides(t: Tree, items: seq<Item>, atof: string -> real)
    requires AllSupplied(items, Features(t))
    ensures Decide(t, items, atof).Some? && Decide(t, items, atof).value.Leaf?
  {
    if t.Test? {
      LookupIsMeasured(items, t.name);
      SuppliedDecides(t.left, items, atof);
      SuppliedDecides(t.right, items, atof);
    }
  }

  /** The features that nodes ask for, and whether both branches of each are there. */
  function NamesOf(b: Built): set<string> {
    if b.Null? || b.name == "leaf" then {} else {b.name} + NamesOf(b.left) + NamesOf(b.right)
  }

  predicate Complete(b: Built) {
    b.Cell? && (b.name == "leaf" || (Complete(b.left) && Complete(b.right)))
  }

  /** With all its features measured a search ends at a leaf. */
  lemma {:induction false} SuppliedSearchEnds(b: Built, items: seq<Item>)
    requires Complete(b) && AllSupplied(items, NamesOf(b))
    ensures Search(b, items).Cell? && Search(b, items).name == "leaf"
    decreases b
  {
    if b.name != "leaf" {
      LookupIsMeasured(items, b.name);
      SuppliedSearchEnds(if Lookup(items, b.name).value <= b.value then b.left else b.right, items);
    }
  }

  function Ids(t: Tree): set<nat> {
    match t
    case Leaf(id, _) => {id}
    case Test(id, _, _, _, left, right) => {id} + Ids(left) + Ids(right)
  }

  ghost predicate Distinct(t: Tree) {
    t.Test? ==>
      && t.id !in Ids(t.left) && t.id !in Ids(t.right) && Ids(t.left) !! Ids(t.right)
      && Distinct(t.left) && Distinct(t.right)
  }

  /** Numbers fit an int, names and thresholds can be told apart on the wire, and no test is called "leaf". */
  predicate CleanTree(t: Tree) {
    && t.id < INT_RANGE && t.cls < INT_RANGE
    && (t.Test? ==> Clean(t.name) && t.name != "leaf" && Clean(t.threshold) && CleanTree(t.left) && CleanTree(t.right))
  }

  // ---------- from lines to fields ----------

  function Five(father: nat, four: seq<string>): (f: seq<string>)
    ensures |f| == |four| + 1 && f[0] == Str(father) && forall k :: 1 <= k < |f| ==> f[k] == four[k - 1]
  {
    [Str(father)] + four
  }

  function FieldsOf(t: Tree, father: nat): seq<seq<string>> {
    match t
    case Leaf(id, cls) => [Five(father, [Str(id), "leaf", "0", Str(cls)])]
    case Test(id, name, threshold, cls, left, right) =>
      [Five(father, [Str(id), name, threshold, Str(cls)])] + FieldsOf(left, id) + FieldsOf(right, id)
  }

  lemma {:induction false} GatherParts(g: Gathered, a: seq<Line>, b: seq<Line>)
    ensures GatherAll(g, a + b) == GatherAll(GatherAll(g, a), b)
    decreases |a|
  {
    if a == [] {
      assert a + b == b;
    } else {
      assert (a + b)[1..] == a[1..] + b;
      GatherParts(Gather(g, a[0]), a[1..], b);
    }
  }

  lemma GatherOne(g: Gathered, a: Line)
    ensures GatherAll(g, [a]) == Gather(g, a)
  {
    assert [a][1..] == [];
    assert GatherAll(g, [a]) == GatherAll(Gather(g, a), []);
  }

  lemma GatherTwo(g: Gathered, a: Line, b: Line)
    ensures GatherAll(g, [a, b]) == Gather(Gather(g, a), b)
  {
    assert [a, b] == [a] + [b];
    GatherParts(g, [a], [b]);
    GatherOne(g, a);
    GatherOne(Gather(g, a), b);
  }

  lemma EdgeCompletes(nodes: seq<seq<string>>, begun: bool, four: seq<string>, father: nat, id: nat)
    requires |four| == 4
    ensures Gather(Gathered(nodes + [four], begun), EdgeLine(father, id)) == Gathered(nodes + [Five(father, four)], begun)
  {
    var all := nodes + [four];
    assert all[|all| - 1] == four;
    assert all[|all| - 1 := Five(father, four)] == nodes + [Five(father, four)];
  }

  /** The line of a node below the root and the edge to it add the node with its five fields. */
  lemma GatherNode(g: Gathered, line: Line, father: nat, four: seq<string>)
    requires !line.EdgeLine? && Gather(g, line) == Gathered(g.nodes + [four], g.begun) && |four| == 4
    ensures GatherAll(g, [line, EdgeLine(father, line.id)]) == Gathered(g.nodes + [Five(father, four)], g.begun)
  {
    GatherTwo(g, line, EdgeLine(father, line.id));
    EdgeCompletes(g.nodes, g.begun, four, father, line.id);
  }

  lemma GatherThree(g: Gathered, a: seq<Line>, b: seq<Line>, c: seq<Line>,
                    x: seq<seq<string>>, y: seq<seq<string>>, z: seq<seq<string>>)
    requires GatherAll(g, a) == Gathered(g.nodes + x, true)
    requires GatherAll(Gathered(g.nodes + x, true), b) == Gathered(g.nodes + x + y, true)
    requires GatherAll(Gathered(g.nodes + x + y, true), c) == Gathered(g.nodes + x + y + z, true)
    ensures GatherAll(g, a + b + c) == Gathered(g.nodes + (x + y + z), true)
  {
    GatherParts(g, a, b);
    GatherParts(g, a + b, c);
    assert g.nodes + x + y + z == g.nodes + (x + y + z);
  }

  /** Below the root each node comes out with its five fields. */
  lemma {:induction false} GatherTree(g: Gathered, t: Tree, father: nat)
    requires g.begun
    ensures GatherAll(g, Lines(t, Some(father))) == Gathered(g.nodes + FieldsOf(t, father), true)
    decreases t
  {
    match t
    case Leaf(id, cls) =>
      GatherNode(g, LeafLine(id, cls), father, [Str(id), "leaf", "0", Str(cls)]);
      assert Lines(t, Some(father)) == [LeafLine(id, cls), EdgeLine(father, id)];
    case Test(id, name, threshold, cls, left, right) =>
      var head := [TestLine(id, name, threshold, cls), EdgeLine(father, id)];
      var four := [Str(id), name, threshold, Str(cls)];
      GatherNode(g, TestLine(id, name, threshold, cls), father, four);
      var own := [Five(father, four)];
      var g1 := Gathered(g.nodes + own, true);
      GatherTree(g1, left, id);
      GatherTree(Gathered(g1.nodes + FieldsOf(left, id), true), right, id);
      GatherThree(g, head, Lines(left, Some(id)), Lines(right, Some(id)), own, FieldsOf(left, id), FieldsOf(right, id));
      assert Lines(t, Some(father)) == head + Lines(left, Some(id)) + Lines(right, Some(id));
  }

  lemma RootGathered(id: nat, name: string, threshold: string, cls: nat)
    requires id == 0
    ensures GatherAll(Gathered([], false), [TestLine(id, name, threshold, cls)])
         == Gathered([Five(0, [Str(id), name, threshold, Str(cls)])], true)
  {
    GatherOne(Gathered([], false), TestLine(id, name, threshold, cls));
    assert ["0", Str(id), name, threshold, Str(cls)] == Five(0, [Str(id), name, threshold, Str(cls)]);
  }

  /** A tree whose root, numbered 0, is a test is sent node by node; a tree that is a single leaf is sent without a
      father. */
  lemma PrintedFields(t: Tree)
    requires t.id == 0
    ensures Print(t) == Wire(if t.Test? then FieldsOf(t, 0) else [[Str(0), "leaf", "0", Str(t.cls)]])
  {
    var g := Gathered([], false);
    match t
    case Leaf(id, cls) =>
      assert Lines(t, None) == [LeafLine(id, cls)];
      GatherOne(g, LeafLine(id, cls));
    case Test(_, _, _, _, _, _) => GatherRoot(t);
  }

  lemma NothingBefore<T>(own: seq<T>, x: seq<T>, y: seq<T>)
    ensures [] + own == own && [] + own + x == own + x && [] + (own + x + y) == own + x + y
  {
  }

  lemma GatherRoot(t: Tree)
    requires t.Test? && t.id == 0
    ensures GatherAll(Gathered([], false), Lines(t, None)) == Gathered(FieldsOf(t, 0), true)
  {
    var g := Gathered([], false);
    var head := [TestLine(t.id, t.name, t.threshold, t.cls)];
    var own := [Five(0, [Str(t.id), t.name, t.threshold, Str(t.cls)])];
    var x, y := FieldsOf(t.left, t.id), FieldsOf(t.right, t.id);
    RootGathered(t.id, t.name, t.threshold, t.cls);
    NothingBefore(own, x, y);
    GatherTree(Gathered(own, true), t.left, t.id);
    GatherTree(Gathered(own + x, true), t.right, t.id);
    GatherThree(g, head, Lines(t.left, Some(t.id)), Lines(t.right, Some(t.id)), own, x, y);
    assert Lines(t, None) == head + Lines(t.left, Some(t.id)) + Lines(t.right, Some(t.id));
  }

  // ---------- from text to fields: the frame around the text does no harm ----------

  /** `nodes` with the frame taken into the first and the last field. */
  function Framed(nodes: seq<seq<string>>): (r: seq<seq<string>>)
    requires nodes != [] && forall i :: 0 <= i < |nodes| ==> nodes[i] != []
    ensures |r| == |nodes| && forall i :: 0 <= i < |r| ==> |r[i]| == |nodes[i]|
  {
    var first := nodes[0 := nodes[0][0 := PREFIX + nodes[0][0]]];
    var n := |nodes| - 1;
    first[n := EndWith(first[n], SUFFIX)]
  }

  function EndWith(parts: seq<string>, tail: string): seq<string>
    requires parts != []
  {
    parts[|parts| - 1 := parts[|parts| - 1] + tail]
  }

  lemma JoinStart(parts: seq<string>, d: char, front: string)
    requires parts != []
    ensures Join(parts[0 := front + parts[0]], d) == front + Join(parts, d)
  {
    var q := parts[0 := front + parts[0]];
    if |parts| > 1 {
      assert q[1..] == parts[1..];
      assert front + parts[0] + [d] + Join(parts[1..], d) == front + (parts[0] + [d] + Join(parts[1..], d));
    }
  }

  lemma {:induction false} JoinEnd(parts: seq<string>, d: char, tail: string)
    requires parts != []
    ensures Join(EndWith(parts, tail), d) == Join(parts, d) + tail
    decreases |parts|
  {
    if |parts| > 1 {
      JoinEnd(parts[1..], d, tail);
      assert EndWith(parts, tail)[1..] == EndWith(parts[1..], tail);
      assert parts[0] + [d] + (Join(parts[1..], d) + tail) == parts[0] + [d] + Join(parts[1..], d) + tail;
    }
  }

  lemma WireIsFramed(nodes: seq<seq<string>>)
    requires nodes != [] && forall i :: 0 <= i < |nodes| ==> nodes[i] != []
    ensures Wire(nodes) == Join(JoinAll(Framed(nodes)), '|')
  {
    var n := |nodes| - 1;
    var first := nodes[0 := nodes[0][0 := PREFIX + nodes[0][0]]];
    JoinStart(nodes[0], ',', PREFIX);
    JoinStart(JoinAll(nodes), '|', PREFIX);
    assert JoinAll(first) == JoinAll(nodes)[0 := PREFIX + JoinAll(nodes)[0]];
    JoinEnd(first[n], ',', SUFFIX);
    JoinEnd(JoinAll(first), '|', SUFFIX);
    assert JoinAll(Framed(nodes)) == EndWith(JoinAll(first), SUFFIX);
  }

  /** Every field of every node is clean. */
  ghost predicate AllClean(nodes: seq<seq<string>>) {
    forall i :: 0 <= i < |nodes| ==> nodes[i] != [] && forall k :: 0 <= k < |nodes[i]| ==> Clean(nodes[i][k])
  }

  lemma CleanWhole(a: string, b: string)
    requires Clean(a) && Clean(b)
    ensures Clean(a + b)
  {
  }

  lemma FramedIsClean(nodes: seq<seq<string>>)
    requires nodes != [] && AllClean(nodes)
    ensures AllClean(Framed(nodes))
  {
    var first := nodes[0 := nodes[0][0 := PREFIX + nodes[0][0]]];
    CleanWhole(PREFIX, nodes[0][0]);
    assert AllClean(first);
    var last := first[|nodes| - 1];
    CleanWhole(last[|last| - 1], SUFFIX);
  }

  lemma {:induction false} JoinIsClean(parts: seq<string>)
    requires parts != [] && forall k :: 0 <= k < |parts| ==> Clean(parts[k])
    ensures Join(parts, ',') != "" && '|' !in Join(parts, ',')
    decreases |parts|
  {
    if |parts| > 1 { JoinIsClean(parts[1..]); }
  }

  function ReadNodes(nodes: seq<seq<string>>, atof: string -> real): (r: seq<Record>)
    ensures |r| == |nodes| && forall i :: 0 <= i < |nodes| ==> r[i] == ReadRecord(nodes[i], atof)
  {
    seq(|nodes|, i requires 0 <= i < |nodes| => ReadRecord(nodes[i], atof))
  }

  lemma {:induction false} ReadAllJoined(nodes: seq<seq<string>>, atof: string -> real)
    requires AllClean(nodes)
    ensures ReadAll(JoinAll(nodes), atof) == ReadNodes(nodes, atof)
    decreases |nodes|
  {
    if nodes != [] {
      ReadAllJoined(nodes[1..], atof);
      FirstJoined(nodes, atof);
      FirstRead(nodes, atof);
    }
  }

  lemma FirstRead(nodes: seq<seq<string>>, atof: string -> real)
    requires nodes != []
    ensures ReadNodes(nodes, atof) == [ReadRecord(nodes[0], atof)] + ReadNodes(nodes[1..], atof)
  {
  }

  lemma FirstJoined(nodes: seq<seq<string>>, atof: string -> real)
    requires nodes != [] && AllClean(nodes)
    ensures ReadAll(JoinAll(nodes), atof) == [ReadRecord(nodes[0], atof)] + ReadAll(JoinAll(nodes[1..]), atof)
  {
    assert JoinAll(nodes)[1..] == JoinAll(nodes[1..]);
    FieldsComeBack(nodes[0]);
  }

  lemma FieldsComeBack(fields: seq<string>)
    requires forall k :: 0 <= k < |fields| ==> Clean(fields[k])
    ensures Tokens(Join(fields, ','), ',') == fields
  {
    TokensOfJoin(fields, ',');
  }

  /** What is read is what was written, up to the frame. */
  lemma ParseOfWire(nodes: seq<seq<string>>, atof: string -> real)
    requires nodes != [] && AllClean(nodes)
    ensures Parse(Wire(nodes), atof) == ReadNodes(Framed(nodes), atof)
  {
    var f := Framed(nodes);
    WireIsFramed(nodes);
    FramedIsClean(nodes);
    forall i | 0 <= i < |JoinAll(f)| ensures JoinAll(f)[i] != "" && '|' !in JoinAll(f)[i] { JoinIsClean(f[i]); }
    TokensOfJoin(JoinAll(f), '|');
    ReadAllJoined(f, atof);
  }

  // ---------- from fields to records ----------

  function RecordsOf(t: Tree, father: nat, atof: string -> real): seq<Record> {
    match t
    case Leaf(id, cls) => [Record(father, id, Some("leaf"), atof("0"), cls)]
    case Test(id, name, threshold, cls, left, right) =>
      [Record(father, id, Some(name), atof(threshold), cls)] + RecordsOf(left, id, atof) + RecordsOf(right, id, atof)
  }

  lemma ReadFive(f: seq<string>, atof: string -> real)
    requires |f| == 5
    ensures ReadRecord(f, atof) == Record(Atoi(f[0]), Atoi(f[1]), Some(f[2]), atof(f[3]), Atoi(f[4]))
  {
    SetNext(Blank, f, 0, atof);
    var r1 := Blank.(father := Atoi(f[0]));
    SetNext(r1, f, 1, atof);
    var r2 := r1.(id := Atoi(f[1]));
    SetNext(r2, f, 2, atof);
    var r3 := r2.(name := Some(f[2]));
    SetNext(r3, f, 3, atof);
    SetNext(r3.(value := atof(f[3])), f, 4, atof);
    assert f[5..] == [] && f[0..] == f;
  }

  lemma SetNext(r: Record, f: seq<string>, k: nat, atof: string -> real)
    requires k < |f|
    ensures SetFields(r, k, f[k..], atof) == SetFields(SetField(r, k, f[k], atof), k + 1, f[k + 1..], atof)
  {
    assert f[k..][1..] == f[k + 1..];
  }

  lemma StrIsClean(n: nat)
    ensures Clean(Str(n))
    ensures n < INT_RANGE ==> Atoi(Str(n)) == n
  {
    if n < INT_RANGE {
      AtoiOfStr(n, "");
      assert Str(n) + "" == Str(n);
    }
  }

  /** Clean records of five fields each, the first beginning with `first`. */
  ghost predicate GoodFields(f: seq<seq<string>>, first: string) {
    AllClean(f) && f != [] && (forall i :: 0 <= i < |f| ==> |f[i]| == 5) && f[0][0] == first
  }

  lemma GoodAfter(own: seq<string>, a: seq<seq<string>>, b: seq<seq<string>>, x: string, y: string)
    requires |own| == 5 && (forall k :: 0 <= k < 5 ==> Clean(own[k])) && GoodFields(a, x) && GoodFields(b, y)
    ensures GoodFields([own] + a + b, own[0])
  {
    var f := [own] + a + b;
    forall i | 0 <= i < |f| ensures |f[i]| == 5 && forall k :: 0 <= k < |f[i]| ==> Clean(f[i][k]) {
      assert f[i] == if i == 0 then own else if i <= |a| then a[i - 1] else b[i - 1 - |a|];
    }
  }

  lemma {:induction false} FieldsAreGood(t: Tree, father: nat)
    requires CleanTree(t)
    ensures GoodFields(FieldsOf(t, father), Str(father))
  {
    StrIsClean(father); StrIsClean(t.id); StrIsClean(t.cls);
    if t.Test? {
      FieldsAreGood(t.left, t.id);
      FieldsAreGood(t.right, t.id);
      GoodAfter(Five(father, [Str(t.id), t.name, t.threshold, Str(t.cls)]), FieldsOf(t.left, t.id), FieldsOf(t.right, t.id),
                Str(t.id), Str(t.id));
    }
  }

  lemma FieldsAreClean(t: Tree, father: nat)
    requires CleanTree(t)
    ensures AllClean(FieldsOf(t, father)) && FieldsOf(t, father) != []
    ensures FieldsOf(t, father)[0][0] == Str(father)
    ensures forall i :: 0 <= i < |FieldsOf(t, father)| ==> |FieldsOf(t, father)[i]| == 5
  {
    FieldsAreGood(t, father);
  }

  lemma {:induction false} LastField(t: Tree, father: nat) returns (n: nat)
    requires CleanTree(t)
    ensures n < INT_RANGE
    ensures var f := FieldsOf(t, father); f != [] && |f[|f| - 1]| == 5 && f[|f| - 1][4] == Str(n)
  {
    if t.Test? { n := LastField(t.right, t.id); } else { n := t.cls; }
  }

  /** The records of the fields are those of the tree. */
  lemma {:induction false} FieldsRead(t: Tree, father: nat, atof: string -> real)
    requires CleanTree(t) && father < INT_RANGE
    ensures ReadNodes(FieldsOf(t, father), atof) == RecordsOf(t, father, atof)
  {
    match t
    case Leaf(id, cls) => ReadOwn(father, id, "leaf", "0", cls, atof);
    case Test(id, name, threshold, cls, left, right) =>
      ReadOwn(father, id, name, threshold, cls, atof);
      var own, a, b := [Five(father, [Str(id), name, threshold, Str(cls)])], FieldsOf(left, id), FieldsOf(right, id);
      FieldsRead(left, id, atof);
      FieldsRead(right, id, atof);
      ReadParts(own + a, b, atof);
      ReadParts(own, a, atof);
  }

  lemma ReadOwn(father: nat, id: nat, name: string, text: string, cls: nat, atof: string -> real)
    requires father < INT_RANGE && id < INT_RANGE && cls < INT_RANGE
    ensures ReadNodes([Five(father, [Str(id), name, text, Str(cls)])], atof) == [Record(father, id, Some(name), atof(text), cls)]
  {
    StrIsClean(father); StrIsClean(id); StrIsClean(cls);
    ReadFive(Five(father, [Str(id), name, text, Str(cls)]), atof);
  }

  lemma ReadParts(a: seq<seq<string>>, b: seq<seq<string>>, atof: string -> real)
    ensures ReadNodes(a + b, atof) == ReadNodes(a, atof) + ReadNodes(b, atof)
  {
  }

  /** The frame changes nothing about records of five fields, the first of which is 0. */
  lemma FrameIsHarmless(nodes: seq<seq<string>>, n: nat, atof: string -> real)
    requires nodes != [] && forall i :: 0 <= i < |nodes| ==> |nodes[i]| == 5
    requires nodes[0][0] == Str(0) && nodes[|nodes| - 1][4] == Str(n) && n < INT_RANGE
    ensures ReadNodes(Framed(nodes), atof) == ReadNodes(nodes, atof)
  {
    var f := Framed(nodes);
    AtoiOfStr(n, SUFFIX);
    StrIsClean(n);
    StrIsClean(0);
    NotANumber(PREFIX + Str(0));
    forall i | 0 <= i < |nodes| ensures ReadRecord(f[i], atof) == ReadRecord(nodes[i], atof) {
      ReadFive(f[i], atof);
      ReadFive(nodes[i], atof);
    }
  }

  // ---------- from records to trees ----------

  lemma {:induction false} NoChildrenBelow(t: Tree, father: nat, x: nat, skip: nat, rest: seq<Record>, atof: string -> real)
    requires father != x && x !in Ids(t)
    ensures FindChild(RecordsOf(t, father, atof) + rest, x, skip) == FindChild(rest, x, skip)
  {
    var l := RecordsOf(t, father, atof) + rest;
    match t
    case Leaf(_, _) => assert l[1..] == rest;
    case Test(id, _, _, _, left, right) =>
      var more := RecordsOf(right, id, atof) + rest;
      assert l[1..] == RecordsOf(left, id, atof) + more;
      NoChildrenBelow(left, id, x, skip, more, atof);
      NoChildrenBelow(right, id, x, skip, rest, atof);
  }

  lemma FirstChild(t: Tree, father: nat, rest: seq<Record>, atof: string -> real)
    requires father !in Ids(t)
    ensures FindChild(RecordsOf(t, father, atof) + rest, father, 0) == RecordsOf(t, father, atof) + rest
    ensures FindChild(RecordsOf(t, father, atof) + rest, father, 1) == FindChild(rest, father, 0)
  {
    var l := RecordsOf(t, father, atof) + rest;
    match t
    case Leaf(_, _) => assert l[1..] == rest;
    case Test(id, _, _, _, left, right) =>
      var more := RecordsOf(right, id, atof) + rest;
      assert l[1..] == RecordsOf(left, id, atof) + more;
      NoChildrenBelow(left, id, father, 0, more, atof);
      NoChildrenBelow(right, id, father, 0, rest, atof);
  }

  lemma {:induction false} RecordsAreNamed(t: Tree, father: nat, atof: string -> real)
    ensures Named(RecordsOf(t, father, atof))
  {
    if t.Test? {
      RecordsAreNamed(t.left, t.id, atof);
      RecordsAreNamed(t.right, t.id, atof);
    }
  }

  /** Rebuilding finds each child, whatever records follow. */
  lemma {:induction false} CreateOfRecords(t: Tree, father: nat, rest: seq<Record>, atof: string -> real)
    requires Distinct(t) && CleanTree(t) && Named(RecordsOf(t, father, atof) + rest)
    ensures Create(RecordsOf(t, father, atof) + rest) == Image(t, atof)
  {
    var l := RecordsOf(t, father, atof) + rest;
    match t
    case Leaf(_, _) =>
    case Test(id, name, _, _, left, right) =>
      var more := RecordsOf(right, id, atof) + rest;
      assert l[1..] == RecordsOf(left, id, atof) + more;
      FirstChild(left, id, more, atof);
      FirstChild(right, id, rest, atof);
      RecordsAreNamed(left, id, atof);
      RecordsAreNamed(right, id, atof);
      assert Named(rest) by { assert forall r :: r in rest ==> r in l; }
      assert Named(more) && Named(l[1..]);
      CreateOfRecords(left, id, more, atof);
      CreateOfRecords(right, id, rest, atof);
  }

  // ---------- main results ----------

  /** What the switch reads is, record by record, the tree that was sent. */
  lemma ParseOfPrint(t: Tree, atof: string -> real)
    requires t.Test? && t.id == 0 && CleanTree(t)
    ensures Parse(Print(t), atof) == RecordsOf(t, 0, atof)
  {
    PrintedFields(t);
    FieldsRead(t, 0, atof);
    FieldsAreClean(t, 0);
    var f := FieldsOf(t, 0);
    var n := LastField(t, 0);
    ParseOfWire(f, atof);
    FrameIsHarmless(f, n, atof);
  }

  lemma ReadFour(f: seq<string>, atof: string -> real)
    requires |f| == 4
    ensures ReadRecord(f, atof) == Record(Atoi(f[0]), Atoi(f[1]), Some(f[2]), atof(f[3]), 0)
  {
    SetNext(Blank, f, 0, atof);
    var r1 := Blank.(father := Atoi(f[0]));
    SetNext(r1, f, 1, atof);
    var r2 := r1.(id := Atoi(f[1]));
    SetNext(r2, f, 2, atof);
    SetNext(r2.(name := Some(f[2])), f, 3, atof);
    assert f[4..] == [] && f[0..] == f;
  }

  lemma NotANumber(s: string)
    requires s != "" && ('A' <= s[0] <= 'Z' || 'a' <= s[0] <= 'z')
    ensures Atoi(s) == 0
  {
    assert s[..0] == "";
  }

  /** A tree that is a single leaf arrives garbled: without a father its fields are read one place off. */
  lemma LoneLeafIsMisread(t: Tree, atof: string -> real)
    requires t.Leaf? && t.id == 0
    ensures Parse(Print(t), atof) == [Record(0, 0, Some("0"), atof(Str(t.cls) + SUFFIX), 0)]
  {
    PrintedFields(t);
    var nodes := [[Str(0), "leaf", "0", Str(t.cls)]];
    StrIsClean(0); StrIsClean(t.cls);
    ParseOfWire(nodes, atof);
    var f := Framed(nodes)[0];
    assert f == [PREFIX + Str(0), "leaf", "0", Str(t.cls) + SUFFIX];
    NotANumber(f[0]);
    NotANumber("leaf");
    ReadFour(f, atof);
  }

  /** Round trip. A tree, sent and rebuilt, is the same tree exactly if its root is a test. */
  lemma TreeRoundTrip(t: Tree, atof: string -> real)
    requires t.id == 0 && Distinct(t) && CleanTree(t)
    ensures Named(Parse(Print(t), atof))
    ensures Create(Parse(Print(t), atof)) == Image(t, atof) <==> t.Test?
  {
    if t.Test? {
      ParseOfPrint(t, atof);
      RecordsAreNamed(t, 0, atof);
      assert RecordsOf(t, 0, atof) + [] == RecordsOf(t, 0, atof);
      CreateOfRecords(t, 0, [], atof);
    } else {
      LoneLeafIsMisread(t, atof);
    }
  }

  /** Searching a tree decides as the tree does. */
  lemma {:induction false} SearchDecides(t: Tree, items: seq<Item>, atof: string -> real)
    requires CleanTree(t)
    ensures Search(Image(t, atof), items)
         == match Decide(t, items, atof) case None => Null case Some(leaf) => Image(leaf, atof)
    ensures Decide(t, items, atof).Some? ==> Decide(t, items, atof).value.Leaf?
  {
    if t.Test? {
      LookupIsMeasured(items, t.name);
      SearchDecides(t.left, items, atof);
      SearchDecides(t.right, items, atof);
    }
  }

  /** End to end: the switch finds the leaf the trained tree decides for, or nothing if a feature asked for is missing. */
  lemma SentTreeDecides(t: Tree, items: seq<Item>, atof: string -> real)
    requires t.Test? && t.id == 0 && Distinct(t) && CleanTree(t)
    ensures Named(Parse(Print(t), atof))
    ensures Search(Create(Parse(Print(t), atof)), items)
         == match Decide(t, items, atof) case None => Null case Some(leaf) => Image(leaf, atof)
    ensures AllSupplied(items, Features(t)) ==> Decide(t, items, atof).Some?
  {
    TreeRoundTrip(t, atof);
    SearchDecides(t, items, atof);
    if AllSupplied(items, Features(t)) { SuppliedDecides(t, items, atof); }
  }
}
