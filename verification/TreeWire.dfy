/** Decision trees on the wire: the lines of a tree in preorder are gathered into nodes, the nodes are joined into one
    text, and the text is split into records again. */
module TreeWire {

  datatype Option<+T> = None | Some(value: T)

  /** A trained tree: inner nodes compare a feature with a threshold, whose text is kept as it is printed. */
  datatype Tree =
    | Leaf(id: nat, cls: nat)
    | Test(id: nat, name: string, threshold: string, cls: nat, left: Tree, right: Tree)

  // ---------- numbers as text ----------

  predicate IsDigit(c: char) {
    '0' <= c <= '9'
  }

  function Digit(n: nat): (c: char)
    requires n < 10
    ensures IsDigit(c) && c as int - '0' as int == n
  {
    ('0' as int + n) as char
  }

  /** Decimal text. */
  function Str(n: nat): (s: string)
    ensures s != "" && forall i :: 0 <= i < |s| ==> IsDigit(s[i])
  {
    if n < 10 then [Digit(n)] else Str(n / 10) + [Digit(n % 10)]
  }

  /** The number of leading digits. */
  function Digits(s: string): (n: nat)
    ensures n <= |s| && (forall i :: 0 <= i < n ==> IsDigit(s[i])) && (n < |s| ==> !IsDigit(s[n]))
  {
    if s == "" || !IsDigit(s[0]) then 0 else 1 + Digits(s[1..])
  }

  function ValueOf(s: string): nat
    requires forall i :: 0 <= i < |s| ==> IsDigit(s[i])
  {
    if s == "" then 0 else
      assert IsDigit(s[|s| - 1]);
      ValueOf(s[..|s| - 1]) * 10 + (s[|s| - 1] as int - '0' as int)
  }

  predicate IsSpace(c: char) {
    c == ' ' || '\t' <= c <= '\r'
  }

  const INT_RANGE := 0x8000_0000

  /** A number stored in a 32-bit int. */
  function ToInt(v: int): int {
    (v + INT_RANGE) % (2 * INT_RANGE) - INT_RANGE
  }

  /** `atoi`; the C standard leaves open what happens to numbers out of range, which wrap around here. */
  function Atoi(s: string): int {
    if s == "" then 0
    else if IsSpace(s[0]) then Atoi(s[1..])
    else if s[0] == '-' then ToInt(-(ValueOf(s[1..][..Digits(s[1..])]) as int))
    else if s[0] == '+' then ToInt(ValueOf(s[1..][..Digits(s[1..])]))
    else ToInt(ValueOf(s[..Digits(s)]))
  }

  lemma {:induction false} ValueOfStr(n: nat)
    ensures ValueOf(Str(n)) == n
  {
    if n >= 10 {
      ValueOfStr(n / 10);
      var s := Str(n / 10) + [Digit(n % 10)];
      assert s[..|s| - 1] == Str(n / 10);
    } else {
      assert Str(n)[..0] == "";
    }
  }

  lemma {:induction false} DigitsStop(s: string, tail: string)
    requires forall i :: 0 <= i < |s| ==> IsDigit(s[i])
    requires tail == "" || !IsDigit(tail[0])
    ensures Digits(s + tail) == |s|
  {
    assert forall i :: 0 <= i < |s| ==> IsDigit((s + tail)[i]);
    assert tail != "" ==> (s + tail)[|s|] == tail[0];
  }

  /** Reading a number back is not disturbed by what follows it. */
  lemma AtoiOfStr(n: nat, tail: string)
    requires n < INT_RANGE && (tail == "" || !IsDigit(tail[0]))
    ensures Atoi(Str(n) + tail) == n
  {
    var s := Str(n) + tail;
    DigitsStop(Str(n), tail);
    assert IsDigit(s[0]);
    assert s[..|Str(n)|] == Str(n);
    ValueOfStr(n);
  }

  // ---------- splitting: strtok_r ----------

  /** How many characters at the front of `s` are delimiters, or, unless `skip`, are not. */
  function Run(s: string, d: char, skip: bool): (n: nat)
    ensures n <= |s| && (forall i :: 0 <= i < n ==> (s[i] == d) == skip) && (n < |s| ==> (s[n] == d) != skip)
  {
    if s == "" || (s[0] == d) != skip then 0 else 1 + Run(s[1..], d, skip)
  }

  /** One call of `strtok_r`: the next token, if any, and where the next call goes on. */
  function Strtok(s: string, d: char): (r: (Option<string>, string))
    ensures r.0.Some? ==> |r.1| < |s|
  {
    var t := s[Run(s, d, true)..];
    if t == "" then (None, "")
    else
      var n := Run(t, d, false);
      (Some(t[..n]), if n < |t| then t[n + 1..] else "")
  }

  /** All tokens of repeated calls. */
  function Tokens(s: string, d: char): seq<string>
    decreases |s|
  {
    var r := Strtok(s, d);
    if r.0.None? then [] else [r.0.value] + Tokens(r.1, d)
  }

  function Join(parts: seq<string>, d: char): string {
    if parts == [] then "" else if |parts| == 1 then parts[0] else parts[0] + [d] + Join(parts[1..], d)
  }

  /** Non-empty text that contains no delimiter and no end-of-string mark. */
  predicate Clean(s: string) {
    s != "" && ',' !in s && '|' !in s && '\0' !in s
  }

  ghost predicate Apart(parts: seq<string>, d: char) {
    forall i :: 0 <= i < |parts| ==> parts[i] != "" && d !in parts[i]
  }

  lemma RunOver(s: string, d: char, rest: string)
    requires d !in s && s != "" && (rest == "" || rest[0] == d)
    ensures Run(s + rest, d, true) == 0
    ensures Run(s + rest, d, false) == |s|
  {
    assert (s + rest)[0] == s[0];
    assert forall i :: 0 <= i < |s| ==> (s + rest)[i] in s;
    assert rest != "" ==> (s + rest)[|s|] == d;
  }

  lemma StrtokFirst(s: string, d: char, rest: string)
    requires d !in s && s != ""
    ensures Strtok(s + [d] + rest, d) == (Some(s), rest)
    ensures Strtok(s, d) == (Some(s), "")
  {
    RunOver(s, d, [d] + rest);
    assert s + [d] + rest == s + ([d] + rest);
    var t := s + [d] + rest;
    assert t[0..] == t && t[..|s|] == s && t[|s| + 1..] == rest;
    RunOver(s, d, "");
    assert s + "" == s && s[0..] == s;
  }

  /** Splitting undoes joining. */
  lemma {:induction false} TokensOfJoin(parts: seq<string>, d: char)
    requires Apart(parts, d)
    ensures Tokens(Join(parts, d), d) == parts
  {
    if |parts| == 1 {
      StrtokFirst(parts[0], d, "");
      assert parts == [parts[0]];
    } else if |parts| > 1 {
      StrtokFirst(parts[0], d, Join(parts[1..], d));
      TokensOfJoin(parts[1..], d);
    }
  }

  // ---------- the script: from lines to text ----------

  datatype Line =
    | TestLine(id: nat, name: string, threshold: string, cls: nat)
    | LeafLine(id: nat, cls: nat)
    | EdgeLine(father: nat, child: nat)

  /** The description of a tree: each node in preorder, followed by the edge that leads to it. */
  function Lines(t: Tree, father: Option<nat>): seq<Line> {
    var edge := if father.None? then [] else [EdgeLine(father.value, t.id)];
    match t
    case Leaf(id, cls) => [LeafLine(id, cls)] + edge
    case Test(id, name, threshold, cls, left, right) =>
      [TestLine(id, name, threshold, cls)] + edge + Lines(left, Some(id)) + Lines(right, Some(id))
  }

  /** The fields of each node gathered so far, and whether the root has been seen. */
  datatype Gathered = Gathered(nodes: seq<seq<string>>, begun: bool)

  /** What one line adds. An edge completes the last node with its father. */
  function Gather(g: Gathered, line: Line): Gathered {
    match line
    case TestLine(id, name, threshold, cls) =>
      if id == 0 && !g.begun then Gathered(g.nodes + [["0", Str(id), name, threshold, Str(cls)]], true)
      else g.(nodes := g.nodes + [[Str(id), name, threshold, Str(cls)]])
    case LeafLine(id, cls) => g.(nodes := g.nodes + [[Str(id), "leaf", "0", Str(cls)]])
    case EdgeLine(father, _) =>
      if g.nodes != [] && |g.nodes[|g.nodes| - 1]| == 4
      then g.(nodes := g.nodes[|g.nodes| - 1 := [Str(father)] + g.nodes[|g.nodes| - 1]])
      else g
  }

  function GatherAll(g: Gathered, lines: seq<Line>): Gathered
    decreases |lines|
  {
    if lines == [] then g else GatherAll(Gather(g, lines[0]), lines[1..])
  }

  const PREFIX := "AAAA8B"
  const SUFFIX := ";."

  function JoinAll(nodes: seq<seq<string>>): (r: seq<string>)
    ensures |r| == |nodes| && forall i :: 0 <= i < |nodes| ==> r[i] == Join(nodes[i], ',')
  {
    seq(|nodes|, i requires 0 <= i < |nodes| => Join(nodes[i], ','))
  }

  /** The text that is sent. */
  function Wire(nodes: seq<seq<string>>): string {
    PREFIX + Join(JoinAll(nodes), '|') + SUFFIX
  }

  function Print(t: Tree): string {
    Wire(GatherAll(Gathered([], false), Lines(t, None)).nodes)
  }

  /** The loop over `nodes` and over their fields. */
  method Serialize(nodes: seq<seq<string>>) returns (text: string)
    requires forall i :: 0 <= i < |nodes| ==> nodes[i] != [] && nodes[i][0] != ""
    ensures text == Wire(nodes)
  {
    text := "";
    for i := 0 to |nodes|
      invariant text == Join(JoinAll(nodes)[..i], '|')
      invariant text == "" <==> i == 0
    {
      var part := "";
      for k := 0 to |nodes[i]|
        invariant part == Join(nodes[i][..k], ',')
        invariant part == "" <==> k == 0
      {
        JoinOneMore(nodes[i], k, ',');
        if part == "" { part := nodes[i][k]; } else { part := part + "," + nodes[i][k]; }
      }
      assert nodes[i][..|nodes[i]|] == nodes[i];
      JoinOneMore(JoinAll(nodes), i, '|');
      if text == "" { text := part; } else { text := text + "|" + part; }
    }
    assert JoinAll(nodes)[..|nodes|] == JoinAll(nodes);
    text := PREFIX + text + SUFFIX;
  }

  lemma {:induction false} JoinOneMore(parts: seq<string>, k: nat, d: char)
    requires k < |parts|
    ensures Join(parts[..k + 1], d) == if k == 0 then parts[0] else Join(parts[..k], d) + [d] + parts[k]
    ensures parts[0] != "" ==> Join(parts[..k + 1], d) != ""
    decreases k
  {
    if k > 0 {
      JoinOneMore(parts[1..], k - 1, d);
      assert parts[..k + 1][1..] == parts[1..][..k];
      assert parts[..k][1..] == parts[1..][..k - 1];
      assert parts[..k + 1][0] == parts[0];
      if k > 1 {
        assert parts[0] + [d] + (Join(parts[1..][..k - 1], d) + [d] + parts[k]) == parts[0] + [d] + Join(parts[1..][..k - 1], d) + [d] + parts[k];
      }
    }
  }

  // ---------- the switch: from text to records ----------

  /** Fields that were not sent stay as they were cleared. */
  datatype Record = Record(father: int, id: int, name: Option<string>, value: real, cls: int)

  const Blank := Record(0, 0, None, 0.0, 0)

  /** What the `k`-th field of a record sets. */
  function SetField(r: Record, k: nat, q: string, atof: string -> real): Record {
    if k == 0 then r.(father := Atoi(q))
    else if k == 1 then r.(id := Atoi(q))
    else if k == 2 then r.(name := Some(q))
    else if k == 3 then r.(value := atof(q))
    else if k == 4 then r.(cls := Atoi(q))
    else r
  }

  function SetFields(r: Record, k: nat, fields: seq<string>, atof: string -> real): Record
    decreases |fields|
  {
    if fields == [] then r else SetFields(SetField(r, k, fields[0], atof), k + 1, fields[1..], atof)
  }

  function ReadRecord(fields: seq<string>, atof: string -> real): Record {
    SetFields(Blank, 0, fields, atof)
  }

  function ReadAll(parts: seq<string>, atof: string -> real): seq<Record>
    decreases |parts|
  {
    if parts == [] then [] else [ReadRecord(Tokens(parts[0], ','), atof)] + ReadAll(parts[1..], atof)
  }

  function Parse(text: string, atof: string -> real): seq<Record> {
    ReadAll(Tokens(text, '|'), atof)
  }

  /** The inner `strtok_r` loop of `init_linger_m`. */
  method ParseRecord(part: string, atof: string -> real) returns (r: Record)
    ensures r == ReadRecord(Tokens(part, ','), atof)
  {
    var next := Strtok(part, ',');
    var q, rest := next.0, next.1;
    var k: nat := 0;
    r := Blank;
    while q.Some?
      invariant SetFields(r, k, if q.None? then [] else [q.value] + Tokens(rest, ','), atof)
             == ReadRecord(Tokens(part, ','), atof)
      decreases if q.None? then 0 else 1 + |rest|
    {
      assert ([q.value] + Tokens(rest, ','))[1..] == Tokens(rest, ',');
      r := SetField(r, k, q.value, atof);
      k := k + 1;
      next := Strtok(rest, ',');
      q, rest := next.0, next.1;
    }
  }

  /** The outer loop of `init_linger_m`, which appends to the list of records. */
  method ParseText(text: string, atof: string -> real) returns (records: seq<Record>)
    ensures records == Parse(text, atof)
  {
    records := [];
    var next := Strtok(text, '|');
    var p, rest := next.0, next.1;
    while p.Some?
      invariant records + ReadAll(if p.None? then [] else [p.value] + Tokens(rest, '|'), atof) == Parse(text, atof)
      decreases if p.None? then 0 else 1 + |rest|
    {
      assert ([p.value] + Tokens(rest, '|'))[1..] == Tokens(rest, '|');
      var r := ParseRecord(p.value, atof);
      records := records + [r];
      next := Strtok(rest, '|');
      p, rest := next.0, next.1;
    }
  }
}
