/** Freedom from starvation: a flow on either list gets its turn within a bound counted in the flows ahead of it,
    although flows that have run empty come back in front of the old ones. */
module Starvation {
  import opened SerialTime
  import opened Codel
  import opened CodelLemmas
  import opened FqCodel
  import opened FqCodelInv
  import opened FqCodelRun
  import opened FqCodelTheorems
  import Fairness

  // ---------- runs of arrivals and passes ----------

  /** A packet arrives, or the block at `begin` is run once, which hands out a packet or none. */
  datatype Step = Arrival(classid: nat, pkt: Incoming, bypass: bool) | Turn(sent: Option<Packet>)

  ghost predicate Steps(s: Sched, e: Step, t: Sched, gap: Clock) {
    match e
    case Arrival(classid, pkt, bypass) => Enqueueable(s, classid, pkt, gap) && t == Enqueue(s, classid, pkt, bypass, gap).0
    case Turn(sent) =>
      WellFormed(s) && match Begin(s, gap)
                       case Idle => false
                       case Again(u) => t == u && sent == None
                       case Got(u, pkt) => t == u && sent == Some(pkt)
  }

  ghost predicate Listed(s: Sched, x: nat) {
    x in s.newFlows || x in s.oldFlows
  }

  /** Nothing has been done to flow `x`: it has the credit it had and stands on the list it stood on. */
  ghost predicate Untouched(s: Sched, t: Sched, x: nat) {
    && x < |s.flows| && x < |t.flows| && t.flows[x].deficit == s.flows[x].deficit
    && (x in t.newFlows <==> x in s.newFlows) && (x in t.oldFlows <==> x in s.oldFlows)
  }

  /** Step `k` of a run, which leaves flow `x` alone. */
  ghost predicate PassesBy(ss: seq<Sched>, steps: seq<Step>, k: nat, x: nat, gap: Clock)
    requires k < |steps| && |ss| == |steps| + 1
  {
    Steps(ss[k], steps[k], ss[k + 1], gap) && Untouched(ss[k], ss[k + 1], x)
  }

  /** A run during which the listed flow `x` waits for its turn. */
  ghost predicate Waits(ss: seq<Sched>, steps: seq<Step>, x: nat, gap: Clock) {
    && |ss| == |steps| + 1 && Listed(ss[0], x)
    && forall k :: 0 <= k < |steps| ==> PassesBy(ss, steps, k, x, gap)
  }

  /** No packet that arrives is longer than `maxpacket`. */
  ghost predicate SmallArrivals(steps: seq<Step>, maxpacket: nat) {
    forall k :: 0 <= k < |steps| && steps[k].Arrival? ==> steps[k].pkt.len <= maxpacket
  }

  /** Bytes handed out by the first `n` steps, and as many more as there were passes that handed out nothing. */
  function Spent(steps: seq<Step>, n: nat): nat
    requires n <= |steps|
  {
    if n == 0 then 0 else
      Spent(steps, n - 1) + SpentIn(steps[n - 1])
  }

  function SpentIn(e: Step): nat {
    match e
    case Arrival(_, _, _) => 0
    case Turn(None) => 1
    case Turn(Some(pkt)) => pkt.len
  }

  /** How many of the first `n` steps were passes. */
  function Passes(steps: seq<Step>, n: nat): nat
    requires n <= |steps|
  {
    if n == 0 then 0 else Passes(steps, n - 1) + if steps[n - 1].Turn? then 1 else 0
  }

  // ---------- the lists alone ----------

  /** The two lists, each flow's deficit, and the quantum. */
  datatype Board = Board(news: seq<nat>, olds: seq<nat>, credit: seq<int>, quantum: int)

  function BoardOf(s: Sched): (b: Board)
    ensures |b.credit| == |s.flows|
  {
    Board(s.newFlows, s.oldFlows, seq(|s.flows|, i requires 0 <= i < |s.flows| => s.flows[i].deficit), s.quantum)
  }

  ghost predicate Within(l: seq<nat>, credit: seq<int>) {
    forall k :: 0 <= k < |l| ==> l[k] < |credit|
  }

  ghost predicate Fine(b: Board) {
    && Distinct(b.news + b.olds) && Within(b.news, b.credit) && Within(b.olds, b.credit) && 0 < b.quantum
    && forall i :: 0 <= i < |b.credit| ==> b.credit[i] <= b.quantum
  }

  function Head(b: Board): nat
    requires b.news != [] || b.olds != []
  {
    if b.news != [] then b.news[0] else b.olds[0]
  }

  /** The first flow has sent `len` bytes. */
  ghost predicate HeadSent(b: Board, c: Board, len: int) {
    && (b.news != [] || b.olds != []) && Head(b) < |b.credit| && b.credit[Head(b)] > 0
    && c == b.(credit := b.credit[Head(b) := b.credit[Head(b)] - len])
  }

  /** The first flow has left its place: for the tail of the old list, or none, if it came from that list or nothing
      stood there. */
  ghost predicate HeadMoved(b: Board, c: Board) {
    && (b.news != [] || b.olds != []) && |c.credit| == |b.credit| && c.quantum == b.quantum
    && (forall j :: 0 <= j < |b.credit| && j != Head(b) ==> c.credit[j] == b.credit[j])
    && (if b.news != [] then c.news == b.news[1..] && (c.olds == b.olds + [Head(b)] || (b.olds == [] && c.olds == []))
        else c.news == [] && (c.olds == b.olds[1..] + [Head(b)] || c.olds == b.olds[1..]))
  }

  /** A flow that stood on no list has come to the tail of the new one with a quantum, or nothing has happened. */
  ghost predicate Came(b: Board, c: Board) {
    c == b || exists i :: CameIn(b, c, i)
  }

  ghost predicate CameIn(b: Board, c: Board, i: nat) {
    && i < |b.credit| && i !in b.news && i !in b.olds
    && c == b.(news := b.news + [i], credit := b.credit[i := b.quantum])
  }

  // ---------- what the steps do to the lists ----------

  lemma PassOnBoard(s: Sched, t: Sched, sent: Option<Packet>, gap: Clock)
    requires Shape(s) && s.quantum < HALF && Steps(s, Turn(sent), t, gap)
    ensures var b, c := BoardOf(s), BoardOf(t);
            match sent case None => HeadMoved(b, c) case Some(pkt) => HeadSent(b, c, pkt.len)
    ensures sent == None && s.flows[First(s)].deficit <= 0 ==>
              |t.flows| == |s.flows| && t.flows[First(s)].deficit > s.flows[First(s)].deficit
    ensures sent == None && s.flows[First(s)].deficit > 0 ==>
              First(s) !in t.newFlows && (First(s) in t.oldFlows <==> s.newFlows != [] && s.oldFlows != [])
  {
    var i := First(s);
    if s.flows[i].deficit <= 0 {
      BeginRefills(s, gap);
      Fairness.ToppedIsSum(s.flows[i].deficit, s.quantum);
    } else {
      var (s1, out) := Poll(s, i, gap);
      PollFrame(s, i, gap);
      BeginPolls(s, gap, i, s1, out);
      HeadAlone(s);
      assert BoardOf(s1) == BoardOf(s);
      if out.None? { RetiredOnBoard(s1); } else { DeliveredOnBoard(s1, i, out.value); }
    }
  }

  /** A flow whose turn finds nothing to send, though it has credit, leaves the lists; unless it was new and old flows
      are waiting, and then, and only then, it has to pass through their list first. */
  lemma EmptiedFlowLeaves(s: Sched, t: Sched, gap: Clock)
    requires Shape(s) && s.quantum < HALF && Steps(s, Turn(None), t, gap) && s.flows[First(s)].deficit > 0
    ensures Listed(t, First(s)) <==> s.newFlows != [] && s.oldFlows != []
    ensures Listed(t, First(s)) ==> t.oldFlows == s.oldFlows + [First(s)]
  {
    PassOnBoard(s, t, None, gap);
    HeadAlone(s);
  }

  lemma HeadAlone(s: Sched)
    requires Shape(s) && (s.newFlows != [] || s.oldFlows != [])
    ensures s.newFlows != [] ==> First(s) !in s.newFlows[1..] && First(s) !in s.oldFlows
    ensures s.newFlows == [] ==> First(s) !in s.oldFlows[1..]
  {
    var l := s.newFlows + s.oldFlows;
    assert l[0] == First(s);
    if s.newFlows != [] {
      forall k | 0 <= k < |s.newFlows[1..]| ensures s.newFlows[1..][k] != l[0] { assert l[k + 1] == s.newFlows[1..][k]; }
      forall k | 0 <= k < |s.oldFlows| ensures s.oldFlows[k] != l[0] { assert l[|s.newFlows| + k] == s.oldFlows[k]; }
    } else {
      forall k | 0 <= k < |s.oldFlows[1..]| ensures s.oldFlows[1..][k] != l[0] { assert l[k + 1] == s.oldFlows[1..][k]; }
    }
  }

  lemma RetiredOnBoard(s: Sched)
    requires s.newFlows != [] || s.oldFlows != []
    ensures HeadMoved(BoardOf(s), BoardOf(Retire(s)))
  {
    assert BoardOf(Retire(s)).credit == BoardOf(s).credit;
  }

  lemma DeliveredOnBoard(s: Sched, i: nat, pkt: Packet)
    requires (s.newFlows != [] || s.oldFlows != []) && i == First(s) && i < |s.flows| == |s.hist| && s.flows[i].deficit > 0
    ensures HeadSent(BoardOf(s), BoardOf(Report(Charge(s, i, pkt))), pkt.len)
  {
    var t := Report(Charge(s, i, pkt));
    assert BoardOf(t).credit == BoardOf(s).credit[i := s.flows[i].deficit - pkt.len];
  }

  lemma ArrivalOnBoard(s: Sched, t: Sched, classid: nat, pkt: Incoming, bypass: bool, gap: Clock)
    requires s.quantum < HALF && Steps(s, Arrival(classid, pkt, bypass), t, gap)
    ensures Came(BoardOf(s), BoardOf(t))
  {
    if classid == 0 {
      assert BoardOf(t) == BoardOf(s);
    } else {
      var s1 := ReadClock(s, gap);
      var s2 := Append(s1, classid - 1, Stamped(pkt, s1.time));
      AppendedOnBoard(s1, classid - 1, Stamped(pkt, s1.time));
      assert BoardOf(s1) == BoardOf(s);
      AdmittedOnBoard(s2, classid);
    }
  }

  lemma AdmittedOnBoard(s: Sched, classid: nat)
    requires |s.flows| == |s.backlogs| == |s.hist| > 0 && s.flows[FatFlow(s.backlogs, |s.backlogs|)].queue != []
    ensures BoardOf(Admit(s, classid).0) == BoardOf(s)
  {
    assert BoardOf(Admit(s, classid).0).credit == BoardOf(s).credit;
  }

  lemma AppendedOnBoard(s: Sched, i: nat, pkt: Packet)
    requires i < |s.flows| == |s.backlogs| == |s.hist| && s.quantum < HALF
    ensures Came(BoardOf(s), BoardOf(Append(s, i, pkt)))
  {
    var b, c := BoardOf(s), BoardOf(Append(s, i, pkt));
    if i !in s.newFlows && i !in s.oldFlows {
      assert c.credit == b.credit[i := b.quantum];
      assert CameIn(b, c, i);
    } else {
      assert c.credit == b.credit;
      assert c == b;
    }
  }

  // ---------- what flows may still cost ----------

  /** The most a flow can cost before it leaves its place: its credit and a packet, or one pass. */
  function Cost(credit: int, maxpacket: nat): int {
    if credit > 0 then credit + maxpacket else 1
  }

  function Costs(l: seq<nat>, credit: seq<int>, maxpacket: nat): int
    requires Within(l, credit)
  {
    if l == [] then 0 else Cost(credit[l[0]], maxpacket) + Costs(l[1..], credit, maxpacket)
  }

  /** The flows on a list before `x`. */
  function Ahead(l: seq<nat>, x: nat): (a: seq<nat>)
    ensures |a| <= |l| && a == l[..|a|]
    ensures x !in a
    ensures x in l ==> |a| < |l| && l[|a|] == x
  {
    if l == [] || l[0] == x then [] else [l[0]] + Ahead(l[1..], x)
  }

  lemma {:induction false} AheadLonger(l: seq<nat>, y: nat, x: nat)
    requires x in l
    ensures Ahead(l + [y], x) == Ahead(l, x)
  {
    if l[0] != x { assert (l + [y])[1..] == l[1..] + [y]; AheadLonger(l[1..], y, x); }
  }

  lemma OneLess(n: int, room: int)
    ensures (n - 1) * room == n * room - room
  {
  }

  lemma {:induction false} CostsBounds(l: seq<nat>, credit: seq<int>, maxpacket: nat, quantum: int)
    requires Within(l, credit) && 0 < quantum && forall i :: 0 <= i < |credit| ==> credit[i] <= quantum
    ensures 0 <= Costs(l, credit, maxpacket) <= |l| * (quantum + maxpacket)
  {
    if l != [] {
      CostsBounds(l[1..], credit, maxpacket, quantum);
      OneLess(|l|, quantum + maxpacket);
      assert Cost(credit[l[0]], maxpacket) <= quantum + maxpacket;
    }
  }

  /** Only the credit of the listed flows counts. */
  lemma {:induction false} CostsFrame(l: seq<nat>, credit: seq<int>, credit': seq<int>, maxpacket: nat)
    requires Within(l, credit) && |credit'| == |credit| && forall k :: 0 <= k < |l| ==> credit'[l[k]] == credit[l[k]]
    ensures Within(l, credit') && Costs(l, credit', maxpacket) == Costs(l, credit, maxpacket)
  {
    if l != [] {
      assert forall k :: 0 <= k < |l[1..]| ==> credit'[l[1..][k]] == credit[l[1..][k]] by {
        forall k | 0 <= k < |l[1..]| ensures credit'[l[1..][k]] == credit[l[1..][k]] { assert l[1..][k] == l[k + 1]; }
      }
      CostsFrame(l[1..], credit, credit', maxpacket);
    }
  }

  lemma {:induction false} CostsAppend(l: seq<nat>, y: nat, credit: seq<int>, maxpacket: nat)
    requires Within(l, credit) && y < |credit|
    ensures Within(l + [y], credit)
    ensures Costs(l + [y], credit, maxpacket) == Costs(l, credit, maxpacket) + Cost(credit[y], maxpacket)
  {
    if l != [] {
      assert (l + [y])[1..] == l[1..] + [y];
      CostsAppend(l[1..], y, credit, maxpacket);
    } else {
      assert [y][1..] == [];
      assert l + [y] == [y];
    }
  }

  /** What can be spent before flow `x` gets its turn. While it is new, the new flows before it cost what they have.
      While it is old, so do all new ones and the old ones before it; these last can come back once as new, and so can
      flows on no list come. */
  function Score(b: Board, x: nat, maxpacket: nat): int
    requires Within(b.news, b.credit) && Within(b.olds, b.credit)
  {
    if x in b.news then Costs(Ahead(b.news, x), b.credit, maxpacket)
    else
      var a := Ahead(b.olds, x);
      Costs(b.news, b.credit, maxpacket) + Costs(a, b.credit, maxpacket)
      + (|a| + |b.credit| - |b.news| - |b.olds|) * (b.quantum + maxpacket)
  }

  lemma HeadApart(b: Board)
    requires Fine(b) && (b.news != [] || b.olds != [])
    ensures b.news != [] ==> forall k :: 0 <= k < |b.news[1..]| ==> b.news[1..][k] != Head(b)
    ensures b.news != [] ==> forall k :: 0 <= k < |b.olds| ==> b.olds[k] != Head(b)
    ensures b.news == [] ==> forall k :: 0 <= k < |b.olds[1..]| ==> b.olds[1..][k] != Head(b)
  {
    var l := b.news + b.olds;
    assert l[0] == Head(b);
    if b.news != [] {
      forall k | 0 <= k < |b.news[1..]| ensures b.news[1..][k] != l[0] { assert l[k + 1] == b.news[1..][k]; }
      forall k | 0 <= k < |b.olds| ensures b.olds[k] != l[0] { assert l[|b.news| + k] == b.olds[k]; }
    } else {
      forall k | 0 <= k < |b.olds[1..]| ensures b.olds[1..][k] != l[0] { assert l[k + 1] == b.olds[1..][k]; }
    }
  }

  /** A list headed by the flow that has sent: its cost has gone down by the bytes at least. */
  lemma SentCosts(l: seq<nat>, credit: seq<int>, credit': seq<int>, len: nat, maxpacket: nat)
    requires l != [] && Within(l, credit) && 0 < len <= maxpacket && credit[l[0]] > 0
    requires credit' == credit[l[0] := credit[l[0]] - len] && forall k :: 0 <= k < |l[1..]| ==> l[1..][k] != l[0]
    ensures Within(l, credit') && Costs(l, credit', maxpacket) + len <= Costs(l, credit, maxpacket)
  {
    CostsFrame(l[1..], credit, credit', maxpacket);
  }

  lemma SentFalls(b: Board, c: Board, x: nat, len: nat, maxpacket: nat)
    requires Fine(b) && HeadSent(b, c, len) && 0 < len <= maxpacket && Head(b) != x && (x in b.news || x in b.olds)
    ensures Fine(c) && Score(c, x, maxpacket) + len <= Score(b, x, maxpacket)
  {
    HeadApart(b);
    if b.news != [] {
      if x in b.news {
        var a := Ahead(b.news, x);
        forall k | 0 <= k < |a[1..]| ensures a[1..][k] != a[0] { assert b.news[1..][k] == a[1..][k]; }
        SentCosts(a, b.credit, c.credit, len, maxpacket);
      } else {
        SentCosts(b.news, b.credit, c.credit, len, maxpacket);
        CostsFrame(Ahead(b.olds, x), b.credit, c.credit, maxpacket);
      }
    } else {
      var a := Ahead(b.olds, x);
      forall k | 0 <= k < |a[1..]| ensures a[1..][k] != a[0] { assert b.olds[1..][k] == a[1..][k]; }
      SentCosts(a, b.credit, c.credit, len, maxpacket);
    }
  }

  lemma MovedStaysFine(b: Board, c: Board)
    requires Fine(b) && HeadMoved(b, c) && c.credit[Head(b)] <= b.quantum
    ensures Fine(c)
  {
    HeadApart(b);
    var l, m := b.news + b.olds, c.news + c.olds;
    assert l[1..] == b.news[if b.news == [] then 0 else 1..] + b.olds[if b.news == [] then 1 else 0..];
    assert m == l[1..] + [l[0]] || m == l[1..];
    forall i, j | 0 <= i < j < |m| ensures m[i] != m[j] {}
    assert Within(c.news, c.credit);
    assert Within(c.olds, c.credit);
  }

  lemma MovedFalls(b: Board, c: Board, x: nat, maxpacket: nat)
    requires Fine(b) && HeadMoved(b, c) && Fine(c) && Head(b) != x && (x in b.news || x in b.olds)
    ensures x in b.news ==> x in c.news
    ensures x !in b.news ==> x in c.olds && x !in c.news
    ensures Score(c, x, maxpacket) + 1 <= Score(b, x, maxpacket)
  {
    HeadApart(b);
    if b.news == [] { OldMovedFalls(b, c, x, maxpacket); }
    else if x in b.news { NewMovedNew(b, c, x, maxpacket); }
    else { NewMovedOld(b, c, x, maxpacket); }
  }

  lemma AheadTail(l: seq<nat>, x: nat)
    requires l != [] && l[0] != x
    ensures Ahead(l, x) == [l[0]] + Ahead(l[1..], x) && Ahead(l, x)[1..] == Ahead(l[1..], x)
  {
  }

  lemma AheadApart(l: seq<nat>, x: nat, h: nat)
    requires forall k :: 0 <= k < |l| ==> l[k] != h
    ensures forall k :: 0 <= k < |Ahead(l, x)| ==> Ahead(l, x)[k] != h
  {
    var a := Ahead(l, x);
    forall k | 0 <= k < |a| ensures a[k] != h { assert l[k] == a[k]; }
  }

  lemma NewMovedNew(b: Board, c: Board, x: nat, maxpacket: nat)
    requires Fine(b) && HeadMoved(b, c) && Fine(c) && Head(b) != x && x in b.news
    requires forall k :: 0 <= k < |b.news[1..]| ==> b.news[1..][k] != Head(b)
    ensures x in c.news && Score(c, x, maxpacket) + 1 <= Score(b, x, maxpacket)
  {
    AheadTail(b.news, x);
    AheadApart(b.news[1..], x, Head(b));
    CostsFrame(Ahead(b.news[1..], x), b.credit, c.credit, maxpacket);
  }

  lemma NewMovedOld(b: Board, c: Board, x: nat, maxpacket: nat)
    requires Fine(b) && HeadMoved(b, c) && Fine(c) && x !in b.news && x in b.olds && b.news != []
    requires forall k :: 0 <= k < |b.news[1..]| ==> b.news[1..][k] != Head(b)
    requires forall k :: 0 <= k < |b.olds| ==> b.olds[k] != Head(b)
    ensures x in c.olds && x !in c.news && Score(c, x, maxpacket) + 1 <= Score(b, x, maxpacket)
  {
    AheadLonger(b.olds, Head(b), x);
    AheadApart(b.olds, x, Head(b));
    CostsFrame(b.news[1..], b.credit, c.credit, maxpacket);
    CostsFrame(Ahead(b.olds, x), b.credit, c.credit, maxpacket);
  }

  lemma OldMovedFalls(b: Board, c: Board, x: nat, maxpacket: nat)
    requires Fine(b) && HeadMoved(b, c) && Fine(c) && Head(b) != x && x in b.olds && b.news == []
    requires forall k :: 0 <= k < |b.olds[1..]| ==> b.olds[1..][k] != Head(b)
    ensures x in c.olds && Score(c, x, maxpacket) + 1 <= Score(b, x, maxpacket)
  {
    AheadTail(b.olds, x);
    AheadApart(b.olds[1..], x, Head(b));
    CostsFrame(Ahead(b.olds[1..], x), b.credit, c.credit, maxpacket);
    AheadLonger(b.olds[1..], Head(b), x);
    OldLess(b, c, x, maxpacket, Ahead(b.olds[1..], x));
  }

  lemma OldLess(b: Board, c: Board, x: nat, maxpacket: nat, a: seq<nat>)
    requires Fine(b) && Fine(c) && HeadMoved(b, c) && b.news == [] && Within(a, b.credit) && Within(a, c.credit)
    requires x in c.olds && Ahead(c.olds, x) == a && Ahead(b.olds, x) == [Head(b)] + a && |c.olds| >= |b.olds| - 1
    requires Costs(a, c.credit, maxpacket) == Costs(a, b.credit, maxpacket)
    ensures Score(c, x, maxpacket) + 1 <= Score(b, x, maxpacket)
  {
    assert ([Head(b)] + a)[1..] == a;
    assert Costs([Head(b)] + a, b.credit, maxpacket) == Cost(b.credit[Head(b)], maxpacket) + Costs(a, b.credit, maxpacket);
    var room := b.quantum + maxpacket;
    Grows(|a| + |b.credit| - |c.olds|, |a| + 1 + |b.credit| - |b.olds|, room);
  }

  lemma Grows(m: int, n: int, room: int)
    requires m <= n && 0 <= room
    ensures m * room <= n * room
  {
  }

  lemma CameFine(b: Board, c: Board, i: nat)
    requires Fine(b) && CameIn(b, c, i)
    ensures Fine(c)
  {
    InsertKeepsDistinct(b.news, i, b.olds);
  }

  lemma CameSame(b: Board, c: Board, x: nat, maxpacket: nat)
    requires Fine(b) && Came(b, c) && (x in b.news || x in b.olds)
    ensures Fine(c) && (x in c.news <==> x in b.news) && c.olds == b.olds
    ensures Score(c, x, maxpacket) == Score(b, x, maxpacket)
  {
    if c != b {
      var i :| CameIn(b, c, i);
      CameFine(b, c, i);
      forall k | 0 <= k < |b.news| ensures b.news[k] != i {}
      forall k | 0 <= k < |b.olds| ensures b.olds[k] != i {}
      if x in b.news { CameBehindNew(b, c, i, x, maxpacket); } else { CameBeforeOld(b, c, i, x, maxpacket); }
    }
  }

  lemma CameBehindNew(b: Board, c: Board, i: nat, x: nat, maxpacket: nat)
    requires Fine(b) && CameIn(b, c, i) && Fine(c) && x in b.news
    requires forall k :: 0 <= k < |b.news| ==> b.news[k] != i
    ensures x in c.news && Score(c, x, maxpacket) == Score(b, x, maxpacket)
  {
    AheadLonger(b.news, i, x);
    CostsFrame(Ahead(b.news, x), b.credit, c.credit, maxpacket);
  }

  lemma CameBeforeOld(b: Board, c: Board, i: nat, x: nat, maxpacket: nat)
    requires Fine(b) && CameIn(b, c, i) && Fine(c) && x !in b.news && x in b.olds
    requires forall k :: 0 <= k < |b.news| ==> b.news[k] != i
    requires forall k :: 0 <= k < |b.olds| ==> b.olds[k] != i
    ensures x !in c.news && Score(c, x, maxpacket) == Score(b, x, maxpacket)
  {
    CostsFrame(b.news, b.credit, c.credit, maxpacket);
    CostsFrame(Ahead(b.olds, x), b.credit, c.credit, maxpacket);
    CostsAppend(b.news, i, c.credit, maxpacket);
    OneLess(|Ahead(b.olds, x)| + |b.credit| - |b.news| - |b.olds|, b.quantum + maxpacket);
  }

  /** A list of different numbers below `n` has at most that many. */
  lemma AtMostAll(l: seq<nat>, n: nat)
    requires Distinct(l) && forall k :: 0 <= k < |l| ==> l[k] < n
    ensures |l| <= n
  {
    var s := Members(l);
    SubsetSize(s, UpTo(n));
  }

  ghost function Members(l: seq<nat>): (s: set<nat>)
    requires Distinct(l)
    ensures |s| == |l| && forall y :: y in s <==> y in l
  {
    if l == [] then {} else
      var r := l[..|l| - 1];
      assert forall y :: y in l <==> y in r || y == l[|l| - 1];
      Members(r) + {l[|l| - 1]}
  }

  function UpTo(n: nat): (s: set<nat>)
    ensures |s| == n && forall y: nat :: y in s <==> y < n
  {
    if n == 0 then {} else UpTo(n - 1) + {n - 1}
  }

  lemma SubsetSize(s: set<nat>, t: set<nat>)
    requires s <= t
    ensures |s| <= |t|
  {
    assert t == s + (t - s);
  }

  lemma TimesNonNegative(n: int, room: int)
    requires n >= 0 && room >= 0
    ensures n * room >= 0
  {
  }

  lemma ListsFit(b: Board)
    requires Fine(b)
    ensures |b.news| + |b.olds| <= |b.credit|
  {
    AtMostAll(b.news + b.olds, |b.credit|);
  }

  lemma ScoreNonNegative(b: Board, x: nat, maxpacket: nat)
    requires Fine(b)
    ensures Score(b, x, maxpacket) >= 0
  {
    if x in b.news {
      CostsBounds(Ahead(b.news, x), b.credit, maxpacket, b.quantum);
    } else {
      CostsBounds(b.news, b.credit, maxpacket, b.quantum);
      CostsBounds(Ahead(b.olds, x), b.credit, maxpacket, b.quantum);
      ListsFit(b);
      TimesNonNegative(|Ahead(b.olds, x)| + |b.credit| - |b.news| - |b.olds|, b.quantum + maxpacket);
    }
  }

  /** How many times another flow can be served first: once for each new flow before it, if it is new; else twice for
      each old one before it, and once for each of those not on the old list. */
  function Servings(b: Board, x: nat): nat
    requires |b.olds| <= |b.credit|
  {
    if x in b.news then |Ahead(b.news, x)| else 2 * |Ahead(b.olds, x)| + |b.credit| - |b.olds|
  }

  lemma SumTimes(a: int, d: int, n: int, room: int)
    ensures a * room + d * room + n * room == (a + d + n) * room
  {
  }

  lemma ScoreBound(b: Board, x: nat, maxpacket: nat)
    requires Fine(b)
    ensures |b.olds| <= |b.credit| && Score(b, x, maxpacket) <= Servings(b, x) * (b.quantum + maxpacket)
  {
    ListsFit(b);
    if x in b.news {
      CostsBounds(Ahead(b.news, x), b.credit, maxpacket, b.quantum);
    } else {
      var a := Ahead(b.olds, x);
      CostsBounds(b.news, b.credit, maxpacket, b.quantum);
      CostsBounds(a, b.credit, maxpacket, b.quantum);
      SumTimes(|b.news|, |a|, |a| + |b.credit| - |b.news| - |b.olds|, b.quantum + maxpacket);
    }
  }

  // ---------- runs ----------

  /** A state with its books in order, credit in bounds and no packet longer than `maxpacket`. */
  ghost predicate Fit(s: Sched, maxpacket: nat) {
    && (exists stray, owed :: Inv(s, stray, owed)) && s.qlen <= s.limit && Fairness.CreditOk(s, maxpacket)
  }

  lemma FitIsFine(s: Sched, maxpacket: nat)
    requires Fit(s, maxpacket)
    ensures Shape(s) && s.quantum < HALF && Fine(BoardOf(s))
  {
  }

  lemma TurnKeepsFit(s: Sched, sent: Option<Packet>, t: Sched, gap: Clock, maxpacket: nat)
    requires Fit(s, maxpacket) && Steps(s, Turn(sent), t, gap)
    ensures Fit(t, maxpacket) && (sent.Some? ==> sent.value.len <= maxpacket)
  {
    var stray, owed :| Inv(s, stray, owed);
    BeginKeepsInv(s, gap, stray, owed);
    BeginKeepsSettings(s, gap);
    Fairness.BeginKeepsCredit(s, gap, stray, owed, maxpacket);
    if sent.Some? {
      assert Inv(t, stray, owed + 1);
      SentIsSmall(s, sent.value, t, gap, stray, owed, maxpacket);
    }
  }

  lemma SentIsSmall(s: Sched, pkt: Packet, t: Sched, gap: Clock, stray: int, owed: int, maxpacket: nat)
    requires Inv(s, stray, owed) && Fairness.CreditOk(s, maxpacket) && Steps(s, Turn(Some(pkt)), t, gap)
    ensures pkt.len <= maxpacket
  {
    var i := First(s);
    if s.flows[i].deficit <= 0 {
      BeginRefills(s, gap);
    } else {
      var (s1, out) := Poll(s, i, gap);
      PollFrame(s, i, gap);
      Fairness.PollKeepsCredit(s, i, gap, stray, owed, maxpacket);
      BeginPolls(s, gap, i, s1, out);
    }
  }

  lemma ArrivalKeepsFit(s: Sched, classid: nat, pkt: Incoming, bypass: bool, t: Sched, gap: Clock, maxpacket: nat)
    requires Fit(s, maxpacket) && Steps(s, Arrival(classid, pkt, bypass), t, gap) && pkt.len <= maxpacket
    ensures Fit(t, maxpacket)
  {
    var stray, owed :| Inv(s, stray, owed);
    EnqueueKeepsInv(s, classid, pkt, bypass, gap, stray, owed);
    Fairness.EnqueueKeepsCredit(s, classid, pkt, bypass, gap, maxpacket);
    assert Inv(t, stray + (if classid == 0 && bypass then 1 else 0), owed);
  }

  /** A pass that leaves flow `x` alone is not its turn. */
  lemma NotItsTurn(s: Sched, sent: Option<Packet>, t: Sched, x: nat, gap: Clock)
    requires Shape(s) && s.quantum < HALF && Steps(s, Turn(sent), t, gap) && Listed(s, x) && Untouched(s, t, x)
    ensures First(s) != x
  {
    PassOnBoard(s, t, sent, gap);
    var i := First(s);
    if sent.Some? {
      assert BoardOf(t).credit[i] == BoardOf(s).credit[i] - sent.value.len;
      assert BoardOf(t).credit[i] == t.flows[i].deficit && BoardOf(s).credit[i] == s.flows[i].deficit;
    }
  }

  lemma StepKeepsFit(s: Sched, e: Step, t: Sched, gap: Clock, maxpacket: nat)
    requires Fit(s, maxpacket) && Steps(s, e, t, gap) && (e.Arrival? ==> e.pkt.len <= maxpacket)
    ensures Fit(t, maxpacket)
  {
    match e
    case Arrival(classid, pkt, bypass) => ArrivalKeepsFit(s, classid, pkt, bypass, t, gap, maxpacket);
    case Turn(sent) => TurnKeepsFit(s, sent, t, gap, maxpacket);
  }

  lemma TurnScore(s: Sched, sent: Option<Packet>, t: Sched, x: nat, gap: Clock, maxpacket: nat)
    requires Fit(s, maxpacket) && Steps(s, Turn(sent), t, gap) && Fit(t, maxpacket) && Listed(s, x) && Untouched(s, t, x)
    ensures Fine(BoardOf(s)) && Fine(BoardOf(t))
    ensures Score(BoardOf(t), x, maxpacket) + SpentIn(Turn(sent)) <= Score(BoardOf(s), x, maxpacket)
  {
    FitIsFine(s, maxpacket);
    FitIsFine(t, maxpacket);
    PassOnBoard(s, t, sent, gap);
    NotItsTurn(s, sent, t, x, gap);
    match sent
    case None => MovedFalls(BoardOf(s), BoardOf(t), x, maxpacket);
    case Some(pkt) =>
      TurnKeepsFit(s, sent, t, gap, maxpacket);
      SentFalls(BoardOf(s), BoardOf(t), x, pkt.len, maxpacket);
  }

  lemma ArrivalScore(s: Sched, e: Step, t: Sched, x: nat, gap: Clock, maxpacket: nat)
    requires e.Arrival? && Fit(s, maxpacket) && Steps(s, e, t, gap) && Listed(s, x)
    ensures Fine(BoardOf(s)) && Fine(BoardOf(t)) && Score(BoardOf(t), x, maxpacket) == Score(BoardOf(s), x, maxpacket)
  {
    FitIsFine(s, maxpacket);
    ArrivalOnBoard(s, t, e.classid, e.pkt, e.bypass, gap);
    CameSame(BoardOf(s), BoardOf(t), x, maxpacket);
  }

  ghost function ScoreOf(s: Sched, x: nat, maxpacket: nat): int {
    if Fine(BoardOf(s)) then Score(BoardOf(s), x, maxpacket) else 0
  }

  lemma StepSpends(s: Sched, e: Step, t: Sched, x: nat, gap: Clock, maxpacket: nat)
    requires Fit(s, maxpacket) && Steps(s, e, t, gap) && Untouched(s, t, x) && Listed(s, x)
    requires e.Arrival? ==> e.pkt.len <= maxpacket
    ensures Fit(t, maxpacket) && Listed(t, x) && ScoreOf(t, x, maxpacket) + SpentIn(e) <= ScoreOf(s, x, maxpacket)
  {
    StepKeepsFit(s, e, t, gap, maxpacket);
    match e
    case Arrival(_, _, _) => ArrivalScore(s, e, t, x, gap, maxpacket);
    case Turn(sent) => TurnScore(s, sent, t, x, gap, maxpacket);
  }

  lemma NextSpends(ss: seq<Sched>, steps: seq<Step>, x: nat, gap: Clock, maxpacket: nat, k: nat)
    requires Waits(ss, steps, x, gap) && SmallArrivals(steps, maxpacket) && k < |steps|
    requires Fit(ss[k], maxpacket) && Listed(ss[k], x)
    ensures Fit(ss[k + 1], maxpacket) && Listed(ss[k + 1], x)
    ensures ScoreOf(ss[k + 1], x, maxpacket) + SpentIn(steps[k]) <= ScoreOf(ss[k], x, maxpacket)
  {
    assert PassesBy(ss, steps, k, x, gap);
    StepSpends(ss[k], steps[k], ss[k + 1], x, gap, maxpacket);
  }

  lemma {:induction false} StaysFit(ss: seq<Sched>, steps: seq<Step>, x: nat, gap: Clock, maxpacket: nat, n: nat)
    requires Waits(ss, steps, x, gap) && Fit(ss[0], maxpacket) && SmallArrivals(steps, maxpacket) && n <= |steps|
    ensures Fit(ss[n], maxpacket) && Listed(ss[n], x)
  {
    if n > 0 {
      StaysFit(ss, steps, x, gap, maxpacket, n - 1);
      NextSpends(ss, steps, x, gap, maxpacket, n - 1);
    }
  }

  lemma {:induction false} SpendingAddsUp(score: seq<int>, steps: seq<Step>, n: nat)
    requires |score| == |steps| + 1 && n <= |steps|
    requires forall k :: 0 <= k < |steps| ==> score[k + 1] + SpentIn(steps[k]) <= score[k]
    ensures score[n] + Spent(steps, n) <= score[0]
  {
    if n > 0 {
      SpendingAddsUp(score, steps, n - 1);
      assert score[n - 1 + 1] + SpentIn(steps[n - 1]) <= score[n - 1];
    }
  }

  ghost function Scores(ss: seq<Sched>, x: nat, maxpacket: nat): (l: seq<int>)
    ensures |l| == |ss| && forall k :: 0 <= k < |ss| ==> l[k] == ScoreOf(ss[k], x, maxpacket)
  {
    seq(|ss|, k requires 0 <= k < |ss| => ScoreOf(ss[k], x, maxpacket))
  }

  lemma ScoreStep(ss: seq<Sched>, steps: seq<Step>, x: nat, gap: Clock, maxpacket: nat, k: nat)
    requires Waits(ss, steps, x, gap) && Fit(ss[0], maxpacket) && SmallArrivals(steps, maxpacket) && k < |steps|
    ensures Scores(ss, x, maxpacket)[k + 1] + SpentIn(steps[k]) <= Scores(ss, x, maxpacket)[k]
  {
    StaysFit(ss, steps, x, gap, maxpacket, k);
    NextSpends(ss, steps, x, gap, maxpacket, k);
  }

  lemma WaitingSpends(ss: seq<Sched>, steps: seq<Step>, x: nat, gap: Clock, maxpacket: nat)
    requires Waits(ss, steps, x, gap) && Fit(ss[0], maxpacket) && SmallArrivals(steps, maxpacket)
    ensures ScoreOf(ss[|steps|], x, maxpacket) + Spent(steps, |steps|) <= ScoreOf(ss[0], x, maxpacket)
  {
    var score := Scores(ss, x, maxpacket);
    forall k | 0 <= k < |steps| ensures score[k + 1] + SpentIn(steps[k]) <= score[k] {
      ScoreStep(ss, steps, x, gap, maxpacket, k);
    }
    SpendingAddsUp(score, steps, |steps|);
  }

  lemma {:induction false} PassesSpend(steps: seq<Step>, n: nat)
    requires n <= |steps|
    ensures Passes(steps, n) <= Spent(steps, n)
  {
    if n > 0 { PassesSpend(steps, n - 1); }
  }

  /** How many times other flows can be served before `x`: once each of the new flows before it, if it is new;
      otherwise twice each of the old ones before it, and once each flow that is not on the old list. */
  function Turns(s: Sched, x: nat): int {
    if x in s.newFlows then |Ahead(s.newFlows, x)| else 2 * |Ahead(s.oldFlows, x)| + |s.flows| - |s.oldFlows|
  }

  /** While flow `x` waits, the passes, and the bytes handed out, stay within what the flows ahead of it can take. */
  ghost predicate ServedInTime(s: Sched, steps: seq<Step>, x: nat, maxpacket: nat) {
    Passes(steps, |steps|) <= Spent(steps, |steps|) <= Turns(s, x) * (s.quantum + maxpacket)
  }

  lemma ScoreAtMost(s: Sched, x: nat, maxpacket: nat)
    requires Fit(s, maxpacket)
    ensures ScoreOf(s, x, maxpacket) <= Turns(s, x) * (s.quantum + maxpacket)
  {
    FitIsFine(s, maxpacket);
    ScoreBound(BoardOf(s), x, maxpacket);
    assert Servings(BoardOf(s), x) == Turns(s, x);
  }

  lemma ScoreAtLeast(s: Sched, x: nat, maxpacket: nat)
    ensures ScoreOf(s, x, maxpacket) >= 0
  {
    if Fine(BoardOf(s)) { ScoreNonNegative(BoardOf(s), x, maxpacket); }
  }

  /** No listed flow starves, however packets arrive. */
  lemma TurnComes(ss: seq<Sched>, steps: seq<Step>, x: nat, gap: Clock, maxpacket: nat)
    requires Waits(ss, steps, x, gap) && Fit(ss[0], maxpacket) && SmallArrivals(steps, maxpacket)
    ensures ServedInTime(ss[0], steps, x, maxpacket)
  {
    WaitingSpends(ss, steps, x, gap, maxpacket);
    ScoreAtLeast(ss[|steps|], x, maxpacket);
    ScoreAtMost(ss[0], x, maxpacket);
    PassesSpend(steps, |steps|);
  }

  lemma GoodIsFit(w: World, maxpacket: nat)
    requires Good(w) && Fairness.CreditOk(w.s, maxpacket)
    ensures Fit(w.s, maxpacket)
  {
    assert Inv(w.s, w.stray, w.owed);
  }

  lemma TurnComesAfterRun(w: World, ops: seq<Op>, ss: seq<Sched>, steps: seq<Step>, x: nat, gap: Clock, maxpacket: nat)
    requires Good(w) && AllLegal(w, ops) && Fairness.CreditOk(w.s, maxpacket)
    requires forall k :: 0 <= k < |ops| ==> Fairness.SameTerms(ops[k], maxpacket)
    requires Waits(ss, steps, x, gap) && SmallArrivals(steps, maxpacket) && ss[0] == Run(w, ops, gap).s
    ensures ss[0].quantum == w.s.quantum && ServedInTime(ss[0], steps, x, maxpacket)
  {
    Fairness.RunKeepsCredit(w, ops, gap, maxpacket);
    GoodIsFit(Run(w, ops, gap), maxpacket);
    TurnComes(ss, steps, x, gap, maxpacket);
  }

  /** So from every state the discipline can reach under one quantum. */
  lemma NoFlowStarves(flows: nat, limit: nat, quantum: u32, params: Params, ops: seq<Op>,
                      ss: seq<Sched>, steps: seq<Step>, x: nat, gap: Clock, maxpacket: nat)
    requires 0 < flows && 0 < quantum < HALF && 0 < maxpacket
    requires AllLegal(World(Initial(flows, limit, quantum, params), 0, 0), ops)
    requires forall k :: 0 <= k < |ops| ==> Fairness.SameTerms(ops[k], maxpacket)
    requires Waits(ss, steps, x, gap) && SmallArrivals(steps, maxpacket)
    ensures Good(World(Initial(flows, limit, quantum, params), 0, 0))
    ensures ss[0] == Run(World(Initial(flows, limit, quantum, params), 0, 0), ops, gap).s ==>
              ss[0].quantum == quantum && ServedInTime(ss[0], steps, x, maxpacket)
  {
    InitialIsGood(flows, limit, quantum, params);
    Fairness.InitialCredit(flows, limit, quantum, params, maxpacket);
    var w := World(Initial(flows, limit, quantum, params), 0, 0);
    if ss[0] == Run(w, ops, gap).s { TurnComesAfterRun(w, ops, ss, steps, x, gap, maxpacket); }
  }

  // ---------- overtaking ----------

  /** Bytes flow `y` has handed out in the first `n` steps while it stood on the new list. */
  ghost function NewBytes(ss: seq<Sched>, steps: seq<Step>, y: nat, n: nat): int
    requires n <= |steps| && |ss| == |steps| + 1
  {
    if n == 0 then 0 else
      NewBytes(ss, steps, y, n - 1) + NewBytesIn(ss[n - 1], steps[n - 1], ss[n], y)
  }

  /** A packet handed out is the flow's if it costs the flow credit. */
  function NewBytesIn(s: Sched, e: Step, t: Sched, y: nat): int {
    if e.Turn? && e.sent.Some? && y in s.newFlows && y < |s.flows| && y < |t.flows| && t.flows[y].deficit < s.flows[y].deficit
    then e.sent.value.len else 0
  }

  /** How often flow `y` has left the new list in the first `n` steps. */
  ghost function NewStays(ss: seq<Sched>, y: nat, n: nat): nat
    requires n < |ss|
  {
    if n == 0 then 0 else
      NewStays(ss, y, n - 1) + if y in ss[n - 1].newFlows && y !in ss[n].newFlows then 1 else 0
  }

  /** Flow `y` has passed to the old list behind `x`. */
  ghost predicate Behind(b: Board, x: nat, y: nat) {
    y !in b.news && y in b.olds && y !in Ahead(b.olds, x)
  }

  /** What flow `y` can still hand out as a new flow before the turn of `x`. */
  ghost function Yet(b: Board, x: nat, y: nat, maxpacket: nat): int
    requires y < |b.credit|
  {
    if y in b.news then Cost(b.credit[y], maxpacket) - 1
    else if Behind(b, x, y) then 0 else b.quantum + maxpacket - 1
  }

  lemma {:induction false} AheadOrLater(l: seq<nat>, x: nat, y: nat)
    requires l != [] && x in l && l[0] != x && y != l[0]
    ensures y in Ahead(l, x) <==> y in Ahead(l[1..], x)
  {
    var a := Ahead(l[1..], x);
    assert Ahead(l, x) == [l[0]] + a;
    assert ([l[0]] + a)[1..] == a;
  }

  lemma SentYet(b: Board, c: Board, x: nat, y: nat, len: nat, maxpacket: nat)
    requires Fine(b) && HeadSent(b, c, len) && 0 < len <= maxpacket && y < |b.credit|
    ensures Yet(c, x, y, maxpacket) + (if y in b.news && c.credit[y] < b.credit[y] then len else 0) <= Yet(b, x, y, maxpacket)
  {
  }

  lemma NewMovedBehind(b: Board, c: Board, x: nat, y: nat)
    requires Fine(b) && HeadMoved(b, c) && b.news != [] && x in b.olds && x != y
    requires forall k :: 0 <= k < |b.news[1..]| ==> b.news[1..][k] != Head(b)
    requires forall k :: 0 <= k < |b.olds| ==> b.olds[k] != Head(b)
    ensures Behind(b, x, y) ==> Behind(c, x, y)
    ensures y in b.news && y !in c.news ==> Behind(c, x, y)
    ensures y !in b.news ==> y !in c.news
  {
    AheadLonger(b.olds, Head(b), x);
    assert c.olds[|b.olds|] == Head(b);
    forall k | 0 <= k < |b.olds| ensures b.olds[k] in c.olds { assert c.olds[k] == b.olds[k]; }
    forall k | 0 <= k < |c.news| ensures c.news[k] in b.news { assert b.news[k + 1] == c.news[k]; }
    forall k | 0 <= k < |b.news| ensures b.news[k] == Head(b) || b.news[k] in c.news {
      if k > 0 { assert c.news[k - 1] == b.news[k]; }
    }
  }

  lemma OldMovedBehind(b: Board, c: Board, x: nat, y: nat)
    requires Fine(b) && HeadMoved(b, c) && Head(b) != x && x in b.olds && b.news == [] && x != y
    requires forall k :: 0 <= k < |b.olds[1..]| ==> b.olds[1..][k] != Head(b)
    ensures Behind(b, x, y) ==> Behind(c, x, y)
  {
    if Behind(b, x, y) {
      assert Ahead(b.olds, x)[0] == Head(b);
      AheadOrLater(b.olds, x, y);
      var k :| 0 <= k < |b.olds| && b.olds[k] == y;
      assert b.olds[1..][k - 1] == y;
      AheadLonger(b.olds[1..], Head(b), x);
      assert (b.olds[1..] + [Head(b)])[k - 1] == y;
    }
  }

  /** When the first flow moves, a flow that leaves the new list comes to stand behind `x`, and what stands there
      stays. */
  lemma MovedBehind(b: Board, c: Board, x: nat, y: nat)
    requires Fine(b) && HeadMoved(b, c) && Head(b) != x && x in b.olds && x != y
    ensures Behind(b, x, y) ==> Behind(c, x, y)
    ensures y in b.news && y !in c.news ==> Behind(c, x, y)
    ensures y !in b.news ==> y !in c.news
  {
    HeadApart(b);
    if b.news != [] { NewMovedBehind(b, c, x, y); } else { OldMovedBehind(b, c, x, y); }
  }

  lemma MovedYet(b: Board, c: Board, x: nat, y: nat, maxpacket: nat)
    requires Fine(b) && HeadMoved(b, c) && Head(b) != x && x in b.olds && x != y && y < |b.credit|
    ensures Yet(c, x, y, maxpacket) <= Yet(b, x, y, maxpacket)
  {
    MovedBehind(b, c, x, y);
    HeadApart(b);
    if y in b.news && y in c.news {
      var k :| 0 <= k < |c.news| && c.news[k] == y;
      assert b.news[1..][k] == y;
    }
  }

  lemma CameYet(b: Board, c: Board, x: nat, y: nat, maxpacket: nat)
    requires Fine(b) && Came(b, c) && x in b.olds && y < |b.credit|
    ensures Behind(b, x, y) ==> Behind(c, x, y)
    ensures y in b.news ==> y in c.news
    ensures Yet(c, x, y, maxpacket) <= Yet(b, x, y, maxpacket)
  {
    if c != b {
      var i :| CameIn(b, c, i);
      assert c.news[|b.news|] == i;
      forall k | 0 <= k < |b.news| ensures b.news[k] in c.news { assert c.news[k] == b.news[k]; }
    }
  }

  /** One step for flow `y` while the old flow `x` waits: as a new flow it hands out what it may, and once it has left
      the new list it is behind `x` for good. */
  ghost predicate Overtakes(s: Sched, e: Step, t: Sched, x: nat, y: nat, maxpacket: nat) {
    && |t.flows| == |s.flows| && y < |s.flows|
    && Yet(BoardOf(t), x, y, maxpacket) + NewBytesIn(s, e, t, y) <= Yet(BoardOf(s), x, y, maxpacket)
    && (Behind(BoardOf(s), x, y) ==> Behind(BoardOf(t), x, y))
    && (y in s.newFlows && y !in t.newFlows ==> Behind(BoardOf(t), x, y))
  }

  lemma ArrivalOvertakes(s: Sched, e: Step, t: Sched, x: nat, y: nat, gap: Clock, maxpacket: nat)
    requires e.Arrival? && Fit(s, maxpacket) && Steps(s, e, t, gap) && x in s.oldFlows && y < |s.flows|
    ensures Overtakes(s, e, t, x, y, maxpacket)
  {
    FitIsFine(s, maxpacket);
    ArrivalOnBoard(s, t, e.classid, e.pkt, e.bypass, gap);
    CameYet(BoardOf(s), BoardOf(t), x, y, maxpacket);
  }

  lemma TurnOvertakes(s: Sched, sent: Option<Packet>, t: Sched, x: nat, y: nat, gap: Clock, maxpacket: nat)
    requires Fit(s, maxpacket) && Steps(s, Turn(sent), t, gap) && Untouched(s, t, x)
    requires x in s.oldFlows && y < |s.flows| && x != y
    ensures Overtakes(s, Turn(sent), t, x, y, maxpacket)
  {
    FitIsFine(s, maxpacket);
    PassOnBoard(s, t, sent, gap);
    NotItsTurn(s, sent, t, x, gap);
    var b, c := BoardOf(s), BoardOf(t);
    match sent
    case None =>
      MovedBehind(b, c, x, y);
      MovedYet(b, c, x, y, maxpacket);
    case Some(pkt) =>
      TurnKeepsFit(s, sent, t, gap, maxpacket);
      SentYet(b, c, x, y, pkt.len, maxpacket);
  }

  lemma NextOvertakes(ss: seq<Sched>, steps: seq<Step>, x: nat, y: nat, gap: Clock, maxpacket: nat, k: nat)
    requires Waits(ss, steps, x, gap) && Fit(ss[0], maxpacket) && SmallArrivals(steps, maxpacket) && k < |steps|
    requires x in ss[k].oldFlows && y < |ss[k].flows| && x != y
    ensures x in ss[k + 1].oldFlows && Overtakes(ss[k], steps[k], ss[k + 1], x, y, maxpacket)
  {
    StaysFit(ss, steps, x, gap, maxpacket, k);
    assert PassesBy(ss, steps, k, x, gap);
    match steps[k]
    case Arrival(_, _, _) => ArrivalOvertakes(ss[k], steps[k], ss[k + 1], x, y, gap, maxpacket);
    case Turn(sent) => TurnOvertakes(ss[k], sent, ss[k + 1], x, y, gap, maxpacket);
  }

  /** So far flow `y` has handed out `bytes` as a new flow and left the new list `stays` times. */
  ghost predicate Overtaken(s: Sched, t: Sched, x: nat, y: nat, bytes: int, stays: nat, maxpacket: nat) {
    && y < |s.flows| == |t.flows| && x in t.oldFlows
    && Yet(BoardOf(t), x, y, maxpacket) + bytes <= Yet(BoardOf(s), x, y, maxpacket)
    && stays <= 1 && (stays == 1 ==> Behind(BoardOf(t), x, y))
  }

  lemma OvertakenOn(s: Sched, t: Sched, e: Step, u: Sched, x: nat, y: nat, bytes: int, stays: nat, maxpacket: nat)
    requires Overtaken(s, t, x, y, bytes, stays, maxpacket) && Overtakes(t, e, u, x, y, maxpacket) && x in u.oldFlows
    ensures Overtaken(s, u, x, y, bytes + NewBytesIn(t, e, u, y),
                      stays + (if y in t.newFlows && y !in u.newFlows then 1 else 0), maxpacket)
  {
  }

  lemma {:induction false} OvertakenAlong(ss: seq<Sched>, steps: seq<Step>, x: nat, y: nat, gap: Clock, maxpacket: nat, n: nat)
    requires Waits(ss, steps, x, gap) && Fit(ss[0], maxpacket) && SmallArrivals(steps, maxpacket) && n <= |steps|
    requires x in ss[0].oldFlows && y < |ss[0].flows| && x != y
    ensures Overtaken(ss[0], ss[n], x, y, NewBytes(ss, steps, y, n), NewStays(ss, y, n), maxpacket)
  {
    if n > 0 {
      OvertakenAlong(ss, steps, x, y, gap, maxpacket, n - 1);
      NextOvertakes(ss, steps, x, y, gap, maxpacket, n - 1);
      OvertakenOn(ss[0], ss[n - 1], steps[n - 1], ss[n], x, y,
                  NewBytes(ss, steps, y, n - 1), NewStays(ss, y, n - 1), maxpacket);
    }
  }

  lemma YetBounds(b: Board, x: nat, y: nat, maxpacket: nat)
    requires Fine(b) && y < |b.credit|
    ensures 0 <= Yet(b, x, y, maxpacket) < b.quantum + maxpacket
  {
  }

  lemma CostsNothingNew(s: Sched, t: Sched, x: nat, y: nat, bytes: int, stays: nat, maxpacket: nat)
    requires Fit(s, maxpacket) && Fit(t, maxpacket) && Overtaken(s, t, x, y, bytes, stays, maxpacket)
    ensures stays <= 1 && bytes < s.quantum + maxpacket
  {
    FitIsFine(s, maxpacket);
    FitIsFine(t, maxpacket);
    YetBounds(BoardOf(s), x, y, maxpacket);
    YetBounds(BoardOf(t), x, y, maxpacket);
  }

  /** While a flow waits on the old list, another overtakes it through the new list at most once, by less than a
      quantum and a packet, however its packets arrive. */
  lemma OvertakesOnce(ss: seq<Sched>, steps: seq<Step>, x: nat, y: nat, gap: Clock, maxpacket: nat)
    requires Waits(ss, steps, x, gap) && Fit(ss[0], maxpacket) && SmallArrivals(steps, maxpacket)
    requires x in ss[0].oldFlows && y < |ss[0].flows| && x != y
    ensures NewStays(ss, y, |steps|) <= 1
    ensures NewBytes(ss, steps, y, |steps|) < ss[0].quantum + maxpacket
  {
    OvertakenAlong(ss, steps, x, y, gap, maxpacket, |steps|);
    StaysFit(ss, steps, x, gap, maxpacket, |steps|);
    CostsNothingNew(ss[0], ss[|steps|], x, y, NewBytes(ss, steps, y, |steps|), NewStays(ss, y, |steps|), maxpacket);
  }
}
