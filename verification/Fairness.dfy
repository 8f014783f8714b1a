/** Round-robin fairness between two flows that both stay on the list of old flows. */
module Fairness {
  import opened SerialTime
  import opened Codel
  import opened CodelLemmas
  import opened FqCodel
  import opened FqCodelInv
  import opened FqCodelRun
  import opened FqCodelTheorems

  /** One move of a run: a pass of the dequeue block, or anything else (an enqueue, a change of
      parameters) that leaves the two flows' places and credit alone. */
  datatype Move = Pass | Other

  ghost predicate Undisturbed(s: Sched, t: Sched, a: nat, b: nat) {
    && t.oldFlows == s.oldFlows && t.quantum == s.quantum && |t.flows| == |s.flows|
    && (a < |s.flows| ==> t.flows[a].deficit == s.flows[a].deficit)
    && (b < |s.flows| ==> t.flows[b].deficit == s.flows[b].deficit)
  }

  ghost predicate Moves(s: Sched, m: Move, t: Sched, a: nat, b: nat, gap: Clock)
    requires Shape(s)
  {
    match m
    case Other => Undisturbed(s, t, a, b)
    case Pass =>
      match Begin(s, gap)
      case Idle => false
      case Again(u) => t == u
      case Got(u, _) => t == u
  }

  ghost predicate Standing(s: Sched, a: nat, b: nat) {
    Shape(s) && a in s.oldFlows && b in s.oldFlows
  }

  /** A run in which both flows stand on the old list at every moment. */
  ghost predicate Turns(ss: seq<Sched>, moves: seq<Move>, a: nat, b: nat, gap: Clock) {
    && |ss| == |moves| + 1
    && (forall k :: 0 <= k < |ss| ==> Standing(ss[k], a, b))
    && forall k :: 0 <= k < |moves| ==> Moves(ss[k], moves[k], ss[k + 1], a, b, gap)
  }

  /** The move gives flow `x` a quantum. */
  ghost predicate Grants(s: Sched, m: Move, x: nat)
    requires Shape(s)
  {
    m.Pass? && (s.newFlows != [] || s.oldFlows != []) && First(s) == x && s.flows[x].deficit <= 0
  }

  /** Bytes the move returns from flow `x`. */
  ghost function Sends(s: Sched, m: Move, x: nat, gap: Clock): nat
    requires Shape(s)
  {
    if m.Pass? && Begin(s, gap).Got? && First(s) == x then Begin(s, gap).pkt.len else 0
  }

  /** Sum of the first `n` entries. */
  function SumTo(l: seq<int>, n: nat): int
    requires n <= |l|
  {
    if n == 0 then 0 else SumTo(l, n - 1) + l[n - 1]
  }

  /** Quanta granted to flow `x`, move by move. */
  ghost function GrantsOf(ss: seq<Sched>, moves: seq<Move>, x: nat): (l: seq<int>)
    requires |ss| == |moves| + 1 && forall k :: 0 <= k < |ss| ==> Shape(ss[k])
    ensures |l| == |moves|
  {
    seq(|moves|, k requires 0 <= k < |moves| => if Grants(ss[k], moves[k], x) then 1 else 0)
  }

  /** Bytes returned from flow `x`, move by move. */
  ghost function BytesOf(ss: seq<Sched>, moves: seq<Move>, x: nat, gap: Clock): (l: seq<int>)
    requires |ss| == |moves| + 1 && forall k :: 0 <= k < |ss| ==> Shape(ss[k])
    ensures |l| == |moves|
  {
    seq(|moves|, k requires 0 <= k < |moves| => Sends(ss[k], moves[k], x, gap))
  }

  ghost function GrantsTo(ss: seq<Sched>, moves: seq<Move>, x: nat): int
    requires |ss| == |moves| + 1 && forall k :: 0 <= k < |ss| ==> Shape(ss[k])
  {
    SumTo(GrantsOf(ss, moves, x), |moves|)
  }

  ghost function BytesFrom(ss: seq<Sched>, moves: seq<Move>, x: nat, gap: Clock): int
    requires |ss| == |moves| + 1 && forall k :: 0 <= k < |ss| ==> Shape(ss[k])
  {
    SumTo(BytesOf(ss, moves, x, gap), |moves|)
  }

  /** `a` stands before `b`. */
  ghost predicate Before(l: seq<nat>, a: nat, b: nat) {
    exists i, j :: 0 <= i < j < |l| && l[i] == a && l[j] == b
  }

  lemma BeforeIsTotal(l: seq<nat>, a: nat, b: nat)
    requires Distinct(l) && a in l && b in l && a != b
    ensures Before(l, a, b) <==> !Before(l, b, a)
  {
    var i :| 0 <= i < |l| && l[i] == a;
    var j :| 0 <= j < |l| && l[j] == b;
  }

  lemma BeforeRest(l: seq<nat>, x: nat, a: nat, b: nat)
    requires l != [] && Distinct(l) && l[0] != a && l[0] != b && a != b && Before(l, a, b)
    ensures Before(l[1..], a, b) && Before(l[1..] + [x], a, b)
  {
    var i, j :| 0 <= i < j < |l| && l[i] == a && l[j] == b;
    assert l[1..][i - 1] == a && l[1..][j - 1] == b;
    assert (l[1..] + [x])[i - 1] == a && (l[1..] + [x])[j - 1] == b;
  }

  lemma BeforeLonger(l: seq<nat>, x: nat, a: nat, b: nat)
    requires Before(l, a, b)
    ensures Before(l + [x], a, b)
  {
    var i, j :| 0 <= i < j < |l| && l[i] == a && l[j] == b;
    assert (l + [x])[i] == a && (l + [x])[j] == b;
  }

  lemma HeadGoesLast(l: seq<nat>, a: nat, b: nat)
    requires l != [] && Distinct(l) && l[0] == a && b in l && a != b
    ensures Before(l, a, b) && Before(l[1..] + [a], b, a)
  {
    var j :| 0 <= j < |l| && l[j] == b;
    var m := l[1..] + [a];
    assert m[j - 1] == b && m[|l| - 1] == a;
  }

  lemma OldListDistinct(s: Sched)
    requires Shape(s)
    ensures Distinct(s.oldFlows)
    ensures forall x :: x in s.oldFlows ==> x !in s.newFlows
    ensures forall x :: x in s.oldFlows ==> x < |s.flows|
  {
    var l := s.newFlows + s.oldFlows;
    forall i, j | 0 <= i < j < |s.oldFlows| ensures s.oldFlows[i] != s.oldFlows[j] {
      assert l[|s.newFlows| + i] != l[|s.newFlows| + j];
    }
    forall x | x in s.oldFlows ensures x !in s.newFlows {
      var j :| 0 <= j < |s.oldFlows| && s.oldFlows[j] == x;
      forall i | 0 <= i < |s.newFlows| ensures s.newFlows[i] != x {
        assert l[i] != l[|s.newFlows| + j];
      }
    }
  }

  /** A pass either sends its flow to the end of the old list, or leaves that list alone, or takes its flow off. */
  lemma PassMovesLists(s: Sched, t: Sched, a: nat, b: nat, gap: Clock)
    requires Shape(s) && Moves(s, Pass, t, a, b, gap)
    ensures s.newFlows != [] || s.oldFlows != []
    ensures var i, l := First(s), if s.newFlows != [] then s.oldFlows else s.oldFlows[1..];
            if s.flows[i].deficit <= 0 then t.oldFlows == l + [i]
            else t.oldFlows == s.oldFlows || (s.newFlows != [] && t.oldFlows == l + [i]) || (s.newFlows == [] && t.oldFlows == l)
  {
    var i := First(s);
    if s.flows[i].deficit <= 0 {
      BeginRefills(s, gap);
    } else {
      var (s1, out) := Poll(s, i, gap);
      PollFrame(s, i, gap);
      BeginPolls(s, gap, i, s1, out);
    }
  }

  /** One move either leaves the order of the two flows and grants neither, or grants the one
      in front and puts it behind. */
  lemma MoveOrder(s: Sched, m: Move, t: Sched, a: nat, b: nat, gap: Clock)
    requires a != b && Standing(s, a, b) && Standing(t, a, b) && Moves(s, m, t, a, b, gap)
    requires Before(s.oldFlows, a, b)
    ensures !Grants(s, m, b)
    ensures Grants(s, m, a) ==> Before(t.oldFlows, b, a)
    ensures !Grants(s, m, a) ==> Before(t.oldFlows, a, b)
  {
    OldListDistinct(s);
    OldListDistinct(t);
    if m.Pass? {
      var i := First(s);
      PassMovesLists(s, t, a, b, gap);
      BeforeIsTotal(s.oldFlows, a, b);
      if s.newFlows != [] {
        assert i in s.newFlows;
        BeforeLonger(s.oldFlows, i, a, b);
      } else if i == a {
        HeadGoesLast(s.oldFlows, a, b);
        assert a !in s.oldFlows[1..];
      } else {
        if i == b { HeadGoesLast(s.oldFlows, b, a); }
        BeforeRest(s.oldFlows, i, a, b);
      }
    }
  }

  /** Credit is conserved: what a flow has is what it had plus its quanta minus its bytes. */
  lemma MoveCredit(s: Sched, m: Move, t: Sched, a: nat, b: nat, x: nat, gap: Clock)
    requires s.quantum < HALF && Standing(s, a, b) && Standing(t, a, b) && Moves(s, m, t, a, b, gap) && (x == a || x == b)
    ensures x < |s.flows| == |t.flows| && t.quantum == s.quantum
    ensures t.flows[x].deficit == s.flows[x].deficit + (if Grants(s, m, x) then s.quantum else 0) - Sends(s, m, x, gap)
    ensures Grants(s, m, x) ==> s.flows[x].deficit <= 0
    ensures Sends(s, m, x, gap) > 0 ==> s.flows[x].deficit > 0
  {
    if m.Pass? {
      var i := First(s);
      if s.flows[i].deficit > 0 {
        PollFrame(s, i, gap);
        var (s1, out) := Poll(s, i, gap);
        BeginPolls(s, gap, i, s1, out);
        if out.None? { RetireCredit(s1, x); } else { DeliverCredit(s1, i, out.value, x); }
      } else {
        BeginRefills(s, gap);
        ToppedIsSum(s.flows[i].deficit, s.quantum);
      }
    }
  }

  lemma ToppedIsSum(deficit: int, quantum: u32)
    requires -HALF <= deficit <= 0 && quantum < HALF
    ensures Topped(deficit, quantum) == deficit + quantum
  {
    var d := deficit + quantum;
    if d >= 0 { WrapUnique(d, 0, d); } else { WrapUnique(d, -1, d + WRAP); }
  }

  lemma MoveKeepsQuantum(s: Sched, m: Move, t: Sched, a: nat, b: nat, gap: Clock)
    requires Shape(s) && Moves(s, m, t, a, b, gap)
    ensures t.quantum == s.quantum
  {
    if m.Pass? { PollFrame(s, First(s), gap); }
  }

  lemma RetireCredit(s: Sched, x: nat)
    requires s.newFlows != [] || s.oldFlows != []
    requires x < |s.flows|
    ensures |Retire(s).flows| == |s.flows| && Retire(s).quantum == s.quantum
    ensures Retire(s).flows[x].deficit == s.flows[x].deficit
  {
  }

  lemma DeliverCredit(s: Sched, i: nat, pkt: Packet, x: nat)
    requires x < |s.flows| && i < |s.flows| == |s.hist|
    ensures var t := Report(Charge(s, i, pkt));
            && |t.flows| == |s.flows| && t.quantum == s.quantum
            && t.flows[x].deficit == s.flows[x].deficit - (if x == i then pkt.len else 0)
  {
  }

  ghost predicate Bounded(s: Sched, x: nat, maxpacket: nat) {
    x < |s.flows| && 0 - maxpacket < s.flows[x].deficit <= s.quantum
  }

  ghost predicate SmallPacket(s: Sched, m: Move, gap: Clock, maxpacket: nat)
    requires Shape(s)
  {
    m.Pass? && Begin(s, gap).Got? ==> Begin(s, gap).pkt.len <= maxpacket
  }

  ghost predicate SmallPackets(ss: seq<Sched>, moves: seq<Move>, gap: Clock, maxpacket: nat)
    requires |ss| == |moves| + 1 && forall k :: 0 <= k < |ss| ==> Shape(ss[k])
  {
    forall k :: 0 <= k < |moves| ==> SmallPacket(ss[k], moves[k], gap, maxpacket)
  }

  /** Credit along a run, in numbers: `d` the deficits, `g` the grants, `r` the bytes sent. */
  lemma {:induction false} CreditOverRun(d: seq<int>, g: seq<int>, r: seq<int>, q: nat, maxpacket: nat, n: nat)
    requires |d| == |g| + 1 == |r| + 1 && n <= |g|
    requires 0 - maxpacket < d[0] <= q
    requires forall k :: 0 <= k < |g| ==> CreditMove(d[k], g[k], r[k], d[k + 1], q, maxpacket)
    ensures 0 - maxpacket < d[n] <= q
    ensures d[n] == d[0] + q * SumTo(g, n) - SumTo(r, n)
  {
    if n > 0 {
      CreditOverRun(d, g, r, q, maxpacket, n - 1);
      assert CreditMove(d[n - 1], g[n - 1], r[n - 1], d[n], q, maxpacket);
      assert q * (SumTo(g, n - 1) + 1) == q * SumTo(g, n - 1) + q;
    }
  }

  predicate CreditMove(d: int, grant: int, sent: int, d': int, q: nat, maxpacket: nat) {
    && d' == d + (if grant == 1 then q else 0) - sent
    && (grant == 0 || (grant == 1 && d <= 0 && sent == 0))
    && (sent == 0 || (0 < sent <= maxpacket && d > 0))
  }

  ghost function Deficits(ss: seq<Sched>, x: nat): (l: seq<int>)
    requires forall k :: 0 <= k < |ss| ==> x < |ss[k].flows|
    ensures |l| == |ss|
  {
    seq(|ss|, k requires 0 <= k < |ss| => ss[k].flows[x].deficit)
  }

  lemma CreditOfFlow(ss: seq<Sched>, moves: seq<Move>, a: nat, b: nat, x: nat, gap: Clock, maxpacket: nat)
    requires Turns(ss, moves, a, b, gap) && (x == a || x == b) && SmallPackets(ss, moves, gap, maxpacket)
    requires ss[0].quantum < HALF && Bounded(ss[0], x, maxpacket)
    ensures var t := ss[|moves|];
            && Bounded(t, x, maxpacket) && t.quantum == ss[0].quantum
            && t.flows[x].deficit
               == ss[0].flows[x].deficit + ss[0].quantum * GrantsTo(ss, moves, x) - BytesFrom(ss, moves, x, gap)
  {
    forall k | 0 <= k < |ss| ensures x < |ss[k].flows| { OldListDistinct(ss[k]); }
    QuantumStays(ss, moves, a, b, gap, |moves|);
    var d, g, r := Deficits(ss, x), GrantsOf(ss, moves, x), BytesOf(ss, moves, x, gap);
    var q := ss[0].quantum;
    forall k | 0 <= k < |g| ensures CreditMove(d[k], g[k], r[k], d[k + 1], q, maxpacket) {
      QuantumStays(ss, moves, a, b, gap, k);
      MoveCredit(ss[k], moves[k], ss[k + 1], a, b, x, gap);
      SendsSmall(ss, moves, k, gap, maxpacket, x);
    }
    CreditOverRun(d, g, r, q, maxpacket, |moves|);
  }

  lemma SendsSmall(ss: seq<Sched>, moves: seq<Move>, k: nat, gap: Clock, maxpacket: nat, x: nat)
    requires |ss| == |moves| + 1 && k < |moves| && forall k :: 0 <= k < |ss| ==> Shape(ss[k])
    requires SmallPackets(ss, moves, gap, maxpacket)
    ensures Sends(ss[k], moves[k], x, gap) <= maxpacket
  {
    assert SmallPacket(ss[k], moves[k], gap, maxpacket);
  }

  lemma {:induction false} QuantumStays(ss: seq<Sched>, moves: seq<Move>, a: nat, b: nat, gap: Clock, n: nat)
    requires Turns(ss, moves, a, b, gap) && n <= |moves|
    ensures ss[n].quantum == ss[0].quantum
  {
    if n > 0 {
      QuantumStays(ss, moves, a, b, gap, n - 1);
      MoveKeepsQuantum(ss[n - 1], moves[n - 1], ss[n], a, b, gap);
    }
  }

  lemma {:induction false} GrantsAlternate(ss: seq<Sched>, moves: seq<Move>, a: nat, b: nat, gap: Clock, n: nat)
    requires a != b && Turns(ss, moves, a, b, gap) && Before(ss[0].oldFlows, a, b) && n <= |moves|
    ensures SumTo(GrantsOf(ss, moves, a), n) - SumTo(GrantsOf(ss, moves, b), n)
         == if Before(ss[n].oldFlows, a, b) then 0 else 1
  {
    if n > 0 {
      GrantsAlternate(ss, moves, a, b, gap, n - 1);
      var s, t := ss[n - 1], ss[n];
      assert Moves(s, moves[n - 1], t, a, b, gap);
      UndisturbedBothWays(s, moves[n - 1], t, a, b, gap);
      OldListDistinct(s);
      OldListDistinct(t);
      BeforeIsTotal(s.oldFlows, a, b);
      BeforeIsTotal(t.oldFlows, a, b);
      if Before(s.oldFlows, a, b) { MoveOrder(s, moves[n - 1], t, a, b, gap); }
      else { MoveOrder(s, moves[n - 1], t, b, a, gap); }
    }
  }

  lemma UndisturbedBothWays(s: Sched, m: Move, t: Sched, a: nat, b: nat, gap: Clock)
    requires Shape(s) && Moves(s, m, t, a, b, gap)
    ensures Moves(s, m, t, b, a, gap)
  {
  }

  /** Over any run in which two flows stay on the old list, their quanta differ by at most one and the
      bytes returned from them by less than three quanta and two packets. */
  lemma FairWhileStanding(ss: seq<Sched>, moves: seq<Move>, a: nat, b: nat, gap: Clock, maxpacket: nat)
    requires a != b && Turns(ss, moves, a, b, gap) && SmallPackets(ss, moves, gap, maxpacket)
    requires ss[0].quantum < HALF && Bounded(ss[0], a, maxpacket) && Bounded(ss[0], b, maxpacket)
    ensures -1 <= GrantsTo(ss, moves, a) - GrantsTo(ss, moves, b) <= 1
    ensures -(3 * ss[0].quantum + 2 * maxpacket)
            < BytesFrom(ss, moves, a, gap) - BytesFrom(ss, moves, b, gap)
            < 3 * ss[0].quantum + 2 * maxpacket
  {
    OldListDistinct(ss[0]);
    BeforeIsTotal(ss[0].oldFlows, a, b);
    if Before(ss[0].oldFlows, a, b) {
      GrantsAlternate(ss, moves, a, b, gap, |moves|);
    } else {
      forall k | 0 <= k < |moves| ensures Moves(ss[k], moves[k], ss[k + 1], b, a, gap) {
        UndisturbedBothWays(ss[k], moves[k], ss[k + 1], a, b, gap);
      }
      GrantsAlternate(ss, moves, b, a, gap, |moves|);
    }
    var n := |moves|;
    CreditOfFlow(ss, moves, a, b, a, gap, maxpacket);
    CreditOfFlow(ss, moves, a, b, b, gap, maxpacket);
    SpreadOfBytes(ss[0].quantum, maxpacket, GrantsTo(ss, moves, a), GrantsTo(ss, moves, b),
                  BytesFrom(ss, moves, a, gap), BytesFrom(ss, moves, b, gap),
                  ss[0].flows[a].deficit, ss[n].flows[a].deficit, ss[0].flows[b].deficit, ss[n].flows[b].deficit);
  }

  lemma SpreadOfBytes(q: int, l: int, g: int, h: int, r: int, t: int, a0: int, a1: int, b0: int, b1: int)
    requires -1 <= g - h <= 1 && 0 <= q
    requires -l < a0 <= q && -l < a1 <= q && -l < b0 <= q && -l < b1 <= q
    requires a1 == a0 + q * g - r && b1 == b0 + q * h - t
    ensures -(3 * q + 2 * l) < r - t < 3 * q + 2 * l
  {
    assert q * g - q * h == q * (g - h);
    assert -q <= q * (g - h) <= q;
  }

  /** An enqueue never disturbs two flows standing on the old list. */
  lemma EnqueueIsUndisturbed(s: Sched, classid: nat, pkt: Incoming, bypass: bool, a: nat, b: nat, gap: Clock)
    requires Standing(s, a, b) && Enqueueable(s, classid, pkt, gap)
    ensures Undisturbed(s, Enqueue(s, classid, pkt, bypass, gap).0, a, b)
  {
    if classid != 0 {
      var s1 := ReadClock(s, gap);
      AdmitIsUndisturbed(Append(s1, classid - 1, Stamped(pkt, s1.time)), classid, a, b);
    }
  }

  lemma AdmitIsUndisturbed(s: Sched, classid: nat, a: nat, b: nat)
    requires |s.flows| == |s.backlogs| == |s.hist| > 0
    requires s.flows[FatFlow(s.backlogs, |s.backlogs|)].queue != []
    ensures Undisturbed(s, Admit(s, classid).0, a, b)
  {
  }

  // ---------- the deficits of reachable states ----------

  /** No deficit exceeds the quantum or falls short by a packet, and no queued packet is longer than `maxpacket`. */
  ghost predicate CreditOk(s: Sched, maxpacket: nat) {
    && s.quantum < HALF
    && (forall i :: 0 <= i < |s.flows| ==> 0 - maxpacket < s.flows[i].deficit <= s.quantum)
    && (forall i :: 0 <= i < |s.flows| ==> AllSmall(s.flows[i].queue, maxpacket))
  }

  predicate AllSmall(q: seq<Packet>, maxpacket: nat) {
    forall k :: 0 <= k < |q| ==> q[k].len <= maxpacket
  }

  /** What a poll leaves queued, and what it takes, was queued before. */
  lemma PollTakes(s: Sched, i: nat, gap: Clock, stray: int, owed: int, maxpacket: nat)
    requires Inv(s, stray, owed) && i < |s.flows| && AllSmall(s.flows[i].queue, maxpacket)
    ensures var (t, out) := Poll(s, i, gap);
            i < |t.flows| && AllSmall(t.flows[i].queue, maxpacket) && (out.Some? ==> out.value.len <= maxpacket)
  {
    TickKeepsInv(s, gap, stray, owed);
    PollAtTakes(if s.flows[i].queue == [] then s else ReadClock(s, gap), i, stray, owed, maxpacket);
  }

  lemma PollAtTakes(s: Sched, i: nat, stray: int, owed: int, maxpacket: nat)
    requires Inv(s, stray, owed) && i < |s.flows| && AllSmall(s.flows[i].queue, maxpacket)
    ensures var (t, out) := PollAt(s, i);
            i < |t.flows| && AllSmall(t.flows[i].queue, maxpacket) && (out.Some? ==> out.value.len <= maxpacket)
  {
    DequeuedCell(s, i, stray, owed);
    var c := CellOf(s, i);
    var (c', out) := Dequeue(c, s.params, s.time);
    DequeueKeepsPast(c, s.params, s.time);
    assert FlowBooks(s, i);
    StillSmall(Packets(c.departed), c.queue, Packets(c'.departed), Opt(out), c'.queue, maxpacket);
    if out.Some? { assert Opt(out)[0] == out.value; }
  }

  lemma StillSmall(a: seq<Packet>, q: seq<Packet>, b: seq<Packet>, out: seq<Packet>, r: seq<Packet>, maxpacket: nat)
    requires a + q == b + out + r && |a| <= |b| && AllSmall(q, maxpacket)
    ensures AllSmall(out, maxpacket) && AllSmall(r, maxpacket)
  {
    assert b + out + r == b + (out + r);
    SuffixOf(a, q, b, out + r);
    forall k | 0 <= k < |out| ensures out[k].len <= maxpacket { assert (out + r)[k] == out[k] && out[k] in q; }
    forall k | 0 <= k < |r| ensures r[k].len <= maxpacket { assert (out + r)[|out| + k] == r[k] && r[k] in q; }
  }

  lemma RefillKeepsCredit(s: Sched, maxpacket: nat)
    requires Shape(s) && CreditOk(s, maxpacket) && (s.newFlows != [] || s.oldFlows != []) && s.flows[First(s)].deficit <= 0
    ensures CreditOk(Refill(s), maxpacket)
  {
    ToppedIsSum(s.flows[First(s)].deficit, s.quantum);
  }

  lemma PassKeepsCredit(s: Sched, i: nat, gap: Clock, stray: int, owed: int, maxpacket: nat, s1: Sched, out: Option<Packet>)
    requires Inv(s, stray, owed) && CreditOk(s, maxpacket) && i < |s.flows| && s.flows[i].deficit > 0
    requires Poll(s, i, gap) == (s1, out) && (s1.newFlows != [] || s1.oldFlows != []) && i < |s1.flows| == |s1.hist|
    ensures out.None? ==> CreditOk(Retire(s1), maxpacket)
    ensures out.Some? ==> CreditOk(Report(Charge(s1, i, out.value)), maxpacket)
  {
    PollKeepsCredit(s, i, gap, stray, owed, maxpacket);
    if out.Some? { ChargeKeepsCredit(s1, i, out.value, maxpacket); }
  }

  /** A pass through the block at `begin` keeps the credit in bounds. */
  lemma BeginKeepsCredit(s: Sched, gap: Clock, stray: int, owed: int, maxpacket: nat)
    requires Inv(s, stray, owed) && CreditOk(s, maxpacket)
    ensures match Begin(s, gap)
            case Idle => true
            case Again(t) => CreditOk(t, maxpacket)
            case Got(t, _) => CreditOk(t, maxpacket)
  {
    if s.newFlows != [] || s.oldFlows != [] {
      var i := First(s);
      if s.flows[i].deficit <= 0 {
        RefillKeepsCredit(s, maxpacket);
        BeginRefills(s, gap);
      } else {
        var (s1, out) := Poll(s, i, gap);
        PollFrame(s, i, gap);
        PassKeepsCredit(s, i, gap, stray, owed, maxpacket, s1, out);
        BeginPolls(s, gap, i, s1, out);
      }
    }
  }

  lemma PollKeepsCredit(s: Sched, i: nat, gap: Clock, stray: int, owed: int, maxpacket: nat)
    requires Inv(s, stray, owed) && i < |s.flows| && CreditOk(s, maxpacket)
    ensures var (t, out) := Poll(s, i, gap);
            && CreditOk(t, maxpacket) && i < |t.flows| == |t.hist| && t.flows[i].deficit == s.flows[i].deficit
            && (out.Some? ==> out.value.len <= maxpacket)
  {
    PollFrame(s, i, gap);
    PollTakes(s, i, gap, stray, owed, maxpacket);
  }

  lemma ChargeKeepsCredit(s: Sched, i: nat, pkt: Packet, maxpacket: nat)
    requires i < |s.flows| == |s.hist| && CreditOk(s, maxpacket) && s.flows[i].deficit > 0 && pkt.len <= maxpacket
    ensures CreditOk(Report(Charge(s, i, pkt)), maxpacket)
  {
  }

  lemma {:induction false} DequeueKeepsCredit(s: Sched, gap: Clock, stray: int, owed: int, maxpacket: nat)
    requires Inv(s, stray, owed) && CreditOk(s, maxpacket)
    ensures CreditOk(FqDequeue(s, gap).0, maxpacket)
    decreases Measure(s)
  {
    BeginKeepsCredit(s, gap, stray, owed, maxpacket);
    BeginKeepsInv(s, gap, stray, owed);
    match Begin(s, gap)
    case Idle =>
    case Got(_, _) =>
    case Again(t) =>
      BeginProgresses(s, gap);
      DequeueKeepsCredit(t, gap, stray, owed, maxpacket);
  }

  lemma {:induction false} TrimKeepsCredit(s: Sched, gap: Clock, stray: int, owed: int, maxpacket: nat)
    requires Inv(s, stray, owed) && CreditOk(s, maxpacket)
    ensures CreditOk(Trim(s, gap, stray, owed), maxpacket)
    decreases s.qlen
  {
    if s.qlen > s.limit {
      TrimStep(s, gap, stray, owed);
      DequeueKeepsCredit(s, gap, stray, owed, maxpacket);
      var (t, out) := FqDequeue(s, gap);
      TrimKeepsCredit(CountTrimmed(t, out.value), gap, stray, owed, maxpacket);
    }
  }

  lemma AppendKeepsCredit(s: Sched, i: nat, pkt: Packet, maxpacket: nat)
    requires CreditOk(s, maxpacket) && i < |s.flows| == |s.backlogs| == |s.hist| && pkt.len <= maxpacket
    ensures CreditOk(Append(s, i, pkt), maxpacket)
  {
  }

  lemma EnqueueKeepsCredit(s: Sched, classid: nat, pkt: Incoming, bypass: bool, gap: Clock, maxpacket: nat)
    requires CreditOk(s, maxpacket) && Enqueueable(s, classid, pkt, gap) && pkt.len <= maxpacket
    ensures CreditOk(Enqueue(s, classid, pkt, bypass, gap).0, maxpacket)
  {
    if classid != 0 {
      var s1 := ReadClock(s, gap);
      AppendKeepsCredit(s1, classid - 1, Stamped(pkt, s1.time), maxpacket);
      AdmitKeepsCredit(Append(s1, classid - 1, Stamped(pkt, s1.time)), classid, maxpacket);
    }
  }

  lemma AdmitKeepsCredit(s: Sched, classid: nat, maxpacket: nat)
    requires CreditOk(s, maxpacket) && |s.flows| == |s.backlogs| == |s.hist| > 0
    requires s.flows[FatFlow(s.backlogs, |s.backlogs|)].queue != []
    ensures CreditOk(Admit(s, classid).0, maxpacket)
  {
  }

  /** No packet is longer than `maxpacket`, and the quantum is not changed. */
  predicate SameTerms(op: Op, maxpacket: nat) {
    match op
    case OpEnqueue(_, pkt, _) => pkt.len <= maxpacket
    case OpChange(cfg) => cfg.quantum.None?
    case _ => true
  }

  lemma ApplyKeepsCredit(w: World, op: Op, gap: Clock, maxpacket: nat)
    requires Good(w) && Legal(w, op) && SameTerms(op, maxpacket) && CreditOk(w.s, maxpacket)
    ensures CreditOk(Apply(w, op, gap).s, maxpacket) && Apply(w, op, gap).s.quantum == w.s.quantum
  {
    match op {
      case OpEnqueue(classid, pkt, bypass) =>
        AlwaysEnqueueable(w.s, classid, pkt, gap, w.stray, w.owed);
        EnqueueKeepsCredit(w.s, classid, pkt, bypass, gap, maxpacket);
      case OpDequeue =>
        DequeueKeepsCredit(w.s, gap, w.stray, w.owed, maxpacket);
        DequeueKeepsSettings(w.s, gap);
      case OpChange(cfg) =>
        var c := Configure(w.s, cfg);
        ConfigureKeepsInv(w.s, cfg, w.stray, w.owed);
        TrimKeepsCredit(c, gap, w.stray, w.owed, maxpacket);
        TrimKeepsSettings(c, gap, w.stray, w.owed);
      case OpReset => ResetFlows(w.s);
    }
  }

  lemma {:induction false} RunKeepsCredit(w: World, ops: seq<Op>, gap: Clock, maxpacket: nat)
    requires Good(w) && AllLegal(w, ops) && CreditOk(w.s, maxpacket)
    requires forall k :: 0 <= k < |ops| ==> SameTerms(ops[k], maxpacket)
    ensures CreditOk(Run(w, ops, gap).s, maxpacket) && Run(w, ops, gap).s.quantum == w.s.quantum
    decreases |ops|
  {
    if ops != [] {
      assert Legal(w, ops[0]) && SameTerms(ops[0], maxpacket);
      ApplyKeepsCredit(w, ops[0], gap, maxpacket);
      LegalRest(w, Apply(w, ops[0], gap), ops);
      RunKeepsCredit(Apply(w, ops[0], gap), ops[1..], gap, maxpacket);
    }
  }

  /** The quanta of the two flows differ by at most one, and the bytes returned from them by less than three quanta
      and two packets. */
  ghost predicate FairShares(ss: seq<Sched>, moves: seq<Move>, a: nat, b: nat, gap: Clock, quantum: u32, maxpacket: nat)
    requires |ss| == |moves| + 1 && forall k :: 0 <= k < |ss| ==> Shape(ss[k])
  {
    && -1 <= GrantsTo(ss, moves, a) - GrantsTo(ss, moves, b) <= 1
    && -(3 * quantum + 2 * maxpacket)
       < BytesFrom(ss, moves, a, gap) - BytesFrom(ss, moves, b, gap)
       < 3 * quantum + 2 * maxpacket
  }

  lemma FairFromCredit(ss: seq<Sched>, moves: seq<Move>, a: nat, b: nat, gap: Clock, quantum: u32, maxpacket: nat)
    requires a != b && Turns(ss, moves, a, b, gap) && SmallPackets(ss, moves, gap, maxpacket)
    requires CreditOk(ss[0], maxpacket) && ss[0].quantum == quantum
    ensures FairShares(ss, moves, a, b, gap, quantum, maxpacket)
  {
    OldListDistinct(ss[0]);
    FairWhileStanding(ss, moves, a, b, gap, maxpacket);
  }

  lemma InitialCredit(flows: nat, limit: nat, quantum: u32, params: Params, maxpacket: nat)
    requires 0 < quantum < HALF && 0 < maxpacket
    ensures CreditOk(Initial(flows, limit, quantum, params), maxpacket)
  {
  }

  lemma FairAfterRun(w: World, ops: seq<Op>, ss: seq<Sched>, moves: seq<Move>, a: nat, b: nat, gap: Clock, maxpacket: nat)
    requires Good(w) && AllLegal(w, ops) && CreditOk(w.s, maxpacket)
    requires forall k :: 0 <= k < |ops| ==> SameTerms(ops[k], maxpacket)
    requires a != b && Turns(ss, moves, a, b, gap) && SmallPackets(ss, moves, gap, maxpacket) && ss[0] == Run(w, ops, gap).s
    ensures FairShares(ss, moves, a, b, gap, w.s.quantum, maxpacket)
  {
    RunKeepsCredit(w, ops, gap, maxpacket);
    FairFromCredit(ss, moves, a, b, gap, w.s.quantum, maxpacket);
  }

  /** Round robin from any state that the discipline reaches from its start under one quantum, while two flows stay on
      the old list. */
  lemma RoundRobinFairness(flows: nat, limit: nat, quantum: u32, params: Params, ops: seq<Op>,
                           ss: seq<Sched>, moves: seq<Move>, a: nat, b: nat, gap: Clock, maxpacket: nat)
    requires 0 < flows && 0 < quantum < HALF && 0 < maxpacket
    requires AllLegal(World(Initial(flows, limit, quantum, params), 0, 0), ops)
    requires forall k :: 0 <= k < |ops| ==> SameTerms(ops[k], maxpacket)
    requires a != b && Turns(ss, moves, a, b, gap) && SmallPackets(ss, moves, gap, maxpacket)
    ensures Good(World(Initial(flows, limit, quantum, params), 0, 0))
    ensures ss[0] == Run(World(Initial(flows, limit, quantum, params), 0, 0), ops, gap).s ==>
              FairShares(ss, moves, a, b, gap, quantum, maxpacket)
  {
    InitialIsGood(flows, limit, quantum, params);
    InitialCredit(flows, limit, quantum, params, maxpacket);
    var w := World(Initial(flows, limit, quantum, params), 0, 0);
    if ss[0] == Run(w, ops, gap).s { FairAfterRun(w, ops, ss, moves, a, b, gap, maxpacket); }
  }

  // ---------- what the quantum must be ----------

  lemma RefillKeepsForm(s: Sched)
    requires WellFormed(s) && (s.newFlows != [] || s.oldFlows != [])
    ensures WellFormed(Refill(s))
  {
    MoveKeepsLists(s.(flows := Refill(s).flows));
  }

  lemma RetireKeepsForm(s: Sched)
    requires WellFormed(s) && (s.newFlows != [] || s.oldFlows != [])
    ensures WellFormed(Retire(s))
  {
    MoveKeepsLists(s);
  }

  lemma PollKeepsForm(s: Sched, gap: Clock, i: nat)
    requires WellFormed(s) && i < |s.flows|
    ensures var t := Poll(s, i, gap).0;
            WellFormed(t) && t.newFlows == s.newFlows && t.oldFlows == s.oldFlows && |t.flows| == |s.flows|
  {
    PollFrame(s, i, gap);
  }

  lemma BeginKeepsForm(s: Sched, gap: Clock)
    requires WellFormed(s) && Begin(s, gap).Again?
    ensures WellFormed(Begin(s, gap).s)
  {
    var i := First(s);
    if s.flows[i].deficit <= 0 {
      RefillKeepsForm(s);
      BeginRefills(s, gap);
    } else {
      var (s1, out) := Poll(s, i, gap);
      PollKeepsForm(s, gap, i);
      RetireKeepsForm(s1);
      BeginPolls(s, gap, i, s1, out);
    }
  }

  /** What `k` passes of the loop at `begin` come to. */
  ghost function Passes(s: Sched, gap: Clock, k: nat): (r: Pass)
    requires WellFormed(s)
    ensures r.Again? ==> WellFormed(r.s)
    decreases k
  {
    if k == 0 then Again(s)
    else if Begin(s, gap).Again? then BeginKeepsForm(s, gap); Passes(Begin(s, gap).s, gap, k - 1)
    else Begin(s, gap)
  }

  ghost predicate Ends(s: Sched, gap: Clock)
    requires WellFormed(s)
  {
    exists k: nat :: !Passes(s, gap, k).Again?
  }

  lemma {:induction false} EndsUnlessHalf(s: Sched, gap: Clock)
    requires Shape(s)
    ensures Ends(s, gap)
    decreases Measure(s)
  {
    if Begin(s, gap).Again? {
      BeginProgresses(s, gap);
      EndsUnlessHalf(Begin(s, gap).s, gap);
      var k: nat :| !Passes(Begin(s, gap).s, gap, k).Again?;
      assert !Passes(s, gap, k + 1).Again?;
    } else {
      assert !Passes(s, gap, 1).Again?;
    }
  }

  /** Some flow is listed, and the deficit of each is 0 or the least `int`. */
  ghost predicate Stuck(s: Sched) {
    && WellFormed(s) && s.quantum == HALF && (s.newFlows != [] || s.oldFlows != [])
    && forall i :: i in s.newFlows || i in s.oldFlows ==> s.flows[i].deficit in {0, -HALF}
  }

  lemma StuckStays(s: Sched, gap: Clock)
    requires Stuck(s)
    ensures Begin(s, gap).Again? && Stuck(Begin(s, gap).s)
  {
    var i := First(s);
    assert i in s.newFlows || i in s.oldFlows;
    BeginKeepsForm(s, gap);
    WrapUnique(0, 0, 0);
    WrapUnique(HALF, 0, HALF);
    var t := Begin(s, gap).s;
    forall j | j in t.newFlows || j in t.oldFlows ensures j in s.newFlows || j in s.oldFlows {}
  }

  lemma {:induction false} StuckForEver(s: Sched, gap: Clock, k: nat)
    requires Stuck(s)
    ensures Passes(s, gap, k).Again?
    decreases k
  {
    if k > 0 {
      StuckStays(s, gap);
      StuckForEver(Begin(s, gap).s, gap, k - 1);
    }
  }

  /** The first packet to arrive, under a quantum of half the range of the word. */
  lemma FirstPacketSticks(pkt: Packet) returns (s: Sched)
    ensures Stuck(s)
    ensures s == Append(Initial(1, 10240, HALF, Params(4882, 0x7FFF_FFFF, 97656, 1500, true)), 0, pkt)
  {
    s := Append(Initial(1, 10240, HALF, Params(4882, 0x7FFF_FFFF, 97656, 1500, true)), 0, pkt);
  }

  /** The dequeue ends from every state exactly if the quantum is not half the range of the word: with that one, the first
      packet to arrive makes the loop circle for ever. */
  lemma QuantumMustNotBeHalf(quantum: u32, gap: Clock)
    requires quantum > 0
    ensures (forall s: Sched :: WellFormed(s) && s.quantum == quantum ==> Ends(s, gap)) <==> quantum != HALF
  {
    if quantum != HALF {
      forall s: Sched | WellFormed(s) && s.quantum == quantum ensures Ends(s, gap) { EndsUnlessHalf(s, gap); }
    } else {
      var s := FirstPacketSticks(Packet(0, 1, 0, false));
      forall k: nat ensures Passes(s, gap, k).Again? { StuckForEver(s, gap, k); }
      assert !Ends(s, gap);
    }
  }
}
