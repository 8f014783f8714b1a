/** What every operation of the discipline keeps, and what follows: nothing is lost, nothing
    overtakes within a flow, and a non-empty discipline always delivers. */
module FqCodelInv {
  import opened SerialTime
  import opened Codel
  import opened CodelLemmas
  import opened CodelSchedule
  import opened FqCodel

  function Lengths(flows: seq<Flow>): (l: seq<int>)
    ensures |l| == |flows|
  {
    seq(|flows|, i requires 0 <= i < |flows| => |flows[i].queue|)
  }

  function DropCounts(hist: seq<History>): (l: seq<int>)
    ensures |l| == |hist|
  {
    seq(|hist|, i requires 0 <= i < |hist| => Dropped(hist[i].departed))
  }

  // ---------- the invariant ----------

  /** A flow that holds packets is on one of the lists (and, the lists being duplicate-free
      together, on exactly one). */
  ghost predicate Listed(s: Sched) {
    forall i :: 0 <= i < |s.flows| && s.flows[i].queue != [] ==> i in s.newFlows || i in s.oldFlows
  }

  /** The books of flow `i`: its byte count, and every packet that ever arrived is, in order of
      arrival, either gone with a recorded fate or still queued. */
  ghost predicate FlowBooks(s: Sched, i: nat)
    requires i < |s.flows| == |s.backlogs| == |s.hist|
  {
    && s.backlogs[i] == Bytes(s.flows[i].queue)
    && s.hist[i].arrived == Packets(s.hist[i].departed) + s.flows[i].queue
  }

  /** The history of flow `i`: rate, grounds and times of every drop, stamps not in the future. */
  ghost predicate FlowHistory(s: Sched, i: nat)
    requires i < |s.flows| == |s.backlogs| == |s.hist|
  {
    && RateOk(s.flows[i].vars)
    && HistoryOk(CellOf(s, i), s.time)
    && OnSchedule(s.hist[i].log, s.flows[i].vars, s.time)
    && StampsOk(s.flows[i].queue, s.time)
  }

  /** The totals. `stray` counts drops of unclassified packets, and `owed` packets already
      delivered of which the parent has not yet heard. */
  ghost predicate Totals(s: Sched, stray: int, owed: int)
    requires |s.flows| == |s.backlogs| == |s.hist|
  {
    && s.qlen == Sum(Lengths(s.flows))
    && s.total == Sum(s.backlogs)
    && s.drops == Sum(DropCounts(s.hist)) + stray
    && s.parent == s.qlen + s.stats.dropCount + owed
  }

  ghost predicate Inv(s: Sched, stray: int, owed: int) {
    && Shape(s)
    && Listed(s)
    && (forall i :: 0 <= i < |s.flows| ==> FlowBooks(s, i) && FlowHistory(s, i))
    && Totals(s, stray, owed)
  }

  // ---------- sums ----------

  lemma LengthsUpdate(flows: seq<Flow>, i: nat, f: Flow)
    requires i < |flows|
    ensures Lengths(flows[i := f]) == Lengths(flows)[i := |f.queue|]
    ensures Sum(Lengths(flows[i := f])) == Sum(Lengths(flows)) - |flows[i].queue| + |f.queue|
  {
    SumUpdate(Lengths(flows), i, |f.queue|);
  }

  lemma DropCountsUpdate(hist: seq<History>, i: nat, h: History)
    requires i < |hist|
    ensures Sum(DropCounts(hist[i := h])) == Sum(DropCounts(hist)) - Dropped(hist[i].departed) + Dropped(h.departed)
  {
    assert DropCounts(hist[i := h]) == DropCounts(hist)[i := Dropped(h.departed)];
    SumUpdate(DropCounts(hist), i, Dropped(h.departed));
  }

  lemma BacklogsNonNegative(s: Sched, stray: int, owed: int)
    requires Inv(s, stray, owed)
    ensures forall i :: 0 <= i < |s.backlogs| ==> s.backlogs[i] >= 0
  {
    forall i | 0 <= i < |s.backlogs| ensures s.backlogs[i] >= 0 {
      assert FlowBooks(s, i);
    }
  }

  /** There are packets exactly when there are bytes. */
  lemma PacketsIffBytes(s: Sched, stray: int, owed: int)
    requires Inv(s, stray, owed)
    ensures 0 <= s.qlen && 0 <= s.total
    ensures s.qlen > 0 <==> s.total > 0
    ensures s.qlen > 0 <==> exists i :: 0 <= i < |s.flows| && s.flows[i].queue != []
    ensures s.qlen > 0 ==> s.newFlows != [] || s.oldFlows != []
  {
    SumNonNegative(Lengths(s.flows));
    BacklogsNonNegative(s, stray, owed);
    SumNonNegative(s.backlogs);
    if s.qlen > 0 {
      SumPositive(Lengths(s.flows));
      var i :| 0 <= i < |s.flows| && Lengths(s.flows)[i] > 0;
      assert s.flows[i].queue != [] && FlowBooks(s, i);
      SumAtLeast(s.backlogs, i);
    }
    if s.total > 0 {
      SumPositive(s.backlogs);
      var i :| 0 <= i < |s.backlogs| && s.backlogs[i] > 0;
      assert FlowBooks(s, i) && s.flows[i].queue != [];
      SumAtLeast(Lengths(s.flows), i);
    }
    if i :| 0 <= i < |s.flows| && s.flows[i].queue != [] {
      SumAtLeast(Lengths(s.flows), i);
    }
  }

  // ---------- polling one flow ----------

  /** The constants of flow `i`'s books. */
  function LedgerOf(s: Sched, i: nat): Ledger
    requires i < |s.flows| == |s.backlogs| == |s.hist| && s.total >= s.backlogs[i]
  {
    Ledger(s.qlen - |s.flows[i].queue|, s.total - s.backlogs[i],
           s.drops - Dropped(s.hist[i].departed), s.drops - s.stats.dropCount,
           |s.hist[i].departed| - Dropped(s.hist[i].departed), s.hist[i].arrived)
  }

  lemma CellIsBalanced(s: Sched, i: nat, stray: int, owed: int)
    requires Inv(s, stray, owed) && i < |s.flows|
    ensures s.total >= s.backlogs[i]
    ensures Balanced(CellOf(s, i), [], LedgerOf(s, i))
  {
    BacklogsNonNegative(s, stray, owed);
    SumAtLeast(s.backlogs, i);
    assert FlowBooks(s, i);
    assert Packets(s.hist[i].departed) + [] + s.flows[i].queue == s.hist[i].arrived;
  }

  lemma TickKeepsInv(s: Sched, gap: Clock, stray: int, owed: int)
    requires Inv(s, stray, owed)
    ensures Inv(ReadClock(s, gap), stray, owed)
  {
    var t := ReadClock(s, gap);
    forall i | 0 <= i < |s.flows| ensures FlowBooks(t, i) && FlowHistory(t, i) {
      assert FlowBooks(s, i) && FlowHistory(s, i);
      LaterIsFine(s.hist[i].log, s.flows[i].vars, s.time, t.time);
    }
  }

  /** The state between CoDel's answer and its consequences: everything is in order except
      that the packet handed out is neither queued nor recorded as gone. */
  ghost predicate InvHolding(s: Sched, i: nat, held: Option<Packet>, stray: int, owed: int) {
    && Shape(s) && i < |s.flows|
    && Listed(s)
    && (forall j :: 0 <= j < |s.flows| && j != i ==> FlowBooks(s, j))
    && (forall j :: 0 <= j < |s.flows| ==> FlowHistory(s, j))
    && s.backlogs[i] == Bytes(s.flows[i].queue)
    && s.hist[i].arrived == Packets(s.hist[i].departed) + Opt(held) + s.flows[i].queue
    && Totals(s, stray, owed)
  }

  lemma PollKeepsInv(s: Sched, i: nat, gap: Clock, stray: int, owed: int)
    requires Inv(s, stray, owed) && i < |s.flows|
    ensures var (t, out) := Poll(s, i, gap);
            && InvHolding(t, i, out, stray, owed + |Opt(out)|)
            && (out.None? ==> t.flows[i].queue == [])
            && (out.None? && s.qlen > 0 ==> t.total > 0)
            && t.qlen + |Opt(out)| <= s.qlen
            && t.stats.dropCount >= s.stats.dropCount
  {
    TickKeepsInv(s, gap, stray, owed);
    PollAtKeepsInv(if s.flows[i].queue == [] then s else ReadClock(s, gap), i, stray, owed);
  }

  lemma PollAtKeepsInv(s: Sched, i: nat, stray: int, owed: int)
    requires Inv(s, stray, owed) && i < |s.flows|
    ensures var (t, out) := PollAt(s, i);
            && InvHolding(t, i, out, stray, owed + |Opt(out)|)
            && (out.None? ==> t.flows[i].queue == [])
            && (out.None? && s.qlen > 0 ==> t.total > 0)
            && t.qlen + |Opt(out)| <= s.qlen
            && t.stats.dropCount >= s.stats.dropCount
  {
    DequeuedCell(s, i, stray, owed);
    var (c', out) := Dequeue(CellOf(s, i), s.params, s.time);
    var t := PollAt(s, i).0;
    PollTotals(s, i, c', out, t, stray, owed);
    PolledFlows(s, t, i, c');
    PolledListed(s, i);
    PolledHolding(s, t, i, c', out, stray, owed + |Opt(out)|);
    if out.None? && s.qlen > 0 { PacketsIffBytes(s, stray, owed); }
  }

  lemma PolledListed(s: Sched, i: nat)
    requires i < |s.flows| == |s.backlogs| == |s.hist| && Shape(s) && Listed(s)
    requires |PollAt(s, i).0.flows[i].queue| <= |s.flows[i].queue|
    ensures Shape(PollAt(s, i).0) && Listed(PollAt(s, i).0)
  {
  }

  lemma PolledHolding(s: Sched, t: Sched, i: nat, c: Cell, out: Option<Packet>, stray: int, owed: int)
    requires i < |s.flows| == |s.backlogs| == |s.hist| && |t.flows| == |t.backlogs| == |t.hist| == |s.flows|
    requires s.total >= s.backlogs[i] && Shape(t) && Listed(t) && Totals(t, stray, owed) && Balanced(c, Opt(out), LedgerOf(s, i))
    requires forall j :: 0 <= j < |t.flows| ==> FlowHistory(t, j) && (j != i ==> FlowBooks(t, j))
    requires t.flows[i].queue == c.queue && t.backlogs[i] == c.backlog && t.hist[i].departed == c.departed
    requires t.hist[i].arrived == s.hist[i].arrived
    ensures InvHolding(t, i, out, stray, owed)
  {
  }

  /** What holds of one flow's part after CoDel has run on it. */
  lemma DequeuedCell(s: Sched, i: nat, stray: int, owed: int)
    requires Inv(s, stray, owed) && i < |s.flows|
    ensures s.total >= s.backlogs[i]
    ensures var (c, out) := Dequeue(CellOf(s, i), s.params, s.time);
            && Balanced(c, Opt(out), LedgerOf(s, i)) && HistoryOk(c, s.time) && RateOk(c.vars) && StampsOk(c.queue, s.time)
            && OnSchedule(c.log, c.vars, s.time)
            && c.stats.dropCount >= s.stats.dropCount
            && |c.queue| + |Opt(out)| <= |s.flows[i].queue|
            && (out.None? ==> c.queue == [])
            && (out.None? && s.flows[i].queue != [] ==> c.total > s.params.mtu)
            && (s.flows[i].queue == [] ==> c.total == s.total)
  {
    CellIsBalanced(s, i, stray, owed);
    var c, l := CellOf(s, i), LedgerOf(s, i);
    DequeueBalances(c, s.params, s.time, l);
    assert FlowHistory(s, i);
    DequeueKeepsHistory(c, s.params, s.time);
    DequeueKeepsRate(c, s.params, s.time);
    DequeueKeepsSchedule(c, s.params, s.time);
    DequeueStamps(c, s.params, s.time, l);
    DequeueKeepsPast(c, s.params, s.time);
  }

  lemma PolledFlows(s: Sched, t: Sched, i: nat, c: Cell)
    requires i < |s.flows| == |s.backlogs| == |s.hist| == |t.flows| == |t.backlogs| == |t.hist| && t.time == s.time
    requires forall j :: 0 <= j < |s.flows| ==> FlowBooks(s, j) && FlowHistory(s, j)
    requires forall j :: 0 <= j < |s.flows| && j != i ==>
               t.flows[j] == s.flows[j] && t.backlogs[j] == s.backlogs[j] && t.hist[j] == s.hist[j]
    requires CellOf(t, i).log == c.log && CellOf(t, i).vars == c.vars && HistoryOk(c, t.time)
    requires RateOk(t.flows[i].vars) && StampsOk(t.flows[i].queue, t.time) && OnSchedule(c.log, c.vars, t.time)
    ensures forall j :: 0 <= j < |t.flows| ==> FlowHistory(t, j) && (j != i ==> FlowBooks(t, j))
  {
    forall j | 0 <= j < |t.flows| ensures FlowHistory(t, j) && (j != i ==> FlowBooks(t, j)) {
      assert FlowBooks(s, j) && FlowHistory(s, j);
      if j == i { SameHistory(c, CellOf(t, i), t.time); } else { SameHistory(CellOf(s, j), CellOf(t, j), t.time); }
    }
  }

  lemma SameHistory(c: Cell, d: Cell, now: nat)
    requires HistoryOk(c, now) && c.log == d.log && c.vars.firstAbove == d.vars.firstAbove
    ensures HistoryOk(d, now)
  {
  }

  lemma DequeueStamps(c: Cell, p: Params, now: nat, l: Ledger)
    requires Balanced(c, [], l) && StampsOk(c.queue, now)
    ensures StampsOk(Dequeue(c, p, now).0.queue, now)
  {
    DequeueBalances(c, p, now, l);
    var (c', out) := Dequeue(c, p, now);
    DequeueKeepsPast(c, p, now);
    SuffixOf(Packets(c.departed), c.queue, Packets(c'.departed) + Opt(out), c'.queue);
  }

  lemma SuffixOf(a: seq<Packet>, q: seq<Packet>, b: seq<Packet>, r: seq<Packet>)
    requires a + q == b + r && |a| <= |b|
    ensures forall pkt :: pkt in r ==> pkt in q
  {
    forall pkt | pkt in r ensures pkt in q {
      var k :| 0 <= k < |r| && r[k] == pkt;
      assert (b + r)[|b| + k] == pkt;
      assert (a + q)[|b| + k] == q[|b| + k - |a|];
    }
  }

  lemma {:induction false} DropLoopKeepsPast(c: Cell, pkt: Packet, p: Params, now: nat)
    ensures |c.departed| <= |DropLoop(c, pkt, p, now).0.departed|
    ensures c.stats.dropCount <= DropLoop(c, pkt, p, now).0.stats.dropCount
    decreases |c.queue|
  {
    if DueToDrop(c.vars, now) && !(p.ecn && pkt.ect) {
      var (c2, next, ok) := Fetch(DropPacket(c.(vars := Quicken(c.vars)), pkt, now), p, now);
      if ok { DropLoopKeepsPast(PlanNext(c2, p), next.value, p, now); }
    }
  }

  lemma DequeueKeepsPast(c: Cell, p: Params, now: nat)
    ensures |c.departed| <= |Dequeue(c, p, now).0.departed|
    ensures c.stats.dropCount <= Dequeue(c, p, now).0.stats.dropCount
  {
    if c.queue != [] {
      var (c1, skb, ok) := Fetch(c, p, now);
      if ok && c1.vars.dropping { DropLoopKeepsPast(c1, skb.value, p, now); }
    }
  }

  lemma PollTotals(s1: Sched, i: nat, c': Cell, out: Option<Packet>, t: Sched, stray: int, owed: int)
    requires Inv(s1, stray, owed) && i < |s1.flows| && s1.total >= s1.backlogs[i]
    requires Balanced(c', Opt(out), LedgerOf(s1, i))
    requires |t.flows| == |t.backlogs| == |t.hist|
    requires exists f: Flow :: f.queue == c'.queue && t.flows == s1.flows[i := f]
    requires t.backlogs == s1.backlogs[i := c'.backlog]
    requires exists h: History :: h.departed == c'.departed && t.hist == s1.hist[i := h]
    requires t.qlen == c'.qlen && t.total == c'.total && t.stats == c'.stats && t.drops == c'.drops
    requires t.parent == s1.parent
    ensures Totals(t, stray, owed + |Opt(out)|)
  {
    var f: Flow :| f.queue == c'.queue && t.flows == s1.flows[i := f];
    var h: History :| h.departed == c'.departed && t.hist == s1.hist[i := h];
    LengthsUpdate(s1.flows, i, f);
    SumUpdate(s1.backlogs, i, c'.backlog);
    DropCountsUpdate(s1.hist, i, h);
    assert FlowBooks(s1, i);
  }

  // ---------- one pass, one dequeue ----------

  /** A pass that only moves or refills flows keeps everything. */
  lemma ListChangeKeepsInv(s: Sched, t: Sched, stray: int, owed: int)
    requires Inv(s, stray, owed)
    requires Shape(t) && Listed(t)
    requires |t.flows| == |s.flows| && forall j :: 0 <= j < |s.flows| ==>
               t.flows[j].queue == s.flows[j].queue && t.flows[j].vars == s.flows[j].vars
    requires t == s.(flows := t.flows, newFlows := t.newFlows, oldFlows := t.oldFlows)
    ensures Inv(t, stray, owed)
  {
    assert Lengths(t.flows) == Lengths(s.flows);
    forall i | 0 <= i < |s.flows| ensures FlowBooks(t, i) && FlowHistory(t, i) {
      assert FlowBooks(s, i) && FlowHistory(s, i);
      assert CellOf(t, i) == CellOf(s, i);
    }
  }

  lemma RefillKeepsInv(s: Sched, stray: int, owed: int)
    requires Inv(s, stray, owed) && (s.newFlows != [] || s.oldFlows != [])
    requires s.flows[First(s)].deficit <= 0
    ensures Inv(Refill(s), stray, owed)
  {
    RefillShrinks(s);
    MoveKeepsLists(s.(flows := Refill(s).flows));
    ListChangeKeepsInv(s, Refill(s), stray, owed);
  }

  lemma HoldingNothing(s: Sched, i: nat, stray: int, owed: int)
    requires InvHolding(s, i, None, stray, owed)
    ensures Inv(s, stray, owed)
  {
    assert Packets(s.hist[i].departed) + Opt(None) == Packets(s.hist[i].departed);
    assert FlowBooks(s, i);
    forall j | 0 <= j < |s.flows| ensures FlowBooks(s, j) && FlowHistory(s, j) {
      if j != i { assert FlowBooks(s, j); }
    }
  }

  lemma RetireKeepsInv(s: Sched, gap: Clock, stray: int, owed: int)
    requires Inv(s, stray, owed) && (s.newFlows != [] || s.oldFlows != [])
    requires Poll(s, First(s), gap).1.None?
    ensures Inv(Retire(Poll(s, First(s), gap).0), stray, owed)
  {
    var i := First(s);
    PollKeepsInv(s, i, gap, stray, owed);
    var t := Poll(s, i, gap).0;
    HoldingNothing(t, i, stray, owed);
    PollFrame(s, i, gap);
    MoveKeepsLists(t);
    ListChangeKeepsInv(t, Retire(t), stray, owed);
  }

  lemma DeliverTotals(s: Sched, i: nat, pkt: Packet, stray: int, owed: int)
    requires i < |s.flows| == |s.backlogs| == |s.hist| && Totals(s, stray, owed)
    ensures Totals(Report(Charge(s, i, pkt)), stray, owed)
  {
    var t := Charge(s, i, pkt);
    assert Lengths(t.flows) == Lengths(s.flows);
    DroppedAppend(s.hist[i].departed, Departure(pkt, FateOf(s.freeing)));
    DropCountsUpdate(s.hist, i, t.hist[i]);
  }

  lemma DeliverFlow(s: Sched, i: nat, pkt: Packet, j: nat)
    requires i < |s.flows| == |s.backlogs| == |s.hist| && j < |s.flows| && FlowHistory(s, j)
    requires if j == i then s.backlogs[i] == Bytes(s.flows[i].queue)
                            && s.hist[i].arrived == Packets(s.hist[i].departed) + Opt(Some(pkt)) + s.flows[i].queue
             else FlowBooks(s, j)
    ensures var u := Report(Charge(s, i, pkt)); FlowBooks(u, j) && FlowHistory(u, j)
  {
    var u := Report(Charge(s, i, pkt));
    if j == i { assert Packets(u.hist[i].departed) == Packets(s.hist[i].departed) + Opt(Some(pkt)); }
    SameHistory(CellOf(s, j), CellOf(u, j), u.time);
  }

  lemma DeliverListed(s: Sched, i: nat, pkt: Packet)
    requires i < |s.flows| == |s.backlogs| == |s.hist| && Shape(s) && Listed(s) && 0 < s.flows[i].deficit
    ensures var u := Report(Charge(s, i, pkt)); Shape(u) && Listed(u)
  {
    var u := Report(Charge(s, i, pkt));
    forall j | 0 <= j < |u.flows| && u.flows[j].queue != [] ensures j in u.newFlows || j in u.oldFlows {
      assert s.flows[j].queue != [];
    }
  }

  lemma DeliverKeepsInv(s: Sched, i: nat, pkt: Packet, stray: int, owed: int)
    requires InvHolding(s, i, Some(pkt), stray, owed)
    requires 0 < s.flows[i].deficit
    ensures Inv(Report(Charge(s, i, pkt)), stray, owed)
  {
    var u := Report(Charge(s, i, pkt));
    DeliverTotals(s, i, pkt, stray, owed);
    DeliverListed(s, i, pkt);
    forall j | 0 <= j < |u.flows| ensures FlowBooks(u, j) && FlowHistory(u, j) { DeliverFlow(s, i, pkt, j); }
  }

  lemma PassKeepsInv(s: Sched, i: nat, gap: Clock, stray: int, owed: int, s1: Sched, out: Option<Packet>)
    requires Inv(s, stray, owed) && (s.newFlows != [] || s.oldFlows != []) && i == First(s) && s.flows[i].deficit > 0
    requires Poll(s, i, gap) == (s1, out) && (s1.newFlows != [] || s1.oldFlows != []) && i < |s1.flows| == |s1.hist|
    ensures out.None? ==> Inv(Retire(s1), stray, owed) && Retire(s1).qlen <= s.qlen && (s.qlen > 0 <==> Retire(s1).qlen > 0)
    ensures out.Some? ==> var t := Report(Charge(s1, i, out.value)); Inv(t, stray, owed + 1) && t.qlen < s.qlen
  {
    PacketsIffBytes(s, stray, owed);
    PollKeepsInv(s, i, gap, stray, owed);
    PollFrame(s, i, gap);
    if out.None? {
      RetireKeepsInv(s, gap, stray, owed);
      PacketsIffBytes(Retire(s1), stray, owed);
    } else {
      DeliverKeepsInv(s1, i, out.value, stray, owed + 1);
    }
  }

  /** One pass through the block at `begin` keeps the invariant; it jumps back only with packets still queued if
      there were any, and finds nothing listed only if nothing is queued. */
  lemma BeginKeepsInv(s: Sched, gap: Clock, stray: int, owed: int)
    requires Inv(s, stray, owed)
    ensures match Begin(s, gap)
            case Idle => s.qlen == 0
            case Again(t) => Inv(t, stray, owed) && t.qlen <= s.qlen && (s.qlen > 0 <==> t.qlen > 0)
            case Got(t, pkt) => Inv(t, stray, owed + 1) && t.qlen < s.qlen
  {
    PacketsIffBytes(s, stray, owed);
    if s.newFlows != [] || s.oldFlows != [] {
      var i := First(s);
      if s.flows[i].deficit <= 0 {
        RefillKeepsInv(s, stray, owed);
        BeginRefills(s, gap);
      } else {
        var (s1, out) := Poll(s, i, gap);
        PollFrame(s, i, gap);
        PassKeepsInv(s, i, gap, stray, owed, s1, out);
        BeginPolls(s, gap, i, s1, out);
      }
    }
  }

  /** The parent is told of drops when a packet has been handed out and others are still queued, and then of all that
      were pending. */
  ghost predicate Reports(s: Sched, t: Sched, out: Option<Packet>) {
    && (out.None? || t.qlen == 0 ==> t.parent == s.parent)
    && (out.Some? && t.qlen != 0 ==> t.stats.dropCount == 0)
  }

  lemma PassReports(s: Sched, i: nat, out: Option<Packet>)
    requires (s.newFlows != [] || s.oldFlows != []) && i < |s.flows| == |s.hist|
    ensures out.None? ==> Retire(s).parent == s.parent
    ensures out.Some? ==> Reports(s, Report(Charge(s, i, out.value)), out)
  {
  }

  lemma PollTellsNone(s: Sched, i: nat, gap: Clock)
    requires i < |s.flows| == |s.backlogs| == |s.hist|
    ensures Poll(s, i, gap).0.parent == s.parent
  {
  }

  lemma BeginReports(s: Sched, gap: Clock)
    requires WellFormed(s)
    ensures match Begin(s, gap)
            case Idle => true
            case Again(t) => t.parent == s.parent
            case Got(t, pkt) => Reports(s, t, Some(pkt))
  {
    if s.newFlows != [] || s.oldFlows != [] {
      var i := First(s);
      if s.flows[i].deficit <= 0 {
        BeginRefills(s, gap);
      } else {
        var (s1, out) := Poll(s, i, gap);
        PollFrame(s, i, gap);
        PollTellsNone(s, i, gap);
        PassReports(s1, i, out);
        BeginPolls(s, gap, i, s1, out);
      }
    }
  }

  lemma {:induction false} DequeueReports(s: Sched, gap: Clock)
    requires Shape(s)
    ensures var (t, out) := FqDequeue(s, gap); Reports(s, t, out)
    decreases Measure(s)
  {
    BeginReports(s, gap);
    if Begin(s, gap).Again? {
      BeginProgresses(s, gap);
      DequeueReports(Begin(s, gap).s, gap);
    }
  }

  lemma BeginFrame(s: Sched, gap: Clock)
    requires Shape(s)
    ensures match Begin(s, gap)
            case Idle => true
            case Again(t) => t.limit == s.limit && |t.flows| == |s.flows|
            case Got(t, _) => t.limit == s.limit && |t.flows| == |s.flows|
  {
    if s.newFlows != [] || s.oldFlows != [] { PollFrame(s, First(s), gap); }
  }

  /** Work conservation: a dequeue returns a packet exactly when one is queued, however many
      packets CoDel drops and flows it retires on the way; and it keeps the invariant. */
  lemma {:induction false} WorkConservation(s: Sched, gap: Clock, stray: int, owed: int)
    requires Inv(s, stray, owed)
    ensures var (t, out) := FqDequeue(s, gap);
            && (out.Some? <==> s.qlen > 0)
            && Inv(t, stray, owed + |Opt(out)|)
            && t.qlen + |Opt(out)| <= s.qlen
            && t.limit == s.limit && |t.flows| == |s.flows|
    decreases Measure(s)
  {
    BeginKeepsInv(s, gap, stray, owed);
    PacketsIffBytes(s, stray, owed);
    BeginFrame(s, gap);
    match Begin(s, gap)
    case Idle =>
    case Got(t, pkt) =>
    case Again(t) =>
      BeginProgresses(s, gap);
      WorkConservation(t, gap, stray, owed);
  }
}
