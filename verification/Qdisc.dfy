/** The queueing discipline as the kernel runs it: tables of flows and backlogs changed in
    place, loops and early exits. Each method is proved to compute the function of the same name
    in `Codel`, `FqCodel` or `FqCodelRun`. */
module Qdisc {
  import opened SerialTime
  import opened Newton
  import opened Codel
  import opened CodelLemmas
  import opened FqCodel
  import opened FqCodelInv
  import opened FqCodelRun

  /** Writing a flow twice is writing it once, and reading gives back what was written. */
  lemma PutPut(s: Sched, i: nat, c: Cell, d: Cell)
    requires i < |s.flows| == |s.backlogs| == |s.hist|
    ensures CellOf(PutCell(s, i, c), i) == c
    ensures PutCell(PutCell(s, i, c), i, d) == PutCell(s, i, d)
    ensures PutCell(s, i, CellOf(s, i)) == s
  {
  }

  /** A cell whose totals no longer include a packet, the length of which has been noted. */
  function WithoutPacket(c: Cell, pkt: Packet): Cell {
    c.(total := c.total - pkt.len,
       stats := if pkt.len > c.stats.maxpacket then c.stats.(maxpacket := pkt.len) else c.stats)
  }

  /** One turn of the drop loop: the state, the packet in hand, and whether the loop test is next. */
  function Turn(c: Cell, pkt: Packet, p: Params, now: nat): (Cell, Option<Packet>, bool) {
    var c1 := c.(vars := Quicken(c.vars));
    if p.ecn && pkt.ect then (PlanNext(MarkPacket(c1, pkt, now), p), Some(pkt), false)
    else
      var (c2, next, ok) := Fetch(DropPacket(c1, pkt, now), p, now);
      (if ok then PlanNext(c2, p) else c2.(vars := c2.vars.(dropping := false)), next, true)
  }

  /** What the drop loop still has to do with `skb` in hand. */
  function Rest(c: Cell, skb: Option<Packet>, p: Params, now: nat): (Cell, Option<Packet>) {
    if skb.Some? then DropLoop(c, skb.value, p, now) else (c, None)
  }

  lemma TurnUnrolls(c: Cell, pkt: Packet, p: Params, now: nat)
    requires DueToDrop(c.vars, now)
    ensures var (c', next, goOn) := Turn(c, pkt, p, now);
            && DropLoop(c, pkt, p, now) == (if goOn then Rest(c', next, p, now) else (c', next))
            && (goOn && c'.vars.dropping ==> next.Some? && |c'.queue| < |c.queue|)
            && |c'.queue| <= |c.queue|
  {
  }

  /** Flow `i` after the first `n` of its packets have been flushed. */
  function FlushedTo(s: Sched, i: nat, n: nat): Sched
    requires i < |s.flows| == |s.hist| && n <= |s.flows[i].queue|
  {
    var q := s.flows[i].queue;
    s.(flows := s.flows[i := s.flows[i].(queue := q[n..])],
       total := s.total - Bytes(q) + Bytes(q[n..]),
       hist := s.hist[i := s.hist[i].(departed := s.hist[i].departed + Flush(q[..n]))])
  }

  lemma FlushedToStart(s: Sched, i: nat)
    requires i < |s.flows| == |s.hist|
    ensures FlushedTo(s, i, 0) == s
  {
    assert s.flows[i].queue[0..] == s.flows[i].queue;
    assert s.hist[i].departed + Flush([]) == s.hist[i].departed;
  }

  lemma FlushedToStep(s: Sched, i: nat, n: nat)
    requires i < |s.flows| == |s.hist| && n < |s.flows[i].queue|
    ensures var t, pkt := FlushedTo(s, i, n), s.flows[i].queue[n];
            t.flows[i].queue != [] && t.flows[i].queue[0] == pkt
            && FlushedTo(s, i, n + 1)
               == t.(flows := t.flows[i := t.flows[i].(queue := t.flows[i].queue[1..])],
                     total := t.total - pkt.len,
                     hist := t.hist[i := t.hist[i].(departed := t.hist[i].departed + [Departure(pkt, Flushed)])])
  {
    var q := s.flows[i].queue;
    assert q[n..][1..] == q[n + 1..];
    assert Flush(q[..n]) + [Departure(q[n], Flushed)] == Flush(q[..n + 1]);
    assert s.hist[i].departed + (Flush(q[..n]) + [Departure(q[n], Flushed)])
        == s.hist[i].departed + Flush(q[..n]) + [Departure(q[n], Flushed)];
  }

  /** `codel_dequeue` on flow `i` within the whole, which reads the clock if there is a packet. */
  function CodelOn(s: Sched, i: nat, gap: Clock): (Sched, Option<Packet>)
    requires i < |s.flows| == |s.backlogs| == |s.hist|
  {
    var s1 := if s.flows[i].queue == [] then s else ReadClock(s, gap);
    var (c, out) := Dequeue(CellOf(s1, i), s.params, s1.time);
    (PutCell(s1, i, c), out)
  }

  /** What a poll adds to the flow's own count of packets shed. */
  lemma PollShed(s: Sched, i: nat, gap: Clock, t: Sched, skb: Option<Packet>)
    requires i < |s.flows| == |s.backlogs| == |s.hist|
    requires (t, skb) == CodelOn(s, i, gap)
    ensures var shed := (t.stats.dropCount - s.stats.dropCount) + (t.stats.ecnMark - s.stats.ecnMark);
            Poll(s, i, gap) == (t.(flows := t.flows[i := t.flows[i].(dropped := t.flows[i].dropped + shed)]), skb)
  {
  }

  /** What one turn of the dequeue loop leaves to be done. */
  lemma OnePass(s: Sched, gap: Clock)
    requires Shape(s) && (s.newFlows != [] || s.oldFlows != [])
    ensures First(s) < |s.flows|
    ensures s.flows[First(s)].deficit <= 0 ==>
              Shape(Refill(s)) && 0 <= Measure(Refill(s)) < Measure(s) && FqDequeue(Refill(s), gap) == FqDequeue(s, gap)
    ensures s.flows[First(s)].deficit > 0 ==>
              var (s1, out) := Poll(s, First(s), gap);
              && |s1.flows| == |s1.backlogs| == |s1.hist| == |s.flows|
              && s1.newFlows == s.newFlows && s1.oldFlows == s.oldFlows
              && (out.Some? ==> FqDequeue(s, gap) == (Report(Charge(s1, First(s), out.value)), out))
              && (out.None? ==> Shape(Retire(s1)) && 0 <= Measure(Retire(s1)) < Measure(s)
                                && FqDequeue(Retire(s1), gap) == FqDequeue(s, gap))
  {
    PollFrame(s, First(s), gap);
    if Begin(s, gap).Again? { BeginProgresses(s, gap); }
  }

  class FqCodelQdisc {
    const flows: array<Flow>
    const backlogs: array<int>
    var newFlows: seq<nat>
    var oldFlows: seq<nat>
    var qlen: int
    var total: int
    var limit: nat
    var quantum: u32
    var params: Params
    var stats: Stats
    var drops: int
    var overLimit: int
    var newFlowCount: int
    var time: nat
    var ticks: nat
    ghost var parent: int
    ghost var hist: seq<History>
    ghost var freeing: bool
    const gap: Clock

    /** The abstract state. */
    ghost function Abs(): Sched
      reads this, flows, backlogs
    {
      Sched(flows[..], backlogs[..], newFlows, oldFlows, qlen, total, limit, quantum, params, stats, drops,
            overLimit, newFlowCount, parent, hist, time, ticks, freeing)
    }

    ghost predicate Sized()
      reads this
    {
      flows.Length == backlogs.Length == |hist| > 0
    }

    constructor (flowsCnt: nat, mtu: u32, clock: Clock)
      requires 0 < flowsCnt
      ensures Sized() && gap == clock
      ensures Abs() == Initial(flowsCnt, 10 * 1024, mtu,
                               Params(FromMicroseconds(5_000), 0x7FFF_FFFF, FromMicroseconds(100_000), mtu, true))
    {
      flows := new Flow[flowsCnt](_ => Flow([], 0, 0, InitialVars));
      backlogs := new int[flowsCnt](_ => 0);
      newFlows, oldFlows, qlen, total, limit, quantum := [], [], 0, 0, 10 * 1024, mtu;
      params := Params(4882, 0x7FFF_FFFF, 97656, mtu, true);
      stats, drops, overLimit, newFlowCount, time, ticks := Stats(0, 0, 0, 0, 0), 0, 0, 0, 0, 0;
      parent, hist, freeing, gap := 0, seq(flowsCnt, _ => History([], [], [])), false, clock;
    }

    method GetTime() returns (now: nat)
      modifies this
      ensures Abs() == ReadClock(old(Abs()), gap) && now == time
      ensures hist == old(hist)
    {
      time := time + gap(ticks);
      ticks := ticks + 1;
      now := time;
    }

    // ---------- CoDel on flow i ----------

    /** `dequeue`: the head packet of the flow, if any. */
    method DequeueHead(i: nat) returns (skb: Option<Packet>)
      requires Sized() && i < flows.Length
      modifies this, flows, backlogs
      ensures Sized()
      ensures Abs() == PutCell(old(Abs()), i, TakeHead(CellOf(old(Abs()), i)).0)
      ensures skb == TakeHead(CellOf(old(Abs()), i)).1
    {
      var flow := flows[i];
      if flow.queue == [] {
        PutPut(Abs(), i, CellOf(Abs(), i), CellOf(Abs(), i));
        return None;
      }
      skb := Some(flow.queue[0]);
      flows[i] := flow.(queue := flow.queue[1..]);
      backlogs[i] := backlogs[i] - skb.value.len;
      qlen := qlen - 1;
      hist := hist[i := hist[i]];
    }

    method SetVars(i: nat, v: Vars)
      requires Sized() && i < flows.Length
      modifies flows
      ensures Abs() == PutCell(old(Abs()), i, CellOf(old(Abs()), i).(vars := v))
    {
      flows[i] := flows[i].(vars := v);
      assert hist[i := hist[i]] == hist;
    }

    /** `codel_should_drop`. */
    method ShouldDropNow(i: nat, skb: Option<Packet>, now: nat) returns (ok: bool)
      requires Sized() && i < flows.Length
      modifies this, flows
      ensures Sized()
      ensures Abs() == PutCell(old(Abs()), i, ShouldDrop(CellOf(old(Abs()), i), skb, params, now).0)
      ensures ok == ShouldDrop(CellOf(old(Abs()), i), skb, params, now).1
      ensures params == old(params)
    {
      if skb.None? {
        flows[i] := flows[i].(vars := flows[i].vars.(firstAbove := 0));
        hist := hist[i := hist[i].(log := hist[i].log + [RanDry])];
        return false;
      }
      ok := Examine(i, skb.value, now);
    }

    /** The verdict on a packet. */
    method Examine(i: nat, pkt: Packet, now: nat) returns (ok: bool)
      requires Sized() && i < flows.Length
      modifies this, flows
      ensures Sized()
      ensures Abs() == PutCell(old(Abs()), i, ShouldDrop(CellOf(old(Abs()), i), Some(pkt), params, now).0)
      ensures ok == ShouldDrop(CellOf(old(Abs()), i), Some(pkt), params, now).1
      ensures params == old(params)
    {
      ghost var s0 := Abs();
      ghost var d := WithoutPacket(CellOf(s0, i), pkt);
      var v := flows[i].vars;
      v := v.(ldelay := Wrap(Wrap(now) - Wrap(pkt.stamp)));
      TakeFromTotal(i, pkt);
      v, ok := Judge(v, now);
      PutPut(s0, i, d, d.(vars := v, log := d.log + [Exam(now, pkt, total, params, ok)]));
      Note(i, v, Exam(now, pkt, total, params, ok));
    }

    /** Takes the packet out of the total backlog, and notes its length if no longer one has been seen. */
    method TakeFromTotal(i: nat, pkt: Packet)
      requires Sized() && i < flows.Length
      modifies this`total, this`stats
      ensures Abs() == PutCell(old(Abs()), i, WithoutPacket(CellOf(old(Abs()), i), pkt))
    {
      total := total - pkt.len;
      if pkt.len > stats.maxpacket {
        stats := stats.(maxpacket := pkt.len);
      }
      assert flows[..] == flows[..][i := flows[i]];
      assert hist == hist[i := hist[i]];
    }

    /** Sets, keeps or clears the mark at which dropping may begin. */
    method Judge(v: Vars, now: nat) returns (w: Vars, ok: bool)
      ensures var below := Before(v.ldelay, params.target) || total <= params.mtu;
              && ok == (!below && v.firstAbove != 0 && After(Wrap(now), v.firstAbove))
              && w == v.(firstAbove := if below then 0
                                       else if v.firstAbove == 0 then Wrap(Wrap(now) + params.interval)
                                       else v.firstAbove)
    {
      w, ok := v, false;
      if Before(v.ldelay, params.target) || total <= params.mtu {
        w := v.(firstAbove := 0);
      } else if v.firstAbove == 0 {
        w := v.(firstAbove := Wrap(Wrap(now) + params.interval));
      } else if After(Wrap(now), v.firstAbove) {
        ok := true;
      }
    }

    /** Stores the variables of a flow, with a ghost note of what led to them. */
    method Note(i: nat, v: Vars, ghost e: Event)
      requires Sized() && i < flows.Length
      modifies this`hist, flows
      ensures Sized()
      ensures var c := CellOf(old(Abs()), i); Abs() == PutCell(old(Abs()), i, c.(vars := v, log := c.log + [e]))
    {
      flows[i] := flows[i].(vars := v);
      hist := hist[i := hist[i].(log := hist[i].log + [e])];
    }

    /** Counts and frees a packet CoDel gives up. */
    method DropNow(i: nat, pkt: Packet, ghost now: nat)
      requires Sized() && i < flows.Length
      modifies this
      ensures Sized()
      ensures Abs() == PutCell(old(Abs()), i, DropPacket(CellOf(old(Abs()), i), pkt, now))
      ensures params == old(params)
    {
      stats := stats.(dropLen := stats.dropLen + pkt.len);
      drops := drops + 1;
      stats := stats.(dropCount := stats.dropCount + 1);
      hist := hist[i := hist[i].(log := hist[i].log + [Shed(now, pkt, false)],
                                 departed := hist[i].departed + [Departure(pkt, CodelDropped)])];
      assert flows[..] == flows[..][i := flows[i]];
    }

    /** Puts a congestion mark on a packet instead. */
    method MarkNow(i: nat, pkt: Packet, ghost now: nat)
      requires Sized() && i < flows.Length
      modifies this
      ensures Sized()
      ensures Abs() == PutCell(old(Abs()), i, MarkPacket(CellOf(old(Abs()), i), pkt, now))
      ensures params == old(params)
    {
      stats := stats.(ecnMark := stats.ecnMark + 1);
      hist := hist[i := hist[i].(log := hist[i].log + [Shed(now, pkt, true)])];
      assert flows[..] == flows[..][i := flows[i]];
    }

    /** Drops `pkt`, takes the next packet and passes the verdict on it. */
    method DropAndFetch(i: nat, pkt: Packet, now: nat) returns (skb: Option<Packet>, ok: bool)
      requires Sized() && i < flows.Length
      modifies this, flows, backlogs
      ensures Sized()
      ensures Abs() == PutCell(old(Abs()), i, Fetch(DropPacket(CellOf(old(Abs()), i), pkt, now), params, now).0)
      ensures (skb, ok) == (Fetch(DropPacket(CellOf(old(Abs()), i), pkt, now), params, now).1,
                            Fetch(DropPacket(CellOf(old(Abs()), i), pkt, now), params, now).2)
      ensures params == old(params)
    {
      ghost var s0 := Abs();
      DropNow(i, pkt, now);
      ghost var c1 := DropPacket(CellOf(s0, i), pkt, now);
      PutPut(s0, i, c1, TakeHead(c1).0);
      skb := DequeueHead(i);
      PutPut(s0, i, TakeHead(c1).0, ShouldDrop(TakeHead(c1).0, skb, params, now).0);
      ok := ShouldDropNow(i, skb, now);
    }

    /** The body of the drop loop; `goOn` is false when it leaves by the mark. */
    method ShedOne(i: nat, pkt: Packet, now: nat) returns (skb: Option<Packet>, goOn: bool)
      requires Sized() && i < flows.Length
      modifies this, flows, backlogs
      ensures Sized() && params == old(params)
      ensures Abs() == PutCell(old(Abs()), i, Turn(CellOf(old(Abs()), i), pkt, params, now).0)
      ensures (skb, goOn) == (Turn(CellOf(old(Abs()), i), pkt, params, now).1,
                              Turn(CellOf(old(Abs()), i), pkt, params, now).2)
    {
      ghost var s0 := Abs();
      ghost var c := CellOf(s0, i);
      ghost var c1 := c.(vars := Quicken(c.vars));
      QuickenNow(i);
      if params.ecn && pkt.ect {
        ghost var d := MarkPacket(c1, pkt, now);
        PutPut(s0, i, c1, d);
        MarkNow(i, pkt, now);
        PutPut(s0, i, d, PlanNext(d, params));
        ScheduleNow(i);
        return Some(pkt), false;
      }
      ghost var d := Fetch(DropPacket(c1, pkt, now), params, now).0;
      PutPut(s0, i, c1, d);
      var ok;
      skb, ok := DropAndFetch(i, pkt, now);
      goOn := true;
      if !ok {
        PutPut(s0, i, d, d.(vars := d.vars.(dropping := false)));
        SetVars(i, flows[i].vars.(dropping := false));
      } else {
        PutPut(s0, i, d, PlanNext(d, params));
        ScheduleNow(i);
      }
    }

    /** `codel_Newton_step` after one more drop. */
    method QuickenNow(i: nat)
      requires Sized() && i < flows.Length
      modifies flows
      ensures var c := CellOf(old(Abs()), i); Abs() == PutCell(old(Abs()), i, c.(vars := Quicken(c.vars)))
    {
      var v := flows[i].vars;
      v := v.(count := Wrap(v.count + 1));
      v := v.(rec := NewtonStep(v.count, v.rec));
      SetVars(i, v);
    }

    /** Schedules the next drop. */
    method ScheduleNow(i: nat)
      requires Sized() && i < flows.Length
      modifies this`hist, flows
      ensures Sized()
      ensures Abs() == PutCell(old(Abs()), i, PlanNext(CellOf(old(Abs()), i), params))
    {
      var v := flows[i].vars;
      ghost var e := Planned(LastPlan(hist[i].log) + Advance(params.interval, v.rec), v.count, params.interval);
      Note(i, v.(dropNext := ControlLaw(v.dropNext, params.interval, v.rec)), e);
    }

    /** The loop of `codel_dequeue` that sheds packets while the schedule is behind the clock. */
    method ShedWhileDue(i: nat, pkt: Packet, now: nat) returns (skb: Option<Packet>)
      requires Sized() && i < flows.Length
      modifies this, flows, backlogs
      ensures Sized() && params == old(params)
      ensures Abs() == PutCell(old(Abs()), i, DropLoop(CellOf(old(Abs()), i), pkt, params, now).0)
      ensures skb == DropLoop(CellOf(old(Abs()), i), pkt, params, now).1
    {
      ghost var s0 := Abs();
      ghost var c := CellOf(s0, i);
      ghost var goal := DropLoop(c, pkt, params, now);
      PutPut(s0, i, c, c);
      skb := Some(pkt);
      while flows[i].vars.dropping && AfterEq(Wrap(now), flows[i].vars.dropNext)
        invariant Sized() && params == old(params)
        invariant c == CellOf(Abs(), i) && Abs() == PutCell(s0, i, c)
        invariant c.vars.dropping ==> skb.Some?
        invariant Rest(c, skb, params, now) == goal
        decreases |flows[i].queue|, flows[i].vars.dropping
      {
        var goOn;
        ghost var t := Turn(c, skb.value, params, now);
        TurnUnrolls(c, skb.value, params, now);
        PutPut(s0, i, c, t.0);
        skb, goOn := ShedOne(i, skb.value, now);
        c := t.0;
        if !goOn {
          return;
        }
      }
    }

    /** The first drop of an episode, and the new state of the control variables. */
    method StartDropping(i: nat, pkt: Packet, now: nat) returns (skb: Option<Packet>)
      requires Sized() && i < flows.Length
      modifies this, flows, backlogs
      ensures Sized()
      ensures Abs() == PutCell(old(Abs()), i, FirstDrop(CellOf(old(Abs()), i), pkt, params, now).0)
      ensures skb == FirstDrop(CellOf(old(Abs()), i), pkt, params, now).1
      ensures params == old(params)
    {
      ghost var s0 := Abs();
      ghost var c := CellOf(s0, i);
      skb := Some(pkt);
      if params.ecn && pkt.ect {
        MarkNow(i, pkt, now);
        c := MarkPacket(c, pkt, now);
      } else {
        c := Fetch(DropPacket(c, pkt, now), params, now).0;
        var verdict;  // of no consequence here
        skb, verdict := DropAndFetch(i, pkt, now);
      }
      PutPut(s0, i, c, Enter(c, params, now));
      EnterNow(i, now);
    }

    /** Sets the control variables for a new episode. */
    method EnterNow(i: nat, now: nat)
      requires Sized() && i < flows.Length
      modifies this`hist, flows
      ensures Sized()
      ensures Abs() == PutCell(old(Abs()), i, Enter(CellOf(old(Abs()), i), params, now))
    {
      var v := flows[i].vars.(dropping := true);
      var delta := Wrap(v.count - v.lastcount);
      if delta > 1 && Before(Wrap(Wrap(now) - v.dropNext), Wrap(16 * params.interval)) {
        v := v.(count := delta);
        v := v.(rec := NewtonStep(v.count, v.rec));
      } else {
        v := v.(count := 1, rec := 0xFFFF);
      }
      v := v.(lastcount := v.count);
      v := v.(dropNext := ControlLaw(Wrap(now), params.interval, v.rec));
      Note(i, v, Planned(now + Advance(params.interval, v.rec), v.count, params.interval));
    }

    /** `codel_dequeue` on flow `i`. */
    method CodelDequeue(i: nat) returns (skb: Option<Packet>)
      requires Sized() && i < flows.Length
      modifies this, flows, backlogs
      ensures Sized() && params == old(params)
      ensures (Abs(), skb) == CodelOn(old(Abs()), i, gap)
    {
      ghost var s := Abs();
      ghost var c := CellOf(s, i);
      skb := DequeueHead(i);
      if skb.None? {
        PutPut(s, i, c, c.(vars := c.vars.(dropping := false)));
        SetVars(i, flows[i].vars.(dropping := false));
        hist := hist[i := hist[i].(log := hist[i].log + [EmptyPoll(flows[i].vars.firstAbove)])];
        return;
      }
      var now := GetTime();
      ghost var s1 := ReadClock(s, gap);
      assert Abs() == PutCell(s1, i, TakeHead(c).0);
      ghost var c1 := Fetch(c, params, now).0;
      PutPut(s1, i, TakeHead(c).0, c1);
      var ok := ShouldDropNow(i, skb, now);
      ghost var c2 := Act(c1, skb.value, ok, params, now).0;
      PutPut(s1, i, c1, c2);
      skb := ActNow(i, skb.value, ok, now);
      PutPut(s1, i, c2, CeCheck(c2, skb, params));
      CeCheckNow(i, skb);
    }

    /** Acts on the verdict on the first packet. */
    method ActNow(i: nat, pkt: Packet, ok: bool, now: nat) returns (skb: Option<Packet>)
      requires Sized() && i < flows.Length
      modifies this, flows, backlogs
      ensures Sized() && params == old(params)
      ensures Abs() == PutCell(old(Abs()), i, Act(CellOf(old(Abs()), i), pkt, ok, params, now).0)
      ensures skb == Act(CellOf(old(Abs()), i), pkt, ok, params, now).1
    {
      PutPut(Abs(), i, CellOf(Abs(), i), CellOf(Abs(), i));
      skb := Some(pkt);
      if flows[i].vars.dropping {
        if !ok {
          SetVars(i, flows[i].vars.(dropping := false));
        } else {
          skb := ShedWhileDue(i, pkt, now);
        }
      } else if ok {
        skb := StartDropping(i, pkt, now);
      }
    }

    /** The separate congestion mark at `end`. */
    method CeCheckNow(i: nat, skb: Option<Packet>)
      requires Sized() && i < flows.Length
      modifies this
      ensures Sized() && params == old(params)
      ensures Abs() == PutCell(old(Abs()), i, CeCheck(CellOf(old(Abs()), i), skb, params))
    {
      PutPut(Abs(), i, CellOf(Abs(), i), CellOf(Abs(), i));
      if skb.Some? && After(flows[i].vars.ldelay, params.ceThreshold) && skb.value.ect {
        stats := stats.(ceMark := stats.ceMark + 1);
        assert flows[..] == flows[..][i := flows[i]];
        assert hist == hist[i := hist[i]];
      }
    }

    // ---------- enqueue ----------

    /** `flow_queue_add` with the byte counts and, for a flow on no list, its new listing. */
    method AppendNow(i: nat, pkt: Packet)
      requires Sized() && i < flows.Length
      modifies this, flows, backlogs
      ensures Sized()
      ensures Abs() == Append(old(Abs()), i, pkt)
    {
      flows[i] := flows[i].(queue := flows[i].queue + [pkt]);
      backlogs[i] := backlogs[i] + pkt.len;
      total := total + pkt.len;
      qlen := qlen + 1;
      hist := hist[i := hist[i].(arrived := hist[i].arrived + [pkt])];
      if i !in newFlows && i !in oldFlows { ListNew(i); }
    }

    /** Puts a flow on the list of new flows, with a fresh quantum. */
    method ListNew(i: nat)
      requires Sized() && i < flows.Length
      modifies this`newFlows, this`newFlowCount, flows
      ensures flows[..] == old(flows[..])[i := old(flows[i]).(deficit := Signed(quantum), dropped := 0)]
      ensures newFlows == old(newFlows) + [i] && newFlowCount == old(newFlowCount) + 1
    {
      newFlows := newFlows + [i];
      newFlowCount := newFlowCount + 1;
      flows[i] := flows[i].(deficit := Signed(quantum));
      flows[i] := flows[i].(dropped := 0);
    }

    /** `fq_codel_drop`: finds the fattest flow and drops its head packet. */
    method DropFromFattest() returns (idx: nat)
      requires Sized()
      requires flows[FatFlow(backlogs[..], backlogs.Length)].queue != []
      modifies this, flows, backlogs
      ensures Sized()
      ensures Abs() == DropFat(old(Abs())).0 && idx == DropFat(old(Abs())).1
      ensures limit == old(limit)
    {
      idx := FindFattest();
      DropHead(idx);
    }

    /** The search in `fq_codel_drop`. */
    method FindFattest() returns (idx: nat)
      requires Sized()
      ensures idx == FatFlow(backlogs[..], backlogs.Length)
    {
      var maxbacklog := 0;
      idx := 0;
      for n := 0 to backlogs.Length
        invariant idx == FatFlow(backlogs[..], n)
        invariant maxbacklog == if n > 0 && backlogs[idx] > 0 then backlogs[idx] else 0
      {
        if backlogs[n] > maxbacklog {
          maxbacklog := backlogs[n];
          idx := n;
        }
      }
    }

    /** The drop in `fq_codel_drop`. */
    method DropHead(idx: nat)
      requires Sized() && idx == FatFlow(backlogs[..], backlogs.Length) && flows[idx].queue != []
      modifies this, flows, backlogs
      ensures Sized()
      ensures Abs() == DropFat(old(Abs())).0
      ensures limit == old(limit)
    {
      var flow := flows[idx];
      var pkt := flow.queue[0];
      backlogs[idx] := backlogs[idx] - pkt.len;
      qlen := qlen - 1;
      drops := drops + 1;
      total := total - pkt.len;
      flows[idx] := flow.(queue := flow.queue[1..], dropped := flow.dropped + 1);
      hist := hist[idx := hist[idx].(departed := hist[idx].departed + [Departure(pkt, OverLimit)])];
    }

    /** `fq_codel_enqueue`. */
    method EnqueuePacket(classid: nat, pkt: Incoming, bypass: bool) returns (verdict: Verdict)
      requires Sized() && Enqueueable(Abs(), classid, pkt, gap)
      modifies this, flows, backlogs
      ensures Sized()
      ensures Abs() == Enqueue(old(Abs()), classid, pkt, bypass, gap).0
      ensures verdict == Enqueue(old(Abs()), classid, pkt, bypass, gap).1
    {
      if classid == 0 {
        if bypass {
          drops := drops + 1;
        }
        return Unclassified;
      }
      var now := GetTime();
      AppendNow(classid - 1, Stamped(pkt, now));
      verdict := AdmitNow(classid);
    }

    /** Keeps the queue within its limit after an append. */
    method AdmitNow(classid: nat) returns (verdict: Verdict)
      requires Sized()
      requires flows[FatFlow(backlogs[..], backlogs.Length)].queue != []
      modifies this, flows, backlogs
      ensures Sized() && Abs() == Admit(old(Abs()), classid).0 && verdict == Admit(old(Abs()), classid).1
    {
      if qlen <= limit {
        parent := parent + 1;
        return Success;
      }
      overLimit := overLimit + 1;
      var idx := DropFromFattest();
      if idx == classid - 1 {
        return CongestionNotice;
      }
      return Success;
    }

    // ---------- dequeue ----------

    /** Gives the first flow a quantum and moves it to the back of the old flows. */
    method RefillFirst(i: nat)
      requires Sized() && (newFlows != [] || oldFlows != []) && i == First(Abs()) && i < flows.Length
      modifies this, flows
      ensures Sized() && Abs() == Refill(old(Abs()))
    {
      flows[i] := flows[i].(deficit := Topped(flows[i].deficit, quantum));
      if newFlows != [] {
        newFlows := newFlows[1..];
      } else {
        oldFlows := oldFlows[1..];
      }
      oldFlows := oldFlows + [i];
    }

    /** Runs CoDel on the flow and adds what it shed to the flow's own count. */
    method PollFlow(i: nat) returns (skb: Option<Packet>)
      requires Sized() && i < flows.Length
      modifies this, flows, backlogs
      ensures Sized()
      ensures Abs() == Poll(old(Abs()), i, gap).0 && skb == Poll(old(Abs()), i, gap).1
    {
      var prevDropCount, prevEcnMark := stats.dropCount, stats.ecnMark;
      ghost var s := Abs();
      skb := CodelDequeue(i);
      ghost var t := Abs();
      PollShed(s, i, gap, t, skb);
      var shed := (stats.dropCount - prevDropCount) + (stats.ecnMark - prevEcnMark);
      AddDropped(i, shed);
    }

    method AddDropped(i: nat, shed: int)
      requires i < flows.Length
      modifies flows
      ensures Abs() == old(Abs()).(flows := old(Abs()).flows[i := old(flows[i]).(dropped := old(flows[i]).dropped + shed)])
    {
      flows[i] := flows[i].(dropped := flows[i].dropped + shed);
    }

    /** Takes a flow with nothing to deliver off its list, or sends it through the old flows. */
    method RetireFirst(i: nat)
      requires Sized() && (newFlows != [] || oldFlows != []) && i == First(Abs())
      modifies this
      ensures Sized() && Abs() == Retire(old(Abs()))
    {
      if newFlows != [] {
        newFlows := newFlows[1..];
        if oldFlows != [] {
          oldFlows := oldFlows + [i];
        }
      } else {
        oldFlows := oldFlows[1..];
      }
    }

    /** Charges the flow for its packet and reports pending drops to the parent. */
    method Deliver(i: nat, pkt: Packet)
      requires Sized() && i < flows.Length
      modifies this, flows
      ensures Sized() && Abs() == Report(Charge(old(Abs()), i, pkt))
    {
      flows[i] := flows[i].(deficit := flows[i].deficit - pkt.len);
      hist := hist[i := hist[i].(departed := hist[i].departed + [Departure(pkt, FateOf(freeing))])];
      if stats.dropCount != 0 && qlen != 0 {
        parent := parent - stats.dropCount;
        stats := stats.(dropCount := 0);
        stats := stats.(dropLen := 0);
      }
    }

    /** `fq_codel_dequeue`; the loop is the jump back to `begin`. */
    method DequeuePacket() returns (skb: Option<Packet>)
      requires Sized() && Shape(Abs())
      modifies this, flows, backlogs
      ensures Sized()
      ensures Abs() == FqDequeue(old(Abs()), gap).0 && skb == FqDequeue(old(Abs()), gap).1
    {
      ghost var goal := FqDequeue(Abs(), gap);
      while true
        invariant Sized() && Shape(Abs())
        invariant FqDequeue(Abs(), gap) == goal
        decreases Measure(Abs())
      {
        if newFlows == [] && oldFlows == [] {
          return None;
        }
        var i := if newFlows != [] then newFlows[0] else oldFlows[0];
        OnePass(Abs(), gap);
        if flows[i].deficit <= 0 {
          RefillFirst(i);
        } else {
          skb := PollFlow(i);
          if skb.Some? {
            Deliver(i, skb.value);
            return;
          }
          RetireFirst(i);
        }
      }
    }

    // ---------- change and reset ----------

    method ConfigureNow(cfg: Config)
      requires Sized()
      modifies this
      ensures Sized() && Abs() == Configure(old(Abs()), cfg)
    {
      var p := params;
      if cfg.target.Some? { p := p.(target := FromMicroseconds(cfg.target.value)); }
      if cfg.ceThreshold.Some? { p := p.(ceThreshold := FromMicroseconds(cfg.ceThreshold.value)); }
      if cfg.interval.Some? { p := p.(interval := FromMicroseconds(cfg.interval.value)); }
      if cfg.ecn.Some? { p := p.(ecn := cfg.ecn.value); }
      params := p;
      if cfg.limit.Some? { limit := cfg.limit.value; }
      if cfg.quantum.Some? { quantum := if cfg.quantum.value < 256 then 256 else cfg.quantum.value; }
      freeing := true;
    }

    /** Frees packets until the queue fits its limit; every dequeue on the way delivers one. */
    method TrimNow(ghost stray: int, ghost owed: int)
      requires Sized() && Inv(Abs(), stray, owed)
      modifies this, flows, backlogs
      ensures Sized() && Abs() == Trim(old(Abs()), gap, stray, owed) && qlen <= limit
    {
      ghost var goal := Trim(Abs(), gap, stray, owed);
      while qlen > limit
        invariant Sized() && Inv(Abs(), stray, owed)
        invariant Trim(Abs(), gap, stray, owed) == goal
        decreases qlen
      {
        TrimStep(Abs(), gap, stray, owed);
        TrimOne();
      }
    }

    method TrimOne()
      requires Sized() && Shape(Abs()) && FqDequeue(Abs(), gap).1.Some?
      modifies this, flows, backlogs
      ensures Sized()
      ensures var (t, out) := FqDequeue(old(Abs()), gap); Abs() == CountTrimmed(t, out.value)
    {
      var skb := DequeuePacket();
      stats := stats.(dropLen := stats.dropLen + skb.value.len);
      stats := stats.(dropCount := stats.dropCount + 1);
    }

    /** `fq_codel_change`: new settings, then packets are freed until the queue fits. */
    method ChangeSettings(cfg: Config, ghost stray: int, ghost owed: int)
      requires Sized() && Inv(Abs(), stray, owed) && ConfigOk(cfg)
      modifies this, flows, backlogs
      ensures Sized() && Abs() == Change(old(Abs()), cfg, gap, stray, owed)
      ensures qlen <= limit
    {
      ConfigureKeepsInv(Abs(), cfg, stray, owed);
      ConfigureNow(cfg);
      TrimNow(stray, owed);
      SettleNow();
    }

    /** Reports what was freed to the parent. */
    method SettleNow()
      requires Sized()
      modifies this
      ensures Sized() && Abs() == Settle(old(Abs())) && qlen == old(qlen) && limit == old(limit)
    {
      parent := parent - stats.dropCount;
      stats := stats.(dropCount := 0);
      stats := stats.(dropLen := 0);
      freeing := false;
    }

    /** The inner loop of a reset: frees the packets of flow `i` one by one. */
    method FlushNow(i: nat)
      requires Sized() && i < flows.Length
      modifies this, flows
      ensures Sized() && Abs() == FlushFlow(old(Abs()), i)
    {
      ghost var s0 := Abs();
      ghost var q0 := flows[i].queue;
      ghost var n := 0;
      FlushedToStart(s0, i);
      while flows[i].queue != []
        invariant Sized() && n <= |q0| && flows[i].queue == q0[n..]
        invariant Abs() == FlushedTo(s0, i, n)
        decreases |flows[i].queue|
      {
        FlushedToStep(s0, i, n);
        var pkt := flows[i].queue[0];
        flows[i] := flows[i].(queue := flows[i].queue[1..]);
        total := total - pkt.len;
        hist := hist[i := hist[i].(departed := hist[i].departed + [Departure(pkt, Flushed)])];
        n := n + 1;
      }
      assert q0[..n] == q0 && q0[n..] == [];
      flows[i] := flows[i].(vars := InitialVars);
      hist := hist[i := hist[i].(log := hist[i].log + [Cleared])];
    }

    /** The outer loop of a reset. */
    method FlushAll()
      requires Sized()
      modifies this, flows
      ensures Sized() && Abs() == FlushFrom(old(Abs()), 0)
    {
      ghost var goal := FlushFrom(Abs(), 0);
      for i := 0 to flows.Length
        invariant Sized() && FlushFrom(Abs(), i) == goal
      {
        FlushNow(i);
      }
    }

    /** `fq_codel_reset`. */
    method ResetNow()
      requires Sized()
      modifies this, flows, backlogs
      ensures Sized() && Abs() == Reset(old(Abs()))
    {
      EmptyAll();
      ClearBacklogs();
      qlen, parent := 0, 0;
    }

    /** Unlists all flows and empties them. */
    method EmptyAll()
      requires Sized()
      modifies this, flows
      ensures Sized() && Abs() == FlushFrom(old(Abs()).(newFlows := [], oldFlows := []), 0)
    {
      newFlows, oldFlows := [], [];
      FlushAll();
    }

    /** Sets all byte counts to 0 at once. */
    method ClearBacklogs()
      modifies backlogs
      ensures backlogs[..] == seq(backlogs.Length, _ => 0)
    {
      forall n | 0 <= n < backlogs.Length {
        backlogs[n] := 0;
      }
      assert forall n :: 0 <= n < backlogs.Length ==> backlogs[..][n] == 0;
    }
  }
}
