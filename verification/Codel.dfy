/** The CoDel state machine of one flow: what `codel_dequeue` does to the flow's
    queue, its control variables and the totals it shares with the other flows. */
module Codel {
  import opened SerialTime
  import opened Newton

  datatype Option<+T> = None | Some(value: T)

  type PacketLength = n: int | 0 < n < 0x8000_0000 witness 1

  /** `tag` stands for the contents. `stamp` is the real time of enqueueing, of which the
      packet's control block keeps the low 32 bits. `ect` says whether the packet accepts
      a congestion mark. */
  datatype Packet = Packet(tag: nat, len: PacketLength, stamp: nat, ect: bool)

  datatype Params = Params(target: u32, ceThreshold: u32, interval: u32, mtu: u32, ecn: bool)

  datatype Vars = Vars(count: u32, lastcount: u32, dropping: bool, rec: u16,
                       firstAbove: u32, dropNext: u32, ldelay: u32)

  const InitialVars := Vars(0, 0, false, 0, 0, 0, 0)

  datatype Stats = Stats(maxpacket: int, dropCount: int, dropLen: int, ecnMark: int, ceMark: int)

  /** How a packet left its flow: handed out, dropped by CoDel or over the limit, freed because of a smaller limit, or
      reset. */
  datatype Fate = Returned | CodelDropped | OverLimit | Trimmed | Flushed
  datatype Departure = Departure(pkt: Packet, fate: Fate)

  /** What happened to a flow, in order, with real times. `Exam` is one test of a packet against the target, with
      the total backlog left behind and the verdict. `Shed` is a packet dropped, or marked
      instead, because of a verdict. `Planned` is the setting of a time from which the next packet may be shed, with the
      count and the interval it was set by. `RanDry` is a test that found no packet, `EmptyPoll` a
      dequeue that found the flow empty from the start, and the mark then in force, and `Cleared` a reset. */
  datatype Event =
    | Exam(time: nat, pkt: Packet, left: int, p: Params, ok: bool)
    | Shed(time: nat, pkt: Packet, marked: bool)
    | Planned(due: nat, count: u32, interval: u32)
    | RanDry
    | EmptyPoll(mark: u32)
    | Cleared

  /** One flow together with the totals a dequeue touches. `log` and `departed` are history. */
  datatype Cell = Cell(queue: seq<Packet>, vars: Vars, backlog: int, qlen: int, total: int,
                       stats: Stats, drops: int, log: seq<Event>, departed: seq<Departure>)

  // ---------- the operations ----------

  /** Unlinks the head packet of the flow. */
  function TakeHead(c: Cell): (Cell, Option<Packet>) {
    if c.queue == [] then (c, None) else
      var pkt := c.queue[0];
      (c.(queue := c.queue[1..], backlog := c.backlog - pkt.len, qlen := c.qlen - 1), Some(pkt))
  }

  /** The verdict on a packet, or on the lack of one. */
  function ShouldDrop(c: Cell, skb: Option<Packet>, p: Params, now: nat): (Cell, bool) {
    match skb
    case None => (c.(vars := c.vars.(firstAbove := 0), log := c.log + [RanDry]), false)
    case Some(pkt) =>
      var ldelay := Wrap(Wrap(now) - Wrap(pkt.stamp));
      var total := c.total - pkt.len;
      var stats := if pkt.len > c.stats.maxpacket then c.stats.(maxpacket := pkt.len) else c.stats;
      var below := Before(ldelay, p.target) || total <= p.mtu;
      var firstAbove :=
        if below then 0
        else if c.vars.firstAbove == 0 then Wrap(Wrap(now) + p.interval)
        else c.vars.firstAbove;
      var ok := !below && c.vars.firstAbove != 0 && After(Wrap(now), c.vars.firstAbove);
      (c.(vars := c.vars.(ldelay := ldelay, firstAbove := firstAbove), total := total, stats := stats,
          log := c.log + [Exam(now, pkt, total, p, ok)]), ok)
  }

  /** Takes the next packet and passes the verdict on it. */
  function Fetch(c: Cell, p: Params, now: nat): (Cell, Option<Packet>, bool) {
    var (c1, skb) := TakeHead(c);
    var (c2, ok) := ShouldDrop(c1, skb, p, now);
    (c2, skb, ok)
  }

  function MarkPacket(c: Cell, pkt: Packet, now: nat): Cell {
    c.(stats := c.stats.(ecnMark := c.stats.ecnMark + 1), log := c.log + [Shed(now, pkt, true)])
  }

  function DropPacket(c: Cell, pkt: Packet, now: nat): Cell {
    c.(stats := c.stats.(dropLen := c.stats.dropLen + pkt.len, dropCount := c.stats.dropCount + 1),
       drops := c.drops + 1,
       log := c.log + [Shed(now, pkt, false)], departed := c.departed + [Departure(pkt, CodelDropped)])
  }

  /** `count++` and one Newton step. */
  function Quicken(v: Vars): Vars {
    var count := Wrap(v.count + 1);
    v.(count := count, rec := NewtonStep(count, v.rec))
  }

  function ScheduleNext(v: Vars, p: Params): Vars {
    v.(dropNext := ControlLaw(v.dropNext, p.interval, v.rec))
  }

  /** The real time last planned, of which `dropNext` keeps the low 32 bits. */
  function LastPlan(log: seq<Event>): nat {
    if log == [] then 0 else
      match log[|log| - 1]
      case Planned(due, _, _) => due
      case Cleared => 0
      case _ => LastPlan(log[..|log| - 1])
  }

  /** Plans the next drop of an episode. */
  function PlanNext(c: Cell, p: Params): Cell {
    c.(vars := ScheduleNext(c.vars, p),
       log := c.log + [Planned(LastPlan(c.log) + Advance(p.interval, c.vars.rec), c.vars.count, p.interval)])
  }

  predicate DueToDrop(v: Vars, now: nat) {
    v.dropping && AfterEq(Wrap(now), v.dropNext)
  }

  /** The loop that sheds packets while the schedule says another drop is due. */
  function DropLoop(c: Cell, pkt: Packet, p: Params, now: nat): (Cell, Option<Packet>)
    decreases |c.queue|
  {
    if !DueToDrop(c.vars, now) then (c, Some(pkt)) else
      var c1 := c.(vars := Quicken(c.vars));
      if p.ecn && pkt.ect then
        (PlanNext(MarkPacket(c1, pkt, now), p), Some(pkt))
      else
        var (c2, next, ok) := Fetch(DropPacket(c1, pkt, now), p, now);
        if ok then DropLoop(PlanNext(c2, p), next.value, p, now)
        else (c2.(vars := c2.vars.(dropping := false)), next)
  }

  /** The control variables on entering the dropping state. */
  function EnterDropping(v: Vars, p: Params, now: nat): Vars {
    var delta := Wrap(v.count - v.lastcount);
    var v1 :=
      if delta > 1 && Before(Wrap(Wrap(now) - v.dropNext), Wrap(16 * p.interval))
      then v.(count := delta, rec := NewtonStep(delta, v.rec))
      else v.(count := 1, rec := 0xFFFF);
    v1.(dropping := true, lastcount := v1.count, dropNext := ControlLaw(Wrap(now), p.interval, v1.rec))
  }

  /** Enters the dropping state and plans the next drop. */
  function Enter(c: Cell, p: Params, now: nat): Cell {
    var v := EnterDropping(c.vars, p, now);
    c.(vars := v, log := c.log + [Planned(now + Advance(p.interval, v.rec), v.count, p.interval)])
  }

  /** The first shedding of a dropping episode. */
  function FirstDrop(c: Cell, pkt: Packet, p: Params, now: nat): (Cell, Option<Packet>) {
    var (c1, skb) :=
      if p.ecn && pkt.ect then (MarkPacket(c, pkt, now), Some(pkt))
      else var f := Fetch(DropPacket(c, pkt, now), p, now); (f.0, f.1);
    (Enter(c1, p, now), skb)
  }

  /** The congestion mark for packets above the separate `ce_threshold`. */
  function CeCheck(c: Cell, skb: Option<Packet>, p: Params): Cell {
    if skb.Some? && After(c.vars.ldelay, p.ceThreshold) && skb.value.ect
    then c.(stats := c.stats.(ceMark := c.stats.ceMark + 1)) else c
  }

  /** What follows the verdict on the first packet of a dequeue. */
  function Act(c: Cell, pkt: Packet, ok: bool, p: Params, now: nat): (Cell, Option<Packet>) {
    if c.vars.dropping then
      if ok then DropLoop(c, pkt, p, now)
      else (c.(vars := c.vars.(dropping := false)), Some(pkt))
    else if ok then FirstDrop(c, pkt, p, now)
    else (c, Some(pkt))
  }

  /** `codel_dequeue`. */
  function Dequeue(c: Cell, p: Params, now: nat): (Cell, Option<Packet>) {
    if c.queue == [] then
      (c.(vars := c.vars.(dropping := false), log := c.log + [EmptyPoll(c.vars.firstAbove)]), None)
    else
      var (c1, skb, ok) := Fetch(c, p, now);
      var (c2, out) := Act(c1, skb.value, ok, p, now);
      (CeCheck(c2, out, p), out)
  }

  // ---------- the rate never exceeds the control law ----------

  predicate RateOk(v: Vars) {
    CurveInv(v.count, v.lastcount, v.rec)
  }

  lemma {:induction false} DropLoopKeepsRate(c: Cell, pkt: Packet, p: Params, now: nat)
    requires RateOk(c.vars)
    ensures RateOk(DropLoop(c, pkt, p, now).0.vars)
    decreases |c.queue|
  {
    if DueToDrop(c.vars, now) {
      IncrementKeepsCurve(c.vars.count, c.vars.lastcount, c.vars.rec);
      var c1 := c.(vars := Quicken(c.vars));
      if !(p.ecn && pkt.ect) {
        var (c2, next, ok) := Fetch(DropPacket(c1, pkt, now), p, now);
        if ok { DropLoopKeepsRate(PlanNext(c2, p), next.value, p, now); }
      }
    }
  }

  /** Over every run of dequeues, `count * rec^2 <= 2^32` and so every wait the control law
      adds is at most `interval / sqrt(count)`. */
  lemma DequeueKeepsRate(c: Cell, p: Params, now: nat)
    requires RateOk(c.vars)
    ensures var v := Dequeue(c, p, now).0.vars;
            RateOk(v) && OnCurve(v.count, v.rec)
            && v.count * (Advance(p.interval, v.rec) * Advance(p.interval, v.rec)) <= p.interval * p.interval
  {
    if c.queue != [] {
      var (c1, skb, ok) := Fetch(c, p, now);
      if c1.vars.dropping {
        if ok { DropLoopKeepsRate(c1, skb.value, p, now); }
      } else if ok {
        ReentryKeepsCurve(c1.vars.count, c1.vars.lastcount, c1.vars.rec);
      }
    }
    var v := Dequeue(c, p, now).0.vars;
    CurveInvMeansOnCurve(v.count, v.lastcount, v.rec);
    AdvanceBound(p.interval, v.count, v.rec);
  }
}
