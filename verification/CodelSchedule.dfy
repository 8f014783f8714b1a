/** When CoDel sheds, in real time: the log of a flow read as a course of dropping episodes. Nothing here depends on
    the wrapping clock or on the variables that drive the machine; the lemmas tie them to it. */
module CodelSchedule {
  import opened SerialTime
  import opened Newton
  import opened Codel

  // ---------- reading a log ----------

  /** Where the handling of a packet stands: nothing is pending; a packet has been condemned; it has been shed, as the
      first of an episode or a later one; the packet after it has been examined, if there was one; a plan has been
      made with which the dequeue ends. */
  datatype Stage =
    | Rest
    | Sentenced(time: nat, pkt: Packet, ecn: bool)
    | Gone(time: nat, marked: bool, first: bool)
    | Replaced(time: nat, first: bool, next: Option<Packet>, ok: bool, ecn: bool)
    | Set

  /** An episode is on or not. `due` is the time last planned, set under intervals the clock can measure if `sane`;
      `opening` the count the last episode opened with and `later` how many packets it shed after the first; `peak`
      the highest count since an episode opened with count 1, 0 before the first. */
  datatype Course = Course(open: bool, due: nat, sane: bool, opening: u32, later: nat, peak: nat, stage: Stage)

  const START := Course(false, 0, true, 0, 0, 0, Rest)

  function Max(a: nat, b: nat): nat {
    if a < b then b else a
  }

  /** What a test of the next packet leads to, if there is one. */
  function Tested(c: Course, next: Option<Packet>, time: nat, ok: bool, ecn: bool): Course {
    c.(open := c.open && ok,
       stage := if c.stage.Gone? then Replaced(c.stage.time, c.stage.first, next, ok, ecn)
                else if ok && next.Some? then Sentenced(time, next.value, ecn) else Rest)
  }

  function CourseAfter(c: Course, e: Event): Course {
    match e
    case EmptyPoll(_) => c.(open := false, stage := Rest)
    case Cleared => START
    case RanDry => Tested(c, None, 0, false, false)
    case Exam(time, pkt, _, p, ok) => Tested(c, Some(pkt), time, ok, p.ecn)
    case Shed(time, _, marked) =>
      if c.open then c.(later := c.later + 1, peak := Max(c.peak, c.opening + c.later + 1), stage := Gone(time, marked, false))
      else c.(stage := Gone(time, marked, true))
    case Planned(due, count, interval) =>
      if c.open then
        c.(due := due, sane := c.sane && interval <= HALF,
           stage := if c.stage.Replaced? && c.stage.next.Some?
                    then Sentenced(c.stage.time, c.stage.next.value, c.stage.ecn) else Set)
      else
        c.(open := true, due := due, sane := interval <= HALF, opening := count, later := 0,
           peak := if count == 1 then 1 else c.peak, stage := Set)
  }

  /** What the first `k` entries of a log come to. */
  function CourseAt(log: seq<Event>, k: nat): Course
    requires k <= |log|
  {
    if k == 0 then START else CourseAfter(CourseAt(log, k - 1), log[k - 1])
  }

  function CourseOf(log: seq<Event>): Course {
    CourseAt(log, |log|)
  }

  // ---------- what a log must be like ----------

  /** No condemned packet is in hand but one that is handed out because the next drop is still ahead; or so long
      overdue that the clock takes it to be. */
  predicate AtRest(c: Course) {
    match c.stage
    case Rest => true
    case Set => true
    case Sentenced(time, _, _) => c.open && (c.sane ==> time < c.due || time - c.due >= HALF)
    case Gone(_, _, _) => false
    case Replaced(_, first, _, ok, _) => !first && !ok
  }

  /** A wait set by a count: at most `interval / sqrt(count)`, and not much less than `interval / sqrt(2 * peak)`. */
  predicate Spaced(interval: u32, count: u32, peak: nat, wait: nat) {
    wait <= interval && count * (wait * wait) <= interval * interval && LongEnough(interval, peak, wait)
  }

  /** How an episode opens after its first packet has been shed at `time`. It starts with count 1, and then waits for
      an interval, but for a 65536th; or goes on with as many as the last one shed later, if that were more than one
      and this is less than 16 intervals after what was planned last. */
  predicate Opens(c: Course, time: nat, due: nat, count: u32, interval: u32) {
    && time <= due
    && (count != 1 ==> 1 < count == Wrap(c.later))
    && (count == 1 ==> 0xFFFF * interval < 0x1_0000 * (due - time + 1))
    && Spaced(interval, count, if count == 1 then 1 else c.peak, due - time)
    && var lull := time - c.due;
       (-HALF <= 16 * interval - lull < HALF ==> (count != 1 <==> 1 < Wrap(c.later) && lull < 16 * interval))
  }

  /** How an episode goes on: the count has risen by one with each packet shed, and the wait runs from what was
      planned last. */
  predicate GoesOn(c: Course, due: nat, count: u32, interval: u32) {
    c.due <= due && count == Wrap(c.opening + c.later) && Spaced(interval, count, c.peak, due - c.due)
  }

  /** What may come next. A packet is shed only right after it was condemned, by a mark if marking was on
      and the packet accepts one; a condemned packet is shed unless it may rest; the next is
      examined after one has been dropped; and a plan is made after every one shed while the episode lasts. */
  predicate InTurn(c: Course, e: Event) {
    match e
    case EmptyPoll(_) => AtRest(c)
    case Cleared => AtRest(c)
    case RanDry => c.stage.Gone? && !c.stage.marked
    case Exam(time, _, _, _, _) => AtRest(c) || (c.stage.Gone? && !c.stage.marked && c.stage.time == time)
    case Shed(time, pkt, marked) =>
      c.stage.Sentenced? && c.stage.time == time && c.stage.pkt == pkt && marked == (c.stage.ecn && pkt.ect)
    case Planned(_, _, _) =>
      match c.stage
      case Gone(_, marked, first) => marked && (!first ==> c.open)
      case Replaced(_, first, _, ok, _) => !first ==> ok && c.open
      case _ => false
  }

  /** And when. A later packet of an episode is not shed before the time planned for it, and plans are spaced as the
      counts say. */
  predicate InTime(c: Course, e: Event) {
    match e
    case Shed(time, _, _) => c.open && c.sane ==> c.due <= time
    case Planned(due, count, interval) =>
      (c.stage.Gone? || c.stage.Replaced?)
      && if c.stage.first then Opens(c, c.stage.time, due, count, interval) else GoesOn(c, due, count, interval)
    case _ => true
  }

  predicate Admissible(c: Course, e: Event) {
    InTurn(c, e) && InTime(c, e)
  }

  predicate InTurnAt(log: seq<Event>, k: nat)
    requires k < |log|
  {
    InTurn(CourseAt(log, k), log[k])
  }

  predicate AdmissibleAt(log: seq<Event>, k: nat)
    requires k < |log|
  {
    Admissible(CourseAt(log, k), log[k])
  }

  ghost predicate AllInTurn(log: seq<Event>) {
    forall k :: 0 <= k < |log| ==> InTurnAt(log, k)
  }

  ghost predicate AllAdmissible(log: seq<Event>) {
    forall k :: 0 <= k < |log| ==> AdmissibleAt(log, k)
  }

  // ---------- the machine follows ----------

  /** The variables keep, in 32 bits, what the course says. */
  predicate Numbers(v: Vars, c: Course, now: nat) {
    && v.dropNext == Wrap(c.due) && v.lastcount == c.opening && v.count == Wrap(c.opening + c.later)
    && NotFarBelow(c.peak, v.rec) && (c.peak == 0 ==> c.later == 0 && !c.open)
    && (c.sane ==> c.due <= now + HALF)
  }

  predicate Follows(v: Vars, c: Course, now: nat) {
    Numbers(v, c, now) && v.dropping == c.open
  }

  /** The log has been admissible so far and comes to `c`. */
  ghost predicate Reads(log: seq<Event>, c: Course) {
    AllAdmissible(log) && CourseOf(log) == c
  }

  ghost predicate OnSchedule(log: seq<Event>, v: Vars, now: nat) {
    Reads(log, CourseOf(log)) && AtRest(CourseOf(log)) && Follows(v, CourseOf(log), now)
  }

  lemma {:induction false} CourseAppend(log: seq<Event>, e: Event, k: nat)
    requires k <= |log|
    ensures CourseAt(log + [e], k) == CourseAt(log, k)
  {
    if k > 0 { CourseAppend(log, e, k - 1); }
  }

  lemma ReadsOn(log: seq<Event>, c: Course, e: Event)
    requires Reads(log, c) && Admissible(c, e)
    ensures Reads(log + [e], CourseAfter(c, e))
  {
    var l := log + [e];
    CourseAppend(log, e, |log|);
    forall k | 0 <= k < |l| ensures AdmissibleAt(l, k) {
      if k < |log| {
        CourseAppend(log, e, k);
        assert AdmissibleAt(log, k);
      }
    }
  }

  lemma {:induction false} LastPlanIsDue(log: seq<Event>)
    ensures LastPlan(log) == CourseOf(log).due
  {
    if log != [] {
      var l := log[..|log| - 1];
      LastPlanIsDue(l);
      assert log == l + [log[|l|]];
      CourseAppend(l, log[|l|], |l|);
    }
  }

  lemma LaterIsFine(log: seq<Event>, v: Vars, now: nat, later: nat)
    requires OnSchedule(log, v, now) && now <= later
    ensures OnSchedule(log, v, later)
  {
  }

  // ---------- the parts of a dequeue ----------

  /** The comparison with the time planned, in real time. */
  lemma DueInRealTime(due: nat, now: nat)
    requires due <= now + HALF
    ensures AfterEq(Wrap(now), Wrap(due)) ==> due <= now
    ensures !AfterEq(Wrap(now), Wrap(due)) ==> now < due || now - due >= HALF
  {
    if now - due < HALF { SerialOrder(now, due); }
  }

  lemma SumWraps(a: int, b: int)
    ensures Wrap(Wrap(a) + b) == Wrap(a + b)
  {
    var q := a / WRAP;
    assert Wrap(a) + b == (a + b) + (-q) * WRAP;
    WrapShift(a + b, -q);
  }

  /** The estimate after one more has been shed. */
  lemma QuickenNear(v: Vars, peak: nat, more: nat)
    requires RateOk(v) && NotFarBelow(peak, v.rec) && 0 < peak <= more && Wrap(v.count + 1) <= more
    ensures RateOk(Quicken(v)) && NotFarBelow(more, Quicken(v).rec)
  {
    IncrementKeepsCurve(v.count, v.lastcount, v.rec);
    IncrementJustAbove(v.count, v.lastcount, v.rec);
    StepKeepsNear(peak, Wrap(v.count + 1), v.rec, more);
  }

  lemma WrapAtMost(x: nat)
    ensures Wrap(x) <= x
  {
  }

  /** The numbers after one more has been shed. */
  lemma QuickenFollows(v: Vars, c: Course, now: nat, pkt: Packet, marked: bool)
    requires Numbers(v, c, now) && c.open && RateOk(v)
    ensures Numbers(Quicken(v), CourseAfter(c, Shed(now, pkt, marked)), now) && RateOk(Quicken(v))
  {
    var more := Max(c.peak, c.opening + c.later + 1);
    SumWraps(c.opening + c.later, 1);
    WrapAtMost(c.opening + c.later + 1);
    QuickenNear(v, c.peak, more);
  }

  lemma IncrementJustAbove(count: u32, lastcount: u32, rec: u16)
    requires CurveInv(count, lastcount, rec)
    ensures Wrap(count + 1) * (rec * rec) <= N + rec * rec
  {
    CurveInvMeansOnCurve(count, lastcount, rec);
    SquareMono(0, rec);
    if count == WRAP - 1 {
      WrapUnique(count + 1, 1, 0);
    } else {
      WrapUnique(count + 1, 0, count + 1);
      assert (count + 1) * (rec * rec) == count * (rec * rec) + rec * rec;
    }
  }

  lemma WaitIsSpaced(interval: u32, count: u32, peak: nat, rec: u16)
    requires OnCurve(count, rec) && 0 < peak && NotFarBelow(peak, rec)
    ensures Spaced(interval, count, peak, Advance(interval, rec))
  {
    AdvanceBound(interval, count, rec);
    AdvanceLongEnough(interval, peak, rec);
    ScaleBound(interval, rec);
  }

  /** The plan after one more has been shed. */
  lemma NextPlan(v: Vars, c: Course, p: Params, now: nat)
    requires Numbers(v, c, now) && c.open && RateOk(v) && (c.sane ==> c.due <= now)
    ensures var due := c.due + Advance(p.interval, v.rec);
            && GoesOn(c, due, v.count, p.interval)
            && ScheduleNext(v, p).dropNext == Wrap(due)
            && (c.sane && p.interval <= HALF ==> due <= now + HALF)
  {
    CurveInvMeansOnCurve(v.count, v.lastcount, v.rec);
    WaitIsSpaced(p.interval, v.count, c.peak, v.rec);
    SumWraps(c.due, Advance(p.interval, v.rec));
  }

  /** The numbers an episode opens with. */
  lemma OpeningCount(v: Vars, c: Course, p: Params, now: nat)
    requires Numbers(v, c, now) && RateOk(v)
    ensures var w := EnterDropping(v, p, now);
            && (w.count != 1 ==> 1 < w.count == Wrap(c.later) && 0 < c.peak)
            && w.lastcount == w.count && w.dropping && RateOk(w)
            && (w.count == 1 ==> w.rec == 0xFFFF)
            && NotFarBelow(if w.count == 1 then 1 else c.peak, w.rec)
  {
    var delta := Wrap(v.count - v.lastcount);
    DeltaIsLater(c.opening, c.later);
    ReentryKeepsCurve(v.count, v.lastcount, v.rec);
    FullAdvance(p.interval);
    if delta > 1 {
      WrapUnique(0, 0, 0);
      DeltaFromBelow(v.count, v.lastcount, v.rec, delta);
      NearMono(c.peak, v.rec, c.peak, NewtonStep(delta, v.rec));
    }
  }

  lemma DeltaIsLater(opening: u32, later: nat)
    ensures Wrap(Wrap(opening + later) - opening) == Wrap(later)
  {
    var o: int := opening;
    SumWraps(o + later, -o);
  }

  lemma DeltaFromBelow(count: u32, lastcount: u32, rec: u16, delta: u32)
    requires CurveInv(count, lastcount, rec) && delta == Wrap(count - lastcount) && delta > 1
    ensures NewtonStep(delta, rec) >= rec
  {
    SquareMono(0, rec);
    if rec <= 1 {
      MulMono(rec * rec, 1, delta);
    } else {
      WrapUnique(count - lastcount, 0, count - lastcount);
      MulMono(delta, count, rec * rec);
    }
    StepReturnsToCurve(delta, rec);
    StepFromBelow(delta, rec);
  }

  /** Whether the rate of the last episode is taken up, in real time. */
  lemma ResumesInTime(interval: u32, now: nat, due: nat)
    requires -HALF <= 16 * interval - (now - due) < HALF
    ensures Before(Wrap(Wrap(now) - Wrap(due)), Wrap(16 * interval)) <==> now - due < 16 * interval
  {
    WrapDifference(now, due);
    SerialOrder(16 * interval, now - due);
  }

  /** The plan an episode opens with. */
  lemma FirstPlan(v: Vars, c: Course, p: Params, now: nat)
    requires Numbers(v, c, now) && RateOk(v)
    ensures var w := EnterDropping(v, p, now);
            var due := now + Advance(p.interval, w.rec);
            && Opens(c, now, due, w.count, p.interval)
            && w.dropNext == Wrap(due) && (p.interval <= HALF ==> due <= now + HALF)
  {
    var w := EnterDropping(v, p, now);
    OpeningCount(v, c, p, now);
    OpeningResumes(v, c, p, now);
    CurveInvMeansOnCurve(w.count, w.lastcount, w.rec);
    WaitIsSpaced(p.interval, w.count, if w.count == 1 then 1 else c.peak, w.rec);
    FullAdvance(p.interval);
    SumWraps(now, Advance(p.interval, w.rec));
  }

  lemma OpeningResumes(v: Vars, c: Course, p: Params, now: nat)
    requires Numbers(v, c, now)
    ensures var lull := now - c.due;
            -HALF <= 16 * p.interval - lull < HALF
            ==> (EnterDropping(v, p, now).count != 1 <==> 1 < Wrap(c.later) && lull < 16 * p.interval)
  {
    DeltaIsLater(c.opening, c.later);
    if -HALF <= 16 * p.interval - (now - c.due) < HALF { ResumesInTime(p.interval, now, c.due); }
  }

  // ---------- a dequeue ----------

  /** The cell's log comes to `c`, its numbers agree, and its rate is in order; `dropping` is another matter. */
  ghost predicate Tracks(cell: Cell, c: Course, now: nat) {
    Reads(cell.log, c) && Numbers(cell.vars, c, now) && RateOk(cell.vars)
  }

  lemma NoteTracks(cell: Cell, c: Course, e: Event, cell': Cell, now: nat)
    requires Tracks(cell, c, now) && Admissible(c, e) && cell'.log == cell.log + [e]
    requires Numbers(cell'.vars, CourseAfter(c, e), now) && RateOk(cell'.vars)
    ensures Tracks(cell', CourseAfter(c, e), now)
  {
    ReadsOn(cell.log, c, e);
  }

  lemma TestKeepsNumbers(v: Vars, w: Vars, c: Course, e: Event, now: nat)
    requires Numbers(v, c, now) && RateOk(v) && (e.Exam? || e.RanDry?)
    requires w == v.(ldelay := w.ldelay, firstAbove := w.firstAbove)
    ensures Numbers(w, CourseAfter(c, e), now) && RateOk(w)
  {
  }

  function CourseTested(c: Course, skb: Option<Packet>, now: nat, ok: bool, p: Params): Course {
    if skb.Some? then Tested(c, skb, now, ok, p.ecn) else Tested(c, None, 0, false, false)
  }

  lemma FetchTracks(cell: Cell, p: Params, now: nat, c: Course) returns (d: Course)
    requires Tracks(cell, c, now)
    requires (AtRest(c) && cell.queue != []) || (c.stage.Gone? && !c.stage.marked && c.stage.time == now)
    ensures var (cell', skb, ok) := Fetch(cell, p, now);
            && d == CourseTested(c, skb, now, ok, p) && Tracks(cell', d, now) && cell'.vars.dropping == cell.vars.dropping
            && (skb.Some? ==> |cell'.queue| < |cell.queue|) && (ok ==> skb.Some?)
  {
    var (cell', skb, ok) := Fetch(cell, p, now);
    var e := cell'.log[|cell.log|];
    assert cell'.log == cell.log + [e];
    TestKeepsNumbers(cell.vars, cell'.vars, c, e, now);
    d := CourseAfter(c, e);
    NoteTracks(cell, c, e, cell', now);
  }

  lemma ShedTracks(cell: Cell, pkt: Packet, p: Params, now: nat, c: Course, marked: bool) returns (d: Course)
    requires Tracks(cell, c, now) && c.open && c.stage == Sentenced(now, pkt, p.ecn) && DueToDrop(cell.vars, now)
    requires marked == (p.ecn && pkt.ect)
    ensures d == CourseAfter(c, Shed(now, pkt, marked))
    ensures var c1 := cell.(vars := Quicken(cell.vars));
            Tracks(if marked then MarkPacket(c1, pkt, now) else DropPacket(c1, pkt, now), d, now)
    ensures d.sane ==> d.due <= now
  {
    d := CourseAfter(c, Shed(now, pkt, marked));
    if c.sane { DueInRealTime(c.due, now); }
    ReadsOn(cell.log, c, Shed(now, pkt, marked));
    QuickenFollows(cell.vars, c, now, pkt, marked);
  }

  lemma PlanNumbers(v: Vars, c: Course, p: Params, now: nat, e: Event)
    requires Numbers(v, c, now) && RateOk(v) && c.open && (c.sane ==> c.due <= now)
    requires e == Planned(c.due + Advance(p.interval, v.rec), v.count, p.interval)
    ensures GoesOn(c, e.due, e.count, e.interval)
    ensures Numbers(ScheduleNext(v, p), CourseAfter(c, e), now) && RateOk(ScheduleNext(v, p))
  {
    NextPlan(v, c, p, now);
  }

  lemma PlanTracks(cell: Cell, p: Params, now: nat, c: Course) returns (d: Course)
    requires Tracks(cell, c, now) && c.open && (c.sane ==> c.due <= now)
    requires (c.stage.Gone? && c.stage.marked && !c.stage.first)
             || (c.stage.Replaced? && !c.stage.first && c.stage.ok && c.stage.next.Some?)
    ensures Tracks(PlanNext(cell, p), d, now) && d.open
    ensures d.stage == if c.stage.Gone? then Set else Sentenced(c.stage.time, c.stage.next.value, c.stage.ecn)
  {
    LastPlanIsDue(cell.log);
    var e := Planned(c.due + Advance(p.interval, cell.vars.rec), cell.vars.count, p.interval);
    PlanNumbers(cell.vars, c, p, now, e);
    d := CourseAfter(c, e);
    NoteTracks(cell, c, e, PlanNext(cell, p), now);
  }

  /** How a dequeue ends: an episode that is on has just been planned further, or its next drop is ahead. */
  predicate EndsWell(c: Course, now: nat) {
    && AtRest(c)
    && (c.open ==> c.stage.Set? || (c.stage.Sentenced? && c.stage.time == now
                                    && (c.sane ==> now < c.due || now - c.due >= HALF)))
  }

  lemma LoopStops(v: Vars, c: Course, now: nat)
    requires Numbers(v, c, now) && v.dropping && c.open && c.stage.Sentenced? && c.stage.time == now && !DueToDrop(v, now)
    ensures EndsWell(c, now)
  {
    if c.sane { DueInRealTime(c.due, now); }
  }

  lemma LoopMarks(cell: Cell, pkt: Packet, p: Params, now: nat, c: Course) returns (d: Course)
    requires Tracks(cell, c, now) && c.open && c.stage == Sentenced(now, pkt, p.ecn) && DueToDrop(cell.vars, now)
    requires p.ecn && pkt.ect
    ensures var cell' := PlanNext(MarkPacket(cell.(vars := Quicken(cell.vars)), pkt, now), p);
            Tracks(cell', d, now) && d.open && d.stage == Set && cell'.vars.dropping
  {
    var c1 := ShedTracks(cell, pkt, p, now, c, true);
    d := PlanTracks(MarkPacket(cell.(vars := Quicken(cell.vars)), pkt, now), p, now, c1);
  }

  lemma LoopDrops(cell: Cell, pkt: Packet, p: Params, now: nat, c: Course) returns (d: Course)
    requires Tracks(cell, c, now) && c.open && c.stage == Sentenced(now, pkt, p.ecn) && DueToDrop(cell.vars, now)
    requires !(p.ecn && pkt.ect)
    ensures var (cell2, next, ok) := Fetch(DropPacket(cell.(vars := Quicken(cell.vars)), pkt, now), p, now);
            var cell' := PlanNext(cell2, p);
            && (ok ==> next.Some? && Tracks(cell', d, now) && d.open && d.stage == Sentenced(now, next.value, p.ecn)
                       && cell'.vars.dropping && |cell'.queue| < |cell.queue|)
            && (!ok ==> Tracks(cell2, d, now) && !d.open && AtRest(d))
  {
    var c1 := ShedTracks(cell, pkt, p, now, c, false);
    var dropped := DropPacket(cell.(vars := Quicken(cell.vars)), pkt, now);
    d := FetchTracks(dropped, p, now, c1);
    var (cell2, next, ok) := Fetch(dropped, p, now);
    if ok { d := PlanTracks(cell2, p, now, d); }
  }

  lemma NotDropping(cell: Cell, c: Course, now: nat)
    requires Tracks(cell, c, now)
    ensures Tracks(cell.(vars := cell.vars.(dropping := false)), c, now)
  {
  }

  lemma {:induction false} DropLoopTracks(cell: Cell, pkt: Packet, p: Params, now: nat, c: Course) returns (d: Course)
    requires Tracks(cell, c, now) && c.open && cell.vars.dropping && c.stage == Sentenced(now, pkt, p.ecn)
    ensures var cell' := DropLoop(cell, pkt, p, now).0;
            Tracks(cell', d, now) && cell'.vars.dropping == d.open && EndsWell(d, now)
    decreases |cell.queue|
  {
    if !DueToDrop(cell.vars, now) {
      d := c;
      LoopStops(cell.vars, c, now);
    } else if p.ecn && pkt.ect {
      d := LoopMarks(cell, pkt, p, now, c);
    } else {
      d := LoopDrops(cell, pkt, p, now, c);
      var (cell2, next, ok) := Fetch(DropPacket(cell.(vars := Quicken(cell.vars)), pkt, now), p, now);
      if ok { d := DropLoopTracks(PlanNext(cell2, p), next.value, p, now, d); } else { NotDropping(cell2, d, now); }
    }
  }

  lemma EnterNumbers(v: Vars, c: Course, p: Params, now: nat, e: Event)
    requires Numbers(v, c, now) && RateOk(v) && !c.open
    requires var w := EnterDropping(v, p, now); e == Planned(now + Advance(p.interval, w.rec), w.count, p.interval)
    ensures Opens(c, now, e.due, e.count, e.interval)
    ensures Numbers(EnterDropping(v, p, now), CourseAfter(c, e), now) && RateOk(EnterDropping(v, p, now))
    ensures EnterDropping(v, p, now).dropping
  {
    FirstPlan(v, c, p, now);
    OpeningCount(v, c, p, now);
    var w := EnterDropping(v, p, now);
    WrapUnique(w.count, 0, w.count);
  }

  lemma EnterTracks(cell: Cell, p: Params, now: nat, c: Course) returns (d: Course)
    requires Tracks(cell, c, now) && !c.open
    requires (c.stage.Gone? && c.stage.marked && c.stage.first && c.stage.time == now)
             || (c.stage.Replaced? && c.stage.first && c.stage.time == now)
    ensures Tracks(Enter(cell, p, now), d, now) && d.open && d.stage == Set && Enter(cell, p, now).vars.dropping
  {
    var w := EnterDropping(cell.vars, p, now);
    var e := Planned(now + Advance(p.interval, w.rec), w.count, p.interval);
    EnterNumbers(cell.vars, c, p, now, e);
    d := CourseAfter(c, e);
    NoteTracks(cell, c, e, Enter(cell, p, now), now);
  }

  lemma FirstDropTracks(cell: Cell, pkt: Packet, p: Params, now: nat, c: Course) returns (d: Course)
    requires Tracks(cell, c, now) && !c.open && c.stage == Sentenced(now, pkt, p.ecn)
    ensures var cell' := FirstDrop(cell, pkt, p, now).0;
            Tracks(cell', d, now) && cell'.vars.dropping == d.open && EndsWell(d, now)
  {
    var marked := p.ecn && pkt.ect;
    ReadsOn(cell.log, c, Shed(now, pkt, marked));
    var c1 := CourseAfter(c, Shed(now, pkt, marked));
    if marked {
      d := EnterTracks(MarkPacket(cell, pkt, now), p, now, c1);
    } else {
      var c2 := FetchTracks(DropPacket(cell, pkt, now), p, now, c1);
      d := EnterTracks(Fetch(DropPacket(cell, pkt, now), p, now).0, p, now, c2);
    }
  }

  lemma ActTracks(cell: Cell, pkt: Packet, ok: bool, p: Params, now: nat, c: Course) returns (d: Course)
    requires Tracks(cell, c, now)
    requires if ok then cell.vars.dropping == c.open && c.stage == Sentenced(now, pkt, p.ecn) else !c.open && c.stage == Rest
    ensures var cell' := Act(cell, pkt, ok, p, now).0;
            Tracks(cell', d, now) && cell'.vars.dropping == d.open && EndsWell(d, now)
  {
    if !ok { d := c; }
    else if c.open { d := DropLoopTracks(cell, pkt, p, now, c); }
    else { d := FirstDropTracks(cell, pkt, p, now, c); }
  }

  lemma EndsOnSchedule(cell: Cell, c: Course, now: nat, log: seq<Event>, v: Vars)
    requires Tracks(cell, c, now) && cell.vars.dropping == c.open && EndsWell(c, now) && log == cell.log && v == cell.vars
    ensures OnSchedule(log, v, now) && EndsWell(CourseOf(log), now)
  {
  }

  lemma PollTracks(cell: Cell, p: Params, now: nat, c: Course) returns (d: Course)
    requires Tracks(cell, c, now) && cell.vars.dropping == c.open && AtRest(c) && cell.queue != []
    ensures var (cell1, skb, ok) := Fetch(cell, p, now);
            var cell' := Act(cell1, skb.value, ok, p, now).0;
            Tracks(cell', d, now) && cell'.vars.dropping == d.open && EndsWell(d, now)
  {
    var c1 := FetchTracks(cell, p, now, c);
    var (cell1, skb, ok) := Fetch(cell, p, now);
    d := ActTracks(cell1, skb.value, ok, p, now, c1);
  }

  /** A dequeue keeps to the schedule. When it leaves the flow dropping, what it planned is ahead of the clock, or it
      ended with a plan made right after the first packet of an episode or after a mark. */
  lemma DequeueKeepsSchedule(cell: Cell, p: Params, now: nat)
    requires OnSchedule(cell.log, cell.vars, now) && RateOk(cell.vars)
    ensures var cell' := Dequeue(cell, p, now).0;
            OnSchedule(cell'.log, cell'.vars, now) && EndsWell(CourseOf(cell'.log), now)
  {
    var cell' := Dequeue(cell, p, now).0;
    if cell.queue == [] {
      EmptyTracks(cell, p, now);
    } else {
      var d := PollTracks(cell, p, now, CourseOf(cell.log));
      var (cell1, skb, ok) := Fetch(cell, p, now);
      EndsOnSchedule(Act(cell1, skb.value, ok, p, now).0, d, now, cell'.log, cell'.vars);
    }
  }

  lemma EmptyTracks(cell: Cell, p: Params, now: nat)
    requires OnSchedule(cell.log, cell.vars, now) && RateOk(cell.vars) && cell.queue == []
    ensures var cell' := Dequeue(cell, p, now).0;
            OnSchedule(cell'.log, cell'.vars, now) && EndsWell(CourseOf(cell'.log), now)
  {
    var c, e := CourseOf(cell.log), EmptyPoll(cell.vars.firstAbove);
    var cell' := Dequeue(cell, p, now).0;
    NoteTracks(cell, c, e, cell', now);
    EndsOnSchedule(cell', CourseAfter(c, e), now, cell'.log, cell'.vars);
  }

  /** A reset starts the course afresh. */
  lemma ClearedSchedule(log: seq<Event>, v: Vars, now: nat)
    requires OnSchedule(log, v, now)
    ensures OnSchedule(log + [Cleared], InitialVars, now)
  {
    ReadsOn(log, CourseOf(log), Cleared);
  }

  // ---------- what admissible logs are like ----------

  /** Nothing between entries `k` and `j` ends an episode. */
  ghost predicate SameEpisode(log: seq<Event>, k: nat, j: nat) {
    k < j <= |log| && forall m :: k < m < j ==> GoesOnWith(log[m])
  }

  predicate GoesOnWith(e: Event) {
    !e.EmptyPoll? && !e.RanDry? && !e.Cleared? && (e.Exam? ==> e.ok)
  }

  /** Entries `k` and `j` are plans of one episode, with none in between, or `j` is where the log has got to. */
  ghost predicate NoPlanBetween(log: seq<Event>, k: nat, j: nat) {
    k < j <= |log| && forall m :: k < m < j ==> !log[m].Planned?
  }

  /** The packets shed between two entries. */
  function ShedBetween(log: seq<Event>, k: nat, j: nat): nat
    requires k <= j <= |log|
    decreases j - k
  {
    if k == j then 0 else ShedBetween(log, k, j - 1) + if log[j - 1].Shed? then 1 else 0
  }

  lemma {:induction false} PlanHolds(log: seq<Event>, k: nat, j: nat)
    requires k < |log| && log[k].Planned? && SameEpisode(log, k, j) && NoPlanBetween(log, k, j)
    ensures var c, d := CourseAt(log, k + 1), CourseAt(log, j);
            c.open && d.open && d.due == c.due == log[k].due && d.sane == c.sane && d.opening == c.opening
            && d.later == c.later + ShedBetween(log, k + 1, j)
    decreases j
  {
    if j > k + 1 {
      PlanHolds(log, k, j - 1);
    }
  }

  /** Entry `i` is the first packet shed in an episode, of which nothing has been planned up to `k`. */
  ghost predicate FirstShed(log: seq<Event>, i: nat, k: nat) {
    && i < k <= |log| && log[i].Shed? && !CourseAt(log, i).open
    && forall m :: i < m < k ==> !log[m].Shed? && !log[m].Planned? && !log[m].Cleared?
  }

  /** The first packet of an episode has been shed at `time`, and nothing has been planned since. */
  predicate Unplanned(c: Course, time: nat) {
    !c.open && (c.stage.Gone? || c.stage.Replaced?) && c.stage.first && c.stage.time == time
  }

  lemma UnplannedStep(c: Course, e: Event, time: nat)
    requires Unplanned(c, time) && InTurn(c, e) && !e.Shed? && !e.Planned? && !e.Cleared?
    ensures var d := CourseAfter(c, e); Unplanned(d, time) && d.due == c.due && d.later == c.later && d.peak == c.peak
  {
  }

  lemma {:induction false} StillFirst(log: seq<Event>, i: nat, k: nat)
    requires AllInTurn(log) && FirstShed(log, i, k)
    ensures var b, c := CourseAt(log, i), CourseAt(log, k);
            Unplanned(c, log[i].time) && c.due == b.due && c.later == b.later && c.peak == b.peak
    decreases k
  {
    if k > i + 1 {
      StillFirst(log, i, k - 1);
      assert InTurnAt(log, k - 1);
      UnplannedStep(CourseAt(log, k - 1), log[k - 1], log[i].time);
    }
  }

  lemma TurnsAreKept(log: seq<Event>)
    requires AllAdmissible(log)
    ensures AllInTurn(log)
  {
    forall k | 0 <= k < |log| ensures InTurnAt(log, k) { assert AdmissibleAt(log, k); }
  }

  /** The plan an episode opens with: from the time of its first packet, or from scratch and then a whole interval but
      for a 65536th. */
  lemma OpeningIsPlanned(log: seq<Event>, i: nat, k: nat)
    requires AllAdmissible(log) && FirstShed(log, i, k) && k < |log| && log[k].Planned?
    ensures Opens(CourseAt(log, i), log[i].time, log[k].due, log[k].count, log[k].interval)
  {
    TurnsAreKept(log);
    StillFirst(log, i, k);
    assert AdmissibleAt(log, k);
  }

  /** Entry `k` is a plan, and up to `j` the episode has gone on without another. */
  ghost predicate LastPlanned(log: seq<Event>, k: nat, j: nat) {
    k < j < |log| && log[k].Planned? && SameEpisode(log, k, j) && NoPlanBetween(log, k, j)
  }

  /** No later packet of an episode is shed before the time planned for it, if the clock can measure the intervals. */
  lemma NeverBeforePlan(log: seq<Event>, k: nat, j: nat)
    requires AllAdmissible(log) && LastPlanned(log, k, j) && log[j].Shed? && CourseAt(log, k + 1).sane
    ensures log[k].due <= log[j].time
  {
    PlanHolds(log, k, j);
    assert AdmissibleAt(log, j);
  }

  /** After the first packet of an episode that starts from scratch, the next is shed no earlier than an interval
      later, but for a 65536th of it. */
  lemma SecondShedWaits(log: seq<Event>, i: nat, k: nat, j: nat)
    requires AllAdmissible(log) && FirstShed(log, i, k) && LastPlanned(log, k, j) && log[j].Shed?
    requires log[k].count == 1 && log[k].interval <= HALF
    ensures 0xFFFF * log[k].interval < 0x1_0000 * (log[j].time - log[i].time + 1)
  {
    TurnsAreKept(log);
    StillFirst(log, i, k);
    OpeningIsPlanned(log, i, k);
    NeverBeforePlan(log, k, j);
  }

  /** The count of a plan is the one the episode opened with and one more for each packet it shed later. */
  lemma CountAtPlan(log: seq<Event>, k: nat)
    requires AllAdmissible(log) && k < |log| && log[k].Planned?
    ensures var c := CourseAt(log, k + 1); log[k].count == Wrap(c.opening + c.later)
  {
    assert AdmissibleAt(log, k);
    WrapUnique(log[k].count, 0, log[k].count);
    TurnsAreKept(log);
    StageMatches(log, k);
  }

  /** What is pending in an episode that is on has to do with a later packet. */
  predicate Matching(c: Course) {
    match c.stage
    case Gone(_, _, first) => first == !c.open
    case Replaced(_, first, _, ok, _) => if first then !c.open else c.open == ok
    case _ => true
  }

  lemma {:induction false} StageMatches(log: seq<Event>, k: nat)
    requires AllInTurn(log) && k <= |log|
    ensures Matching(CourseAt(log, k))
  {
    if k > 0 {
      StageMatches(log, k - 1);
      assert InTurnAt(log, k - 1);
    }
  }

  /** What is planned next in an episode is as far from what was planned before as the new count says, which has grown
      by the packets shed in between. */
  lemma PlansApart(log: seq<Event>, k: nat, j: nat)
    requires AllAdmissible(log) && LastPlanned(log, k, j) && log[j].Planned?
    ensures log[k].due <= log[j].due
    ensures log[j].count == Wrap(log[k].count + ShedBetween(log, k + 1, j))
    ensures Spaced(log[j].interval, log[j].count, CourseAt(log, j).peak, log[j].due - log[k].due)
  {
    PlanHolds(log, k, j);
    CountAtPlan(log, k);
    PlanGoesOn(log, k, j);
    var c := CourseAt(log, k + 1);
    SumWraps(c.opening + c.later, ShedBetween(log, k + 1, j));
  }

  lemma PlanGoesOn(log: seq<Event>, k: nat, j: nat)
    requires AllAdmissible(log) && LastPlanned(log, k, j) && log[j].Planned?
    ensures GoesOn(CourseAt(log, j), log[j].due, log[j].count, log[j].interval)
  {
    PlanHolds(log, k, j);
    TurnsAreKept(log);
    StageMatches(log, j);
    assert AdmissibleAt(log, j);
  }

  /** A condemned packet is shed at once; unless it was only examined in the place of one just shed, whose consequences
      are planned first, or the episode is on and its next drop still ahead. */
  lemma VerdictIsHeeded(log: seq<Event>, k: nat)
    requires AllInTurn(log) && k + 1 < |log| && log[k].Exam? && log[k].ok
    ensures var c, e := CourseAt(log, k), log[k + 1];
            || (e.Shed? && e.time == log[k].time && e.pkt == log[k].pkt)
            || (e.Planned? && k > 0 && log[k - 1].Shed?)
            || (c.open && (c.sane ==> log[k].time < c.due || log[k].time - c.due >= HALF))
  {
    assert InTurnAt(log, k);
    assert InTurnAt(log, k + 1);
      }
}
