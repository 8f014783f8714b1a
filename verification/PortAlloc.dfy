/** Port numbers: searching for one that has not been used lately, and handing it out. */
module PortAlloc {

  const IN_USE: int := 0x7FFF_FFFF_FFFF_FFFF
  const NONE: nat := 0xFFFF
  const LIMIT: nat := 0x8000
  const HOUR: int := 60 * 60 * 1000

  /** `usage` holds when a number was last used, in milliseconds, and `IN_USE` for those in use; `at` is where the
      last search ended. */
  datatype Ports = Ports(maxPorts: nat, at: nat, usage: map<nat, int>)

  /** 0 stands for a number that was never used. */
  function Usage(s: Ports, p: nat): int {
    if p in s.usage then s.usage[p] else 0
  }

  /** Searches cover the numbers from 1 to this one. */
  function Top(s: Ports): (n: nat)
    ensures 1 <= n < LIMIT
  {
    var end := if s.maxPorts < LIMIT then s.maxPorts else LIMIT;
    if end <= 2 then 1 else end - 1
  }

  predicate Inside(s: Ports) {
    1 <= s.at <= Top(s)
  }

  predicate InRange(s: Ports, p: nat) {
    1 <= p <= Top(s)
  }

  /** When a search looks at its `k`-th number, in milliseconds. */
  type Clock = nat -> int

  /** Never used, or given back more than an hour ago. */
  predicate Usable(s: Ports, now: int, p: nat) {
    Usage(s, p) == 0 || Usage(s, p) < now - HOUR
  }

  /** The number a search looks at after `p`, in 16 bits. */
  function Next(s: Ports, p: nat): nat {
    var q := (p + 1) % 0x1_0000;
    if q >= (if s.maxPorts < LIMIT then s.maxPorts else LIMIT) then 1 else q
  }

  /** The `k`-th number a search looks at. */
  function Probe(s: Ports, k: nat): nat
    requires k >= 1
  {
    if k == 1 then Next(s, s.at) else Next(s, Probe(s, k - 1))
  }

  // ---------- the order of a search ----------

  /** Numbers in range are kept, so that `at` may stand outside only before the first search. */
  predicate Valid(s: Ports) {
    s.at < NONE && s.maxPorts < NONE
  }

  function Turns(s: Ports): (n: nat)
    requires Valid(s)
    ensures n < Top(s)
  {
    if Inside(s) then s.at - 1 else Top(s) - 1
  }

  lemma AddOne(x: nat, n: nat)
    requires n >= 1
    ensures (x + 1) % n == if x % n + 1 == n then 0 else x % n + 1
  {
    var q, r := x / n, x % n;
    assert x + 1 == q * n + (r + 1);
    if r + 1 == n {
      assert x + 1 == (q + 1) * n;
      MultipleModulo(q + 1, n);
    } else {
      ModuloOf(q, n, r + 1);
    }
  }

  lemma ModuloOf(q: nat, n: nat, r: nat)
    requires r < n
    ensures (q * n + r) % n == r && (q * n + r) / n == q
  {
    var x := q * n + r;
    var y := x / n;
    assert x == y * n + x % n;
    Monotone(y + 1, q, n);
    Monotone(q + 1, y, n);
  }

  lemma Monotone(a: nat, b: nat, n: nat)
    ensures a <= b ==> a * n <= b * n
  {
  }

  lemma MultipleModulo(q: nat, n: nat)
    requires n >= 1
    ensures (q * n) % n == 0
  {
    ModuloOf(q, n, 0);
  }

  lemma NextInRound(s: Ports, x: nat)
    requires Valid(s) && x < Top(s)
    ensures Next(s, x + 1) == (if x + 1 == Top(s) then 0 else x + 1) + 1
  {
  }

  lemma FirstProbe(s: Ports)
    requires Valid(s)
    ensures Next(s, s.at) == (if Turns(s) + 1 == Top(s) then 0 else Turns(s) + 1) + 1
  {
  }

  lemma RoundStep(s: Ports, x: nat, p: nat)
    requires Valid(s) && p == x % Top(s) + 1
    ensures Next(s, p) == (x + 1) % Top(s) + 1
  {
    AddOne(x, Top(s));
    NextInRound(s, x % Top(s));
  }

  lemma RoundStart(s: Ports)
    requires Valid(s)
    ensures Next(s, s.at) == (Turns(s) + 1) % Top(s) + 1
  {
    AddOne(Turns(s), Top(s));
    ModuloOf(0, Top(s), Turns(s));
    FirstProbe(s);
  }

  /** A search goes round and round the range. */
  lemma {:induction false} ProbeRound(s: Ports, k: nat)
    requires Valid(s) && k >= 1
    ensures Probe(s, k) == (Turns(s) + k) % Top(s) + 1
  {
    if k == 1 {
      RoundStart(s);
    } else {
      ProbeRound(s, k - 1);
      RoundStep(s, Turns(s) + (k - 1), Probe(s, k - 1));
    }
  }

  /** Within one round each number of the range comes up exactly once; from inside, where it began comes last. */
  lemma RoundCovers(s: Ports, p: nat) returns (k: nat)
    requires Valid(s) && InRange(s, p)
    ensures 1 <= k <= Top(s) && Probe(s, k) == p
    ensures forall j :: 1 <= j <= Top(s) && Probe(s, j) == p ==> j == k
    ensures p == s.at ==> k == Top(s)
  {
    var n, b := Top(s), Turns(s);
    k := if p - 1 > b then p - 1 - b else n + p - 1 - b;
    forall j | 1 <= j <= n ensures Probe(s, j) == p <==> j == k {
      ProbeRound(s, j);
      Wrapped(b + j, n);
    }
  }

  lemma Wrapped(x: nat, n: nat)
    requires n >= 1 && x < 2 * n
    ensures x % n == if x < n then x else x - n
  {
    if x < n { ModuloOf(0, n, x); } else { ModuloOf(1, n, x - n); }
  }

  lemma ProbeInRange(s: Ports, k: nat)
    requires Valid(s) && k >= 1
    ensures InRange(s, Probe(s, k))
  {
    ProbeRound(s, k);
  }

  // ---------- what an allocation may do ----------

  predicate Direct(s: Ports, request: nat) {
    var p := if request == 0 then NONE else request;
    p < s.maxPorts && Usage(s, p) != IN_USE
  }

  /** The number in range that was given back first, the earliest in the order of the search. */
  ghost predicate LeastRecent(s: Ports, k: nat) {
    && 1 <= k <= Top(s) && Usage(s, Probe(s, k)) != IN_USE
    && (forall p :: InRange(s, p) ==> Usage(s, Probe(s, k)) <= Usage(s, p))
    && (forall j :: 1 <= j < k ==> Usage(s, Probe(s, k)) < Usage(s, Probe(s, j)))
  }

  ghost predicate UsableAt(s: Ports, clock: Clock, k: nat) {
    k >= 1 && Usable(s, clock(k), Probe(s, k))
  }

  /** The search can stop at its `k`-th number: it is usable, or the one where the search began. */
  ghost predicate Exit(s: Ports, clock: Clock, k: nat) {
    k >= 1 && (UsableAt(s, clock, k) || Probe(s, k) == s.at)
  }

  ghost predicate FirstExit(s: Ports, clock: Clock, k: nat) {
    Exit(s, clock, k) && forall j :: 1 <= j < k ==> !Exit(s, clock, j)
  }

  function Take(s: Ports, p: nat): Ports {
    s.(usage := s.usage[p := IN_USE])
  }

  ghost predicate AllInUse(s: Ports) {
    forall p :: InRange(s, p) ==> Usage(s, p) == IN_USE
  }

  /** The outcome `r` of a search and the state `t` it leaves, but for the entry of `r` itself. */
  ghost predicate Searches(s: Ports, clock: Clock, k: nat, t: Ports, r: nat) {
    && FirstExit(s, clock, k)
    && if UsableAt(s, clock, k) then r == Probe(s, k) && t == Take(s, r).(at := r)
       else if !AllInUse(s) then exists j :: LeastRecent(s, j) && r == Probe(s, j) && t == Take(s, r)
       else r == NONE && t == s
  }

  /** The outcome `r` of an allocation and the state `t` after it. */
  ghost predicate Allocates(s: Ports, request: nat, clock: Clock, t: Ports, r: nat) {
    if Direct(s, request) then r == request && t == Take(s, r) else exists k: nat :: Searches(s, clock, k, t, r)
  }

  /** The search comes to an end. */
  ghost predicate Ends(s: Ports, clock: Clock) {
    exists k: nat :: Exit(s, clock, k)
  }

  /** Times are possible ones, and the clock does not run backwards. */
  ghost predicate SaneTimes(s: Ports, clock: Clock) {
    && (forall k: nat :: 0 <= clock(k) < IN_USE) && (forall i: nat, j: nat :: i <= j ==> clock(i) <= clock(j))
    && SaneUsage(s)
  }

  predicate SaneUsage(s: Ports) {
    forall p :: p in s.usage ==> 0 <= s.usage[p] <= IN_USE
  }

  /** Some time an hour has passed since any number was given back. */
  ghost predicate HourPasses(s: Ports, clock: Clock) {
    exists k: nat :: forall p :: InRange(s, p) && Usage(s, p) != IN_USE ==> Usage(s, p) < clock(k) - HOUR
  }

  /** A search that begins inside the range ends within a round. One that begins outside ends too, as time passes,
      if only a number in range is not in use; if all are in use it goes round for ever. */
  lemma SearchEndsExactly(s: Ports, clock: Clock)
    requires Valid(s) && SaneTimes(s, clock) && HourPasses(s, clock)
    ensures Ends(s, clock) <==> Inside(s) || !AllInUse(s)
    ensures Inside(s) ==> exists k: nat :: k <= Top(s) && Exit(s, clock, k)
  {
    if Inside(s) {
      var k := RoundCovers(s, s.at);
      assert Exit(s, clock, k);
    } else if !AllInUse(s) {
      var p :| InRange(s, p) && Usage(s, p) != IN_USE;
      var late: nat :| forall p :: InRange(s, p) && Usage(s, p) != IN_USE ==> Usage(s, p) < clock(late) - HOUR;
      var k := ComesUpAfter(s, p, late);
      assert clock(late) <= clock(k);
      assert UsableAt(s, clock, k) && Exit(s, clock, k);
    } else {
      forall k | k >= 1 ensures !Exit(s, clock, k) {
        ProbeRound(s, k);
        assert InRange(s, Probe(s, k));
      }
    }
  }

  lemma OneRoundLater(s: Ports, k: nat)
    requires Valid(s) && k >= 1
    ensures Probe(s, k + Top(s)) == Probe(s, k)
  {
    ProbeRound(s, k);
    ProbeRound(s, k + Top(s));
    AddModulus(Turns(s) + k, Top(s));
    assert Turns(s) + (k + Top(s)) == Turns(s) + k + Top(s);
  }

  lemma AddModulus(x: nat, n: nat)
    requires n >= 1
    ensures (x + n) % n == x % n
  {
    var q, r := x / n, x % n;
    assert x + n == (q + 1) * n + r;
    ModuloOf(q + 1, n, r);
  }

  /** Every number of the range comes up again and again. */
  lemma {:induction false} ComesUpAfter(s: Ports, p: nat, late: nat) returns (k: nat)
    requires Valid(s) && InRange(s, p)
    ensures k >= late && k >= 1 && Probe(s, k) == p
    decreases late
  {
    if late == 0 {
      k := RoundCovers(s, p);
    } else {
      k := ComesUpAfter(s, p, late - 1);
      OneRoundLater(s, k);
      k := k + Top(s);
    }
  }

  /** What callers rely on. A number handed out was not in use; nothing is handed out only if every number in range is
      in use; and one given back within the hour is reused, unless asked for, only if the search has found all in
      range in use or that recent, and then the one given back first. */
  lemma AllocationIsSound(s: Ports, request: nat, clock: Clock, t: Ports, r: nat)
    requires Valid(s) && SaneTimes(s, clock) && request < NONE && Allocates(s, request, clock, t, r)
    ensures r != NONE ==> Usage(s, r) != IN_USE && t.usage == s.usage[r := IN_USE]
    ensures r == NONE <==> !Direct(s, request) && AllInUse(s)
    ensures r == NONE ==> t == s
    ensures r != NONE && !Direct(s, request) ==>
              && InRange(s, r)
              && ((exists k :: UsableAt(s, clock, k) && r == Probe(s, k))
                  || forall p :: InRange(s, p) ==> LookedAt(s, clock, p) && Usage(s, r) <= Usage(s, p))
    ensures Valid(t) && (Inside(s) ==> Inside(t)) && SaneTimes(t, clock)
  {
    if !Direct(s, request) {
      var k :| Searches(s, clock, k, t, r);
      ProbeRound(s, k);
      if UsableAt(s, clock, k) {
        assert InRange(s, r) && Usage(s, r) != IN_USE;
      } else {
        AllLookedAt(s, clock, k);
        if !AllInUse(s) {
          var j :| LeastRecent(s, j) && r == Probe(s, j) && t == Take(s, r);
          ProbeRound(s, j);
          assert InRange(s, r);
        }
      }
    }
  }

  /** The search came upon number `p` and could not use it then. */
  ghost predicate LookedAt(s: Ports, clock: Clock, p: nat) {
    exists j :: 1 <= j <= Top(s) && Probe(s, j) == p && !UsableAt(s, clock, j)
  }

  lemma AllLookedAt(s: Ports, clock: Clock, k: nat)
    requires Valid(s) && FirstExit(s, clock, k) && !UsableAt(s, clock, k)
    ensures k == Top(s) && Inside(s)
    ensures forall p :: InRange(s, p) ==> LookedAt(s, clock, p)
  {
    ExitAtStart(s, clock, k);
    forall p | InRange(s, p) ensures LookedAt(s, clock, p) {
      var j := RoundCovers(s, p);
      if j < k { assert !Exit(s, clock, j); }
      assert !UsableAt(s, clock, j);
    }
  }

  /** A search that ends where it began has gone round once. */
  lemma ExitAtStart(s: Ports, clock: Clock, k: nat)
    requires Valid(s) && FirstExit(s, clock, k) && Probe(s, k) == s.at
    ensures k == Top(s) && Inside(s)
  {
    ProbeRound(s, k);
    assert InRange(s, s.at);
    var j := RoundCovers(s, s.at);
    assert Exit(s, clock, j);
  }

  /** The outcome is fully determined. */
  lemma AllocationIsDetermined(s: Ports, request: nat, clock: Clock, t: Ports, r: nat, t': Ports, r': nat)
    requires Valid(s) && Allocates(s, request, clock, t, r) && Allocates(s, request, clock, t', r')
    ensures t == t' && r == r'
  {
    if !Direct(s, request) {
      var k: nat :| Searches(s, clock, k, t, r);
      var k': nat :| Searches(s, clock, k', t', r');
      assert k == k';
      if !UsableAt(s, clock, k) && !AllInUse(s) {
        var j: nat :| LeastRecent(s, j) && r == Probe(s, j) && t == Take(s, r);
        var j': nat :| LeastRecent(s, j') && r' == Probe(s, j') && t' == Take(s, r');
        OneLeastRecent(s, j, j');
      }
    }
  }

  lemma OneLeastRecent(s: Ports, k: nat, k': nat)
    requires Valid(s) && LeastRecent(s, k) && LeastRecent(s, k')
    ensures k == k'
  {
    var u, u' := Usage(s, Probe(s, k)), Usage(s, Probe(s, k'));
    assert k < k' ==> u' < u;
    assert k' < k ==> u < u';
    ProbeInRange(s, k);
    ProbeInRange(s, k');
  }

  // ---------- runs ----------

  /** `r` was handed out, or `p` was given back. */
  datatype Event = Took(request: nat, clock: Clock, r: nat) | Gave(p: nat, now: int)

  /** `dealloc_ofp_port`. */
  function Freed(s: Ports, p: nat, now: int): Ports {
    if p < s.maxPorts then s.(usage := s.usage[p := now]) else s
  }

  ghost predicate Step(s: Ports, e: Event, t: Ports) {
    match e
    case Took(request, clock, r) => SaneTimes(s, clock) && request < NONE && Allocates(s, request, clock, t, r)
    case Gave(p, now) => 0 <= now < IN_USE && (p < s.maxPorts ==> p in s.usage) && t == Freed(s, p, now)
  }

  ghost predicate Run(states: seq<Ports>, events: seq<Event>) {
    && |states| == |events| + 1 && Valid(states[0])
    && (forall i :: 0 <= i < |events| ==> Step(states[i], events[i], states[i + 1]))
  }

  lemma {:induction false} RunStaysValid(states: seq<Ports>, events: seq<Event>, k: nat)
    requires Run(states, events) && k <= |events|
    ensures Valid(states[k])
  {
    if k > 0 {
      RunStaysValid(states, events, k - 1);
      var e := events[k - 1];
      assert Step(states[k - 1], e, states[k]);
      if e.Took? { AllocationIsSound(states[k - 1], e.request, e.clock, states[k], e.r); }
    }
  }

  /** A number stays in use until it is given back. */
  lemma {:induction false} StaysInUse(states: seq<Ports>, events: seq<Event>, i: nat, j: nat, p: nat)
    requires Run(states, events) && i <= j <= |events| && Usage(states[i], p) == IN_USE
    requires forall k :: i <= k < j ==> !(events[k].Gave? && events[k].p == p)
    ensures Usage(states[j], p) == IN_USE
    decreases j
  {
    if i < j {
      StaysInUse(states, events, i, j - 1, p);
      RunStaysValid(states, events, j - 1);
      var e := events[j - 1];
      assert Step(states[j - 1], e, states[j]);
      if e.Took? { AllocationIsSound(states[j - 1], e.request, e.clock, states[j], e.r); }
    }
  }

  /** Over any run, a number handed out twice was given back in between: ports that are alive have different numbers. */
  lemma HandedOutOnce(states: seq<Ports>, events: seq<Event>, i: nat, j: nat)
    requires Run(states, events) && i < j < |events| && events[i].Took? && events[j].Took?
    requires events[i].r == events[j].r != NONE
    ensures exists k :: i < k < j && events[k].Gave? && events[k].p == events[i].r
  {
    var p := events[i].r;
    RunStaysValid(states, events, i);
    RunStaysValid(states, events, j);
    assert Step(states[i], events[i], states[i + 1]) && Step(states[j], events[j], states[j + 1]);
    AllocationIsSound(states[i], events[i].request, events[i].clock, states[i + 1], p);
    AllocationIsSound(states[j], events[j].request, events[j].clock, states[j + 1], p);
    if forall k :: i + 1 <= k < j ==> !(events[k].Gave? && events[k].p == p) {
      StaysInUse(states, events, i + 1, j, p);
    }
  }

  // ---------- runs by their events ----------

  /** How a number stands: never handed out, out, or back since some time. */
  datatype Standing = Never | HandedOut | Back(since: int)

  /** How number `p` stands after the first `k` events. A number the switch has no port for does not come back. */
  function Stands(events: seq<Event>, maxPorts: nat, k: nat, p: nat): Standing
    requires k <= |events|
  {
    if k == 0 then Never else
      match events[k - 1]
      case Took(_, _, r) => if r == p then HandedOut else Stands(events, maxPorts, k - 1, p)
      case Gave(q, now) => if q == p < maxPorts then Back(now) else Stands(events, maxPorts, k - 1, p)
  }

  /** A run from the beginning, when no number has been used. */
  ghost predicate Life(states: seq<Ports>, events: seq<Event>) {
    Run(states, events) && states[0].usage == map[]
  }

  function Recorded(st: Standing): int {
    match st
    case Never => 0
    case HandedOut => IN_USE
    case Back(since) => since
  }

  lemma StepRecords(s: Ports, e: Event, t: Ports, p: nat)
    requires Valid(s) && Step(s, e, t) && p < NONE
    ensures t.maxPorts == s.maxPorts
    ensures Usage(t, p) == match e
                           case Took(_, _, r) => if r == p then IN_USE else Usage(s, p)
                           case Gave(q, now) => if q == p < s.maxPorts then now else Usage(s, p)
  {
    if e.Took? { AllocationIsSound(s, e.request, e.clock, t, e.r); }
  }

  /** What is recorded about a number is how it stands by the events. */
  lemma {:induction false} RecordsStanding(states: seq<Ports>, events: seq<Event>, k: nat, p: nat)
    requires Life(states, events) && k <= |events| && p < NONE
    ensures states[k].maxPorts == states[0].maxPorts
    ensures Usage(states[k], p) == Recorded(Stands(events, states[0].maxPorts, k, p))
    ensures match Stands(events, states[0].maxPorts, k, p) case Back(since) => 0 <= since < IN_USE case _ => true
  {
    if k > 0 {
      RecordsStanding(states, events, k - 1, p);
      RunStaysValid(states, events, k - 1);
      assert Step(states[k - 1], events[k - 1], states[k]);
      StepRecords(states[k - 1], events[k - 1], states[k], p);
    }
  }

  /** Event `j` hands out, unrequested, a number that came back at `since`, and the clock has not got more than an
      hour past that. */
  ghost predicate ReusesSoon(events: seq<Event>, maxPorts: nat, j: nat, since: int) {
    && j < |events| && events[j].Took? && events[j].request == 0 && events[j].r != NONE
    && Stands(events, maxPorts, j, events[j].r) == Back(since)
    && forall k: nat :: events[j].clock(k) <= since + 3_600_000
  }

  /** The numbers a search may choose from: number 1, and those below 32768 that the switch has ports for. */
  predicate OnOffer(maxPorts: nat, p: nat) {
    p == 1 || (1 < p < maxPorts && p < 32768)
  }

  /** Then every number was out, or had come back within the hour, and not before this one. */
  ghost predicate HadTo(events: seq<Event>, maxPorts: nat, j: nat, since: int)
    requires j < |events|
  {
    forall p :: OnOffer(maxPorts, p) ==>
      match Stands(events, maxPorts, j, p) case Never => false case HandedOut => true case Back(t) => since <= t
  }

  lemma ReusesWhenItHasTo(states: seq<Ports>, events: seq<Event>, j: nat, since: int)
    requires Life(states, events) && ReusesSoon(events, states[0].maxPorts, j, since) && since > 0
    ensures HadTo(events, states[0].maxPorts, j, since)
  {
    var s, e, m := states[j], events[j], states[0].maxPorts;
    RunStaysValid(states, events, j);
    assert Step(s, e, states[j + 1]);
    AllocationIsSound(s, 0, e.clock, states[j + 1], e.r);
    RecordsStanding(states, events, j, e.r);
    assert forall k :: UsableAt(s, e.clock, k) ==> Probe(s, k) != e.r;
    forall p | OnOffer(m, p)
      ensures match Stands(events, m, j, p) case Never => false case HandedOut => true case Back(t) => since <= t
    {
      RecordsStanding(states, events, j, p);
      assert InRange(s, p);
    }
  }

  /** A number is reused within the hour although it did not have to be. */
  ghost predicate Violates(states: seq<Ports>, events: seq<Event>, j: nat, since: int) {
    Life(states, events) && ReusesSoon(events, states[0].maxPorts, j, since) && !HadTo(events, states[0].maxPorts, j, since)
  }

  /** Number 1 is asked for, comes back at time 0, and is handed out again, although number 2 has never been used. */
  lemma TimeZeroIsForgotten() returns (states: seq<Ports>, events: seq<Event>)
    ensures Violates(states, events, 2, 0)
  {
    var clock: Clock := _ => 0;
    var s := Ports(3, 0, map[]);
    var t := Take(s, 1);
    var u := Freed(t, 1, 0);
    var v := Take(u, 1).(at := 1);
    states, events := [s, t, u, v], [Took(1, clock, 1), Gave(1, 0), Took(0, clock, 1)];
    assert Probe(u, 1) == 1 && UsableAt(u, clock, 1);
    assert FirstExit(u, clock, 1) && Searches(u, clock, 1, v, 1);
    assert Step(u, events[2], v);
    assert Stands(events, 3, 0, 2) == Never && Stands(events, 3, 1, 2) == Never && Stands(events, 3, 2, 2) == Never;
    assert Stands(events, 3, 2, 1) == Back(0);
  }

  /** Over every run from the beginning: a number is reused within the hour only if it has to be, in whatever run,
      exactly if it did not come back at time 0, which the program keeps for "never used". */
  lemma ReusesSparinglyIff(since: int)
    requires 0 <= since < IN_USE
    ensures since != 0 <==> forall states: seq<Ports>, events: seq<Event>, j: nat :: !Violates(states, events, j, since)
  {
    if since != 0 {
      forall states: seq<Ports>, events: seq<Event>, j: nat ensures !Violates(states, events, j, since) {
        if Life(states, events) && ReusesSoon(events, states[0].maxPorts, j, since) {
          ReusesWhenItHasTo(states, events, j, since);
        }
      }
    } else {
      var states, events := TimeZeroIsForgotten();
      assert Violates(states, events, 2, 0);
    }
  }

  /** By the events alone: nothing that is out is handed out, and an allocation that asks for no number comes back
      with none exactly if all it may choose from are out. */
  lemma RunsOutExactly(states: seq<Ports>, events: seq<Event>, j: nat)
    requires Life(states, events) && j < |events| && events[j].Took?
    ensures events[j].r != NONE ==> events[j].r < NONE && !Stands(events, states[0].maxPorts, j, events[j].r).HandedOut?
    ensures events[j].request == 0 ==>
              (events[j].r == NONE
               <==> forall p :: OnOffer(states[0].maxPorts, p) ==> Stands(events, states[0].maxPorts, j, p).HandedOut?)
  {
    var s, e, m := states[j], events[j], states[0].maxPorts;
    RunStaysValid(states, events, j);
    assert Step(s, e, states[j + 1]);
    AllocationIsSound(s, e.request, e.clock, states[j + 1], e.r);
    RecordsStanding(states, events, j, if e.r < NONE then e.r else 1);
    if e.request == 0 {
      forall p ensures InRange(s, p) <==> OnOffer(m, p) { RecordsStanding(states, events, j, 1); }
      forall p | InRange(s, p) ensures Usage(s, p) == IN_USE <==> Stands(events, m, j, p).HandedOut? {
        RecordsStanding(states, events, j, p);
      }
    }
  }

  // ---------- the program's form ----------

  /** The search has not been able to stop at the first `k` numbers; `best` is the one of them last used first. */
  ghost predicate Searching(s: Ports, clock: Clock, k: nat, lruPort: nat, lru: int, best: nat) {
    NoExit(s, clock, k) && Oldest(s, k, lruPort, lru, best)
  }

  ghost predicate NoExit(s: Ports, clock: Clock, k: nat) {
    forall j :: 1 <= j <= k ==> !Exit(s, clock, j)
  }

  lemma NoExitYet(s: Ports, clock: Clock, k: nat, last: nat)
    requires k >= 1 && NoExit(s, clock, k - 1) && Exit(s, clock, last) && k - 1 < last
    ensures if Exit(s, clock, k) then FirstExit(s, clock, k) else NoExit(s, clock, k) && k < last
  {
  }

  ghost predicate Oldest(s: Ports, k: nat, lruPort: nat, lru: int, best: nat) {
    && NoneOlder(s, k, lru)
    && (if lruPort == 0 then lru == IN_USE
        else 1 <= best <= k && lruPort == Probe(s, best) && lru == Usage(s, lruPort) < IN_USE && AllNewer(s, best, lru))
  }

  ghost predicate NoneOlder(s: Ports, k: nat, lru: int) {
    forall j :: 1 <= j <= k ==> lru <= Usage(s, Probe(s, j))
  }

  ghost predicate AllNewer(s: Ports, k: nat, lru: int) {
    forall j :: 1 <= j < k ==> lru < Usage(s, Probe(s, j))
  }

  /** The `k`-th number becomes the oldest if it is older than all before. */
  lemma SearchNext(s: Ports, k: nat, lruPort: nat, lru: int, best: nat)
    requires Valid(s) && SaneUsage(s) && k >= 1 && Oldest(s, k - 1, lruPort, lru, best)
    ensures var p := Probe(s, k); var u := Usage(s, p);
            if u < lru then Oldest(s, k, p, u, k) else Oldest(s, k, lruPort, lru, best)
  {
    ProbeInRange(s, k);
    var u := Usage(s, Probe(s, k));
    if u < lru {
      assert NoneOlder(s, k, u) && AllNewer(s, k, u);
    } else {
      assert NoneOlder(s, k, lru);
    }
  }

  /** What a search has done when it returns `r` in the state `t`. */
  ghost predicate Found(s: Ports, clock: Clock, t: Ports, r: nat) {
    exists k: nat :: Searches(s, clock, k, Entered(t, r), r)
  }

  /** The number handed out, if any, is entered as in use. */
  function Entered(t: Ports, r: nat): Ports {
    if r == NONE then t else Take(t, r)
  }

  lemma SearchHits(s: Ports, clock: Clock, k: nat, t: Ports)
    requires Valid(s) && UsableAt(s, clock, k) && FirstExit(s, clock, k)
    requires t == s.(at := t.at, usage := t.usage) && t.at == Probe(s, k)
    requires t.usage == s.usage || t.usage == s.usage - {t.at}
    ensures Found(s, clock, t, Probe(s, k))
  {
    assert t.usage[t.at := IN_USE] == s.usage[t.at := IN_USE];
    ProbeInRange(s, k);
    assert Searches(s, clock, k, Entered(t, Probe(s, k)), Probe(s, k));
  }

  lemma SearchOver(s: Ports, clock: Clock, k: nat, lruPort: nat, lru: int, best: nat)
    requires Valid(s) && SaneUsage(s) && FirstExit(s, clock, k) && !UsableAt(s, clock, k)
    requires Oldest(s, k, lruPort, lru, best)
    ensures Found(s, clock, s, if lruPort == 0 then NONE else lruPort)
  {
    ExitAtStart(s, clock, k);
    OldestInRange(s, k, lru);
    if lruPort != 0 {
      ProbeInRange(s, best);
      assert LeastRecent(s, best);
      assert Searches(s, clock, k, Entered(s, lruPort), lruPort);
    } else {
      assert Searches(s, clock, k, Entered(s, NONE), NONE);
    }
  }

  lemma OldestInRange(s: Ports, k: nat, lru: int)
    requires Valid(s) && SaneUsage(s) && k == Top(s) && NoneOlder(s, k, lru)
    ensures forall p :: InRange(s, p) ==> lru <= Usage(s, p) <= IN_USE
  {
    forall p | InRange(s, p) ensures lru <= Usage(s, p) <= IN_USE {
      var j := RoundCovers(s, p);
      assert Probe(s, j) == p;
    }
  }

  class PortNumbers {
    const maxPorts: nat
    var allocPortNo: nat
    var usage: map<nat, int>

    function Abs(): Ports
      reads this
    {
      Ports(maxPorts, allocPortNo, usage)
    }

    constructor (max: nat)
      ensures Abs() == Ports(max, 0, map[])
    {
      maxPorts, allocPortNo, usage := max, 0, map[];
    }

    method GetUsage(p: nat) returns (u: int)
      ensures u == Usage(Abs(), p)
    {
      if p in usage { return usage[p]; }
      return 0;
    }

    /** `alloc_ofp_port`; `request` is 0 if no number is asked for. */
    method Alloc(request: nat, clock: Clock) returns (r: nat)
      modifies this
      requires Valid(Abs()) && SaneTimes(Abs(), clock)
      requires Direct(Abs(), request) || Ends(Abs(), clock)
      ensures Allocates(old(Abs()), request, clock, Abs(), r)
    {
      r := if request != 0 then request else NONE;
      var u := GetUsage(r);
      if r >= maxPorts || u == IN_USE {
        r := Find(clock);
        if r == NONE { return; }
      }
      usage := usage[r := IN_USE];
    }

    /** `++alloc_port_no`, back to 1 at the end of the range. */
    method Advance(ghost s: Ports, ghost k: nat)
      modifies this`allocPortNo
      requires Abs() == s.(at := if k == 0 then s.at else Probe(s, k))
      ensures Abs() == s.(at := Probe(s, k + 1))
    {
      var q := (allocPortNo + 1) % 0x1_0000;
      allocPortNo := if q >= (if maxPorts < LIMIT then maxPorts else LIMIT) then 1 else q;
    }

    /** Looks at the current number; if it is usable though it was used before, that is forgotten. */
    method Examine(now: int) returns (u: int, usable: bool)
      requires forall p :: p in usage ==> 0 <= usage[p] <= IN_USE
      requires now < IN_USE
      modifies this`usage
      ensures u == Usage(old(Abs()), allocPortNo) && usable == Usable(old(Abs()), now, allocPortNo)
      ensures usage == old(usage) || (usable && usage == old(usage) - {allocPortNo})
    {
      u := GetUsage(allocPortNo);
      usable := u == 0 || u < now - HOUR;
      if usable && u != 0 { usage := usage - {allocPortNo}; }
    }

    /** The search, which reads the clock at every number it looks at. */
    method Find(clock: Clock) returns (r: nat)
      modifies this
      requires Valid(Abs()) && SaneTimes(Abs(), clock) && Ends(Abs(), clock)
      ensures Found(old(Abs()), clock, Abs(), r)
    {
      ghost var s := Abs();
      var lruPort, lru, end := 0, IN_USE, allocPortNo;
      var k: nat := 0;
      ghost var best: nat := 0;
      ghost var last: nat :| Exit(s, clock, last);
      while true
        invariant Abs() == s.(at := if k == 0 then s.at else Probe(s, k))
        invariant k < last && Searching(s, clock, k, lruPort, lru, best)
        decreases last - k
      {
        Advance(s, k);
        k := k + 1;
        NoExitYet(s, clock, k, last);
        var u, usable := Examine(clock(k));
        if usable {
          SearchHits(s, clock, k, Abs());
          return allocPortNo;
        }
        SearchNext(s, k, lruPort, lru, best);
        if u < lru {
          lru, lruPort, best := u, allocPortNo, k;
        }
        if allocPortNo == end {
          assert Abs() == s;
          SearchOver(s, clock, k, lruPort, lru, best);
          if lruPort != 0 { return lruPort; }
          return NONE;
        }
      }
    }

    /** `dealloc_ofp_port`. */
    method Dealloc(p: nat, now: int)
      modifies this
      requires p < maxPorts ==> p in usage
      ensures Abs() == Freed(old(Abs()), p, now)
    {
      if p < maxPorts { usage := usage[p := now]; }
    }
  }
}
