/** The linked list in which CoDel logs dropped TCP packets and from which a reader takes
    them: the reader snapshots the list, later declares the snapshot transmitted, and the next drop
    frees what was transmitted. */
module DropLog {

  type Entry = nat

  // ---------- the protocol ----------

  /** `written` is every drop ever logged, and `cleaned` how many of them have been unlinked again. `mark` is the
      entry that the last snapshot ended with, if it was not empty; if that entry has been unlinked since, `cutAt` is
      how many entries had been logged by then. `declared` says that the reader has declared the snapshot transmitted,
      and `reports` is what the snapshots handed over. */
  datatype State = State(written: seq<Entry>, cleaned: nat, mark: Option<nat>, cutAt: nat, declared: bool,
                         reports: seq<seq<Entry>>)

  datatype Option<+T> = None | Some(value: T)

  datatype Op = Log(e: Entry) | Snapshot | Destroy

  /** A null mark is followed, or the list is left to start with an entry that has been freed. */
  datatype Outcome = Fine(s: State) | NullMark | Dangling

  /** The mark is no longer in the list. */
  predicate Stale(s: State) {
    s.mark.Some? && s.mark.value < s.cleaned
  }

  ghost predicate Consistent(s: State) {
    && s.cleaned <= |s.written|
    && (s.mark.Some? ==> s.mark.value < |s.written|)
    && (Stale(s) ==> s.mark.value < s.cutAt <= |s.written|
                     && (s.mark.value + 1 < s.cutAt ==> s.cleaned == s.mark.value + 1))
  }

  /** What the list holds. */
  function Live(s: State): seq<Entry>
    requires s.cleaned <= |s.written|
  {
    s.written[s.cleaned..]
  }

  /** `delete_before_last_call_codel`. A stale mark still points to the entry that followed it when it was unlinked,
      if any did; that entry is freed by then. If none did, all entries are unlinked, read or not. */
  function CleanUp(s: State): Outcome {
    if s.mark.None? then NullMark
    else if !Stale(s) then Fine(s.(cleaned := s.mark.value + 1, cutAt := |s.written|, declared := false))
    else if s.cutAt == s.mark.value + 1 then Fine(s.(cleaned := |s.written|, declared := false))
    else Dangling
  }

  function Step(s: State, op: Op): Outcome
    requires s.cleaned <= |s.written|
  {
    match op
    case Log(e) =>
      (match if s.declared then CleanUp(s) else Fine(s)
       case Fine(t) => Fine(t.(written := t.written + [e]))
       case o => o)
    case Snapshot =>
      Fine(s.(mark := if Live(s) == [] then None else Some(|s.written| - 1), reports := s.reports + [Live(s)]))
    case Destroy => Fine(s.(declared := true))
  }

  lemma StepKeepsConsistent(s: State, op: Op)
    requires Consistent(s) && Step(s, op).Fine?
    ensures Consistent(Step(s, op).s)
  {
  }

  ghost function Run(s: State, ops: seq<Op>): (o: Outcome)
    requires Consistent(s)
    ensures o.Fine? ==> Consistent(o.s)
    decreases |ops|
  {
    if ops == [] then Fine(s) else
      match Step(s, ops[0])
      case Fine(t) => StepKeepsConsistent(s, ops[0]); Run(t, ops[1..])
      case o => o
  }

  const Start := State([], 0, None, 0, false, [])

  // ---------- readers that keep to the cycle ----------

  /** A snapshot has been taken and not yet been cleaned up. */
  predicate Open(s: State) {
    s.mark.Some? && !Stale(s)
  }

  /** A reader cycle is a snapshot, and if that was not empty, a declaration that it has been transmitted. */
  predicate Legal(s: State, op: Op) {
    match op
    case Log(_) => true
    case Snapshot => !s.declared && !Open(s)
    case Destroy => !s.declared && Open(s)
  }

  ghost predicate LegalRun(s: State, ops: seq<Op>)
    requires Consistent(s)
    decreases |ops|
  {
    ops == [] || (
      && Legal(s, ops[0])
      && match Step(s, ops[0])
         case Fine(t) => StepKeepsConsistent(s, ops[0]); LegalRun(t, ops[1..])
         case _ => true)
  }

  function Flatten(r: seq<seq<Entry>>): seq<Entry> {
    if r == [] then [] else Flatten(r[..|r| - 1]) + r[|r| - 1]
  }

  /** How many entries have been handed to the reader. */
  function Handed(s: State): nat {
    if Open(s) then s.mark.value + 1 else s.cleaned
  }

  /** Each entry is handed over once, in order, and before it is unlinked; and only an open snapshot is declared
      transmitted. */
  ghost predicate HandOff(s: State) {
    && Consistent(s)
    && Flatten(s.reports) == s.written[..Handed(s)]
    && s.cleaned <= Handed(s)
    && (s.declared ==> Open(s))
  }

  lemma StepKeepsHandOff(s: State, op: Op)
    requires HandOff(s) && Legal(s, op)
    ensures Step(s, op).Fine? && HandOff(Step(s, op).s)
  {
    var t := Step(s, op).s;
    match op
    case Log(e) =>
      assert t.written[..Handed(t)] == s.written[..Handed(s)];
    case Snapshot =>
      assert t.reports[..|s.reports|] == s.reports;
      assert s.written[..s.cleaned] + s.written[s.cleaned..] == s.written;
      assert t.written[..|t.written|] == t.written;
      if Live(s) == [] { assert s.cleaned == |s.written|; }
    case Destroy =>
  }

  /** Over every legal run, the snapshots together with what has not been handed over yet are exactly
      the logged drops, in order, and the list holds exactly what has not been unlinked. */
  lemma {:induction false} ExactlyOnce(s: State, ops: seq<Op>)
    requires HandOff(s) && LegalRun(s, ops)
    ensures var o := Run(s, ops);
            && o.Fine? && HandOff(o.s)
            && Flatten(o.s.reports) + o.s.written[Handed(o.s)..] == o.s.written
    decreases |ops|
  {
    if ops != [] {
      StepKeepsHandOff(s, ops[0]);
      ExactlyOnce(Step(s, ops[0]).s, ops[1..]);
    }
  }

  // ---------- readers that declare twice ----------

  function Logs(es: seq<Entry>): (ops: seq<Op>)
    ensures |ops| == |es|
  {
    seq(|es|, i requires 0 <= i < |es| => Log(es[i]))
  }

  lemma {:induction false} RunSplit(s: State, a: seq<Op>, b: seq<Op>)
    requires Consistent(s) && Run(s, a).Fine?
    ensures Run(s, a + b) == Run(Run(s, a).s, b)
    decreases |a|
  {
    if a == [] {
      assert a + b == b;
    } else {
      assert (a + b)[1..] == a[1..] + b;
      StepKeepsConsistent(s, a[0]);
      RunSplit(Step(s, a[0]).s, a[1..], b);
    }
  }

  /** Logging between a snapshot and its declaration only adds entries. */
  lemma {:induction false} LogsRun(s: State, es: seq<Entry>)
    requires Consistent(s) && !s.declared
    ensures Run(s, Logs(es)) == Fine(s.(written := s.written + es))
    decreases |es|
  {
    if es == [] {
      assert s.written + es == s.written;
    } else {
      var t := s.(written := s.written + [es[0]]);
      assert Logs(es)[1..] == Logs(es[1..]);
      StepKeepsConsistent(s, Log(es[0]));
      LogsRun(t, es[1..]);
      assert s.written + [es[0]] + es[1..] == s.written + es;
    }
  }

  /** A snapshot with something in it, the drops `es` meanwhile, and the declaration; the drop `e`, at which the list is
      cleaned up. */
  function Cycle(es: seq<Entry>, e: Entry): seq<Op> {
    [Snapshot] + Logs(es) + [Destroy, Log(e)]
  }

  /** A second declaration without a snapshot, after the drops `es`, and the drop `e`. */
  function Again(es: seq<Entry>, e: Entry): seq<Op> {
    Logs(es) + [Destroy, Log(e)]
  }

  lemma TwoMore(s: State, a: Op, b: Op)
    requires Consistent(s) && Step(s, a).Fine?
    ensures Consistent(Step(s, a).s) && Run(s, [a, b]) == Step(Step(s, a).s, b)
  {
    StepKeepsConsistent(s, a);
    var t := Step(s, a).s;
    assert [a, b][1..] == [b];
    assert [b][1..] == [];
    assert Run(s, [a, b]) == Run(t, [b]);
    if Step(t, b).Fine? {
      StepKeepsConsistent(t, b);
      assert Run(t, [b]) == Run(Step(t, b).s, []);
    }
  }

  lemma SnapshotThen(s: State, ops: seq<Op>)
    requires Consistent(s)
    ensures Consistent(Step(s, Snapshot).s) && Run(s, [Snapshot] + ops) == Run(Step(s, Snapshot).s, ops)
  {
    StepKeepsConsistent(s, Snapshot);
    assert ([Snapshot] + ops)[1..] == ops;
  }

  /** The declaration and the drop that end a cycle, the mark being the last entry of the snapshot. */
  lemma CleanedUp(u: State, n: nat, e: Entry)
    requires Consistent(u) && u.mark == Some(n) && u.cleaned <= n
    ensures Step(Step(u, Destroy).s, Log(e)) == Fine(State(u.written + [e], n + 1, Some(n), |u.written|, false, u.reports))
  {
  }

  lemma CycleSteps(s: State, t: State, u: State, es: seq<Entry>, e: Entry)
    requires Consistent(s) && !s.declared && t == Step(s, Snapshot).s && u == t.(written := t.written + es)
    ensures Consistent(u) && Run(s, Cycle(es, e)) == Step(Step(u, Destroy).s, Log(e))
  {
    assert Cycle(es, e) == [Snapshot] + (Logs(es) + [Destroy, Log(e)]);
    SnapshotThen(s, Logs(es) + [Destroy, Log(e)]);
    LogsRun(t, es);
    RunSplit(t, Logs(es), [Destroy, Log(e)]);
    TwoMore(u, Destroy, Log(e));
  }

  lemma CycleRuns(s: State, es: seq<Entry>, e: Entry)
    requires Consistent(s) && !s.declared && Live(s) != []
    ensures var n := |s.written|;
            Run(s, Cycle(es, e)) == Fine(State(s.written + es + [e], n, Some(n - 1), n + |es|, false, s.reports + [Live(s)]))
  {
    var t := Step(s, Snapshot).s;
    var u := t.(written := t.written + es);
    CycleSteps(s, t, u, es, e);
    CleanedUp(u, |s.written| - 1, e);
  }

  /** A snapshot that is declared transmitted makes the next drop clean up after it; if the list was empty at the time
      of the snapshot, and only then, the clean-up follows a null mark. */
  lemma EmptySnapshotIff(s: State, e: Entry)
    requires Consistent(s)
    ensures Run(s, [Snapshot, Destroy, Log(e)]).NullMark? <==> Live(s) == []
  {
    var t := Step(s, Snapshot).s;
    StepKeepsConsistent(s, Snapshot);
    assert [Snapshot, Destroy, Log(e)][1..] == [Destroy, Log(e)];
    TwoMore(t, Destroy, Log(e));
  }

  /** What a second declaration of the same snapshot does, for every cycle and whatever is logged in between: if
      nothing had been logged between the snapshot and the clean-up, all entries logged since are freed unread; if
      anything had, the list is left to start with a freed entry. */
  lemma SecondDeclaration(s: State, es: seq<Entry>, e: Entry, fs: seq<Entry>, f: Entry)
    requires Consistent(s) && !s.declared && Live(s) != []
    ensures var o := Run(s, Cycle(es, e) + Again(fs, f));
            && (o.Dangling? <==> es != [])
            && (es == [] ==> o.Fine? && Live(o.s) == [f] && o.s.reports == s.reports + [Live(s)])
  {
    var n := |s.written|;
    CycleRuns(s, es, e);
    var t := Run(s, Cycle(es, e)).s;
    RunSplit(s, Cycle(es, e), Again(fs, f));
    LogsRun(t, fs);
    RunSplit(t, Logs(fs), [Destroy, Log(f)]);
    var u := t.(written := t.written + fs);
    TwoMore(u, Destroy, Log(f));
    assert u.mark == Some(n - 1) && Stale(u) && u.cutAt == n + |es|;
    if es == [] {
      assert Live(Step(u.(declared := true), Log(f)).s) == [f];
    }
  }

  // ---------- the list ----------

  /** `number` is how many nodes were linked before this one. */
  class Node {
    const entry: Entry
    ghost const number: nat
    var next: Node?

    constructor (e: Entry, ghost n: nat)
      ensures entry == e && next == null && number == n
    {
      entry := e;
      number := n;
      next := null;
    }
  }

  ghost function NodeAt(l: seq<Node>, i: nat): Node? {
    if i < |l| then l[i] else null
  }

  class DropList {
    var packetLinger: Node?
    var lastPktLinger: Node?
    var lstCall: Node?
    var readLin: bool
    /** Every node ever linked, in order. */
    ghost var all: seq<Node>
    ghost var freed: set<Node>
    ghost var model: State

    /** The links spell out the nodes from number `from` on, and none of these has been freed. */
    ghost predicate Linked(from: nat)
      reads this, all
    {
      && from <= |all|
      && (forall i :: 0 <= i < |all| ==> all[i].number == i)
      && (forall i :: from <= i < |all| ==> all[i] !in freed)
      && (forall i {:trigger all[i].next} :: from <= i < |all| ==> all[i].next == NodeAt(all, i + 1))
      && packetLinger == NodeAt(all, from)
      && lastPktLinger == if from == |all| then null else all[|all| - 1]
    }

    ghost function Nodes(from: nat, end: nat): set<Node>
      reads this
      requires end <= |all|
    {
      set i | from <= i < end :: all[i]
    }

    ghost predicate Holds(es: seq<Entry>)
      reads this
    {
      |all| == |es| && forall i :: 0 <= i < |all| ==> all[i].entry == es[i]
    }

    /** The mark is where the protocol says; once unlinked it points to the node that followed it then, if any. */
    ghost predicate Marked()
      reads this, all
    {
      match model.mark
      case None => lstCall == null
      case Some(m) =>
        && m < |all| && lstCall == all[m]
        && (Stale(model) ==> lstCall.next == if model.cutAt == m + 1 then null else NodeAt(all, m + 1))
    }

    /** The list is what the protocol says. */
    ghost predicate Valid()
      reads this, all
    {
      && Consistent(model) && Holds(model.written) && Linked(model.cleaned) && Marked()
      && readLin == model.declared
    }

    constructor ()
      ensures Valid() && model == Start
    {
      packetLinger, lastPktLinger, lstCall, readLin := null, null, null, false;
      all, freed, model := [], {}, Start;
    }

    /** Frees the nodes from number `from` up to number `end`, the mark, or all if the mark is not among them. */
    method FreeUpTo(ghost from: nat, ghost end: nat)
      requires Linked(from) && from <= end <= |all|
      requires if end < |all| then lstCall == all[end] else lstCall !in all[from..]
      modifies this
      ensures all == old(all) && lstCall == old(lstCall) && model == old(model)
      ensures packetLinger == old(packetLinger) && lastPktLinger == old(lastPktLinger)
      ensures freed == old(freed) + Nodes(from, end)
    {
      var ptr := packetLinger;
      ghost var i := from;
      while ptr != null && ptr != lstCall
        invariant all == old(all) && lstCall == old(lstCall) && model == old(model)
        invariant packetLinger == old(packetLinger) && lastPktLinger == old(lastPktLinger)
        invariant from <= i <= end && ptr == NodeAt(all, i)
        invariant freed == old(freed) + Nodes(from, i)
        decreases end - i
      {
        var pre := ptr;
        ptr := ptr.next;
        freed := freed + {pre};
        i := i + 1;
      }
    }

    /** `delete_before_last_call_codel`. With the mark in the list, the nodes before it are freed and the marked node
        is unlinked with them but, as in the source, never freed. With a stale mark everything in the list is freed,
        and the list goes on after the mark: with nothing if nothing followed the mark when it was unlinked, else with
        a node that has just been freed. */
    method DeleteBeforeLastCall()
      requires Valid() && lstCall != null
      modifies this
      ensures all == old(all) && lstCall == old(lstCall) && !readLin
      ensures var s := old(model);
              freed == old(freed) + Nodes(s.cleaned, if Open(s) then s.mark.value else |all|)
      ensures match CleanUp(old(model))
              case NullMark => false
              case Fine(t) => Valid() && model == t && lstCall !in freed - old(freed)
              case Dangling =>
                packetLinger in freed && lastPktLinger == old(lastPktLinger) && lastPktLinger in freed && model == old(model)
    {
      ghost var s, was := model, freed;
      CutList(if Stale(s) then |all| else s.mark.value);
      if CleanUp(s).Fine? { model := CleanUp(s).s; }
      if Open(s) {
        LinkedAfterMark(s.cleaned, s.mark.value, was);
        CutIsValid(s, s.mark.value);
      } else {
        assert lstCall.number < s.cleaned;
        if CleanUp(s).Fine? { CutIsValid(s, s.mark.value); }
      }
    }

    /** The list is what the protocol says after the clean-up, at mark `m`. */
    lemma CutIsValid(s: State, m: nat)
      requires Consistent(s) && CleanUp(s) == Fine(model) && Holds(s.written) && s.mark == Some(m) && m < |all|
      requires Linked(model.cleaned) && lstCall == all[m] && !readLin
      requires lstCall.next == if Open(s) then NodeAt(all, m + 1) else null
      ensures Valid()
    {
    }

    /** The code of the clean-up; the nodes before number `end` are freed. */
    method CutList(ghost end: nat)
      requires Linked(model.cleaned) && model.cleaned <= end <= |all| && lstCall != null
      requires if end < |all| then lstCall == all[end] else lstCall !in all[model.cleaned..]
      modifies this
      ensures all == old(all) && lstCall == old(lstCall) && model == old(model) && !readLin
      ensures freed == old(freed) + Nodes(model.cleaned, end)
      ensures packetLinger == lstCall.next
      ensures lastPktLinger == if lstCall.next == null then null else old(lastPktLinger)
    {
      FreeUpTo(model.cleaned, end);
      if lstCall.next != null {
        packetLinger := lstCall.next;
      } else {
        packetLinger := null;
        lastPktLinger := null;
      }
      readLin := false;
    }

    /** With the nodes up to the mark, number `m`, freed, the rest is still linked. */
    lemma LinkedAfterMark(from: nat, m: nat, was: set<Node>)
      requires from <= m < |all| && lstCall == all[m]
      requires forall i :: 0 <= i < |all| ==> all[i].number == i
      requires forall i :: from <= i < |all| ==> all[i] !in was
      requires forall i {:trigger all[i].next} :: from <= i < |all| ==> all[i].next == NodeAt(all, i + 1)
      requires freed == was + Nodes(from, m)
      requires packetLinger == NodeAt(all, m + 1)
      requires lastPktLinger == if m + 1 == |all| then null else all[|all| - 1]
      ensures Linked(m + 1) && lstCall !in freed
    {
    }

    /** The code in `codel_dequeue` that logs a dropped TCP packet. */
    method LogDrop(e: Entry)
      requires Valid() && Step(model, Log(e)).Fine?
      modifies this, all
      ensures Valid() && model == Step(old(model), Log(e)).s
      ensures |all| == |old(all)| + 1 && all[..|old(all)|] == old(all)
    {
      if readLin {
        DeleteBeforeLastCall();
      }
      LinkLast(e);
    }

    /** Links a new entry at the end of the list. */
    method LinkLast(e: Entry)
      requires Valid()
      modifies this, all
      ensures Valid() && model == old(model).(written := old(model).written + [e])
      ensures |all| == |old(all)| + 1 && all[..|old(all)|] == old(all)
    {
      var pkt := new Node(e, |all|);
      assert pkt !in freed;
      Append(pkt);
      model := model.(written := model.written + [e]);
      assert Linked(model.cleaned) && Marked();
    }

    /** Links a new node at the end of the list. */
    method Append(pkt: Node)
      requires Linked(model.cleaned) && Marked() && Consistent(model) && |all| == |model.written|
      requires pkt.number == |all| && pkt.next == null && pkt !in freed
      modifies this`packetLinger, this`lastPktLinger, this`all, all
      ensures all == old(all) + [pkt] && Linked(model.cleaned) && Marked()
    {
      if packetLinger == null {
        packetLinger := pkt;
        lastPktLinger := pkt;
      } else {
        lastPktLinger.next := pkt;
        lastPktLinger := pkt;
      }
      all := all + [pkt];
    }

    /** `dpt_queue_linger`: where the reader starts; it reads up to the mark. */
    method SnapshotList() returns (first: Node?)
      requires Valid()
      modifies this
      ensures Valid() && model == Step(old(model), Snapshot).s && all == old(all)
      ensures first == null <==> model.cleaned == |all|
      ensures first != null ==> first == all[model.cleaned] && lstCall == all[|all| - 1]
    {
      lstCall := lastPktLinger;
      first := packetLinger;
      model := Step(model, Snapshot).s;
    }

    /** `destroy_after_transmitted_codel`. */
    method DeclareTransmitted()
      requires Valid()
      modifies this
      ensures Valid() && model == Step(old(model), Destroy).s && all == old(all)
    {
      readLin := true;
      model := Step(model, Destroy).s;
    }
  }
}
