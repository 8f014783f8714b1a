/** Bundles that fail: what their reverts always restore, what they leave behind, and when that is nothing. */
module BundleFailure {
  import opened FlowTable
  import opened FlowMod
  import opened FlowModRevert
  import opened FlowModInv
  import opened FlowSpec
  import opened FlowRefine
  import opened FlowShape
  import opened FlowSound
  import opened GroupMod
  import opened Bundle

  // ---------- the records of a failed bundle always fit ----------

  /** `t` has the rules of `s`, with their contents, and the groups of `s`, members aside. */
  ghost predicate Covers(s: Switch, t: Switch) {
    SameFrame(s, t) && s.rules.Keys <= t.rules.Keys && forall id :: id in s.rules ==> t.rules[id].c == s.rules[id].c
  }

  lemma StillRevertible(a: Switch, t: Switch, m: FlowMod, u: Undo)
    requires Revertible(a, m, u) && Covers(a, t)
    ensures Revertible(t, m, u)
  {
    match m {
      case Delete(_) => forall i | 0 <= i < |u.olds| ensures u.olds[i] in t.rules { assert u.olds[i] in a.rules; }
      case _ =>
        if u.olds != [] {
          forall i | 0 <= i < |u.olds|
            ensures u.olds[i] in t.rules && u.news[i] in t.rules && t.rules[u.news[i]].c.key.table < |t.nFlows|
          {
            assert u.olds[i] in a.rules && u.news[i] in a.rules;
          }
        }
    }
  }

  lemma StillPaired(a: Switch, t: Switch, m: FlowMod, u: Undo)
    requires Paired(a, m, u) && Covers(a, t)
    ensures Paired(t, m, u)
  {
  }

  lemma RecordApart(s: Switch, t: Switch, v: nat, u: Undo)
    requires StartShape(s, t, v, SetOf(u.olds), SetOf(u.news))
    ensures SetOf(u.olds) !! SetOf(u.news)
  {
  }

  lemma FlowFits(s: Switch, next: nat, v: nat, m: FlowMod, st: Started, t: Switch)
    requires Recorded(s, next, v, m, st) && Covers(st.s, t)
    ensures Revertible(t, m, st.undo) && SetOf(st.undo.olds) !! SetOf(st.undo.news) && Paired(t, m, st.undo)
    ensures Covers(s, Revert(t, m, st.undo))
  {
    StillRevertible(st.s, t, m, st.undo);
    StillPaired(st.s, t, m, st.undo);
    RecordApart(s, st.s, v, st.undo);
    RevertHasShape(t, m, st.undo);
    CoversStep(s, v, m, st, t, Revert(t, m, st.undo));
  }

  lemma CoversStep(s: Switch, v: nat, m: FlowMod, st: Started, t: Switch, t': Switch)
    requires StartShape(s, st.s, v, SetOf(st.undo.olds), SetOf(st.undo.news)) && Covers(st.s, t)
    requires RevertShape(t, t', SetOf(st.undo.olds), Dropped(m, st.undo))
    ensures Covers(s, t')
  {
    FrameThen(s, st.s, t);
    FrameThen(s, t, t');
    forall id | id in s.rules ensures id in t'.rules && t'.rules[id].c == s.rules[id].c {
      if id in SetOf(st.undo.olds) { assert Unmarked(st.s.rules[id]).c == s.rules[id].c; }
    }
  }

  lemma GroupFits(s: Switch, next: nat, v: nat, g: GMod, t: Switch)
    requires Runnable(s, next) && g.kind < |s.nGroups| && GroupStart(s, next, v, g).Ok?
    requires Covers(GroupStart(s, next, v, g).value.s, t)
    ensures var u := GroupStart(s, next, v, g).value.undo; GroupRevertible(t, u) && Covers(s, GroupRevert(t, u))
  {
    var st := GroupStart(s, next, v, g).value;
    GroupRevertUndoesStart(s, next, v, g);
    GroupRevertAlike(st.s, t, st.undo);
  }

  /** What group reverts do, they do to groups with other members just as well. */
  lemma GroupRevertAlike(a: Switch, t: Switch, u: GUndo)
    requires GroupRevertible(a, u) && SameFrame(a, t)
    ensures GroupRevertible(t, u)
    ensures SameFrame(GroupRevert(a, u), GroupRevert(t, u))
  {
    assert t.groups[u.id].(members := multiset{}) == a.groups[u.id].(members := multiset{});
    assert t.groups[u.id].(members := multiset{}).kind == t.groups[u.id].kind;
    if u.prior.Some? {
      var p := u.prior.value;
      assert t.groups[p].(members := multiset{}) == a.groups[p].(members := multiset{});
      assert t.groups[p].(members := multiset{}).kind == t.groups[p].kind;
    }
    var x, y := GroupRevert(a, u), GroupRevert(t, u);
    forall h | h in x.groups ensures y.groups[h].(members := multiset{}) == x.groups[h].(members := multiset{}) {
      assert t.groups[h].(members := multiset{}) == a.groups[h].(members := multiset{});
    }
  }

  lemma MsgFits(s: Switch, next: nat, v: nat, msg: Msg, d: Done, t: Switch)
    requires Runnable(s, next) && MsgReady(s, msg) && StartMsg(s, next, v, msg) == Ok(d) && Covers(d.s, t)
    ensures MsgRevertible(t, msg, d.undo) && Covers(s, RevertMsg(t, msg, d.undo))
  {
    match msg {
      case FlowMsg(m) =>
        StartRecorded(s, next, v, m);
        FlowFits(s, next, v, m, Start(s, next, v, m).value, t);
      case GroupMsg(g) => GroupFits(s, next, v, g, t);
    }
  }

  /** `t` is what remains of the started messages `msgs`, begun in `s` and all reverted. */
  ghost predicate Reverted(s: Switch, next: nat, v: nat, msgs: seq<Msg>, t: Switch) {
    && Runnable(s, next) && AllReady(s, msgs)
    && RevertAll(BeginAll(s, next, v, msgs).s, msgs, BeginAll(s, next, v, msgs).undos) == Some(t)
  }

  lemma NothingReverted(s: Switch, next: nat, v: nat, msgs: seq<Msg>)
    requires Runnable(s, next) && AllReady(s, msgs)
    requires msgs == [] || (assert MsgReady(s, msgs[0]); StartMsg(s, next, v, msgs[0]).Err?)
    ensures Reverted(s, next, v, msgs, s)
  {
  }

  /** The last message to be reverted is the first one started. */
  lemma RevertedStep(s: Switch, next: nat, v: nat, msgs: seq<Msg>, d: Done, t: Switch)
    requires Runnable(s, next) && AllReady(s, msgs) && msgs != []
    requires MsgReady(s, msgs[0]) && StartMsg(s, next, v, msgs[0]) == Ok(d)
    requires Reverted(d.s, d.next, v, msgs[1..], t) && MsgRevertible(t, msgs[0], d.undo)
    ensures Reverted(s, next, v, msgs, RevertMsg(t, msgs[0], d.undo))
  {
    var b := BeginAll(d.s, d.next, v, msgs[1..]);
    StartMsgRunnable(s, next, v, msgs[0]);
    assert ([d.undo] + b.undos)[1..] == b.undos;
  }

  lemma {:induction false} RevertAllFits(s: Switch, next: nat, v: nat, msgs: seq<Msg>) returns (t: Switch)
    requires Runnable(s, next) && AllReady(s, msgs)
    ensures Reverted(s, next, v, msgs, t) && Covers(s, t)
    decreases |msgs|
  {
    if msgs == [] {
      t := s;
      NothingReverted(s, next, v, msgs);
    } else {
      assert MsgReady(s, msgs[0]);
      match StartMsg(s, next, v, msgs[0]) {
        case Err(_) =>
          t := s;
          NothingReverted(s, next, v, msgs);
        case Ok(d) =>
          StartMsgRunnable(s, next, v, msgs[0]);
          ReadyRest(s, d.s, msgs);
          var t1 := RevertAllFits(d.s, d.next, v, msgs[1..]);
          MsgFits(s, next, v, msgs[0], d, t1);
          RevertedStep(s, next, v, msgs, d, t1);
          t := RevertMsg(t1, msgs[0], d.undo);
      }
    }
  }

  /** A bundle is always brought to an end, in whatever state it is committed: every record of what was started still fits
      when its turn to be reverted comes. */
  lemma CommitConcludesAlways(s: Switch, next: nat, msgs: seq<Msg>)
    requires Runnable(s, next) && AllReady(s, msgs)
    ensures Commit(s, next, msgs).Some?
  {
    var t := RevertAllFits(s, next, s.version + 1, msgs);
    CommitConcludes(s, next, msgs, BeginAll(s, next, s.version + 1, msgs));
  }

  // ---------- what remains of a failed bundle ----------

  /** `r'` has the rules of `r`, some perhaps marked as evicted since, and besides them `left`, to be shown from
      version `v` on. */
  ghost predicate RulesEcho(r: map<Id, Rule>, r': map<Id, Rule>, v: nat, left: map<Id, Content>) {
    && left.Keys !! r.Keys && r'.Keys == r.Keys + left.Keys
    && (forall id :: id in r ==> Unmarked(r'[id]) == Unmarked(r[id]) && (r[id].evicted ==> r'[id].evicted))
    && (forall id :: id in left ==> Unmarked(r'[id]) == Rule(left[id], Versions(v, None), Inserted, false))
  }

  ghost predicate Echo(s: Switch, t: Switch, v: nat, left: map<Id, Content>) {
    RulesEcho(s.rules, t.rules, v, left) && SameFrame(s, t)
  }

  lemma EchoCovers(s: Switch, t: Switch, v: nat, left: map<Id, Content>)
    requires Echo(s, t, v, left)
    ensures Covers(s, t)
  {
    forall id | id in s.rules ensures t.rules[id].c == s.rules[id].c { assert Unmarked(t.rules[id]).c == s.rules[id].c; }
  }

  /** The rules a reverted message leaves in place: those that a modify added. */
  ghost function FlowLeaves(m: FlowMod, st: Started): map<Id, Content> {
    map id | id in LeftBehind(m, st.undo) && id in st.s.rules :: st.s.rules[id].c
  }

  lemma EchoRules(r: map<Id, Rule>, r1: map<Id, Rule>, t1: map<Id, Rule>, t: map<Id, Rule>, v: nat,
                  olds: set<Id>, news: set<Id>, dropped: set<Id>, left: map<Id, Content>, here: map<Id, Content>)
    requires RulesStarted(r, r1, v, olds, news) && RulesEcho(r1, t1, v, left) && RulesReverted(t1, t, olds, dropped)
    requires forall id :: id in olds ==> r[id].state.Inserted? && r[id].versions.remove.None?
    requires dropped <= news && here.Keys == news - dropped && forall id :: id in here ==> here[id] == r1[id].c
    ensures RulesEcho(r, t, v, here + left)
  {
    forall id | id in r
      ensures id in t && Unmarked(t[id]) == Unmarked(r[id]) && (r[id].evicted ==> t[id].evicted)
    {
      assert id in r1 && id !in news;
      if id in olds { OldIsBack(r[id], r1[id], t1[id], v); }
    }
    forall id | id in here + left
      ensures id in t && Unmarked(t[id]) == Rule((here + left)[id], Versions(v, None), Inserted, false)
    {
      if id in news { assert Newborn(r1[id], v); }
    }
  }

  lemma OldIsBack(o: Rule, o1: Rule, t1: Rule, v: nat)
    requires o.state.Inserted? && o.versions.remove.None?
    requires Unmarked(o1) == Unmarked(Gone(o, v)) && Unmarked(t1) == Unmarked(o1)
    ensures Unmarked(Reborn(t1)) == Unmarked(o)
  {
    assert t1.c == Unmarked(o1).c == o.c;
    assert t1.versions == Unmarked(o1).versions == o.versions.(remove := Some(v));
  }

  lemma EchoFlow(s: Switch, next: nat, v: nat, m: FlowMod, st: Started, t1: Switch, left: map<Id, Content>)
    requires Recorded(s, next, v, m, st) && Echo(st.s, t1, v, left)
    requires Dated(s, v) && AllInserted(s, SetOf(st.undo.olds))
    ensures Revertible(t1, m, st.undo) && Echo(s, Revert(t1, m, st.undo), v, FlowLeaves(m, st) + left)
  {
    EchoCovers(st.s, t1, v, left);
    FlowFits(s, next, v, m, st, t1);
    RevertHasShape(t1, m, st.undo);
    LeavesAre(s, next, v, m, st);
    LiveOlds(s, v, SetOf(st.undo.olds));
    EchoRules(s.rules, st.s.rules, t1.rules, Revert(t1, m, st.undo).rules, v,
              SetOf(st.undo.olds), SetOf(st.undo.news), Dropped(m, st.undo), left, FlowLeaves(m, st));
    FrameThen(s, st.s, t1);
    FrameThen(s, t1, Revert(t1, m, st.undo));
  }

  lemma LiveOlds(s: Switch, v: nat, olds: set<Id>)
    requires Dated(s, v) && AllInserted(s, olds)
    ensures forall id :: id in olds ==> id in s.rules && s.rules[id].state.Inserted? && s.rules[id].versions.remove.None?
  {
    forall id | id in olds ensures IsInserted(s, id) && s.rules[id].versions.remove.None? { assert Indexed(s, id); }
  }

  lemma LeavesAre(s: Switch, next: nat, v: nat, m: FlowMod, st: Started)
    requires Recorded(s, next, v, m, st)
    ensures Dropped(m, st.undo) <= SetOf(st.undo.news)
    ensures FlowLeaves(m, st).Keys == SetOf(st.undo.news) - Dropped(m, st.undo)
  {
    if m.Delete? { assert SetOf(st.undo.news) == {}; }
  }

  lemma EchoGroup(s: Switch, next: nat, v: nat, g: GMod, st: GStarted, t1: Switch, left: map<Id, Content>)
    requires Runnable(s, next) && g.kind < |s.nGroups| && GroupStart(s, next, v, g) == Ok(st)
    requires Echo(st.s, t1, v, left)
    ensures GroupRevertible(t1, st.undo) && Echo(s, GroupRevert(t1, st.undo), v, left)
  {
    EchoCovers(st.s, t1, v, left);
    GroupFits(s, next, v, g, t1);
    GroupStartRunnable(s, next, v, g);
    SameRulesEcho(s, st.s, t1, GroupRevert(t1, st.undo), v, left);
  }

  lemma SameRulesEcho(s: Switch, s1: Switch, t1: Switch, t: Switch, v: nat, left: map<Id, Content>)
    requires RulesEcho(s1.rules, t1.rules, v, left) && s.rules == s1.rules && t.rules == t1.rules && Covers(s, t)
    ensures Echo(s, t, v, left)
  {
  }

  ghost function MsgLeaves(msg: Msg, d: Done): map<Id, Content> {
    if msg.FlowMsg? && d.undo.FlowUndo? then FlowLeaves(msg.m, Started(d.s, d.next, d.undo.u)) else map[]
  }

  lemma EchoStarted(s: Switch, next: nat, v: nat, m: FlowMod, t1: Switch, left: map<Id, Content>)
    requires Sound(s, next, v) && ModReady(s, m) && Start(s, next, v, m).Ok?
    requires Echo(Start(s, next, v, m).value.s, t1, v, left)
    ensures var st := Start(s, next, v, m).value;
            Revertible(t1, m, st.undo) && Echo(s, Revert(t1, m, st.undo), v, FlowLeaves(m, st) + left)
  {
    StartKeepsSound(s, next, v, m);
    EchoFlow(s, next, v, m, Start(s, next, v, m).value, t1, left);
  }

  /** Reverting the message in `t1` leads back to `s`, but for the marks of eviction and what the message has left. */
  ghost predicate EchoedBy(s: Switch, t1: Switch, v: nat, msg: Msg, d: Done, left: map<Id, Content>) {
    MsgRevertible(t1, msg, d.undo) && Echo(s, RevertMsg(t1, msg, d.undo), v, MsgLeaves(msg, d) + left)
  }

  lemma EchoFlowMsg(s: Switch, next: nat, v: nat, m: FlowMod, d: Done, t1: Switch, left: map<Id, Content>)
    requires Sound(s, next, v) && ModReady(s, m) && StartMsg(s, next, v, FlowMsg(m)) == Ok(d)
    requires Echo(d.s, t1, v, left)
    ensures EchoedBy(s, t1, v, FlowMsg(m), d, left)
  {
    EchoStarted(s, next, v, m, t1, left);
  }

  lemma StartedGroup(s: Switch, next: nat, v: nat, g: GMod, d: Done) returns (st: GStarted)
    requires Runnable(s, next) && g.kind < |s.nGroups| && StartMsg(s, next, v, GroupMsg(g)) == Ok(d)
    ensures GroupStart(s, next, v, g) == Ok(st) && d == Done(st.s, st.next, GroupUndo(st.undo))
  {
    st := GroupStart(s, next, v, g).value;
  }

  lemma EchoGroupMsg(s: Switch, next: nat, v: nat, g: GMod, d: Done, t1: Switch, left: map<Id, Content>)
    requires Runnable(s, next) && g.kind < |s.nGroups| && StartMsg(s, next, v, GroupMsg(g)) == Ok(d)
    requires Echo(d.s, t1, v, left)
    ensures EchoedBy(s, t1, v, GroupMsg(g), d, left)
  {
    var st := StartedGroup(s, next, v, g, d);
    EchoGroup(s, next, v, g, st, t1, left);
    GroupLeavesNothing(s, t1, v, g, d, left, st.undo);
  }

  lemma GroupLeavesNothing(s: Switch, t1: Switch, v: nat, g: GMod, d: Done, left: map<Id, Content>, u: GUndo)
    requires d.undo == GroupUndo(u) && GroupRevertible(t1, u) && Echo(s, GroupRevert(t1, u), v, left)
    ensures EchoedBy(s, t1, v, GroupMsg(g), d, left)
  {
    assert MsgLeaves(GroupMsg(g), d) + left == left;
    assert RevertMsg(t1, GroupMsg(g), d.undo) == GroupRevert(t1, u);
  }

  lemma EchoMsg(s: Switch, next: nat, v: nat, msg: Msg, d: Done, t1: Switch, left: map<Id, Content>)
    requires Sound(s, next, v) && MsgReady(s, msg) && StartMsg(s, next, v, msg) == Ok(d)
    requires Echo(d.s, t1, v, left)
    ensures EchoedBy(s, t1, v, msg, d, left)
  {
    match msg {
      case FlowMsg(m) => EchoFlowMsg(s, next, v, m, d, t1, left);
      case GroupMsg(g) => EchoGroupMsg(s, next, v, g, d, t1, left);
    }
  }

  /** The rules that modifies among the started messages have added: their reverts leave these in place. */
  ghost function Leftover(s: Switch, next: nat, v: nat, msgs: seq<Msg>): map<Id, Content>
    requires Runnable(s, next) && AllReady(s, msgs)
    decreases |msgs|
  {
    if msgs == [] then map[] else
      assert MsgReady(s, msgs[0]);
      match StartMsg(s, next, v, msgs[0])
      case Err(_) => map[]
      case Ok(d) =>
        StartMsgRunnable(s, next, v, msgs[0]);
        ReadyRest(s, d.s, msgs);
        MsgLeaves(msgs[0], d) + Leftover(d.s, d.next, v, msgs[1..])
  }

  lemma NoEcho(s: Switch, v: nat)
    ensures Echo(s, s, v, map[])
  {
  }

  lemma GroupStartKeepsSound(s: Switch, next: nat, v: nat, g: GMod)
    requires Sound(s, next, v) && g.kind < |s.nGroups| && GroupStart(s, next, v, g).Ok?
    ensures Sound(GroupStart(s, next, v, g).value.s, next + 1, v)
  {
    GroupStartKeepsOrder(s, next, v, g);
    var t := GroupStart(s, next, v, g).value.s;
    GroupStartRunnable(s, next, v, g);
    forall id: nat ensures Heaped(t, id) { assert Heaped(s, id); }
    forall k | 0 <= k < |t.nFlows| ensures t.nFlows[k] == |InTable(t, k)| { assert InTable(t, k) == InTable(s, k); }
  }

  lemma GroupStartKeepsOrder(s: Switch, next: nat, v: nat, g: GMod)
    requires Orderly(s, next, v) && g.kind < |s.nGroups| && GroupStart(s, next, v, g).Ok?
    ensures Orderly(GroupStart(s, next, v, g).value.s, next + 1, v)
  {
    var st := GroupStart(s, next, v, g).value;
    GroupStartRunnable(s, next, v, g);
    match FindGroup(s, g.gid) {
      case Some(p) =>
        assert IsCurrent(s, g.gid, p);
        SwapIsRegrouped(s, next, v, p, g);
        RegroupedKeepsGroupsOk(s, st.s, next, v, Some(p), g);
      case None =>
        assert !GroupKnown(s, g.gid) by {
          if GroupKnown(s, g.gid) {
            var p :| p in s.groups && s.groups[p].gid == g.gid && s.groups[p].versions.remove.None?;
            assert IsCurrent(s, g.gid, p);
          }
        }
        AddIsRegrouped(s, next, v, g);
        RegroupedKeepsGroupsOk(s, st.s, next, v, None, g);
    }
    forall id: nat ensures Indexed(st.s, id) { assert Indexed(s, id); }
  }

  lemma StartMsgKeepsSound(s: Switch, next: nat, v: nat, msg: Msg)
    requires Sound(s, next, v) && MsgReady(s, msg) && StartMsg(s, next, v, msg).Ok?
    ensures var d := StartMsg(s, next, v, msg).value; Sound(d.s, d.next, v)
  {
    match msg {
      case FlowMsg(m) => StartKeepsSound(s, next, v, m);
      case GroupMsg(g) => GroupStartKeepsSound(s, next, v, g);
    }
  }

  lemma {:induction false} RevertAllEchoes(s: Switch, next: nat, v: nat, msgs: seq<Msg>) returns (t: Switch)
    requires Sound(s, next, v) && AllReady(s, msgs)
    ensures Reverted(s, next, v, msgs, t) && Echo(s, t, v, Leftover(s, next, v, msgs))
    decreases |msgs|
  {
    if msgs == [] {
      t := s;
      NothingReverted(s, next, v, msgs);
      NoEcho(s, v);
    } else {
      assert MsgReady(s, msgs[0]);
      match StartMsg(s, next, v, msgs[0]) {
        case Err(_) =>
          t := s;
          NothingReverted(s, next, v, msgs);
          NoEcho(s, v);
        case Ok(d) =>
          StartMsgKeepsSound(s, next, v, msgs[0]);
          StartMsgRunnable(s, next, v, msgs[0]);
          ReadyRest(s, d.s, msgs);
          var t1 := RevertAllEchoes(d.s, d.next, v, msgs[1..]);
          EchoMsg(s, next, v, msgs[0], d, t1, Leftover(d.s, d.next, v, msgs[1..]));
          RevertedStep(s, next, v, msgs, d, t1);
          t := RevertMsg(t1, msgs[0], d.undo);
      }
    }
  }

  // ---------- what lookups see of a failed bundle ----------

  /** Versions before `v` and all groups look the same in an echo. */
  lemma EchoViews(s: Switch, t: Switch, next: nat, v: nat, left: map<Id, Content>)
    requires Echo(s, t, v, left) && GroupsOk(s, next, v)
    ensures forall w: nat :: w < v ==> PlainAt(t, w) == PlainAt(s, w)
  {
    SameGroups(s, t, next, next, v);
    forall w: nat | w < v ensures View(t, w) == View(s, w) {
      forall id | id in t.rules
        ensures id in ViewIds(t, w) <==> id in ViewIds(s, w)
        ensures id in s.rules ==> t.rules[id].c == s.rules[id].c
      {
        if id in s.rules { assert Unmarked(t.rules[id]).versions == s.rules[id].versions && Unmarked(t.rules[id]).c == s.rules[id].c; }
        else { assert Unmarked(t.rules[id]).versions.add == v; }
      }
      SameImage(s, t, w);
    }
  }

  lemma SameImage(s: Switch, t: Switch, w: nat)
    requires ViewIds(t, w) == ViewIds(s, w) && forall id :: id in ViewIds(s, w) ==> t.rules[id].c == s.rules[id].c
    ensures View(t, w) == View(s, w)
  {
    forall x | x in View(s, w) ensures x in View(t, w) {
      var id :| id in ViewIds(s, w) && s.rules[id].c == x;
      assert t.rules[id].c == x;
    }
  }

  /** No two of the rules `left` have one key, and none has the key of an inserted rule. */
  ghost predicate NoClash(s: Switch, left: map<Id, Content>) {
    && (forall i, j :: i in left && j in left && i != j ==> left[i].key != left[j].key)
    && (forall i, x :: i in left && IsInserted(s, x) ==> left[i].key != s.rules[x].c.key)
  }

  lemma EchoKeepsKeysApart(s: Switch, t: Switch, v: nat, left: map<Id, Content>)
    requires Echo(s, t, v, left) && Dated(s, v) && OneRulePerKey(s) && NoClash(s, left)
    ensures OneRulePerKey(t)
  {
    forall i, j | i in t.rules && j in t.rules && i != j && t.rules[i].c.key == t.rules[j].c.key
      ensures NeverTogether(t.rules[i].versions, t.rules[j].versions)
    {
      assert i in s.rules ==> Unmarked(t.rules[i]) == Unmarked(s.rules[i]);
      assert j in s.rules ==> Unmarked(t.rules[j]) == Unmarked(s.rules[j]);
      if i in s.rules && j in s.rules {
        assert t.rules[i].versions == Unmarked(t.rules[i]).versions == s.rules[i].versions;
        assert t.rules[j].versions == Unmarked(t.rules[j]).versions == s.rules[j].versions;
        assert t.rules[i].c == Unmarked(t.rules[i]).c == s.rules[i].c;
        assert t.rules[j].c == Unmarked(t.rules[j]).c == s.rules[j].c;
        assert NeverTogether(s.rules[i].versions, s.rules[j].versions);
      } else if i in s.rules {
        LeftIsApart(s, t, v, left, i, j);
      } else if j in s.rules {
        LeftIsApart(s, t, v, left, j, i);
      } else {
        assert false;
      }
    }
  }

  lemma LeftIsApart(s: Switch, t: Switch, v: nat, left: map<Id, Content>, i: Id, j: Id)
    requires Echo(s, t, v, left) && Dated(s, v) && i in s.rules && j in left
    requires left[j].key == s.rules[i].c.key && NoClash(s, left)
    ensures NeverTogether(t.rules[i].versions, t.rules[j].versions)
    ensures NeverTogether(t.rules[j].versions, t.rules[i].versions)
  {
    assert !IsInserted(s, i) && Indexed(s, i) && Timely(s.rules[i].versions, v);
    assert t.rules[i].versions == Unmarked(t.rules[i]).versions == s.rules[i].versions;
    assert t.rules[j].versions == Unmarked(t.rules[j]).versions == Versions(v, None);
  }

  lemma ClashIsSeen(s: Switch, t: Switch, v: nat, left: map<Id, Content>)
    requires Echo(s, t, v, left) && Dated(s, v) && !NoClash(s, left)
    ensures !OneRulePerKey(t)
  {
    forall i | i in left ensures t.rules[i].c == left[i] && t.rules[i].versions == Versions(v, None) {
      assert Unmarked(t.rules[i]).c == left[i] && Unmarked(t.rules[i]).versions == Versions(v, None);
    }
    if i, j :| i in left && j in left && i != j && left[i].key == left[j].key {
      assert VisibleAt(t.rules[i].versions, v) && VisibleAt(t.rules[j].versions, v);
    } else {
      var i, x :| i in left && IsInserted(s, x) && left[i].key == s.rules[x].c.key;
      assert Indexed(s, x) && Timely(s.rules[x].versions, v);
      assert t.rules[x].versions == Unmarked(t.rules[x]).versions == s.rules[x].versions;
      assert t.rules[x].c == Unmarked(t.rules[x]).c == s.rules[x].c;
      assert VisibleAt(t.rules[i].versions, v) && VisibleAt(t.rules[x].versions, v);
    }
  }

  // ---------- what cannot be restored ----------

  /** A trace of messages started in `s` that reverting them does not wipe out: a rule they added, an entry it has in
      a heap, or a rule of `s` marked as evicted and standing in its heap twice. */
  ghost predicate ScarAt(s: Switch, t: Switch, next: nat, id: Id) {
    || (id >= next && (id in t.rules || t.evictable[id] > 0))
    || (IsInserted(s, id) && id in t.rules && t.rules[id].evicted && t.evictable[id] >= 2)
  }

  ghost predicate Scarred(s: Switch, t: Switch, next: nat) {
    exists id: nat :: ScarAt(s, t, next, id)
  }

  lemma ScarIsChange(s: Switch, t: Switch, next: nat, v: nat)
    requires Sound(s, next, v) && Scarred(s, t, next)
    ensures t != s
  {
    var id: nat :| ScarAt(s, t, next, id);
    assert Heaped(s, id);
  }

  lemma ScarStays(s: Switch, next: nat, v: nat, m: FlowMod, st: Started, t1: Switch, t: Switch)
    requires Runnable(s, next) && Recorded(s, next, v, m, st) && Scarred(st.s, t1, st.next)
    requires RevertShape(t1, t, SetOf(st.undo.olds), Dropped(m, st.undo))
    ensures Scarred(s, t, next)
  {
    var id: nat :| ScarAt(st.s, t1, st.next, id);
    LeavesAre(s, next, v, m, st);
    OldsAreRemoved(s, st.s, v, SetOf(st.undo.olds), SetOf(st.undo.news));
    if id in Dropped(m, st.undo) { assert t.evictable[id] == Less(t1.evictable[id], 1); }
    else { assert t.evictable[id] == t1.evictable[id]; }
    assert ScarAt(s, t, next, id);
  }

  lemma OldsAreRemoved(s: Switch, t: Switch, v: nat, olds: set<Id>, news: set<Id>)
    requires StartShape(s, t, v, olds, news)
    ensures forall id :: id in olds ==> id in t.rules && t.rules[id].state.Removed?
  {
    forall id | id in olds ensures t.rules[id].state.Removed? { assert Unmarked(t.rules[id]).state.Removed?; }
  }

  /** An evicted rule comes back marked, and twice into its heap. */
  lemma UnreplaceMarked(t1: Switch, w: Id, id: Id)
    requires w in t1.rules && id in t1.rules && w != id && t1.rules[id].c.key.table < |t1.nFlows|
    requires t1.rules[w].evicted && Evictable(t1.tables, t1.rules[w].c)
    ensures var t := Unreplace(t1, Some(w), id);
            IsInserted(t, w) && t.rules[w].evicted && t.evictable[w] >= 2
  {
  }

  /** The add, or the modify that found nothing to modify, evicts a rule. */
  ghost predicate Evicting(s: Switch, v: nat, c: Content)
    requires c.key.table < |s.nFlows| == |s.tables|
  {
    AddsNewKey(s, v, c) && s.nFlows[c.key.table] >= s.tables[c.key.table].maxFlows
  }

  lemma EvictedIs(s: Switch, next: nat, v: nat, c: Content, isAdd: bool)
    requires Sound(s, next, v) && c.key.table < |s.tables| && AddStart(s, next, v, c, isAdd).Ok? && Evicting(s, v, c)
    ensures var st := AddStart(s, next, v, c, isAdd).value;
            && |st.undo.olds| == 1 && st.undo.news == [next] && st.undo.olds[0] < next
            && IsInserted(s, st.undo.olds[0]) && Evictable(s.tables, s.rules[st.undo.olds[0]].c)
            && st.undo.olds[0] in st.s.rules && st.s.rules[st.undo.olds[0]].evicted
  {
    var w := Victim(s, c.key.table).value;
    assert CanBeVictim(s, c.key.table, w) && Heaped(s, w);
  }

  lemma RevertOfOne(t1: Switch, m: FlowMod, w: Id, id: Id)
    requires !m.Delete? && Revertible(t1, m, Undo([w], [id])) && w != id
    ensures w in t1.rules && id in t1.rules && t1.rules[id].c.key.table < |t1.nFlows|
    ensures Revert(t1, m, Undo([w], [id])) == Unreplace(t1, Some(w), id)
  {
    if m.Modify? { UnreplaceAllOfOne(t1, w, id); }
    assert [w][0] == w && [id][0] == id;
  }

  lemma EvictionScars(s: Switch, next: nat, v: nat, m: FlowMod, st: Started, t1: Switch, w: Id)
    requires !m.Delete? && Recorded(s, next, v, m, st) && Covers(st.s, t1)
    requires st.undo == Undo([w], [next]) && w < next
    requires IsInserted(s, w) && Evictable(s.tables, s.rules[w].c) && w in st.s.rules && st.s.rules[w].c == s.rules[w].c
    requires w in t1.rules && t1.rules[w].evicted
    ensures Revertible(t1, m, st.undo) && Scarred(s, Revert(t1, m, st.undo), next)
  {
    StillRevertible(st.s, t1, m, st.undo);
    RevertOfOne(t1, m, w, next);
    UnreplaceMarked(t1, w, next);
    assert ScarAt(s, Revert(t1, m, st.undo), next, w);
  }

  lemma EvictionEchoScars(s: Switch, next: nat, v: nat, m: FlowMod, st: Started, t1: Switch, left: map<Id, Content>)
    requires Runnable(s, next) && !m.Delete? && Recorded(s, next, v, m, st) && Echo(st.s, t1, v, left)
    requires |st.undo.olds| == 1 && st.undo.news == [next] && st.undo.olds[0] < next
    requires var w := st.undo.olds[0];
             && IsInserted(s, w) && Evictable(s.tables, s.rules[w].c) && w in st.s.rules && st.s.rules[w].evicted
    ensures Revertible(t1, m, st.undo) && Scarred(s, Revert(t1, m, st.undo), next)
  {
    var w := st.undo.olds[0];
    EchoCovers(st.s, t1, v, left);
    assert w in SetOf(st.undo.olds) && Unmarked(st.s.rules[w]).c == s.rules[w].c;
    assert st.undo.olds == [w];
    EvictionScars(s, next, v, m, st, t1, w);
  }

  lemma AddedStays(s: Switch, next: nat, v: nat, m: FlowMod, st: Started, t1: Switch, left: map<Id, Content>)
    requires Runnable(s, next) && m.Modify? && Recorded(s, next, v, m, st) && Echo(st.s, t1, v, left)
    requires st.undo == Undo([], [next])
    ensures Revertible(t1, m, st.undo) && Scarred(s, Revert(t1, m, st.undo), next)
  {
    assert next in SetOf(st.undo.news);
    assert ScarAt(s, t1, next, next);
  }

  lemma UncleanFlowScars(s: Switch, next: nat, v: nat, m: FlowMod, t1: Switch, left: map<Id, Content>)
    requires Sound(s, next, v) && ModReady(s, m) && Start(s, next, v, m).Ok? && !Clean(s, next, v, m)
    requires Echo(Start(s, next, v, m).value.s, t1, v, left)
    ensures var u := Start(s, next, v, m).value.undo; Revertible(t1, m, u) && Scarred(s, Revert(t1, m, u), next)
  {
    var st := Start(s, next, v, m).value;
    StartRecorded(s, next, v, m);
    if Evicting(s, v, m.c) {
      EvictedIs(s, next, v, m.c, m.Add?);
      EvictionEchoScars(s, next, v, m, st, t1, left);
    } else {
      AddedStays(s, next, v, m, st, t1, left);
    }
  }

  lemma FlowScarStays(s: Switch, next: nat, v: nat, m: FlowMod, d: Done, t1: Switch)
    requires Runnable(s, next) && ModReady(s, m) && StartMsg(s, next, v, FlowMsg(m)) == Ok(d)
    requires Covers(d.s, t1) && Scarred(d.s, t1, d.next)
    ensures MsgRevertible(t1, FlowMsg(m), d.undo) && Scarred(s, RevertMsg(t1, FlowMsg(m), d.undo), next)
  {
    var st := Start(s, next, v, m).value;
    StartRecorded(s, next, v, m);
    FlowFits(s, next, v, m, st, t1);
    RevertHasShape(t1, m, st.undo);
    ScarStays(s, next, v, m, st, t1, Revert(t1, m, st.undo));
  }

  lemma GroupScarStays(s: Switch, next: nat, v: nat, g: GMod, d: Done, t1: Switch)
    requires Runnable(s, next) && g.kind < |s.nGroups| && StartMsg(s, next, v, GroupMsg(g)) == Ok(d)
    requires Covers(d.s, t1) && Scarred(d.s, t1, d.next)
    ensures MsgRevertible(t1, GroupMsg(g), d.undo) && Scarred(s, RevertMsg(t1, GroupMsg(g), d.undo), next)
  {
    var st := StartedGroup(s, next, v, g, d);
    GroupStartRunnable(s, next, v, g);
    GroupFits(s, next, v, g, t1);
    var id: nat :| ScarAt(d.s, t1, d.next, id);
    assert ScarAt(s, GroupRevert(t1, st.undo), next, id);
  }

  lemma MsgScarStays(s: Switch, next: nat, v: nat, msg: Msg, d: Done, t1: Switch)
    requires Runnable(s, next) && MsgReady(s, msg) && StartMsg(s, next, v, msg) == Ok(d)
    requires Covers(d.s, t1) && Scarred(d.s, t1, d.next)
    ensures MsgRevertible(t1, msg, d.undo) && Scarred(s, RevertMsg(t1, msg, d.undo), next)
  {
    match msg {
      case FlowMsg(m) => FlowScarStays(s, next, v, m, d, t1);
      case GroupMsg(g) => GroupScarStays(s, next, v, g, d, t1);
    }
  }

  lemma UncleanMsgScars(s: Switch, next: nat, v: nat, msg: Msg, d: Done, t1: Switch, left: map<Id, Content>)
    requires Sound(s, next, v) && MsgReady(s, msg) && StartMsg(s, next, v, msg) == Ok(d) && !CleanMsg(s, next, v, msg)
    requires Echo(d.s, t1, v, left)
    ensures MsgRevertible(t1, msg, d.undo) && Scarred(s, RevertMsg(t1, msg, d.undo), next)
  {
    UncleanFlowScars(s, next, v, msg.m, t1, left);
  }

  /** A message that its revert does not undo leaves a trace, and reverting the messages before it does not wipe it
      out. */
  lemma {:induction false} UncleanScars(s: Switch, next: nat, v: nat, msgs: seq<Msg>, t: Switch)
    requires Sound(s, next, v) && AllReady(s, msgs) && !AllClean(s, next, v, msgs) && Reverted(s, next, v, msgs, t)
    ensures Scarred(s, t, next)
    decreases |msgs|
  {
    assert MsgReady(s, msgs[0]);
    var d := StartMsg(s, next, v, msgs[0]).value;
    StartMsgKeepsSound(s, next, v, msgs[0]);
    StartMsgRunnable(s, next, v, msgs[0]);
    ReadyRest(s, d.s, msgs);
    var t1 := RevertAllEchoes(d.s, d.next, v, msgs[1..]);
    var left := Leftover(d.s, d.next, v, msgs[1..]);
    if AllClean(d.s, d.next, v, msgs[1..]) {
      UncleanMsgScars(s, next, v, msgs[0], d, t1, left);
    } else {
      UncleanScars(d.s, d.next, v, msgs[1..], t1);
      EchoCovers(d.s, t1, v, left);
      MsgScarStays(s, next, v, msgs[0], d, t1);
    }
    RevertedStep(s, next, v, msgs, d, t1);
  }

  // ---------- the theorems ----------

  lemma FailedIsReverted(s: Switch, next: nat, msgs: seq<Msg>, t: Switch)
    requires Runnable(s, next) && AllReady(s, msgs) && Reverted(s, next, s.version + 1, msgs, t)
    requires BeginAll(s, next, s.version + 1, msgs).error.Some?
    ensures var b := BeginAll(s, next, s.version + 1, msgs); Commit(s, next, msgs) == Some(Committed(t, b.next, b.error))
  {
    CommitConcludes(s, next, msgs, BeginAll(s, next, s.version + 1, msgs));
  }

  /** A bundle that fails changes nothing that lookups of the published version, or of any before it, see; and what it
      does leave behind is just the rules that its modifies have added. */
  lemma FailedBundleUnseen(s: Switch, next: nat, msgs: seq<Msg>)
    requires Sound(s, next, s.version + 1) && AllReady(s, msgs)
    requires BeginAll(s, next, s.version + 1, msgs).error.Some?
    ensures var r := Commit(s, next, msgs);
            && r.Some? && r.value.error == BeginAll(s, next, s.version + 1, msgs).error
            && (forall w: nat :: w <= s.version ==> PlainAt(r.value.s, w) == PlainAt(s, w))
            && Echo(s, r.value.s, s.version + 1, Leftover(s, next, s.version + 1, msgs))
  {
    var v := s.version + 1;
    var t := RevertAllEchoes(s, next, v, msgs);
    EchoViews(s, t, next, v, Leftover(s, next, v, msgs));
    FailedIsReverted(s, next, msgs, t);
  }

  /** A failed bundle leaves the switch as it was exactly if every message started is one its revert undoes. */
  lemma FailedBundleRestoredIffClean(s: Switch, next: nat, msgs: seq<Msg>)
    requires Inv(s, next, s.version + 1) && AllReady(s, msgs)
    requires BeginAll(s, next, s.version + 1, msgs).error.Some?
    ensures var r := Commit(s, next, msgs); r.Some? && (r.value.s == s <==> AllClean(s, next, s.version + 1, msgs))
  {
    var v := s.version + 1;
    InvIsSound(s, next, v);
    var t := RevertAllFits(s, next, v, msgs);
    FailedIsReverted(s, next, msgs, t);
    if AllClean(s, next, v, msgs) {
      RevertAllUndoes(s, next, v, msgs);
    } else {
      UncleanScars(s, next, v, msgs, t);
      ScarIsChange(s, t, next, v);
    }
  }

  /** Everything took effect in one new version, with the plain outcome `a`; or, on error `e`, lookups see no change,
      and nothing has changed at all exactly if the messages started are such as their reverts undo. */
  ghost predicate Atomic(s: Switch, next: nat, msgs: seq<Msg>, plain: Outcome<Plain>, r: Option<Committed>)
    requires Runnable(s, next) && AllReady(s, msgs)
  {
    r.Some? &&
    match plain
    case Ok(a) =>
      && r.value.error.None?
      && r.value.s.version == (if msgs == [] then s.version else s.version + 1)
      && PlainAt(r.value.s, s.version + 1) == a
      && (forall w: nat :: w <= s.version ==> PlainAt(r.value.s, w) == PlainAt(s, w))
      && Inv(r.value.s, r.value.next, s.version + 1)
    case Err(e) =>
      && r.value.error == Some(e) && r.value.s.version == s.version
      && (forall w: nat :: w <= s.version ==> PlainAt(r.value.s, w) == PlainAt(s, w))
      && (r.value.s == s <==> AllClean(s, next, s.version + 1, msgs))
  }

  /** What the messages mean, one after the other, on what version `v` shows without them. */
  ghost function PlainBundle(s: Switch, next: nat, v: nat, msgs: seq<Msg>): Outcome<Plain>
    requires Runnable(s, next) && AllReady(s, msgs)
  {
    assert forall i :: 0 <= i < |msgs| ==> MsgReady(s, msgs[i]);
    PlainAll(PlainAt(s, v), s.tables, s.maxGroups, msgs, Victims(s, next, v, msgs))
  }

  lemma BegunPlain(s: Switch, next: nat, v: nat, msgs: seq<Msg>) returns (b: Begun)
    requires Inv(s, next, v) && AllReady(s, msgs)
    ensures b == BeginAll(s, next, v, msgs) && Inv(b.s, b.next, v) && Unseen(s, b.s, v)
    ensures PlainBundle(s, next, v, msgs) == if b.error.Some? then Err(b.error.value) else Ok(PlainAt(b.s, v))
  {
    b := BeginAll(s, next, v, msgs);
    BeginFaithful(s, next, v, msgs);
  }

  lemma SuccessIsAtomic(s: Switch, next: nat, v: nat, msgs: seq<Msg>, b: Begun, plain: Outcome<Plain>)
    requires Runnable(s, next) && AllReady(s, msgs) && v == s.version + 1 && b == BeginAll(s, next, v, msgs) && b.error.None?
    requires Inv(b.s, b.next, v) && Unseen(s, b.s, v) && plain == Ok(PlainAt(b.s, v))
    ensures Atomic(s, next, msgs, plain, Commit(s, next, msgs))
  {
    CommitConcludes(s, next, msgs, b);
    ConcludeSucceeds(s, b, msgs);
  }

  lemma FailureIsAtomic(s: Switch, next: nat, v: nat, msgs: seq<Msg>, b: Begun, plain: Outcome<Plain>)
    requires Inv(s, next, v) && AllReady(s, msgs) && v == s.version + 1 && b == BeginAll(s, next, v, msgs) && b.error.Some?
    requires plain == Err(b.error.value)
    ensures Atomic(s, next, msgs, plain, Commit(s, next, msgs))
  {
    InvIsSound(s, next, v);
    FailedBundleUnseen(s, next, msgs);
    FailedBundleRestoredIffClean(s, next, msgs);
  }

  /** Bundle atomicity. Either every message takes effect in order, in one new version, and lookups of the versions
      before it still see what they saw; or lookups see no change. In both cases the outcome, errors included, is that
      of the plain meaning of the messages, one after the other, on what the new version would show without them; that
      is what the published version shows, unless a failed bundle has left rules behind. */
  lemma BundleAtomicity(s: Switch, next: nat, msgs: seq<Msg>)
    requires Inv(s, next, s.version + 1) && AllReady(s, msgs)
    ensures Atomic(s, next, msgs, PlainBundle(s, next, s.version + 1, msgs), Commit(s, next, msgs))
  {
    AtomicAt(s, next, s.version + 1, msgs);
  }

  lemma AtomicAt(s: Switch, next: nat, v: nat, msgs: seq<Msg>)
    requires Inv(s, next, v) && AllReady(s, msgs) && v == s.version + 1
    ensures Atomic(s, next, msgs, PlainBundle(s, next, v, msgs), Commit(s, next, msgs))
  {
    var b := BegunPlain(s, next, v, msgs);
    var plain := PlainBundle(s, next, v, msgs);
    if b.error.None? { SuccessIsAtomic(s, next, v, msgs, b, plain); } else { FailureIsAtomic(s, next, v, msgs, b, plain); }
  }

  /** After a failed bundle no version shows two rules with one key exactly if the rules its modifies have added have
      keys of their own, different from each other's and from those of all inserted rules. */
  lemma FailedBundleKeepsKeysApart(s: Switch, next: nat, msgs: seq<Msg>)
    requires Sound(s, next, s.version + 1) && OneRulePerKey(s) && AllReady(s, msgs)
    requires BeginAll(s, next, s.version + 1, msgs).error.Some?
    ensures var r := Commit(s, next, msgs);
            r.Some? && (OneRulePerKey(r.value.s) <==> NoClash(s, Leftover(s, next, s.version + 1, msgs)))
  {
    var v := s.version + 1;
    var t := RevertAllEchoes(s, next, v, msgs);
    var left := Leftover(s, next, v, msgs);
    FailedIsReverted(s, next, msgs, t);
    if NoClash(s, left) { EchoKeepsKeysApart(s, t, v, left); } else { ClashIsSeen(s, t, v, left); }
  }

  // ---------- while a bundle is started and reverted ----------

  lemma StartedViews(s: Switch, t: Switch, next: nat, v: nat, olds: set<Id>, news: set<Id>)
    requires StartShape(s, t, v, olds, news) && GroupsOk(s, next, v) && Dated(s, v) && AllInserted(s, olds)
    ensures forall w: nat :: w < v ==> PlainAt(t, w) == PlainAt(s, w)
  {
    SameGroups(s, t, next, next, v);
    LiveOlds(s, v, olds);
    forall w: nat | w < v ensures View(t, w) == View(s, w) {
      forall id | id in t.rules
        ensures id in ViewIds(t, w) <==> id in ViewIds(s, w)
        ensures id in s.rules ==> t.rules[id].c == s.rules[id].c
      {
        if id in news { assert Newborn(t.rules[id], v); }
        if id in olds {
          assert Unmarked(t.rules[id]).c == s.rules[id].c;
          assert Unmarked(t.rules[id]).versions == s.rules[id].versions.(remove := Some(v));
        }
      }
      SameImage(s, t, w);
    }
  }

  lemma StartMsgUnseen(s: Switch, next: nat, v: nat, msg: Msg)
    requires Sound(s, next, v) && MsgReady(s, msg) && StartMsg(s, next, v, msg).Ok?
    ensures var d := StartMsg(s, next, v, msg).value; forall w: nat :: w < v ==> PlainAt(d.s, w) == PlainAt(s, w)
  {
    match msg {
      case FlowMsg(m) =>
        var st := Start(s, next, v, m).value;
        StartKeepsSound(s, next, v, m);
        StartedViews(s, st.s, next, v, SetOf(st.undo.olds), SetOf(st.undo.news));
      case GroupMsg(g) => StartGroupUnseen(s, next, v, g);
    }
  }

  lemma StartGroupUnseen(s: Switch, next: nat, v: nat, g: GMod)
    requires Runnable(s, next) && g.kind < |s.nGroups| && GroupStart(s, next, v, g).Ok?
    ensures GroupPast(s, GroupStart(s, next, v, g).value.s, v)
  {
    var st := GroupStart(s, next, v, g).value;
    match FindGroup(s, g.gid) {
      case Some(p) =>
        assert IsCurrent(s, g.gid, p);
        SwapIsRegrouped(s, next, v, p, g);
        RegroupedPast(s, st.s, next, v, Some(p), g);
      case None =>
        AddIsRegrouped(s, next, v, g);
        RegroupedPast(s, st.s, next, v, None, g);
    }
  }

  /** After the starts of the first `k` messages lookups of versions before `v` see what they saw. */
  lemma {:induction false} BegunUnseen(s: Switch, next: nat, v: nat, msgs: seq<Msg>)
    requires Sound(s, next, v) && AllReady(s, msgs)
    ensures forall w: nat :: w < v ==> PlainAt(BeginAll(s, next, v, msgs).s, w) == PlainAt(s, w)
    decreases |msgs|
  {
    if msgs != [] {
      assert MsgReady(s, msgs[0]);
      match StartMsg(s, next, v, msgs[0])
      case Err(_) =>
      case Ok(d) =>
        StartMsgKeepsSound(s, next, v, msgs[0]);
        StartMsgRunnable(s, next, v, msgs[0]);
        StartMsgUnseen(s, next, v, msgs[0]);
        ReadyRest(s, d.s, msgs);
        BegunUnseen(d.s, d.next, v, msgs[1..]);
    }
  }

  /** After all messages from the last down to number `j` have been reverted, lookups of versions before `v` see what
      they saw. */
  lemma {:induction false} RevertedUnseen(s: Switch, next: nat, v: nat, msgs: seq<Msg>, j: nat) returns (t: Switch)
    requires Sound(s, next, v) && AllReady(s, msgs) && j <= |BeginAll(s, next, v, msgs).undos|
    ensures var b := BeginAll(s, next, v, msgs); RevertAll(b.s, msgs[j..], b.undos[j..]) == Some(t)
    ensures forall w: nat :: w < v ==> PlainAt(t, w) == PlainAt(s, w)
    decreases |msgs|
  {
    var b := BeginAll(s, next, v, msgs);
    if j == 0 {
      t := RevertAllEchoes(s, next, v, msgs);
      EchoViews(s, t, next, v, Leftover(s, next, v, msgs));
      assert msgs[0..] == msgs && b.undos[0..] == b.undos;
    } else {
      assert MsgReady(s, msgs[0]);
      var d := StartMsg(s, next, v, msgs[0]).value;
      StartMsgKeepsSound(s, next, v, msgs[0]);
      StartMsgRunnable(s, next, v, msgs[0]);
      StartMsgUnseen(s, next, v, msgs[0]);
      ReadyRest(s, d.s, msgs);
      t := RevertedUnseen(d.s, d.next, v, msgs[1..], j - 1);
      var b' := BeginAll(d.s, d.next, v, msgs[1..]);
      assert b.undos == [d.undo] + b'.undos;
      assert msgs[1..][j - 1..] == msgs[j..] && b'.undos[j - 1..] == b.undos[j..];
    }
  }

  /** Nothing lookups of the published version see, or of any before it, changes while a bundle is being started
      or reverted: not after any of its starts, nor after any of its reverts. */
  lemma NothingSeenEarly(s: Switch, next: nat, msgs: seq<Msg>, k: nat, j: nat, w: nat)
    requires Sound(s, next, s.version + 1) && AllReady(s, msgs) && k <= |msgs| && w <= s.version
    requires j <= |BeginAll(s, next, s.version + 1, msgs).undos|
    ensures AllReady(s, msgs[..k])
    ensures PlainAt(BeginAll(s, next, s.version + 1, msgs[..k]).s, w) == PlainAt(s, w)
    ensures var b := BeginAll(s, next, s.version + 1, msgs);
            var r := RevertAll(b.s, msgs[j..], b.undos[j..]);
            r.Some? && PlainAt(r.value, w) == PlainAt(s, w)
  {
    forall i | 0 <= i < |msgs[..k]| ensures MsgReady(s, msgs[..k][i]) { assert MsgReady(s, msgs[i]); }
    BegunUnseen(s, next, s.version + 1, msgs[..k]);
    var t := RevertedUnseen(s, next, s.version + 1, msgs, j);
  }

  // ---------- the assertion on insertions ----------

  /** The start takes no rule out: an add under a new key that finds room, a modify that finds nothing to modify and
      adds at most so, a delete that selects nothing. */
  ghost predicate TakesNothing(s: Switch, next: nat, v: nat, m: FlowMod)
    requires TablesInRange(s) && ModReady(s, m)
  {
    match m
    case Add(c) => AddsNewKey(s, v, c) && !Evicting(s, v, c)
    case Modify(cr, c, mayAdd, _) => Collect(s, cr, next) == [] && (mayAdd ==> AddsNewKey(s, v, c) && !Evicting(s, v, c))
    case Delete(cr) => Collect(s, cr, next) == []
  }

  /** The rules a revert hands to `ofproto_rule_insert__` are all in their initial state, as that function asserts. */
  ghost predicate InsertsInitialized(t: Switch, undo: MsgUndo) {
    undo.FlowUndo? ==>
      forall i :: 0 <= i < |undo.u.olds| ==> undo.u.olds[i] in t.rules && t.rules[undo.u.olds[i]].state.Initialized?
  }

  /** The code's own assertion fails in the revert of whatever has taken a rule out: every rule reinserted there is a
      removed one. */
  lemma RevertReinsertsRemovedRules(s: Switch, next: nat, v: nat, m: FlowMod)
    requires Runnable(s, next) && ModReady(s, m) && Start(s, next, v, m).Ok?
    ensures var st := Start(s, next, v, m).value;
            && (forall i :: 0 <= i < |st.undo.olds| ==>
                  st.undo.olds[i] in st.s.rules && st.s.rules[st.undo.olds[i]].state.Removed?)
            && (InsertsInitialized(st.s, FlowUndo(st.undo)) <==> TakesNothing(s, next, v, m))
  {
    var st := Start(s, next, v, m).value;
    StartRecorded(s, next, v, m);
    OldsAreRemoved(s, st.s, v, SetOf(st.undo.olds), SetOf(st.undo.news));
    forall i | 0 <= i < |st.undo.olds| ensures st.undo.olds[i] in SetOf(st.undo.olds) {}
    TakesNothingIff(s, next, v, m);
    if st.undo.olds != [] { assert st.s.rules[st.undo.olds[0]].state.Removed?; }
  }

  lemma TakesNothingIff(s: Switch, next: nat, v: nat, m: FlowMod)
    requires Runnable(s, next) && ModReady(s, m) && Start(s, next, v, m).Ok?
    ensures Start(s, next, v, m).value.undo.olds == [] <==> TakesNothing(s, next, v, m)
  {
  }

  ghost predicate AllTakeNothing(s: Switch, next: nat, v: nat, msgs: seq<Msg>)
    requires Runnable(s, next) && AllReady(s, msgs)
    decreases |msgs|
  {
    msgs == [] || (
      assert MsgReady(s, msgs[0]);
      match StartMsg(s, next, v, msgs[0])
      case Err(_) => true
      case Ok(d) =>
        StartMsgRunnable(s, next, v, msgs[0]);
        ReadyRest(s, d.s, msgs);
        && (msgs[0].FlowMsg? ==> TakesNothing(s, next, v, msgs[0].m))
        && AllTakeNothing(d.s, d.next, v, msgs[1..]))
  }

  /** The assertion holds all through the reverts of `msgs`. */
  ghost predicate AssertionHolds(s: Switch, msgs: seq<Msg>, undos: seq<MsgUndo>)
    requires |undos| <= |msgs|
    decreases |undos|
  {
    undos == [] || (
      && AssertionHolds(s, msgs[1..], undos[1..])
      && match RevertAll(s, msgs[1..], undos[1..]) case None => false case Some(t) => InsertsInitialized(t, undos[0]))
  }

  lemma MsgReinserts(s: Switch, next: nat, v: nat, msg: Msg, d: Done, t1: Switch, left: map<Id, Content>)
    requires Runnable(s, next) && MsgReady(s, msg) && StartMsg(s, next, v, msg) == Ok(d) && Echo(d.s, t1, v, left)
    ensures InsertsInitialized(t1, d.undo) <==> (msg.FlowMsg? ==> TakesNothing(s, next, v, msg.m))
  {
    if msg.FlowMsg? {
      RevertReinsertsRemovedRules(s, next, v, msg.m);
      TakesNothingIff(s, next, v, msg.m);
      var olds := d.undo.u.olds;
      forall i | 0 <= i < |olds| ensures olds[i] in t1.rules && t1.rules[olds[i]].state.Removed? {
        assert Unmarked(t1.rules[olds[i]]).state == d.s.rules[olds[i]].state;
      }
      if olds != [] { assert t1.rules[olds[0]].state.Removed?; }
    }
  }

  /** The assertion holds through all reverts of a bundle exactly if none of the messages started has taken a rule out. */
  lemma {:induction false} RevertsAssertIff(s: Switch, next: nat, v: nat, msgs: seq<Msg>)
    requires Sound(s, next, v) && AllReady(s, msgs)
    ensures var b := BeginAll(s, next, v, msgs); AssertionHolds(b.s, msgs, b.undos) <==> AllTakeNothing(s, next, v, msgs)
    decreases |msgs|
  {
    if msgs != [] {
      assert MsgReady(s, msgs[0]);
      match StartMsg(s, next, v, msgs[0])
      case Err(_) =>
      case Ok(d) =>
        StartMsgKeepsSound(s, next, v, msgs[0]);
        StartMsgRunnable(s, next, v, msgs[0]);
        ReadyRest(s, d.s, msgs);
        RevertsAssertIff(d.s, d.next, v, msgs[1..]);
        var t1 := RevertAllEchoes(d.s, d.next, v, msgs[1..]);
        MsgReinserts(s, next, v, msgs[0], d, t1, Leftover(d.s, d.next, v, msgs[1..]));
        var b' := BeginAll(d.s, d.next, v, msgs[1..]);
        assert ([d.undo] + b'.undos)[1..] == b'.undos;
    }
  }

  // ---------- what is left behind, by request ----------

  /** A modify that finds nothing to modify adds a rule under a new key, and finds room for it. */
  ghost predicate LeavesRule(s: Switch, next: nat, v: nat, m: FlowMod)
    requires TablesInRange(s) && ModReady(s, m)
  {
    m.Modify? && m.mayAdd && Collect(s, m.cr, next) == [] && AddsNewKey(s, v, m.c) && !Evicting(s, v, m.c)
  }

  lemma AddedByModify(s: Switch, next: nat, v: nat, m: FlowMod)
    requires TablesInRange(s) && ModReady(s, m) && Start(s, next, v, m).Ok? && LeavesRule(s, next, v, m)
    ensures Start(s, next, v, m).value == Started(Replace(s, v, None, m.c, next), next + 1, Undo([], [next]))
  {
  }

  lemma NothingByModify(s: Switch, next: nat, v: nat, m: FlowMod)
    requires Runnable(s, next) && ModReady(s, m) && Start(s, next, v, m).Ok? && !LeavesRule(s, next, v, m)
    ensures LeftBehind(m, Start(s, next, v, m).value.undo) == {}
  {
    TakesNothingIff(s, next, v, m);
    if m.Modify? && Start(s, next, v, m).value.undo.olds == [] { assert SetOf([]) == {}; }
  }

  lemma AddedIsLeft(m: FlowMod, st: Started, id: Id, c: Content)
    requires m.Modify? && st.undo == Undo([], [id]) && id in st.s.rules && st.s.rules[id].c == c
    ensures FlowLeaves(m, st) == map[id := c]
  {
    assert SetOf([id]) == {id};
  }

  lemma NothingIsLeft(m: FlowMod, st: Started)
    requires LeftBehind(m, st.undo) == {}
    ensures FlowLeaves(m, st) == map[]
  {
  }

  lemma LeftByRequest(s: Switch, next: nat, v: nat, m: FlowMod)
    requires Runnable(s, next) && ModReady(s, m) && Start(s, next, v, m).Ok?
    ensures FlowLeaves(m, Start(s, next, v, m).value) == if LeavesRule(s, next, v, m) then map[next := m.c] else map[]
  {
    var st := Start(s, next, v, m).value;
    if LeavesRule(s, next, v, m) {
      AddedByModify(s, next, v, m);
      AddedIsLeft(m, st, next, m.c);
    } else {
      NothingByModify(s, next, v, m);
      NothingIsLeft(m, st);
    }
  }
}
