/** Group actions and bundles that fail: when every inserted rule still names current groups, that starts and reverts
    find the groups they look up, and that the groups' lists of rules stay exact. */
module BundleGroups {
  import opened FlowTable
  import opened FlowMod
  import opened FlowModRevert
  import opened FlowModInv
  import opened FlowSpec
  import opened FlowRefine
  import opened FlowShape
  import opened FlowSound
  import opened GroupMod
  import opened Bundle
  import opened BundleFailure

  /** Every group action of an inserted rule names a current group. */
  ghost predicate Referring(s: Switch) {
    forall id :: IsInserted(s, id) ==> ActionsOk(s, s.rules[id].c.actions)
  }

  /** The rules `ids` of `t` name groups that are current in `s`. */
  ghost predicate Naming(s: Switch, t: Switch, ids: set<Id>) {
    forall id :: id in ids ==> id in t.rules && ActionsOk(s, t.rules[id].c.actions)
  }

  ghost predicate SameKnown(s: Switch, t: Switch) {
    forall gid :: GroupKnown(s, gid) <==> GroupKnown(t, gid)
  }

  lemma SameKnownNames(s: Switch, s': Switch, t: Switch, ids: set<Id>)
    requires SameKnown(s, s') && Naming(s, t, ids)
    ensures Naming(s', t, ids)
  {
    forall id | id in ids ensures ActionsOk(s', t.rules[id].c.actions) { assert ActionsOk(s, t.rules[id].c.actions); }
  }

  // ---------- starts ----------

  lemma AddNames(s: Switch, next: nat, v: nat, c: Content, isAdd: bool, st: Started)
    requires Runnable(s, next) && c.key.table < |s.tables| && AddStart(s, next, v, c, isAdd) == Ok(st)
    ensures st.undo.news == [next] && next in st.s.rules && ActionsOk(s, st.s.rules[next].c.actions)
  {
  }

  lemma CopiedActions(s: Switch, m: FlowMod, olds: seq<Id>, cs: seq<Content>)
    requires m.Modify? && AllIn(s, olds) && cs == Copies(s, olds, m.c, m.modifyCookie)
    ensures forall i :: 0 <= i < |cs| ==> cs[i].actions == m.c.actions
  {
  }

  lemma ModifyNames(s: Switch, next: nat, v: nat, m: FlowMod, olds: seq<Id>, st: Started)
    requires Runnable(s, next) && m.Modify? && AllIn(s, olds) && Distinct(olds) && ModifyThese(s, next, v, m, olds) == Ok(st)
    ensures Naming(s, st.s, SetOf(st.undo.news))
  {
    var news, cs := NewIds(next, |olds|), Copies(s, olds, m.c, m.modifyCookie);
    ReplaceAllKeeps(s, v, olds, news, cs);
    CopiedActions(s, m, olds, cs);
    forall id | id in SetOf(news) ensures id in st.s.rules && ActionsOk(s, st.s.rules[id].c.actions) {
      var i :| 0 <= i < |news| && news[i] == id;
      assert st.s.rules[id].c == cs[i];
    }
  }

  /** The rules that come with a flow mod name current groups. */
  lemma StartNames(s: Switch, next: nat, v: nat, m: FlowMod, st: Started)
    requires Runnable(s, next) && ModReady(s, m) && Start(s, next, v, m) == Ok(st)
    ensures Naming(s, st.s, SetOf(st.undo.news))
  {
    match m {
      case Add(c) => AddNames(s, next, v, c, true, st);
      case Modify(cr, _, _, _) =>
        CollectIsIn(s, cr, next);
        if Collect(s, cr, next) != [] { ModifyNames(s, next, v, m, Collect(s, cr, next), st); }
        else if m.mayAdd { AddNames(s, next, v, m.c, false, st); }
      case Delete(_) =>
    }
  }

  lemma StartedRefers(s: Switch, t: Switch, v: nat, olds: set<Id>, news: set<Id>)
    requires StartShape(s, t, v, olds, news) && Referring(s) && SameKnown(s, t) && Naming(s, t, news)
    ensures Referring(t)
  {
    OldsAreRemoved(s, t, v, olds, news);
    forall id | IsInserted(t, id) ensures ActionsOk(t, t.rules[id].c.actions) {
      assert ActionsOk(s, t.rules[id].c.actions) by { if id !in news { assert IsInserted(s, id); } }
    }
  }

  lemma FlowStartRefers(s: Switch, next: nat, v: nat, m: FlowMod, st: Started)
    requires Orderly(s, next, v) && ModReady(s, m) && Start(s, next, v, m) == Ok(st) && Referring(s)
    ensures Referring(st.s) && SameKnown(s, st.s)
  {
    StartRecorded(s, next, v, m);
    SameGroups(s, st.s, next, st.next, v);
    StartNames(s, next, v, m, st);
    StartedRefers(s, st.s, v, SetOf(st.undo.olds), SetOf(st.undo.news));
  }

  lemma RegroupedKnows(s: Switch, t: Switch, next: nat, v: nat, prior: Option<Id>, m: GMod)
    requires Regrouped(s, t, v, prior, next, m)
    ensures forall gid :: GroupKnown(s, gid) ==> GroupKnown(t, gid)
  {
    forall gid | GroupKnown(s, gid) ensures GroupKnown(t, gid) {
      var g :| g in s.groups && s.groups[g].gid == gid && s.groups[g].versions.remove.None?;
      if prior == Some(g) { assert IsCurrent(t, gid, next); } else { assert IsCurrent(t, gid, g); }
    }
  }

  lemma GroupStartKnows(s: Switch, next: nat, v: nat, g: GMod, st: GStarted)
    requires Runnable(s, next) && g.kind < |s.nGroups| && GroupStart(s, next, v, g) == Ok(st)
    ensures forall gid :: GroupKnown(s, gid) ==> GroupKnown(st.s, gid)
  {
    match FindGroup(s, g.gid) {
      case Some(p) =>
        assert IsCurrent(s, g.gid, p);
        SwapIsRegrouped(s, next, v, p, g);
        RegroupedKnows(s, st.s, next, v, Some(p), g);
      case None =>
        AddIsRegrouped(s, next, v, g);
        RegroupedKnows(s, st.s, next, v, None, g);
    }
  }

  lemma GroupStartRefers(s: Switch, next: nat, v: nat, g: GMod, d: Done)
    requires Runnable(s, next) && g.kind < |s.nGroups| && StartMsg(s, next, v, GroupMsg(g)) == Ok(d) && Referring(s)
    ensures Referring(d.s)
  {
    var st := StartedGroup(s, next, v, g, d);
    GroupStartKnows(s, next, v, g, st);
    GroupStartRunnable(s, next, v, g);
    forall id | IsInserted(d.s, id) ensures ActionsOk(d.s, d.s.rules[id].c.actions) {
      assert IsInserted(s, id) && ActionsOk(s, s.rules[id].c.actions);
    }
  }

  lemma StartMsgRefers(s: Switch, next: nat, v: nat, msg: Msg, d: Done)
    requires Orderly(s, next, v) && MsgReady(s, msg) && StartMsg(s, next, v, msg) == Ok(d) && Referring(s)
    ensures Referring(d.s)
  {
    match msg {
      case FlowMsg(m) => FlowStartRefers(s, next, v, m, Start(s, next, v, m).value);
      case GroupMsg(g) => GroupStartRefers(s, next, v, g, d);
    }
  }

  // ---------- the assertions on groups ----------

  /** The rules that a start takes out and puts in. */
  ghost function Moved(undo: MsgUndo): set<Id> {
    if undo.FlowUndo? then SetOf(undo.u.olds) + SetOf(undo.u.news) else {}
  }

  /** The rules that the revert puts back and takes away. */
  ghost function MovedBack(msg: Msg, undo: MsgUndo): set<Id> {
    if msg.FlowMsg? && undo.FlowUndo? then SetOf(undo.u.olds) + Dropped(msg.m, undo.u) else {}
  }

  /** All through the starts, `ofproto_rule_insert__` and `ofproto_rule_remove__` find the groups they look up, as
      they assert: a flow mod changes no group but in its members, and every rule it moves names current groups. */
  ghost predicate StartsFindGroups(s: Switch, next: nat, v: nat, msgs: seq<Msg>)
    requires Runnable(s, next) && AllReady(s, msgs)
    decreases |msgs|
  {
    msgs == [] || (
      assert MsgReady(s, msgs[0]);
      match StartMsg(s, next, v, msgs[0])
      case Err(_) => true
      case Ok(d) =>
        StartMsgRunnable(s, next, v, msgs[0]);
        ReadyRest(s, d.s, msgs);
        && (msgs[0].FlowMsg? ==> SameKnown(s, d.s))
        && Naming(d.s, d.s, Moved(d.undo))
        && StartsFindGroups(d.s, d.next, v, msgs[1..]))
  }

  /** They do all through the reverts. */
  ghost predicate RevertsFindGroups(s: Switch, msgs: seq<Msg>, undos: seq<MsgUndo>)
    requires |undos| <= |msgs|
    decreases |undos|
  {
    undos == [] || (
      && RevertsFindGroups(s, msgs[1..], undos[1..])
      && match RevertAll(s, msgs[1..], undos[1..])
         case None => false
         case Some(t) =>
           && MsgRevertible(t, msgs[0], undos[0])
           && (msgs[0].FlowMsg? ==> SameKnown(t, RevertMsg(t, msgs[0], undos[0])))
           && Naming(t, t, MovedBack(msgs[0], undos[0])))
  }

  lemma StartFinds(s: Switch, next: nat, v: nat, m: FlowMod, st: Started)
    requires Sound(s, next, v) && ModReady(s, m) && Start(s, next, v, m) == Ok(st) && Referring(s)
    ensures SameKnown(s, st.s) && Naming(st.s, st.s, SetOf(st.undo.olds) + SetOf(st.undo.news))
  {
    StartKeepsSound(s, next, v, m);
    FlowStartRefers(s, next, v, m, st);
    StartNames(s, next, v, m, st);
    OldsName(s, v, st);
    SameKnownNames(s, st.s, st.s, SetOf(st.undo.olds) + SetOf(st.undo.news));
  }

  lemma OldsName(s: Switch, v: nat, st: Started)
    requires StartShape(s, st.s, v, SetOf(st.undo.olds), SetOf(st.undo.news))
    requires Referring(s) && AllInserted(s, SetOf(st.undo.olds))
    ensures Naming(s, st.s, SetOf(st.undo.olds))
  {
    forall id | id in SetOf(st.undo.olds) ensures id in st.s.rules && ActionsOk(s, st.s.rules[id].c.actions) {
      assert IsInserted(s, id) && Unmarked(st.s.rules[id]).c == s.rules[id].c;
    }
  }

  /** What named current groups after the start does so when its revert comes. */
  lemma EchoNames(a: Switch, t: Switch, next: nat, v: nat, left: map<Id, Content>, ids: set<Id>)
    requires Echo(a, t, v, left) && GroupsOk(a, next, v) && Naming(a, a, ids)
    ensures Naming(t, t, ids)
  {
    EchoCovers(a, t, v, left);
    SameGroups(a, t, next, next, v);
    forall id | id in ids ensures id in t.rules && ActionsOk(t, t.rules[id].c.actions) {
      assert ActionsOk(a, a.rules[id].c.actions);
    }
  }

  lemma RevertSameKnown(a: Switch, t: Switch, next: nat, v: nat, m: FlowMod, u: Undo)
    requires GroupsOk(a, next, v) && SameFrame(a, t) && Revertible(t, m, u) && Distinct(u.olds) && SetOf(u.olds) !! SetOf(u.news)
    ensures SameKnown(t, Revert(t, m, u))
  {
    SameGroups(a, t, next, next, v);
    RevertHasShape(t, m, u);
    SameGroups(t, Revert(t, m, u), next, next, v);
  }

  lemma FlowRevertFinds(s: Switch, next: nat, v: nat, m: FlowMod, st: Started, t1: Switch, left: map<Id, Content>)
    requires Sound(s, next, v) && ModReady(s, m) && Start(s, next, v, m) == Ok(st) && Referring(s)
    requires Echo(st.s, t1, v, left)
    ensures Revertible(t1, m, st.undo) && SameKnown(t1, Revert(t1, m, st.undo))
    ensures Naming(t1, t1, SetOf(st.undo.olds) + Dropped(m, st.undo))
  {
    StartKeepsSound(s, next, v, m);
    StartFinds(s, next, v, m, st);
    EchoNames(st.s, t1, st.next, v, left, SetOf(st.undo.olds) + SetOf(st.undo.news));
    EchoCovers(st.s, t1, v, left);
    FlowFits(s, next, v, m, st, t1);
    RevertSameKnown(st.s, t1, st.next, v, m, st.undo);
  }

  lemma MsgRevertFinds(s: Switch, next: nat, v: nat, msg: Msg, d: Done, t1: Switch, left: map<Id, Content>)
    requires Sound(s, next, v) && MsgReady(s, msg) && StartMsg(s, next, v, msg) == Ok(d) && Referring(s)
    requires Echo(d.s, t1, v, left)
    ensures MsgRevertible(t1, msg, d.undo) && Naming(t1, t1, MovedBack(msg, d.undo))
    ensures msg.FlowMsg? ==> SameKnown(t1, RevertMsg(t1, msg, d.undo))
  {
    EchoMsg(s, next, v, msg, d, t1, left);
    match msg {
      case FlowMsg(m) => FlowRevertFinds(s, next, v, m, Start(s, next, v, m).value, t1, left);
      case GroupMsg(_) =>
    }
  }

  lemma MsgStartFinds(s: Switch, next: nat, v: nat, msg: Msg, d: Done)
    requires Sound(s, next, v) && MsgReady(s, msg) && StartMsg(s, next, v, msg) == Ok(d) && Referring(s)
    ensures Naming(d.s, d.s, Moved(d.undo)) && (msg.FlowMsg? ==> SameKnown(s, d.s))
  {
    match msg {
      case FlowMsg(m) => StartFinds(s, next, v, m, Start(s, next, v, m).value);
      case GroupMsg(_) =>
    }
  }

  lemma {:induction false} StartsAndRevertsFind(s: Switch, next: nat, v: nat, msgs: seq<Msg>)
    requires Sound(s, next, v) && AllReady(s, msgs) && Referring(s)
    ensures StartsFindGroups(s, next, v, msgs)
    ensures var b := BeginAll(s, next, v, msgs); RevertsFindGroups(b.s, msgs, b.undos)
    decreases |msgs|
  {
    if msgs != [] {
      assert MsgReady(s, msgs[0]);
      match StartMsg(s, next, v, msgs[0])
      case Err(_) =>
      case Ok(d) =>
        StartMsgKeepsSound(s, next, v, msgs[0]);
        StartMsgRunnable(s, next, v, msgs[0]);
        StartMsgRefers(s, next, v, msgs[0], d);
        MsgStartFinds(s, next, v, msgs[0], d);
        ReadyRest(s, d.s, msgs);
        StartsAndRevertsFind(d.s, d.next, v, msgs[1..]);
        var t1 := RevertAllEchoes(d.s, d.next, v, msgs[1..]);
        MsgRevertFinds(s, next, v, msgs[0], d, t1, Leftover(d.s, d.next, v, msgs[1..]));
        var b' := BeginAll(d.s, d.next, v, msgs[1..]);
        assert ([d.undo] + b'.undos)[1..] == b'.undos;
    }
  }

  /** The assertions on groups hold all through the starts of a bundle and all through its reverts, if it comes to
      that. */
  ghost predicate FindsGroups(s: Switch, next: nat, v: nat, msgs: seq<Msg>)
    requires Runnable(s, next) && AllReady(s, msgs)
  {
    var b := BeginAll(s, next, v, msgs);
    StartsFindGroups(s, next, v, msgs) && RevertsFindGroups(b.s, msgs, b.undos)
  }

  /** They do where every inserted rule names current groups. */
  lemma BundleFindsGroups(s: Switch, next: nat, v: nat, msgs: seq<Msg>)
    requires Sound(s, next, v) && AllReady(s, msgs) && Referring(s)
    ensures FindsGroups(s, next, v, msgs)
  {
    StartsAndRevertsFind(s, next, v, msgs);
  }

  // ---------- after a failed bundle ----------

  /** Every rule in `left` names current groups. */
  ghost predicate AllKnown(s: Switch, left: map<Id, Content>) {
    forall id :: id in left ==> ActionsOk(s, left[id].actions)
  }

  lemma EchoRefersIff(s: Switch, t: Switch, next: nat, v: nat, left: map<Id, Content>)
    requires Echo(s, t, v, left) && GroupsOk(s, next, v) && Referring(s)
    ensures Referring(t) <==> AllKnown(s, left)
  {
    SameGroups(s, t, next, next, v);
    forall id | id in left ensures IsInserted(t, id) && t.rules[id].c == left[id] {
      assert Unmarked(t.rules[id]).c == left[id] && Unmarked(t.rules[id]).state.Inserted?;
    }
    forall id | id in s.rules ensures t.rules[id].c == s.rules[id].c && (IsInserted(t, id) <==> IsInserted(s, id)) {
      assert Unmarked(t.rules[id]).c == s.rules[id].c && Unmarked(t.rules[id]).state == s.rules[id].state;
    }
    if AllKnown(s, left) {
      forall id | IsInserted(t, id) ensures ActionsOk(t, t.rules[id].c.actions) {
        assert ActionsOk(s, t.rules[id].c.actions);
      }
    }
    if Referring(t) {
      forall id | id in left ensures ActionsOk(s, left[id].actions) { assert ActionsOk(t, t.rules[id].c.actions); }
    }
  }

  /** After a failed bundle every inserted rule names current groups if and only if the rules its modifies have added,
      and left behind, name groups that were current before the bundle. */
  lemma FailedBundleRefersIff(s: Switch, next: nat, msgs: seq<Msg>)
    requires Sound(s, next, s.version + 1) && Referring(s) && AllReady(s, msgs)
    requires BeginAll(s, next, s.version + 1, msgs).error.Some?
    ensures var r := Commit(s, next, msgs);
            r.Some? && (Referring(r.value.s) <==> AllKnown(s, Leftover(s, next, s.version + 1, msgs)))
  {
    var v := s.version + 1;
    var t := RevertAllEchoes(s, next, v, msgs);
    FailedIsReverted(s, next, msgs, t);
    EchoRefersIff(s, t, next, v, Leftover(s, next, v, msgs));
  }

  // ---------- the groups' lists of rules ----------

  /** Each current group lists exactly the inserted rules that name it, as often as they do. */
  ghost predicate AllListed(s: Switch) {
    forall id: nat :: Listed(s, id)
  }

  lemma BackKeepsLists(s: Switch, id: Id)
    requires AllListed(s) && id in s.rules && !IsInserted(s, id)
    ensures AllListed(Back(s, id))
  {
    var t := Back(s, id);
    forall x: nat ensures Listed(t, x) { assert Listed(s, x); }
  }

  lemma DropKeepsLists(s: Switch, id: Id)
    requires AllListed(s) && IsInserted(s, id)
    ensures AllListed(Drop(s, id))
  {
    var t := Drop(s, id);
    forall x: nat ensures Listed(t, x) { assert Listed(s, x); }
  }

  /** Heaps and counters play no part in it. */
  lemma SameLists(s: Switch, t: Switch)
    requires AllListed(s) && t.rules == s.rules && t.groups == s.groups
    ensures AllListed(t)
  {
    forall x: nat ensures Listed(t, x) { assert Listed(s, x); }
  }

  lemma UnreplaceKeepsLists(s: Switch, prior: Option<Id>, id: Id)
    requires AllListed(s) && IsInserted(s, id) && s.rules[id].c.key.table < |s.nFlows|
    requires prior.Some? ==> prior.value != id && prior.value in s.rules && !IsInserted(s, prior.value)
    ensures AllListed(Unreplace(s, prior, id))
  {
    if prior.None? {
      var t := Count(s, s.rules[id].c.key.table, -1);
      SameLists(s, t);
      DropKeepsLists(t, id);
    } else {
      var p := prior.value;
      var t := if s.rules[p].evicted then s.(evictable := Joined(s.evictable, s.tables, p, s.rules[p].c)) else s;
      SameLists(s, t);
      BackKeepsLists(t, p);
      DropKeepsLists(Back(t, p), id);
    }
  }

  lemma UnreplacesListed(s: Switch, olds: seq<Id>, news: seq<Id>, u: Switch) returns (t: Switch)
    requires olds != [] && Unreplaces(s, olds, news, u) && AllListed(s) && PairsOk(s, olds, news)
    ensures Unreplaces(t, olds[1..], news[1..], u) && AllListed(t) && PairsOk(t, olds[1..], news[1..])
  {
    t := Unreplace(s, Some(olds[0]), news[0]);
    assert SamePlace(s, olds[0], news[0]);
    UnreplaceKeepsLists(s, Some(olds[0]), news[0]);
    UnreplaceShape(s, Some(olds[0]), news[0]);
    UnreplaceNext(s, t, olds, news);
    PairsStay(s, t, olds, news);
  }

  lemma {:induction false} UnreplaceAllKeepsLists(s: Switch, olds: seq<Id>, news: seq<Id>, u: Switch)
    requires Unreplaces(s, olds, news, u) && AllListed(s) && PairsOk(s, olds, news)
    ensures AllListed(u)
    decreases |olds|
  {
    if olds != [] {
      var t := UnreplacesListed(s, olds, news, u);
      UnreplaceAllKeepsLists(t, olds[1..], news[1..], u);
    }
  }

  lemma {:induction false} UndeleteAllKeepsLists(s: Switch, ids: seq<Id>)
    requires AllIn(s, ids) && Distinct(ids) && AllListed(s) && NoneInserted(s, ids)
    ensures AllListed(UndeleteAll(s, ids))
    decreases |ids|
  {
    if ids != [] {
      var t := UndeleteOne(s, ids[0]);
      BackKeepsLists(s, ids[0]);
      SameLists(Back(s, ids[0]), t);
      UndeleteOneShape(s, ids[0]);
      UndeleteNext(s, t, ids);
      NoneStays(s, t, ids);
      UndeleteAllKeepsLists(t, ids[1..]);
    }
  }

  lemma UnaddKeepsLists(t: Switch, m: FlowMod, u: Undo)
    requires m.Add? && Revertible(t, m, u) && Exchangeable(t, SetOf(u.olds), SetOf(u.news)) && AllListed(t)
    ensures AllListed(Revert(t, m, u))
  {
    assert u.news[0] in SetOf(u.news);
    if u.olds != [] {
      assert u.olds[0] in SetOf(u.olds);
      UnreplaceKeepsLists(t, Some(u.olds[0]), u.news[0]);
    } else {
      UnreplaceKeepsLists(t, None, u.news[0]);
    }
  }

  /** A revert that puts back removed rules and takes away inserted ones keeps the lists exact. */
  lemma RevertKeepsLists(t: Switch, m: FlowMod, u: Undo)
    requires Revertible(t, m, u) && Distinct(u.olds) && Paired(t, m, u)
    requires Exchangeable(t, SetOf(u.olds), Dropped(m, u)) && AllListed(t)
    ensures AllListed(Revert(t, m, u))
  {
    match m {
      case Add(_) => UnaddKeepsLists(t, m, u);
      case Modify(_, _, _, _) =>
        if u.olds != [] {
          SwappablePairs(t, m, u);
          UnreplaceAllKeepsLists(t, u.olds, u.news, UnreplaceAll(t, u.olds, u.news));
        }
      case Delete(_) =>
        forall i | 0 <= i < |u.olds| ensures !IsInserted(t, u.olds[i]) { assert u.olds[i] in SetOf(u.olds); }
        UndeleteAllKeepsLists(t, u.olds);
    }
  }

  lemma EchoExchangeable(s: Switch, next: nat, v: nat, m: FlowMod, st: Started, t1: Switch, left: map<Id, Content>)
    requires Recorded(s, next, v, m, st) && Echo(st.s, t1, v, left)
    ensures Exchangeable(t1, SetOf(st.undo.olds), Dropped(m, st.undo))
  {
    OldsAreRemoved(s, st.s, v, SetOf(st.undo.olds), SetOf(st.undo.news));
    LeavesAre(s, next, v, m, st);
    forall id | id in SetOf(st.undo.olds) ensures id in t1.rules && !t1.rules[id].state.Inserted? {
      assert Unmarked(t1.rules[id]).state == st.s.rules[id].state;
    }
    forall id | id in Dropped(m, st.undo) ensures IsInserted(t1, id) {
      assert Newborn(st.s.rules[id], v) && Unmarked(t1.rules[id]).state == st.s.rules[id].state;
    }
  }

  lemma FlowRevertKeepsLists(s: Switch, next: nat, v: nat, m: FlowMod, st: Started, t1: Switch, left: map<Id, Content>)
    requires Runnable(s, next) && Recorded(s, next, v, m, st) && Echo(st.s, t1, v, left) && AllListed(t1)
    ensures Revertible(t1, m, st.undo) && AllListed(Revert(t1, m, st.undo))
  {
    EchoCovers(st.s, t1, v, left);
    FlowFits(s, next, v, m, st, t1);
    EchoExchangeable(s, next, v, m, st, t1, left);
    RevertKeepsLists(t1, m, st.undo);
  }

  /** The group that comes back takes over the list of the one that goes, which has its number. */
  lemma GroupRevertKeepsLists(t: Switch, u: GUndo)
    requires GroupRevertible(t, u) && AllListed(t)
    requires u.prior.Some? ==> t.groups[u.id].versions.remove.None? && t.groups[u.prior.value].gid == t.groups[u.id].gid
    ensures AllListed(GroupRevert(t, u))
  {
    var t' := GroupRevert(t, u);
    forall x: nat ensures Listed(t', x) { assert Listed(t, x); }
  }

  lemma SupersededAlike(s: Switch, next: nat, v: nat, g: GMod, st: GStarted, t1: Switch)
    requires Runnable(s, next) && g.kind < |s.nGroups| && GroupStart(s, next, v, g) == Ok(st) && SameFrame(st.s, t1)
    ensures var u := st.undo;
            u.prior.Some? ==>
              && u.id in t1.groups && u.prior.value in t1.groups
              && t1.groups[u.id].versions.remove.None? && t1.groups[u.prior.value].gid == t1.groups[u.id].gid
  {
    var u := st.undo;
    if u.prior.Some? {
      var p := u.prior.value;
      assert IsCurrent(s, g.gid, p);
      assert t1.groups[u.id].(members := multiset{}) == st.s.groups[u.id].(members := multiset{});
      assert t1.groups[p].(members := multiset{}) == st.s.groups[p].(members := multiset{});
      assert t1.groups[u.id].(members := multiset{}).gid == g.gid && t1.groups[p].(members := multiset{}).gid == g.gid;
      assert t1.groups[u.id].(members := multiset{}).versions == Versions(v, None);
    }
  }

  lemma RevertMsgKeepsLists(s: Switch, next: nat, v: nat, msg: Msg, d: Done, t1: Switch, left: map<Id, Content>)
    requires Sound(s, next, v) && MsgReady(s, msg) && StartMsg(s, next, v, msg) == Ok(d)
    requires Echo(d.s, t1, v, left) && AllListed(t1)
    ensures MsgRevertible(t1, msg, d.undo) && AllListed(RevertMsg(t1, msg, d.undo))
  {
    match msg {
      case FlowMsg(m) =>
        StartRecorded(s, next, v, m);
        FlowRevertKeepsLists(s, next, v, m, Start(s, next, v, m).value, t1, left);
      case GroupMsg(g) =>
        EchoMsg(s, next, v, msg, d, t1, left);
        var st := StartedGroup(s, next, v, g, d);
        SupersededAlike(s, next, v, g, st, t1);
        GroupRevertKeepsLists(t1, st.undo);
    }
  }

  lemma InvListed(s: Switch, next: nat, v: nat)
    requires Inv(s, next, v)
    ensures AllListed(s)
  {
    forall id: nat ensures Listed(s, id) { assert Agrees(s, id); }
  }

  lemma StartMsgKeepsInv(s: Switch, next: nat, v: nat, msg: Msg, d: Done)
    requires Inv(s, next, v) && MsgReady(s, msg) && StartMsg(s, next, v, msg) == Ok(d)
    ensures Inv(d.s, d.next, v)
  {
    StartMsgFaithful(s, next, v, msg);
  }

  lemma {:induction false} RevertedKeepsLists(s: Switch, next: nat, v: nat, msgs: seq<Msg>) returns (t: Switch)
    requires Inv(s, next, v) && AllReady(s, msgs)
    ensures Reverted(s, next, v, msgs, t) && Echo(s, t, v, Leftover(s, next, v, msgs)) && AllListed(t)
    decreases |msgs|
  {
    InvIsSound(s, next, v);
    InvListed(s, next, v);
    if msgs == [] {
      t := s;
      NothingReverted(s, next, v, msgs);
      NoEcho(s, v);
    } else {
      assert MsgReady(s, msgs[0]);
      match StartMsg(s, next, v, msgs[0]) {
        case Err(_) =>
          t := s;
          NothingReverted(s, next, v, msgs);
          NoEcho(s, v);
        case Ok(d) =>
          StartMsgKeepsInv(s, next, v, msgs[0], d);
          StartMsgRunnable(s, next, v, msgs[0]);
          ReadyRest(s, d.s, msgs);
          var t1 := RevertedKeepsLists(d.s, d.next, v, msgs[1..]);
          var left := Leftover(d.s, d.next, v, msgs[1..]);
          EchoMsg(s, next, v, msgs[0], d, t1, left);
          RevertMsgKeepsLists(s, next, v, msgs[0], d, t1, left);
          RevertedStep(s, next, v, msgs, d, t1);
          t := RevertMsg(t1, msgs[0], d.undo);
      }
    }
  }

  /** A failed bundle leaves the groups' lists of rules exact, whatever it leaves behind. */
  lemma FailedBundleKeepsLists(s: Switch, next: nat, msgs: seq<Msg>)
    requires Inv(s, next, s.version + 1) && AllReady(s, msgs) && BeginAll(s, next, s.version + 1, msgs).error.Some?
    ensures var r := Commit(s, next, msgs); r.Some? && AllListed(r.value.s)
  {
    var t := RevertedKeepsLists(s, next, s.version + 1, msgs);
    FailedIsReverted(s, next, msgs, t);
  }
}
