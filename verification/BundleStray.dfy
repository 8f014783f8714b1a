/** A bundle whose failure leaves a rule that names a group there is not. */
module BundleStray {
  import opened FlowTable
  import opened FlowMod
  import opened FlowModRevert
  import opened FlowModInv
  import opened FlowSpec
  import opened FlowRefine
  import opened FlowShape
  import opened FlowSound
  import opened GroupMod
  import opened Bundle
  import opened BundleFailure
  import opened BundleKeeps
  import opened BundleGroups
  import opened BundleClash

  const GID: GroupId := 5
  const NAMING := Content(KEY, 0, Actions([GID], {}, [], 0), Attrs(0, 0, 0, false, 0))
  const ADD_GROUP := GroupMsg(GMod(AddGroup, GID, 0, 0))

  /** One table without rules, room for one group. */
  const EMPTY := Switch(map[], {}, multiset{}, [0], map[], [0], TABLES, [1], 0)

  /** A group is added, a modify finds nothing and adds a rule that names it, and a delete names a table there is not. */
  const STRAYING := [ADD_GROUP, FlowMsg(Modify(ALL, NAMING, true, false)), FlowMsg(Delete(BAD))]

  const WITH_GROUP := EMPTY.(groups := map[0 := Group(GID, 0, 0, Versions(1, None), multiset{})], nGroups := [1])

  lemma EmptyIsInv()
    ensures Inv(EMPTY, 0, 0) && Inv(EMPTY, 0, 1) && Sound(EMPTY, 0, 1) && AllReady(EMPTY, STRAYING)
  {
    forall id: nat ensures Agrees(EMPTY, id) {}
    assert InTable(EMPTY, 0) == {} && OfKind(EMPTY, 0) == {};
    assert Inv(EMPTY, 0, 0);
    InvLater(EMPTY, 0, 0);
    InvIsSound(EMPTY, 0, 1);
  }

  lemma GroupIsAdded()
    requires Runnable(EMPTY, 0)
    ensures StartMsg(EMPTY, 0, 1, ADD_GROUP) == Ok(Done(WITH_GROUP, 1, GroupUndo(GUndo(None, 0))))
  {
    forall g ensures !IsCurrent(EMPTY, GID, g) {}
    assert GroupAddStart(EMPTY, 0, 1, ADD_GROUP.g).value.s == WITH_GROUP;
  }

  lemma ModifyAddsNaming()
    requires Runnable(WITH_GROUP, 1)
    ensures Start(WITH_GROUP, 1, 1, Modify(ALL, NAMING, true, false))
         == Ok(Started(Replace(WITH_GROUP, 1, None, NAMING, 1), 2, Undo([], [1])))
  {
    var s := WITH_GROUP;
    forall id ensures !Selected(s, ALL, id) && !IsExactly(s, KEY, 1, id) {}
    assert Collect(s, ALL, 1) == [];
    assert GroupKnown(s, GID) by { assert 0 in s.groups && s.groups[0].gid == GID; }
    assert ActionsOk(s, NAMING.actions);
  }

  lemma StrayingTwo(msgs: seq<Msg>)
    requires Runnable(WITH_GROUP, 1) && AllReady(WITH_GROUP, msgs)
    requires msgs == [FlowMsg(Modify(ALL, NAMING, true, false)), FlowMsg(Delete(BAD))]
    ensures BeginAll(WITH_GROUP, 1, 1, msgs).error == Some(BadTableId) && Leftover(WITH_GROUP, 1, 1, msgs) == map[1 := NAMING]
  {
    var u := Replace(WITH_GROUP, 1, None, NAMING, 1);
    ModifyAddsNaming();
    assert MsgReady(WITH_GROUP, msgs[0]);
    OneMore(WITH_GROUP, 1, msgs, Done(u, 2, FlowUndo(Undo([], [1]))));
    assert msgs[1..] == [FlowMsg(Delete(BAD))];
    BadFails(u, 2, msgs[1..]);
    AddedIsLeft(Modify(ALL, NAMING, true, false), Started(u, 2, Undo([], [1])), 1, NAMING);
  }

  lemma GroupThenTwo(s: Switch, msgs: seq<Msg>, d: Done)
    requires Runnable(s, 0) && AllReady(s, msgs) && msgs != [] && MsgReady(s, msgs[0]) && msgs[0].GroupMsg?
    requires StartMsg(s, 0, 1, msgs[0]) == Ok(d)
    requires d.s == WITH_GROUP && d.next == 1
    requires msgs[1..] == [FlowMsg(Modify(ALL, NAMING, true, false)), FlowMsg(Delete(BAD))]
    ensures BeginAll(s, 0, 1, msgs).error == Some(BadTableId) && Leftover(s, 0, 1, msgs) == map[1 := NAMING]
  {
    OneMore(s, 0, msgs, d);
    StrayingTwo(msgs[1..]);
    assert MsgLeaves(msgs[0], d) == map[];
  }

  lemma StrayingThree()
    requires Runnable(EMPTY, 0) && AllReady(EMPTY, STRAYING)
    ensures BeginAll(EMPTY, 0, 1, STRAYING).error == Some(BadTableId)
    ensures Leftover(EMPTY, 0, 1, STRAYING) == map[1 := NAMING]
  {
    GroupIsAdded();
    GroupThenTwo(EMPTY, STRAYING, Done(WITH_GROUP, 1, GroupUndo(GUndo(None, 0))));
  }

  /** A rule of the switch names group GID, which does not exist. */
  ghost predicate Stray(s: Switch, id: Id) {
    IsInserted(s, id) && s.rules[id].c == NAMING && s.groups == map[]
  }

  lemma StrayIsSeen(s: Switch, id: Id)
    requires Stray(s, id)
    ensures IsInserted(s, id) && !GroupKnown(s, GID) && !ActionsOk(s, s.rules[id].c.actions) && !Referring(s)
  {
    assert GID in s.rules[id].c.actions.groups;
  }

  lemma EchoStrays(t: Switch)
    requires Echo(EMPTY, t, 1, map[1 := NAMING])
    ensures Stray(t, 1) && t.nGroups == [0] && t.maxGroups == [1] && t.version == 0
  {
    assert Unmarked(t.rules[1]) == Rule(NAMING, Versions(1, None), Inserted, false);
    assert t.rules[1].c == Unmarked(t.rules[1]).c && t.rules[1].state == Unmarked(t.rules[1]).state;
    assert t.groups.Keys == {};
  }

  lemma StrayingFails() returns (r: Committed)
    ensures Inv(EMPTY, 0, 0) && AllReady(EMPTY, STRAYING)
    ensures Commit(EMPTY, 0, STRAYING) == Some(r) && r.error == Some(BadTableId)
    ensures Stray(r.s, 1) && r.s.nGroups == [0] && r.s.maxGroups == [1] && r.s.version == 0 && Orderly(r.s, r.next, 1)
  {
    EmptyIsInv();
    StrayingThree();
    var t := FailsWith(EMPTY, 0, 1, STRAYING, BadTableId, map[1 := NAMING]);
    EchoStrays(t);
    CommitKeepsOrder(EMPTY, 0, STRAYING);
    r := Commit(EMPTY, 0, STRAYING).value;
  }

  /** Where current groups do not survive: the failed bundle above leaves the added rule in place and takes its group
      back. When that rule is removed, the code does not find the group it looks up, and aborts. */
  lemma FailedBundleMayStray()
    ensures Inv(EMPTY, 0, 0) && AllReady(EMPTY, STRAYING)
    ensures var r := Commit(EMPTY, 0, STRAYING);
            && r.Some? && r.value.error == Some(BadTableId)
            && IsInserted(r.value.s, 1) && r.value.s.rules[1].c.actions.groups == [GID] && !GroupKnown(r.value.s, GID)
            && !Referring(r.value.s)
  {
    var r := StrayingFails();
    StrayIsSeen(r.s, 1);
  }

  lemma BeginJust(s: Switch, next: nat, v: nat, msg: Msg, d: Done)
    requires Runnable(s, next) && AllReady(s, [msg]) && MsgReady(s, msg) && StartMsg(s, next, v, msg) == Ok(d)
    ensures BeginAll(s, next, v, [msg]) == Begun(d.s, d.next, [d.undo], None)
  {
    StartMsgRunnable(s, next, v, msg);
    ReadyRest(s, d.s, [msg]);
    assert [msg][1..] == [];
    assert BeginAll(d.s, d.next, v, []) == Begun(d.s, d.next, [], None);
  }

  lemma GroupComesLate(s: Switch, next: nat, id: Id) returns (r: Committed)
    requires Stray(s, id) && Runnable(s, next) && AllReady(s, [ADD_GROUP])
    requires s.nGroups == [0] && s.maxGroups == [1] && s.version == 0
    ensures Commit(s, next, [ADD_GROUP]) == Some(r) && r.error.None?
    ensures IsInserted(r.s, id) && r.s.rules[id].c == NAMING && IsCurrent(r.s, GID, next) && r.s.groups[next].members == multiset{}
  {
    assert MsgReady(s, [ADD_GROUP][0]);
    forall g ensures !IsCurrent(s, GID, g) {}
    var st := GroupAddStart(s, next, 1, ADD_GROUP.g).value;
    BeginJust(s, next, 1, ADD_GROUP, Done(st.s, st.next, GroupUndo(st.undo)));
    var b := BeginAll(s, next, 1, [ADD_GROUP]);
    CommitConcludes(s, next, [ADD_GROUP], b);
    r := Commit(s, next, [ADD_GROUP]).value;
  }

  /** If then a group with the number is added, its list misses the rule. */
  lemma LaterGroupMissesRule()
    ensures Inv(EMPTY, 0, 0) && AllReady(EMPTY, STRAYING)
    ensures var r := Commit(EMPTY, 0, STRAYING);
            && r.Some? && Runnable(r.value.s, r.value.next) && AllReady(r.value.s, [ADD_GROUP])
            && var q := Commit(r.value.s, r.value.next, [ADD_GROUP]);
               q.Some? && q.value.error.None? && !AllListed(q.value.s)
  {
    var r := StrayingFails();
    assert MsgReady(r.s, ADD_GROUP);
    var q := GroupComesLate(r.s, r.next, 1);
    assert GroupsOf(q.s.rules[1].c)[GID] == 1;
    assert !Listed(q.s, 1);
  }
}
