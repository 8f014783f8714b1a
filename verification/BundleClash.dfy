/** A bundle whose failure leaves two rules with one key to be shown together. */
module BundleClash {
  import opened FlowTable
  import opened FlowMod
  import opened FlowModRevert
  import opened FlowModInv
  import opened FlowSpec
  import opened FlowRefine
  import opened FlowShape
  import opened FlowSound
  import opened GroupMod
  import opened Bundle
  import opened BundleFailure

  const KEY := Key(0, map[], 1)
  const OLD := Content(KEY, 0, Actions([], {}, [], 0), Attrs(0, 0, 0, false, 0))
  const NEW := Content(KEY, 0, Actions([], {}, [], 1), Attrs(0, 0, 0, false, 0))
  const ALL := Criteria(None, map[], 0, false, 0, 0, None, None, false)
  const BAD := ALL.(table := Some(1))

  const TABLES := [TableConfig(2, false, false, false)]

  /** One table with one rule. */
  const BEFORE := Switch(map[0 := Rule(OLD, Versions(0, None), Inserted, false)], {0}, multiset{}, [1], map[], [], TABLES, [], 0)

  /** The rule is deleted, a modify finds nothing and adds one with the same key, and a delete names a table there is
      not. */
  const MESSAGES := [FlowMsg(Delete(ALL)), FlowMsg(Modify(ALL, NEW, true, false)), FlowMsg(Delete(BAD))]

  lemma BeforeIsInv()
    ensures Inv(BEFORE, 1, 0) && Inv(BEFORE, 1, 1) && Sound(BEFORE, 1, 1) && AllReady(BEFORE, MESSAGES)
  {
    forall id: nat ensures Agrees(BEFORE, id) {}
    assert InTable(BEFORE, 0) == {0};
    assert Inv(BEFORE, 1, 0);
    InvLater(BEFORE, 1, 0);
    InvIsSound(BEFORE, 1, 1);
  }

  lemma DeleteCollects()
    ensures Collect(BEFORE, ALL, 1) == [0]
  {
    assert Narrower(map[], map[]);
    assert CookieMatches(0, 0, 0);
    assert Selected(BEFORE, ALL, 0) && Writable(TABLES, ALL, OLD);
    assert Collect(BEFORE, ALL, 0) == [];
  }

  lemma DeleteAllOfOne(s: Switch, v: nat, id: Id)
    requires AllIn(s, [id])
    ensures DeleteAll(s, v, [id]) == DeleteOne(s, v, id)
  {
    assert DeleteAll(s, v, [id]) == DeleteAll(DeleteOne(s, v, id), v, [id][1..]);
  }

  lemma CollectsJust(s: Switch, next: nat, cr: Criteria, id: Id)
    requires TableIdOk(s, cr) && Collect(s, cr, next) == [id]
    ensures CollectRules(s, cr, next) == Ok([id])
  {
  }

  lemma DeletesCollected(s: Switch, next: nat, v: nat, cr: Criteria, ids: seq<Id>)
    requires TablesInRange(s) && CollectRules(s, cr, next) == Ok(ids) && AllIn(s, ids)
    ensures Start(s, next, v, Delete(cr)) == Ok(Started(DeleteAll(s, v, ids), next, Undo(ids, [])))
  {
  }

  lemma DeletesJust(s: Switch, next: nat, v: nat, cr: Criteria, id: Id)
    requires TablesInRange(s) && TableIdOk(s, cr) && Collect(s, cr, next) == [id] && id in s.rules
    ensures Start(s, next, v, Delete(cr)) == Ok(Started(DeleteOne(s, v, id), next, Undo([id], [])))
  {
    CollectsJust(s, next, cr, id);
    DeletesCollected(s, next, v, cr, [id]);
    DeleteAllOfOne(s, v, id);
  }

  lemma DeleteTakesIt()
    requires Runnable(BEFORE, 1)
    ensures Start(BEFORE, 1, 1, Delete(ALL)) == Ok(Started(DeleteOne(BEFORE, 1, 0), 1, Undo([0], [])))
  {
    DeleteCollects();
    DeletesJust(BEFORE, 1, 1, ALL, 0);
  }

  lemma ModifyAddsOne(t: Switch)
    requires t == DeleteOne(BEFORE, 1, 0) && Runnable(t, 1)
    ensures Start(t, 1, 1, Modify(ALL, NEW, true, false)) == Ok(Started(Replace(t, 1, None, NEW, 1), 2, Undo([], [1])))
  {
    assert !Selected(t, ALL, 0);
    assert Collect(t, ALL, 1) == Collect(t, ALL, 0) == [];
    forall id ensures !IsExactly(t, KEY, 1, id) {}
    assert t.nFlows == [0];
    forall id ensures !Selected(t, ALL, id) {}
  }

  lemma BadFails(s: Switch, next: nat, msgs: seq<Msg>)
    requires Runnable(s, next) && s.tables == TABLES && msgs == [FlowMsg(Delete(BAD))] && AllReady(s, msgs)
    ensures BeginAll(s, next, 1, msgs).error == Some(BadTableId) && Leftover(s, next, 1, msgs) == map[]
  {
    assert MsgReady(s, msgs[0]) && StartMsg(s, next, 1, msgs[0]) == Err(BadTableId);
  }

  /** One message further. */
  lemma OneMore(s: Switch, next: nat, msgs: seq<Msg>, d: Done)
    requires Runnable(s, next) && AllReady(s, msgs) && msgs != [] && MsgReady(s, msgs[0])
    requires StartMsg(s, next, 1, msgs[0]) == Ok(d)
    ensures Runnable(d.s, d.next) && AllReady(d.s, msgs[1..])
    ensures BeginAll(s, next, 1, msgs).error == BeginAll(d.s, d.next, 1, msgs[1..]).error
    ensures Leftover(s, next, 1, msgs) == MsgLeaves(msgs[0], d) + Leftover(d.s, d.next, 1, msgs[1..])
  {
    StartMsgRunnable(s, next, 1, msgs[0]);
    ReadyRest(s, d.s, msgs);
  }

  lemma LastTwo(t: Switch, msgs: seq<Msg>)
    requires t == DeleteOne(BEFORE, 1, 0) && Runnable(t, 1) && AllReady(t, msgs)
    requires msgs == [FlowMsg(Modify(ALL, NEW, true, false)), FlowMsg(Delete(BAD))]
    ensures BeginAll(t, 1, 1, msgs).error == Some(BadTableId) && Leftover(t, 1, 1, msgs) == map[1 := NEW]
  {
    var u := Replace(t, 1, None, NEW, 1);
    ModifyAddsOne(t);
    assert MsgReady(t, msgs[0]);
    OneMore(t, 1, msgs, Done(u, 2, FlowUndo(Undo([], [1]))));
    assert msgs[1..] == [FlowMsg(Delete(BAD))];
    BadFails(u, 2, msgs[1..]);
    AddedIsLeft(Modify(ALL, NEW, true, false), Started(u, 2, Undo([], [1])), 1, NEW);
  }

  lemma AllThree()
    requires Runnable(BEFORE, 1) && AllReady(BEFORE, MESSAGES)
    ensures BeginAll(BEFORE, 1, 1, MESSAGES).error == Some(BadTableId)
    ensures Leftover(BEFORE, 1, 1, MESSAGES) == map[1 := NEW]
  {
    var t := DeleteOne(BEFORE, 1, 0);
    DeleteTakesIt();
    OneMore(BEFORE, 1, MESSAGES, Done(t, 1, FlowUndo(Undo([0], []))));
    LastTwo(t, MESSAGES[1..]);
  }

  lemma BothShown(t: Switch)
    requires Echo(BEFORE, t, 1, map[1 := NEW])
    ensures ViewIds(t, 1) == {0, 1} && t.rules[0].c.key == t.rules[1].c.key == KEY && !OneRulePerKey(t)
  {
    assert Unmarked(t.rules[0]) == Unmarked(BEFORE.rules[0]) == Rule(OLD, Versions(0, None), Inserted, false);
    assert Unmarked(t.rules[1]) == Rule(NEW, Versions(1, None), Inserted, false);
    assert t.rules[0].versions == Versions(0, None) && t.rules[1].versions == Versions(1, None);
    assert VisibleAt(t.rules[0].versions, 1) && VisibleAt(t.rules[1].versions, 1);
  }

  lemma FailsWith(s: Switch, next: nat, v: nat, msgs: seq<Msg>, e: Error, left: map<Id, Content>) returns (t: Switch)
    requires v == s.version + 1 && Sound(s, next, v) && AllReady(s, msgs)
    requires BeginAll(s, next, v, msgs).error == Some(e) && Leftover(s, next, v, msgs) == left
    ensures var r := Commit(s, next, msgs); r.Some? && r.value.error == Some(e) && r.value.s == t
    ensures Echo(s, t, v, left)
  {
    FailedBundleUnseen(s, next, msgs);
    t := Commit(s, next, msgs).value.s;
  }

  /** Where one rule to a key does not survive: the failed bundle above leaves the added rule in place and brings the
      deleted one back, both to be shown in the version that the next bundle publishes. */
  lemma FailedBundleMayClash()
    ensures Inv(BEFORE, 1, 0) && AllReady(BEFORE, MESSAGES)
    ensures var r := Commit(BEFORE, 1, MESSAGES);
            r.Some? && r.value.error == Some(BadTableId) && ViewIds(r.value.s, 1) == {0, 1} && !OneRulePerKey(r.value.s)
  {
    BeforeIsInv();
    AllThree();
    var t := FailsWith(BEFORE, 1, 1, MESSAGES, BadTableId, map[1 := NEW]);
    BothShown(t);
  }
}
