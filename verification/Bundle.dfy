/** Bundles: all messages are started in one new version, then either every one is reverted or the
    version is published. */
module Bundle {
  import opened FlowTable
  import opened FlowMod
  import opened FlowModRevert
  import opened FlowModInv
  import opened FlowSpec
  import opened FlowRefine
  import opened FlowShape
  import opened GroupMod

  datatype Msg = FlowMsg(m: FlowMod) | GroupMsg(g: GMod)
  datatype MsgUndo = FlowUndo(u: Undo) | GroupUndo(gu: GUndo)
  datatype Done = Done(s: Switch, next: nat, undo: MsgUndo)

  predicate MsgReady(s: Switch, msg: Msg) {
    match msg
    case FlowMsg(m) => ModReady(s, m)
    case GroupMsg(g) => g.kind < |s.maxGroups|
  }

  ghost function StartMsg(s: Switch, next: nat, v: nat, msg: Msg): Outcome<Done>
    requires Runnable(s, next) && MsgReady(s, msg)
  {
    match msg
    case FlowMsg(m) =>
      (match Start(s, next, v, m) case Err(e) => Err(e) case Ok(st) => Ok(Done(st.s, st.next, FlowUndo(st.undo))))
    case GroupMsg(g) =>
      (match GroupStart(s, next, v, g) case Err(e) => Err(e) case Ok(st) => Ok(Done(st.s, st.next, GroupUndo(st.undo))))
  }

  lemma StartMsgRunnable(s: Switch, next: nat, v: nat, msg: Msg)
    requires Runnable(s, next) && MsgReady(s, msg) && StartMsg(s, next, v, msg).Ok?
    ensures var d := StartMsg(s, next, v, msg).value;
            Runnable(d.s, d.next) && next <= d.next && d.s.tables == s.tables && d.s.maxGroups == s.maxGroups
  {
    match msg {
      case FlowMsg(m) =>
        StartRecorded(s, next, v, m);
        RecordedRunnable(s, next, v, m, Start(s, next, v, m).value);
      case GroupMsg(g) => GroupStartRunnable(s, next, v, g);
    }
  }

  ghost predicate MsgRevertible(s: Switch, msg: Msg, undo: MsgUndo) {
    match msg
    case FlowMsg(m) => undo.FlowUndo? && Revertible(s, m, undo.u)
    case GroupMsg(_) => undo.GroupUndo? && GroupRevertible(s, undo.gu)
  }

  ghost function RevertMsg(s: Switch, msg: Msg, undo: MsgUndo): Switch
    requires MsgRevertible(s, msg, undo)
  {
    match msg
    case FlowMsg(m) => Revert(s, m, undo.u)
    case GroupMsg(_) => GroupRevert(s, undo.gu)
  }

  // ---------- one message ----------

  ghost function PlainMsg(a: Plain, tables: seq<TableConfig>, maxGroups: seq<nat>, msg: Msg, victim: Option<Content>): Outcome<Plain>
    requires match msg case FlowMsg(m) => m.Delete? || m.c.key.table < |tables| case GroupMsg(g) => g.kind < |maxGroups|
  {
    match msg
    case FlowMsg(m) => PlainMod(a, tables, m, victim)
    case GroupMsg(g) => PlainGroupMod(a, maxGroups, g)
  }

  ghost function MsgVictim(s: Switch, msg: Msg): Option<Content> {
    match msg case FlowMsg(m) => VictimContent(s, m) case GroupMsg(_) => None
  }

  /** Versions before `v` look the same in `s` and `t`, and settings are the same. */
  ghost predicate Unseen(s: Switch, t: Switch, v: nat) {
    && (forall w: nat :: w < v ==> PlainAt(t, w) == PlainAt(s, w))
    && t.version == s.version && t.tables == s.tables && t.maxGroups == s.maxGroups
  }

  lemma UnseenTrans(s: Switch, t: Switch, u: Switch, v: nat)
    requires Unseen(s, t, v) && Unseen(t, u, v)
    ensures Unseen(s, u, v)
  {
  }

  lemma StartMsgFaithful(s: Switch, next: nat, v: nat, msg: Msg)
    requires Inv(s, next, v) && MsgReady(s, msg)
    ensures match StartMsg(s, next, v, msg)
            case Err(e) => PlainMsg(PlainAt(s, v), s.tables, s.maxGroups, msg, MsgVictim(s, msg)) == Err(e)
            case Ok(d) => Inv(d.s, d.next, v) && Unseen(s, d.s, v)
                          && PlainMsg(PlainAt(s, v), s.tables, s.maxGroups, msg, MsgVictim(s, msg)) == Ok(PlainAt(d.s, v))
  {
    match msg {
      case FlowMsg(m) =>
        StartFaithful(s, next, v, m);
        if Start(s, next, v, m).Ok? { PastIsUnseen(s, Start(s, next, v, m).value.s, v); }
      case GroupMsg(g) =>
        GroupStartFaithful(s, next, v, g);
        if GroupStart(s, next, v, g).Ok? { GroupPastIsUnseen(s, GroupStart(s, next, v, g).value.s, v); }
    }
  }

  lemma PastIsUnseen(s: Switch, t: Switch, v: nat)
    requires SamePast(s, t, v)
    ensures Unseen(s, t, v)
  {
  }

  lemma GroupPastIsUnseen(s: Switch, t: Switch, v: nat)
    requires GroupPast(s, t, v)
    ensures Unseen(s, t, v)
  {
  }

  /** The message is one its revert undoes. */
  ghost predicate CleanMsg(s: Switch, next: nat, v: nat, msg: Msg)
    requires TablesInRange(s) && MsgReady(s, msg)
  {
    msg.FlowMsg? ==> Clean(s, next, v, msg.m)
  }

  lemma RevertMsgUndoes(s: Switch, next: nat, v: nat, msg: Msg)
    requires Inv(s, next, v) && MsgReady(s, msg) && StartMsg(s, next, v, msg).Ok?
    ensures var d := StartMsg(s, next, v, msg).value;
            && MsgRevertible(d.s, msg, d.undo)
            && (RevertMsg(d.s, msg, d.undo) == s <==> CleanMsg(s, next, v, msg))
  {
    match msg {
      case FlowMsg(m) => NewestView(s, next, v); RevertUndoesStart(s, next, v, m);
      case GroupMsg(g) => GroupRevertUndoesStart(s, next, v, g);
    }
  }

  // ---------- the phases of a commit ----------

  ghost predicate AllReady(s: Switch, msgs: seq<Msg>) {
    forall i :: 0 <= i < |msgs| ==> MsgReady(s, msgs[i])
  }

  /** What the begin phase leaves: the state, the undo records of the messages started, and the error that stopped it. */
  datatype Begun = Begun(s: Switch, next: nat, undos: seq<MsgUndo>, error: Option<Error>)

  lemma ReadyRest(s: Switch, t: Switch, msgs: seq<Msg>)
    requires msgs != [] && AllReady(s, msgs) && t.tables == s.tables && t.maxGroups == s.maxGroups
    ensures AllReady(t, msgs[1..])
  {
    forall i | 0 <= i < |msgs[1..]| ensures MsgReady(t, msgs[1..][i]) { assert MsgReady(s, msgs[i + 1]); }
  }

  /** Phase 1. */
  ghost function BeginAll(s: Switch, next: nat, v: nat, msgs: seq<Msg>): (b: Begun)
    requires Runnable(s, next) && AllReady(s, msgs)
    ensures |b.undos| <= |msgs|
    decreases |msgs|
  {
    if msgs == [] then Begun(s, next, [], None) else
      assert MsgReady(s, msgs[0]);
      match StartMsg(s, next, v, msgs[0])
      case Err(e) => Begun(s, next, [], Some(e))
      case Ok(d) =>
        StartMsgRunnable(s, next, v, msgs[0]);
        ReadyRest(s, d.s, msgs);
        var b := BeginAll(d.s, d.next, v, msgs[1..]);
        b.(undos := [d.undo] + b.undos)
  }

  /** Every message that was started is one its revert undoes. */
  ghost predicate AllClean(s: Switch, next: nat, v: nat, msgs: seq<Msg>)
    requires Runnable(s, next) && AllReady(s, msgs)
    decreases |msgs|
  {
    msgs == [] || (
      assert MsgReady(s, msgs[0]);
      match StartMsg(s, next, v, msgs[0])
      case Err(_) => true
      case Ok(d) =>
        StartMsgRunnable(s, next, v, msgs[0]);
        ReadyRest(s, d.s, msgs);
        CleanMsg(s, next, v, msgs[0]) && AllClean(d.s, d.next, v, msgs[1..]))
  }

  /** Phase 2: undoes the messages in reverse order; `None` if a record does not fit the state. */
  ghost function RevertAll(s: Switch, msgs: seq<Msg>, undos: seq<MsgUndo>): Option<Switch>
    requires |undos| <= |msgs|
    decreases |undos|
  {
    if undos == [] then Some(s) else
      match RevertAll(s, msgs[1..], undos[1..])
      case None => None
      case Some(t) =>
        if MsgRevertible(t, msgs[0], undos[0]) then Some(RevertMsg(t, msgs[0], undos[0])) else None
  }

  datatype Committed = Committed(s: Switch, next: nat, error: Option<Error>)

  /** What follows the begin phase: the version is published, by the first message finished, or
      everything is reverted. */
  ghost function Conclude(version: nat, msgs: seq<Msg>, b: Begun): Option<Committed>
    requires |b.undos| <= |msgs|
  {
    if b.error.None? then
      Some(Committed(if msgs == [] then b.s else b.s.(version := version), b.next, None))
    else
      match RevertAll(b.s, msgs, b.undos)
      case None => None
      case Some(t) => Some(Committed(t, b.next, b.error))
  }

  /** `do_bundle_commit`. */
  ghost function Commit(s: Switch, next: nat, msgs: seq<Msg>): Option<Committed>
    requires Runnable(s, next) && AllReady(s, msgs)
  {
    Conclude(s.version + 1, msgs, BeginAll(s, next, s.version + 1, msgs))
  }

  // ---------- plain meaning of a bundle ----------

  ghost function PlainAll(a: Plain, tables: seq<TableConfig>, maxGroups: seq<nat>, msgs: seq<Msg>, victims: seq<Option<Content>>): Outcome<Plain>
    requires |victims| == |msgs|
    requires forall i :: 0 <= i < |msgs| ==>
      match msgs[i] case FlowMsg(m) => m.Delete? || m.c.key.table < |tables| case GroupMsg(g) => g.kind < |maxGroups|
    decreases |msgs|
  {
    if msgs == [] then Ok(a) else
      match PlainMsg(a, tables, maxGroups, msgs[0], victims[0])
      case Err(e) => Err(e)
      case Ok(a1) => PlainAll(a1, tables, maxGroups, msgs[1..], victims[1..])
  }

  /** The evictions the run of a bundle happens to choose. */
  ghost function Victims(s: Switch, next: nat, v: nat, msgs: seq<Msg>): (l: seq<Option<Content>>)
    requires Runnable(s, next) && AllReady(s, msgs)
    ensures |l| == |msgs|
    decreases |msgs|
  {
    if msgs == [] then [] else
      assert MsgReady(s, msgs[0]);
      match StartMsg(s, next, v, msgs[0])
      case Err(_) => [MsgVictim(s, msgs[0])] + seq(|msgs| - 1, _ => None)
      case Ok(d) =>
        StartMsgRunnable(s, next, v, msgs[0]);
        ReadyRest(s, d.s, msgs);
        [MsgVictim(s, msgs[0])] + Victims(d.s, d.next, v, msgs[1..])
  }

  lemma {:induction false} BeginFaithful(s: Switch, next: nat, v: nat, msgs: seq<Msg>)
    requires Inv(s, next, v) && AllReady(s, msgs)
    ensures var b := BeginAll(s, next, v, msgs);
            && Inv(b.s, b.next, v) && Unseen(s, b.s, v)
            && PlainAll(PlainAt(s, v), s.tables, s.maxGroups, msgs, Victims(s, next, v, msgs))
               == (if b.error.Some? then Err(b.error.value) else Ok(PlainAt(b.s, v)))
    decreases |msgs|
  {
    if msgs != [] {
      assert MsgReady(s, msgs[0]);
      StartMsgFaithful(s, next, v, msgs[0]);
      match StartMsg(s, next, v, msgs[0])
      case Err(_) =>
      case Ok(d) =>
        ReadyRest(s, d.s, msgs);
        BeginFaithful(d.s, d.next, v, msgs[1..]);
        UnseenTrans(s, d.s, BeginAll(d.s, d.next, v, msgs[1..]).s, v);
        assert Victims(s, next, v, msgs)[1..] == Victims(d.s, d.next, v, msgs[1..]);
    }
  }

  lemma BeginKeepsInv(s: Switch, next: nat, v: nat, msgs: seq<Msg>, b: Begun)
    requires Inv(s, next, v) && AllReady(s, msgs) && b == BeginAll(s, next, v, msgs)
    ensures Inv(b.s, b.next, v) && Unseen(s, b.s, v)
  {
    BeginFaithful(s, next, v, msgs);
  }

  /** Reverting what was started restores the state from before the first message. */
  lemma {:induction false} RevertAllUndoes(s: Switch, next: nat, v: nat, msgs: seq<Msg>)
    requires Inv(s, next, v) && AllReady(s, msgs) && AllClean(s, next, v, msgs)
    ensures var b := BeginAll(s, next, v, msgs);
            |b.undos| <= |msgs| && RevertAll(b.s, msgs, b.undos) == Some(s)
    decreases |msgs|
  {
    if msgs != [] {
      assert MsgReady(s, msgs[0]);
      match StartMsg(s, next, v, msgs[0])
      case Err(_) =>
      case Ok(d) =>
        StartMsgFaithful(s, next, v, msgs[0]);
        ReadyRest(s, d.s, msgs);
        RevertAllUndoes(d.s, d.next, v, msgs[1..]);
        RevertMsgUndoes(s, next, v, msgs[0]);
        var b := BeginAll(d.s, d.next, v, msgs[1..]);
        assert ([d.undo] + b.undos)[1..] == b.undos;
    }
  }

  lemma InvLater(s: Switch, next: nat, v: nat)
    requires Inv(s, next, v)
    ensures Inv(s, next, v + 1)
    ensures PlainAt(s, v + 1) == PlainAt(s, v)
  {
    forall id | id in s.rules ensures Timely(s.rules[id].versions, v + 1) { assert Timely(s.rules[id].versions, v); }
    forall g | g in s.groups ensures Timely(s.groups[g].versions, v + 1) { assert Timely(s.groups[g].versions, v); }
    assert ViewIds(s, v + 1) == ViewIds(s, v);
    assert GroupIds(s, v + 1) == GroupIds(s, v);
  }

  lemma Republished(t: Switch, next: nat, v: nat, version: nat)
    requires Inv(t, next, v)
    ensures Inv(t.(version := version), next, v)
    ensures forall w: nat :: PlainAt(t.(version := version), w) == PlainAt(t, w)
  {
    var u := t.(version := version);
    forall x: nat ensures Agrees(u, x) { assert Agrees(t, x); }
    forall k | 0 <= k < |u.nFlows| ensures u.nFlows[k] == |InTable(u, k)| { assert InTable(u, k) == InTable(t, k); }
    forall k | 0 <= k < |u.nGroups| ensures u.nGroups[k] == |OfKind(u, k)| { assert OfKind(u, k) == OfKind(t, k); }
    forall gid ensures GroupKnown(t, gid) <==> GroupKnown(u, gid) {}
    forall w: nat ensures PlainAt(u, w) == PlainAt(t, w) {
      assert ViewIds(u, w) == ViewIds(t, w) && GroupIds(u, w) == GroupIds(t, w);
    }
  }

  lemma ConcludeSucceeds(s: Switch, b: Begun, msgs: seq<Msg>)
    requires |b.undos| <= |msgs| && b.error.None?
    requires Inv(b.s, b.next, s.version + 1) && Unseen(s, b.s, s.version + 1)
    ensures var v := s.version + 1;
            var r := Conclude(v, msgs, b).value;
            && r.error.None? && r.next == b.next
            && r.s.version == (if msgs == [] then s.version else v)
            && PlainAt(r.s, v) == PlainAt(b.s, v)
            && (forall w: nat :: w <= s.version ==> PlainAt(r.s, w) == PlainAt(s, w))
            && Inv(r.s, r.next, v)
  {
    Republished(b.s, b.next, s.version + 1, s.version + 1);
  }

  lemma CommitConcludes(s: Switch, next: nat, msgs: seq<Msg>, b: Begun)
    requires Runnable(s, next) && AllReady(s, msgs) && b == BeginAll(s, next, s.version + 1, msgs)
    ensures |b.undos| <= |msgs|
    ensures Commit(s, next, msgs) == Conclude(s.version + 1, msgs, b)
  {
    FewUndos(s, next, s.version + 1, msgs, b);
    CommitMeans(s, next, msgs, b);
  }

  lemma CommitMeans(s: Switch, next: nat, msgs: seq<Msg>, b: Begun)
    requires Runnable(s, next) && AllReady(s, msgs)
    requires b == BeginAll(s, next, s.version + 1, msgs) && |b.undos| <= |msgs|
    ensures Commit(s, next, msgs) == Conclude(s.version + 1, msgs, b)
  {
  }

  lemma FewUndos(s: Switch, next: nat, v: nat, msgs: seq<Msg>, b: Begun)
    requires Runnable(s, next) && AllReady(s, msgs) && b == BeginAll(s, next, v, msgs)
    ensures |b.undos| <= |msgs|
  {
  }

  lemma InvSpare(s: Switch, next: nat, next': nat, v: nat)
    requires Inv(s, next, v) && next <= next'
    ensures Inv(s, next', v)
  {
  }

  lemma {:induction false} BeginNextGrows(s: Switch, next: nat, v: nat, msgs: seq<Msg>)
    requires Runnable(s, next) && AllReady(s, msgs)
    ensures BeginAll(s, next, v, msgs).next >= next
    decreases |msgs|
  {
    if msgs != [] {
      assert MsgReady(s, msgs[0]);
      match StartMsg(s, next, v, msgs[0])
      case Err(_) =>
      case Ok(d) =>
        StartMsgRunnable(s, next, v, msgs[0]);
        ReadyRest(s, d.s, msgs);
        BeginNextGrows(d.s, d.next, v, msgs[1..]);
    }
  }
}
