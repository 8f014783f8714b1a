/** Exactly which failed bundles leave the whole invariant intact. */
module BundleTidy {
  import opened FlowTable
  import opened FlowMod
  import opened FlowModRevert
  import opened FlowModInv
  import opened FlowSpec
  import opened FlowRefine
  import opened FlowShape
  import opened FlowSound
  import opened GroupMod
  import opened Bundle
  import opened BundleFailure
  import opened BundleKeeps
  import opened BundleGroups

  /** None of the messages started has evicted a rule; and the rules that modifies have added have keys of their own
      and name groups that were current before. */
  ghost predicate Tidy(s: Switch, next: nat, v: nat, msgs: seq<Msg>)
    requires Runnable(s, next) && AllReady(s, msgs)
  {
    var left := Leftover(s, next, v, msgs);
    NoneEvicted(s, next, v, msgs) && NoClash(s, left) && AllKnown(s, left)
  }

  lemma InvFromParts(s: Switch, next: nat, v: nat)
    requires Sound(s, next, v) && OneRulePerKey(s) && Referring(s) && AllListed(s)
    ensures Inv(s, next, v)
  {
    forall id: nat ensures Agrees(s, id) { assert Indexed(s, id) && Heaped(s, id) && Listed(s, id); }
    forall id | id in s.rules && s.rules[id].state.Inserted? ensures ActionsOk(s, s.rules[id].c.actions) {
      assert IsInserted(s, id);
    }
  }

  lemma InvInParts(s: Switch, next: nat, v: nat)
    requires Inv(s, next, v)
    ensures Sound(s, next, v) && OneRulePerKey(s) && Referring(s)
  {
    InvIsSound(s, next, v);
  }

  lemma EchoKeysIff(s: Switch, t: Switch, v: nat, left: map<Id, Content>)
    requires Echo(s, t, v, left) && Dated(s, v) && OneRulePerKey(s)
    ensures OneRulePerKey(t) <==> NoClash(s, left)
  {
    if NoClash(s, left) { EchoKeepsKeysApart(s, t, v, left); } else { ClashIsSeen(s, t, v, left); }
  }

  lemma FailedInvIff(s: Switch, next: nat, v: nat, msgs: seq<Msg>) returns (r: Committed)
    requires Inv(s, next, v) && AllReady(s, msgs) && v == s.version + 1 && BeginAll(s, next, v, msgs).error.Some?
    ensures Commit(s, next, msgs) == Some(r) && r.s.version == s.version && r.error.Some?
    ensures Inv(r.s, r.next, v) <==> Tidy(s, next, v, msgs)
  {
    InvInParts(s, next, v);
    r := FailedSoundIff(s, next, v, msgs);
    var left := Leftover(s, next, v, msgs);
    var t := RevertedKeepsLists(s, next, v, msgs);
    FailedIsReverted(s, next, msgs, t);
    EchoKeysIff(s, t, v, left);
    EchoRefersIff(s, t, next, v, left);
    if Tidy(s, next, v, msgs) { InvFromParts(r.s, r.next, v); }
    if Inv(r.s, r.next, v) { InvInParts(r.s, r.next, v); }
  }

  lemma SucceedingKeepsInv(s: Switch, next: nat, v: nat, msgs: seq<Msg>) returns (r: Committed)
    requires Inv(s, next, v) && AllReady(s, msgs) && v == s.version + 1 && BeginAll(s, next, v, msgs).error.None?
    ensures Commit(s, next, msgs) == Some(r) && Inv(r.s, r.next, r.s.version + 1)
  {
    var b := BegunPlain(s, next, v, msgs);
    CommitConcludes(s, next, msgs, b);
    ConcludeSucceeds(s, b, msgs);
    r := Commit(s, next, msgs).value;
    InvLater(r.s, r.next, v);
  }

  /** It fails and is not tidy. */
  ghost predicate FailsUntidily(s: Switch, next: nat, v: nat, msgs: seq<Msg>)
    requires Runnable(s, next) && AllReady(s, msgs)
  {
    BeginAll(s, next, v, msgs).error.Some? && !Tidy(s, next, v, msgs)
  }

  lemma EndsWhole(s: Switch, next: nat, v: nat, msgs: seq<Msg>) returns (r: Committed)
    requires Inv(s, next, v) && AllReady(s, msgs) && v == s.version + 1
    ensures Commit(s, next, msgs) == Some(r)
    ensures Inv(r.s, r.next, r.s.version + 1) <==> !FailsUntidily(s, next, v, msgs)
  {
    if BeginAll(s, next, v, msgs).error.None? {
      r := SucceedingKeepsInv(s, next, v, msgs);
    } else {
      r := FailedInvIff(s, next, v, msgs);
    }
  }

  /** After any commit the whole invariant holds, of the published version and of what the next one would show, if and
      only if the bundle did not fail or was tidy. */
  lemma CommitInvIff(s: Switch, next: nat, msgs: seq<Msg>)
    requires Inv(s, next, s.version + 1) && AllReady(s, msgs)
    ensures var r := Commit(s, next, msgs);
            r.Some? && (Inv(r.value.s, r.value.next, r.value.s.version + 1) <==> !FailsUntidily(s, next, s.version + 1, msgs))
  {
    var r := EndsWhole(s, next, s.version + 1, msgs);
  }

  lemma CleanMsgIsTidy(s: Switch, next: nat, v: nat, msg: Msg, d: Done)
    requires Runnable(s, next) && MsgReady(s, msg) && StartMsg(s, next, v, msg) == Ok(d) && CleanMsg(s, next, v, msg)
    ensures MsgLeaves(msg, d) == map[] && (msg.FlowMsg? ==> !Evicts(s, next, v, msg.m))
  {
    if msg.FlowMsg? { LeftByRequest(s, next, v, msg.m); }
  }

  /** Messages that their reverts undo leave nothing, so a bundle of such is tidy. */
  lemma {:induction false} CleanIsTidy(s: Switch, next: nat, v: nat, msgs: seq<Msg>)
    requires Runnable(s, next) && AllReady(s, msgs) && AllClean(s, next, v, msgs)
    ensures Leftover(s, next, v, msgs) == map[] && NoneEvicted(s, next, v, msgs) && Tidy(s, next, v, msgs)
    decreases |msgs|
  {
    if msgs != [] {
      assert MsgReady(s, msgs[0]);
      match StartMsg(s, next, v, msgs[0])
      case Err(_) =>
      case Ok(d) =>
        CleanMsgIsTidy(s, next, v, msgs[0], d);
        StartMsgRunnable(s, next, v, msgs[0]);
        ReadyRest(s, d.s, msgs);
        CleanIsTidy(d.s, d.next, v, msgs[1..]);
    }
  }
}
