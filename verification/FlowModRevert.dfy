/** Reverting a flow mod undoes its start, and exactly when. */
module FlowModRevert {
  import opened FlowTable
  import opened FlowMod

  /** All redundant structures agree with the classifier, and ids from `next` on are unused. */
  ghost predicate Coherent(s: Switch, next: nat) {
    && TablesInRange(s)
    && (forall id: nat :: Agrees(s, id))
    && (forall id: nat :: id >= next ==> id !in s.rules)
  }

  lemma CountBack(s: Switch, table: nat, d: int)
    requires table < |s.nFlows|
    ensures Count(Count(s, table, d), table, -d) == s
  {
    assert Count(Count(s, table, d), table, -d).nFlows == s.nFlows;
  }

  lemma UnreplaceUndoesReplace(s: Switch, v: nat, prior: Option<Id>, c: Content, id: Id)
    requires c.key.table < |s.nFlows|
    requires Agrees(s, id) && id !in s.rules
    requires prior.Some? ==> Agrees(s, prior.value) && IsInserted(s, prior.value)
    ensures Unreplace(Replace(s, v, prior, c, id), prior, id) == s
  {
    if prior.Some? {
      var p := prior.value;
      var t := Out(s, p, v);
      BackInCommute(t, p, id, c, v);
      BackUndoesOut(s, p, v);
      DropUndoesIn(s, id, c, v);
    } else {
      var t := c.key.table;
      CountBack(s, t, 1);
      DropUndoesIn(Count(s, t, 1), id, c, v);
      assert Drop(Count(In(Count(s, t, 1), id, c, v), t, -1), id)
          == Count(Drop(In(Count(s, t, 1), id, c, v), id), t, -1);
    }
  }

  // ---------- many rules, reverted in the order they were changed ----------

  /** Undoing one replacement commutes with making another. */
  lemma UnreplaceCommutes(t: Switch, v: nat, p: Id, np: Id, q: Id, c: Content, nq: Id)
    requires p in t.rules && np in t.rules && q in t.rules && nq !in t.rules
    requires p != q && np != q && p != np && !t.rules[p].evicted
    requires t.rules[np].c.key.table < |t.nFlows| && c.key.table < |t.nFlows|
    ensures var r := Replace(t, v, Some(q), c, nq);
            && p in r.rules && np in r.rules && !r.rules[p].evicted && r.rules[np] == t.rules[np]
            && Unreplace(r, Some(p), np) == Replace(Unreplace(t, Some(p), np), v, Some(q), c, nq)
  {
    var o := Out(t, q, v);
    BackInCommute(o, p, nq, c, v);
    BackOutCommute(t, p, q, v);
    var b := Back(t, p);
    DropInCommute(Out(b, q, v), np, nq, c, v);
    DropOutCommute(b, np, q, v);
  }

  ghost predicate Apart(p: Id, np: Id, olds: seq<Id>, news: seq<Id>) {
    p != np && p !in olds && p !in news && np !in olds && np !in news
  }

  ghost predicate Separate(s: Switch, olds: seq<Id>, news: seq<Id>) {
    && (forall i, j :: 0 <= i < j < |olds| ==> olds[i] != olds[j])
    && (forall i, j :: 0 <= i < j < |news| ==> news[i] != news[j])
    && (forall i :: 0 <= i < |news| ==> news[i] !in s.rules)
  }

  /** What a replacement leaves in place for the rest of the list. */
  lemma ReplaceFrame(s: Switch, v: nat, olds: seq<Id>, news: seq<Id>, cs: seq<Content>)
    requires olds != [] && Replaceable(s, olds, news, cs) && Separate(s, olds, news)
    ensures var r := Replace(s, v, Some(olds[0]), cs[0], news[0]);
            && Replaceable(r, olds[1..], news[1..], cs[1..]) && Separate(r, olds[1..], news[1..])
            && |r.nFlows| == |s.nFlows| && news[0] in r.rules && r.rules[news[0]].c == cs[0]
            && (forall id :: id in s.rules ==> id in r.rules && r.rules[id].c == s.rules[id].c
                                               && r.rules[id].evicted == s.rules[id].evicted)
            && (forall id :: id in s.rules && id != olds[0] ==> r.rules[id] == s.rules[id])
  {
  }

  lemma UnreplaceFrame(t: Switch, p: Id, np: Id, olds: seq<Id>, news: seq<Id>, cs: seq<Content>)
    requires Replaceable(t, olds, news, cs) && Separate(t, olds, news)
    requires p in t.rules && np in t.rules && p != np && np !in olds
    requires t.rules[np].c.key.table < |t.nFlows|
    ensures Replaceable(Unreplace(t, Some(p), np), olds, news, cs)
  {
  }

  lemma ApartTail(p: Id, np: Id, olds: seq<Id>, news: seq<Id>)
    requires Apart(p, np, olds, news) && olds != [] && news != []
    ensures Apart(p, np, olds[1..], news[1..]) && p != olds[0] && np != olds[0] && p != news[0] && np != news[0]
  {
  }

  /** `Unreplace` of one pair, once the rest of the list has been replaced. */
  lemma {:induction false} UnreplacePastAll(t: Switch, v: nat, p: Id, np: Id, olds: seq<Id>, news: seq<Id>, cs: seq<Content>)
    requires Replaceable(t, olds, news, cs) && Separate(t, olds, news)
    requires p in t.rules && np in t.rules && !t.rules[p].evicted && Apart(p, np, olds, news)
    requires t.rules[np].c.key.table < |t.nFlows|
    ensures var r := ReplaceAll(t, v, olds, news, cs);
            && p in r.rules && np in r.rules && r.rules[np] == t.rules[np] && |r.nFlows| == |t.nFlows|
            && Replaceable(Unreplace(t, Some(p), np), olds, news, cs)
            && Unreplace(r, Some(p), np) == ReplaceAll(Unreplace(t, Some(p), np), v, olds, news, cs)
    decreases |olds|
  {
    UnreplaceFrame(t, p, np, olds, news, cs);
    if olds != [] {
      ApartTail(p, np, olds, news);
      ReplaceFrame(t, v, olds, news, cs);
      UnreplaceCommutes(t, v, p, np, olds[0], cs[0], news[0]);
      var r := Replace(t, v, Some(olds[0]), cs[0], news[0]);
      UnreplacePastAll(r, v, p, np, olds[1..], news[1..], cs[1..]);
    }
  }

  ghost predicate AllAgree(s: Switch, olds: seq<Id>, news: seq<Id>) {
    && (forall i :: 0 <= i < |olds| ==> Agrees(s, olds[i]) && IsInserted(s, olds[i]))
    && (forall i :: 0 <= i < |news| ==> Agrees(s, news[i]))
  }

  lemma HeadApart(s: Switch, olds: seq<Id>, news: seq<Id>, cs: seq<Content>)
    requires olds != [] && Replaceable(s, olds, news, cs) && Separate(s, olds, news)
    ensures Apart(olds[0], news[0], olds[1..], news[1..])
  {
    assert forall i :: 0 <= i < |news| ==> news[i] !in s.rules;
    assert forall i :: 0 <= i < |olds| ==> olds[i] in s.rules;
  }

  /** The preconditions of undoing a list of replacements. */
  ghost predicate CanUndo(s: Switch, olds: seq<Id>, news: seq<Id>, cs: seq<Content>) {
    Replaceable(s, olds, news, cs) && Separate(s, olds, news) && AllAgree(s, olds, news)
  }

  lemma TailCanUndo(s: Switch, olds: seq<Id>, news: seq<Id>, cs: seq<Content>)
    requires olds != [] && CanUndo(s, olds, news, cs)
    ensures CanUndo(s, olds[1..], news[1..], cs[1..]) && Apart(olds[0], news[0], olds[1..], news[1..])
    ensures Agrees(s, news[0]) && news[0] !in s.rules && Agrees(s, olds[0]) && IsInserted(s, olds[0]) && cs[0].key.table < |s.nFlows|
  {
    HeadApart(s, olds, news, cs);
  }

  /** The first of the rules is restored as if it had never been replaced. */
  lemma FirstUndone(s: Switch, v: nat, olds: seq<Id>, news: seq<Id>, cs: seq<Content>)
    requires olds != [] && CanUndo(s, olds, news, cs) && Unreplaceable(ReplaceAll(s, v, olds, news, cs), olds, news)
    ensures CanUndo(s, olds[1..], news[1..], cs[1..])
    ensures Unreplace(ReplaceAll(s, v, olds, news, cs), Some(olds[0]), news[0])
         == ReplaceAll(s, v, olds[1..], news[1..], cs[1..])
  {
    var t := Replace(s, v, Some(olds[0]), cs[0], news[0]);
    TailCanUndo(s, olds, news, cs);
    UnreplaceUndoesReplace(s, v, Some(olds[0]), cs[0], news[0]);
    NewStands(s, v, olds[0], news[0], cs[0]);
    ReplaceFrame(s, v, olds, news, cs);
    UnreplacePastAll(t, v, olds[0], news[0], olds[1..], news[1..], cs[1..]);
  }

  lemma NewStands(s: Switch, v: nat, p: Id, id: Id, c: Content)
    requires Agrees(s, p) && IsInserted(s, p) && id !in s.rules && c.key.table < |s.nFlows|
    ensures var t := Replace(s, v, Some(p), c, id);
            p in t.rules && id in t.rules && !t.rules[p].evicted && t.rules[id].c.key.table < |t.nFlows|
  {
  }

  lemma {:induction false} UnreplaceAllUndoes(s: Switch, v: nat, olds: seq<Id>, news: seq<Id>, cs: seq<Content>)
    requires CanUndo(s, olds, news, cs)
    ensures var r := ReplaceAll(s, v, olds, news, cs);
            Unreplaceable(r, olds, news) && UnreplaceAll(r, olds, news) == s
    decreases |olds|
  {
    AllUnreplaceable(s, v, olds, news, cs);
    if olds != [] {
      FirstUndone(s, v, olds, news, cs);
      UnreplaceAllUndoes(s, v, olds[1..], news[1..], cs[1..]);
      Step(ReplaceAll(s, v, olds, news, cs), ReplaceAll(s, v, olds[1..], news[1..], cs[1..]), olds, news);
    }
  }

  lemma Step(r: Switch, r': Switch, olds: seq<Id>, news: seq<Id>)
    requires olds != [] && Unreplaceable(r, olds, news) && Unreplaceable(r', olds[1..], news[1..])
    requires Unreplace(r, Some(olds[0]), news[0]) == r'
    ensures UnreplaceAll(r, olds, news) == UnreplaceAll(r', olds[1..], news[1..])
  {
  }

  lemma AllUnreplaceable(s: Switch, v: nat, olds: seq<Id>, news: seq<Id>, cs: seq<Content>)
    requires Replaceable(s, olds, news, cs) && Separate(s, olds, news)
    ensures Unreplaceable(ReplaceAll(s, v, olds, news, cs), olds, news)
  {
    ReplaceAllKeeps(s, v, olds, news, cs);
    var r := ReplaceAll(s, v, olds, news, cs);
    forall i, j | 0 <= i < |olds| && 0 <= j < |news| ensures olds[i] != news[j] {
      assert olds[i] in s.rules && news[j] !in s.rules;
    }
    forall i | 0 <= i < |olds|
      ensures olds[i] in r.rules && news[i] in r.rules && r.rules[news[i]].c.key.table < |r.nFlows|
    {
      assert olds[i] in s.rules;
    }
  }

  lemma {:induction false} ReplaceAllKeeps(s: Switch, v: nat, olds: seq<Id>, news: seq<Id>, cs: seq<Content>)
    requires Replaceable(s, olds, news, cs) && Separate(s, olds, news)
    ensures var r := ReplaceAll(s, v, olds, news, cs);
            && |r.nFlows| == |s.nFlows|
            && (forall id :: id in s.rules ==> id in r.rules && r.rules[id].c == s.rules[id].c)
            && (forall i :: 0 <= i < |news| ==> news[i] in r.rules && r.rules[news[i]].c == cs[i])
    decreases |olds|
  {
    if olds != [] {
      ReplaceFrame(s, v, olds, news, cs);
      var t := Replace(s, v, Some(olds[0]), cs[0], news[0]);
      ReplaceAllKeeps(t, v, olds[1..], news[1..], cs[1..]);
      var r := ReplaceAll(t, v, olds[1..], news[1..], cs[1..]);
      forall i | 0 <= i < |news| ensures news[i] in r.rules && r.rules[news[i]].c == cs[i] {
        if i > 0 { assert news[i] == news[1..][i - 1] && cs[i] == cs[1..][i - 1]; }
      }
    }
  }

  // ---------- deletions ----------

  function DeleteOne(s: Switch, v: nat, id: Id): Switch
    requires id in s.rules && s.rules[id].c.key.table < |s.nFlows|
  {
    Out(Count(s, s.rules[id].c.key.table, -1), id, v)
  }

  function UndeleteOne(s: Switch, id: Id): Switch
    requires id in s.rules && s.rules[id].c.key.table < |s.nFlows|
  {
    Count(Back(s, id), s.rules[id].c.key.table, 1)
  }

  lemma UndeleteUndoesDelete(s: Switch, v: nat, id: Id)
    requires Agrees(s, id) && IsInserted(s, id) && s.rules[id].c.key.table < |s.nFlows|
    ensures UndeleteOne(DeleteOne(s, v, id), id) == s
  {
    var t := s.rules[id].c.key.table;
    BackUndoesOut(Count(s, t, -1), id, v);
    CountBack(s, t, -1);
  }

  lemma UndeleteCommutes(s: Switch, v: nat, p: Id, q: Id)
    requires p != q && p in s.rules && q in s.rules
    requires s.rules[p].c.key.table < |s.nFlows| && s.rules[q].c.key.table < |s.nFlows|
    ensures UndeleteOne(DeleteOne(s, v, q), p) == DeleteOne(UndeleteOne(s, p), v, q)
  {
    var tp, tq := s.rules[p].c.key.table, s.rules[q].c.key.table;
    BackOutCommute(s, p, q, v);
    var a, b := UndeleteOne(DeleteOne(s, v, q), p), DeleteOne(UndeleteOne(s, p), v, q);
    assert a.nFlows == b.nFlows;
    assert a.(nFlows := s.nFlows) == Back(Out(s, q, v), p);
    assert b.(nFlows := s.nFlows) == Out(Back(s, p), q, v);
  }

  lemma {:induction false} UndeletePastAll(s: Switch, v: nat, p: Id, ids: seq<Id>)
    requires p in s.rules && s.rules[p].c.key.table < |s.nFlows| && AllIn(s, ids) && p !in ids
    ensures var r := DeleteAll(s, v, ids);
            && p in r.rules && r.rules[p].c == s.rules[p].c && |r.nFlows| == |s.nFlows|
            && AllIn(UndeleteOne(s, p), ids)
            && UndeleteOne(r, p) == DeleteAll(UndeleteOne(s, p), v, ids)
    decreases |ids|
  {
    if ids != [] {
      UndeleteCommutes(s, v, p, ids[0]);
      var t, u := DeleteOne(s, v, ids[0]), UndeleteOne(s, p);
      assert p !in ids[1..];
      UndeletePastAll(t, v, p, ids[1..]);
      assert DeleteAll(s, v, ids) == DeleteAll(t, v, ids[1..]);
      assert UndeleteOne(t, p) == DeleteOne(u, v, ids[0]);
      StillIn(s, p, ids);
      assert DeleteAll(u, v, ids) == DeleteAll(DeleteOne(u, v, ids[0]), v, ids[1..]);
    }
  }

  lemma StillIn(s: Switch, p: Id, ids: seq<Id>)
    requires p in s.rules && s.rules[p].c.key.table < |s.nFlows| && AllIn(s, ids)
    ensures AllIn(UndeleteOne(s, p), ids)
  {
  }

  lemma {:induction false} UndeleteAllUndoes(s: Switch, v: nat, ids: seq<Id>)
    requires AllIn(s, ids) && forall i, j :: 0 <= i < j < |ids| ==> ids[i] != ids[j]
    requires forall i :: 0 <= i < |ids| ==> Agrees(s, ids[i]) && IsInserted(s, ids[i])
    ensures var r := DeleteAll(s, v, ids); AllIn(r, ids) && UndeleteAll(r, ids) == s
    decreases |ids|
  {
    if ids != [] {
      var t := DeleteOne(s, v, ids[0]);
      UndeleteUndoesDelete(s, v, ids[0]);
      UndeletePastAll(t, v, ids[0], ids[1..]);
      UndeleteAllUndoes(s, v, ids[1..]);
      DeleteAllKeeps(s, v, ids);
    }
  }

  lemma {:induction false} DeleteAllKeeps(s: Switch, v: nat, ids: seq<Id>)
    requires AllIn(s, ids)
    ensures var r := DeleteAll(s, v, ids);
            && |r.nFlows| == |s.nFlows| && r.rules.Keys == s.rules.Keys
            && forall id :: id in s.rules ==> r.rules[id].c == s.rules[id].c
    decreases |ids|
  {
    if ids != [] { DeleteAllKeeps(DeleteOne(s, v, ids[0]), v, ids[1..]); }
  }

  // ---------- the theorem ----------

  /** Starting the mod adds a rule under a new key: nothing with that key is visible. */
  ghost predicate AddsNewKey(s: Switch, v: nat, c: Content) {
    FindExactly(s, c.key, v).None?
  }

  /** The starts that their reverts undo: an add that replaces or that finds room, a modify that finds something to
      modify or changes nothing new, and every delete. */
  ghost predicate Clean(s: Switch, next: nat, v: nat, m: FlowMod)
    requires TablesInRange(s) && ModReady(s, m)
  {
    match m
    case Add(c) => AddsNewKey(s, v, c) ==> s.nFlows[c.key.table] < s.tables[c.key.table].maxFlows
    case Modify(cr, c, mayAdd, _) => Collect(s, cr, next) == [] && mayAdd ==> !AddsNewKey(s, v, c)
    case Delete(_) => true
  }

  lemma FoundIsInserted(s: Switch, next: nat, key: Key, v: nat)
    requires Coherent(s, next)
    requires forall id :: id in s.rules && s.rules[id].versions.remove.Some? ==> s.rules[id].versions.remove.value <= v
    requires FindExactly(s, key, v).Some?
    ensures var id := FindExactly(s, key, v).value; IsExactly(s, key, v, id) && IsInserted(s, id)
  {
    var id := FindExactly(s, key, v).value;
    assert Agrees(s, id);
  }

  /** No rule is scheduled to disappear after version `v`. */
  ghost predicate SettledBy(s: Switch, v: nat) {
    forall id :: id in s.rules && s.rules[id].versions.remove.Some? ==> s.rules[id].versions.remove.value <= v
  }

  lemma VictimIsInserted(s: Switch, next: nat, table: nat)
    requires Coherent(s, next) && table < |s.tables| && Victim(s, table).Some?
    ensures IsInserted(s, Victim(s, table).value) && s.rules[Victim(s, table).value].c.key.table == table
  {
    assert Agrees(s, Victim(s, table).value);
  }

  /** How a started replacement of at most one rule reverts. */
  ghost predicate RevertsOne(s: Switch, st: Started, id: Id, restored: bool) {
    && |st.undo.olds| <= 1 && st.undo.news == [id]
    && id in st.s.rules && st.s.rules[id].c.key.table < |st.s.nFlows|
    && (st.undo.olds != [] ==> Unreplaceable(st.s, st.undo.olds, st.undo.news))
    && (Unreplace(st.s, if st.undo.olds == [] then None else Some(st.undo.olds[0]), id) == s <==> restored)
  }

  lemma RevertReplacement(s: Switch, v: nat, p: Id, c: Content, id: Id, next: nat)
    requires TablesInRange(s) && Agrees(s, p) && IsInserted(s, p) && Agrees(s, id) && id !in s.rules
    requires c.key.table < |s.nFlows|
    ensures RevertsOne(s, Started(Replace(s, v, Some(p), c, id), next, Undo([p], [id])), id, true)
  {
    UnreplaceUndoesReplace(s, v, Some(p), c, id);
  }

  lemma RevertInsertion(s: Switch, v: nat, c: Content, id: Id, next: nat)
    requires TablesInRange(s) && Agrees(s, id) && id !in s.rules && c.key.table < |s.nFlows|
    ensures RevertsOne(s, Started(Replace(s, v, None, c, id), next, Undo([], [id])), id, true)
  {
    UnreplaceUndoesReplace(s, v, None, c, id);
  }

  /** After an eviction has been reverted the victim still carries the mark of having been evicted. */
  lemma RevertEviction(s: Switch, v: nat, w: Id, c: Content, id: Id, next: nat)
    requires TablesInRange(s) && Agrees(s, w) && IsInserted(s, w) && Agrees(s, id) && id !in s.rules
    requires c.key.table < |s.nFlows|
    ensures RevertsOne(s, Started(Replace(MarkEvicted(s, w), v, Some(w), c, id), next, Undo([w], [id])), id, false)
  {
    var m := MarkEvicted(s, w);
    var t := Out(m, w, v);
    assert t.rules[w].evicted && !s.rules[w].evicted;
    MarkStays(In(t, id, c, v), w, id);
  }

  lemma MarkStays(t: Switch, w: Id, id: Id)
    requires w in t.rules && id in t.rules && w != id && t.rules[w].evicted && t.rules[id].c.key.table < |t.nFlows|
    ensures var u := Unreplace(t, Some(w), id); w in u.rules && u.rules[w].evicted
  {
  }

  lemma RevertAdd(s: Switch, next: nat, v: nat, c: Content, isAdd: bool)
    requires Coherent(s, next) && SettledBy(s, v) && c.key.table < |s.tables|
    requires AddStart(s, next, v, c, isAdd).Ok?
    ensures var st := AddStart(s, next, v, c, isAdd).value;
            && RevertsOne(s, st, next, AddsNewKey(s, v, c) ==> s.nFlows[c.key.table] < s.tables[c.key.table].maxFlows)
            && (st.undo.olds == [] <==> AddsNewKey(s, v, c) && s.nFlows[c.key.table] < s.tables[c.key.table].maxFlows)
  {
    assert Agrees(s, next);
    match FindExactly(s, c.key, v) {
      case Some(id) =>
        FoundIsInserted(s, next, c.key, v);
        assert Agrees(s, id);
        RevertReplacement(s, v, id, Successor(s.rules[id], c, isAdd, true), next, next + 1);
      case None =>
        if s.nFlows[c.key.table] >= s.tables[c.key.table].maxFlows {
          VictimIsInserted(s, next, c.key.table);
          var w := Victim(s, c.key.table).value;
          assert Agrees(s, w);
          RevertEviction(s, v, w, c, next, next + 1);
        } else {
          RevertInsertion(s, v, c, next, next + 1);
        }
    }
  }

  lemma RevertModified(s: Switch, next: nat, v: nat, m: FlowMod)
    requires Coherent(s, next) && m.Modify? && m.c.key.table < |s.tables|
    requires Collect(s, m.cr, next) != []
    ensures var olds := Collect(s, m.cr, next);
            var news, cs := NewIds(next, |olds|), Copies(s, olds, m.c, m.modifyCookie);
            var r := ReplaceAll(s, v, olds, news, cs);
            Unreplaceable(r, olds, news) && UnreplaceAll(r, olds, news) == s
  {
    var olds := Collect(s, m.cr, next);
    forall i | 0 <= i < |olds| ensures Agrees(s, olds[i]) && IsInserted(s, olds[i]) {
      assert Selected(s, m.cr, olds[i]) && Agrees(s, olds[i]);
    }
    UnreplaceAllUndoes(s, v, olds, NewIds(next, |olds|), Copies(s, olds, m.c, m.modifyCookie));
  }

  /** A modify that turned into an add reverts as far as the code goes: not at all, unless a rule was replaced. */
  lemma RevertModifyAsAdd(s: Switch, next: nat, v: nat, m: FlowMod)
    requires Coherent(s, next) && SettledBy(s, v) && m.Modify? && m.c.key.table < |s.tables|
    requires AddStart(s, next, v, m.c, false).Ok?
    ensures var st := AddStart(s, next, v, m.c, false).value;
            Revertible(st.s, m, st.undo) && (Revert(st.s, m, st.undo) == s <==> !AddsNewKey(s, v, m.c))
  {
    RevertAdd(s, next, v, m.c, false);
    var st := AddStart(s, next, v, m.c, false).value;
    if st.undo.olds == [] {
      assert next in st.s.rules && next !in s.rules;
    } else {
      UnreplaceAllOfOne(st.s, st.undo.olds[0], next);
      assert st.undo.olds == [st.undo.olds[0]];
    }
  }

  lemma UnreplaceAllOfOne(s: Switch, p: Id, id: Id)
    requires Unreplaceable(s, [p], [id])
    ensures UnreplaceAll(s, [p], [id]) == Unreplace(s, Some(p), id)
  {
    assert UnreplaceAll(s, [p], [id]) == UnreplaceAll(Unreplace(s, Some([p][0]), [id][0]), [p][1..], [id][1..]);
  }

  lemma RevertModify(s: Switch, next: nat, v: nat, m: FlowMod)
    requires Coherent(s, next) && SettledBy(s, v) && m.Modify? && m.c.key.table < |s.tables|
    requires ModifyStart(s, next, v, m).Ok?
    ensures var st := ModifyStart(s, next, v, m).value;
            Revertible(st.s, m, st.undo) && (Revert(st.s, m, st.undo) == s <==> Clean(s, next, v, m))
  {
    if Collect(s, m.cr, next) != [] { RevertModified(s, next, v, m); }
    else if m.mayAdd { RevertModifyAsAdd(s, next, v, m); }
  }

  /** A revert restores the whole switch, every version's view and every redundant structure, exactly if
      the start was clean. */
  lemma RevertUndoesStart(s: Switch, next: nat, v: nat, m: FlowMod)
    requires Coherent(s, next) && SettledBy(s, v) && ModReady(s, m)
    requires Start(s, next, v, m).Ok?
    ensures var st := Start(s, next, v, m).value;
            Revertible(st.s, m, st.undo) && (Revert(st.s, m, st.undo) == s <==> Clean(s, next, v, m))
  {
    match m {
      case Add(c) => RevertAdd(s, next, v, c, true);
      case Modify(_, _, _, _) => RevertModify(s, next, v, m);
      case Delete(_) => RevertDelete(s, next, v, m);
    }
  }

  lemma RevertDelete(s: Switch, next: nat, v: nat, m: FlowMod)
    requires Coherent(s, next) && m.Delete? && Start(s, next, v, m).Ok?
    ensures var st := Start(s, next, v, m).value; AllIn(st.s, st.undo.olds) && UndeleteAll(st.s, st.undo.olds) == s
  {
    var ids := Collect(s, m.cr, next);
    forall i | 0 <= i < |ids| ensures Agrees(s, ids[i]) && IsInserted(s, ids[i]) {
      assert Selected(s, m.cr, ids[i]);
      assert Agrees(s, ids[i]);
    }
    UndeleteAllUndoes(s, v, ids);
  }
}
