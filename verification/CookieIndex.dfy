/** Searching by cookie index against searching by scan. */
module CookieIndex {
  import opened FlowTable
  import opened FlowMod
  import opened FlowModRevert
  import opened FlowModInv
  import opened FlowMeaning
  import LearnedCookies

  /** What the rules met on either way are filtered by. */
  ghost predicate Kept(s: Switch, cr: Criteria, id: Id) {
    id in s.rules && Fits(cr, s.rules[id].c) && Collectable(cr, s.rules[id].c) && s.rules[id].versions.remove.None?
  }

  /** The rules in the bucket of the cookie index that the criteria's cookie hashes to. */
  ghost function ByIndex(s: Switch, cr: Criteria, hash: bv64 -> nat): set<Id> {
    set id | id in s.cookies && Kept(s, cr, id) && hash(s.rules[id].c.cookie) == hash(cr.cookie)
  }

  /** The rules a scan of the visited tables finds in the newest version. */
  ghost function ByScan(s: Switch, cr: Criteria): set<Id> {
    set id | id in s.rules && Visited(s.tables, cr, s.rules[id].c.key.table)
             && s.rules[id].versions.remove.None? && Kept(s, cr, id)
  }

  lemma FullMaskMeansEqual(a: bv64, b: bv64)
    ensures CookieMatches(a, b, ALL_ONES) <==> a == b
  {
    AllBits(a ^ b);
    if a ^ b == 0 { XorTwice(a, b); }
    if a == b { XorSelf(a); }
  }

  /** For a given table and a whole cookie, the index finds exactly the rules a scan finds, whatever the hash
      function; and both are what the flow mods select. */
  lemma IndexAgreesWithScan(s: Switch, next: nat, v: nat, cr: Criteria, hash: bv64 -> nat)
    requires Inv(s, next, v) && cr.mask == ALL_ONES && cr.table.Some? && cr.table.value < |s.tables|
    ensures ByIndex(s, cr, hash) == ByScan(s, cr)
    ensures forall id: nat :: id in ByIndex(s, cr, hash) <==> Selected(s, cr, id)
  {
    forall id: nat ensures (id in ByIndex(s, cr, hash) <==> id in ByScan(s, cr)) && (id in ByIndex(s, cr, hash) <==> Selected(s, cr, id)) {
      assert Agrees(s, id);
      if id in s.rules { FullMaskMeansEqual(s.rules[id].c.cookie, cr.cookie); }
    }
  }

  /** When all tables are asked for, the two ways agree exactly if the index leads to no rule of a
      hidden table: a scan passes hidden tables over, the index does not. */
  lemma AllTablesAgreeIffNoneHidden(s: Switch, next: nat, v: nat, cr: Criteria, hash: bv64 -> nat)
    requires Inv(s, next, v) && cr.mask == ALL_ONES && cr.table.None?
    ensures ByIndex(s, cr, hash) == ByScan(s, cr)
            <==> forall id :: Kept(s, cr, id) ==> s.rules[id].c.key.table < |s.tables| && !s.tables[s.rules[id].c.key.table].hidden
  {
    forall id: nat ensures id in ByIndex(s, cr, hash) <==> Kept(s, cr, id) {
      assert Agrees(s, id);
      if id in s.rules { FullMaskMeansEqual(s.rules[id].c.cookie, cr.cookie); }
    }
    forall id: nat ensures id in ByScan(s, cr) <==> Kept(s, cr, id) && Visited(s.tables, cr, s.rules[id].c.key.table) {}
    if ByIndex(s, cr, hash) == ByScan(s, cr) {
      forall id | Kept(s, cr, id) ensures !s.tables[s.rules[id].c.key.table].hidden {
        assert id in ByScan(s, cr);
      }
    }
  }

  // ---------- the flush of learned cookies ----------

  /** Any match, one table, the whole cookie, and no right to touch read-only tables. */
  function FlushCriteria(k: LearnedCookies.Lesson): Criteria {
    Criteria(Some(k.1), map[], 0, false, k.0, ALL_ONES, None, None, false)
  }

  /** What a flush for a lesson deletes are the inserted rules with that cookie in that table that are not the
      switch's own, unless the table is read-only. */
  lemma FlushDeletes(s: Switch, k: LearnedCookies.Lesson, id: Id)
    requires Indexed(s, id)
    ensures Selected(s, FlushCriteria(k), id) && Writable(s.tables, FlushCriteria(k), s.rules[id].c)
       <==> IsInserted(s, id) && LearnedCookies.LessonOf(s.rules[id].c) == k && LearnedCookies.Deletable(s.tables, s.rules[id].c)
  {
    if id in s.rules {
      FullMaskMeansEqual(s.rules[id].c.cookie, k.0);
      assert Narrower(s.rules[id].c.key.pattern, map[]);
    }
  }
}
