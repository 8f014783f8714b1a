/** What criteria, overlap and the contents of new rules mean, in terms of packets and of what is asked for. */
module FlowMeaning {
  import opened FlowTable
  import opened FlowMod

  // ---------- packets ----------

  /** The header bits of a packet. */
  type Headers = nat -> bool

  predicate Matches(p: Pattern, h: Headers) {
    forall b :: b in p ==> h(b) == p[b]
  }

  /** A packet with the bits `first` requires, else those `second` requires. */
  function Headed(first: Pattern, second: Pattern): Headers {
    b => if b in first then first[b] else if b in second then second[b] else false
  }

  /** One pattern is narrower than another exactly if the other matches every packet it matches. */
  lemma NarrowerMeans(narrow: Pattern, wide: Pattern)
    ensures Narrower(narrow, wide) <==> forall h: Headers :: Matches(narrow, h) ==> Matches(wide, h)
  {
    if !Narrower(narrow, wide) {
      var b :| b in wide && (b !in narrow || narrow[b] != wide[b]);
      var h := Headed(narrow, map[b := !wide[b]]);
      assert Matches(narrow, h) && h(b) != wide[b];
    }
  }

  /** Two patterns are compatible exactly if some packet satisfies both. */
  lemma CompatibleMeans(a: Pattern, b: Pattern)
    ensures Compatible(a, b) <==> exists h: Headers :: Matches(a, h) && Matches(b, h)
  {
    if Compatible(a, b) {
      var h := Headed(a, b);
      assert Matches(a, h) && Matches(b, h);
    }
  }

  /** Two rules get in each other's way: one table, one priority, and a packet that satisfies both. */
  ghost predicate Collide(c: Content, d: Content) {
    && c.key.table == d.key.table && c.key.priority == d.key.priority
    && exists h: Headers :: Matches(c.key.pattern, h) && Matches(d.key.pattern, h)
  }

  lemma OverlapMeans(c: Content, d: Content)
    ensures OverlapsContent(c, d) <==> Collide(c, d)
  {
    CompatibleMeans(c.key.pattern, d.key.pattern);
  }

  // ---------- criteria ----------

  lemma MaskedXor(a: bv64, b: bv64, mask: bv64)
    ensures (a ^ b) & mask == (a & mask) ^ (b & mask)
  {
  }

  lemma AllBits(a: bv64)
    ensures a & ALL_ONES == a
  {
  }

  lemma XorTwice(a: bv64, b: bv64)
    ensures a ^ b == 0 ==> a == b
  {
  }

  lemma XorSelf(a: bv64)
    ensures a ^ a == 0
  {
  }

  /** Two cookies agree on every bit of the mask. */
  predicate AgreeUnder(mask: bv64, a: bv64, b: bv64) {
    a & mask == b & mask
  }

  lemma CookieMatchMeans(c: bv64, cookie: bv64, mask: bv64)
    ensures CookieMatches(c, cookie, mask) <==> AgreeUnder(mask, c, cookie)
  {
    MaskedXor(c, cookie, mask);
    if (c & mask) ^ (cookie & mask) == 0 { XorTwice(c & mask, cookie & mask); }
    if c & mask == cookie & mask { XorSelf(c & mask); }
  }

  /** The pattern asked for: strictly, just this one with its priority; loosely, any all of whose packets this one
      matches. */
  ghost predicate AskedByMatch(cr: Criteria, c: Content) {
    if cr.strict then c.key.pattern == cr.pattern && c.key.priority == cr.priority
    else forall h: Headers :: Matches(c.key.pattern, h) ==> Matches(cr.pattern, h)
  }

  /** The table, the port the rule outputs to, and a group it names. */
  ghost predicate AskedByPlace(cr: Criteria, c: Content) {
    && (cr.table == None || cr.table == Some(c.key.table))
    && (cr.outPort == None || exists p :: p in c.actions.outPorts && cr.outPort == Some(p))
    && (cr.outGroup == None || exists g :: g in c.actions.groups && cr.outGroup == Some(g))
  }

  /** The switch's own rules have priorities beyond those of OpenFlow. */
  predicate Own(c: Content) {
    c.key.priority > 65535
  }

  lemma PlacedMeans(cr: Criteria, c: Content)
    ensures Placed(cr, c) <==> AskedByPlace(cr, c) && (Own(c) ==> cr.strict && cr.priority > 65535)
  {
  }

  lemma FitsMeans(cr: Criteria, c: Content)
    ensures Fits(cr, c) <==> AskedByMatch(cr, c)
  {
    NarrowerMeans(c.key.pattern, cr.pattern);
  }

  /** A table looked through: with a whole cookie in the request, any; else the one asked for, or those that are not
      hidden. */
  predicate LookedThrough(tables: seq<TableConfig>, cr: Criteria, table: nat) {
    table < |tables| && (cr.mask == 0xFFFF_FFFF_FFFF_FFFF || cr.table != None || !tables[table].hidden)
  }

  /** What a request is after: rules in the tables looked through whose match, place and cookie are asked for; the
      switch's own rules only if asked for strictly, with such a priority. */
  ghost predicate Asked(tables: seq<TableConfig>, cr: Criteria, c: Content) {
    && LookedThrough(tables, cr, c.key.table)
    && AskedByMatch(cr, c) && AskedByPlace(cr, c) && AgreeUnder(cr.mask, c.cookie, cr.cookie)
    && (Own(c) ==> cr.strict && cr.priority > 65535)
  }

  /** What is selected is exactly what is inserted and asked for. */
  lemma SelectedMeans(s: Switch, cr: Criteria, id: Id)
    requires Indexed(s, id) && TablesInRange(s)
    ensures Selected(s, cr, id) <==> IsInserted(s, id) && Asked(s.tables, cr, s.rules[id].c)
  {
    if id in s.rules {
      FitsMeans(cr, s.rules[id].c);
      PlacedMeans(cr, s.rules[id].c);
      CookieMatchMeans(s.rules[id].c.cookie, cr.cookie, cr.mask);
    }
  }

  /** A request that is loose or names an ordinary priority never touches the switch's own rules. */
  lemma OwnRulesEscape(s: Switch, cr: Criteria, id: Id)
    requires Indexed(s, id) && TablesInRange(s) && (!cr.strict || cr.priority <= 65535)
    ensures Selected(s, cr, id) ==> !Own(s.rules[id].c)
  {
    SelectedMeans(s, cr, id);
  }

  // ---------- new rules ----------

  /** What stands in the table after an add over `was`: all the request says, but the old cookie if the request's is
      all ones. */
  function AddedOver(was: Content, c: Content): Content {
    Content(c.key, if c.cookie == 0xFFFF_FFFF_FFFF_FFFF then was.cookie else c.cookie, c.actions, c.attrs)
  }

  /** What stands in the table after a modify of `was`: the actions are the request's, the timeouts, importance, flags
      and date stay, and so does the cookie unless it is to be changed, to one that is not all ones. */
  function Modified(was: Content, c: Content, changeCookie: bool): Content {
    Content(was.key, if changeCookie && c.cookie != 0xFFFF_FFFF_FFFF_FFFF then c.cookie else was.cookie, c.actions, was.attrs)
  }

  lemma InheritMeans(was: Content, c: Content, changeCookie: bool)
    ensures c.key == was.key ==> Inherit(was, c, true, true) == AddedOver(was, c)
    ensures Inherit(was, c.(key := was.key), false, changeCookie) == Modified(was, c, changeCookie)
  {
  }
}
