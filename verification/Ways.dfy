/** How many tables walk has to make for a set of pages. */
module Ways {
  import opened Common
  import opened PageTable

  /** What the pages behind one table of a level have in common. */
  function Way(level: nat, p: nat): (w: nat)
    requires level <= 2
  {
    if level == 2 then 0 else if level == 1 then p / 262144 else p / 512
  }

  lemma WayUp(p: nat, q: nat, level: nat)
    requires level < 2 && Way(level, p) == Way(level, q)
    ensures Way(level + 1, p) == Way(level + 1, q) && Px(level + 1, p) == Px(level + 1, q)
  {
    assert p / 262144 == p / 512 / 512 && q / 262144 == q / 512 / 512;
  }

  lemma WayOf(p: nat, q: nat, level: nat)
    requires level <= 2 && p < MAX_PAGE && q < MAX_PAGE && forall k :: level < k <= 2 ==> Px(k, p) == Px(k, q)
    ensures Way(level, p) == Way(level, q)
  {
    if level < 2 {
      assert Px(2, p) == Px(2, q) && (level == 0 ==> Px(1, p) == Px(1, q));
      PxParts(p);
      PxParts(q);
    }
  }

  /** There is a table of that level on the way to the page. */
  ghost predicate Has(t: Tables, root: nat, p: nat, level: nat)
    requires level <= 2
  {
    TableAt(t, root, p, level) != -1
  }

  lemma {:induction false} SameWayTable(t: Tables, root: nat, p: nat, q: nat, level: nat)
    requires level <= 2 && Way(level, p) == Way(level, q)
    ensures TableAt(t, root, p, level) == TableAt(t, root, q, level)
    decreases 2 - level
  {
    if level < 2 {
      WayUp(p, q, level);
      SameWayTable(t, root, p, q, level + 1);
    }
  }

  /** A new table of level `lvl` on the way to `page` is the only one. */
  ghost predicate OneMore(t: Tables, t': Tables, root: nat, page: nat, lvl: nat)
  {
    forall p: nat, l: nat {:trigger Has(t', root, p, l)} :: p < MAX_PAGE && l <= 1 ==>
      (Has(t', root, p, l) <==> Has(t, root, p, l) || (l == lvl && Way(l, p) == Way(l, page)))
  }

  lemma NoneMore(t: Tables, root: nat, page: nat, lvl: nat)
    requires lvl <= 1 && Has(t, root, page, lvl)
    ensures OneMore(t, t, root, page, lvl)
  {
    forall p: nat | p < MAX_PAGE && Way(lvl, p) == Way(lvl, page) ensures Has(t, root, p, lvl) {
      SameWayTable(t, root, p, page, lvl);
    }
  }

  lemma LinkedTo(t: Tables, at: map<nat, Node>, root: nat, page: nat, level: nat, f: nat, i: nat, c: nat)
    requires CanLink(t, at, f, i, c) && at[f].level == level && 1 <= level <= 2 && IsRoot(at, root) && page < MAX_PAGE
    requires f == TableAt(t, root, page, level) && i == Px(level, page)
    ensures TableAt(WithTable(t, f, i, c), root, page, level - 1) == c
  {
    LinkedWay(t, at, f, i, c, root, page, level);
  }

  lemma LinkedHas(t: Tables, at: map<nat, Node>, root: nat, page: nat, level: nat, f: nat, i: nat, c: nat, p: nat,
                  l: nat)
    requires CanLink(t, at, f, i, c) && at[f].level == level && 1 <= level <= 2 && IsRoot(at, root)
    requires f == TableAt(t, root, page, level) && i == Px(level, page) && page < MAX_PAGE && p < MAX_PAGE && l <= 1
    ensures Has(WithTable(t, f, i, c), root, p, l) <==>
            Has(t, root, p, l) || (l == level - 1 && Way(l, p) == Way(l, page))
  {
    var t', at' := WithTable(t, f, i, c), at[c := Node(level - 1, f, i)];
    LinkedGraph(t, at, f, i, c);
    LinkedWay(t, at, f, i, c, root, p, l);
    LinkedTo(t, at, root, page, level, f, i, c);
    if TableAt(t', root, p, l) == c {
      TableAtOk(t', at', root, p, l);
      TableAtOk(t, at, root, p, l);
      OneWay(t', at', root, p, root, page, l);
      WayOf(p, page, l);
    }
    if l == level - 1 && Way(l, p) == Way(l, page) {
      SameWayTable(t', root, p, page, l);
    }
  }

  lemma LinkedOneMore(t: Tables, at: map<nat, Node>, root: nat, page: nat, level: nat, f: nat, i: nat, c: nat)
    requires CanLink(t, at, f, i, c) && at[f].level == level && 1 <= level <= 2 && IsRoot(at, root)
    requires f == TableAt(t, root, page, level) && i == Px(level, page) && page < MAX_PAGE
    ensures OneMore(t, WithTable(t, f, i, c), root, page, level - 1)
  {
    var t' := WithTable(t, f, i, c);
    forall p: nat, l: nat | p < MAX_PAGE && l <= 1
      ensures Has(t', root, p, l) <==> Has(t, root, p, l) || (l == level - 1 && Way(l, p) == Way(l, page))
    {
      LinkedHas(t, at, root, page, level, f, i, c, p, l);
    }
  }

  // ---- A whole walk ----

  /** walk has come down to `level` and made the tables above it that were missing. */
  ghost predicate DownTo(t: Tables, t': Tables, root: nat, page: nat, level: nat) {
    forall p: nat, l: nat {:trigger Has(t', root, p, l)} :: p < MAX_PAGE && l <= 1 ==>
      (Has(t', root, p, l) <==> Has(t, root, p, l) || (l >= level && Way(l, p) == Way(l, page)))
  }

  lemma DownOne(t: Tables, t1: Tables, t2: Tables, root: nat, page: nat, level: nat)
    requires 1 <= level <= 2 && page < MAX_PAGE
    requires DownTo(t, t1, root, page, level) && OneMore(t1, t2, root, page, level - 1)
    ensures DownTo(t, t2, root, page, level - 1) && (Has(t1, root, page, level - 1) <==> Has(t, root, page, level - 1))
  {
    forall p: nat, l: nat | p < MAX_PAGE && l <= 1
      ensures Has(t2, root, p, l) <==> Has(t, root, p, l) || (l >= level - 1 && Way(l, p) == Way(l, page))
    {
      assert Has(t1, root, p, l) <==> Has(t, root, p, l) || (l >= level && Way(l, p) == Way(l, page));
    }
  }

  lemma DownStill(t: Tables, t1: Tables, root: nat, page: nat, level: nat)
    requires 1 <= level <= 2 && page < MAX_PAGE && DownTo(t, t1, root, page, level)
    ensures Has(t1, root, page, level - 1) <==> Has(t, root, page, level - 1)
  {
  }

  /** The tables missing on the way to a page. */
  ghost function Lacks(t: Tables, root: nat, p: nat): (n: nat) {
    One(!Has(t, root, p, 1)) + One(!Has(t, root, p, 0))
  }

  /** Those of them that walk has made once it is at `level`. */
  ghost function Made(t: Tables, root: nat, p: nat, level: nat): (n: nat) {
    One(level <= 1 && !Has(t, root, p, 1)) + One(level == 0 && !Has(t, root, p, 0))
  }

  lemma MadeMore(t: Tables, root: nat, p: nat, level: nat)
    requires 1 <= level <= 2
    ensures Made(t, root, p, level - 1) == Made(t, root, p, level) + One(!Has(t, root, p, level - 1))
    ensures Made(t, root, p, level) + One(!Has(t, root, p, level - 1)) <= Lacks(t, root, p)
    ensures Made(t, root, p, 2) == 0 && Made(t, root, p, 0) == Lacks(t, root, p)
  {
  }

  // ---- A set of pages ----

  ghost predicate AllPages(ps: set<nat>) {
    forall p :: p in ps ==> p < MAX_PAGE
  }

  ghost predicate OnWay(ps: set<nat>, l: nat, p: nat)
    requires l <= 2
  {
    exists q :: q in ps && Way(l, q) == Way(l, p)
  }

  /** The tables on the way to the pages have been made, and no others. */
  ghost predicate Reaches(t: Tables, t': Tables, root: nat, ps: set<nat>) {
    forall p: nat, l: nat {:trigger Has(t', root, p, l)} :: p < MAX_PAGE && l <= 1 ==>
      (Has(t', root, p, l) <==> Has(t, root, p, l) || OnWay(ps, l, p))
  }

  lemma ReachesNone(t: Tables, root: nat)
    ensures Reaches(t, t, root, {}) && TablesFor(t, root, {}) == 0
  {
    assert Lacking(t, root, {}, 1) == {} && Lacking(t, root, {}, 0) == {};
  }

  lemma ReachesOne(t: Tables, t': Tables, root: nat, page: nat)
    requires DownTo(t, t', root, page, 0)
    ensures Reaches(t, t', root, {page})
  {
    forall p: nat, l: nat | p < MAX_PAGE && l <= 1 ensures OnWay({page}, l, p) <==> Way(l, p) == Way(l, page) {
      if Way(l, p) == Way(l, page) {
        assert page in {page};
      }
    }
  }

  lemma ReachesSame(t: Tables, t1: Tables, t2: Tables, root: nat, ps: set<nat>)
    requires Reaches(t, t1, root, ps)
    requires forall p: nat, l: nat :: p < MAX_PAGE && l <= 1 ==> TableAt(t2, root, p, l) == TableAt(t1, root, p, l)
    ensures Reaches(t, t2, root, ps)
  {
    forall p: nat, l: nat | p < MAX_PAGE && l <= 1 ensures Has(t2, root, p, l) <==> Has(t1, root, p, l) {
    }
  }

  lemma ReachesMore(t: Tables, t1: Tables, t2: Tables, root: nat, ps: set<nat>, page: nat)
    requires Reaches(t, t1, root, ps) && Reaches(t1, t2, root, {page})
    ensures Reaches(t, t2, root, ps + {page})
  {
    forall p: nat, l: nat | p < MAX_PAGE && l <= 1
      ensures Has(t2, root, p, l) <==> Has(t, root, p, l) || OnWay(ps + {page}, l, p)
    {
      assert Has(t2, root, p, l) <==> Has(t1, root, p, l) || OnWay({page}, l, p);
      assert Has(t1, root, p, l) <==> Has(t, root, p, l) || OnWay(ps, l, p);
      OnWayMore(ps, page, l, p);
    }
  }

  lemma OnWayMore(ps: set<nat>, page: nat, l: nat, p: nat)
    requires l <= 2
    ensures OnWay(ps + {page}, l, p) <==> OnWay(ps, l, p) || OnWay({page}, l, p)
  {
    if OnWay(ps, l, p) {
      var q :| q in ps && Way(l, q) == Way(l, p);
      assert q in ps + {page};
    }
    if OnWay({page}, l, p) {
      assert page in ps + {page};
    }
  }

  /** The ways to the pages for which there is no table of that level. */
  ghost function Lacking(t: Tables, root: nat, ps: set<nat>, l: nat): (ws: set<nat>)
    requires l <= 2
  {
    set p | p in ps && !Has(t, root, p, l) :: Way(l, p)
  }

  /** The tables that have to be made to map the pages. */
  ghost function TablesFor(t: Tables, root: nat, ps: set<nat>): (n: nat) {
    |Lacking(t, root, ps, 1)| + |Lacking(t, root, ps, 0)|
  }

  /** Below the root there is nothing yet. */
  ghost predicate Bare(t: Tables, root: nat) {
    forall p: nat, l: nat :: p < MAX_PAGE && l <= 1 ==> !Has(t, root, p, l)
  }

  /** There are exactly the tables on the way to `page`. */
  ghost predicate OnlyTo(t: Tables, root: nat, page: nat) {
    forall p: nat, l: nat :: p < MAX_PAGE && l <= 1 ==> (Has(t, root, p, l) <==> Way(l, p) == Way(l, page))
  }

  /** The first page of a page table needs two tables. */
  lemma BareNeeds(t: Tables, root: nat, page: nat)
    requires Bare(t, root) && page < MAX_PAGE
    ensures TablesFor(t, root, {page}) == 2
  {
    forall l: nat | l <= 1 ensures Lacking(t, root, {page}, l) == {Way(l, page)} {
      LackingPlus(t, root, {}, page, l);
      assert Lacking(t, root, {}, l) == {} && {page} == {} + {page};
    }
  }

  lemma BareReached(t: Tables, t': Tables, root: nat, page: nat)
    requires Bare(t, root) && Reaches(t, t', root, {page})
    ensures OnlyTo(t', root, page)
  {
    forall p: nat, l: nat | p < MAX_PAGE && l <= 1 ensures Has(t', root, p, l) <==> Way(l, p) == Way(l, page) {
      ReachedAt(t, t', root, {page}, p, l);
      OnWayOne(page, l, p);
    }
  }

  lemma OnWayOne(page: nat, l: nat, p: nat)
    requires l <= 2
    ensures OnWay({page}, l, p) <==> Way(l, p) == Way(l, page)
  {
    assert page in {page};
  }

  /** Another page behind the same tables needs none. */
  lemma BesideNeedsNone(t: Tables, t': Tables, root: nat, page: nat, q: nat)
    requires OnlyTo(t, root, page) && q < MAX_PAGE && Way(0, q) == Way(0, page)
    ensures TablesFor(t, root, {q}) == 0
    ensures Reaches(t, t', root, {q}) ==> OnlyTo(t', root, page)
  {
    WayUp(q, page, 0);
    forall l: nat | l <= 1 ensures Lacking(t, root, {q}, l) == {} {
      assert Has(t, root, q, l);
    }
    if Reaches(t, t', root, {q}) {
      forall p: nat, l: nat | p < MAX_PAGE && l <= 1 ensures Has(t', root, p, l) <==> Way(l, p) == Way(l, page) {
        ReachedAt(t, t', root, {q}, p, l);
        OnWayOne(q, l, p);
      }
    }
  }

  /** The ways to the pages other than the way to `page`. */
  ghost function OtherWays(ps: set<nat>, page: nat, l: nat): (ws: set<nat>)
    requires l <= 2
  {
    set p | p in ps && Way(l, p) != Way(l, page) :: Way(l, p)
  }

  /** The tables for the pages where those for `page` are there. */
  ghost function TablesBeside(ps: set<nat>, page: nat): (n: nat) {
    |OtherWays(ps, page, 1)| + |OtherWays(ps, page, 0)|
  }

  lemma BesideNeeds(t: Tables, root: nat, page: nat, ps: set<nat>)
    requires OnlyTo(t, root, page) && AllPages(ps)
    ensures TablesFor(t, root, ps) == TablesBeside(ps, page)
  {
    forall l: nat | l <= 1 ensures Lacking(t, root, ps, l) == OtherWays(ps, page, l) {
      assert forall p :: p in ps ==> (Has(t, root, p, l) <==> Way(l, p) == Way(l, page));
    }
  }

  lemma LackingMore(t: Tables, t1: Tables, root: nat, ps: set<nat>, p: nat, l: nat)
    requires Reaches(t, t1, root, ps) && l <= 1 && p < MAX_PAGE && AllPages(ps)
    ensures |Lacking(t, root, ps + {p}, l)| == |Lacking(t, root, ps, l)| + One(!Has(t1, root, p, l))
  {
    hide TableAt, Way, Reaches, Has;
    var before, w := Lacking(t, root, ps, l), Way(l, p);
    LackingPlus(t, root, ps, p, l);
    ReachedAt(t, t1, root, ps, p, l);
    if !Has(t1, root, p, l) {
      assert w !in before;
    } else if !Has(t, root, p, l) {
      var q :| q in ps && Way(l, q) == w;
      SameWayHas(t, root, p, q, l);
      assert w in before;
      assert before + {w} == before;
    }
  }

  lemma SameWayHas(t: Tables, root: nat, p: nat, q: nat, l: nat)
    requires l <= 2 && Way(l, q) == Way(l, p)
    ensures Has(t, root, q, l) <==> Has(t, root, p, l)
  {
    SameWayTable(t, root, p, q, l);
  }

  lemma ReachedAt(t: Tables, t1: Tables, root: nat, ps: set<nat>, p: nat, l: nat)
    requires Reaches(t, t1, root, ps) && l <= 1 && p < MAX_PAGE
    ensures Has(t1, root, p, l) <==> Has(t, root, p, l) || OnWay(ps, l, p)
  {
  }

  lemma LackingPlus(t: Tables, root: nat, ps: set<nat>, p: nat, l: nat)
    requires l <= 1
    ensures Lacking(t, root, ps + {p}, l) == Lacking(t, root, ps, l) + if Has(t, root, p, l) then {} else {Way(l, p)}
  {
    hide TableAt, Way;
  }

  /** One page more needs the tables that are still missing on its way. */
  lemma TablesMore(t: Tables, t1: Tables, root: nat, ps: set<nat>, p: nat)
    requires Reaches(t, t1, root, ps) && p < MAX_PAGE && AllPages(ps)
    ensures TablesFor(t, root, ps + {p}) == TablesFor(t, root, ps) + Lacks(t1, root, p)
  {
    LackingMore(t, t1, root, ps, p, 0);
    LackingMore(t, t1, root, ps, p, 1);
  }

  lemma TablesGrow(t: Tables, root: nat, ps: set<nat>, qs: set<nat>)
    requires ps <= qs
    ensures TablesFor(t, root, ps) <= TablesFor(t, root, qs)
  {
    forall l: nat | l <= 1 ensures |Lacking(t, root, ps, l)| <= |Lacking(t, root, qs, l)| {
      SubsetSize(Lacking(t, root, ps, l), Lacking(t, root, qs, l));
    }
  }
}
