/** What lies under a page-table page, for freewalk in kernel/vm.c. */
module FreeWalk {
  import opened PageTable

  /** Frame `c` is `f` or hangs below it, at most `k` entries down. */
  ghost predicate UnderIn(at: map<nat, Node>, c: nat, f: nat, k: nat)
    decreases k
  {
    c in at && (c == f || (k > 0 && at[c].level < 2 && UnderIn(at, at[c].parent, f, k - 1)))
  }

  ghost predicate Under(at: map<nat, Node>, c: nat, f: nat) {
    c in at && -1 <= at[c].level <= 2 && UnderIn(at, c, f, 2 - at[c].level)
  }

  lemma UnderParent(t: Tables, at: map<nat, Node>, ex: set<(nat, nat)>, c: nat, f: nat)
    requires GraphOk(t, at, ex) && c in at && c != f
    ensures Under(at, c, f) <==> at[c].level < 2 && Under(at, at[c].parent, f)
  {
    assert HeldOk(t, at, c);
  }

  /** What is under `f` is on a lower level. */
  lemma {:induction false} UnderLevel(t: Tables, at: map<nat, Node>, ex: set<(nat, nat)>, c: nat, f: nat)
    requires GraphOk(t, at, ex) && c in at && Under(at, c, f)
    ensures f in at && at[c].level <= at[f].level && (c == f || at[c].level < at[f].level)
    decreases 2 - at[c].level
  {
    assert HeldOk(t, at, c);
    if c != f {
      UnderParent(t, at, ex, c, f);
      UnderLevel(t, at, ex, at[c].parent, f);
    }
  }

  /** Frames that stay keep their place. */
  ghost predicate Within(at': map<nat, Node>, at: map<nat, Node>) {
    forall c :: c in at' ==> c in at && at[c] == at'[c]
  }

  /** Being under a frame does not depend on what else is there. */
  lemma {:induction false} UnderWithin(t: Tables, at: map<nat, Node>, ex: set<(nat, nat)>,
                                       t': Tables, at': map<nat, Node>, ex': set<(nat, nat)>, c: nat, f: nat)
    requires GraphOk(t, at, ex) && GraphOk(t', at', ex') && Within(at', at) && c in at'
    ensures Under(at', c, f) <==> Under(at, c, f)
    decreases 2 - at'[c].level
  {
    assert HeldOk(t', at', c) && HeldOk(t, at, c);
    if c != f {
      UnderParent(t, at, ex, c, f);
      UnderParent(t', at', ex', c, f);
      if at'[c].level < 2 {
        UnderWithin(t, at, ex, t', at', ex', at'[c].parent, f);
      }
    }
  }

  /** Under a child is under the parent. */
  lemma {:induction false} UnderChild(t: Tables, at: map<nat, Node>, ex: set<(nat, nat)>, c: nat, d: nat, f: nat)
    requires GraphOk(t, at, ex) && Under(at, c, d) && d in at && at[d].level < 2 && at[d].parent == f
    ensures Under(at, c, f)
    decreases 2 - at[c].level
  {
    assert HeldOk(t, at, c) && HeldOk(t, at, d);
    if c == d {
      UnderParent(t, at, ex, d, f);
    } else {
      UnderParent(t, at, ex, c, d);
      UnderChild(t, at, ex, at[c].parent, d, f);
      if c != f {
        UnderParent(t, at, ex, c, f);
      }
    }
  }

  /** Below a table without valid entries there is nothing. */
  lemma {:induction false} Alone(t: Tables, at: map<nat, Node>, c: nat, f: nat)
    requires GraphOk(t, at, {}) && f in t && |t[f]| == ENTRIES && forall i :: 0 <= i < ENTRIES ==> !IsValid(t[f][i])
    requires Under(at, c, f)
    ensures c == f
    decreases 2 - at[c].level
  {
    assert HeldOk(t, at, c);
    if c != f {
      UnderParent(t, at, {}, c, f);
      Alone(t, at, at[c].parent, f);
    }
  }

  /** The entry that holds a table below the root. */
  ghost function Hole(at: map<nat, Node>, f: nat): set<(nat, nat)>
    requires f in at
  {
    if at[f].level == 2 then {} else {(at[f].parent, at[f].index)}
  }

  /** Once its frame is gone, the dangling entry is zeroed. */
  lemma HoleFilled(t: Tables, at: map<nat, Node>, f: nat, i: nat)
    requires GraphOk(t, at, {(f, i)}) && f in at && at[f].level >= 0 && i < ENTRIES && f in t && |t[f]| == ENTRIES
    requires IsValid(t[f][i]) && Frame(t[f][i]) >= 0 ==> Frame(t[f][i]) !in at
    ensures GraphOk(WithEntry(t, f, i, 0), at, {})
  {
    var t' := WithEntry(t, f, i, 0);
    forall g | g in at && at[g].level >= 0 ensures TableOk(t', at, g, {}) {
      assert TableOk(t, at, g, {(f, i)});
      forall k | 0 <= k < ENTRIES ensures EntryOk(t', at, g, k) {
        assert (g, k) != (f, i) ==> EntryOk(t, at, g, k);
      }
    }
    forall c | c in at ensures HeldOk(t', at, c) {
      assert HeldOk(t, at, c);
    }
  }

  /** An empty table is given back; the entry above it dangles. */
  lemma TableDropped(t: Tables, at: map<nat, Node>, f: nat)
    requires GraphOk(t, at, {}) && f in at && at[f].level >= 0
    requires f in t && |t[f]| == ENTRIES && forall i :: 0 <= i < ENTRIES ==> !IsValid(t[f][i])
    ensures GraphOk(t - {f}, at - {f}, Hole(at, f))
  {
    var t', at' := t - {f}, at - {f};
    forall g | g in at' && at'[g].level >= 0 ensures TableOk(t', at', g, Hole(at, f)) {
      assert TableOk(t, at, g, {});
      forall k | 0 <= k < ENTRIES && (g, k) !in Hole(at, f) ensures EntryOk(t', at', g, k) {
        assert EntryOk(t, at, g, k);
        assert HeldOk(t, at, g);
      }
    }
    forall c | c in at' ensures HeldOk(t', at', c) {
      assert HeldOk(t, at, c);
    }
  }

  /** Exactly what was under `f` is gone. */
  ghost predicate Pruned(t: Tables, at: map<nat, Node>, t': Tables, at': map<nat, Node>, f: nat) {
    && Within(at', at)
    && (forall c :: c in at ==> (c in at' <==> !Under(at, c, f)))
    && (forall g :: g in t' ==> g in t && t'[g] == t[g])
  }

  /** Part of the way through freewalk's loop on table `f`. */
  ghost predicate Pruning(t: Tables, at: map<nat, Node>, t': Tables, at': map<nat, Node>, f: nat, i: nat) {
    && Within(at', at) && f in at' && f in t' && |t'[f]| == ENTRIES && i <= ENTRIES
    && (forall c :: c in at && !Under(at, c, f) ==> c in at')
    && (forall g :: g in t' && g != f ==> g in t && t'[g] == t[g])
    && (forall k :: 0 <= k < i ==> !IsValid(t'[f][k]))
    && f in t && |t[f]| == ENTRIES && (forall k :: i <= k < ENTRIES ==> t'[f][k] == t[f][k])
  }

  /** The child under entry `i` is gone and the entry zeroed. */
  lemma PrunedChild(t: Tables, at: map<nat, Node>, t1: Tables, a1: map<nat, Node>, t2: Tables, a2: map<nat, Node>,
                    f: nat, i: nat, c: nat)
    requires GraphOk(t, at, {}) && GraphOk(t1, a1, {}) && Pruning(t, at, t1, a1, f, i) && i < ENTRIES
    requires c in a1 && a1[c].level < 2 && a1[c].parent == f && a1[c].index == i
    requires GraphOk(t2, a2, {(f, i)}) && Pruned(t1, a1, t2, a2, c) && IsValid(t1[f][i]) && Frame(t1[f][i]) == c
    ensures f in a2 && f in t2 && |t2[f]| == ENTRIES && GraphOk(WithEntry(t2, f, i, 0), a2, {})
    ensures Pruning(t, at, WithEntry(t2, f, i, 0), a2, f, i + 1)
  {
    assert HeldOk(t1, a1, c);
    if Under(a1, f, c) {
      UnderLevel(t1, a1, {}, f, c);
    }
    assert TableOk(t2, a2, f, {(f, i)});
    assert Under(a1, c, c);
    HoleFilled(t2, a2, f, i);
    forall d | d in at && !Under(at, d, f) ensures d in a2 {
      if Under(a1, d, c) {
        UnderChild(t1, a1, {}, d, c, f);
        UnderWithin(t, at, {}, t1, a1, {}, d, f);
      }
    }
  }

  /** Nothing but the table itself is left under it. */
  lemma PrunedAll(t: Tables, at: map<nat, Node>, t': Tables, at': map<nat, Node>, f: nat)
    requires GraphOk(t, at, {}) && GraphOk(t', at', {}) && Pruning(t, at, t', at', f, ENTRIES)
    ensures Pruned(t, at, t' - {f}, at' - {f}, f)
  {
    forall c | c in at ensures c in at' - {f} <==> !Under(at, c, f) {
      assert HeldOk(t, at, c);
      if c in at' {
        UnderWithin(t, at, {}, t', at', {}, c, f);
        if Under(at', c, f) {
          Alone(t', at', c, f);
        }
      }
    }
  }

  // ---- Pages and lookups ----

  /** What is on the way to a page of `r` is under `r`. */
  lemma {:induction false} WayUnder(t: Tables, at: map<nat, Node>, r: nat, p: nat, level: nat)
    requires GraphOk(t, at, {}) && r in at && at[r].level == 2 && level <= 2 && TableAt(t, r, p, level) >= 0
    ensures TableAt(t, r, p, level) in at && Under(at, TableAt(t, r, p, level), r)
    decreases 2 - level
  {
    TableAtOk(t, at, r, p, level);
    if level < 2 {
      var f, c := TableAt(t, r, p, level + 1), TableAt(t, r, p, level);
      TableAtOk(t, at, r, p, level + 1);
      WayUnder(t, at, r, p, level + 1);
      assert EntryOk(t, at, f, Px(level + 1, p));
      UnderParent(t, at, {}, c, r);
    }
  }

  /** So is a page that the table holds. */
  lemma OwnedUnder(t: Tables, at: map<nat, Node>, r: nat, p: nat)
    requires GraphOk(t, at, {}) && r in at && at[r].level == 2 && Owns(t, at, r, p)
    ensures Under(at, Frame(Lookup(t, r, p)), r)
  {
    WayUnder(t, at, r, p, 0);
    UnderParent(t, at, {}, Frame(Lookup(t, r, p)), r);
  }

  /** No frame is under two roots. */
  lemma {:induction false} OneRoot(t: Tables, at: map<nat, Node>, c: nat, r: nat, s: nat)
    requires GraphOk(t, at, {}) && Under(at, c, r) && Under(at, c, s)
    requires r in at && s in at && at[r].level == 2 == at[s].level
    ensures r == s
    decreases 2 - at[c].level
  {
    assert HeldOk(t, at, c);
    if at[c].level < 2 {
      UnderParent(t, at, {}, c, r);
      UnderParent(t, at, {}, c, s);
      OneRoot(t, at, at[c].parent, r, s);
    }
  }

  lemma UnderParentTop(t: Tables, at: map<nat, Node>, c: nat, r: nat)
    requires GraphOk(t, at, {}) && Under(at, c, r) && at[c].level == 2
    ensures c == r
  {
    if c != r {
      UnderParent(t, at, {}, c, r);
    }
  }

  /** The page with the given indices. */
  function PageAt(i2: nat, i1: nat, i0: nat): (p: nat)
    requires i2 < 256 && i1 < 512 && i0 < 512
    ensures p < MAX_PAGE && Px(2, p) == i2 && Px(1, p) == i1 && Px(0, p) == i0
  {
    var p := i2 * 262144 + i1 * 512 + i0;
    assert p / 512 == i2 * 512 + i1;
    assert p / 262144 == i2;
    p
  }

  lemma PagePath(t: Tables, at: map<nat, Node>, r: nat, f1: nat, f0: nat, p: nat)
    requires GraphOk(t, at, {}) && r in at && at[r].level == 2 && p < MAX_PAGE
    requires f1 in at && at[f1] == Node(1, r, Px(2, p)) && f0 in at && at[f0] == Node(0, f1, Px(1, p))
    ensures TableAt(t, r, p, 0) == f0 && f0 in t && |t[f0]| == ENTRIES
  {
    assert HeldOk(t, at, f1) && HeldOk(t, at, f0);
    assert TableOk(t, at, r, {}) && TableOk(t, at, f1, {}) && TableOk(t, at, f0, {});
    assert TableAt(t, r, p, 2) == r;
    assert TableAt(t, r, p, 1) == f1;
  }

  /** No table under `f` maps a page. */
  ghost predicate NoLeaves(t: Tables, at: map<nat, Node>, f: nat) {
    forall g, i :: g in at && at[g].level == 0 && Under(at, g, f) && g in t && 0 <= i < |t[g]| ==> !IsValid(t[g][i])
  }

  /** A page table whose flat map is empty has no leaves anywhere. */
  lemma EmptyMap(t: Tables, at: map<nat, Node>, r: nat)
    requires GraphOk(t, at, {}) && r in at && at[r].level == 2
    requires forall p :: 0 <= p < MAX_PAGE ==> Lookup(t, r, p) == 0
    ensures NoLeaves(t, at, r)
  {
    forall g, i | g in at && at[g].level == 0 && Under(at, g, r) && g in t && 0 <= i < |t[g]|
      ensures !IsValid(t[g][i])
    {
      assert HeldOk(t, at, g) && TableOk(t, at, g, {});
      var f1 := at[g].parent;
      UnderParent(t, at, {}, g, r);
      assert HeldOk(t, at, f1) && TableOk(t, at, f1, {});
      UnderParent(t, at, {}, f1, r);
      UnderParentTop(t, at, at[f1].parent, r);
      var p := PageAt(at[f1].index, at[g].index, i);
      PagePath(t, at, r, f1, g, p);
      assert Lookup(t, r, p) == 0;
    }
  }

  /** Pruning one tree leaves the others' lookups alone. */
  lemma {:induction false} PrunedWay(t: Tables, at: map<nat, Node>, t': Tables, at': map<nat, Node>, f: nat, r: nat,
                                     p: nat, level: nat)
    requires GraphOk(t, at, {}) && GraphOk(t', at', {}) && Pruned(t, at, t', at', f) && level <= 2
    requires f in at && at[f].level == 2 && r in at && at[r].level == 2 && r != f
    ensures TableAt(t', r, p, level) == TableAt(t, r, p, level)
    decreases 2 - level
  {
    if level < 2 {
      PrunedWay(t, at, t', at', f, r, p, level + 1);
      var q := TableAt(t, r, p, level + 1);
      if q >= 0 {
        PrunedKeeps(t, at, t', at', f, r, p, level + 1);
      }
    }
  }

  lemma PrunedKeeps(t: Tables, at: map<nat, Node>, t': Tables, at': map<nat, Node>, f: nat, r: nat, p: nat, level: nat)
    requires GraphOk(t, at, {}) && GraphOk(t', at', {}) && Pruned(t, at, t', at', f) && level <= 2
    requires f in at && at[f].level == 2 && r in at && at[r].level == 2 && r != f && TableAt(t, r, p, level) >= 0
    ensures var q := TableAt(t, r, p, level); q in t && q in t' && t'[q] == t[q]
  {
    var q := TableAt(t, r, p, level);
    TableAtOk(t, at, r, p, level);
    WayUnder(t, at, r, p, level);
    if Under(at, q, f) {
      OneRoot(t, at, q, r, f);
    }
    assert TableOk(t', at', q, {});
  }

  lemma PrunedSeen(t: Tables, at: map<nat, Node>, t': Tables, at': map<nat, Node>, f: nat, r: nat, p: nat)
    requires GraphOk(t, at, {}) && GraphOk(t', at', {}) && Pruned(t, at, t', at', f)
    requires f in at && at[f].level == 2 && r in at && at[r].level == 2 && r != f
    ensures Seen(t', at', r, p) == Seen(t, at, r, p)
  {
    PrunedWay(t, at, t', at', f, r, p, 0);
    if TableAt(t, r, p, 0) >= 0 {
      PrunedKeeps(t, at, t', at', f, r, p, 0);
    }
    if Owns(t, at, r, p) {
      var c := Frame(Lookup(t, r, p));
      OwnedUnder(t, at, r, p);
      if Under(at, c, f) {
        OneRoot(t, at, c, r, f);
      }
    }
  }

  /** Part of the way through freewalk there are still no leaves, at any child. */
  lemma NoLeavesBelow(t: Tables, at: map<nat, Node>, t': Tables, at': map<nat, Node>, f: nat, i: nat)
    requires GraphOk(t, at, {}) && GraphOk(t', at', {}) && Pruning(t, at, t', at', f, i) && NoLeaves(t, at, f)
             && i < ENTRIES
    requires f in t && t'[f][i] == t[f][i] && at'[f].level >= 0 && |t[f]| == ENTRIES
    ensures IsValid(t'[f][i]) ==>
              && !IsLeaf(t'[f][i]) && Frame(t'[f][i]) >= 0 && Frame(t'[f][i]) in at'
              && at'[Frame(t'[f][i])] == Node(at'[f].level - 1, f, i) && NoLeaves(t', at', Frame(t'[f][i]))
  {
    assert TableOk(t', at', f, {}) && EntryOk(t', at', f, i) && HeldOk(t, at, f);
    assert Under(at, f, f);
    if IsValid(t'[f][i]) {
      var c := Frame(t'[f][i]);
      forall g, k | g in at' && at'[g].level == 0 && Under(at', g, c) && g in t' && 0 <= k < |t'[g]|
        ensures !IsValid(t'[g][k])
      {
        UnderLevel(t', at', {}, g, c);
        UnderChild(t', at', {}, g, c, f);
        UnderWithin(t, at, {}, t', at', {}, g, f);
      }
    }
  }
}
