/** Moving selected items up and down an order, as functions on sequences, and the laws of these moves. */
module OrderAlgebra {

  predicate NoDuplicates(s: seq<nat>) {
    forall i, j :: 0 <= i < j < |s| ==> s[i] != s[j]
  }

  function Pick(s: seq<nat>, sel: set<nat>): seq<nat> {
    if s == [] then [] else (if s[0] in sel then [s[0]] else []) + Pick(s[1..], sel)
  }

  function Rest(s: seq<nat>, sel: set<nat>): seq<nat> {
    if s == [] then [] else (if s[0] in sel then [] else [s[0]]) + Rest(s[1..], sel)
  }

  /** How many unselected items stand above `x`. */
  function Above(s: seq<nat>, sel: set<nat>, x: nat): nat {
    if s == [] || s[0] == x then 0 else (if s[0] in sel then 0 else 1) + Above(s[1..], sel, x)
  }

  function Reverse(s: seq<nat>): seq<nat> {
    if s == [] then [] else Reverse(s[1..]) + [s[0]]
  }

  // ---------------------------------------------------------------- the moves

  /** Appends `x` and lets it pass an unselected last item, if it is selected itself. */
  function Settle(s: seq<nat>, sel: set<nat>, x: nat): seq<nat> {
    if s != [] && x in sel && s[|s| - 1] !in sel then s[..|s| - 1] + [x, s[|s| - 1]] else s + [x]
  }

  /** Every selected item, from the top, swaps with an unselected item right above it. */
  function MoveUp(s: seq<nat>, sel: set<nat>): seq<nat> {
    if s == [] then [] else Settle(MoveUp(s[..|s| - 1], sel), sel, s[|s| - 1])
  }

  function SettleDown(x: nat, s: seq<nat>, sel: set<nat>): seq<nat> {
    if s != [] && x in sel && s[0] !in sel then [s[0], x] + s[1..] else [x] + s
  }

  /** Every selected item, from the bottom, swaps with an unselected item right below it. */
  function MoveDown(s: seq<nat>, sel: set<nat>): seq<nat> {
    if s == [] then [] else SettleDown(s[0], MoveDown(s[1..], sel), sel)
  }

  function MoveToTop(s: seq<nat>, x: nat): seq<nat> {
    [x] + Rest(s, {x})
  }

  function Repeat(n: nat, s: seq<nat>, sel: set<nat>): seq<nat> {
    if n == 0 then s else MoveUp(Repeat(n - 1, s, sel), sel)
  }

  // ---------------------------------------------------------------- basic facts

  lemma {:induction false} PickConcat(s: seq<nat>, t: seq<nat>, sel: set<nat>)
    ensures Pick(s + t, sel) == Pick(s, sel) + Pick(t, sel)
    ensures Rest(s + t, sel) == Rest(s, sel) + Rest(t, sel)
  {
    if s == [] {
      assert s + t == t;
    } else {
      var p, r := if s[0] in sel then [s[0]] else [], if s[0] in sel then [] else [s[0]];
      PickConcat(s[1..], t, sel);
      assert (s + t)[1..] == s[1..] + t;
      assert p + (Pick(s[1..], sel) + Pick(t, sel)) == (p + Pick(s[1..], sel)) + Pick(t, sel);
      assert r + (Rest(s[1..], sel) + Rest(t, sel)) == (r + Rest(s[1..], sel)) + Rest(t, sel);
    }
  }

  lemma {:induction false} PickedAre(s: seq<nat>, sel: set<nat>)
    ensures forall x :: x in Pick(s, sel) <==> x in s && x in sel
    ensures forall x :: x in Rest(s, sel) <==> x in s && x !in sel
    ensures |Pick(s, sel)| + |Rest(s, sel)| == |s|
  {
    if s != [] { PickedAre(s[1..], sel); }
  }

  lemma {:induction false} AboveConcat(s: seq<nat>, t: seq<nat>, sel: set<nat>, x: nat)
    ensures x in s ==> Above(s + t, sel, x) == Above(s, sel, x)
    ensures x !in s ==> Above(s + t, sel, x) == |Rest(s, sel)| + Above(t, sel, x)
  {
    if s == [] {
      assert s + t == t;
    } else {
      AboveConcat(s[1..], t, sel, x);
      assert (s + t)[1..] == s[1..] + t;
    }
  }

  lemma {:induction false} AboveBounded(s: seq<nat>, sel: set<nat>, x: nat)
    ensures Above(s, sel, x) <= |Rest(s, sel)|
  {
    if s != [] { AboveBounded(s[1..], sel, x); }
  }

  // ---------------------------------------------------------------- an order is determined by its profile

  /** Two orders with the same selected items in the same relative order, the same unselected items in the same
      relative order, and the same number of unselected items above each selected one. */
  predicate SameProfile(s: seq<nat>, t: seq<nat>, sel: set<nat>) {
    && Pick(s, sel) == Pick(t, sel) && Rest(s, sel) == Rest(t, sel)
    && forall x :: x in s && x in sel ==> Above(s, sel, x) == Above(t, sel, x)
  }

  lemma {:induction false} ProfileDeterminesOrder(s: seq<nat>, t: seq<nat>, sel: set<nat>)
    requires NoDuplicates(s) && NoDuplicates(t) && SameProfile(s, t, sel)
    ensures s == t
  {
    PickedAre(s, sel);
    PickedAre(t, sel);
    if s != [] && t != [] {
      HeadsAgree(s, t, sel);
      TailsAgree(s, t, sel);
      ProfileDeterminesOrder(s[1..], t[1..], sel);
      assert s == [s[0]] + s[1..] && t == [t[0]] + t[1..];
    }
  }

  lemma TailsAgree(s: seq<nat>, t: seq<nat>, sel: set<nat>)
    requires s != [] && t != [] && NoDuplicates(s) && SameProfile(s, t, sel) && s[0] == t[0]
    ensures SameProfile(s[1..], t[1..], sel)
  {
    var h, s', t' := s[0], s[1..], t[1..];
    if h in sel {
      assert Pick(s, sel)[1..] == Pick(s', sel) && Pick(t, sel)[1..] == Pick(t', sel);
      assert Rest(s, sel) == Rest(s', sel) && Rest(t, sel) == Rest(t', sel);
    } else {
      assert Rest(s, sel)[1..] == Rest(s', sel) && Rest(t, sel)[1..] == Rest(t', sel);
      assert Pick(s, sel) == Pick(s', sel) && Pick(t, sel) == Pick(t', sel);
    }
    forall x | x in s' && x in sel ensures Above(s', sel, x) == Above(t', sel, x) {
      assert x in s && x != h;
    }
  }

  lemma HeadsAgree(s: seq<nat>, t: seq<nat>, sel: set<nat>)
    requires s != [] && t != [] && SameProfile(s, t, sel)
    ensures s[0] == t[0]
  {
    PickedAre(s, sel);
    PickedAre(t, sel);
    if s[0] in sel {
      assert Pick(s, sel)[0] == s[0];
      assert s[0] in Pick(t, sel);
      assert Above(t, sel, s[0]) == Above(s, sel, s[0]) == 0;
    } else {
      assert Rest(s, sel)[0] == s[0];
      if t[0] in sel {
        assert false;
      }
    }
  }

  // ---------------------------------------------------------------- what a move up does

  /** Both relative orders are kept, and every selected item has one unselected item fewer above it, unless it had
      none. */
  predicate MovedUp(s: seq<nat>, r: seq<nat>, sel: set<nat>) {
    && Pick(r, sel) == Pick(s, sel) && Rest(r, sel) == Rest(s, sel)
    && forall x :: x in s && x in sel ==>
         Above(r, sel, x) == (if Above(s, sel, x) == 0 then 0 else Above(s, sel, x) - 1)
  }

  lemma SettleKeepsOrders(s: seq<nat>, sel: set<nat>, x: nat)
    ensures Pick(Settle(s, sel, x), sel) == Pick(s + [x], sel)
    ensures Rest(Settle(s, sel, x), sel) == Rest(s + [x], sel)
    ensures forall y :: y in Settle(s, sel, x) <==> y in s + [x]
  {
    if s != [] {
      var i, u := s[..|s| - 1], s[|s| - 1];
      assert s == i + [u];
      PickConcat(i, [u], sel);
      PickConcat(i + [u], [x], sel);
      PickConcat(i, [x, u], sel);
      assert [x, u] == [x] + [u];
      PickConcat([x], [u], sel);
    }
  }

  /** Appending `x` to an order `r` in which `x` is new: the others keep their count, and `x` gets all unselected
      items, or one fewer if it passes one. */
  lemma SettleCounts(r: seq<nat>, sel: set<nat>, x: nat, y: nat)
    requires x !in r && y in sel
    ensures y in r ==> Above(Settle(r, sel, x), sel, y) == Above(r, sel, y)
    ensures y == x ==>
      Above(Settle(r, sel, x), sel, y) == (if r != [] && r[|r| - 1] !in sel then |Rest(r, sel)| - 1 else |Rest(r, sel)|)
    ensures r != [] && r[|r| - 1] !in sel ==> |Rest(r, sel)| > 0
  {
    if r != [] && r[|r| - 1] !in sel {
      var i, u := r[..|r| - 1], r[|r| - 1];
      assert r == i + [u];
      PickConcat(i, [u], sel);
      assert Rest([u], sel) == [u];
      AboveConcat(i, [u], sel, y);
      AboveConcat(i, [x, u], sel, y);
    }
    AboveConcat(r, [x], sel, y);
  }

  /** An order that ends in a selected item holds all its unselected items above that item. */
  lemma LastSelectedIsBelowAll(r: seq<nat>, sel: set<nat>)
    requires r != [] && r[|r| - 1] in sel && NoDuplicates(r)
    ensures Above(r, sel, r[|r| - 1]) == |Rest(r, sel)|
  {
    var i, u := r[..|r| - 1], r[|r| - 1];
    assert r == i + [u];
    AboveConcat(i, [u], sel, u);
    PickConcat(i, [u], sel);
  }

  lemma {:induction false} MoveUpKeepsOrders(s: seq<nat>, sel: set<nat>)
    ensures Pick(MoveUp(s, sel), sel) == Pick(s, sel) && Rest(MoveUp(s, sel), sel) == Rest(s, sel)
    ensures |MoveUp(s, sel)| == |s| && forall x :: x in MoveUp(s, sel) <==> x in s
  {
    if s != [] {
      var i, x := s[..|s| - 1], s[|s| - 1];
      assert s == i + [x];
      MoveUpKeepsOrders(i, sel);
      SettleKeepsOrders(MoveUp(i, sel), sel, x);
      PickConcat(MoveUp(i, sel), [x], sel);
      PickConcat(i, [x], sel);
    }
  }

  lemma {:induction false} MoveUpKeepsDistinct(s: seq<nat>, sel: set<nat>)
    requires NoDuplicates(s)
    ensures NoDuplicates(MoveUp(s, sel))
  {
    if s != [] {
      MoveUpKeepsDistinct(s[..|s| - 1], sel);
      MoveUpKeepsOrders(s[..|s| - 1], sel);
      assert s[|s| - 1] !in s[..|s| - 1];
      assert s[|s| - 1] !in MoveUp(s[..|s| - 1], sel);
    }
  }

  lemma {:induction false} MoveUpMovesUp(s: seq<nat>, sel: set<nat>)
    requires NoDuplicates(s)
    ensures MovedUp(s, MoveUp(s, sel), sel)
  {
    MoveUpKeepsOrders(s, sel);
    if s != [] {
      var i, x := s[..|s| - 1], s[|s| - 1];
      var r := MoveUp(i, sel);
      assert s == i + [x] && x !in i;
      MoveUpMovesUp(i, sel);
      MoveUpKeepsOrders(i, sel);
      MoveUpKeepsDistinct(i, sel);
      forall y | y in s && y in sel
        ensures Above(MoveUp(s, sel), sel, y) == (if Above(s, sel, y) == 0 then 0 else Above(s, sel, y) - 1)
      {
        AboveConcat(i, [x], sel, y);
        SettleCounts(r, sel, x, y);
        if y == x && r != [] && r[|r| - 1] in sel {
          LastSelectedIsBelowAll(r, sel);
          AboveBounded(i, sel, r[|r| - 1]);
        }
      }
    }
  }

  // ---------------------------------------------------------------- the laws

  lemma {:induction false} ReverseConcat(s: seq<nat>, t: seq<nat>)
    ensures Reverse(s + t) == Reverse(t) + Reverse(s)
  {
    if s == [] {
      assert s + t == t;
    } else {
      ReverseConcat(s[1..], t);
      assert (s + t)[1..] == s[1..] + t;
    }
  }

  lemma {:induction false} ReverseTwice(s: seq<nat>)
    ensures Reverse(Reverse(s)) == s && |Reverse(s)| == |s| && forall x :: x in Reverse(s) <==> x in s
  {
    if s != [] {
      ReverseTwice(s[1..]);
      ReverseConcat(Reverse(s[1..]), [s[0]]);
    }
  }

  /** Moving down is moving up in the reversed order. */
  lemma {:induction false} DownIsUpReversed(s: seq<nat>, sel: set<nat>)
    ensures MoveDown(s, sel) == Reverse(MoveUp(Reverse(s), sel))
  {
    if s != [] {
      var x, t := s[0], s[1..];
      DownIsUpReversed(t, sel);
      var u := MoveUp(Reverse(t), sel);
      assert Reverse(s)[..|Reverse(s)| - 1] == Reverse(t) && Reverse(s)[|Reverse(s)| - 1] == x;
      SettleReversed(u, sel, x);
    }
  }

  lemma SettleReversed(u: seq<nat>, sel: set<nat>, x: nat)
    ensures Reverse(Settle(u, sel, x)) == SettleDown(x, Reverse(u), sel)
  {
    ReverseConcat(u, [x]);
    if u != [] {
      var i, l := u[..|u| - 1], u[|u| - 1];
      assert u == i + [l];
      ReverseConcat(i, [l]);
      ReverseConcat(i, [x, l]);
      assert Reverse([x, l]) == [l, x];
      assert Reverse(u) == [l] + Reverse(i);
    }
  }

  lemma {:induction false} ReversePick(s: seq<nat>, sel: set<nat>)
    ensures Pick(Reverse(s), sel) == Reverse(Pick(s, sel)) && Rest(Reverse(s), sel) == Reverse(Rest(s, sel))
  {
    if s != [] {
      var h, t := [s[0]], s[1..];
      ReversePick(t, sel);
      PickConcat(Reverse(t), h, sel);
      assert Reverse(h) == h;
      ReverseConcat(h, Pick(t, sel));
      ReverseConcat(h, Rest(t, sel));
      assert Pick(s, sel) == (if s[0] in sel then h + Pick(t, sel) else Pick(t, sel));
      assert Rest(s, sel) == (if s[0] in sel then Rest(t, sel) else h + Rest(t, sel));
      assert Pick(h, sel) == (if s[0] in sel then h else []) && Rest(h, sel) == (if s[0] in sel then [] else h);
    }
  }

  lemma {:induction false} ReverseAbove(s: seq<nat>, sel: set<nat>, x: nat)
    requires NoDuplicates(s) && x in s && x in sel
    ensures Above(Reverse(s), sel, x) + Above(s, sel, x) == |Rest(s, sel)|
  {
    var t := s[1..];
    ReverseTwice(t);
    ReversePick(t, sel);
    ReverseTwice(Rest(t, sel));
    AboveConcat(Reverse(t), [s[0]], sel, x);
    if s[0] != x { ReverseAbove(t, sel, x); }
  }

  lemma {:induction false} ReverseKeepsDistinct(s: seq<nat>)
    requires NoDuplicates(s)
    ensures NoDuplicates(Reverse(s))
  {
    if s != [] {
      ReverseKeepsDistinct(s[1..]);
      ReverseTwice(s[1..]);
      assert s[0] !in s[1..];
      assert s[0] !in Reverse(s[1..]);
    }
  }

  /** What a move down does: the relative orders are kept and every selected item has one unselected item fewer below
      it, unless it had none. */
  lemma MoveDownMovesDown(s: seq<nat>, sel: set<nat>)
    requires NoDuplicates(s)
    ensures var r := MoveDown(s, sel);
      && NoDuplicates(r) && |r| == |s| && Pick(r, sel) == Pick(s, sel) && Rest(r, sel) == Rest(s, sel)
      && forall x :: x in s && x in sel ==>
           var below := |Rest(s, sel)| - Above(s, sel, x);
           |Rest(r, sel)| - Above(r, sel, x) == (if below == 0 then 0 else below - 1)
  {
    var s', r := Reverse(s), MoveDown(s, sel);
    var r' := MoveUp(s', sel);
    DownIsUpReversed(s, sel);
    ReverseKeepsDistinct(s);
    ReverseTwice(s);
    MoveUpKeepsOrders(s', sel);
    MoveUpKeepsDistinct(s', sel);
    MoveUpMovesUp(s', sel);
    ReverseKeepsDistinct(r');
    ReverseTwice(r');
    ReversePick(s, sel);
    ReversePick(r', sel);
    ReverseTwice(Pick(s, sel));
    ReverseTwice(Rest(s, sel));
    forall x | x in s && x in sel
      ensures var below := |Rest(s, sel)| - Above(s, sel, x);
        |Rest(r, sel)| - Above(r, sel, x) == (if below == 0 then 0 else below - 1)
    {
      ReverseAbove(s, sel, x);
      ReverseAbove(r', sel, x);
    }
  }

  /** Up and then down: orders kept, and one unselected item back above each selected one that has any below. */
  lemma UpThenDown(s: seq<nat>, sel: set<nat>)
    requires NoDuplicates(s)
    ensures var d := MoveDown(MoveUp(s, sel), sel);
      && NoDuplicates(d) && (forall x :: x in d <==> x in s)
      && Pick(d, sel) == Pick(s, sel) && Rest(d, sel) == Rest(s, sel)
      && forall x :: x in s && x in sel ==>
           var up := if Above(s, sel, x) == 0 then 0 else Above(s, sel, x) - 1;
           Above(d, sel, x) == (if up == |Rest(s, sel)| then up else up + 1)
  {
    hide MoveUp, MoveDown, Above;
    var u := MoveUp(s, sel);
    var d := MoveDown(u, sel);
    MoveUpMovesUp(s, sel);
    MoveUpKeepsDistinct(s, sel);
    MoveUpKeepsOrders(s, sel);
    MoveDownMovesDown(u, sel);
    PickedAre(d, sel);
    PickedAre(u, sel);
    forall x ensures x in d <==> x in u {
      assert x in d <==> x in Pick(d, sel) || x in Rest(d, sel);
    }
    forall x | x in s && x in sel
      ensures var up := if Above(s, sel, x) == 0 then 0 else Above(s, sel, x) - 1;
        Above(d, sel, x) == (if up == |Rest(s, sel)| then up else up + 1)
    {
      AboveBounded(u, sel, x);
      AboveBounded(d, sel, x);
      assert x in u;
    }
  }

  /** Moving down undoes moving up exactly when the first item is not selected, or every item is. */
  lemma DownUndoesUp(s: seq<nat>, sel: set<nat>)
    requires NoDuplicates(s)
    ensures MoveDown(MoveUp(s, sel), sel) == s <==> (s == [] || s[0] !in sel || Rest(s, sel) == [])
  {
    var d := MoveDown(MoveUp(s, sel), sel);
    UpThenDown(s, sel);
    if s == [] || s[0] !in sel || Rest(s, sel) == [] {
      forall x | x in d && x in sel ensures Above(d, sel, x) == Above(s, sel, x) {
        AboveBounded(s, sel, x);
      }
      ProfileDeterminesOrder(d, s, sel);
    } else {
      assert s[0] in s;
      assert Above(s, sel, s[0]) == 0;
      assert Above(d, sel, s[0]) == 1;
    }
  }

  lemma {:induction false} RepeatedUp(n: nat, s: seq<nat>, sel: set<nat>)
    requires NoDuplicates(s)
    ensures var r := Repeat(n, s, sel);
      && NoDuplicates(r) && (forall x :: x in r <==> x in s)
      && Pick(r, sel) == Pick(s, sel) && Rest(r, sel) == Rest(s, sel)
      && forall x :: x in s && x in sel ==>
           Above(r, sel, x) == (if Above(s, sel, x) <= n then 0 else Above(s, sel, x) - n)
  {
    if n > 0 {
      var r := Repeat(n - 1, s, sel);
      RepeatedUp(n - 1, s, sel);
      MoveUpMovesUp(r, sel);
      MoveUpKeepsDistinct(r, sel);
      MoveUpKeepsOrders(r, sel);
    }
  }

  lemma {:induction false} PickTwice(s: seq<nat>, sel: set<nat>)
    ensures Pick(Pick(s, sel), sel) == Pick(s, sel) && Rest(Pick(s, sel), sel) == []
    ensures Pick(Rest(s, sel), sel) == [] && Rest(Rest(s, sel), sel) == Rest(s, sel)
  {
    if s != [] {
      PickTwice(s[1..], sel);
      var p, q := Pick(s[1..], sel), Rest(s[1..], sel);
      if s[0] in sel {
        assert Pick(s, sel)[1..] == p && Rest(s, sel) == q;
      } else {
        assert Rest(s, sel)[1..] == q && Pick(s, sel) == p;
      }
    }
  }

  lemma {:induction false} PartitionDistinct(s: seq<nat>, sel: set<nat>)
    requires NoDuplicates(s)
    ensures NoDuplicates(Pick(s, sel) + Rest(s, sel))
  {
    if s != [] {
      PartitionDistinct(s[1..], sel);
      PickedAre(s[1..], sel);
      assert s[0] !in s[1..];
      var p, q := Pick(s[1..], sel), Rest(s[1..], sel);
      PartsDistinct(p, q, s[0], s[0] in sel);
      assert [] + q == q && [] + p == p;
    }
  }

  lemma PartsDistinct(p: seq<nat>, q: seq<nat>, x: nat, first: bool)
    requires NoDuplicates(p + q) && x !in p && x !in q
    ensures NoDuplicates(if first then ([x] + p) + q else p + ([x] + q))
  {
    var r := if first then ([x] + p) + q else p + ([x] + q);
    var at := if first then 0 else |p|;
    forall i, j | 0 <= i < j < |r| ensures r[i] != r[j] {
      var i', j' := if i < at then i else i - 1, if j < at then j else j - 1;
      assert i != at ==> r[i] == (p + q)[i'];
      assert j != at ==> r[j] == (p + q)[j'];
    }
  }

  /** Moving up once per unselected item gathers the selected items at the top, both groups in their old order. */
  lemma RepeatedUpPartitions(s: seq<nat>, sel: set<nat>)
    requires NoDuplicates(s)
    ensures Repeat(|Rest(s, sel)|, s, sel) == Pick(s, sel) + Rest(s, sel)
  {
    var r, t := Repeat(|Rest(s, sel)|, s, sel), Pick(s, sel) + Rest(s, sel);
    RepeatedUp(|Rest(s, sel)|, s, sel);
    PickTwice(s, sel);
    PartitionDistinct(s, sel);
    PickConcat(Pick(s, sel), Rest(s, sel), sel);
    PickedAre(s, sel);
    forall x | x in r && x in sel ensures Above(r, sel, x) == Above(t, sel, x) {
      AboveBounded(s, sel, x);
      AboveConcat(Pick(s, sel), Rest(s, sel), sel, x);
      AboveBounded(Pick(s, sel), sel, x);
    }
    ProfileDeterminesOrder(r, t, sel);
  }

  /** Moving an item to the top is moving it up as many times as there are items above it. */
  lemma ToTopIsRepeatedUp(s: seq<nat>, k: nat)
    requires NoDuplicates(s) && k < |s|
    ensures MoveToTop(s, s[k]) == Repeat(k, s, {s[k]})
  {
    var x, sel := s[k], {s[k]};
    RepeatedUp(k, s, sel);
    PickTwice(s, sel);
    PartitionDistinct(s, sel);
    PickedAre(s, sel);
    SinglePick(s, k);
    var r, t := Repeat(k, s, sel), MoveToTop(s, x);
    PickConcat([x], Rest(s, sel), sel);
    assert Pick([x], sel) == [x] && Rest([x], sel) == [];
    assert t == Pick(s, sel) + Rest(s, sel);
    ProfileDeterminesOrder(r, t, sel);
  }

  lemma {:induction false} SinglePick(s: seq<nat>, k: nat)
    requires NoDuplicates(s) && k < |s|
    ensures Pick(s, {s[k]}) == [s[k]] && Above(s, {s[k]}, s[k]) == k
  {
    if k == 0 {
      NothingPicked(s[1..], s[0]);
    } else {
      assert s[1..][k - 1] == s[k];
      SinglePick(s[1..], k - 1);
    }
  }

  lemma {:induction false} NothingPicked(s: seq<nat>, x: nat)
    requires x !in s
    ensures Pick(s, {x}) == []
  {
    if s != [] { NothingPicked(s[1..], x); }
  }
}
