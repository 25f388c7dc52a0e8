// main.c: which records form which PLANE group.  Groups take `width` records
// each inside one window; the last group of a window that does not divide
// evenly overlaps its predecessor, and a final window shorter than one group
// leaves plain DATA tails.

module Schedule {

  datatype Plan = Plan(width: nat, window: nat, total: nat)

  predicate GoodPlan(p: Plan) {
    (p.width == 3 || p.width == 4) && 4 <= p.window <= 128 && 4 <= p.total < 0x1_0000_0000
  }

  lemma QuotientBound(i: nat, w: nat)
    requires w > 0
    ensures i / w <= i && i % w <= i
  {
    var q := i / w;
    assert i == q * w + i % w;
    MulMono(1, w, q);
  }

  function WindowOf(p: Plan, i: nat): (q: nat)
    requires GoodPlan(p)
    ensures q <= i
  {
    QuotientBound(i, p.window);
    i / p.window
  }

  // window_index.
  function Place(p: Plan, i: nat): (r: nat)
    requires GoodPlan(p)
    ensures r < p.window && r <= i
  {
    QuotientBound(i, p.window);
    i % p.window
  }

  function Base(p: Plan, i: nat): nat
    requires GoodPlan(p)
  {
    i - Place(p, i)
  }

  // window_count.
  function WindowCount(p: Plan, i: nat): (n: nat)
    requires GoodPlan(p) && i < p.total
    ensures Place(p, i) < n
    ensures n == if p.total - Base(p, i) > p.window then p.window else p.total - Base(p, i)
  {
    WindowBase(p, i);
    var left := p.total - i / p.window * p.window;
    if left > p.window then p.window else left
  }

  lemma WindowBase(p: Plan, i: nat)
    requires GoodPlan(p)
    ensures i / p.window * p.window == Base(p, i)
  {}

  lemma DivUnique(x: nat, q: nat, w: nat)
    requires w > 0 && q * w <= x < q * w + w
    ensures x / w == q && x % w == x - q * w
  {
    var d := x / w;
    assert d * w + x % w == x;
    if d < q {
      assert (d + 1) * w <= q * w by { MulMono(d + 1, q, w); }
    } else if d > q {
      assert (q + 1) * w <= d * w by { MulMono(q + 1, d, w); }
    }
  }

  lemma MulMono(a: nat, b: nat, w: nat)
    requires a <= b
    ensures a * w <= b * w
  {}

  lemma SameWindow(p: Plan, i: nat, j: nat)
    requires GoodPlan(p) && Base(p, i) <= j < Base(p, i) + p.window
    ensures WindowOf(p, j) == WindowOf(p, i) && Base(p, j) == Base(p, i) && Place(p, j) == j - Base(p, i)
  {
    WindowBase(p, i);
    DivUnique(j, i / p.window, p.window);
  }

  lemma NextWindow(p: Plan, i: nat, j: nat)
    requires GoodPlan(p) && Base(p, i) + p.window <= j < Base(p, i) + 2 * p.window
    ensures Base(p, j) == Base(p, i) + p.window
  {
    WindowBase(p, i);
    var q := i / p.window;
    assert (q + 1) * p.window == q * p.window + p.window;
    DivUnique(j, q + 1, p.window);
  }

  lemma PreviousWindow(p: Plan, i: nat, j: nat)
    requires GoodPlan(p) && Base(p, i) - p.window <= j < Base(p, i)
    ensures Base(p, j) == Base(p, i) - p.window
  {
    WindowBase(p, i);
    var q := i / p.window;
    assert q * p.window > 0;
    assert q > 0;
    assert (q - 1) * p.window == q * p.window - p.window;
    DivUnique(j, q - 1, p.window);
  }

  // The end of the window that holds record i.
  function WindowEnd(p: Plan, i: nat): (e: nat)
    requires GoodPlan(p) && i < p.total
    ensures i < e <= p.total
  {
    Base(p, i) + WindowCount(p, i)
  }

  // A whole group fits into the window of record i.
  predicate Fits(p: Plan, i: nat)
    requires GoodPlan(p)
  {
    i < p.total && WindowCount(p, i) >= p.width
  }

  // The records consumed once the group that starts by consuming i is complete.
  function Next(p: Plan, i: nat): (e: nat)
    requires GoodPlan(p) && Fits(p, i)
    ensures i < e <= p.total
  {
    if i + p.width <= WindowEnd(p, i) then i + p.width else WindowEnd(p, i)
  }

  // The numeric part of prepare_group_claim: the first record of the group,
  // and how many of its members were consumed before.
  datatype Claimed = Claimed(start: nat, overlap: nat) | Refused

  function ClaimRange(p: Plan, i: nat): Claimed
    requires GoodPlan(p) && i < p.total
  {
    var wc := WindowCount(p, i);
    var remaining := wc - Place(p, i);
    if remaining < p.width then
      var overlap := p.width - remaining;
      if i < overlap then Refused
      else if Place(p, i - overlap) + p.width > wc then Refused
      else Claimed(i - overlap, overlap)
    else if i + p.width > p.total then Refused
    else Claimed(i, 0)
  }

  // The range arithmetic accepts exactly when a group fits, and then the group
  // lies in one window, ends at Next and overlaps at most width - 1 records.
  lemma ClaimRangeExact(p: Plan, i: nat)
    requires GoodPlan(p) && i < p.total
    ensures ClaimRange(p, i).Claimed? <==> Fits(p, i)
    ensures Fits(p, i) ==>
              var r := ClaimRange(p, i);
              && r.start + p.width == Next(p, i) && r.start + r.overlap == i && r.overlap < p.width
              && Base(p, i) <= r.start && r.start + p.width <= WindowEnd(p, i)
  {
    hide Place, WindowCount, WindowOf;
    var wc := WindowCount(p, i);
    var remaining := wc - Place(p, i);
    if remaining < p.width {
      var overlap := p.width - remaining;
      if Fits(p, i) {
        SameWindow(p, i, i - overlap);
      } else if i >= overlap {
        PreviousWindow(p, i, i - overlap);
      }
    }
  }

  // Members of a group share its window and count upwards in it.
  lemma MemberPlace(p: Plan, i: nat, m: nat)
    requires GoodPlan(p) && Fits(p, i) && m < p.width
    ensures ClaimRange(p, i).Claimed?
    ensures var s := ClaimRange(p, i).start;
            && s + m < p.total
            && WindowOf(p, s + m) == WindowOf(p, i) && Place(p, s + m) == Place(p, s) + m
            && WindowCount(p, s + m) == WindowCount(p, i)
  {
    hide Place, WindowCount, WindowOf;
    ClaimRangeExact(p, i);
    var s := ClaimRange(p, i).start;
    SameWindow(p, i, s);
    SameWindow(p, i, s + m);
  }

  // Records consumed by the first k groups.
  function Cut(p: Plan, k: nat): (n: nat)
    requires GoodPlan(p)
    ensures n <= p.total
  {
    if k == 0 then 0
    else if Fits(p, Cut(p, k - 1)) then Next(p, Cut(p, k - 1))
    else Cut(p, k - 1)
  }

  predicate HasGroup(p: Plan, k: nat)
    requires GoodPlan(p)
  {
    Fits(p, Cut(p, k))
  }

  function Start(p: Plan, k: nat): nat
    requires GoodPlan(p) && HasGroup(p, k)
  {
    ClaimRangeExact(p, Cut(p, k));
    ClaimRange(p, Cut(p, k)).start
  }

  // No group follows the first refusal.
  lemma {:induction false} GroupsFirst(p: Plan, j: nat, k: nat)
    requires GoodPlan(p) && j <= k && HasGroup(p, k)
    ensures HasGroup(p, j)
    decreases k
  {
    if j < k {
      GroupsFirst(p, j, k - 1);
    }
  }

  // The first group always exists: a transfer has at least four records.
  lemma FirstGroup(p: Plan)
    requires GoodPlan(p)
    ensures HasGroup(p, 0)
  {
    assert 0 / p.window * p.window == 0;
  }

  // A refused record lies in a final window shorter than a group, and so does
  // every later one: once tails begin, no group follows.
  lemma RefusedIsFinal(p: Plan, i: nat, j: nat)
    requires GoodPlan(p) && i <= j < p.total && !Fits(p, i)
    ensures !Fits(p, j) && WindowEnd(p, i) == p.total
    ensures Base(p, i) == p.total - p.total % p.window && 1 <= p.total % p.window < p.width
  {
    hide Place, WindowCount, WindowOf;
    SameWindow(p, i, j);
    SameWindow(p, i, p.total);
    assert Place(p, p.total) == p.total % p.window by { PlaceIs(p); }
  }

  lemma PlaceIs(p: Plan)
    requires GoodPlan(p)
    ensures Place(p, p.total) == p.total % p.window
  {}

  // How many groups there are.
  function GroupsFrom(p: Plan, k: nat): (n: nat)
    requires GoodPlan(p)
    ensures n >= k && !HasGroup(p, n) && forall j :: k <= j < n ==> HasGroup(p, j)
    decreases p.total - Cut(p, k)
  {
    if HasGroup(p, k) then GroupsFrom(p, k + 1) else k
  }

  function Groups(p: Plan): (n: nat)
    requires GoodPlan(p)
    ensures !HasGroup(p, n) && forall j :: 0 <= j < n ==> HasGroup(p, j)
  {
    GroupsFrom(p, 0)
  }

  lemma GroupsUnique(p: Plan, k: nat)
    requires GoodPlan(p)
    ensures HasGroup(p, k) <==> k < Groups(p)
  {
    if HasGroup(p, k) && k >= Groups(p) {
      GroupsFirst(p, Groups(p), k);
    }
  }

  // Every record is a member of some group or one of the tails, and tails
  // start where the groups end.
  lemma {:induction false} Covered(p: Plan, i: nat, k: nat)
    requires GoodPlan(p) && k <= Groups(p) && i < Cut(p, k)
    ensures exists j :: 0 <= j < k && HasGroup(p, j) && Start(p, j) <= i < Start(p, j) + p.width
  {
    if k > 0 {
      assert HasGroup(p, k - 1);
      if i < Cut(p, k - 1) {
        Covered(p, i, k - 1);
      } else {
        ClaimRangeExact(p, Cut(p, k - 1));
        assert Start(p, k - 1) <= i < Start(p, k - 1) + p.width;
      }
    }
  }

  // Tails exist exactly when the final window is shorter than a group, and then
  // they are exactly that window.
  lemma TailsExactly(p: Plan)
    requires GoodPlan(p)
    ensures Cut(p, Groups(p)) < p.total <==> 1 <= p.total % p.window < p.width
    ensures Cut(p, Groups(p)) < p.total ==> Cut(p, Groups(p)) == p.total - p.total % p.window
  {
    hide Place, WindowCount, WindowOf;
    var g := Groups(p);
    var e := Cut(p, g);
    FirstGroup(p);
    GroupsUnique(p, 0);
    var c := Cut(p, g - 1);
    assert HasGroup(p, g - 1);
    if e < p.total {
      RefusedIsFinal(p, e, e);
      CutOfRefusal(p, c);
    } else {
      if 1 <= p.total % p.window < p.width {
        LastWindow(p, c);
      }
    }
  }

  lemma LastWindow(p: Plan, c: nat)
    requires GoodPlan(p) && c < p.total && WindowEnd(p, c) == p.total && 1 <= p.total % p.window < p.width
    ensures !Fits(p, c)
  {
    hide Place, WindowCount, WindowOf;
    PlaceIs(p);
    if p.total < Base(p, c) + p.window {
      SameWindow(p, c, p.total);
    } else {
      NextWindow(p, c, p.total);
    }
  }

  // A group followed by a refusal ends at a window boundary.
  lemma CutOfRefusal(p: Plan, c: nat)
    requires GoodPlan(p) && Fits(p, c) && Next(p, c) < p.total && !Fits(p, Next(p, c))
    ensures Place(p, Next(p, c)) == 0
  {
    hide Place, WindowCount, WindowOf;
    var e := Next(p, c);
    if e < Base(p, c) + p.window {
      SameWindow(p, c, e);
    } else {
      NextWindow(p, c, e);
    }
  }
}
