// First-fit packing of a sequence into consecutive groups, the loop that both the text
// wrapper and the paginator of the PDF exporter run.
module Greedy {
  function Cost<T>(cost: T -> real, s: seq<T>): real {
    if s == [] then 0.0 else Cost(cost, s[..|s| - 1]) + cost(s[|s| - 1])
  }

  function Flatten<T>(groups: seq<seq<T>>): seq<T> {
    if groups == [] then [] else Flatten(groups[..|groups| - 1]) + groups[|groups| - 1]
  }

  // An item joins the last group unless it makes that group exceed the capacity.
  function Pack<T>(cost: T -> real, cap: real, s: seq<T>): (groups: seq<seq<T>>)
    ensures s != [] ==> groups != [] && groups[|groups| - 1] != []
  {
    if s == [] then []
    else
      var groups, x := Pack(cost, cap, s[..|s| - 1]), s[|s| - 1];
      if groups == [] then [[x]]
      else
        var last := groups[|groups| - 1];
        if Cost(cost, last) + cost(x) > cap then groups + [[x]]
        else groups[..|groups| - 1] + [last + [x]]
  }

  ghost predicate NonNegativeOn<T>(cost: T -> real, s: seq<T>) {
    forall i | 0 <= i < |s| :: cost(s[i]) >= 0.0
  }

  // Every group but the last is full: the first item of the next group does not fit in it.
  ghost predicate Tight<T>(cost: T -> real, cap: real, groups: seq<seq<T>>) {
    && (forall i | 0 <= i < |groups| :: groups[i] != [])
    && forall i | 0 < i < |groups| :: Cost(cost, groups[i - 1]) + cost(groups[i][0]) > cap
  }

  ghost predicate Within<T>(cost: T -> real, cap: real, groups: seq<seq<T>>) {
    forall i | 0 <= i < |groups| :: Cost(cost, groups[i]) <= cap
  }

  // ---- sums and concatenations ----

  lemma {:induction false} CostConcat<T>(cost: T -> real, a: seq<T>, b: seq<T>)
    ensures Cost(cost, a + b) == Cost(cost, a) + Cost(cost, b)
  {
    if b == [] {
      assert a + b == a;
    } else {
      assert (a + b)[..|a| + |b| - 1] == a + b[..|b| - 1];
      CostConcat(cost, a, b[..|b| - 1]);
    }
  }

  lemma {:induction false} CostNonNegative<T>(cost: T -> real, s: seq<T>)
    requires NonNegativeOn(cost, s)
    ensures Cost(cost, s) >= 0.0
  {
    if s != [] {
      CostNonNegative(cost, s[..|s| - 1]);
    }
  }

  lemma CostOfSlice<T>(cost: T -> real, s: seq<T>, a: nat, b: nat, c: nat, d: nat)
    requires a <= b <= c <= d <= |s| && NonNegativeOn(cost, s)
    ensures Cost(cost, s[b..c]) <= Cost(cost, s[a..d])
  {
    assert s[a..d] == s[a..b] + s[b..c] + s[c..d];
    CostConcat(cost, s[a..b] + s[b..c], s[c..d]);
    CostConcat(cost, s[a..b], s[b..c]);
    CostNonNegative(cost, s[a..b]);
    CostNonNegative(cost, s[c..d]);
  }

  lemma CostOne<T>(cost: T -> real, x: T)
    ensures Cost(cost, [x]) == cost(x)
  {
    assert [x][..0] == [];
    assert Cost(cost, [x][..0]) == 0.0;
  }

  lemma {:induction false} FlattenConcat<T>(a: seq<seq<T>>, b: seq<seq<T>>)
    ensures Flatten(a + b) == Flatten(a) + Flatten(b)
  {
    if b == [] {
      assert a + b == a;
    } else {
      assert (a + b)[..|a| + |b| - 1] == a + b[..|b| - 1];
      FlattenConcat(a, b[..|b| - 1]);
    }
  }

  // ---- what packing yields ----

  // One turn of the loop: the item after a prefix either joins the open group or opens the next.
  lemma PackNext<T>(cost: T -> real, cap: real, s: seq<T>, i: nat, closed: seq<seq<T>>, open: seq<T>)
    requires i < |s|
    requires if i == 0 then closed == [] && open == [] else Pack(cost, cap, s[..i]) == closed + [open]
    ensures Pack(cost, cap, s[..i + 1])
            == if i > 0 && Cost(cost, open) + cost(s[i]) > cap then closed + [open] + [[s[i]]]
               else closed + [open + [s[i]]]
    ensures Cost(cost, open + [s[i]]) == Cost(cost, open) + cost(s[i])
    ensures Cost(cost, []) == 0.0
  {
    assert s[..i + 1][..i] == s[..i];
    assert (open + [s[i]])[..|open|] == open;
    if i == 0 {
      assert s[..i] == [];
    } else {
      assert (closed + [open])[..|closed|] == closed;
    }
  }

  lemma {:induction false} PackFlatten<T>(cost: T -> real, cap: real, s: seq<T>)
    ensures Flatten(Pack(cost, cap, s)) == s
  {
    if s != [] {
      var front, x := s[..|s| - 1], s[|s| - 1];
      PackFlatten(cost, cap, front);
      var groups := Pack(cost, cap, front);
      assert front + [x] == s;
      hide Cost;
      if groups == [] {
        assert [[x]][..0] == [];
      } else {
        var n := |groups|;
        assert (groups + [[x]])[..n] == groups;
        assert (groups[..n - 1] + [groups[n - 1] + [x]])[..n - 1] == groups[..n - 1];
      }
    }
  }

  lemma PackSnoc<T>(cost: T -> real, cap: real, s: seq<T>, x: T)
    ensures s == [] ==> Pack(cost, cap, s) == []
    ensures var groups := Pack(cost, cap, s);
            Pack(cost, cap, s + [x])
            == if groups == [] then [[x]]
               else
                 var last := groups[|groups| - 1];
                 if Cost(cost, last) + cost(x) > cap then groups + [[x]]
                 else groups[..|groups| - 1] + [last + [x]]
  {
    assert (s + [x])[..|s|] == s;
  }

  lemma {:induction false} PackTight<T>(cost: T -> real, cap: real, s: seq<T>)
    ensures Tight(cost, cap, Pack(cost, cap, s))
  {
    hide Cost, Pack;
    if s == [] {
      PackNone(cost, cap, s);
    } else {
      var front, x := s[..|s| - 1], s[|s| - 1];
      assert s == front + [x];
      PackTight(cost, cap, front);
      PackSnoc(cost, cap, front, x);
    }
  }

  lemma PackNone<T>(cost: T -> real, cap: real, s: seq<T>)
    ensures s == [] ==> Pack(cost, cap, s) == []
  {
  }

  lemma {:induction false} PackWithin<T>(cost: T -> real, cap: real, s: seq<T>)
    ensures forall i | 0 <= i < |Pack(cost, cap, s)| ::
              |Pack(cost, cap, s)[i]| == 1 || Cost(cost, Pack(cost, cap, s)[i]) <= cap
  {
    if s != [] {
      PackWithin(cost, cap, s[..|s| - 1]);
      var groups := Pack(cost, cap, s[..|s| - 1]);
      if groups != [] {
        var last := groups[|groups| - 1];
        assert (last + [s[|s| - 1]])[..|last|] == last;
      }
    }
  }

  // No item is lost, added or moved; no group is empty; every group but the last is full; a
  // group exceeds the capacity only when it is a single item.
  lemma {:induction false} PackSound<T>(cost: T -> real, cap: real, s: seq<T>)
    ensures Flatten(Pack(cost, cap, s)) == s
    ensures Tight(cost, cap, Pack(cost, cap, s))
    ensures forall i | 0 <= i < |Pack(cost, cap, s)| ::
              |Pack(cost, cap, s)[i]| == 1 || Cost(cost, Pack(cost, cap, s)[i]) <= cap
  {
    PackFlatten(cost, cap, s);
    PackTight(cost, cap, s);
    PackWithin(cost, cap, s);
  }

  // A sequence that fits is one group.
  lemma {:induction false} PackFits<T>(cost: T -> real, cap: real, s: seq<T>)
    requires s != [] && NonNegativeOn(cost, s) && Cost(cost, s) <= cap
    ensures Pack(cost, cap, s) == [s]
  {
    var front, x := s[..|s| - 1], s[|s| - 1];
    assert front + [x] == s;
    if front != [] {
      PackFits(cost, cap, front);
      assert [front][..0] == [];
    }
  }

  // After a full group the packing starts afresh.
  lemma {:induction false} PackAfter<T>(cost: T -> real, cap: real, a: seq<T>, b: seq<T>)
    requires a != [] && b != [] && Pack(cost, cap, a) == [a]
    requires Cost(cost, a) + cost(b[0]) > cap
    ensures Pack(cost, cap, a + b) == [a] + Pack(cost, cap, b)
  {
    hide Cost, Pack;
    var front, x := b[..|b| - 1], b[|b| - 1];
    assert a + b == (a + front) + [x] && front + [x] == b;
    PackSnoc(cost, cap, a + front, x);
    PackSnoc(cost, cap, front, x);
    if front == [] {
      assert a + front == a;
    } else {
      PackAfter(cost, cap, a, front);
      var groups := Pack(cost, cap, front);
      assert ([a] + groups)[..|groups|] == [a] + groups[..|groups| - 1];
    }
  }

  lemma FlattenOne<T>(g: seq<T>)
    ensures Flatten([g]) == g
  {
    assert [g][..0] == [];
  }

  // What exceeds the capacity and is more than one item takes at least two groups.
  lemma PackSplits<T>(cost: T -> real, cap: real, s: seq<T>)
    requires |s| >= 2 && Cost(cost, s) > cap
    ensures |Pack(cost, cap, s)| >= 2
  {
    PackSound(cost, cap, s);
    var groups := Pack(cost, cap, s);
    var one := [groups[0]];
    FlattenOne(groups[0]);
    assert |groups| == 1 ==> groups == one;
  }

  // ---- optimality ----

  ghost function End<T>(groups: seq<seq<T>>, j: nat): nat
    requires j <= |groups|
  {
    |Flatten(groups[..j])|
  }

  lemma GroupSlice<T>(groups: seq<seq<T>>, j: nat)
    requires 0 < j <= |groups|
    ensures End(groups, j - 1) <= End(groups, j) <= |Flatten(groups)|
    ensures Flatten(groups)[End(groups, j - 1)..End(groups, j)] == groups[j - 1]
  {
    assert groups == groups[..j] + groups[j..];
    FlattenConcat(groups[..j], groups[j..]);
    assert groups[..j][..j - 1] == groups[..j - 1];
  }

  // The first j groups of a tight packing reach at least as far as any j groups that fit.
  lemma {:induction false} StaysAhead<T>(cost: T -> real, cap: real, p: seq<seq<T>>, q: seq<seq<T>>, j: nat)
    requires Tight(cost, cap, p) && Within(cost, cap, q)
    requires Flatten(p) == Flatten(q) && NonNegativeOn(cost, Flatten(p))
    requires j <= |p| && j <= |q|
    ensures j < |p| ==> End(q, j) <= End(p, j)
  {
    hide Cost, Flatten;
    if 0 < j < |p| {
      StaysAhead(cost, cap, p, q, j - 1);
      GroupSlice(p, j);
      GroupSlice(p, j + 1);
      GroupSlice(q, j);
      var s := Flatten(p);
      var a, b, c, d := End(q, j - 1), End(p, j - 1), End(p, j), End(q, j);
      if d > c {
        assert s[b..c + 1] == p[j - 1] + [p[j][0]] by {
          assert p[j][0] == s[c..End(p, j + 1)][0];
          assert s[b..c + 1] == s[b..c] + [s[c]];
        }
        CostConcat(cost, p[j - 1], [p[j][0]]);
        CostOne(cost, p[j][0]);
        CostOfSlice(cost, s, a, b, c + 1, d);
        assert false;
      }
    } else if j == 0 {
      assert p[..0] == [] && q[..0] == [];
    }
  }

  // No split into consecutive groups within the capacity has fewer groups.
  lemma {:induction false} PackOptimal<T>(cost: T -> real, cap: real, s: seq<T>, q: seq<seq<T>>)
    requires NonNegativeOn(cost, s) && Flatten(q) == s && Within(cost, cap, q)
    ensures |Pack(cost, cap, s)| <= |q|
  {
    var p := Pack(cost, cap, s);
    PackSound(cost, cap, s);
    hide Pack, Cost, Flatten;
    if |q| < |p| {
      StaysAhead(cost, cap, p, q, |q|);
      assert q[..|q|] == q;
      GroupSlice(p, |q| + 1);
      assert false;
    }
  }

  // Two neighbouring groups together exceed the capacity.
  lemma Neighbours<T>(cost: T -> real, cap: real, p: seq<seq<T>>, i: nat)
    requires Tight(cost, cap, p) && 0 < i < |p| && NonNegativeOn(cost, p[i])
    ensures Cost(cost, p[i - 1]) + Cost(cost, p[i]) > cap
  {
    assert p[i] == [p[i][0]] + p[i][1..];
    CostConcat(cost, [p[i][0]], p[i][1..]);
    CostOne(cost, p[i][0]);
    CostNonNegative(cost, p[i][1..]);
  }
}
