/**
 * Literals and clauses as the encoder builds them: a literal is a variable id
 * or its negation, a clause a list of literals, a soft clause a weight paired
 * with a clause.
 */
module Literals {
  import opened Seqs
  import opened Variables

  type Clause = seq<int>

  /** A `(weight, clause)` pair of a weighted MaxSAT formula. */
  datatype Weighted = Weighted(weight: int, clause: Clause)

  /** The ids of those `vs` that are keys of `m`, in the order of `vs`. */
  function Present(m: VarMap, vs: seq<Var>): (lits: seq<int>)
    ensures |lits| <= |vs|
  {
    if vs == [] then []
    else
      var last := vs[|vs| - 1];
      Present(m, vs[..|vs| - 1]) + (if last in m.ids then [m.ids[last]] else [])
  }

  /** A literal is collected exactly when it is the id of one of the `vs` that `m` holds. */
  lemma {:induction false} PresentMembers(m: VarMap, vs: seq<Var>)
    ensures forall x :: x in Present(m, vs) <==> exists v :: v in vs && v in m.ids && m.ids[v] == x
  {
    if vs != [] {
      var init := vs[..|vs| - 1];
      PresentMembers(m, init);
      assert vs == init + [vs[|vs| - 1]];
    }
  }

  /** When `m` holds every one of `vs`, one literal is collected per key, in order. */
  lemma {:induction false} PresentAll(m: VarMap, vs: seq<Var>)
    requires forall v :: v in vs ==> v in m.ids
    ensures |Present(m, vs)| == |vs|
    ensures forall i :: 0 <= i < |vs| ==> Present(m, vs)[i] == m.ids[vs[i]]
  {
    if vs != [] {
      var init := vs[..|vs| - 1];
      assert forall v :: v in init ==> v in vs;
      PresentAll(m, init);
      forall i | 0 <= i < |vs| - 1
        ensures Present(m, vs)[i] == m.ids[vs[i]]
      {
        assert vs[i] == init[i];
      }
    }
  }

  /** The `for key in ...: if key in m: lits.append(m[key])` loops of the generators. */
  method CollectPresent(m: VarMap, vs: seq<Var>) returns (lits: seq<int>)
    ensures lits == Present(m, vs)
  {
    lits := [];
    var j := 0;
    while j < |vs|
      invariant 0 <= j <= |vs|
      invariant lits == Present(m, vs[..j])
    {
      assert vs[..j + 1][..j] == vs[..j];
      if vs[j] in m.ids {
        lits := lits + [m.ids[vs[j]]];
      }
      j := j + 1;
    }
    assert vs[..|vs|] == vs;
  }

  /** `[-x, y]` for every x of `xs`, in order: "x implies y" for each x. */
  function Implications(xs: seq<int>, y: int): (cls: seq<Clause>)
    ensures |cls| == |xs|
  {
    if xs == [] then [] else Implications(xs[..|xs| - 1], y) + [[-xs[|xs| - 1], y]]
  }

  lemma ImplicationsSnoc(xs: seq<int>, x: int, y: int)
    ensures Implications(xs + [x], y) == Implications(xs, y) + [[-x, y]]
  {
    assert (xs + [x])[..|xs|] == xs;
  }

  lemma {:induction false} ImplicationsAt(xs: seq<int>, y: int)
    ensures forall i :: 0 <= i < |xs| ==> Implications(xs, y)[i] == [-xs[i], y]
  {
    if xs != [] {
      var init := xs[..|xs| - 1];
      ImplicationsAt(init, y);
      forall i | 0 <= i < |xs| - 1
        ensures Implications(xs, y)[i] == [-xs[i], y]
      {
        assert xs[i] == init[i];
      }
    }
  }

  // ---------------------------------------------------------------------
  // What a clause list means: the assignments (sets of true variables) that satisfy it

  /** A literal holds when its variable is true (positive literal) or false (negative literal). */
  predicate Holds(a: set<int>, lit: int) {
    if lit >= 0 then lit in a else -lit !in a
  }

  ghost predicate SatClause(a: set<int>, cl: Clause) {
    exists lit :: lit in cl && Holds(a, lit)
  }

  ghost predicate Sat(a: set<int>, cls: seq<Clause>) {
    forall cl :: cl in cls ==> SatClause(a, cl)
  }

  /** Every id of the dictionary is a variable, i.e. positive. */
  ghost predicate Positive(m: VarMap) {
    forall v :: v in m.ids ==> m.ids[v] >= 1
  }

  lemma SatAppend(a: set<int>, x: seq<Clause>, y: seq<Clause>)
    ensures Sat(a, x + y) <==> Sat(a, x) && Sat(a, y)
  {
    assert forall cl :: cl in x + y <==> cl in x || cl in y;
  }

  /** Chains the meaning of two blocks into the meaning of their concatenation. */
  lemma MeaningStep(whole: bool, left: bool, right: bool, meaning: bool, leftMeaning: bool, rightMeaning: bool)
    requires whole <==> left && right
    requires left <==> leftMeaning
    requires right <==> rightMeaning
    requires meaning <==> leftMeaning && rightMeaning
    ensures whole <==> meaning
  {
  }

  /** `[-x, y]` is satisfied exactly when x true forces y true. */
  lemma ImplicationMeaning(a: set<int>, x: int, y: int)
    requires x >= 1 && y >= 1
    ensures SatClause(a, [-x, y]) <==> (x in a ==> y in a)
  {
    if x !in a {
      assert Holds(a, -x);
    } else if y in a {
      assert Holds(a, y);
    }
  }

  /** `[-y] + xs` is satisfied exactly when y true forces one of the xs true. */
  lemma CoverMeaning(a: set<int>, y: int, xs: seq<int>)
    requires y >= 1 && forall x :: x in xs ==> x >= 1
    ensures SatClause(a, [-y] + xs) <==> (y in a ==> exists x :: x in xs && x in a)
  {
    var cl := [-y] + xs;
    if y !in a {
      assert Holds(a, cl[0]);
    } else if x :| x in xs && x in a {
      assert x in cl && Holds(a, x);
    } else {
      forall lit | lit in cl
        ensures !Holds(a, lit)
      {
        if lit != -y {
          assert lit in xs;
        }
      }
    }
  }

  /** `Implications(xs, y)` is satisfied exactly when every true x forces y true. */
  lemma {:induction false} ImplicationsMeaning(a: set<int>, xs: seq<int>, y: int)
    requires y >= 1 && forall x :: x in xs ==> x >= 1
    ensures Sat(a, Implications(xs, y)) <==> (forall x :: x in xs && x in a ==> y in a)
  {
    if xs != [] {
      var init, last := xs[..|xs| - 1], xs[|xs| - 1];
      assert forall x :: x in init ==> x in xs;
      assert last in xs;
      ImplicationsMeaning(a, init, y);
      ImplicationMeaning(a, last, y);
      SatAppend(a, Implications(init, y), [[-last, y]]);
    }
  }

  /** Both directions of "y iff some x": each x implies y, and y implies some x. */
  function Equivalence(y: int, xs: seq<int>): (cls: seq<Clause>)
    ensures |cls| == |xs| + 1
  {
    Implications(xs, y) + [[-y] + xs]
  }

  /** `Equivalence(y, xs)` is satisfied exactly when y is true iff one of the xs is. */
  lemma EquivalenceMeaning(a: set<int>, y: int, xs: seq<int>)
    requires y >= 1 && forall x :: x in xs ==> x >= 1
    ensures Sat(a, Equivalence(y, xs)) <==> (y in a <==> exists x :: x in xs && x in a)
  {
    ImplicationsMeaning(a, xs, y);
    CoverMeaning(a, y, xs);
    SatAppend(a, Implications(xs, y), [[-y] + xs]);
  }

  /** The collected ids are ids of the dictionary, hence positive. */
  lemma PresentPositive(m: VarMap, vs: seq<Var>)
    requires Positive(m)
    ensures forall x :: x in Present(m, vs) ==> x >= 1
  {
    PresentMembers(m, vs);
  }

  /** Some collected literal is true exactly when some held key of `vs` has a true id. */
  lemma PresentTrue(a: set<int>, m: VarMap, vs: seq<Var>)
    ensures (exists x :: x in Present(m, vs) && x in a)
        <==> (exists v :: v in vs && v in m.ids && m.ids[v] in a)
  {
    PresentMembers(m, vs);
    if v :| v in vs && v in m.ids && m.ids[v] in a {
      var x := m.ids[v];
      assert exists u :: u in vs && u in m.ids && m.ids[u] == x;
      assert x in Present(m, vs);
    }
  }

  /** `[-x, -y]` is satisfied exactly when x and y are not both true. */
  lemma NandMeaning(a: set<int>, x: int, y: int)
    requires x >= 1 && y >= 1
    ensures SatClause(a, [-x, -y]) <==> !(x in a && y in a)
  {
    if x !in a {
      assert Holds(a, -x);
    } else if y !in a {
      assert Holds(a, -y);
    }
  }

  /** `[-x1, -x2, -x3, -x4]` is satisfied exactly when the four are not all true. */
  lemma Nand4Meaning(a: set<int>, x1: int, x2: int, x3: int, x4: int)
    requires x1 >= 1 && x2 >= 1 && x3 >= 1 && x4 >= 1
    ensures SatClause(a, [-x1, -x2, -x3, -x4]) <==> !(x1 in a && x2 in a && x3 in a && x4 in a)
  {
    var cl := [-x1, -x2, -x3, -x4];
    if x1 !in a {
      assert Holds(a, cl[0]);
    } else if x2 !in a {
      assert Holds(a, cl[1]);
    } else if x3 !in a {
      assert Holds(a, cl[2]);
    } else if x4 !in a {
      assert Holds(a, cl[3]);
    }
  }

  /** The unit clause `[-x]` is satisfied exactly when x is false. */
  lemma NotMeaning(a: set<int>, x: int)
    requires x >= 1
    ensures SatClause(a, [-x]) <==> x !in a
  {
    if x !in a {
      assert Holds(a, -x);
    }
  }

  // ---------------------------------------------------------------------
  // What a weighted list costs: the MaxSAT objective

  /** The total weight of the soft clauses an assignment falsifies. */
  ghost function Cost(a: set<int>, soft: seq<Weighted>): int {
    if soft == [] then 0
    else Cost(a, soft[..|soft| - 1]) + (if SatClause(a, soft[|soft| - 1].clause) then 0 else soft[|soft| - 1].weight)
  }

  /** The cost of a concatenation is the sum of the costs. */
  lemma {:induction false} CostAppend(a: set<int>, x: seq<Weighted>, y: seq<Weighted>)
    ensures Cost(a, x + y) == Cost(a, x) + Cost(a, y)
    decreases |y|
  {
    if y == [] {
      assert x + y == x;
    } else {
      var init := y[..|y| - 1];
      CostAppend(a, x, init);
      assert (x + y)[..|x + y| - 1] == x + init;
    }
  }

  /** How many of `lits` are true under `a`. */
  function CountTrue(a: set<int>, lits: seq<int>): (n: nat)
    ensures n <= |lits|
  {
    if lits == [] then 0
    else CountTrue(a, lits[..|lits| - 1]) + (if lits[|lits| - 1] in a then 1 else 0)
  }

  /** Every soft clause of the list is satisfied. */
  ghost predicate SatSoft(a: set<int>, soft: seq<Weighted>) {
    forall w :: w in soft ==> SatClause(a, w.clause)
  }

  lemma SatSoftAppend(a: set<int>, x: seq<Weighted>, y: seq<Weighted>)
    ensures SatSoft(a, x + y) <==> SatSoft(a, x) && SatSoft(a, y)
  {
    assert forall w :: w in x + y <==> w in x || w in y;
  }

  /** With non-negative weights the cost is never negative. */
  lemma {:induction false} CostNonNegative(a: set<int>, soft: seq<Weighted>)
    requires forall w :: w in soft ==> w.weight >= 0
    ensures Cost(a, soft) >= 0
  {
    if soft != [] {
      var init := soft[..|soft| - 1];
      assert forall w :: w in init ==> w in soft;
      CostNonNegative(a, init);
      assert soft[|soft| - 1] in soft;
    }
  }

  /** With positive weights an assignment costs nothing exactly when it satisfies every soft clause. */
  lemma {:induction false} CostZero(a: set<int>, soft: seq<Weighted>)
    requires forall w :: w in soft ==> w.weight > 0
    ensures Cost(a, soft) == 0 <==> SatSoft(a, soft)
  {
    if soft != [] {
      var init, last := soft[..|soft| - 1], soft[|soft| - 1];
      assert forall w :: w in init ==> w in soft;
      assert last in soft;
      CostZero(a, init);
      CostNonNegative(a, init);
      assert soft == init + [last];
      SatSoftAppend(a, init, [last]);
    }
  }

  /** A falsified soft clause adds at least its weight to the cost. */
  lemma {:induction false} CostFalsified(a: set<int>, soft: seq<Weighted>, w: Weighted)
    requires forall v :: v in soft ==> v.weight >= 0
    requires w in soft && !SatClause(a, w.clause)
    ensures Cost(a, soft) >= w.weight
  {
    var init, last := soft[..|soft| - 1], soft[|soft| - 1];
    assert forall v :: v in init ==> v in soft;
    assert soft == init + [last];
    if w == last {
      CostNonNegative(a, init);
    } else {
      CostFalsified(a, init, w);
      assert last in soft;
    }
  }

  /** Each clause of `cls` paired with the weight `w`. */
  function Weigh(w: int, cls: seq<Clause>): (soft: seq<Weighted>)
    ensures |soft| == |cls|
  {
    if cls == [] then [] else Weigh(w, cls[..|cls| - 1]) + [Weighted(w, cls[|cls| - 1])]
  }

  /** The weighted copy holds the same clauses, all with weight `w`, and is satisfied exactly when they are. */
  lemma {:induction false} WeighSpec(a: set<int>, w: int, cls: seq<Clause>)
    ensures forall i :: 0 <= i < |cls| ==> Weigh(w, cls)[i] == Weighted(w, cls[i])
    ensures SatSoft(a, Weigh(w, cls)) <==> Sat(a, cls)
  {
    if cls != [] {
      var init, last := cls[..|cls| - 1], cls[|cls| - 1];
      WeighSpec(a, w, init);
      assert cls == init + [last];
      forall i | 0 <= i < |init|
        ensures Weigh(w, cls)[i] == Weighted(w, cls[i])
      {
        assert cls[i] == init[i];
      }
      SatSoftAppend(a, Weigh(w, init), [Weighted(w, last)]);
      SatAppend(a, init, [last]);
    }
  }

  lemma {:induction false} WeighAppend(w: int, x: seq<Clause>, y: seq<Clause>)
    ensures Weigh(w, x + y) == Weigh(w, x) + Weigh(w, y)
    decreases |y|
  {
    if y == [] {
      assert x + y == x;
    } else {
      WeighAppend(w, x, y[..|y| - 1]);
      assert (x + y)[..|x + y| - 1] == x + y[..|y| - 1];
    }
  }
}
