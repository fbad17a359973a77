/** The printing order of instructions (floopy/loopy_bits.py, the nested
    `insert_insn_into_order`): a depth-first walk over the kernel's
    instructions that puts every dependency, visited in natural order of its
    id, before the instruction that depends on it. An id is marked as printed
    on entry, so a dependency cycle ends the walk instead of looping; a
    dependency id that names no instruction raises `KeyError`. */
module InsnOrder {
  import opened Results
  import opened KernelModel
  import opened Text
  import opened NaturalOrder

  /** The walk's state: the ids marked as printed and the order built so far. */
  datatype Walk = Walk(placed: set<string>, order: seq<Insn>)

  function OrderIds(order: seq<Insn>): set<string> {
    set x | x in order :: x.id
  }

  /** Every dependency id is an identifier, so `natsorted` can compare them. */
  predicate DepsNameLike(k: Kernel) {
    forall x, d :: x in k.instructions && d in x.dependsOn ==> NameLike(d)
  }

  /** `natsorted(insn.depends_on)`. */
  function SortedDeps(k: Kernel, insn: Insn): (r: seq<string>)
    requires DepsNameLike(k) && insn in k.instructions
    ensures multiset(r) == multiset(insn.dependsOn) && |r| == |insn.dependsOn|
    ensures forall d :: d in r <==> d in insn.dependsOn
    ensures forall i, j :: 0 <= i < j < |r| ==> !Less(NatOrder(r[j]), NatOrder(r[i]))
  {
    var r := NatSorted(insn.dependsOn, Identity);
    assert |multiset(r)| == |multiset(insn.dependsOn)|;
    forall d ensures d in r <==> d in insn.dependsOn {
      assert d in r <==> d in multiset(r);
    }
    r
  }

  lemma CardStep(all: set<string>, placed: set<string>, id: string)
    requires id in all && id !in placed
    ensures |all - (placed + {id})| < |all - placed|
  {
    assert all - placed == (all - (placed + {id})) + {id};
  }

  lemma CardMono(all: set<string>, a: set<string>, b: set<string>)
    requires a <= b
    ensures |all - b| <= |all - a|
  {
    assert all - a == (all - b) + ((all - a) * b);
    assert (all - b) * ((all - a) * b) == {};
  }

  // -------------------------------------------------------- the walk as a function

  /** `insert_insn_into_order(insn)` from state `w`; `Err(d)` is the `KeyError`
      for the dependency id `d`. */
  function Visit(k: Kernel, insn: Insn, w: Walk): (r: Result<Walk, string>)
    requires DepsNameLike(k) && insn in k.instructions && w.placed <= Ids(k)
    ensures r.Ok? ==> w.placed <= r.value.placed <= Ids(k)
    ensures r.Ok? ==> insn.id in r.value.placed
    decreases |Ids(k) - w.placed|, 0
  {
    if insn.id in w.placed then Ok(w)
    else
      CardStep(Ids(k), w.placed, insn.id);
      match VisitDeps(k, SortedDeps(k, insn), Walk(w.placed + {insn.id}, w.order))
      case Err(e) => Err(e)
      case Ok(w2) => Ok(Walk(w2.placed, w2.order + [insn]))
  }

  /** The loop over the sorted dependency ids, looking each up in `id_to_insn`. */
  function VisitDeps(k: Kernel, deps: seq<string>, w: Walk): (r: Result<Walk, string>)
    requires DepsNameLike(k) && w.placed <= Ids(k)
    ensures r.Ok? ==> w.placed <= r.value.placed <= Ids(k)
    decreases |Ids(k) - w.placed|, 1, |deps|
  {
    if deps == [] then Ok(w)
    else
      match Lookup(k, deps[0])
      case None => Err(deps[0])
      case Some(x) =>
        match Visit(k, x, w)
        case Err(e) => Err(e)
        case Ok(w1) =>
          CardMono(Ids(k), w.placed, w1.placed);
          VisitDeps(k, deps[1..], w1)
  }

  /** The outer loop over `kernel.instructions`. */
  function VisitAll(k: Kernel, insns: seq<Insn>, w: Walk): (r: Result<Walk, string>)
    requires DepsNameLike(k) && w.placed <= Ids(k)
    requires forall x :: x in insns ==> x in k.instructions
    ensures r.Ok? ==> w.placed <= r.value.placed <= Ids(k)
    decreases |insns|
  {
    if insns == [] then Ok(w)
    else
      match Visit(k, insns[0], w)
      case Err(e) => Err(e)
      case Ok(w1) => VisitAll(k, insns[1..], w1)
  }

  /** `printed_insn_order` once the walk is over. */
  function DfsOrder(k: Kernel): Result<seq<Insn>, string>
    requires WellFormed(k)
  {
    match VisitAll(k, k.instructions, Walk({}, []))
    case Err(e) => Err(e)
    case Ok(w) => Ok(w.order)
  }

  // ---------------------------------------------------------------- invariants

  predicate DistinctIds(order: seq<Insn>) {
    forall i, j :: 0 <= i < j < |order| ==> order[i].id != order[j].id
  }

  /** Some instruction depends on an id that names no instruction. */
  predicate Dangling(k: Kernel) {
    exists x, d :: x in k.instructions && d in x.dependsOn && d !in Ids(k)
  }

  /** The walk's invariant: every marked id is printed or on the stack of
      instructions still being visited; printed instructions come from the
      kernel, once each, with all their dependencies resolvable. */
  predicate Inv(k: Kernel, w: Walk, stack: set<string>) {
    && w.placed == OrderIds(w.order) + stack
    && stack !! OrderIds(w.order)
    && DistinctIds(w.order)
    && (forall x :: x in w.order ==> x in k.instructions)
    && (forall x, d :: x in w.order && d in x.dependsOn ==> d in Ids(k))
  }

  lemma MarkInv(k: Kernel, w: Walk, stack: set<string>, id: string)
    requires Inv(k, w, stack) && id !in w.placed
    ensures Inv(k, Walk(w.placed + {id}, w.order), stack + {id})
  {
  }

  lemma AppendInv(k: Kernel, w: Walk, stack: set<string>, insn: Insn)
    requires Inv(k, w, stack + {insn.id}) && insn.id !in stack
    requires insn in k.instructions
    requires forall d :: d in insn.dependsOn ==> d in Ids(k)
    ensures Inv(k, Walk(w.placed, w.order + [insn]), stack)
  {
    var o := w.order + [insn];
    assert OrderIds(o) == OrderIds(w.order) + {insn.id} by {
      forall id | id in OrderIds(o) ensures id in OrderIds(w.order) + {insn.id} {
        var x :| x in o && x.id == id;
        assert x in w.order || x == insn;
      }
    }
    forall i, j | 0 <= i < j < |o| ensures o[i].id != o[j].id {
      if j == |o| - 1 {
        assert o[i] in w.order;
      }
    }
  }

  lemma {:induction false} VisitInv(k: Kernel, insn: Insn, w: Walk, stack: set<string>)
    requires WellFormed(k) && insn in k.instructions && w.placed <= Ids(k)
    requires Inv(k, w, stack)
    ensures Visit(k, insn, w).Ok? ==> Inv(k, Visit(k, insn, w).value, stack)
    ensures Visit(k, insn, w).Err? ==> Dangling(k)
    decreases |Ids(k) - w.placed|, 0
  {
    if insn.id !in w.placed {
      CardStep(Ids(k), w.placed, insn.id);
      var w1 := Walk(w.placed + {insn.id}, w.order);
      MarkInv(k, w, stack, insn.id);
      var deps := SortedDeps(k, insn);
      VisitDepsInv(k, insn, deps, w1, stack + {insn.id});
      var r := VisitDeps(k, deps, w1);
      if r.Ok? {
        assert forall d :: d in insn.dependsOn ==> d in deps;
        AppendInv(k, r.value, stack, insn);
        assert Visit(k, insn, w) == Ok(Walk(r.value.placed, r.value.order + [insn]));
      } else {
        assert Visit(k, insn, w) == Err(r.error);
      }
    }
  }

  lemma {:induction false} VisitDepsInv(k: Kernel, owner: Insn, deps: seq<string>, w: Walk, stack: set<string>)
    requires WellFormed(k) && owner in k.instructions && w.placed <= Ids(k)
    requires forall d :: d in deps ==> d in owner.dependsOn
    requires Inv(k, w, stack)
    ensures VisitDeps(k, deps, w).Ok? ==> Inv(k, VisitDeps(k, deps, w).value, stack)
    ensures VisitDeps(k, deps, w).Ok? ==>
              forall d :: d in deps ==> d in Ids(k) && d in VisitDeps(k, deps, w).value.placed
    ensures VisitDeps(k, deps, w).Err? ==> Dangling(k)
    decreases |Ids(k) - w.placed|, 1, |deps|
  {
    if deps != [] {
      match Lookup(k, deps[0])
      case None =>
        assert deps[0] in owner.dependsOn;
      case Some(x) =>
        VisitInv(k, x, w, stack);
        var r := Visit(k, x, w);
        if r.Ok? {
          CardMono(Ids(k), w.placed, r.value.placed);
          VisitDepsInv(k, owner, deps[1..], r.value, stack);
          var r2 := VisitDeps(k, deps[1..], r.value);
          if r2.Ok? {
            forall d | d in deps ensures d in Ids(k) && d in r2.value.placed {
              if d != deps[0] {
                assert d in deps[1..];
              }
            }
          }
        }
    }
  }

  lemma {:induction false} VisitAllInv(k: Kernel, insns: seq<Insn>, w: Walk)
    requires WellFormed(k) && w.placed <= Ids(k)
    requires forall x :: x in insns ==> x in k.instructions
    requires Inv(k, w, {})
    ensures VisitAll(k, insns, w).Ok? ==> Inv(k, VisitAll(k, insns, w).value, {})
    ensures VisitAll(k, insns, w).Ok? ==>
              forall x :: x in insns ==> x.id in VisitAll(k, insns, w).value.placed
    ensures VisitAll(k, insns, w).Err? ==> Dangling(k)
    decreases |insns|
  {
    if insns != [] {
      VisitInv(k, insns[0], w, {});
      var r := Visit(k, insns[0], w);
      if r.Ok? {
        VisitAllInv(k, insns[1..], r.value);
        var r2 := VisitAll(k, insns[1..], r.value);
        if r2.Ok? {
          forall x | x in insns ensures x.id in r2.value.placed {
            if x != insns[0] {
              assert x in insns[1..];
            }
          }
        }
      }
    }
  }

  /** In a sequence without repeated elements every element occurs once. */
  lemma {:induction false} DistinctCount(a: seq<Insn>, x: Insn)
    requires forall i, j :: 0 <= i < j < |a| ==> a[i] != a[j]
    ensures multiset(a)[x] == if x in a then 1 else 0
    decreases |a|
  {
    if a != [] {
      assert a == [a[0]] + a[1..];
      assert forall i, j :: 0 <= i < j < |a[1..]| ==> a[1..][i] != a[1..][j] by {
        forall i, j | 0 <= i < j < |a[1..]| ensures a[1..][i] != a[1..][j] {
          assert a[1..][i] == a[i + 1] && a[1..][j] == a[j + 1];
        }
      }
      DistinctCount(a[1..], x);
      assert a[0] !in a[1..] by {
        forall i | 0 <= i < |a[1..]| ensures a[1..][i] != a[0] {
          assert a[1..][i] == a[i + 1];
        }
      }
    }
  }

  /** Two sequences without repeated elements holding the same elements are
      permutations of each other. */
  lemma DistinctSameElements(a: seq<Insn>, b: seq<Insn>)
    requires forall i, j :: 0 <= i < j < |a| ==> a[i] != a[j]
    requires forall i, j :: 0 <= i < j < |b| ==> b[i] != b[j]
    requires forall x :: x in a <==> x in b
    ensures multiset(a) == multiset(b)
  {
    forall x ensures multiset(a)[x] == multiset(b)[x] {
      DistinctCount(a, x);
      DistinctCount(b, x);
    }
  }

  /** The walk prints every instruction exactly once, and succeeds if and only
      if every dependency id names an instruction. */
  lemma DfsOrderPermutation(k: Kernel)
    requires WellFormed(k)
    ensures DfsOrder(k).Ok? <==> !Dangling(k)
    ensures DfsOrder(k).Ok? ==> multiset(DfsOrder(k).value) == multiset(k.instructions)
  {
    VisitAllInv(k, k.instructions, Walk({}, []));
    var r := VisitAll(k, k.instructions, Walk({}, []));
    if r.Ok? {
      var o := r.value.order;
      forall x ensures x in o <==> x in k.instructions {
        if x in k.instructions {
          assert x.id in OrderIds(o);
          var y :| y in o && y.id == x.id;
          UniqueIds(k, x, y);
        }
      }
      forall i, j | 0 <= i < j < |o| ensures o[i] != o[j] {
      }
      DistinctSameElements(o, k.instructions);
    }
  }

  // ------------------------------------------------------ natural order of visits

  /** The instructions named by `deps`, in that order. */
  function Named(k: Kernel, deps: seq<string>): (r: seq<Insn>)
    requires forall i :: 0 <= i < |deps| ==> deps[i] in Ids(k)
    ensures |r| == |deps|
    ensures forall i :: 0 <= i < |r| ==> Lookup(k, deps[i]) == Some(r[i])
    decreases |deps|
  {
    if deps == [] then [] else [Lookup(k, deps[0]).value] + Named(k, deps[1..])
  }

  function Elements(deps: seq<string>): set<string> {
    set d | d in deps
  }

  /** An unmarked instruction without dependencies is printed at once. */
  lemma VisitLeaf(k: Kernel, x: Insn, w: Walk)
    requires DepsNameLike(k) && x in k.instructions && w.placed <= Ids(k)
    requires x.dependsOn == [] && x.id !in w.placed
    ensures Visit(k, x, w) == Ok(Walk(w.placed + {x.id}, w.order + [x]))
  {
    assert SortedDeps(k, x) == [] by {
      assert |multiset(SortedDeps(k, x))| == 0;
    }
  }

  /** The instructions `leaves`, named in order by `deps`, have no
      dependencies, and none of them is marked in `w`. */
  predicate Leaves(k: Kernel, deps: seq<string>, leaves: seq<Insn>, w: Walk) {
    && |leaves| == |deps|
    && (forall i :: 0 <= i < |deps| ==>
          Lookup(k, deps[i]) == Some(leaves[i]) && leaves[i].dependsOn == [] && deps[i] !in w.placed)
    && (forall i, j :: 0 <= i < j < |deps| ==> deps[i] != deps[j])
  }

  /** The first such instruction is printed, and the rest still qualify. */
  lemma LeavesStep(k: Kernel, deps: seq<string>, leaves: seq<Insn>, w: Walk)
    requires DepsNameLike(k) && w.placed <= Ids(k) && Leaves(k, deps, leaves, w) && deps != []
    ensures VisitDeps(k, deps, w) == VisitDeps(k, deps[1..], Walk(w.placed + {deps[0]}, w.order + [leaves[0]]))
    ensures Leaves(k, deps[1..], leaves[1..], Walk(w.placed + {deps[0]}, w.order + [leaves[0]]))
    ensures w.placed + {deps[0]} <= Ids(k)
  {
    var x := leaves[0];
    VisitLeaf(k, x, w);
    var w1 := Walk(w.placed + {x.id}, w.order + [x]);
    var ds, ls := deps[1..], leaves[1..];
    forall i | 0 <= i < |ds| ensures Lookup(k, ds[i]) == Some(ls[i]) && ls[i].dependsOn == [] && ds[i] !in w1.placed {
      assert ds[i] == deps[i + 1] && ls[i] == leaves[i + 1];
    }
    forall i, j | 0 <= i < j < |ds| ensures ds[i] != ds[j] {
      assert ds[i] == deps[i + 1] && ds[j] == deps[j + 1];
    }
  }

  /** Visiting unmarked instructions without dependencies, each named once,
      prints them in the order of `deps`. */
  lemma {:induction false} VisitLeaves(k: Kernel, deps: seq<string>, leaves: seq<Insn>, w: Walk)
    requires DepsNameLike(k) && w.placed <= Ids(k) && Leaves(k, deps, leaves, w)
    ensures VisitDeps(k, deps, w) == Ok(Walk(w.placed + Elements(deps), w.order + leaves))
    decreases |deps|
  {
    if deps != [] {
      LeavesStep(k, deps, leaves, w);
      var w1 := Walk(w.placed + {deps[0]}, w.order + [leaves[0]]);
      VisitLeaves(k, deps[1..], leaves[1..], w1);
      LeavesJoin(deps, leaves, w);
    } else {
      assert Elements(deps) == {} && leaves == [];
      assert w.placed + Elements(deps) == w.placed && w.order + leaves == w.order;
    }
  }

  /** Marking and printing the first leaf, then the rest, marks and prints
      them all. */
  lemma LeavesJoin(deps: seq<string>, leaves: seq<Insn>, w: Walk)
    requires deps != [] && |leaves| == |deps|
    ensures Walk(w.placed + {deps[0]} + Elements(deps[1..]), w.order + [leaves[0]] + leaves[1..])
            == Walk(w.placed + Elements(deps), w.order + leaves)
  {
    ElementsCons(deps);
    assert leaves == [leaves[0]] + leaves[1..];
  }

  lemma ElementsCons(deps: seq<string>)
    requires deps != []
    ensures Elements(deps) == {deps[0]} + Elements(deps[1..])
  {
    assert deps == [deps[0]] + deps[1..];
  }

  /** An instruction whose dependencies are unmarked instructions without
      dependencies of their own prints them in natural order of their ids,
      then itself. */
  lemma VisitLeafDeps(k: Kernel, insn: Insn, w: Walk)
    requires DepsNameLike(k) && insn in k.instructions && w.placed <= Ids(k)
    requires insn.id !in w.placed
    requires forall i :: 0 <= i < |insn.dependsOn| ==>
               var d := insn.dependsOn[i];
               d in Ids(k) && Lookup(k, d).value.dependsOn == [] && d !in w.placed && d != insn.id
    requires forall i, j :: 0 <= i < j < |insn.dependsOn| ==> insn.dependsOn[i] != insn.dependsOn[j]
    ensures Visit(k, insn, w).Ok?
    ensures var printed := Visit(k, insn, w).value.order;
            && |printed| == |w.order| + |insn.dependsOn| + 1
            && printed[..|w.order|] == w.order
            && printed[|printed| - 1] == insn
            && (forall d :: d in insn.dependsOn <==> d in OrderIds(printed[|w.order|..|printed| - 1]))
            && (forall i, j :: |w.order| <= i < j < |printed| - 1 ==>
                  !Less(NatOrder(printed[j].id), NatOrder(printed[i].id)))
  {
    var n := VisitNamed(k, insn, w);
    NamedIds(k, insn, n);
    SpliceOrder(w.order, n, insn);
  }

  /** Instructions in natural order of their ids, between a prefix and a last
      instruction, keep that order in the joined sequence. */
  lemma SpliceOrder(pre: seq<Insn>, n: seq<Insn>, last: Insn)
    requires forall i, j :: 0 <= i < j < |n| ==> !Less(NatOrder(n[j].id), NatOrder(n[i].id))
    ensures var p := pre + n + [last];
            && p[..|pre|] == pre && p[|p| - 1] == last && p[|pre|..|p| - 1] == n
            && (forall i, j :: |pre| <= i < j < |p| - 1 ==> !Less(NatOrder(p[j].id), NatOrder(p[i].id)))
  {
    var p := pre + n + [last];
    assert p[..|pre|] == pre;
    assert p[|pre|..|p| - 1] == n;
    forall i, j | |pre| <= i < j < |p| - 1
      ensures !Less(NatOrder(p[j].id), NatOrder(p[i].id))
    {
      assert p[i] == n[i - |pre|] && p[j] == n[j - |pre|];
    }
  }

  /** Instructions whose ids are the sorted dependencies of `insn`: their
      ids are its dependency ids, in natural order. */
  lemma NamedIds(k: Kernel, insn: Insn, n: seq<Insn>)
    requires DepsNameLike(k) && insn in k.instructions
    requires |n| == |SortedDeps(k, insn)|
    requires forall i :: 0 <= i < |n| ==> n[i].id == SortedDeps(k, insn)[i]
    ensures forall d :: d in insn.dependsOn <==> d in OrderIds(n)
    ensures forall i, j :: 0 <= i < j < |n| ==> !Less(NatOrder(n[j].id), NatOrder(n[i].id))
  {
    var deps := SortedDeps(k, insn);
    forall d ensures d in insn.dependsOn <==> d in OrderIds(n) {
      if d in insn.dependsOn {
        var i :| 0 <= i < |deps| && deps[i] == d;
        assert n[i] in n;
      }
      if d in OrderIds(n) {
        var x :| x in n && x.id == d;
        var i :| 0 <= i < |n| && n[i] == x;
      }
    }
  }

  /** The walk from such an instruction prints the instructions `n` named by
      its sorted dependencies, then itself. */
  lemma VisitNamed(k: Kernel, insn: Insn, w: Walk) returns (n: seq<Insn>)
    requires DepsNameLike(k) && insn in k.instructions && w.placed <= Ids(k)
    requires insn.id !in w.placed
    requires forall i :: 0 <= i < |insn.dependsOn| ==>
               var d := insn.dependsOn[i];
               d in Ids(k) && Lookup(k, d).value.dependsOn == [] && d !in w.placed && d != insn.id
    requires forall i, j :: 0 <= i < j < |insn.dependsOn| ==> insn.dependsOn[i] != insn.dependsOn[j]
    ensures |n| == |insn.dependsOn|
    ensures forall i :: 0 <= i < |n| ==> n[i].id == SortedDeps(k, insn)[i]
    ensures Visit(k, insn, w).Ok? && Visit(k, insn, w).value.order == w.order + n + [insn]
  {
    var deps := SortedDeps(k, insn);
    DepsOfDistinct(k, insn, w, deps);
    n := Named(k, deps);
    var w1 := Walk(w.placed + {insn.id}, w.order);
    assert Leaves(k, deps, n, w1);
    VisitLeaves(k, deps, n, w1);
  }

  /** The sorted dependencies of such an instruction are distinct, name
      instructions without dependencies and are all unmarked. */
  lemma DepsOfDistinct(k: Kernel, insn: Insn, w: Walk, deps: seq<string>)
    requires DepsNameLike(k) && insn in k.instructions && insn.id !in w.placed
    requires deps == SortedDeps(k, insn)
    requires forall i :: 0 <= i < |insn.dependsOn| ==>
               var d := insn.dependsOn[i];
               d in Ids(k) && Lookup(k, d).value.dependsOn == [] && d !in w.placed && d != insn.id
    requires forall i, j :: 0 <= i < j < |insn.dependsOn| ==> insn.dependsOn[i] != insn.dependsOn[j]
    ensures |deps| == |insn.dependsOn|
    ensures forall i :: 0 <= i < |deps| ==>
              deps[i] in Ids(k) && Lookup(k, deps[i]).value.dependsOn == [] && deps[i] !in w.placed + {insn.id}
    ensures forall i, j :: 0 <= i < j < |deps| ==> deps[i] != deps[j]
  {
    assert |multiset(deps)| == |multiset(insn.dependsOn)|;
    forall i | 0 <= i < |deps|
      ensures deps[i] in Ids(k) && Lookup(k, deps[i]).value.dependsOn == [] && deps[i] !in w.placed + {insn.id}
    {
      assert deps[i] in insn.dependsOn;
      var j :| 0 <= j < |insn.dependsOn| && insn.dependsOn[j] == deps[i];
    }
    forall i, j | 0 <= i < j < |deps| ensures deps[i] != deps[j] {
      DistinctMultiset(insn.dependsOn, deps[i]);
      if deps[i] == deps[j] {
        PairCount(deps, i, j);
      }
    }
  }

  /** An element of a sequence without repeats occurs once. */
  lemma {:induction false} DistinctMultiset(s: seq<string>, x: string)
    requires forall i, j :: 0 <= i < j < |s| ==> s[i] != s[j]
    ensures multiset(s)[x] <= 1
    decreases |s|
  {
    if s != [] {
      assert s == [s[0]] + s[1..];
      DistinctMultiset(s[1..], x);
      if x == s[0] {
        assert x !in s[1..] by {
          forall i | 0 <= i < |s[1..]| ensures s[1..][i] != x {
            assert s[1..][i] == s[i + 1];
          }
        }
      }
    }
  }

  /** Two positions holding `s[i]` count it twice. */
  lemma PairCount(s: seq<string>, i: nat, j: nat)
    requires i < j < |s| && s[i] == s[j]
    ensures multiset(s)[s[i]] >= 2
  {
    assert s == s[..i] + [s[i]] + s[i + 1..j] + [s[j]] + s[j + 1..];
  }

  // -------------------------------------------------------- dependencies first

  /** Every dependency of a printed instruction is printed before it. */
  predicate DepsFirst(order: seq<Insn>) {
    forall i, d :: 0 <= i < |order| && d in order[i].dependsOn ==> d in OrderIds(order[..i])
  }

  /** A ranking of ids that every dependency edge descends: the dependency
      graph has no cycle. */
  predicate Ranked(k: Kernel, rank: map<string, nat>) {
    forall x :: x in k.instructions ==>
      x.id in rank && forall d :: d in x.dependsOn ==> d in rank && rank[d] < rank[x.id]
  }

  lemma AppendDepsFirst(order: seq<Insn>, insn: Insn)
    requires DepsFirst(order)
    requires forall d :: d in insn.dependsOn ==> d in OrderIds(order)
    ensures DepsFirst(order + [insn])
  {
    var o := order + [insn];
    forall i, d | 0 <= i < |o| && d in o[i].dependsOn ensures d in OrderIds(o[..i]) {
      if i < |order| {
        assert o[..i] == order[..i];
      } else {
        assert o[..i] == order;
      }
    }
  }

  /** A dependency marked during the walk and ranked below everything on the
      stack is already printed. */
  lemma DepsPrinted(k: Kernel, insn: Insn, deps: seq<string>, w: Walk, stack: set<string>,
                    rank: map<string, nat>)
    requires insn in k.instructions && Ranked(k, rank) && Inv(k, w, stack)
    requires forall s :: s in stack ==> s in rank && rank[insn.id] <= rank[s]
    requires forall d :: d in insn.dependsOn ==> d in deps
    requires forall d :: d in deps ==> d in w.placed
    ensures forall d :: d in insn.dependsOn ==> d in OrderIds(w.order)
  {
    forall d | d in insn.dependsOn ensures d in OrderIds(w.order) {
      assert d in w.placed;
      assert rank[d] < rank[insn.id];
    }
  }

  lemma {:induction false} VisitDepsFirst(k: Kernel, insn: Insn, w: Walk, stack: set<string>, rank: map<string, nat>)
    requires WellFormed(k) && insn in k.instructions && w.placed <= Ids(k)
    requires Inv(k, w, stack) && DepsFirst(w.order) && Ranked(k, rank)
    requires forall s :: s in stack ==> s in rank && rank[insn.id] < rank[s]
    ensures Visit(k, insn, w).Ok? ==> DepsFirst(Visit(k, insn, w).value.order)
    decreases |Ids(k) - w.placed|, 0
  {
    if insn.id !in w.placed {
      CardStep(Ids(k), w.placed, insn.id);
      var w1 := Walk(w.placed + {insn.id}, w.order);
      MarkInv(k, w, stack, insn.id);
      var deps := SortedDeps(k, insn);
      VisitDepsInv(k, insn, deps, w1, stack + {insn.id});
      VisitDepsFirstDeps(k, insn, deps, w1, stack + {insn.id}, rank);
      var r := VisitDeps(k, deps, w1);
      if r.Ok? {
        DepsPrinted(k, insn, deps, r.value, stack + {insn.id}, rank);
        AppendDepsFirst(r.value.order, insn);
        assert Visit(k, insn, w) == Ok(Walk(r.value.placed, r.value.order + [insn]));
      }
    }
  }

  lemma {:induction false} VisitDepsFirstDeps(k: Kernel, owner: Insn, deps: seq<string>, w: Walk,
                                             stack: set<string>, rank: map<string, nat>)
    requires WellFormed(k) && owner in k.instructions && w.placed <= Ids(k)
    requires forall d :: d in deps ==> d in owner.dependsOn
    requires Inv(k, w, stack) && DepsFirst(w.order) && Ranked(k, rank)
    requires forall s :: s in stack ==> s in rank && rank[owner.id] <= rank[s]
    ensures VisitDeps(k, deps, w).Ok? ==> DepsFirst(VisitDeps(k, deps, w).value.order)
    decreases |Ids(k) - w.placed|, 1, |deps|
  {
    if deps != [] {
      match Lookup(k, deps[0])
      case None =>
      case Some(x) =>
        assert deps[0] in owner.dependsOn;
        VisitDepsFirst(k, x, w, stack, rank);
        VisitInv(k, x, w, stack);
        var r := Visit(k, x, w);
        if r.Ok? {
          CardMono(Ids(k), w.placed, r.value.placed);
          VisitDepsFirstDeps(k, owner, deps[1..], r.value, stack, rank);
        }
    }
  }

  lemma {:induction false} VisitAllDepsFirst(k: Kernel, insns: seq<Insn>, w: Walk, rank: map<string, nat>)
    requires WellFormed(k) && w.placed <= Ids(k)
    requires forall x :: x in insns ==> x in k.instructions
    requires Inv(k, w, {}) && DepsFirst(w.order) && Ranked(k, rank)
    ensures VisitAll(k, insns, w).Ok? ==> DepsFirst(VisitAll(k, insns, w).value.order)
    decreases |insns|
  {
    if insns != [] {
      VisitDepsFirst(k, insns[0], w, {}, rank);
      VisitInv(k, insns[0], w, {});
      var r := Visit(k, insns[0], w);
      if r.Ok? {
        VisitAllDepsFirst(k, insns[1..], r.value, rank);
      }
    }
  }

  /** Without dependency cycles, every instruction is printed after all the
      instructions it depends on. */
  lemma DfsOrderDepsFirst(k: Kernel, rank: map<string, nat>)
    requires WellFormed(k) && Ranked(k, rank)
    ensures DfsOrder(k).Ok? ==> DepsFirst(DfsOrder(k).value)
  {
    VisitAllDepsFirst(k, k.instructions, Walk({}, []), rank);
  }

  /** Visiting the second of two instructions that depend on each other, once
      the first is marked, prints the second alone. */
  lemma CycleSecondVisit(k: Kernel, a: Insn, b: Insn)
    requires DepsNameLike(k) && k.instructions == [a, b] && a.id != b.id
    requires a.dependsOn == [b.id] && b.dependsOn == [a.id]
    ensures Visit(k, b, Walk({a.id}, [])) == Ok(Walk({a.id, b.id}, [b]))
  {
    var db := SortedDeps(k, b);
    assert |db| == 1 && db[0] in b.dependsOn;
    assert db == [a.id];
    assert Lookup(k, a.id) == Some(a);
    assert {a.id} + {b.id} == {a.id, b.id};
    assert [] + [b] == [b];
    assert Visit(k, a, Walk({a.id, b.id}, [])) == Ok(Walk({a.id, b.id}, []));
    assert VisitDeps(k, db, Walk({a.id, b.id}, [])) == Ok(Walk({a.id, b.id}, []));
  }

  /** Visiting the first of two instructions that depend on each other prints
      the second, then the first. */
  lemma CycleFirstVisit(k: Kernel, a: Insn, b: Insn)
    requires DepsNameLike(k) && k.instructions == [a, b] && a.id != b.id
    requires a.dependsOn == [b.id] && b.dependsOn == [a.id]
    ensures Visit(k, a, Walk({}, [])) == Ok(Walk({a.id, b.id}, [b, a]))
  {
    var da := SortedDeps(k, a);
    assert |da| == 1 && da[0] in a.dependsOn;
    assert da == [b.id];
    assert Lookup(k, b.id) == Some(b);
    assert {} + {a.id} == {a.id};
    assert [b] + [a] == [b, a];
    CycleSecondVisit(k, a, b);
    assert VisitDeps(k, da, Walk({a.id}, [])) == Ok(Walk({a.id, b.id}, [b]));
  }

  /** Two instructions that depend on each other: the walk ends, printing
      the second before the first. */
  lemma {:induction false} CycleTerminates(k: Kernel, a: Insn, b: Insn)
    requires WellFormed(k) && k.instructions == [a, b]
    requires a.dependsOn == [b.id] && b.dependsOn == [a.id]
    ensures DfsOrder(k) == Ok([b, a])
  {
    assert a.id != b.id by {
      assert k.instructions[0] == a && k.instructions[1] == b;
    }
    CycleFirstVisit(k, a, b);
    var w := Walk({a.id, b.id}, [b, a]);
    assert Visit(k, b, w) == Ok(w);
    assert k.instructions[1..] == [b] && [b][1..] == [];
    assert VisitAll(k, [b], w) == Ok(w);
  }

  // ------------------------------------------------------- the walk in place

  /** The state of `insert_insn_into_order`: the set `printed_insn_ids` and the
      list `printed_insn_order`, both updated in place. */
  class Orderer {
    const kernel: Kernel
    var printedIds: set<string>
    var printedOrder: seq<Insn>

    constructor (k: Kernel)
      ensures kernel == k && printedIds == {} && printedOrder == []
    {
      kernel := k;
      printedIds := {};
      printedOrder := [];
    }

    function State(): Walk
      reads this
    {
      Walk(printedIds, printedOrder)
    }

    /** `insert_insn_into_order(insn)`; `missing` is the id whose lookup raised
        `KeyError`. */
    method Insert(insn: Insn) returns (missing: Option<string>)
      requires DepsNameLike(kernel) && insn in kernel.instructions && printedIds <= Ids(kernel)
      modifies this
      ensures missing.None? ==> Visit(kernel, insn, old(State())) == Ok(State())
      ensures missing.Some? ==> Visit(kernel, insn, old(State())) == Err(missing.value)
      decreases |Ids(kernel) - printedIds|, 0
    {
      if insn.id in printedIds {
        return None;
      }
      CardStep(Ids(kernel), printedIds, insn.id);
      printedIds := printedIds + {insn.id};
      var deps := SortedDeps(kernel, insn);
      missing := InsertAll(deps);
      if missing.None? {
        printedOrder := printedOrder + [insn];
      }
    }

    /** The loop `for dep_id in natsorted(insn.depends_on)` of
        `insert_insn_into_order`. */
    method InsertAll(deps: seq<string>) returns (missing: Option<string>)
      requires DepsNameLike(kernel) && printedIds <= Ids(kernel)
      modifies this
      ensures missing.None? ==> VisitDeps(kernel, deps, old(State())) == Ok(State())
      ensures missing.Some? ==> VisitDeps(kernel, deps, old(State())) == Err(missing.value)
      decreases |Ids(kernel) - printedIds|, 1
    {
      ghost var w1 := State();
      var i := 0;
      while i < |deps|
        invariant 0 <= i <= |deps|
        invariant w1.placed <= printedIds <= Ids(kernel)
        invariant VisitDeps(kernel, deps, w1) == VisitDeps(kernel, deps[i..], State())
      {
        var found := Lookup(kernel, deps[i]);
        if found.None? {
          return Some(deps[i]);
        }
        CardMono(Ids(kernel), w1.placed, printedIds);
        ghost var before := State();
        var m := Insert(found.value);
        if m.Some? {
          return m;
        }
        assert deps[i..][1..] == deps[i + 1..];
        assert VisitDeps(kernel, deps[i..], before) == VisitDeps(kernel, deps[i + 1..], State());
        i := i + 1;
      }
      return None;
    }
  }

  /** The loop over `kernel.instructions` that fills `printed_insn_order`:
      every instruction once, or the `KeyError` of a dangling dependency. */
  method PrintingOrder(k: Kernel) returns (r: Result<seq<Insn>, string>)
    requires WellFormed(k)
    ensures r == DfsOrder(k)
    ensures r.Ok? <==> !Dangling(k)
    ensures r.Ok? ==> multiset(r.value) == multiset(k.instructions)
  {
    DfsOrderPermutation(k);
    var o := new Orderer(k);
    var i := 0;
    while i < |k.instructions|
      invariant 0 <= i <= |k.instructions|
      invariant o.kernel == k && o.printedIds <= Ids(k)
      invariant VisitAll(k, k.instructions, Walk({}, [])) == VisitAll(k, k.instructions[i..], o.State())
    {
      ghost var before := o.State();
      var m := o.Insert(k.instructions[i]);
      if m.Some? {
        return Err(m.value);
      }
      assert k.instructions[i..][1..] == k.instructions[i + 1..];
      assert VisitAll(k, k.instructions[i..], before) == VisitAll(k, k.instructions[i + 1..], o.State());
      i := i + 1;
    }
    return Ok(o.printedOrder);
  }
}
