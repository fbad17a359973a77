/** The parts of a loopy kernel that the snapshot serializer reads
    (floopy/loopy_bits.py). Every `str(...)` of a loopy object is an opaque
    string field; Python sets and dicts are sequences in their iteration order. */
module KernelModel {
  import opened Results
  import opened NaturalOrder

  /** `lp.ValueArg`, an array argument in the global address space, or an
      argument in any other address space. */
  datatype ArgKind = ValueArg | GlobalArg | OtherSpaceArg

  /** One entry of `kernel.arg_dict`; `repr` is `str(arg)`. */
  datatype Arg = Arg(name: string, kind: ArgKind, repr: string)

  /** A domain with `str(dom)` and the number of its parent domains. */
  datatype Domain = Domain(repr: string, parentCount: nat)

  /** A temporary variable: its name and `str(tv)`. */
  datatype TempVar = TempVar(name: string, repr: string)

  /** A substitution rule: its name and `str(rule)`. */
  datatype Rule = Rule(name: string, repr: string)

  /** What the serializer distinguishes between instruction classes.
      `MultiAssign` stands for `lp.MultiAssignmentBase`; its `atomicity` is
      that of an `lp.Assignment`, and empty for other subclasses. */
  datatype InsnKind =
    | MultiAssign(assignees: seq<string>, expression: string, atomicity: seq<string>)
    | CInsn(assignees: seq<string>, readVariables: seq<string>,
            inameExprs: seq<(string, string)>, code: string)
    | Barrier(barrierKind: string)
    | NoOp
    | Other(typeName: string)

  datatype Insn = Insn(
    id: string,
    dependsOn: seq<string>,
    kind: InsnKind,
    inames: set<string>,
    priority: int,
    tags: seq<string>,
    groups: seq<string>,
    conflictsWithGroups: seq<string>,
    noSyncWith: seq<(string, string)>,
    predicates: seq<string>)

  /** The colour codes `Fore.GREEN`, `Fore.CYAN`, `Fore.MAGENTA`, `Style.RESET_ALL`
      of the kernel options (empty strings when colours are off). */
  datatype Palette = Palette(green: string, cyan: string, magenta: string, reset: string)

  datatype Kernel = Kernel(
    name: string,
    args: seq<Arg>,
    domains: seq<Domain>,
    inames: seq<string>,
    inameTags: map<string, seq<string>>,
    temporaries: seq<TempVar>,
    substitutions: seq<Rule>,
    instructions: seq<Insn>,
    inameOrder: seq<string>,
    schedule: Option<string>,
    palette: Palette)

  /** The ids of the kernel's instructions (the keys of `id_to_insn`). */
  function Ids(k: Kernel): set<string> {
    set x | x in k.instructions :: x.id
  }

  /** `kernel.id_to_insn.get(id)`. */
  function Lookup(k: Kernel, id: string): (r: Option<Insn>)
    ensures r.Some? ==> r.value in k.instructions && r.value.id == id
    ensures r.None? <==> id !in Ids(k)
  {
    LookupIn(k.instructions, id)
  }

  function LookupIn(insns: seq<Insn>, id: string): (r: Option<Insn>)
    ensures r.Some? ==> r.value in insns && r.value.id == id
    ensures r.None? <==> forall x :: x in insns ==> x.id != id
    decreases |insns|
  {
    if insns == [] then None
    else if insns[0].id == id then Some(insns[0])
    else LookupIn(insns[1..], id)
  }

  /** What loopy guarantees of a kernel and the serializer relies on:
      instruction ids are unique, every identifier is a name (so natural-order
      comparisons never mix an integer with a string), and the printing order
      of inames lists every iname of every instruction once. */
  predicate WellFormed(k: Kernel) {
    && (forall i, j :: 0 <= i < j < |k.instructions| ==> k.instructions[i].id != k.instructions[j].id)
    && (forall x :: x in k.instructions ==> NameLike(x.id))
    && (forall x, d :: x in k.instructions && d in x.dependsOn ==> NameLike(d))
    && (forall a :: a in k.args ==> NameLike(a.name))
    && (forall n :: n in k.inames ==> NameLike(n))
    && (forall t :: t in k.temporaries ==> NameLike(t.name))
    && (forall r :: r in k.substitutions ==> NameLike(r.name))
    && (forall i, j :: 0 <= i < j < |k.inameOrder| ==> k.inameOrder[i] != k.inameOrder[j])
    && (forall x, n :: x in k.instructions && n in x.inames ==> n in k.inameOrder)
  }

  /** Two instructions with the same id are the same instruction. */
  lemma UniqueIds(k: Kernel, x: Insn, y: Insn)
    requires WellFormed(k) && x in k.instructions && y in k.instructions && x.id == y.id
    ensures x == y
  {
    var i :| 0 <= i < |k.instructions| && k.instructions[i] == x;
    var j :| 0 <= j < |k.instructions| && k.instructions[j] == y;
    if i < j {
    } else if j < i {
    }
  }
}
