/** The sections of the kernel snapshot other than the instruction listing
    (floopy/loopy_bits.py, `knl_to_json`): arguments, domains, tags, temporary
    variables, substitution rules and dependency lines. Each is specified by a
    function and built by a method with the source's loop. */
module Sections {
  import opened Results
  import opened Text
  import opened NaturalOrder
  import opened KernelModel

  /** What building a section can raise: `UnboundLocalError` for `typ` when
      the first argument is neither a value nor a global argument. */
  datatype SectionError = UnboundType

  /** One row of `p_arguments`: `[arg_name, str(arg), typ]`. */
  datatype ArgRow = ArgRow(name: string, repr: string, typ: string)

  // --------------------------------------------------------------- arguments

  function ArgName(a: Arg): string { a.name }

  /** `natsorted(kernel.arg_dict)`, each name with its argument. */
  function SortedArgs(k: Kernel): (r: seq<Arg>)
    requires WellFormed(k)
    ensures multiset(r) == multiset(k.args)
    ensures forall i, j :: 0 <= i < j < |r| ==> !Less(NatOrder(r[j].name), NatOrder(r[i].name))
  {
    assert KeysNameLike(k.args, ArgName) by {
      forall i | 0 <= i < |k.args| ensures NameLike(ArgName(k.args[i])) {
        assert k.args[i] in k.args;
      }
    }
    NatSorted(k.args, ArgName)
  }

  /** The value `typ` has after classifying an argument: set for value and
      global arguments, left as it was for any other. */
  function ArgLabel(kind: ArgKind, previous: Option<string>): Option<string> {
    match kind
    case ValueArg => Some("value")
    case GlobalArg => Some("global")
    case OtherSpaceArg => previous
  }

  /** The loop over the arguments: the rows so far and the current `typ`. */
  function ArgFold(args: seq<Arg>): Result<(seq<ArgRow>, Option<string>), SectionError>
    decreases |args|
  {
    if args == [] then Ok(([], None))
    else
      match ArgFold(args[..|args| - 1])
      case Err(e) => Err(e)
      case Ok(acc) =>
        var a := args[|args| - 1];
        var typ := ArgLabel(a.kind, acc.1);
        if typ.None? then Err(UnboundType)
        else Ok((acc.0 + [ArgRow(a.name, a.repr, typ.value)], typ))
  }

  function KindLabel(kind: ArgKind): string {
    if kind.ValueArg? then "value" else "global"
  }

  /** With only value and global arguments, each argument gets one row with
      its own name, text and kind. */
  lemma {:induction false} ArgFoldLabels(args: seq<Arg>)
    requires forall i :: 0 <= i < |args| ==> !args[i].kind.OtherSpaceArg?
    ensures ArgFold(args).Ok?
    ensures |ArgFold(args).value.0| == |args|
    ensures forall i :: 0 <= i < |args| ==>
              ArgFold(args).value.0[i] == ArgRow(args[i].name, args[i].repr, KindLabel(args[i].kind))
    decreases |args|
  {
    if args != [] {
      var init := args[..|args| - 1];
      ArgFoldLabels(init);
      var acc := ArgFold(init).value;
      var r := ArgFold(args).value.0;
      forall i | 0 <= i < |args|
        ensures r[i] == ArgRow(args[i].name, args[i].repr, KindLabel(args[i].kind))
      {
        if i < |init| {
          assert r[i] == acc.0[i] && init[i] == args[i];
        }
      }
    }
  }

  /** An argument in another address space after a global one is labelled
      `global` too: `typ` keeps its value from the previous iteration. */
  lemma StaleLabel(a: Arg, b: Arg)
    requires a.kind == GlobalArg && b.kind == OtherSpaceArg
    ensures ArgFold([a, b]) == Ok(([ArgRow(a.name, a.repr, "global"), ArgRow(b.name, b.repr, "global")], Some("global")))
  {
    assert [a, b][..1] == [a];
    assert [a][..0] == [];
    assert ArgFold([a][..0]) == Ok(([], None));
    var ra := ArgRow(a.name, a.repr, "global");
    assert [] + [ra] == [ra];
    var rb := ArgRow(b.name, b.repr, "global");
    assert [ra] + [rb] == [ra, rb];
    assert [a, b][|[a, b]| - 1] == b;
    assert ArgFold([a]) == Ok(([ArgRow(a.name, a.repr, "global")], Some("global")));
  }

  /** When the first argument is in another address space, `typ` is read
      before it is ever assigned. */
  lemma {:induction false} FirstUnlabelledRaises(args: seq<Arg>)
    requires args != [] && args[0].kind == OtherSpaceArg
    ensures ArgFold(args) == Err(UnboundType)
    decreases |args|
  {
    if |args| > 1 {
      var init := args[..|args| - 1];
      assert init[0] == args[0];
      FirstUnlabelledRaises(init);
    } else {
      assert args[..0] == [];
    }
  }

  /** Once the loop has raised, the rest of the arguments do not matter. */
  lemma {:induction false} ArgFoldErrStays(args: seq<Arg>, n: nat)
    requires n <= |args| && ArgFold(args[..n]).Err?
    ensures ArgFold(args) == ArgFold(args[..n])
    decreases |args| - n
  {
    if n < |args| {
      var init := args[..|args| - 1];
      assert init[..n] == args[..n];
      ArgFoldErrStays(init, n);
    } else {
      assert args[..n] == args;
    }
  }

  /** One more iteration of the loop over the arguments. */
  lemma ArgFoldStep(args: seq<Arg>, i: nat, rows: seq<ArgRow>, typ: Option<string>)
    requires i < |args| && ArgFold(args[..i]) == Ok((rows, typ))
    ensures var t := ArgLabel(args[i].kind, typ);
            ArgFold(args[..i + 1])
            == if t.None? then Err(UnboundType) else Ok((rows + [ArgRow(args[i].name, args[i].repr, t.value)], t))
  {
    assert args[..i + 1][..i] == args[..i];
  }

  /** `p_arguments`. */
  function ArgumentRows(k: Kernel): Result<seq<ArgRow>, SectionError>
    requires WellFormed(k)
  {
    match ArgFold(SortedArgs(k))
    case Err(e) => Err(e)
    case Ok(acc) => Ok(acc.0)
  }

  /** The loop of the `arguments` section, `typ` a local that survives
      iterations. */
  method BuildArguments(k: Kernel) returns (r: Result<seq<ArgRow>, SectionError>)
    requires WellFormed(k)
    ensures r == ArgumentRows(k)
  {
    var args := SortedArgs(k);
    var rows: seq<ArgRow> := [];
    var typ: Option<string> := None;
    var i := 0;
    while i < |args|
      invariant 0 <= i <= |args|
      invariant ArgFold(args[..i]) == Ok((rows, typ))
    {
      ArgFoldStep(args, i, rows, typ);
      var a := args[i];
      if a.kind.ValueArg? {
        typ := Some("value");
      } else if a.kind.GlobalArg? {
        typ := Some("global");
      }
      if typ.None? {
        ArgFoldErrStays(args, i + 1);
        return Err(UnboundType);
      }
      rows := rows + [ArgRow(a.name, a.repr, typ.value)];
      i := i + 1;
    }
    assert args[..|args|] == args;
    return Ok(rows);
  }

  // ----------------------------------------------------------------- domains

  /** `len(parents)*"  " + str(dom)`. */
  function DomainRow(d: Domain): string {
    Spaces(2 * d.parentCount) + d.repr
  }

  /** The number of spaces a string starts with. */
  function LeadingSpaces(s: string): (n: nat)
    ensures n <= |s| && forall i :: 0 <= i < n ==> s[i] == ' '
    ensures n < |s| ==> s[n] != ' '
    decreases |s|
  {
    if s != [] && s[0] == ' ' then 1 + LeadingSpaces(s[1..]) else 0
  }

  /** The indentation of a domain row gives back its number of parents. */
  lemma DomainIndent(d: Domain)
    requires d.repr == [] || d.repr[0] != ' '
    ensures LeadingSpaces(DomainRow(d)) == 2 * d.parentCount
    ensures DomainRow(d)[2 * d.parentCount..] == d.repr
  {
  }

  function DomainRows(k: Kernel): (r: seq<string>)
    ensures |r| == |k.domains|
    ensures forall i :: 0 <= i < |r| ==> r[i] == DomainRow(k.domains[i])
  {
    seq(|k.domains|, i requires 0 <= i < |k.domains| => DomainRow(k.domains[i]))
  }

  /** The loop of the `domains` section. */
  method BuildDomains(k: Kernel) returns (rows: seq<string>)
    ensures rows == DomainRows(k)
  {
    rows := [];
    var i := 0;
    while i < |k.domains|
      invariant 0 <= i <= |k.domains|
      invariant rows == DomainRows(k)[..i]
    {
      rows := rows + [DomainRow(k.domains[i])];
      i := i + 1;
    }
  }

  // -------------------------------------------------------------------- tags

  /** `kernel.iname_to_tag.get(iname, frozenset())`, as a list of strings. */
  function TagsOf(k: Kernel, iname: string): seq<string> {
    if iname in k.inameTags then k.inameTags[iname] else []
  }

  function SortedInames(k: Kernel): (r: seq<string>)
    requires WellFormed(k)
    ensures multiset(r) == multiset(k.inames)
    ensures forall i, j :: 0 <= i < j < |r| ==> !Less(NatOrder(r[j]), NatOrder(r[i]))
  {
    assert KeysNameLike(k.inames, Identity) by {
      forall i | 0 <= i < |k.inames| ensures NameLike(Identity(k.inames[i])) {
        assert k.inames[i] in k.inames;
      }
    }
    NatSorted(k.inames, Identity)
  }

  /** `p_tags`: a row per iname, in natural order, with its tags; an iname
      without tags has an empty list rather than no row. */
  function TagRows(k: Kernel): (r: seq<(string, seq<string>)>)
    requires WellFormed(k)
    ensures |r| == |k.inames|
    ensures forall i :: 0 <= i < |r| ==> r[i] == (SortedInames(k)[i], TagsOf(k, SortedInames(k)[i]))
  {
    var names := SortedInames(k);
    assert |names| == |multiset(names)| == |multiset(k.inames)| == |k.inames|;
    seq(|names|, i requires 0 <= i < |names| => (names[i], TagsOf(k, names[i])))
  }

  /** Every iname of the kernel has a row and every row is an iname's, the rows
      go in natural order of inames and each carries its iname's tags. */
  lemma TagRowsSpec(k: Kernel)
    requires WellFormed(k)
    ensures forall n :: n in k.inames <==> exists i :: 0 <= i < |TagRows(k)| && TagRows(k)[i].0 == n
    ensures forall i :: 0 <= i < |TagRows(k)| ==> TagRows(k)[i].1 == TagsOf(k, TagRows(k)[i].0)
    ensures forall i, j :: 0 <= i < j < |TagRows(k)| ==> !Less(NatOrder(TagRows(k)[j].0), NatOrder(TagRows(k)[i].0))
  {
    var names := SortedInames(k);
    var r := TagRows(k);
    forall n ensures n in k.inames <==> exists i :: 0 <= i < |r| && r[i].0 == n {
      assert n in k.inames <==> n in multiset(names);
      if n in names {
        var i :| 0 <= i < |names| && names[i] == n;
        assert r[i].0 == n;
      }
    }
  }

  /** An iname without tags is listed with an empty tag list. */
  lemma UntaggedListed(k: Kernel, n: string)
    requires WellFormed(k) && n in k.inames && n !in k.inameTags
    ensures exists i :: 0 <= i < |TagRows(k)| && TagRows(k)[i] == (n, [])
  {
    TagRowsSpec(k);
    var r := TagRows(k);
    var i :| 0 <= i < |r| && r[i].0 == n;
    assert r[i] == (n, []);
  }

  /** The loop of the `tags` section. */
  method BuildTags(k: Kernel) returns (rows: seq<(string, seq<string>)>)
    requires WellFormed(k)
    ensures rows == TagRows(k)
  {
    var names := SortedInames(k);
    assert |names| == |multiset(names)| == |k.inames|;
    rows := [];
    var i := 0;
    while i < |names|
      invariant 0 <= i <= |names|
      invariant rows == TagRows(k)[..i]
    {
      var tags := TagsOf(k, names[i]);
      if tags == [] {
        rows := rows + [(names[i], [])];
      } else {
        rows := rows + [(names[i], tags)];
      }
      i := i + 1;
    }
  }

  // ------------------------------------------------------ variables and rules

  function TempName(t: TempVar): string { t.name }

  /** The temporaries in natural order of their names, as `natsorted`
      leaves them. */
  function SortedTemporaries(k: Kernel): (r: seq<TempVar>)
    requires WellFormed(k)
    ensures multiset(r) == multiset(k.temporaries) && |r| == |k.temporaries|
    ensures forall i, j :: 0 <= i < j < |r| ==> !Less(NatOrder(r[j].name), NatOrder(r[i].name))
  {
    assert KeysNameLike(k.temporaries, TempName) by {
      forall i | 0 <= i < |k.temporaries| ensures NameLike(TempName(k.temporaries[i])) {
        assert k.temporaries[i] in k.temporaries;
      }
    }
    var r := NatSorted(k.temporaries, TempName);
    assert |r| == |multiset(r)| == |k.temporaries|;
    r
  }

  /** `p_variables`: the text of every temporary, in natural order of names. */
  function VariableRows(k: Kernel): (r: seq<string>)
    requires WellFormed(k)
    ensures |r| == |k.temporaries|
    ensures forall i :: 0 <= i < |r| ==> r[i] == SortedTemporaries(k)[i].repr
  {
    var sorted := SortedTemporaries(k);
    seq(|sorted|, i requires 0 <= i < |sorted| => sorted[i].repr)
  }

  /** The loop of the `variables` section. */
  method BuildVariables(k: Kernel) returns (rows: seq<string>)
    requires WellFormed(k)
    ensures rows == VariableRows(k)
  {
    var sorted := SortedTemporaries(k);
    rows := [];
    var i := 0;
    while i < |sorted|
      invariant 0 <= i <= |sorted|
      invariant rows == VariableRows(k)[..i]
    {
      rows := rows + [sorted[i].repr];
      i := i + 1;
    }
    assert rows == VariableRows(k)[..|sorted|];
  }

  function RuleName(r: Rule): string { r.name }

  /** `p_rules`: every substitution rule once, as (name, text), in natural
      order of names. */
  function RuleRows(k: Kernel): (r: seq<(string, string)>)
    requires WellFormed(k)
    ensures multiset(seq(|r|, i requires 0 <= i < |r| => Rule(r[i].0, r[i].1))) == multiset(k.substitutions)
    ensures forall i, j :: 0 <= i < j < |r| ==> !Less(NatOrder(r[j].0), NatOrder(r[i].0))
  {
    var sorted := SortedRules(k);
    var r := seq(|sorted|, i requires 0 <= i < |sorted| => (sorted[i].name, sorted[i].repr));
    assert seq(|r|, i requires 0 <= i < |r| => Rule(r[i].0, r[i].1)) == sorted;
    r
  }

  function SortedRules(k: Kernel): (r: seq<Rule>)
    requires WellFormed(k)
    ensures multiset(r) == multiset(k.substitutions)
    ensures forall i, j :: 0 <= i < j < |r| ==> !Less(NatOrder(r[j].name), NatOrder(r[i].name))
  {
    assert KeysNameLike(k.substitutions, RuleName) by {
      forall i | 0 <= i < |k.substitutions| ensures NameLike(RuleName(k.substitutions[i])) {
        assert k.substitutions[i] in k.substitutions;
      }
    }
    NatSorted(k.substitutions, RuleName)
  }

  /** The loop of the `rules` section. */
  method BuildRules(k: Kernel) returns (rows: seq<(string, string)>)
    requires WellFormed(k)
    ensures rows == RuleRows(k)
  {
    var sorted := SortedRules(k);
    rows := [];
    var i := 0;
    while i < |sorted|
      invariant 0 <= i <= |sorted|
      invariant |rows| == i && forall j :: 0 <= j < i ==> rows[j] == (sorted[j].name, sorted[j].repr)
    {
      rows := rows + [(sorted[i].name, sorted[i].repr)];
      i := i + 1;
    }
  }

  // ------------------------------------------------------- dependency lines

  /** `"%s : %s" % (insn.id, ",".join(insn.depends_on))`. */
  function DepLine(x: Insn): string {
    x.id + " : " + Join(",", x.dependsOn)
  }

  /** `dep_lines` after the loop over `insns`. */
  function DepLines(insns: seq<Insn>): seq<string>
    decreases |insns|
  {
    if insns == [] then []
    else
      var x := insns[|insns| - 1];
      DepLines(insns[..|insns| - 1]) + (if x.dependsOn != [] then [DepLine(x)] else [])
  }

  /** The instructions that have dependencies, in their order. */
  function WithDeps(insns: seq<Insn>): (r: seq<Insn>)
    ensures forall x :: x in r <==> x in insns && x.dependsOn != []
    decreases |insns|
  {
    if insns == [] then []
    else (if insns[0].dependsOn != [] then [insns[0]] else []) + WithDeps(insns[1..])
  }

  lemma {:induction false} WithDepsAppend(a: seq<Insn>, x: Insn)
    ensures WithDeps(a + [x]) == WithDeps(a) + (if x.dependsOn != [] then [x] else [])
    decreases |a|
  {
    if a == [] {
      assert a + [x] == [x];
      assert [x][1..] == [];
    } else {
      assert (a + [x])[1..] == a[1..] + [x];
      WithDepsAppend(a[1..], x);
    }
  }

  /** One dependency line per instruction with dependencies, in kernel order. */
  lemma {:induction false} DepLinesInOrder(insns: seq<Insn>)
    ensures |DepLines(insns)| == |WithDeps(insns)|
    ensures forall i :: 0 <= i < |DepLines(insns)| ==> DepLines(insns)[i] == DepLine(WithDeps(insns)[i])
    decreases |insns|
  {
    if insns != [] {
      var init := insns[..|insns| - 1];
      var x := insns[|insns| - 1];
      DepLinesInOrder(init);
      assert insns == init + [x];
      WithDepsAppend(init, x);
    }
  }

  /** A dependency line reads back as the id, the separator `" : "` and the
      comma-separated dependency ids. */
  lemma DepLineRoundTrip(x: Insn)
    requires x.dependsOn != []
    requires forall i :: 0 <= i < |x.dependsOn| ==> ',' !in x.dependsOn[i]
    ensures var line := DepLine(x);
            && |line| >= |x.id| + 3
            && line[..|x.id|] == x.id
            && line[|x.id|..|x.id| + 3] == " : "
            && Split(line[|x.id| + 3..], ',') == x.dependsOn
  {
    var line := DepLine(x);
    assert line[|x.id| + 3..] == Join(",", x.dependsOn);
    SplitJoin(x.dependsOn, ',');
  }

  /** The loop that fills `dep_lines`. */
  method BuildDepLines(k: Kernel) returns (lines: seq<string>)
    ensures lines == DepLines(k.instructions)
  {
    lines := [];
    var i := 0;
    while i < |k.instructions|
      invariant 0 <= i <= |k.instructions|
      invariant lines == DepLines(k.instructions[..i])
    {
      var x := k.instructions[i];
      assert k.instructions[..i + 1][..i] == k.instructions[..i];
      if x.dependsOn != [] {
        lines := lines + [DepLine(x)];
      }
      i := i + 1;
    }
    assert k.instructions[..|k.instructions|] == k.instructions;
  }
}
