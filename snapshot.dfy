/** The kernel snapshot `knl_to_json` returns (floopy/loopy_bits.py): a
    dictionary from `p_...` keys to the requested sections, or `None` for a
    missing kernel. */
module Snapshot {
  import opened Results
  import opened Text
  import opened KernelModel
  import opened InsnOrder
  import opened InsnRows
  import opened Sections
  import opened Selection

  /** The exceptions `knl_to_json` can raise. */
  datatype SnapshotError =
    | SelectionFailed(selection: SelectionError)
    | SectionFailed(section: SectionError)
    | MissingDependency(id: string)
    | RowFailed(row: RowError)

  /** A key of the `lines` dictionary; `KeyName` gives its text. */
  datatype Key = PName | PArguments | PDomains | PTags | PVariables | PRules | PInstructions
               | PDependencies | PSchedule

  function KeyName(key: Key): string {
    match key
    case PName => "p_name"
    case PArguments => "p_arguments"
    case PDomains => "p_domains"
    case PTags => "p_tags"
    case PVariables => "p_variables"
    case PRules => "p_rules"
    case PInstructions => "p_instructions"
    case PDependencies => "p_dependencies"
    case PSchedule => "p_schedule"
  }

  /** A value of the `lines` dictionary. */
  datatype Entry =
    | Text(text: string)
    | Lines(lines: seq<string>)
    | Args(args: seq<ArgRow>)
    | Tags(tags: seq<(string, seq<string>)>)
    | Pairs(pairs: seq<(string, string)>)

  /** `draw_dependencies_as_unicode_arrows`: an `(arrows, extender)` pair for
      each printed instruction (its own code is not part of this model). */
  type Drawing = seq<Insn> -> seq<(string, string)>

  // ------------------------------------------------------------ instructions

  /** `zip(printed_insn_order, deps)`, as long as the shorter of the two. */
  function Zip(order: seq<Insn>, draws: seq<(string, string)>): (r: seq<(Insn, (string, string))>)
    ensures |r| == if |order| < |draws| then |order| else |draws|
    ensures forall i :: 0 <= i < |r| ==> r[i] == (order[i], draws[i])
  {
    var n := if |order| < |draws| then |order| else |draws|;
    seq(n, i requires 0 <= i < n => (order[i], draws[i]))
  }

  /** The formatting of one zipped instruction. */
  type Format = ((Insn, (string, string))) -> Result<seq<string>, RowError>

  function RowsOf(k: Kernel): Format {
    (p: (Insn, (string, string))) => InsnRowsFor(k, p.0, p.1.0, p.1.1)
  }

  /** The rows of the zipped instructions, left to right; the first
      instruction that cannot be formatted raises. */
  function RowsFold(f: Format, pairs: seq<(Insn, (string, string))>): Result<seq<string>, RowError>
    decreases |pairs|
  {
    if pairs == [] then Ok([])
    else
      match RowsFold(f, pairs[..|pairs| - 1])
      case Err(e) => Err(e)
      case Ok(rows) =>
        match f(pairs[|pairs| - 1])
        case Err(e) => Err(e)
        case Ok(more) => Ok(rows + more)
  }

  /** The listing succeeds exactly when every zipped instruction can be
      formatted, and is then the rows of each instruction one after another. */
  lemma {:induction false} RowsFoldBlocks(f: Format, pairs: seq<(Insn, (string, string))>)
    ensures RowsFold(f, pairs).Ok? <==> forall i :: 0 <= i < |pairs| ==> f(pairs[i]).Ok?
    ensures RowsFold(f, pairs).Ok? ==>
              RowsFold(f, pairs).value
              == Concat(seq(|pairs|, i requires 0 <= i < |pairs| && f(pairs[i]).Ok? => f(pairs[i]).value))
    decreases |pairs|
  {
    if pairs != [] {
      var init := pairs[..|pairs| - 1];
      var last := pairs[|pairs| - 1];
      RowsFoldBlocks(f, init);
      forall i | 0 <= i < |init| ensures init[i] == pairs[i] {
      }
      if RowsFold(f, pairs).Ok? {
        var blocks := seq(|pairs|, i requires 0 <= i < |pairs| && f(pairs[i]).Ok? => f(pairs[i]).value);
        var initBlocks := seq(|init|, i requires 0 <= i < |init| && f(init[i]).Ok? => f(init[i]).value);
        assert blocks == initBlocks + [f(last).value];
        ConcatAppend(initBlocks, [f(last).value]);
        assert Concat([f(last).value]) == f(last).value;
      } else if RowsFold(f, init).Ok? {
        assert !f(pairs[|pairs| - 1]).Ok?;
      }
    }
  }

  /** `p_instructions`: the rows of the instructions in printing order. */
  function InstructionRows(k: Kernel, draw: Drawing): Result<seq<string>, SnapshotError>
    requires WellFormed(k)
  {
    match DfsOrder(k)
    case Err(id) => Err(MissingDependency(id))
    case Ok(order) =>
      match RowsFold(RowsOf(k), Zip(order, draw(order)))
      case Err(e) => Err(RowFailed(e))
      case Ok(rows) => Ok(rows)
  }

  /** The `instructions` section: the walk, then the loop over the zipped
      instructions and arrows. */
  method BuildInstructions(k: Kernel, draw: Drawing) returns (r: Result<seq<string>, SnapshotError>)
    requires WellFormed(k)
    ensures r == InstructionRows(k, draw)
  {
    var order := PrintingOrder(k);
    if order.Err? {
      return Err(MissingDependency(order.error));
    }
    var pairs := Zip(order.value, draw(order.value));
    var f := RowsOf(k);
    var rows: seq<string> := [];
    var i := 0;
    while i < |pairs|
      invariant 0 <= i <= |pairs|
      invariant RowsFold(f, pairs[..i]) == Ok(rows)
    {
      RowsFoldStep(f, pairs, i, rows);
      var more := f(pairs[i]);
      if more.Err? {
        RowsFoldErrStays(f, pairs, i + 1);
        return Err(RowFailed(more.error));
      }
      rows := rows + more.value;
      i := i + 1;
    }
    assert pairs[..|pairs|] == pairs;
    return Ok(rows);
  }

  /** One more zipped instruction: its rows are appended, or its error raised. */
  lemma RowsFoldStep(f: Format, pairs: seq<(Insn, (string, string))>, i: nat, rows: seq<string>)
    requires i < |pairs| && RowsFold(f, pairs[..i]) == Ok(rows)
    ensures f(pairs[i]).Err? ==> RowsFold(f, pairs[..i + 1]) == Err(f(pairs[i]).error)
    ensures f(pairs[i]).Ok? ==> RowsFold(f, pairs[..i + 1]) == Ok(rows + f(pairs[i]).value)
  {
    assert pairs[..i + 1][..i] == pairs[..i];
  }

  lemma {:induction false} RowsFoldErrStays(f: Format, pairs: seq<(Insn, (string, string))>, n: nat)
    requires n <= |pairs| && RowsFold(f, pairs[..n]).Err?
    ensures RowsFold(f, pairs) == RowsFold(f, pairs[..n])
    decreases |pairs| - n
  {
    if n < |pairs| {
      var init := pairs[..|pairs| - 1];
      assert init[..n] == pairs[..n];
      RowsFoldErrStays(f, init, n);
    } else {
      assert pairs[..n] == pairs;
    }
  }

  // ---------------------------------------------------------------- assembly

  /** Every section of a kernel, computed whether requested or not; the
      assembly below looks only at the requested ones. */
  datatype Contents = Contents(
    name: string,
    args: Result<seq<ArgRow>, SectionError>,
    domains: seq<string>,
    tags: seq<(string, seq<string>)>,
    variables: seq<string>,
    rules: seq<(string, string)>,
    instructions: Result<seq<string>, SnapshotError>,
    depLines: seq<string>,
    schedule: Option<string>)

  function ContentsOf(k: Kernel, draw: Drawing): (c: Contents)
    requires WellFormed(k)
    ensures c.variables == [] <==> k.temporaries == []
    ensures c.rules == [] <==> k.substitutions == []
    ensures c.depLines == [] <==> WithDeps(k.instructions) == []
  {
    DepLinesInOrder(k.instructions);
    Contents(k.name, ArgumentRows(k), DomainRows(k), TagRows(k), VariableRows(k), RuleRows(k),
             InstructionRows(k, draw), DepLines(k.instructions), k.schedule)
  }

  /** `lines[key] = e` when `present`. */
  function Put(m: map<Key, Entry>, present: bool, key: Key, e: Entry): map<Key, Entry> {
    if present then m[key := e] else m
  }

  /** Whether `knl_to_json` writes `key`: the section is requested and, for
      variables, rules, dependency lines and the schedule, there is something
      to show. */
  predicate Wanted(sections: set<string>, c: Contents, key: Key) {
    match key
    case PName => "name" in sections
    case PArguments => "arguments" in sections
    case PDomains => "domains" in sections
    case PTags => "tags" in sections
    case PVariables => "variables" in sections && c.variables != []
    case PRules => "rules" in sections && c.rules != []
    case PInstructions => "instructions" in sections
    case PDependencies => "Dependencies" in sections && c.depLines != []
    case PSchedule => "schedule" in sections && c.schedule.Some?
  }

  /** What `knl_to_json` writes under `key`. */
  function EntryOf(c: Contents, key: Key): Entry {
    match key
    case PName => Text(c.name)
    case PArguments => Args(if c.args.Ok? then c.args.value else [])
    case PDomains => Lines(c.domains)
    case PTags => Tags(c.tags)
    case PVariables => Lines(c.variables)
    case PRules => Pairs(c.rules)
    case PInstructions => Lines(if c.instructions.Ok? then c.instructions.value else [])
    case PDependencies => Lines(c.depLines)
    case PSchedule => Text(if c.schedule.Some? then c.schedule.value else "")
  }

  /** The place of `key` among the statements of `knl_to_json`. */
  function Rank(key: Key): nat {
    match key
    case PName => 0
    case PArguments => 1
    case PDomains => 2
    case PTags => 3
    case PVariables => 4
    case PRules => 5
    case PInstructions => 6
    case PDependencies => 7
    case PSchedule => 8
  }

  /** `lines` after the first `n` section statements. */
  function Upto(sections: set<string>, c: Contents, n: nat): map<Key, Entry> {
    map key | Wanted(sections, c, key) && Rank(key) < n :: EntryOf(c, key)
  }

  /** One more section statement writes one more key. */
  lemma UptoStep(sections: set<string>, c: Contents, key: Key)
    ensures Upto(sections, c, Rank(key) + 1)
            == Put(Upto(sections, c, Rank(key)), Wanted(sections, c, key), key, EntryOf(c, key))
  {
    var a := Upto(sections, c, Rank(key) + 1);
    var b := Put(Upto(sections, c, Rank(key)), Wanted(sections, c, key), key, EntryOf(c, key));
    forall x ensures x in a <==> x in b {
      assert Rank(x) == Rank(key) ==> x == key;
    }
  }

  /** The same step, spelled out for a caller that has computed the entry. */
  lemma PutStep(sections: set<string>, c: Contents, key: Key, n: nat, lines: map<Key, Entry>,
                present: bool, e: Entry)
    requires Rank(key) == n && lines == Upto(sections, c, n)
    requires present == Wanted(sections, c, key) && (present ==> e == EntryOf(c, key))
    ensures Put(lines, present, key, e) == Upto(sections, c, n + 1)
  {
    UptoStep(sections, c, key);
  }

  /** The `lines` dictionary for the resolved sections: the first requested
      section that raises decides the error. */
  function Assemble(sections: set<string>, c: Contents): Result<map<Key, Entry>, SnapshotError> {
    if "arguments" in sections && c.args.Err? then Err(SectionFailed(c.args.error))
    else if "instructions" in sections && c.instructions.Err? then Err(c.instructions.error)
    else Ok(Upto(sections, c, 9))
  }

  /** `knl_to_json(knl, what, with_dependencies)`. */
  function KnlToJsonSpec(knl: Option<Kernel>, what: What, withDeps: bool, draw: Drawing)
    : (r: Option<Result<map<Key, Entry>, SnapshotError>>)
    requires knl.Some? ==> WellFormed(knl.value)
    ensures r.None? <==> knl.None?
  {
    if knl.None? then None
    else
      match Resolve(what, withDeps)
      case Err(e) => Some(Err(SelectionFailed(e)))
      case Ok(sections) => Some(Assemble(sections, ContentsOf(knl.value, draw)))
  }

  /** The composite uses the intended check of `what`; the code as written
      (`ResolveAsWritten`) selects the same sections, and fails exactly where
      the composite reports a selection error; for names that are not
      sections it raises the `NameError` for `LoopyError` instead. */
  lemma SelectionAsWritten(k: Kernel, what: What, withDeps: bool, draw: Drawing)
    requires WellFormed(k)
    ensures var r := KnlToJsonSpec(Some(k), what, withDeps, draw).value;
            && (ResolveAsWritten(what, withDeps).Ok? ==>
                  r == Assemble(ResolveAsWritten(what, withDeps).value, ContentsOf(k, draw)))
            && (r.Err? && r.error.SelectionFailed? <==> ResolveAsWritten(what, withDeps).Err?)
            && (r.Err? && r.error.SelectionFailed? && r.error.selection.InvalidWhat?
                <==> ResolveAsWritten(what, withDeps) == Err(WhatNameError("LoopyError")))
  {
    LoopyErrorUndefined(what, withDeps);
    InstructionRowsErrors(k, draw);
  }

  /** The snapshot holds exactly the requested sections, except that variables,
      rules and dependency lines are left out when there are none and the
      schedule when the kernel has none. */
  lemma AssembleKeys(sections: set<string>, c: Contents)
    requires Assemble(sections, c).Ok?
    ensures var m := Assemble(sections, c).value;
            && (PName in m <==> "name" in sections)
            && (PArguments in m <==> "arguments" in sections)
            && (PDomains in m <==> "domains" in sections)
            && (PTags in m <==> "tags" in sections)
            && (PVariables in m <==> "variables" in sections && c.variables != [])
            && (PRules in m <==> "rules" in sections && c.rules != [])
            && (PInstructions in m <==> "instructions" in sections)
            && (PDependencies in m <==> "Dependencies" in sections && c.depLines != [])
            && (PSchedule in m <==> "schedule" in sections && c.schedule.Some?)
  {
  }

  lemma SnapshotKeys(k: Kernel, sections: set<string>, draw: Drawing)
    requires WellFormed(k)
    requires Assemble(sections, ContentsOf(k, draw)).Ok?
    ensures var m := Assemble(sections, ContentsOf(k, draw)).value;
            && (PVariables in m <==> "variables" in sections && k.temporaries != [])
            && (PRules in m <==> "rules" in sections && k.substitutions != [])
            && (PDependencies in m <==> "Dependencies" in sections && WithDeps(k.instructions) != [])
            && (PSchedule in m <==> "schedule" in sections && k.schedule.Some?)
  {
    AssembleKeys(sections, ContentsOf(k, draw));
  }

  /** Each key of the snapshot holds its section. */
  lemma AssembleEntries(sections: set<string>, c: Contents)
    requires Assemble(sections, c).Ok?
    ensures var m := Assemble(sections, c).value;
            && (PName in m ==> m[PName] == Text(c.name))
            && (PArguments in m ==> c.args.Ok? && m[PArguments] == Args(c.args.value))
            && (PDomains in m ==> m[PDomains] == Lines(c.domains))
            && (PTags in m ==> m[PTags] == Tags(c.tags))
            && (PVariables in m ==> m[PVariables] == Lines(c.variables))
            && (PRules in m ==> m[PRules] == Pairs(c.rules))
            && (PInstructions in m ==> c.instructions.Ok? && m[PInstructions] == Lines(c.instructions.value))
            && (PDependencies in m ==> m[PDependencies] == Lines(c.depLines))
            && (PSchedule in m ==> c.schedule.Some? && m[PSchedule] == Text(c.schedule.value))
  {
  }

  /** The listing fails on a dangling dependency, and otherwise only when a
      row cannot be formatted. */
  lemma InstructionRowsErrors(k: Kernel, draw: Drawing)
    requires WellFormed(k)
    ensures InstructionRows(k, draw).Err? && InstructionRows(k, draw).error.MissingDependency? <==> Dangling(k)
    ensures InstructionRows(k, draw).Err? ==> InstructionRows(k, draw).error.MissingDependency?
                                              || InstructionRows(k, draw).error.RowFailed?
  {
    DfsOrderPermutation(k);
  }

  /** The arguments are looked at before the instructions. */
  lemma AssembleErrors(sections: set<string>, c: Contents)
    ensures "arguments" !in sections && "instructions" !in sections ==> Assemble(sections, c).Ok?
    ensures "arguments" in sections && c.args.Err? ==> Assemble(sections, c) == Err(SectionFailed(c.args.error))
    ensures !("arguments" in sections && c.args.Err?) && "instructions" in sections && c.instructions.Err?
            ==> Assemble(sections, c) == Err(c.instructions.error)
    ensures Assemble(sections, c).Err? ==> ("arguments" in sections && c.args.Err?)
                                           || ("instructions" in sections && c.instructions.Err?)
  {
  }

  /** Only the arguments and the instruction listing can raise, and a dangling
      dependency raises exactly when the listing is requested and the
      arguments did not raise first. */
  lemma SnapshotErrors(k: Kernel, sections: set<string>, draw: Drawing)
    requires WellFormed(k)
    ensures var r := Assemble(sections, ContentsOf(k, draw));
            && ("arguments" !in sections && "instructions" !in sections ==> r.Ok?)
            && (r.Err? && r.error.SectionFailed? ==> "arguments" in sections)
            && (r.Err? && r.error.MissingDependency? ==> "instructions" in sections && Dangling(k))
            && (r.Err? && r.error.RowFailed? ==> "instructions" in sections)
            && ("instructions" in sections && Dangling(k) && !("arguments" in sections && ArgumentRows(k).Err?)
                ==> r.Err? && r.error.MissingDependency?)
  {
    InstructionRowsErrors(k, draw);
    AssembleErrors(sections, ContentsOf(k, draw));
  }

  /** The `name` step of `knl_to_json`. */
  method AddName(k: Kernel, sections: set<string>, lines: map<Key, Entry>, ghost c: Contents)
    returns (r: map<Key, Entry>)
    requires c.name == k.name
    requires lines == Upto(sections, c, 0)
    ensures r == Upto(sections, c, 1)
  {
    r := lines;
    if "name" in sections {
      r := r[PName := Text(k.name)];
    }
    UptoStep(sections, c, PName);
  }

  /** The `schedule` step of `knl_to_json`. */
  method AddSchedule(k: Kernel, sections: set<string>, lines: map<Key, Entry>, ghost c: Contents)
    returns (r: map<Key, Entry>)
    requires c.schedule == k.schedule
    requires lines == Upto(sections, c, 8)
    ensures r == Upto(sections, c, 9)
  {
    r := lines;
    if "schedule" in sections && k.schedule.Some? {
      r := r[PSchedule := Text(k.schedule.value)];
    }
    UptoStep(sections, c, PSchedule);
  }

  /** The `arguments` step of `knl_to_json`: it may raise. */
  method AddArguments(k: Kernel, sections: set<string>, lines: map<Key, Entry>, ghost c: Contents)
    returns (r: Result<map<Key, Entry>, SnapshotError>)
    requires WellFormed(k) && c.args == ArgumentRows(k)
    requires lines == Upto(sections, c, 1)
    ensures "arguments" in sections && c.args.Err? ==> r == Err(SectionFailed(c.args.error))
    ensures !("arguments" in sections && c.args.Err?) ==>
              r == Ok(Upto(sections, c, 2))
  {
    if "arguments" !in sections {
      UptoStep(sections, c, PArguments);
      return Ok(lines);
    }
    var rows := BuildArguments(k);
    if rows.Err? {
      return Err(SectionFailed(rows.error));
    }
    UptoStep(sections, c, PArguments);
    return Ok(lines[PArguments := Args(rows.value)]);
  }

  method AddDomains(k: Kernel, sections: set<string>, lines: map<Key, Entry>, ghost c: Contents)
    returns (r: map<Key, Entry>)
    requires c.domains == DomainRows(k)
    requires lines == Upto(sections, c, 2)
    ensures r == Upto(sections, c, 3)
  {
    r := lines;
    if "domains" in sections {
      var rows := BuildDomains(k);
      r := r[PDomains := Lines(rows)];
    }
    UptoStep(sections, c, PDomains);
  }

  method AddTags(k: Kernel, sections: set<string>, lines: map<Key, Entry>, ghost c: Contents)
    returns (r: map<Key, Entry>)
    requires WellFormed(k) && c.tags == TagRows(k)
    requires lines == Upto(sections, c, 3)
    ensures r == Upto(sections, c, 4)
  {
    r := lines;
    if "tags" in sections {
      var rows := BuildTags(k);
      r := r[PTags := Tags(rows)];
    }
    UptoStep(sections, c, PTags);
  }

  method AddVariables(k: Kernel, sections: set<string>, lines: map<Key, Entry>, ghost c: Contents)
    returns (r: map<Key, Entry>)
    requires WellFormed(k) && c.variables == VariableRows(k)
    requires c.variables == [] <==> k.temporaries == []
    requires lines == Upto(sections, c, 4)
    ensures r == Upto(sections, c, 5)
  {
    var present := "variables" in sections && k.temporaries != [];
    var e := Lines([]);
    if present {
      var rows := BuildVariables(k);
      e := Lines(rows);
    }
    PutStep(sections, c, PVariables, 4, lines, present, e);
    r := Put(lines, present, PVariables, e);
  }

  method AddRules(k: Kernel, sections: set<string>, lines: map<Key, Entry>, ghost c: Contents)
    returns (r: map<Key, Entry>)
    requires WellFormed(k) && c.rules == RuleRows(k)
    requires c.rules == [] <==> k.substitutions == []
    requires lines == Upto(sections, c, 5)
    ensures r == Upto(sections, c, 6)
  {
    r := lines;
    if "rules" in sections && k.substitutions != [] {
      var rows := BuildRules(k);
      r := r[PRules := Pairs(rows)];
    }
    UptoStep(sections, c, PRules);
  }

  method AddDependencies(k: Kernel, sections: set<string>, lines: map<Key, Entry>, ghost c: Contents)
    returns (r: map<Key, Entry>)
    requires c.depLines == DepLines(k.instructions)
    requires c.depLines == [] <==> WithDeps(k.instructions) == []
    requires lines == Upto(sections, c, 7)
    ensures r == Upto(sections, c, 8)
  {
    r := lines;
    if "Dependencies" in sections && WithDeps(k.instructions) != [] {
      var rows := BuildDepLines(k);
      r := r[PDependencies := Lines(rows)];
    }
    UptoStep(sections, c, PDependencies);
  }

  /** The `instructions` step of `knl_to_json`: it may raise. */
  method AddInstructions(k: Kernel, sections: set<string>, draw: Drawing, lines: map<Key, Entry>, ghost c: Contents)
    returns (r: Result<map<Key, Entry>, SnapshotError>)
    requires WellFormed(k) && c.instructions == InstructionRows(k, draw)
    requires lines == Upto(sections, c, 6)
    ensures "instructions" in sections && c.instructions.Err? ==> r == Err(c.instructions.error)
    ensures !("instructions" in sections && c.instructions.Err?) ==>
              r == Ok(Upto(sections, c, 7))
  {
    var present := "instructions" in sections;
    var e := Lines([]);
    if present {
      var rows := BuildInstructions(k, draw);
      if rows.Err? {
        return Err(rows.error);
      }
      e := Lines(rows.value);
    }
    InstructionsStep(sections, c, lines, present, e);
    r := Ok(Put(lines, present, PInstructions, e));
  }

  /** The `instructions` step on the section contents alone. */
  lemma InstructionsStep(sections: set<string>, c: Contents, lines: map<Key, Entry>, present: bool, e: Entry)
    requires lines == Upto(sections, c, 6) && present == ("instructions" in sections)
    requires present ==> c.instructions.Ok? && e == Lines(c.instructions.value)
    ensures Put(lines, present, PInstructions, e) == Upto(sections, c, 7)
  {
    PutStep(sections, c, PInstructions, 6, lines, present, e);
  }

  /** The statements of `knl_to_json` up to the rules. */
  method FillFront(k: Kernel, sections: set<string>, ghost c: Contents)
    returns (r: Result<map<Key, Entry>, SnapshotError>)
    requires WellFormed(k)
    requires c.name == k.name && c.args == ArgumentRows(k) && c.domains == DomainRows(k) && c.tags == TagRows(k)
    requires c.variables == VariableRows(k) && (c.variables == [] <==> k.temporaries == [])
    requires c.rules == RuleRows(k) && (c.rules == [] <==> k.substitutions == [])
    ensures "arguments" in sections && c.args.Err? ==> r == Err(SectionFailed(c.args.error))
    ensures !("arguments" in sections && c.args.Err?) ==> r == Ok(Upto(sections, c, 6))
  {
    var l0: map<Key, Entry> := map[];
    assert l0 == Upto(sections, c, 0);
    var l1 := AddName(k, sections, l0, c);
    var withArgs := AddArguments(k, sections, l1, c);
    if withArgs.Err? {
      return withArgs;
    }
    var l2 := withArgs.value;
    var l3 := AddDomains(k, sections, l2, c);
    var l4 := AddTags(k, sections, l3, c);
    var l5 := AddVariables(k, sections, l4, c);
    var l6 := AddRules(k, sections, l5, c);
    return Ok(l6);
  }

  /** The statements of `knl_to_json` from the instructions on. */
  method FillBack(k: Kernel, sections: set<string>, draw: Drawing, lines: map<Key, Entry>, ghost c: Contents)
    returns (r: Result<map<Key, Entry>, SnapshotError>)
    requires WellFormed(k) && c.instructions == InstructionRows(k, draw) && c.schedule == k.schedule
    requires c.depLines == DepLines(k.instructions) && (c.depLines == [] <==> WithDeps(k.instructions) == [])
    requires !("arguments" in sections && c.args.Err?) && lines == Upto(sections, c, 6)
    ensures r == Assemble(sections, c)
  {
    var withInsns := AddInstructions(k, sections, draw, lines, c);
    if withInsns.Err? {
      return withInsns;
    }
    var l7 := withInsns.value;
    var l8 := AddDependencies(k, sections, l7, c);
    var l9 := AddSchedule(k, sections, l8, c);
    return Ok(l9);
  }

  /** The body of `knl_to_json`: resolve the sections, then fill `lines` one
      section after another. */
  method KnlToJson(knl: Option<Kernel>, what: What, withDeps: bool, draw: Drawing)
    returns (r: Option<Result<map<Key, Entry>, SnapshotError>>)
    requires knl.Some? ==> WellFormed(knl.value)
    ensures r == KnlToJsonSpec(knl, what, withDeps, draw)
  {
    if knl.None? {
      return None;
    }
    var k := knl.value;
    var resolved := Resolve(what, withDeps);
    if resolved.Err? {
      return Some(Err(SelectionFailed(resolved.error)));
    }
    var sections := resolved.value;
    ghost var c := ContentsOf(k, draw);
    var front := FillFront(k, sections, c);
    if front.Err? {
      return Some(front);
    }
    var lines := FillBack(k, sections, draw, front.value, c);
    return Some(lines);
  }
}
