# floopy core, modelled in Dafny

floopy is a small web front end to the loopy kernel compiler. A user sends a
kernel (a domain and instructions) and a list of transformation directives
such as `iname:i:split:128:0:0` or `arg:a:type:f32`. The server does three
things:

- It translates the directives into lines of Python ("replay lines").
- It evaluates those lines.
- It returns a JSON snapshot of the kernel, the generated code (or the replay
  script for the `python` target), and an error flag.

This project models the two pure parts of that service and proves properties
of them:

* **The kernel snapshot** (`knl_to_json` in `floopy/loopy_bits.py`):
  * the natural order of identifiers (`natorder`, `natsorted`);
  * the resolution of the `what` argument into sections;
  * every section of the snapshot;
  * the depth-first printing order of instructions (`insert_insn_into_order`);
  * the row layout of the instruction listing;
  * the dependency lines.
* **The directive translator** (`process_kernel_transforms` in
  `floopy/view.py`):
  * `mps`;
  * the choice of code-generation target;
  * the first pass that collects type directives into one
    `add_and_infer_dtypes` line;
  * the second pass that turns each directive into at most one transform
    line and records the performance flag and `value_dict`;
  * the exceptions the two passes raise and their messages;
  * the python replay script;
  * the response.

Modules, one per file:

| file | module | models |
|---|---|---|
| `results.dfy` | `Results` | `Option` and `Result` |
| `text.dfy` | `Text` | `str.split` and `str.join`, `strip`, decimal rendering, `str` `<` |
| `sorting.dfy` | `Sorting` | Python's stable `sorted`, as an insertion sort |
| `natorder.dfy` | `NaturalOrder` | `natorder`, Python list comparison, `natsorted` |
| `kernel.dfy` | `KernelModel` | the kernel attributes the serializer reads |
| `insn_order.dfy` | `InsnOrder` | `insert_insn_into_order` as a function and as a class with the source's two mutable fields |
| `insn_rows.dfy` | `InsnRows` | the layout of one instruction's rows |
| `sections.dfy` | `Sections` | the argument, domain, tag, variable, rule and dependency sections, each with its loop |
| `selection.dfy` | `Selection` | `all_what`, `first_letter_to_what` and the resolution of `what` |
| `snapshot.dfy` | `Snapshot` | the instruction listing and `knl_to_json` as a whole |
| `pystr.dfy` | `PyStr` | `repr` of a `str`, `str` of a list of strings, `int()` of a string |
| `directives.dfy` | `Directives` | `mps`, the target, one directive's fields, the type codes, the exception messages |
| `translation.dfy` | `Translation` | the two passes, the script and the response |

The model follows what the code does, including these cases:

* **Arity.** Option counts are not checked when a directive is read. Each
  branch of the second pass checks them while it runs:
  * `iname:split` asserts exactly three options; a single option is not
    accepted.
  * `iname:tag` and `iname:prioritize` assert one option.
  * `arg:subst`, `arg:split` and `arg:perf` raise `IndexError` when options
    are missing.
* **Ignored directives.** A directive whose target/operation pair is not
  recognised does nothing and raises nothing. So does `arg:type` in the
  second pass.
* **Type directives.** The first pass reads a type directive under any
  target: only the operation field is compared with `type`.
* **`any` directives.** An `any` directive writes its operation field (the
  third field) verbatim as a replay line.
* **Failed translations.** When a translation fails, nothing has been
  evaluated and `knl` is still `None`. So `high_level2` would be
  `knl_to_json(None)`, which is `None`, the `None` branch of
  `Snapshot.KnlToJsonSpec`. The response record does not carry it.
* **Cycles.** The depth-first walk has no cycle error. It marks an
  instruction before visiting its dependencies, so a cycle ends the walk
  instead of raising; `InsnOrder.CycleTerminates` shows the order it prints.
* **Ties.** `natsorted` breaks ties between equal keys (`a01` and `a1`) by
  input order, because `sorted` is stable.
* **Mixed keys.** Keys whose tokens do not line up can raise `TypeError`.
* **Argument kinds.** An argument that is neither a `ValueArg` nor global
  reuses the `typ` of the previous argument, or raises `UnboundLocalError`
  when it comes first.
* **`LoopyError`.** `floopy/loopy_bits.py` never imports `LoopyError`. The
  two `raise LoopyError(...)` statements therefore raise `NameError`. This
  applies to an invalid `what` and to an unknown instruction class. See
  "## Findings".

## Model

| member | source | states |
|---|---|---|
| NaturalOrder.Runs | floopy/loopy_bits.py:41 | the matches of `(\d+)\|(\D+)`: empty exactly for the empty key, each match all digits or all non-digits |
| NaturalOrder.RunsShape | floopy/loopy_bits.py:41 | the first match starts the key and consecutive matches alternate between digit and non-digit runs |
| NaturalOrder.RunsConcat | floopy/loopy_bits.py:41 | the matches concatenated give back the key: `findall` skips nothing |
| NaturalOrder.NatOrderTokens | floopy/loopy_bits.py:41 | one token per match; a digit run becomes its integer value and any other run stays text; integer and text tokens alternate |
| NaturalOrder.RunsAppendRun | floopy/loopy_bits.py:41 | appending a run of the other kind than the key's last character adds exactly one match |
| NaturalOrder.NatOrderDigitSuffix | floopy/loopy_bits.py:41 | a key ending in a non-digit, followed by digits, gets one extra integer token |
| NaturalOrder.NumericSuffixOrder | floopy/loopy_bits.py:32-41 | identifiers that differ only in a numeric suffix compare by the value of the suffix |
| NaturalOrder.OneBeforeNine | floopy/loopy_bits.py:34-35 | `abc1` sorts before `abc9` |
| NaturalOrder.NineBeforeTen | floopy/loopy_bits.py:34-35 | `abc9` sorts before `abc10` |
| NaturalOrder.DictionaryOrderDiffers | floopy/loopy_bits.py:36-37 | plain string order puts `abc10` before `abc9` |
| NaturalOrder.NameLikeAligned | floopy/loopy_bits.py:41 | the key of an identifier starts with a text token and then alternates |
| NaturalOrder.AlignedComparable | floopy/loopy_bits.py:44 | two keys aligned alike never raise `TypeError` when compared |
| NaturalOrder.MixedKeysRaise | floopy/loopy_bits.py:44 | comparing the keys of `1a` and `a1` raises `TypeError` |
| NaturalOrder.LessIrreflexive | floopy/loopy_bits.py:44 | list `<` on keys is irreflexive |
| NaturalOrder.LessAsymmetric | floopy/loopy_bits.py:44 | list `<` on keys is asymmetric |
| NaturalOrder.LessTransitive | floopy/loopy_bits.py:44 | list `<` on keys is transitive |
| NaturalOrder.LessTotal | floopy/loopy_bits.py:44 | two keys aligned alike are equal or ordered one way |
| NaturalOrder.ListLessCommonPrefix | floopy/loopy_bits.py:44 | a common prefix of two keys does not change their comparison |
| NaturalOrder.NatLePreorder | floopy/loopy_bits.py:44 | on identifiers, "key not greater" is a total preorder, so `sorted` is well defined |
| NaturalOrder.NatSorted | floopy/loopy_bits.py:43-44 | `natsorted` is a permutation of its input, and no element's key is less than an earlier element's |
| NaturalOrder.ClassIsWithKey | floopy/loopy_bits.py:44 | the elements equivalent to `t` under the sort are exactly those with `t`'s key |
| NaturalOrder.NatSortedStable | floopy/loopy_bits.py:43-44 | elements with equal keys keep their input order |
| Sorting.InsertPermutes | floopy/loopy_bits.py:44 | inserting adds the element and loses nothing |
| Sorting.SortBy | floopy/loopy_bits.py:44 | `sorted` returns a sorted permutation of its input |
| Sorting.InsertSorted | floopy/loopy_bits.py:44 | inserting into a sorted list keeps it sorted |
| Sorting.InsertClass | floopy/loopy_bits.py:44 | inserting an element puts it in front of the later members of its equivalence class |
| Sorting.SortByStable | floopy/loopy_bits.py:44 | each equivalence class keeps its input order after sorting |
| Selection.FirstLetterToWhat | floopy/loopy_bits.py:61-62 | each section is stored under its own first letter |
| Selection.FirstLettersDistinct | floopy/loopy_bits.py:63 | the assertion holds: no two sections share a first letter |
| Selection.DefaultSections | floopy/loopy_bits.py:65-68 | the default selects every section, and `Dependencies` exactly when `with_dependencies` |
| Selection.Letters | floopy/loopy_bits.py:74-77 | one-letter codes succeed exactly when every letter is known; the result is the sections of those letters; the `KeyError` names the first unknown letter, all letters before it being known |
| Selection.Resolve | floopy/loopy_bits.py:70-81 | the sections requested; a request with names that are not sections is refused, and the error lists exactly those names, as the intended `LoopyError` would |
| Selection.ResolveAsWritten | floopy/loopy_bits.py:79-81 | the check as the code stands: the same sections are accepted, but a refusal is the `NameError` for `LoopyError` |
| Selection.LoopyErrorUndefined | floopy/loopy_bits.py:79-81 | the code differs from the intended check exactly when names that are not sections are requested; it then reports only the undefined name `LoopyError` |
| Selection.BogusSectionHidden | floopy/loopy_bits.py:79-81 | for `what={"name", "bogus"}`, the intended check reports `bogus` and the code raises `NameError` |
| Selection.DefaultResolves | floopy/loopy_bits.py:65-68 | the default always resolves, with `Dependencies` only on request |
| Selection.CodesSelect | floopy/loopy_bits.py:74-77 | the first letters of some sections select exactly those sections |
| Selection.CommaSelect | floopy/loopy_bits.py:71-73 | comma-joined names read back as the set of those names |
| KernelModel.Lookup | floopy/loopy_bits.py:141 | `id_to_insn` returns the instruction with that id, and fails exactly when no instruction has it |
| KernelModel.UniqueIds | floopy/loopy_bits.py:141 | instruction ids identify instructions |
| InsnOrder.SortedDeps | floopy/loopy_bits.py:140 | the dependency ids are a permutation of `depends_on`, in natural order |
| InsnOrder.Visit | floopy/loopy_bits.py:135-143 | a visit only adds marks, and marks the visited instruction |
| InsnOrder.VisitInv | floopy/loopy_bits.py:135-143 | a visit keeps the invariant: every marked id is printed or on the stack, printed ids are distinct, and everything printed is marked; a failure means a dangling dependency |
| InsnOrder.VisitAllInv | floopy/loopy_bits.py:145-146 | the outer loop keeps the invariant; after it, every instruction is marked |
| InsnOrder.DfsOrderPermutation | floopy/loopy_bits.py:132-146 | the walk succeeds exactly when no dependency dangles, and then prints every instruction exactly once |
| InsnOrder.VisitLeaf | floopy/loopy_bits.py:135-143 | an unmarked instruction without dependencies is printed at once |
| InsnOrder.VisitLeaves | floopy/loopy_bits.py:140-141 | visiting unmarked leaves marks them and prints them in order |
| InsnOrder.VisitLeafDeps | floopy/loopy_bits.py:135-143 | an instruction whose dependencies are leaves prints them in natural order of their ids, then itself |
| InsnOrder.VisitNamed | floopy/loopy_bits.py:140-143 | the same walk, stated as the dependencies in sorted order followed by the instruction |
| InsnOrder.DfsOrderDepsFirst | floopy/loopy_bits.py:132-146 | without cycles, every instruction is printed after all its dependencies |
| InsnOrder.CycleFirstVisit | floopy/loopy_bits.py:135-143 | with two instructions that depend on each other, visiting the first prints the second, then the first |
| InsnOrder.CycleTerminates | floopy/loopy_bits.py:132-146 | a two-instruction cycle does not raise: the walk prints `[b, a]` |
| InsnOrder.Orderer.Insert | floopy/loopy_bits.py:135-143 | the recursive method updating `printed_insn_ids` and `printed_insn_order` reaches the state the walk describes, or reports the missing id |
| InsnOrder.Orderer.InsertAll | floopy/loopy_bits.py:140-141 | the loop over the sorted dependencies, in place, agrees with the walk |
| InsnOrder.PrintingOrder | floopy/loopy_bits.py:132-146 | the loop over `kernel.instructions` gives the walk's order: a permutation of the instructions, failing exactly on a dangling dependency |
| InsnRows.CodeRows | floopy/loopy_bits.py:174 | one indented row per line of the C code |
| InsnRows.CodeRowsRoundTrip | floopy/loopy_bits.py:174 | removing the indent and joining the rows gives back the code |
| InsnRows.InsnSides | floopy/loopy_bits.py:163-187 | only an unknown instruction class (or a barrier with an empty kind) raises; only C instructions have trailing rows; barriers and no-ops have no left-hand side |
| InsnRows.InsnSidesAsWritten | floopy/loopy_bits.py:185-187 | the dispatch as the code stands: on success it agrees with `InsnSides` |
| InsnRows.UnknownClassAsWritten | floopy/loopy_bits.py:185-187 | the code differs from the intended dispatch exactly on an unknown instruction class; the intended error names the class, the code reports only the undefined name `LoopyError` |
| InsnRows.InOrder | floopy/loopy_bits.py:189-191 | the loop list holds exactly the instruction's inames that are in the printing order |
| InsnRows.MissingInames | floopy/loopy_bits.py:191 | exactly the instruction's inames that `order[iname]` cannot find |
| InsnRows.WellFormedCovers | floopy/loopy_bits.py:189-191 | for an instruction of a well-formed kernel, `order[iname]` finds every iname |
| InsnRows.InOrderSorted | floopy/loopy_bits.py:189-191 | the inames are in increasing printing position |
| InsnRows.SortedNoSync | floopy/loopy_bits.py:208 | `sorted(no_sync_with)` is a permutation in pair order |
| InsnRows.Options | floopy/loopy_bits.py:192-208 | the options start with the coloured instruction id, followed by the options of the attributes that are set |
| InsnRows.OptionsCount | floopy/loopy_bits.py:193-208 | each attribute that is set adds exactly one option |
| InsnRows.OptionMembers | floopy/loopy_bits.py:194-208 | the options after the id are exactly the `priority=`, `tags=`, `atomic=`, `groups=`, `conflicts=` and `no_sync_with=` texts of the attributes that are set |
| InsnRows.OptionsPriority | floopy/loopy_bits.py:194-195 | `priority=` and the priority follow the id when it is nonzero, and some option starts with `priority=` exactly when the priority is nonzero |
| InsnRows.OptionsNamed | floopy/loopy_bits.py:196-208 | an option starting with `tags=`, `groups=`, `conflicts=` or `no_sync_with=` is present exactly when that attribute is set, and it then holds the values joined by `:` (the sorted `var@scope` pairs for `no_sync_with`) |
| InsnRows.HeadRows | floopy/loopy_bits.py:218-230 | a loop list longer than 35 characters takes two rows, otherwise one |
| InsnRows.HeadRowsColumn | floopy/loopy_bits.py:218-230 | in both layouts the core starts 38 characters after the arrows or the extender; in one row, the loop list is followed by `]` and padding spaces up to that column; the wrapped row joins options with `", "` |
| InsnRows.InsnRowsFor | floopy/loopy_bits.py:163-236 | formatting fails exactly when the instruction's class is refused (by `InsnSides`, and equally by `InsnSidesAsWritten`) or an iname is missing from the printing order; the class is checked first; a missing iname is an `InameKeyError` carrying every missing iname, where Python's `KeyError` names only the first one `sorted` looks up |
| InsnRows.InsnRowsShape | floopy/loopy_bits.py:218-236 | the head rows, then one row per code line, then an `if (...)` row when there are predicates |
| Sections.ArgFoldLabels | floopy/loopy_bits.py:92-97 | with only value and global arguments, every argument gets one row with its name, text and kind |
| Sections.StaleLabel | floopy/loopy_bits.py:93-97 | an argument in another address space after a global one is labelled `global` |
| Sections.FirstUnlabelledRaises | floopy/loopy_bits.py:93-97 | a first argument in another address space raises `UnboundLocalError` |
| Sections.BuildArguments | floopy/loopy_bits.py:90-97 | the loop builds the argument rows, or raises as the fold does |
| Sections.DomainIndent | floopy/loopy_bits.py:102 | a domain row is indented two spaces per parent, followed by the domain's text |
| Sections.DomainRows | floopy/loopy_bits.py:99-102 | one row per domain, in order |
| Sections.BuildDomains | floopy/loopy_bits.py:99-102 | the loop builds the domain rows |
| Sections.TagRowsSpec | floopy/loopy_bits.py:104-113 | each iname has exactly one row with its tags, in natural order |
| Sections.UntaggedListed | floopy/loopy_bits.py:108-109 | an iname without tags is listed with an empty list |
| Sections.BuildTags | floopy/loopy_bits.py:104-113 | the loop builds the tag rows |
| Sections.VariableRows | floopy/loopy_bits.py:115-119 | the text of every temporary, in natural order of names |
| Sections.BuildVariables | floopy/loopy_bits.py:115-119 | the loop builds the variable rows |
| Sections.RuleRows | floopy/loopy_bits.py:121-124 | every substitution rule once, as (name, text), in natural order |
| Sections.BuildRules | floopy/loopy_bits.py:121-124 | the loop builds the rule rows |
| Sections.WithDeps | floopy/loopy_bits.py:240-241 | exactly the instructions that have dependencies |
| Sections.DepLinesInOrder | floopy/loopy_bits.py:239-242 | one line per instruction with dependencies, in kernel order |
| Sections.DepLineRoundTrip | floopy/loopy_bits.py:242 | a dependency line reads back as the id and the dependency list |
| Sections.BuildDepLines | floopy/loopy_bits.py:239-242 | the loop builds the dependency lines |
| Snapshot.Zip | floopy/loopy_bits.py:160-161 | `zip` pairs the order with the drawing, as long as the shorter |
| Snapshot.RowsFoldBlocks | floopy/loopy_bits.py:160-236 | the listing succeeds exactly when every zipped instruction formats, and is then the rows of each, in order |
| Snapshot.BuildInstructions | floopy/loopy_bits.py:126-236 | the section's loop builds the listing of the printing order |
| Snapshot.InstructionRowsErrors | floopy/loopy_bits.py:126-236 | the listing fails with a missing dependency exactly when one dangles, and otherwise only on a row |
| Snapshot.ContentsOf | floopy/loopy_bits.py:115-124 | the variables, rules and dependency lines are empty exactly when the kernel has none |
| Snapshot.AssembleKeys | floopy/loopy_bits.py:83-250 | the snapshot holds exactly the requested sections, except for empty variables, rules and dependency lines and a missing schedule |
| Snapshot.SnapshotKeys | floopy/loopy_bits.py:115-250 | the same, stated on the kernel's temporaries, rules, dependencies and schedule |
| Snapshot.AssembleEntries | floopy/loopy_bits.py:87-250 | each key holds its own section |
| Snapshot.AssembleErrors | floopy/loopy_bits.py:90-236 | the arguments are looked at before the instructions, and only those two sections can raise |
| Snapshot.SnapshotErrors | floopy/loopy_bits.py:90-236 | a dangling dependency raises exactly when the listing is requested and the arguments passed |
| Snapshot.KnlToJsonSpec | floopy/loopy_bits.py:46-48 | `None` exactly for a `None` kernel |
| Snapshot.SelectionAsWritten | floopy/loopy_bits.py:70-83 | the code as written selects the same sections as the composite; it fails exactly where the composite reports a selection error, and for names that are not sections it raises the `NameError` instead of `InvalidWhat` |
| Snapshot.FillFront | floopy/loopy_bits.py:83-124 | the statements up to the rules fill `lines` as specified, or raise in the arguments |
| Snapshot.FillBack | floopy/loopy_bits.py:126-250 | the statements from the instructions on complete `lines` as specified |
| Snapshot.KnlToJson | floopy/loopy_bits.py:46-253 | the method, statement by statement, returns the snapshot described by resolution and assembly; it uses the corrected check of `what` and the corrected class dispatch (see "## Findings" and "## Left out") |
| PyStr.Repr | floopy/view.py:86 | the body of `repr` is written between the quote `QuoteFor` chooses, and is at least as long as the string |
| PyStr.SoftHyphenEscaped | floopy/view.py:86 | `repr` writes the soft hyphen U+00AD as `\xad` |
| PyStr.ControlEscaped | floopy/view.py:86 | a control character other than tab, line feed and carriage return is written as `\x` and two hex digits |
| PyStr.QuoteFor | floopy/view.py:86 | `repr` uses double quotes exactly when the string has a single quote and no double quote |
| PyStr.ReprRoundTrip | floopy/view.py:86 | the literal `repr` writes denotes the string |
| PyStr.ReprPlain | floopy/view.py:86 | a plain string is written unchanged between single quotes |
| PyStr.ListRepr | floopy/view.py:86 | `str` of a list is bracketed, and `[]` for no options |
| PyStr.ListReprSingle | floopy/view.py:86 | one plain option renders as `['o']` |
| PyStr.ParseIntRoundTrip | floopy/view.py:99 | `int` reads back a rendered integer |
| PyStr.IntLiteralDigits | floopy/view.py:99 | a digit run, with or without a minus sign, reads as its value |
| PyStr.ParseIntRefuses | floopy/view.py:99 | an empty literal, a lone sign, a doubled underscore and a letter raise `ValueError` |
| PyStr.ParseIntAccepts | floopy/view.py:99 | underscores between digits and a leading sign are accepted |
| PyStr.ParseIntPadded | floopy/view.py:99 | spaces around the literal are ignored |
| Directives.Mps | floopy/view.py:16-17 | the argument between single quotes with a space on each side |
| Directives.MpsRoundTrip | floopy/view.py:16-17 | stripping the four added characters gives back the argument |
| Directives.MpsInjective | floopy/view.py:16-17 | different arguments give different fragments |
| Directives.TargetExpr | floopy/view.py:37-42 | `c` gives `lp.CTarget()`, `cuda` gives `lp.CudaTarget()`, anything else gives `lp.OpenCLTarget()`, each both ways |
| Directives.LiteralRepr | floopy/view.py:99 | `%.200R` of the literal: the first 200 characters of its `repr`, or all of it when it is shorter |
| Directives.Message | floopy/view.py:125-127 | `str(inst)` of each failure: empty exactly for the `AssertionError`; an `int()` message is at most 240 characters |
| Directives.UnpackMessage | floopy/view.py:50 | the unpacking message starts with the fixed text and ends with `)`, and the digits in between read back as the number of fields |
| Directives.FixedMessages | floopy/view.py:73-94 | an `AssertionError` has an empty message; a missing option gives `list index out of range` |
| Directives.UnknownTypeNamesArgument | floopy/view.py:61 | the message of an unknown type code ends with the argument's name |
| Directives.InvalidLiteralMessage | floopy/view.py:99 | the `int()` message starts with the fixed text and is at most 240 characters long; when the literal's `repr` has at most 200 characters, it can be read back from the message; a literal of 199 characters or more fills all 240 |
| Directives.ParseDirective | floopy/view.py:49-51 | a directive with fewer than three fields raises the unpacking `ValueError` with the field count |
| Directives.ParseDirectiveFields | floopy/view.py:49-51 | the parsed fields, joined by colons, give back the directive, and none holds a colon |
| Directives.ParseDirectiveJoin | floopy/view.py:49-51 | colon-free fields joined by colons parse back to the same directive |
| Directives.TwoFieldsRaise | floopy/view.py:50 | `iname:i` raises the unpacking error for two fields |
| Directives.TypeName | floopy/view.py:52-61 | exactly one option is asserted; `f32`, `f64` and `i32` map to the numpy types; any other code raises naming the argument |
| Directives.TypeEntry | floopy/view.py:52-62 | only directives with operation `type` contribute, with the entry `mps(which):type` |
| Translation.TerminatedJoin | floopy/view.py:62-64 | the accumulated entries, each followed by a comma, are the comma-joined entries plus one comma |
| Translation.TypesDictTrim | floopy/view.py:64 | dropping the last character and closing the brace gives `{}` without entries, else `{ ` and the comma-joined entries |
| Translation.FirstPass | floopy/view.py:47-64 | the first loop returns the dictionary of the type entries, or the first directive's error |
| Translation.EntryFor | floopy/view.py:53-62 | an accepted type directive contributes exactly `mps(which):type`, any other directive nothing |
| Translation.TypeEntriesInOrder | floopy/view.py:49-62 | the entries of the dictionary are the type directives' own entries, in directive order |
| Translation.TypeEntriesSpec | floopy/view.py:47-64 | the first pass succeeds exactly when every directive has three fields and every type directive has one known code; then it has one entry per type directive, each a quoted name and a numpy type |
| Translation.TypesDictShape | floopy/view.py:64-65 | the dictionary is `{}` with no entries, otherwise it opens with `{ ` and has no trailing comma before `}` |
| Translation.TransformEffectSpec | floopy/view.py:71-109 | a directive raises exactly when the arity table says so; it writes a line exactly for the recognised iname, arg and rule transforms and for `any`; only perf and precompute set the flag; only perf records its integer bound under its argument; `any` writes its operation verbatim |
| Translation.EmptyOptionIgnored | floopy/view.py:84-104 | for `arg` and `rule`, a single empty option behaves like no options |
| Translation.InameArity | floopy/view.py:72-80 | `split` needs exactly three options and `tag` and `prioritize` one; a violation is an `AssertionError` |
| Translation.SecondPass | floopy/view.py:67-109 | the second loop, updating `lines`, the flag and `value_dict` in place, ends in the replay state or the first directive's error |
| Translation.ReplayAccepts | floopy/view.py:67-109 | the second pass succeeds exactly when every directive is accepted |
| Translation.ReplayLines | floopy/view.py:67-109 | the lines it adds are those of the directives, in directive order |
| Translation.ReplayPerf | floopy/view.py:95-105 | the flag is set exactly when some perf or precompute directive is present |
| Translation.ReplayValueKeys | floopy/view.py:95-99 | `value_dict` holds an argument exactly when some perf directive names it |
| Translation.ReplayLastValue | floopy/view.py:99 | the last perf directive naming an argument decides its value |
| Translation.Translate | floopy/view.py:46-109 | both passes together give the translation or its first error |
| Translation.TranslationAccepts | floopy/view.py:46-109 | the translation succeeds exactly when both passes accept every directive |
| Translation.TranslationLines | floopy/view.py:46-109 | the replay lines are `make_kernel` for the target, then `add_and_infer_dtypes` with the dictionary, then each directive's line in order; the flag is set exactly when a perf or precompute directive is present |
| Translation.TranslationValues | floopy/view.py:95-99 | `value_dict` holds exactly the arguments some perf directive names |
| Translation.ScriptLines | floopy/view.py:115-116 | the python script splits back into one `knl = <line>` statement per replay line |
| Translation.Respond | floopy/view.py:115-129 | the directives are echoed; `err` is set exactly when translation fails, and then `code` is the exception's message and nothing is timed; otherwise `code` is the script for `python` and the device code for other targets; timing happens exactly when the flag is set, with `value_dict` |
| Translation.ProcessKernelTransforms | floopy/view.py:26-129 | the handler's statements produce the response described by `Respond` |

## Findings

| source | as written | input that shows it | evidently intended | confidence | as-written member | corrected member |
|---|---|---|---|---|---|---|
| floopy/loopy_bits.py:79-81 | `LoopyError` is never imported, so the `raise` fails with `NameError: name 'LoopyError' is not defined` before the invalid names are formatted (lemmas `Selection.LoopyErrorUndefined` and `Selection.BogusSectionHidden`) | `what={"name", "bogus"}` | a `LoopyError` reporting `bogus` | high; not executed | Selection.ResolveAsWritten | Selection.Resolve |
| floopy/loopy_bits.py:185-187 | the same missing import turns the error for an unknown instruction class into a `NameError` that does not name the class (lemma `InsnRows.UnknownClassAsWritten`) | an instruction of a class other than the four handled | a `LoopyError` naming the class | high; not executed | InsnRows.InsnSidesAsWritten | InsnRows.InsnSides |

## Left out

- The Flask application, the routes, request parsing and the response encoding are not modelled. The handler takes the directive list and the target as parameters.
- `eval` of the replay lines, `lp.generate_code_v2`, the OpenCL context and `time_knl` are foreign calls. The device code is a parameter of `Translation.Respond`. Whether and with which parameters the kernel would be timed is modelled; the measured time is not. Exceptions raised while evaluating a line (the engine rejecting a transform) are not modelled.
- `high_level` and `high_level2` of the response (`str(knl)` and `knl_to_json(knl)`) are not part of `Translation.Response`. The snapshot is modelled separately by `Snapshot.KnlToJson`.
- The root `view.py` and `floopy/perflex_bits.py` are not part of this model.
- `draw_dependencies_as_unicode_arrows` is a function parameter (`Drawing`): its arrows are not modelled. Only the zip with the printing order is.
- `dump_schedule`, `str()` of arguments, domains, temporaries, rules and expressions, the iname printing order and the colour codes are opaque values in the kernel record.
- Python sets and dictionaries are modelled as sequences in the kernel's iteration order, or as a `map` for the section dictionary. Key insertion order in the JSON output is not modelled.
- NaturalOrder.NatSorted: requires every key to start with a non-digit, as identifiers do, so that the comparison never raises. Keys with mixed alignment are shown to raise by `NaturalOrder.MixedKeysRaise`.
- `\d`, `str.isdigit`, `str.isspace` and `int()` are restricted to ASCII. Python also accepts other Unicode digits and spaces.
- PyStr.Repr: below U+0100, escapes exactly the characters Python does not print: the control characters, U+007F to U+00A0, and the soft hyphen U+00AD. Every character from U+0100 up is treated as printable, although Python escapes some of them, such as U+2028, with `\u` or `\U`.
- InsnRows.InsnSides: the `kind` of a barrier is a string; the model raises only for an empty one.
- Python version: the model assumes Python 3 before 3.10, where `collections.Iterable` still exists. From 3.10 on, loopy_bits.py:111 raises `AttributeError` for every iname that has tags; the model does not represent that.
- `collections.Iterable` for a single tag (loopy_bits.py:111-112) is not modelled: tags are always a list.
- Snapshot.KnlToJson: the composite (and `Snapshot.KnlToJsonSpec`) reports the corrected error payloads where the code as written raises `NameError`. An invalid `what` gives `SelectionFailed(InvalidWhat(names))`, and an unknown instruction class gives `RowFailed(UnexpectedInsnType(name))`. `Snapshot.SelectionAsWritten` and `InsnRows.UnknownClassAsWritten` relate these to the code as written: it fails on exactly the same inputs.
- InsnRows.InsnRowsFor: a missing iname gives `InameKeyError` with the set of all missing inames. Python's `KeyError` names only the first one `sorted` looks up; which one that is, is not modelled.
- The message texts of `knl_to_json`'s exceptions are not modelled. Only the offending names, letter or class are carried. These exceptions never reach the response `code`.
- The `if not isinstance(deps, list): deps = [deps]` wrap (floopy/loopy_bits.py:157-158) is not modelled. The drawing is taken to be a list with one (arrows, extender) pair per instruction.
- Python's recursion limit is not modelled. `insert_insn_into_order` recurses once per dependency step, so a chain of dependencies about 1000 deep raises `RecursionError` in the source, while the model has no depth limit.
- Argument, temporary and rule names are unique in the source because they are dictionary keys. The model's sequences allow repeated names, so its contracts also cover that more general case.
- The `print` calls of the handler are not modelled.
