/** The text rows printed for one instruction in the `instructions` section
    (floopy/loopy_bits.py, the loop over the printing order): the loop list,
    the options, the assignment core and the layout that wraps a long loop
    list onto its own row. */
module InsnRows {
  import opened Results
  import opened Text
  import opened Sorting
  import opened KernelModel

  /** What formatting one instruction can raise: the error naming an
      instruction class it does not know, which the code means to raise as a
      `LoopyError`; the `IndexError` of `kind[0]` on a barrier whose kind is
      empty; the `NameError` the code raises instead of the first, because
      floopy/loopy_bits.py never imports `LoopyError`; and the `KeyError` of
      `order[iname]` for one of the inames missing from the printing order. */
  datatype RowError =
    | UnexpectedInsnType(typeName: string)
    | BarrierKindIndex
    | RowNameError(undefined: string)
    | InameKeyError(missing: set<string>)

  /** `loop_list_width`. */
  const LoopListWidth: nat := 35

  // ------------------------------------------------------------- lhs and rhs

  /** The left-hand side, the right-hand side and the trailing code rows of an
      instruction. */
  datatype Sides = Sides(lhs: string, rhs: string, trailing: seq<string>)

  /** `"    " + l` for each line `l` of a C instruction's code. */
  function CodeRows(code: string): (r: seq<string>)
    ensures |r| == |Split(code, '\n')| >= 1
    ensures forall i :: 0 <= i < |r| ==> r[i] == "    " + Split(code, '\n')[i]
  {
    var ls := Split(code, '\n');
    seq(|ls|, i requires 0 <= i < |ls| => "    " + ls[i])
  }

  /** Removing the indentation from the code rows and joining them with line
      breaks gives back the instruction's code. */
  lemma CodeRowsRoundTrip(code: string)
    ensures var r := CodeRows(code);
            Join("\n", seq(|r|, i requires 0 <= i < |r| => r[i][4..])) == code
  {
    var r := CodeRows(code);
    var ls := Split(code, '\n');
    assert seq(|r|, i requires 0 <= i < |r| => r[i][4..]) == ls;
    JoinSplit(code, '\n');
  }

  function NameEqualsExpr(p: (string, string)): string {
    p.0 + "=" + p.1
  }

  /** The class-dependent part of the row. */
  function InsnSides(insn: Insn): (r: Result<Sides, RowError>)
    ensures r.Err? <==> insn.kind.Other? || (insn.kind.Barrier? && insn.kind.barrierKind == "")
    ensures r.Ok? && !insn.kind.CInsn? ==> r.value.trailing == []
    ensures r.Ok? && (insn.kind.Barrier? || insn.kind.NoOp?) ==> r.value.lhs == ""
  {
    match insn.kind
    case MultiAssign(assignees, expression, _) =>
      Ok(Sides(Join(", ", assignees), expression, []))
    case CInsn(assignees, readVariables, inameExprs, code) =>
      var exprs := seq(|inameExprs|, i requires 0 <= i < |inameExprs| => NameEqualsExpr(inameExprs[i]));
      Ok(Sides(Join(", ", assignees), "CODE(" + Join(", ", readVariables) + "|" + Join(", ", exprs) + ")",
               CodeRows(code)))
    case Barrier(barrierKind) =>
      if barrierKind == "" then Err(BarrierKindIndex)
      else Ok(Sides("", "... " + [barrierKind[0]] + "barrier", []))
    case NoOp =>
      Ok(Sides("", "... nop", []))
    case Other(typeName) =>
      Err(UnexpectedInsnType(typeName))
  }

  /** The dispatch as the code stands: `raise LoopyError(...)` on an unknown
      instruction class raises `NameError` before the type name is looked at. */
  function InsnSidesAsWritten(insn: Insn): (r: Result<Sides, RowError>)
    ensures r.Ok? ==> r == InsnSides(insn)
  {
    match insn.kind
    case Other(_) => Err(RowNameError("LoopyError"))
    case _ => InsnSides(insn)
  }

  /** The code and the intended dispatch differ exactly on an unknown class:
      the intended error names the class, the code reports only the undefined
      name `LoopyError`. */
  lemma UnknownClassAsWritten(insn: Insn)
    ensures insn.kind.Other? <==> InsnSidesAsWritten(insn) == Err(RowNameError("LoopyError"))
    ensures insn.kind.Other? ==> InsnSides(insn) == Err(UnexpectedInsnType(insn.kind.typeName))
    ensures !insn.kind.Other? ==> InsnSidesAsWritten(insn) == InsnSides(insn)
  {
  }

  // --------------------------------------------------------------- loop list

  /** The elements of `order` that are in `s`, in the order of `order`: the
      instruction's inames sorted by their printing position. */
  function InOrder(order: seq<string>, s: set<string>): (r: seq<string>)
    ensures forall x :: x in r <==> x in order && x in s
    decreases |order|
  {
    if order == [] then []
    else (if order[0] in s then [order[0]] else []) + InOrder(order[1..], s)
  }

  /** An iname ranks by its first position in the printing order. */
  function Position(order: seq<string>, x: string): nat
    requires x in order
    ensures Position(order, x) < |order| && order[Position(order, x)] == x
    decreases |order|
  {
    if order[0] == x then 0 else 1 + Position(order[1..], x)
  }

  predicate NoRepeats(order: seq<string>) {
    forall i, j :: 0 <= i < j < |order| ==> order[i] != order[j]
  }

  lemma ShiftPosition(order: seq<string>, x: string)
    requires NoRepeats(order) && order != [] && x in order[1..]
    ensures x in order && Position(order, x) == 1 + Position(order[1..], x)
  {
    var t := order[1..];
    var m :| 0 <= m < |t| && t[m] == x;
    assert order[m + 1] == x;
  }

  lemma TailNoRepeats(order: seq<string>)
    requires NoRepeats(order) && order != []
    ensures NoRepeats(order[1..])
  {
    var t := order[1..];
    forall i, j | 0 <= i < j < |t| ensures t[i] != t[j] {
      assert t[i] == order[i + 1] && t[j] == order[j + 1];
    }
  }

  /** Positions in the tail are one less than in the whole order. */
  lemma TailPositions(order: seq<string>, s: set<string>)
    requires NoRepeats(order) && order != []
    ensures forall i :: 0 <= i < |InOrder(order[1..], s)| ==>
              InOrder(order[1..], s)[i] in order
              && Position(order, InOrder(order[1..], s)[i]) == 1 + Position(order[1..], InOrder(order[1..], s)[i])
  {
    var rt := InOrder(order[1..], s);
    forall i | 0 <= i < |rt| ensures rt[i] in order && Position(order, rt[i]) == 1 + Position(order[1..], rt[i]) {
      assert rt[i] in rt;
      ShiftPosition(order, rt[i]);
    }
  }

  /** The head of the order comes before every iname of the tail. */
  lemma ConsSorted(order: seq<string>, rt: seq<string>)
    requires order != [] && forall i :: 0 <= i < |rt| ==> rt[i] in order
    requires forall i :: 0 <= i < |rt| ==> Position(order, rt[i]) >= 1
    requires forall i, j :: 0 <= i < j < |rt| ==> Position(order, rt[i]) < Position(order, rt[j])
    ensures forall i, j :: 0 <= i < j < |[order[0]] + rt| ==>
              Position(order, ([order[0]] + rt)[i]) < Position(order, ([order[0]] + rt)[j])
  {
    var r := [order[0]] + rt;
    forall i, j | 0 <= i < j < |r| ensures Position(order, r[i]) < Position(order, r[j]) {
      assert r[j] == rt[j - 1];
      if i > 0 {
        assert r[i] == rt[i - 1];
      }
    }
  }

  /** Without repetition in the printing order, the sorted inames are exactly
      the instruction's inames, each once, by increasing printing position. */
  lemma {:induction false} InOrderSorted(order: seq<string>, s: set<string>)
    requires NoRepeats(order)
    ensures forall i, j :: 0 <= i < j < |InOrder(order, s)| ==>
              Position(order, InOrder(order, s)[i]) < Position(order, InOrder(order, s)[j])
    decreases |order|
  {
    if order != [] {
      TailNoRepeats(order);
      InOrderSorted(order[1..], s);
      TailPositions(order, s);
      if order[0] in s {
        assert InOrder(order, s) == [order[0]] + InOrder(order[1..], s);
        ConsSorted(order, InOrder(order[1..], s));
      } else {
        assert InOrder(order, s) == InOrder(order[1..], s);
      }
    }
  }

  /** The inames of `insn` that `order[iname]` cannot find. */
  function MissingInames(k: Kernel, insn: Insn): (m: set<string>)
    ensures forall x :: x in m <==> x in insn.inames && x !in k.inameOrder
  {
    set x | x in insn.inames && x !in k.inameOrder
  }

  /** loopy's printing order lists every iname of the kernel's instructions,
      so `order[iname]` finds them all. */
  lemma WellFormedCovers(k: Kernel, insn: Insn)
    requires WellFormed(k) && insn in k.instructions
    ensures MissingInames(k, insn) == {}
  {
  }

  /** `loop_list`: the instruction's inames by printing position, comma separated. */
  function LoopList(k: Kernel, insn: Insn): string {
    Join(",", InOrder(k.inameOrder, insn.inames))
  }

  // ----------------------------------------------------------------- options

  /** Python's `<` on a pair of strings. */
  predicate PairLess(p: (string, string), q: (string, string)) {
    StrLess(p.0, q.0) || (p.0 == q.0 && StrLess(p.1, q.1))
  }

  function PairLe(): ((string, string), (string, string)) -> bool {
    (p: (string, string), q: (string, string)) => !PairLess(q, p)
  }

  lemma PairLePreorder(xs: seq<(string, string)>)
    ensures TotalPreorderOn(PairLe(), xs)
  {
    var le := PairLe();
    forall p, q | p in xs && q in xs ensures le(p, q) || le(q, p) {
      if PairLess(q, p) && PairLess(p, q) {
        if StrLess(q.0, p.0) && StrLess(p.0, q.0) {
          StrLessTransitive(q.0, p.0, q.0);
          StrLessIrreflexive(q.0);
        } else if StrLess(q.0, p.0) {
          StrLessIrreflexive(q.0);
        } else if StrLess(p.0, q.0) {
          StrLessIrreflexive(p.0);
        } else {
          StrLessTransitive(q.1, p.1, q.1);
          StrLessIrreflexive(q.1);
        }
      }
    }
    forall p, q, r | p in xs && q in xs && r in xs && le(p, q) && le(q, r) ensures le(p, r) {
      StrLessTotal(p.0, q.0);
      StrLessTotal(q.0, r.0);
      StrLessTotal(p.1, q.1);
      StrLessTotal(q.1, r.1);
      if PairLess(r, p) {
        if StrLess(r.0, p.0) {
          if StrLess(q.0, r.0) {
            StrLessTransitive(q.0, r.0, p.0);
          } else if q.0 == r.0 {
          } else {
            StrLessTransitive(p.0, q.0, r.0);
            StrLessTransitive(r.0, p.0, r.0);
            StrLessIrreflexive(r.0);
          }
        } else {
          if StrLess(q.0, p.0) {
          } else if q.0 == p.0 {
            if StrLess(q.1, p.1) {
            } else if q.1 == p.1 {
            } else {
              StrLessTransitive(r.1, p.1, q.1);
            }
          } else {
            StrLessIrreflexive(p.0);
          }
        }
      }
    }
  }

  /** `sorted(insn.no_sync_with)`. */
  function SortedNoSync(pairs: seq<(string, string)>): (r: seq<(string, string)>)
    ensures multiset(r) == multiset(pairs)
    ensures forall i, j :: 0 <= i < j < |r| ==> !PairLess(r[j], r[i])
  {
    PairLePreorder(pairs);
    var r := SortBy(pairs, PairLe());
    assert Sorted(r, PairLe());
    r
  }

  function AtSign(p: (string, string)): string {
    p.0 + "@" + p.1
  }

  function OptionIf(present: bool, option: string): seq<string> {
    if present then [option] else []
  }

  /** The `# ...` options: the coloured id, then one entry for each attribute
      that is set. */
  function Options(pal: Palette, insn: Insn): (r: seq<string>)
    ensures |r| >= 1 && r[0] == pal.green + insn.id + pal.reset
    ensures r[1..] == OptionTail(insn)
  {
    [pal.green + insn.id + pal.reset] + OptionTail(insn)
  }

  /** `no_sync_with=` and the sorted pairs, each as `var@scope`. */
  function NoSyncOption(insn: Insn): string {
    var sorted := SortedNoSync(insn.noSyncWith);
    "no_sync_with=" + Join(":", seq(|sorted|, i requires 0 <= i < |sorted| => AtSign(sorted[i])))
  }

  /** The options after the id, in the order the source appends them. */
  function OptionTail(insn: Insn): seq<string> {
    OptionIf(insn.priority != 0, "priority=" + IntToString(insn.priority))
    + OptionIf(insn.tags != [], "tags=" + Join(":", insn.tags))
    + OptionIf(insn.kind.MultiAssign? && insn.kind.atomicity != [],
               "atomic=" + Join(":", if insn.kind.MultiAssign? then insn.kind.atomicity else []))
    + OptionIf(insn.groups != [], "groups=" + Join(":", insn.groups))
    + OptionIf(insn.conflictsWithGroups != [], "conflicts=" + Join(":", insn.conflictsWithGroups))
    + OptionIf(insn.noSyncWith != [], NoSyncOption(insn))
  }

  /** An instruction with no attribute set shows only its id, and each set
      attribute adds exactly one option. */
  lemma OptionsCount(pal: Palette, insn: Insn)
    ensures |Options(pal, insn)| ==
              1 + (if insn.priority != 0 then 1 else 0) + (if insn.tags != [] then 1 else 0)
              + (if insn.kind.MultiAssign? && insn.kind.atomicity != [] then 1 else 0)
              + (if insn.groups != [] then 1 else 0) + (if insn.conflictsWithGroups != [] then 1 else 0)
              + (if insn.noSyncWith != [] then 1 else 0)
  {
  }

  /** `priority=` follows the id exactly when the priority is nonzero. */
  lemma OptionsPriority(pal: Palette, insn: Insn)
    ensures var r := Options(pal, insn);
            && (insn.priority != 0 ==> r[1] == "priority=" + IntToString(insn.priority))
            && (insn.priority != 0 <==> exists o :: o in r[1..] && "priority=" <= o)
  {
    OptionKeys(insn);
    NamedOption(OptionTail(insn), "priority=", insn.priority != 0, "priority=" + IntToString(insn.priority));
  }

  /** Every other attribute appears under its own name exactly when it is set,
      with its values joined by `:`. */
  lemma OptionsNamed(pal: Palette, insn: Insn)
    ensures var r := Options(pal, insn);
            && (insn.tags != [] <==> exists o :: o in r[1..] && "tags=" <= o)
            && (insn.tags != [] ==> "tags=" + Join(":", insn.tags) in r[1..])
            && (insn.groups != [] <==> exists o :: o in r[1..] && "groups=" <= o)
            && (insn.groups != [] ==> "groups=" + Join(":", insn.groups) in r[1..])
            && (insn.conflictsWithGroups != [] <==> exists o :: o in r[1..] && "conflicts=" <= o)
            && (insn.conflictsWithGroups != [] ==>
                  "conflicts=" + Join(":", insn.conflictsWithGroups) in r[1..])
            && (insn.noSyncWith != [] <==> exists o :: o in r[1..] && "no_sync_with=" <= o)
            && (insn.noSyncWith != [] ==> NoSyncOption(insn) in r[1..])
  {
    var tail := OptionTail(insn);
    OptionKeys(insn);
    NamedOption(tail, "tags=", insn.tags != [], "tags=" + Join(":", insn.tags));
    NamedOption(tail, "groups=", insn.groups != [], "groups=" + Join(":", insn.groups));
    NamedOption(tail, "conflicts=", insn.conflictsWithGroups != [],
                "conflicts=" + Join(":", insn.conflictsWithGroups));
    NamedOption(tail, "no_sync_with=", insn.noSyncWith != [], NoSyncOption(insn));
  }

  /** An option is present exactly when its attribute is set, once it is the
      only option with its name. */
  lemma NamedOption(tail: seq<string>, key: string, present: bool, text: string)
    requires present ==> text in tail && key <= text
    requires forall o :: o in tail ==> ((present && o == text) <==> key <= o)
    ensures present <==> exists o :: o in tail && key <= o
    ensures present ==> text in tail
  {
    if present {
      assert text in tail && key <= text;
    }
  }

  /** The strings in the tail are exactly the options of the attributes that
      are set. */
  lemma OptionMembers(insn: Insn)
    ensures forall o :: o in OptionTail(insn) <==>
              || (insn.priority != 0 && o == "priority=" + IntToString(insn.priority))
              || (insn.tags != [] && o == "tags=" + Join(":", insn.tags))
              || (insn.kind.MultiAssign? && insn.kind.atomicity != []
                  && o == "atomic=" + Join(":", if insn.kind.MultiAssign? then insn.kind.atomicity else []))
              || (insn.groups != [] && o == "groups=" + Join(":", insn.groups))
              || (insn.conflictsWithGroups != [] && o == "conflicts=" + Join(":", insn.conflictsWithGroups))
              || (insn.noSyncWith != [] && o == NoSyncOption(insn))
  {
  }

  /** Each option in the tail starts with the name of its attribute, and the
      names differ in their first letter; `priority=` comes first when set. */
  lemma OptionKeys(insn: Insn)
    ensures insn.priority != 0 ==> OptionTail(insn)[0] == "priority=" + IntToString(insn.priority)
    ensures insn.priority != 0 ==> "priority=" + IntToString(insn.priority) in OptionTail(insn)
    ensures insn.tags != [] ==> "tags=" + Join(":", insn.tags) in OptionTail(insn)
    ensures insn.groups != [] ==> "groups=" + Join(":", insn.groups) in OptionTail(insn)
    ensures insn.conflictsWithGroups != [] ==> "conflicts=" + Join(":", insn.conflictsWithGroups) in OptionTail(insn)
    ensures insn.noSyncWith != [] ==> NoSyncOption(insn) in OptionTail(insn)
    ensures forall o :: o in OptionTail(insn) ==>
              && ((insn.priority != 0 && o == "priority=" + IntToString(insn.priority)) <==> "priority=" <= o)
              && ((insn.tags != [] && o == "tags=" + Join(":", insn.tags)) <==> "tags=" <= o)
              && ((insn.groups != [] && o == "groups=" + Join(":", insn.groups)) <==> "groups=" <= o)
              && ((insn.conflictsWithGroups != [] && o == "conflicts=" + Join(":", insn.conflictsWithGroups))
                  <==> "conflicts=" <= o)
              && ((insn.noSyncWith != [] && o == NoSyncOption(insn)) <==> "no_sync_with=" <= o)
  {
    OptionMembers(insn);
    forall o | o in OptionTail(insn)
      ensures && ((insn.priority != 0 && o == "priority=" + IntToString(insn.priority)) <==> "priority=" <= o)
              && ((insn.tags != [] && o == "tags=" + Join(":", insn.tags)) <==> "tags=" <= o)
              && ((insn.groups != [] && o == "groups=" + Join(":", insn.groups)) <==> "groups=" <= o)
              && ((insn.conflictsWithGroups != [] && o == "conflicts=" + Join(":", insn.conflictsWithGroups))
                  <==> "conflicts=" <= o)
              && ((insn.noSyncWith != [] && o == NoSyncOption(insn)) <==> "no_sync_with=" <= o)
    {
      if insn.priority != 0 && o == "priority=" + IntToString(insn.priority) { assert o[0] == 'p'; }
      else if insn.tags != [] && o == "tags=" + Join(":", insn.tags) { assert o[0] == 't'; }
      else if insn.groups != [] && o == "groups=" + Join(":", insn.groups) { assert o[0] == 'g'; }
      else if insn.conflictsWithGroups != [] && o == "conflicts=" + Join(":", insn.conflictsWithGroups) {
        assert o[0] == 'c';
      } else if insn.noSyncWith != [] && o == NoSyncOption(insn) { assert o[0] == 'n'; }
      else { assert o[0] == 'a'; }
    }
  }

  // ------------------------------------------------------------------ layout

  /** The assignment in the middle of the row, coloured. */
  function Core(pal: Palette, s: Sides): string {
    if s.lhs != "" then pal.cyan + s.lhs + pal.reset + " <- " + pal.magenta + s.rhs + pal.reset
    else pal.magenta + s.rhs + pal.reset
  }

  /** `10*" " + "if (...)"` when the instruction has predicates. */
  function PredicateRows(insn: Insn): seq<string> {
    if insn.predicates == [] then [] else [Spaces(10) + "if (" + Join(" && ", insn.predicates) + ")"]
  }

  /** The head rows: one row when the loop list fits its width, otherwise the
      loop list on a row of its own and the core on the next. */
  function HeadRows(ll: string, arrows: string, extender: string, core: string, options: seq<string>)
    : (r: seq<string>)
    ensures |r| == if |ll| > LoopListWidth then 2 else 1
  {
    if |ll| > LoopListWidth then
      [arrows + " [" + ll + "]",
       extender + " " + Spaces(LoopListWidth + 2) + core + "   # " + Join(", ", options)]
    else
      [arrows + " [" + ll + "]" + Spaces(LoopListWidth - |ll|) + core + "   # " + Join(",", options)]
  }

  /** In both layouts the core starts in the same column, 38 characters after
      the arrows (or the extender); a wrapped loop list gets a row of its own,
      and the wrapped row separates the options with `", "` instead of `","`. */
  lemma HeadRowsColumn(ll: string, arrows: string, extender: string, core: string, options: seq<string>)
    ensures var r := HeadRows(ll, arrows, extender, core, options);
            |ll| <= LoopListWidth ==>
              && |r[0]| >= |arrows| + 38
              && r[0][..|arrows|] == arrows
              && r[0][|arrows| + 38..] == core + "   # " + Join(",", options)
              && r[0][|arrows|..|arrows| + 2 + |ll|] == " [" + ll
              && r[0][|arrows| + 2 + |ll|..|arrows| + 38] == "]" + Spaces(LoopListWidth - |ll|)
    ensures var r := HeadRows(ll, arrows, extender, core, options);
            |ll| > LoopListWidth ==>
              && r[0] == arrows + " [" + ll + "]"
              && |r[1]| >= |extender| + 38
              && r[1][..|extender|] == extender
              && r[1][|extender|..|extender| + 38] == Spaces(38)
              && r[1][|extender| + 38..] == core + "   # " + Join(", ", options)
  {
    var r := HeadRows(ll, arrows, extender, core, options);
    var tail := core + "   # " + Join(",", options);
    if |ll| <= LoopListWidth {
      var lead := arrows + " [" + ll + "]" + Spaces(LoopListWidth - |ll|);
      assert r[0] == lead + tail;
      assert |lead| == |arrows| + 38;
      assert lead[..|arrows|] == arrows;
      assert (lead + tail)[..|arrows|] == lead[..|arrows|];
      assert (lead + tail)[|arrows|..|arrows| + 2 + |ll|] == lead[|arrows|..|arrows| + 2 + |ll|];
      assert lead[|arrows|..|arrows| + 2 + |ll|] == " [" + ll;
      assert (lead + tail)[|arrows| + 2 + |ll|..|arrows| + 38] == lead[|arrows| + 2 + |ll|..];
      assert lead[|arrows| + 2 + |ll|..] == "]" + Spaces(LoopListWidth - |ll|);
    } else {
      var lead := extender + " " + Spaces(LoopListWidth + 2);
      var tail2 := core + "   # " + Join(", ", options);
      assert r[1] == lead + tail2;
      assert (lead + tail2)[..|extender|] == lead[..|extender|];
      assert (lead + tail2)[|extender|..|extender| + 38] == lead[|extender|..];
      assert lead[|extender|..] == " " + Spaces(LoopListWidth + 2);
    }
  }

  /** All rows for one instruction, given its arrows and extender. */
  function InsnRowsFor(k: Kernel, insn: Insn, arrows: string, extender: string): (r: Result<seq<string>, RowError>)
    ensures r.Err? <==> InsnSides(insn).Err? || MissingInames(k, insn) != {}
    ensures r.Err? <==> InsnSidesAsWritten(insn).Err? || MissingInames(k, insn) != {}
    ensures InsnSides(insn).Err? ==> r == Err(InsnSides(insn).error)
    ensures InsnSides(insn).Ok? && r.Err? ==>
              r.error.InameKeyError? && r.error.missing != {}
              && forall x :: x in r.error.missing ==> x in insn.inames && x !in k.inameOrder
  {
    match InsnSides(insn)
    case Err(e) => Err(e)
    case Ok(s) =>
      var missing := MissingInames(k, insn);
      if missing != {} then Err(InameKeyError(missing))
      else
        Ok(HeadRows(LoopList(k, insn), arrows, extender, Core(k.palette, s), Options(k.palette, insn))
           + s.trailing + PredicateRows(insn))
  }

  /** The rows of one instruction: the head rows, then one row per line of C
      code, then one row for the predicates if there are any. */
  lemma InsnRowsShape(k: Kernel, insn: Insn, arrows: string, extender: string)
    requires InsnRowsFor(k, insn, arrows, extender).Ok?
    ensures var rows := InsnRowsFor(k, insn, arrows, extender).value;
            var head := if |LoopList(k, insn)| > LoopListWidth then 2 else 1;
            var code := if insn.kind.CInsn? then CodeRows(insn.kind.code) else [];
            var preds := if insn.predicates == [] then 0 else 1;
            && |rows| == head + |code| + preds
            && rows[head..head + |code|] == code
            && (preds == 1 ==> rows[|rows| - 1] == Spaces(10) + "if (" + Join(" && ", insn.predicates) + ")")
  {
    var s := InsnSides(insn).value;
    assert MissingInames(k, insn) == {};
    var h := HeadRows(LoopList(k, insn), arrows, extender, Core(k.palette, s), Options(k.palette, insn));
    var rows := h + s.trailing + PredicateRows(insn);
    assert rows[|h|..|h| + |s.trailing|] == s.trailing;
  }
}
