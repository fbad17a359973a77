/** The translation of the submitted directives into replay lines
    (floopy/view.py, `process_kernel_transforms`): a first pass collects the
    type directives into one `add_and_infer_dtypes` call, a second pass turns
    each directive into at most one transform line and records the
    performance parameters, and the response carries the python script, the
    generated code or the message of the exception that stopped the
    translation. */
module Translation {
  import opened Results
  import opened Text
  import opened Directives
  import PyStr

  // ------------------------------------------------------------ first pass

  /** The entries of the type dictionary, from the first pass over the
      directives; the first directive that raises decides the error. */
  function TypeEntries(ts: seq<string>): Result<seq<string>, Failure>
    decreases |ts|
  {
    if ts == [] then Ok([])
    else
      match TypeEntries(ts[..|ts| - 1])
      case Err(e) => Err(e)
      case Ok(es) =>
        match ParseDirective(ts[|ts| - 1])
        case Err(e) => Err(e)
        case Ok(d) =>
          match TypeEntry(d)
          case Err(e) => Err(e)
          case Ok(entry) => Ok(es + if entry.Some? then [entry.value] else [])
  }

  /** The dictionary text that `add_and_infer_dtypes` receives. */
  function TypesDict(entries: seq<string>): string {
    if entries == [] then "{}" else "{ " + Join(",", entries) + "}"
  }

  /** The outcome of the first pass: the dictionary text or the error. */
  function TypesOf(ts: seq<string>): Result<string, Failure> {
    match TypeEntries(ts)
    case Err(e) => Err(e)
    case Ok(es) => Ok(TypesDict(es))
  }

  /** The second replay line. */
  function TypesLine(types: string): string {
    "lp.add_and_infer_dtypes(knl, " + types + ")"
  }

  /** The entries, each followed by a comma, as the loop accumulates them. */
  function Terminated(es: seq<string>): string
    decreases |es|
  {
    if es == [] then "" else Terminated(es[..|es| - 1]) + es[|es| - 1] + ","
  }

  lemma {:induction false} JoinSnoc(sep: string, es: seq<string>, e: string)
    requires es != []
    ensures Join(sep, es + [e]) == Join(sep, es) + sep + e
    decreases |es|
  {
    if |es| == 1 {
      assert (es + [e])[1..] == [e];
    } else {
      assert (es + [e])[1..] == es[1..] + [e];
      JoinSnoc(sep, es[1..], e);
    }
  }

  /** Dropping the last comma of the accumulated entries joins them by commas. */
  lemma {:induction false} TerminatedJoin(es: seq<string>)
    requires es != []
    ensures Terminated(es) == Join(",", es) + ","
    decreases |es|
  {
    var init, last := es[..|es| - 1], es[|es| - 1];
    if init == [] {
      assert es == [last];
    } else {
      TerminatedJoin(init);
      JoinSnoc(",", init, last);
      assert init + [last] == es;
    }
  }

  /** Dropping the last character of the accumulated text and closing the
      brace gives the dictionary, `{}` when there is no entry. */
  lemma TypesDictTrim(ts: seq<string>, es: seq<string>)
    requires TypeEntries(ts) == Ok(es)
    ensures var t := Accumulated(es); TypesOf(ts) == Ok(t[..|t| - 1] + "}")
  {
    var t := Accumulated(es);
    if es == [] {
      assert t == "{ ";
      assert t[..|t| - 1] + "}" == "{}";
    } else {
      TerminatedJoin(es);
      var j := Join(",", es);
      assert t == "{ " + j + ",";
      assert t[..|t| - 1] == "{ " + j;
    }
  }

  lemma {:induction false} TypeEntriesErrStays(ts: seq<string>, n: nat)
    requires n <= |ts| && TypeEntries(ts[..n]).Err?
    ensures TypeEntries(ts) == TypeEntries(ts[..n])
    decreases |ts| - n
  {
    if n < |ts| {
      var init := ts[..|ts| - 1];
      assert init[..n] == ts[..n];
      TypeEntriesErrStays(init, n);
    } else {
      assert ts[..n] == ts;
    }
  }

  /** One more directive in the first pass, when it is accepted. */
  lemma TypeEntriesStep(ts: seq<string>, i: nat, es: seq<string>, entry: Option<string>)
    requires i < |ts| && TypeEntries(ts[..i]) == Ok(es)
    requires ParseDirective(ts[i]).Ok? && TypeEntry(ParseDirective(ts[i]).value) == Ok(entry)
    ensures TypeEntries(ts[..i + 1]) == Ok(es + if entry.Some? then [entry.value] else [])
  {
    assert ts[..i + 1][..i] == ts[..i];
  }

  /** The first directive the first pass refuses decides its error. */
  lemma TypeEntriesRefused(ts: seq<string>, i: nat, es: seq<string>, e: Failure)
    requires i < |ts| && TypeEntries(ts[..i]) == Ok(es)
    requires ParseDirective(ts[i]) == Err(e)
             || (ParseDirective(ts[i]).Ok? && TypeEntry(ParseDirective(ts[i]).value) == Err(e))
    ensures TypesOf(ts) == Err(e)
  {
    assert ts[..i + 1][..i] == ts[..i];
    TypeEntriesErrStays(ts, i + 1);
  }

  /** The text the first loop has accumulated after the entries `es`. */
  function Accumulated(es: seq<string>): string {
    "{ " + Terminated(es)
  }

  lemma AccumulatedSnoc(es: seq<string>, e: string)
    ensures Accumulated(es + [e]) == Accumulated(es) + e + ","
  {
    assert (es + [e])[..|es|] == es;
  }

  /** The first loop of `process_kernel_transforms`: it accumulates
      `'which':type,` for every type directive and drops the last character
      before closing the brace. */
  method FirstPass(ts: seq<string>) returns (r: Result<string, Failure>)
    ensures r == TypesOf(ts)
  {
    var types := "{ ";
    ghost var es: seq<string> := [];
    var i := 0;
    while i < |ts|
      invariant 0 <= i <= |ts|
      invariant TypeEntries(ts[..i]) == Ok(es)
      invariant types == Accumulated(es)
    {
      var d := ParseDirective(ts[i]);
      if d.Err? {
        TypeEntriesRefused(ts, i, es, d.error);
        return Err(d.error);
      }
      if d.value.operation == "type" {
        var t := TypeName(d.value);
        if t.Err? {
          TypeEntriesRefused(ts, i, es, t.error);
          return Err(t.error);
        }
        var entry := Mps(d.value.which) + ":" + t.value;
        TypeEntriesStep(ts, i, es, Some(entry));
        AccumulatedSnoc(es, entry);
        types := types + entry + ",";
        es := es + [entry];
      } else {
        TypeEntriesStep(ts, i, es, None);
        assert es + [] == es;
      }
      i := i + 1;
    }
    assert ts[..|ts|] == ts;
    TypesDictTrim(ts, es);
    types := types[..|types| - 1] + "}";
    r := Ok(types);
  }

  /** A directive passes the first pass: it has three fields and, if it is a
      type directive, exactly one known type code. */
  predicate TypeAccepted(t: string) {
    ParseDirective(t).Ok?
    && (ParseDirective(t).value.operation == "type" ==> TypeName(ParseDirective(t).value).Ok?)
  }

  predicate IsTypeDirective(t: string) {
    ParseDirective(t).Ok? && ParseDirective(t).value.operation == "type"
  }

  /** The numpy types a type code can name. */
  const NumpyTypes: set<string> := {"np.float32", "np.float64", "np.int32"}

  /** An entry of the type dictionary: a quoted argument name and a numpy
      type. */
  ghost predicate IsTypeEntry(e: string) {
    exists w, ty :: ty in NumpyTypes && e == Mps(w) + ":" + ty
  }

  function CountTypes(ts: seq<string>): nat
    decreases |ts|
  {
    if ts == [] then 0 else CountTypes(ts[..|ts| - 1]) + if IsTypeDirective(ts[|ts| - 1]) then 1 else 0
  }

  /** The type entry a directive contributes: one for an accepted type
      directive, none for any other directive. */
  function EntryFor(t: string): (r: seq<string>)
    ensures |r| <= 1
    ensures IsTypeDirective(t) && TypeAccepted(t) ==>
              r == [Mps(ParseDirective(t).value.which) + ":" + TypeName(ParseDirective(t).value).value]
    ensures !IsTypeDirective(t) ==> r == []
  {
    match ParseDirective(t)
    case Err(_) => []
    case Ok(d) =>
      match TypeEntry(d)
      case Ok(Some(e)) => [e]
      case _ => []
  }

  /** The entries of the type dictionary are those of the type directives,
      in directive order. */
  lemma {:induction false} TypeEntriesInOrder(ts: seq<string>)
    requires TypeEntries(ts).Ok?
    ensures TypeEntries(ts).value == Concat(seq(|ts|, i requires 0 <= i < |ts| => EntryFor(ts[i])))
    decreases |ts|
  {
    if ts != [] {
      TypeEntriesSnoc(ts);
      TypeEntriesInOrder(ts[..|ts| - 1]);
      EntriesSnoc(ts);
    } else {
      assert seq(|ts|, i requires 0 <= i < |ts| => EntryFor(ts[i])) == [];
    }
  }

  lemma EntriesSnoc(ts: seq<string>)
    requires ts != []
    ensures Concat(seq(|ts|, i requires 0 <= i < |ts| => EntryFor(ts[i])))
            == Concat(seq(|ts| - 1, i requires 0 <= i < |ts| - 1 => EntryFor(ts[..|ts| - 1][i])))
               + EntryFor(ts[|ts| - 1])
  {
    var init := ts[..|ts| - 1];
    var a := seq(|init|, i requires 0 <= i < |init| => EntryFor(init[i]));
    var b := seq(|ts|, i requires 0 <= i < |ts| => EntryFor(ts[i]));
    assert b == a + [EntryFor(ts[|ts| - 1])];
    ConcatAppend(a, [EntryFor(ts[|ts| - 1])]);
    assert Concat([EntryFor(ts[|ts| - 1])]) == EntryFor(ts[|ts| - 1]);
  }

  /** One more directive adds its own entry, if any. */
  lemma TypeEntriesSnoc(ts: seq<string>)
    requires ts != [] && TypeEntries(ts).Ok?
    ensures TypeEntries(ts[..|ts| - 1]).Ok?
    ensures TypeEntries(ts).value == TypeEntries(ts[..|ts| - 1]).value + EntryFor(ts[|ts| - 1])
  {
  }

  /** The first pass succeeds exactly when every directive is accepted, and
      then has one entry per type directive, each a quoted argument name and
      one of the three numpy types. */
  lemma {:induction false} TypeEntriesSpec(ts: seq<string>)
    ensures TypeEntries(ts).Ok? <==> forall i :: 0 <= i < |ts| ==> TypeAccepted(ts[i])
    ensures TypeEntries(ts).Ok? ==> |TypeEntries(ts).value| == CountTypes(ts)
    ensures TypeEntries(ts).Ok? ==>
              forall j :: 0 <= j < |TypeEntries(ts).value| ==> IsTypeEntry(TypeEntries(ts).value[j])
    decreases |ts|
  {
    if ts != [] {
      var init, last := ts[..|ts| - 1], ts[|ts| - 1];
      TypeEntriesSpec(init);
      assert forall i :: 0 <= i < |init| ==> init[i] == ts[i];
      if TypeEntries(ts).Ok? {
        var es := TypeEntries(init).value;
        var d := ParseDirective(last).value;
        if d.operation == "type" {
          var x := Mps(d.which) + ":" + TypeName(d).value;
          assert TypeEntries(ts).value == es + [x];
          forall j | 0 <= j < |es + [x]|
            ensures IsTypeEntry((es + [x])[j])
          {
            if j == |es| {
              assert TypeName(d).value in NumpyTypes;
              assert (es + [x])[j] == Mps(d.which) + ":" + TypeName(d).value;
            } else {
              assert (es + [x])[j] == es[j];
            }
          }
        } else {
          assert es + [] == es;
          assert TypeEntries(ts).value == es;
        }
      } else if TypeEntries(init).Ok? {
        assert !TypeAccepted(ts[|ts| - 1]);
      }
    }
  }

  /** The last character of a join is that of its last part. */
  lemma {:induction false} JoinLast(sep: string, es: seq<string>)
    requires es != [] && es[|es| - 1] != []
    ensures var j := Join(sep, es); j != [] && j[|j| - 1] == es[|es| - 1][|es[|es| - 1]| - 1]
  {
    if |es| > 1 {
      var init := es[..|es| - 1];
      JoinSnoc(sep, init, es[|es| - 1]);
      assert init + [es[|es| - 1]] == es;
    }
  }

  /** With no type directive the dictionary is empty; otherwise its last
      character before the brace closes a type name, so no comma trails. */
  lemma TypesDictShape(entries: seq<string>)
    requires forall j :: 0 <= j < |entries| ==> IsTypeEntry(entries[j])
    ensures entries == [] ==> TypesDict(entries) == "{}"
    ensures entries != [] ==>
              var t := TypesDict(entries);
              t[..2] == "{ " && t[|t| - 1] == '}' && t[|t| - 2] != ','
  {
    if entries != [] {
      TypeEntryEnd(entries[|entries| - 1]);
      JoinLast(",", entries);
      var j := Join(",", entries);
      assert TypesDict(entries) == "{ " + j + "}";
    }
  }

  /** A type entry ends with the last digit of its numpy type. */
  lemma TypeEntryEnd(e: string)
    requires IsTypeEntry(e)
    ensures e != [] && e[|e| - 1] != ','
  {
    var w, ty :| ty in NumpyTypes && e == Mps(w) + ":" + ty;
    assert e[|e| - 1] == ty[|ty| - 1];
  }

  // ----------------------------------------------------------- second pass

  /** What one directive contributes: a replay line, the performance flag and
      a performance parameter. */
  datatype Effect = Effect(line: Option<string>, perf: bool, value: Option<(string, int)>)

  function Line(l: string): Effect { Effect(Some(l), false, None) }

  const Nothing := Effect(None, false, None)

  /** The options of an `arg` or `rule` directive: a single empty option
      (a directive ending in a colon) means no options. */
  function Options(d: Directive): seq<string> {
    if d.options == [""] then [] else d.options
  }

  function InameEffect(d: Directive): Result<Effect, Failure> {
    var o := d.options;
    if d.operation == "split" then
      if |o| != 3 then Err(ArityViolated)
      else Ok(Line("lp.split_iname(knl," + Mps(d.which) + " , " + o[0] + ", slabs = (" + o[1] + ", " + o[2] + "))"))
    else if d.operation == "tag" then
      if |o| != 1 then Err(ArityViolated)
      else Ok(Line("lp.tag_inames(knl, [( " + Mps(d.which) + "," + Mps(o[0]) + "),])"))
    else if d.operation == "prioritize" then
      if |o| != 1 then Err(ArityViolated)
      else Ok(Line("lp.prioritize_loops(knl," + Mps(o[0]) + ")"))
    else Ok(Nothing)
  }

  function ArgEffect(d: Directive): Result<Effect, Failure> {
    var o := Options(d);
    if d.operation == "prefetch" then
      Ok(Line("lp.add_prefetch(knl, " + Mps(d.which) + "," + PyStr.ListRepr(o) + ")"))
    else if d.operation == "subst" then
      if |o| < 3 then Err(IndexOutOfRange)
      else Ok(Line("lp.extract_subst(knl, " + Mps(o[0]) + "," + Mps(d.which + "[" + o[1] + "]")
                   + ", parameters = " + Mps(o[2]) + ")"))
    else if d.operation == "split" then
      if |o| < 2 then Err(IndexOutOfRange)
      else Ok(Line("lp.split_array_axis(knl, " + Mps(d.which) + "," + o[0] + ", " + o[1] + ")"))
    else if d.operation == "perf" then
      if |o| < 1 then Err(IndexOutOfRange)
      else
        match PyStr.ParseInt(o[0])
        case None => Err(InvalidLiteral(o[0]))
        case Some(v) => Ok(Effect(None, true, Some((d.which, v))))
    else Ok(Nothing)
  }

  function RuleEffect(d: Directive): Result<Effect, Failure> {
    if d.operation == "precompute" then
      Ok(Effect(Some("lp.precompute(knl, " + Mps(d.which) + "," + PyStr.ListRepr(Options(d)) + ")"), true, None))
    else Ok(Nothing)
  }

  /** The directives that write a replay line. */
  predicate EmitsLine(d: Directive) {
    || (d.target == "iname" && d.operation in {"split", "tag", "prioritize"})
    || (d.target == "arg" && d.operation in {"prefetch", "subst", "split"})
    || (d.target == "rule" && d.operation == "precompute")
    || d.target == "any"
  }

  /** The directives that ask for a timed run. */
  predicate SetsFlag(d: Directive) {
    (d.target == "arg" && d.operation == "perf") || (d.target == "rule" && d.operation == "precompute")
  }

  /** The directives that raise in the second pass: a wrong number of
      options for an `iname` transform, a missing option of an `arg`
      transform, or a bound that is not an integer. */
  predicate Rejected(d: Directive) {
    || (d.target == "iname" && d.operation == "split" && |d.options| != 3)
    || (d.target == "iname" && d.operation in {"tag", "prioritize"} && |d.options| != 1)
    || (d.target == "arg" && d.operation == "subst" && |Options(d)| < 3)
    || (d.target == "arg" && d.operation == "split" && |Options(d)| < 2)
    || (d.target == "arg" && d.operation == "perf" && (|Options(d)| < 1 || PyStr.ParseInt(Options(d)[0]).None?))
  }

  /** The second pass on one directive. */
  function TransformEffect(d: Directive): Result<Effect, Failure> {
    if d.target == "iname" then InameEffect(d)
    else if d.target == "arg" then ArgEffect(d)
    else if d.target == "rule" then RuleEffect(d)
    else if d.target == "any" then Ok(Line(d.operation))
    else Ok(Nothing)
  }

  /** A directive raises exactly when it is rejected; otherwise it writes a
      line exactly when the table of transforms says so, sets the flag
      exactly for perf and precompute, records the integer bound of a perf
      directive under its argument, and an `any` directive writes its
      operation field verbatim. */
  lemma TransformEffectSpec(d: Directive)
    ensures TransformEffect(d).Err? <==> Rejected(d)
    ensures var r := TransformEffect(d);
            && (r.Ok? ==> (r.value.line.Some? <==> EmitsLine(d)))
            && (r.Ok? ==> (r.value.perf <==> SetsFlag(d)))
            && (r.Ok? ==> (r.value.value.Some? <==> d.target == "arg" && d.operation == "perf"))
            && (r.Ok? && r.value.value.Some? ==>
                  r.value.value.value.0 == d.which && PyStr.ParseInt(Options(d)[0]) == Some(r.value.value.value.1))
            && (r.Ok? && d.target == "any" ==> r.value.line == Some(d.operation))
  {
  }

  /** An `arg` or `rule` directive ending in a colon reads as one without
      options. */
  lemma EmptyOptionIgnored(d: Directive)
    requires d.target == "arg" || d.target == "rule"
    ensures TransformEffect(d.(options := [""])) == TransformEffect(d.(options := []))
  {
  }

  /** The arity checks of the `iname` transforms. */
  lemma InameArity(d: Directive)
    requires d.target == "iname"
    ensures d.operation == "split" ==> (TransformEffect(d).Err? <==> |d.options| != 3)
    ensures d.operation == "tag" || d.operation == "prioritize" ==>
              (TransformEffect(d).Err? <==> |d.options| != 1)
    ensures TransformEffect(d).Err? ==> TransformEffect(d).error == ArityViolated
  {
  }

  /** The state of the second pass: the replay lines, the flag and
      `value_dict`. */
  datatype Replay = Replay(lines: seq<string>, perf: bool, values: map<string, int>)

  function Apply(s: Replay, e: Effect): Replay {
    Replay(s.lines + (if e.line.Some? then [e.line.value] else []),
           s.perf || e.perf,
           if e.value.Some? then s.values[e.value.value.0 := e.value.value.1] else s.values)
  }

  /** The second pass from state `start`; the first directive that raises
      decides the error. */
  function ReplayFrom(start: Replay, ts: seq<string>): Result<Replay, Failure>
    decreases |ts|
  {
    if ts == [] then Ok(start)
    else
      match ReplayFrom(start, ts[..|ts| - 1])
      case Err(e) => Err(e)
      case Ok(s) =>
        match ParseDirective(ts[|ts| - 1])
        case Err(e) => Err(e)
        case Ok(d) =>
          match TransformEffect(d)
          case Err(e) => Err(e)
          case Ok(eff) => Ok(Apply(s, eff))
  }

  lemma {:induction false} ReplayErrStays(start: Replay, ts: seq<string>, n: nat)
    requires n <= |ts| && ReplayFrom(start, ts[..n]).Err?
    ensures ReplayFrom(start, ts) == ReplayFrom(start, ts[..n])
    decreases |ts| - n
  {
    if n < |ts| {
      var init := ts[..|ts| - 1];
      assert init[..n] == ts[..n];
      ReplayErrStays(start, init, n);
    } else {
      assert ts[..n] == ts;
    }
  }

  /** One more directive in the second pass, when it is accepted. */
  lemma ReplayStep(start: Replay, ts: seq<string>, i: nat, s: Replay, eff: Effect)
    requires i < |ts| && ReplayFrom(start, ts[..i]) == Ok(s)
    requires ParseDirective(ts[i]).Ok? && TransformEffect(ParseDirective(ts[i]).value) == Ok(eff)
    ensures ReplayFrom(start, ts[..i + 1]) == Ok(Apply(s, eff))
  {
    assert ts[..i + 1][..i] == ts[..i];
  }

  /** The first directive the second pass refuses decides its error. */
  lemma ReplayRefused(start: Replay, ts: seq<string>, i: nat, s: Replay, e: Failure)
    requires i < |ts| && ReplayFrom(start, ts[..i]) == Ok(s)
    requires ParseDirective(ts[i]) == Err(e)
             || (ParseDirective(ts[i]).Ok? && TransformEffect(ParseDirective(ts[i]).value) == Err(e))
    ensures ReplayFrom(start, ts) == Err(e)
  {
    assert ts[..i + 1][..i] == ts[..i];
    ReplayErrStays(start, ts, i + 1);
  }

  /** The second loop of `process_kernel_transforms`, appending to `lines`
      and updating the flag and `value_dict` in place. */
  method SecondPass(start: Replay, ts: seq<string>) returns (r: Result<Replay, Failure>)
    ensures r == ReplayFrom(start, ts)
  {
    var lines := start.lines;
    var perf := start.perf;
    var values := start.values;
    var i := 0;
    while i < |ts|
      invariant 0 <= i <= |ts|
      invariant ReplayFrom(start, ts[..i]) == Ok(Replay(lines, perf, values))
    {
      ghost var before := Replay(lines, perf, values);
      var d := ParseDirective(ts[i]);
      if d.Err? {
        ReplayRefused(start, ts, i, before, d.error);
        return Err(d.error);
      }
      var eff := TransformEffect(d.value);
      if eff.Err? {
        ReplayRefused(start, ts, i, before, eff.error);
        return Err(eff.error);
      }
      ReplayStep(start, ts, i, before, eff.value);
      if eff.value.line.Some? {
        lines := lines + [eff.value.line.value];
      }
      if eff.value.perf {
        perf := true;
      }
      if eff.value.value.Some? {
        values := values[eff.value.value.value.0 := eff.value.value.value.1];
      }
      assert Replay(lines, perf, values) == Apply(before, eff.value);
      i := i + 1;
    }
    assert ts[..|ts|] == ts;
    return Ok(Replay(lines, perf, values));
  }

  // ------------------------------------------------ properties of the replay

  /** The line one directive writes, as a list of zero or one lines. */
  function LineOf(t: string): seq<string> {
    match ParseDirective(t)
    case Err(_) => []
    case Ok(d) =>
      match TransformEffect(d)
      case Ok(Effect(Some(l), _, _)) => [l]
      case _ => []
  }

  function LinesOf(ts: seq<string>): seq<string> {
    Concat(seq(|ts|, i requires 0 <= i < |ts| => LineOf(ts[i])))
  }

  /** A directive the second pass accepts. */
  predicate Accepted(t: string) {
    ParseDirective(t).Ok? && TransformEffect(ParseDirective(t).value).Ok?
  }

  /** The effect of an accepted directive. */
  function EffectOf(t: string): Effect
    requires Accepted(t)
  {
    TransformEffect(ParseDirective(t).value).value
  }

  predicate Flags(t: string) {
    ParseDirective(t).Ok? && SetsFlag(ParseDirective(t).value)
  }

  /** A successful replay ends with the effect of its last directive. */
  lemma ReplaySnoc(start: Replay, ts: seq<string>)
    requires ts != [] && ReplayFrom(start, ts).Ok?
    ensures ReplayFrom(start, ts[..|ts| - 1]).Ok? && Accepted(ts[|ts| - 1])
    ensures ReplayFrom(start, ts).value
            == Apply(ReplayFrom(start, ts[..|ts| - 1]).value, EffectOf(ts[|ts| - 1]))
  {
  }

  lemma PrefixAgrees(ts: seq<string>)
    requires ts != []
    ensures forall i :: 0 <= i < |ts| - 1 ==> ts[..|ts| - 1][i] == ts[i]
  {
  }

  /** The second pass succeeds exactly when it accepts every directive. */
  lemma {:induction false} ReplayAccepts(start: Replay, ts: seq<string>)
    ensures ReplayFrom(start, ts).Ok? <==> forall i :: 0 <= i < |ts| ==> Accepted(ts[i])
    decreases |ts|
  {
    if ts != [] {
      var init := ts[..|ts| - 1];
      ReplayAccepts(start, init);
      PrefixAgrees(ts);
      if ReplayFrom(start, ts).Ok? {
        ReplaySnoc(start, ts);
      } else if ReplayFrom(start, init).Ok? {
        assert !Accepted(ts[|ts| - 1]);
      }
    }
  }

  /** The lines the second pass adds are those of the directives, in order. */
  lemma {:induction false} ReplayLines(start: Replay, ts: seq<string>)
    requires ReplayFrom(start, ts).Ok?
    ensures ReplayFrom(start, ts).value.lines == start.lines + LinesOf(ts)
    decreases |ts|
  {
    if ts == [] {
      assert LinesOf(ts) == [];
    } else {
      ReplaySnoc(start, ts);
      ReplayLines(start, ts[..|ts| - 1]);
      LinesOfSnoc(ts);
    }
  }

  /** The flag is set exactly when some directive asks for a timed run. */
  lemma {:induction false} ReplayPerf(start: Replay, ts: seq<string>)
    requires ReplayFrom(start, ts).Ok?
    ensures ReplayFrom(start, ts).value.perf <==> start.perf || exists i :: 0 <= i < |ts| && Flags(ts[i])
    decreases |ts|
  {
    if ts != [] {
      var init, last := ts[..|ts| - 1], ts[|ts| - 1];
      ReplaySnoc(start, ts);
      ReplayPerf(start, init);
      PrefixAgrees(ts);
      if Flags(last) {
        assert Flags(ts[|ts| - 1]);
      }
      if exists i :: 0 <= i < |ts| && Flags(ts[i]) {
        var i :| 0 <= i < |ts| && Flags(ts[i]);
        if i < |init| {
          assert Flags(init[i]);
        }
      }
    }
  }

  lemma LinesOfSnoc(ts: seq<string>)
    requires ts != []
    ensures LinesOf(ts) == LinesOf(ts[..|ts| - 1]) + LineOf(ts[|ts| - 1])
  {
    var init := ts[..|ts| - 1];
    var a := seq(|init|, i requires 0 <= i < |init| => LineOf(init[i]));
    var b := seq(|ts|, i requires 0 <= i < |ts| => LineOf(ts[i]));
    assert b == a + [LineOf(ts[|ts| - 1])];
    ConcatAppend(a, [LineOf(ts[|ts| - 1])]);
    assert Concat([LineOf(ts[|ts| - 1])]) == LineOf(ts[|ts| - 1]);
  }

  /** `arg:which:perf:bound`. */
  predicate PerfFor(t: string, w: string) {
    ParseDirective(t).Ok? && ParseDirective(t).value.target == "arg"
    && ParseDirective(t).value.operation == "perf" && ParseDirective(t).value.which == w
  }

  /** The bound of a perf directive, read by `int`. */
  function PerfValue(t: string): Option<int> {
    match ParseDirective(t)
    case Ok(d) => if d.operation == "perf" && |Options(d)| >= 1 then PyStr.ParseInt(Options(d)[0]) else None
    case Err(_) => None
  }

  /** One accepted directive updates `value_dict` at `w` exactly when it is
      a perf directive for `w`. */
  lemma ApplyValueAt(s: Replay, t: string, w: string)
    requires Accepted(t)
    ensures PerfFor(t, w) ==>
              w in Apply(s, EffectOf(t)).values && PerfValue(t) == Some(Apply(s, EffectOf(t)).values[w])
    ensures !PerfFor(t, w) ==>
              (w in Apply(s, EffectOf(t)).values <==> w in s.values)
              && (w in s.values ==> Apply(s, EffectOf(t)).values[w] == s.values[w])
  {
    TransformEffectSpec(ParseDirective(t).value);
  }

  /** `value_dict` holds an argument exactly when some perf directive names
      it. */
  lemma {:induction false} ReplayValueKeys(start: Replay, ts: seq<string>, w: string)
    requires ReplayFrom(start, ts).Ok?
    ensures w in ReplayFrom(start, ts).value.values <==>
              w in start.values || exists i :: 0 <= i < |ts| && PerfFor(ts[i], w)
    decreases |ts|
  {
    if ts != [] {
      var init, last := ts[..|ts| - 1], ts[|ts| - 1];
      ReplaySnoc(start, ts);
      ReplayValueKeys(start, init, w);
      ApplyValueAt(ReplayFrom(start, init).value, last, w);
      PrefixAgrees(ts);
      if PerfFor(last, w) {
        assert PerfFor(ts[|ts| - 1], w);
      }
      if exists i :: 0 <= i < |ts| && PerfFor(ts[i], w) {
        var i :| 0 <= i < |ts| && PerfFor(ts[i], w);
        if i < |init| {
          assert PerfFor(init[i], w);
        }
      }
    }
  }

  /** The last perf directive naming an argument decides its bound. */
  lemma {:induction false} ReplayLastValue(start: Replay, ts: seq<string>, w: string, i: nat)
    requires ReplayFrom(start, ts).Ok?
    requires i < |ts| && PerfFor(ts[i], w)
    requires forall j :: i < j < |ts| ==> !PerfFor(ts[j], w)
    ensures w in ReplayFrom(start, ts).value.values
    ensures PerfValue(ts[i]) == Some(ReplayFrom(start, ts).value.values[w])
    decreases |ts|
  {
    var init, last := ts[..|ts| - 1], ts[|ts| - 1];
    ReplaySnoc(start, ts);
    ApplyValueAt(ReplayFrom(start, init).value, last, w);
    if i < |init| {
      PrefixAgrees(ts);
      assert !PerfFor(last, w) by {
        assert !PerfFor(ts[|ts| - 1], w);
      }
      assert PerfFor(init[i], w);
      assert forall j :: i < j < |init| ==> !PerfFor(init[j], w) by {
        forall j | i < j < |init| ensures !PerfFor(init[j], w) {
          assert init[j] == ts[j];
        }
      }
      ReplayLastValue(start, init, w, i);
    }
  }

  // ---------------------------------------------------------------- response

  /** `lines` once both passes are over. */
  function Translation(ts: seq<string>, pTarget: string): Result<Replay, Failure> {
    match TypesOf(ts)
    case Err(e) => Err(e)
    case Ok(types) => ReplayFrom(Replay([MakeKernelLine(pTarget), TypesLine(types)], false, map[]), ts)
  }

  /** The translation step of `process_kernel_transforms`. */
  method Translate(ts: seq<string>, pTarget: string) returns (r: Result<Replay, Failure>)
    ensures r == Translation(ts, pTarget)
  {
    var types := FirstPass(ts);
    if types.Err? {
      return Err(types.error);
    }
    var start := Replay([MakeKernelLine(pTarget), TypesLine(types.value)], false, map[]);
    r := SecondPass(start, ts);
  }

  /** The translation succeeds exactly when both passes accept every
      directive. */
  lemma TranslationAccepts(ts: seq<string>, pTarget: string)
    ensures Translation(ts, pTarget).Ok? <==>
              forall i :: 0 <= i < |ts| ==> TypeAccepted(ts[i]) && Accepted(ts[i])
  {
    TypeEntriesSpec(ts);
    if TypesOf(ts).Ok? {
      ReplayAccepts(Replay([MakeKernelLine(pTarget), TypesLine(TypesOf(ts).value)], false, map[]), ts);
    }
  }

  /** The replay lines: the kernel is built first, then typed, then every
      directive adds its line in order; the flag is set exactly when a perf
      or precompute directive is present. */
  lemma TranslationLines(ts: seq<string>, pTarget: string)
    requires Translation(ts, pTarget).Ok?
    ensures TypesOf(ts).Ok?
    ensures Translation(ts, pTarget).value.lines
            == [MakeKernelLine(pTarget), TypesLine(TypesOf(ts).value)] + LinesOf(ts)
    ensures Translation(ts, pTarget).value.perf <==> exists i :: 0 <= i < |ts| && Flags(ts[i])
  {
    var start := Replay([MakeKernelLine(pTarget), TypesLine(TypesOf(ts).value)], false, map[]);
    assert Translation(ts, pTarget) == ReplayFrom(start, ts);
    ReplayLines(start, ts);
    ReplayPerf(start, ts);
  }

  /** `value_dict` holds exactly the arguments some perf directive names. */
  lemma TranslationValues(ts: seq<string>, pTarget: string, w: string)
    requires Translation(ts, pTarget).Ok?
    ensures w in Translation(ts, pTarget).value.values <==> exists i :: 0 <= i < |ts| && PerfFor(ts[i], w)
  {
    var start := Replay([MakeKernelLine(pTarget), TypesLine(TypesOf(ts).value)], false, map[]);
    assert Translation(ts, pTarget) == ReplayFrom(start, ts);
    ReplayValueKeys(start, ts, w);
  }

  /** The python script: one `knl = <line>` per replay line. */
  function Script(lines: seq<string>): string {
    Join("\n", seq(|lines|, i requires 0 <= i < |lines| => "knl = " + lines[i]))
  }

  /** The script has one statement per line, in order. */
  lemma ScriptLines(lines: seq<string>)
    requires lines != []
    requires forall i :: 0 <= i < |lines| ==> '\n' !in lines[i]
    ensures Split(Script(lines), '\n') == seq(|lines|, i requires 0 <= i < |lines| => "knl = " + lines[i])
  {
    var stmts := seq(|lines|, i requires 0 <= i < |lines| => "knl = " + lines[i]);
    forall i | 0 <= i < |stmts| ensures '\n' !in stmts[i] {
      assert '\n' !in "knl = ";
    }
    SplitJoin(stmts, '\n');
  }

  /** The JSON response, apart from the kernel's own renderings: `code`,
      `err`, the echoed `transforms`, and the performance parameters a
      timed run would use. */
  datatype Response = Response(code: string, err: bool, transforms: seq<string>, timedWith: Option<map<string, int>>)

  /** `process_kernel_transforms` for the directives `ts` and the target
      `pTarget`; `deviceCode` stands for the generated device code. */
  function Respond(ts: seq<string>, pTarget: string, deviceCode: string): (r: Response)
    ensures r.transforms == ts
    ensures r.err <==> Translation(ts, pTarget).Err?
    ensures r.err ==> r.code == Message(Translation(ts, pTarget).error) && r.timedWith.None?
    ensures !r.err && pTarget == "python" ==> r.code == Script(Translation(ts, pTarget).value.lines)
    ensures !r.err && pTarget != "python" ==> r.code == deviceCode
    ensures r.timedWith.Some? <==> !r.err && Translation(ts, pTarget).value.perf
    ensures r.timedWith.Some? ==> r.timedWith.value == Translation(ts, pTarget).value.values
  {
    match Translation(ts, pTarget)
    case Err(e) => Response(Message(e), true, ts, None)
    case Ok(rp) =>
      Response(if pTarget == "python" then Script(rp.lines) else deviceCode, false, ts,
               if rp.perf then Some(rp.values) else None)
  }

  /** The request handler, from the directive list to the response. */
  method ProcessKernelTransforms(ts: seq<string>, pTarget: string, deviceCode: string) returns (r: Response)
    ensures r == Respond(ts, pTarget, deviceCode)
  {
    var t := Translate(ts, pTarget);
    if t.Err? {
      return Response(Message(t.error), true, ts, None);
    }
    var code := deviceCode;
    if pTarget == "python" {
      code := Script(t.value.lines);
    }
    var timed: Option<map<string, int>> := None;
    if t.value.perf {
      timed := Some(t.value.values);
    }
    r := Response(code, false, ts, timed);
  }
}
