/** The pieces of `process_kernel_transforms` (floopy/view.py) that read one
    directive `target:which:operation[:option…]` or build one fragment of
    Python source: `mps`, the choice of code-generation target, the split of
    a directive into its fields, the type codes and the messages of the
    exceptions the translation can raise. */
module Directives {
  import opened Results
  import opened Text
  import PyStr

  /** `mps(thing)`: the text of `thing` between single quotes, with one space
      on each side. */
  function Mps(s: string): (r: string)
    ensures |r| == |s| + 4
    ensures r[..2] == " '" && r[|r| - 2..] == "' "
  {
    " '" + s + "' "
  }

  /** What `mps` wrapped. */
  function Unmps(r: string): string
    requires |r| >= 4
  {
    r[2..|r| - 2]
  }

  /** `mps` keeps its argument intact between the quotes. */
  lemma MpsRoundTrip(s: string)
    ensures Unmps(Mps(s)) == s
  {
  }

  lemma MpsInjective(a: string, b: string)
    requires Mps(a) == Mps(b)
    ensures a == b
  {
    MpsRoundTrip(a);
    MpsRoundTrip(b);
  }

  // ----------------------------------------------------------------- target

  /** The Python expression for the requested target: `c` and `cuda` are
      recognised, everything else (`python` included) means OpenCL. */
  function TargetExpr(pTarget: string): (r: string)
    ensures pTarget == "c" <==> r == "lp.CTarget()"
    ensures pTarget == "cuda" <==> r == "lp.CudaTarget()"
    ensures pTarget != "c" && pTarget != "cuda" <==> r == "lp.OpenCLTarget()"
  {
    if pTarget == "c" then "lp.CTarget()"
    else if pTarget == "cuda" then "lp.CudaTarget()"
    else "lp.OpenCLTarget()"
  }

  /** The first replay line: the kernel is built from the submitted domain and
      instructions, for the chosen target. */
  function MakeKernelLine(pTarget: string): string {
    "lp.make_kernel(p_range,p_kernel,options=lp.Options(allow_terminal_colors=False), target="
    + TargetExpr(pTarget) + ")"
  }

  // ------------------------------------------------------------- exceptions

  /** The exceptions the translation raises before anything is evaluated. */
  datatype Failure =
    | Unpack(got: nat)           // ValueError: fewer than three fields to unpack
    | ArityViolated              // AssertionError of an `assert(len(options) == n)`
    | UnknownType(which: string) // ValueError raised for an unknown type code
    | IndexOutOfRange            // IndexError: a missing option
    | InvalidLiteral(text: string) // ValueError of `int(...)`

  const UnpackPrefix: string := "not enough values to unpack (expected 3, got "
  const LiteralPrefix: string := "invalid literal for int() with base 10: "
  const UnknownTypePrefix: string := "Unknown type requested for argument "

  /** `%.200R` of a string: its `repr`, cut to the first 200 characters. */
  function LiteralRepr(t: string): (r: string)
    ensures |r| <= 200
    ensures |r| == (if |PyStr.Repr(t)| <= 200 then |PyStr.Repr(t)| else 200)
    ensures r == PyStr.Repr(t)[..|r|]
  {
    var full := PyStr.Repr(t);
    if |full| <= 200 then full else full[..200]
  }

  /** `str(inst)`, the text returned as `code` when the translation fails. */
  function Message(f: Failure): (r: string)
    ensures r == [] <==> f.ArityViolated?
    ensures f.InvalidLiteral? ==> |r| <= |LiteralPrefix| + 200
  {
    match f
    case Unpack(n) => UnpackPrefix + NatToString(n) + ")"
    case ArityViolated => ""
    case UnknownType(w) => UnknownTypePrefix + w
    case IndexOutOfRange => "list index out of range"
    case InvalidLiteral(t) => LiteralPrefix + LiteralRepr(t)
  }

  /** The unpacking message reports how many fields the directive had. */
  lemma UnpackMessage(n: nat)
    ensures var m := Message(Unpack(n));
            var k := |UnpackPrefix|;
            && |m| >= k + 2 && m[..k] == UnpackPrefix && m[|m| - 1] == ')'
            && AllDigits(m[k..|m| - 1]) && DigitsValue(m[k..|m| - 1]) == n
  {
    var m := Message(Unpack(n));
    var k := |UnpackPrefix|;
    assert m[k..|m| - 1] == NatToString(n);
    NatToStringRoundTrip(n);
  }

  /** An `AssertionError` has an empty message; a missing option gives the
      `IndexError` text of a list. */
  lemma FixedMessages()
    ensures Message(ArityViolated) == ""
    ensures Message(IndexOutOfRange) == "list index out of range"
  {
  }

  /** The message of an unknown type code ends with the argument's name. */
  lemma UnknownTypeNamesArgument(which: string)
    ensures var m := Message(UnknownType(which));
            |m| >= |which| && m[|m| - |which|..] == which
  {
  }

  /** The `int()` message quotes the literal: from a `repr` of at most 200
      characters the literal can be read back; a longer one is cut, so the
      message never exceeds 240 characters. */
  lemma InvalidLiteralMessage(t: string)
    ensures var m := Message(InvalidLiteral(t));
            |m| <= |LiteralPrefix| + 200 && m[..|LiteralPrefix|] == LiteralPrefix
    ensures |PyStr.Repr(t)| <= 200 ==>
              PyStr.Unrepr(Message(InvalidLiteral(t))[|LiteralPrefix|..]) == Some(t)
    ensures |t| >= 199 ==> |Message(InvalidLiteral(t))| == |LiteralPrefix| + 200
  {
    var m := Message(InvalidLiteral(t));
    assert m[|LiteralPrefix|..] == LiteralRepr(t);
    PyStr.ReprRoundTrip(t);
  }

  // -------------------------------------------------------------- directive

  /** A directive split into `target, which, operation` and the options. */
  datatype Directive = Directive(target: string, which: string, operation: string, options: seq<string>)

  /** `transf.split(':')`, unpacked into the first three fields and the rest. */
  function ParseDirective(s: string): (r: Result<Directive, Failure>)
    ensures r.Err? <==> |Split(s, ':')| < 3
    ensures r.Err? ==> r.error == Unpack(|Split(s, ':')|)
  {
    var f := Split(s, ':');
    if |f| < 3 then Err(Unpack(|f|)) else Ok(Directive(f[0], f[1], f[2], f[3..]))
  }

  /** The fields of a directive, in order. */
  function Fields(d: Directive): seq<string> {
    [d.target, d.which, d.operation] + d.options
  }

  /** A parsed directive is the directive text, cut at every colon. */
  lemma ParseDirectiveFields(s: string)
    requires ParseDirective(s).Ok?
    ensures Join(":", Fields(ParseDirective(s).value)) == s
    ensures forall i :: 0 <= i < |Fields(ParseDirective(s).value)| ==> ':' !in Fields(ParseDirective(s).value)[i]
  {
    var f := Split(s, ':');
    assert Fields(ParseDirective(s).value) == f;
    JoinSplit(s, ':');
    SplitFieldsFree(s, ':');
  }

  /** Fields without colons, joined by colons, parse back to the directive. */
  lemma ParseDirectiveJoin(d: Directive)
    requires forall i :: 0 <= i < |Fields(d)| ==> ':' !in Fields(d)[i]
    ensures ParseDirective(Join(":", Fields(d))) == Ok(d)
  {
    SplitJoin(Fields(d), ':');
    assert Fields(d)[3..] == d.options;
  }

  /** A directive with only two fields cannot be unpacked. */
  lemma TwoFieldsRaise()
    ensures ParseDirective("iname:i") == Err(Unpack(2))
  {
    var s := "iname:i";
    assert s[5] == ':';
    assert s[6..] == "i";
    assert Split(s, ':') == ["iname", "i"] by {
      SplitJoin(["iname", "i"], ':');
      assert Join(":", ["iname", "i"]) == s;
    }
  }

  // ------------------------------------------------------------------ types

  /** The numpy type for the one option of a `…:type:<code>` directive. */
  function TypeName(d: Directive): (r: Result<string, Failure>)
    ensures r.Ok? <==> |d.options| == 1 && d.options[0] in {"f32", "f64", "i32"}
    ensures |d.options| != 1 ==> r == Err(ArityViolated)
    ensures |d.options| == 1 && r.Err? ==> r == Err(UnknownType(d.which))
    ensures r.Ok? && d.options[0] == "f32" ==> r.value == "np.float32"
    ensures r.Ok? && d.options[0] == "f64" ==> r.value == "np.float64"
    ensures r.Ok? && d.options[0] == "i32" ==> r.value == "np.int32"
  {
    if |d.options| != 1 then Err(ArityViolated)
    else if d.options[0] == "f32" then Ok("np.float32")
    else if d.options[0] == "f64" then Ok("np.float64")
    else if d.options[0] == "i32" then Ok("np.int32")
    else Err(UnknownType(d.which))
  }

  /** The entry of the type dictionary for a type directive, `None` for any
      other directive. The target field is not looked at. */
  function TypeEntry(d: Directive): (r: Result<Option<string>, Failure>)
    ensures d.operation != "type" ==> r == Ok(None)
    ensures d.operation == "type" ==> (r.Ok? <==> TypeName(d).Ok?)
    ensures r.Ok? && r.value.Some? ==> r.value.value == Mps(d.which) + ":" + TypeName(d).value
  {
    if d.operation != "type" then Ok(None)
    else
      match TypeName(d)
      case Err(e) => Err(e)
      case Ok(t) => Ok(Some(Mps(d.which) + ":" + t))
  }
}
