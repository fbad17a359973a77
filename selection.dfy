/** Which sections the kernel snapshot holds (floopy/loopy_bits.py, the
    resolution of the `what` argument of `knl_to_json`). */
module Selection {
  import opened Results
  import opened Text

  /** The `what` argument: `None`, a string, or a set of section names. */
  datatype What = DefaultWhat | WhatText(text: string) | WhatNames(names: set<string>)

  /** Why resolving `what` fails: the `KeyError` of an unknown one-letter code;
      the error listing the names that are not sections, which the check means
      to raise as a `LoopyError`; and the `NameError` the code raises instead,
      because floopy/loopy_bits.py never imports `LoopyError`. */
  datatype SelectionError =
    | UnknownLetter(letter: char)
    | InvalidWhat(names: set<string>)
    | WhatNameError(undefined: string)

  /** The list `all_what` is built from. */
  const SectionNames: seq<string> := ["name", "arguments", "domains", "tags", "variables", "rules",
                                      "instructions", "Dependencies", "schedule"]

  /** `all_what`. */
  const AllWhat: set<string> := Elements(SectionNames)

  function Elements<T>(xs: seq<T>): set<T> {
    set i | 0 <= i < |xs| :: xs[i]
  }

  lemma FirstLettersDiffer()
    ensures forall i :: 0 <= i < |SectionNames| ==> SectionNames[i] != [] && SectionNames[i][0] != ','
    ensures forall i, j :: 0 <= i < |SectionNames| && 0 <= j < |SectionNames| && i != j ==>
              SectionNames[i][0] != SectionNames[j][0]
  {
    var letters := seq(|SectionNames|, i requires 0 <= i < |SectionNames| => SectionNames[i][0]);
    assert letters == ['n', 'a', 'd', 't', 'v', 'r', 'i', 'D', 's'];
    assert forall i :: 0 <= i < |SectionNames| ==> SectionNames[i][0] == letters[i];
  }

  /** `first_letter_to_what`: each section under its first letter. */
  function FirstLetterToWhat(): (m: map<char, string>)
    ensures forall i :: 0 <= i < |SectionNames| ==>
              SectionNames[i] != [] && SectionNames[i][0] in m && m[SectionNames[i][0]] == SectionNames[i]
    ensures forall c :: c in m ==> m[c] in AllWhat && m[c] != [] && m[c][0] == c
  {
    FirstLettersDiffer();
    map i | 0 <= i < |SectionNames| :: SectionNames[i][0] := SectionNames[i]
  }

  /** The first letters of `SectionNames`, in order. */
  const SectionLetters: seq<char> := ['n', 'a', 'd', 't', 'v', 'r', 'i', 'D', 's']

  /** The assertion that no two sections share a first letter. */
  lemma FirstLettersDistinct()
    ensures |FirstLetterToWhat()| == |AllWhat|
  {
    LetterKeys();
    LettersCard();
    NamesCard();
    assert |FirstLetterToWhat()| == |FirstLetterToWhat().Keys|;
  }

  lemma LettersCard()
    ensures |Elements(SectionLetters)| == 9
  {
    DistinctCard(SectionLetters);
  }

  lemma NamesCard()
    ensures |AllWhat| == 9
  {
    NamesDistinct();
    DistinctCard(SectionNames);
  }

  lemma LetterKeys()
    ensures FirstLetterToWhat().Keys == Elements(SectionLetters)
  {
    FirstLettersDiffer();
    var m := FirstLetterToWhat();
    assert forall i :: 0 <= i < |SectionNames| ==> SectionNames[i][0] == SectionLetters[i];
    forall c | c in m.Keys ensures c in Elements(SectionLetters) {
      var i :| 0 <= i < |SectionNames| && SectionNames[i] == m[c];
      assert SectionLetters[i] == c;
    }
    forall i | 0 <= i < |SectionLetters| ensures SectionLetters[i] in m.Keys {
      assert SectionNames[i][0] == SectionLetters[i];
    }
  }

  lemma NamesDistinct()
    ensures forall i, j :: 0 <= i < j < |SectionNames| ==> SectionNames[i] != SectionNames[j]
  {
    FirstLettersDiffer();
    forall i, j | 0 <= i < j < |SectionNames| ensures SectionNames[i] != SectionNames[j] {
      assert SectionNames[i][0] != SectionNames[j][0];
    }
  }

  /** A sequence without repeated elements has as many distinct elements as
      it is long. */
  lemma {:induction false} DistinctCard<T>(xs: seq<T>)
    requires forall i, j :: 0 <= i < j < |xs| ==> xs[i] != xs[j]
    ensures |Elements(xs)| == |xs|
    decreases |xs|
  {
    if xs != [] {
      var t := xs[..|xs| - 1];
      DistinctCard(t);
      assert Elements(xs) == Elements(t) + {xs[|xs| - 1]};
      assert xs[|xs| - 1] !in Elements(t);
    }
  }

  // ---------------------------------------------------------------- resolving

  /** `what=None`: every section, `Dependencies` only with `with_dependencies`. */
  function DefaultSections(withDeps: bool): (r: set<string>)
    ensures r <= AllWhat
    ensures "Dependencies" in r <==> withDeps
    ensures forall w :: w in AllWhat && w != "Dependencies" ==> w in r
  {
    assert SectionNames[7] == "Dependencies";
    if withDeps then AllWhat else AllWhat - {"Dependencies"}
  }

  /** A string without a comma: a set of one-letter codes, read left to right,
      the first unknown letter raising `KeyError`. */
  function Letters(text: string): (r: Result<set<string>, SelectionError>)
    ensures r.Ok? <==> forall i :: 0 <= i < |text| ==> text[i] in FirstLetterToWhat()
    ensures r.Ok? ==> r.value <= AllWhat
    ensures r.Ok? ==> forall i :: 0 <= i < |text| ==> FirstLetterToWhat()[text[i]] in r.value
    ensures r.Ok? ==> forall w :: w in r.value ==> w != [] && w[0] in text
    ensures r.Err? ==> r.error.UnknownLetter? && r.error.letter in text
                       && r.error.letter !in FirstLetterToWhat()
    ensures r.Err? ==> exists i :: 0 <= i < |text| && text[i] == r.error.letter
                                   && forall j :: 0 <= j < i ==> text[j] in FirstLetterToWhat()
    decreases |text|
  {
    var m := FirstLetterToWhat();
    if text == [] then Ok({})
    else if text[0] !in m then Err(UnknownLetter(text[0]))
    else
      match Letters(text[1..])
      case Err(e) =>
        FirstUnknownShift(text, e.letter);
        Err(e)
      case Ok(rest) => Ok({m[text[0]]} + rest)
  }

  /** A first unknown letter after a known one is the first unknown letter of
      the whole text. */
  lemma FirstUnknownShift(text: string, c: char)
    requires text != [] && text[0] in FirstLetterToWhat()
    requires exists i :: 0 <= i < |text[1..]| && text[1..][i] == c
                         && forall j :: 0 <= j < i ==> text[1..][j] in FirstLetterToWhat()
    ensures exists i :: 0 <= i < |text| && text[i] == c
                        && forall j :: 0 <= j < i ==> text[j] in FirstLetterToWhat()
  {
    var m := FirstLetterToWhat();
    var i :| 0 <= i < |text[1..]| && text[1..][i] == c && forall j :: 0 <= j < i ==> text[1..][j] in m;
    assert text[i + 1] == c;
    forall j | 0 <= j < i + 1 ensures text[j] in m {
      if j > 0 { assert text[j] == text[1..][j - 1]; }
    }
  }

  /** A string with a comma: the stripped comma-separated names. */
  function CommaNames(text: string): set<string> {
    var fields := Split(text, ',');
    set i | 0 <= i < |fields| :: Strip(fields[i])
  }

  /** The set of names `what` asks for, before it is checked. */
  function Requested(what: What, withDeps: bool): Result<set<string>, SelectionError> {
    match what
    case DefaultWhat => Ok(DefaultSections(withDeps))
    case WhatText(text) => if ',' in text then Ok(CommaNames(text)) else Letters(text)
    case WhatNames(names) => Ok(names)
  }

  /** The resolved sections; names that are not sections are refused, and
      the error lists them, as the `LoopyError` of the check is meant to. */
  function Resolve(what: What, withDeps: bool): (r: Result<set<string>, SelectionError>)
    ensures r.Ok? ==> r.value <= AllWhat
    ensures Requested(what, withDeps).Ok? ==>
              (r.Ok? <==> Requested(what, withDeps).value <= AllWhat)
    ensures r.Ok? ==> r == Requested(what, withDeps)
    ensures r.Err? && r.error.InvalidWhat? ==>
              && Requested(what, withDeps).Ok?
              && r.error.names == Requested(what, withDeps).value - AllWhat
              && r.error.names != {}
  {
    match Requested(what, withDeps)
    case Err(e) => Err(e)
    case Ok(names) =>
      if names <= AllWhat then Ok(names)
      else
        var bad :| bad in names && bad !in AllWhat;
        assert bad in names - AllWhat;
        Err(InvalidWhat(names - AllWhat))
  }

  /** Without `what`, every section is selected; `Dependencies` exactly when
      asked for. */
  lemma DefaultResolves(withDeps: bool)
    ensures Resolve(DefaultWhat, withDeps).Ok?
    ensures "Dependencies" in Resolve(DefaultWhat, withDeps).value <==> withDeps
    ensures forall w :: w in AllWhat && w != "Dependencies" ==> w in Resolve(DefaultWhat, withDeps).value
  {
  }

  /** The string of the first letters of some sections selects exactly those
      sections. */
  lemma {:induction false} CodesSelect(ws: seq<string>, withDeps: bool)
    requires forall i :: 0 <= i < |ws| ==> ws[i] in AllWhat
    ensures forall i :: 0 <= i < |ws| ==> ws[i] != []
    ensures Resolve(WhatText(seq(|ws|, i requires 0 <= i < |ws| && ws[i] != [] => ws[i][0])), withDeps)
            == Ok(Elements(ws))
  {
    var m := FirstLetterToWhat();
    forall i | 0 <= i < |ws| ensures ws[i] != [] && ws[i][0] in m && m[ws[i][0]] == ws[i] && ws[i][0] != ',' {
      SectionLetter(ws[i]);
    }
    var t := seq(|ws|, i requires 0 <= i < |ws| && ws[i] != [] => ws[i][0]);
    assert ',' !in t;
    var r := Letters(t);
    assert r.Ok?;
    forall w | w in r.value ensures w in Elements(ws) {
      var i :| 0 <= i < |t| && t[i] == w[0];
      SectionLetter(w);
      assert w == ws[i];
    }
    forall i | 0 <= i < |ws| ensures ws[i] in r.value {
      assert m[t[i]] in r.value;
    }
    assert r.value == Elements(ws);
  }

  /** Every section is the entry of its first letter, which is not a comma. */
  lemma SectionLetter(w: string)
    requires w in AllWhat
    ensures w != [] && w[0] != ',' && w[0] in FirstLetterToWhat() && FirstLetterToWhat()[w[0]] == w
  {
    FirstLettersDiffer();
    var i :| 0 <= i < |SectionNames| && SectionNames[i] == w;
  }

  /** Joining section names with commas and reading them back gives those
      names, whether or not they are sections. */
  lemma CommaSelect(names: seq<string>, withDeps: bool)
    requires |names| >= 2
    requires forall i :: 0 <= i < |names| ==> ',' !in names[i] && Strip(names[i]) == names[i]
    ensures Requested(WhatText(Join(",", names)), withDeps) == Ok(Elements(names))
  {
    var text := Join(",", names);
    assert text == names[0] + "," + Join(",", names[1..]);
    assert text[|names[0]|] == ',';
    CommaNamesJoin(names);
  }

  /** The stripped fields of comma-joined, comma-free, stripped names are
      those names. */
  lemma CommaNamesJoin(names: seq<string>)
    requires |names| >= 1
    requires forall i :: 0 <= i < |names| ==> ',' !in names[i] && Strip(names[i]) == names[i]
    ensures CommaNames(Join(",", names)) == Elements(names)
  {
    var text := Join(",", names);
    SplitJoin(names, ',');
    assert Split(text, ',') == names;
    var got := CommaNames(text);
    forall x | x in got ensures x in Elements(names) {
      var i :| 0 <= i < |names| && Strip(names[i]) == x;
    }
    forall i | 0 <= i < |names| ensures names[i] in got {
      assert Strip(names[i]) in got;
    }
  }

  // ------------------------------------------------------------- as written

  /** The check as the code stands: `LoopyError` is not bound in
      floopy/loopy_bits.py, so `raise LoopyError(...)` raises `NameError`
      before the message naming the invalid sections is built. */
  function ResolveAsWritten(what: What, withDeps: bool): (r: Result<set<string>, SelectionError>)
    ensures r.Ok? ==> r.value <= AllWhat
  {
    match Requested(what, withDeps)
    case Err(e) => Err(e)
    case Ok(names) => if names <= AllWhat then Ok(names) else Err(WhatNameError("LoopyError"))
  }

  /** The code and the intended check differ exactly where names that are not
      sections are requested: the code then reports only the undefined name
      `LoopyError`, and nothing about the names. */
  lemma LoopyErrorUndefined(what: What, withDeps: bool)
    ensures (Resolve(what, withDeps).Err? && Resolve(what, withDeps).error.InvalidWhat?)
            <==> ResolveAsWritten(what, withDeps) == Err(WhatNameError("LoopyError"))
    ensures !(Resolve(what, withDeps).Err? && Resolve(what, withDeps).error.InvalidWhat?) ==>
              ResolveAsWritten(what, withDeps) == Resolve(what, withDeps)
  {
  }

  /** `what={"name", "bogus"}`: the intended check reports `bogus`; the code
      raises `NameError`. */
  lemma BogusSectionHidden()
    ensures Resolve(WhatNames({"name", "bogus"}), false) == Err(InvalidWhat({"bogus"}))
    ensures ResolveAsWritten(WhatNames({"name", "bogus"}), false) == Err(WhatNameError("LoopyError"))
  {
    BogusNotSection();
    assert "name" in AllWhat by {
      assert SectionNames[0] == "name";
    }
    assert {"name", "bogus"} - AllWhat == {"bogus"};
  }

  lemma BogusNotSection()
    ensures "bogus" !in AllWhat
  {
    forall i | 0 <= i < |SectionNames| ensures SectionNames[i] != "bogus" {
      assert SectionNames[i][0] != 'b' by { FirstLettersDiffer(); }
    }
  }
}
