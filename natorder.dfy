/** Natural ordering of identifiers (floopy/loopy_bits.py, `natorder` and
    `natsorted`): a string is cut into maximal runs of digits and of
    non-digits, digit runs become integers, and the resulting lists are
    compared the way Python compares lists, so that 'abc9' < 'abc10'. */
module NaturalOrder {
  import opened Text
  import Sorting

  /** One element of a natural-order key: an `int` or a `str` in Python. */
  datatype Token = Num(value: nat) | Str(text: string)

  /** All characters of `s` are digits, or all are non-digits. */
  predicate Uniform(s: string) {
    s != [] && forall i :: 0 <= i < |s| ==> IsDigit(s[i]) == IsDigit(s[0])
  }

  /** The length of the longest prefix of `s` whose characters are digits
      exactly when `digit` holds. */
  function SpanLen(s: string, digit: bool): (n: nat)
    ensures n <= |s|
    ensures forall i :: 0 <= i < n ==> IsDigit(s[i]) == digit
    ensures n < |s| ==> IsDigit(s[n]) != digit
    decreases |s|
  {
    if s == [] || IsDigit(s[0]) != digit then 0 else 1 + SpanLen(s[1..], digit)
  }

  /** The matches of `re.findall(r'(\d+)|(\D+)', s)`: the maximal runs of
      digits and of non-digits, left to right. */
  function Runs(s: string): (r: seq<string>)
    ensures r == [] <==> s == []
    ensures forall i :: 0 <= i < |r| ==> Uniform(r[i])
    decreases |s|
  {
    if s == [] then []
    else
      var n := SpanLen(s, IsDigit(s[0]));
      var rest := Runs(s[n..]);
      assert forall i :: 0 <= i < |rest| ==> ([s[..n]] + rest)[i + 1] == rest[i];
      [s[..n]] + rest
  }

  /** The first match starts the key, and consecutive matches are of
      different kinds. */
  lemma {:induction false} RunsShape(s: string)
    ensures Runs(s) != [] ==> Runs(s)[0][0] == s[0]
    ensures forall i :: 0 <= i < |Runs(s)| - 1 ==> IsDigit(Runs(s)[i][0]) != IsDigit(Runs(s)[i + 1][0])
    decreases |s|
  {
    if s != [] {
      var n := SpanLen(s, IsDigit(s[0]));
      var rest := Runs(s[n..]);
      RunsShape(s[n..]);
      var r := [s[..n]] + rest;
      assert Runs(s) == r;
      forall i | 0 <= i < |r| - 1 ensures IsDigit(r[i][0]) != IsDigit(r[i + 1][0]) {
        assert r[i + 1] == rest[i];
        if i > 0 {
          assert r[i] == rest[i - 1];
        } else {
          assert s[n..][0] == s[n];
        }
      }
    }
  }

  /** `int(n) if n else s` for one match. */
  function ToToken(run: string): Token
    requires Uniform(run)
  {
    if IsDigit(run[0]) then Num(DigitsValue(run)) else Str(run)
  }

  /** `natorder(key)`. */
  function NatOrder(s: string): seq<Token> {
    var runs := Runs(s);
    seq(|runs|, i requires 0 <= i < |runs| => ToToken(runs[i]))
  }

  /** The runs put back together give the key. */
  lemma {:induction false} RunsConcat(s: string)
    ensures Concat(Runs(s)) == s
    decreases |s|
  {
    if s != [] {
      var n := SpanLen(s, IsDigit(s[0]));
      RunsConcat(s[n..]);
      assert s == s[..n] + s[n..];
    }
  }

  /** The tokens alternate between integers and text, digit runs becoming
      integers with their decimal value and text runs kept verbatim. */
  lemma NatOrderTokens(s: string)
    ensures |NatOrder(s)| == |Runs(s)|
    ensures forall i :: 0 <= i < |NatOrder(s)| ==>
              (NatOrder(s)[i].Num? <==> IsDigit(Runs(s)[i][0]))
              && (NatOrder(s)[i].Str? ==> NatOrder(s)[i].text == Runs(s)[i])
              && (NatOrder(s)[i].Num? ==> NatOrder(s)[i].value == DigitsValue(Runs(s)[i]))
    ensures forall i :: 0 <= i < |NatOrder(s)| - 1 ==> NatOrder(s)[i].Num? != NatOrder(s)[i + 1].Num?
  {
    RunsShape(s);
  }

  // ------------------------------------------------------------ comparison

  /** A Python identifier cannot start with a digit. */
  predicate NameLike(s: string) {
    s == [] || !IsDigit(s[0])
  }

  /** Token `i` is an integer exactly when `i` has the parity `oddNum` asks for:
      tokens alternate, and the first one is text when `oddNum` holds. */
  predicate Aligned(t: seq<Token>, oddNum: bool) {
    forall i :: 0 <= i < |t| ==> (t[i].Num? <==> (i % 2 == 1) == oddNum)
  }

  lemma AlignedTail(t: seq<Token>, oddNum: bool)
    requires Aligned(t, oddNum) && t != []
    ensures Aligned(t[1..], !oddNum)
  {
    forall i | 0 <= i < |t[1..]| ensures (t[1..][i].Num? <==> (i % 2 == 1) == !oddNum) {
      assert t[1..][i] == t[i + 1];
    }
  }

  /** The key of an identifier starts with text and then alternates. */
  lemma NameLikeAligned(s: string)
    requires NameLike(s)
    ensures Aligned(NatOrder(s), true)
  {
    var t := NatOrder(s);
    NatOrderTokens(s);
    RunsShape(s);
    var i := 0;
    while i < |t|
      invariant 0 <= i <= |t|
      invariant forall j :: 0 <= j < i ==> (t[j].Num? <==> j % 2 == 1)
    {
      if i > 0 {
        assert t[i - 1].Num? != t[i].Num?;
      } else {
        assert Runs(s)[0][0] == s[0];
      }
      i := i + 1;
    }
  }

  /** The result of Python's `a < b` on two lists: a boolean, or the
      `TypeError` raised when an `int` meets a `str`. */
  datatype Outcome = Ordered(less: bool) | TypeError

  /** Python's `<` on two tokens of one kind, and on two different tokens. */
  function TokenLess(x: Token, y: Token): Outcome {
    match (x, y)
    case (Num(m), Num(n)) => Ordered(m < n)
    case (Str(a), Str(b)) => Ordered(StrLess(a, b))
    case _ => TypeError
  }

  /** Python's `a < b` on two lists: the first position where the elements
      differ decides; if there is none, the shorter list is the smaller. */
  function ListLess(a: seq<Token>, b: seq<Token>): Outcome
    decreases |a|
  {
    if a == [] then Ordered(b != [])
    else if b == [] then Ordered(false)
    else if a[0] == b[0] then ListLess(a[1..], b[1..])
    else TokenLess(a[0], b[0])
  }

  predicate Less(a: seq<Token>, b: seq<Token>) {
    ListLess(a, b) == Ordered(true)
  }

  /** Two keys aligned the same way are always comparable: no `TypeError`. */
  lemma {:induction false} AlignedComparable(a: seq<Token>, b: seq<Token>, oddNum: bool)
    requires Aligned(a, oddNum) && Aligned(b, oddNum)
    ensures ListLess(a, b).Ordered?
    decreases |a|
  {
    if a != [] && b != [] && a[0] == b[0] {
      AlignedTail(a, oddNum);
      AlignedTail(b, oddNum);
      AlignedComparable(a[1..], b[1..], !oddNum);
    }
  }

  /** Keys that are not aligned alike can raise: '1a' against 'a1'. */
  lemma MixedKeysRaise()
    ensures ListLess(NatOrder("1a"), NatOrder("a1")) == TypeError
  {
    RunsAppendRun("1", "a");
    RunsAppendRun("a", "1");
    RunsSingle("1");
    RunsSingle("a");
    assert "1" + "a" == "1a" && "a" + "1" == "a1";
    assert NatOrder("1a")[0] == Num(1);
  }

  lemma {:induction false} LessIrreflexive(a: seq<Token>)
    ensures !Less(a, a)
    decreases |a|
  {
    if a != [] {
      LessIrreflexive(a[1..]);
    }
  }

  lemma {:induction false} LessTotal(a: seq<Token>, b: seq<Token>, oddNum: bool)
    requires Aligned(a, oddNum) && Aligned(b, oddNum)
    ensures a == b || Less(a, b) || Less(b, a)
    decreases |a|
  {
    if a != [] && b != [] {
      if a[0] == b[0] {
        AlignedTail(a, oddNum);
        AlignedTail(b, oddNum);
        LessTotal(a[1..], b[1..], !oddNum);
        assert a == [a[0]] + a[1..] && b == [b[0]] + b[1..];
      } else if a[0].Str? {
        StrLessTotal(a[0].text, b[0].text);
      }
    }
  }

  lemma {:induction false} LessAsymmetric(a: seq<Token>, b: seq<Token>)
    requires Less(a, b)
    ensures !Less(b, a)
    decreases |a|
  {
    if a != [] && b != [] {
      if a[0] == b[0] {
        LessAsymmetric(a[1..], b[1..]);
      } else if a[0].Str? && b[0].Str? {
        if StrLess(b[0].text, a[0].text) {
          StrLessTransitive(a[0].text, b[0].text, a[0].text);
          StrLessIrreflexive(a[0].text);
        }
      }
    }
  }

  lemma {:induction false} LessTransitive(a: seq<Token>, b: seq<Token>, c: seq<Token>)
    requires Less(a, b) && Less(b, c)
    ensures Less(a, c)
    decreases |a|
  {
    if a != [] {
      assert b != [] && c != [];
      if a[0] == b[0] && b[0] == c[0] {
        LessTransitive(a[1..], b[1..], c[1..]);
      } else if a[0] != b[0] && b[0] != c[0] {
        if a[0].Str? {
          StrLessTransitive(a[0].text, b[0].text, c[0].text);
          if a[0] == c[0] {
            StrLessIrreflexive(a[0].text);
          }
        }
      }
    }
  }

  /** Equal leading tokens do not decide the comparison. */
  lemma {:induction false} ListLessCommonPrefix(p: seq<Token>, a: seq<Token>, b: seq<Token>)
    ensures ListLess(p + a, p + b) == ListLess(a, b)
    decreases |p|
  {
    if p != [] {
      assert (p + a)[1..] == p[1..] + a && (p + b)[1..] == p[1..] + b;
      ListLessCommonPrefix(p[1..], a, b);
    } else {
      assert p + a == a && p + b == b;
    }
  }

  // --------------------------------------------------------- numeric suffix

  /** A prefix that already ends a run, or is followed by a character of the
      other kind, has the same leading run after anything is appended. */
  lemma {:induction false} SpanLenAppend(p: string, d: string, digit: bool)
    requires SpanLen(p, digit) < |p| || d == [] || IsDigit(d[0]) != digit
    ensures SpanLen(p + d, digit) == SpanLen(p, digit)
    decreases |p|
  {
    if p == [] {
      assert p + d == d;
    } else if IsDigit(p[0]) == digit {
      assert (p + d)[1..] == p[1..] + d;
      SpanLenAppend(p[1..], d, digit);
    }
  }

  /** A single run is its own only match. */
  lemma RunsSingle(s: string)
    requires Uniform(s)
    ensures Runs(s) == [s]
  {
    var n := SpanLen(s, IsDigit(s[0]));
    assert n == |s|;
    assert s[..n] == s && s[n..] == [];
  }

  /** The first match, then the matches of the rest. */
  lemma RunsStep(s: string)
    requires s != []
    ensures var n := SpanLen(s, IsDigit(s[0]));
            Runs(s) == [s[..n]] + Runs(s[n..])
  {
  }

  /** Appending a run of the other kind than the last character leaves the
      first match alone. */
  lemma RunsAppendHead(p: string, d: string)
    requires p != [] && d != []
    requires IsDigit(p[|p| - 1]) != IsDigit(d[0])
    ensures var n := SpanLen(p, IsDigit(p[0]));
            Runs(p + d) == [p[..n]] + Runs(p[n..] + d)
  {
    var digit := IsDigit(p[0]);
    var n := SpanLen(p, digit);
    var pd := p + d;
    if n == |p| {
      assert IsDigit(p[|p| - 1]) == digit;
    }
    SpanLenAppend(p, d, digit);
    SliceAppend(p, d, n);
    RunsStep(pd);
  }

  lemma SliceAppend(p: string, d: string, n: nat)
    requires 0 < n <= |p|
    ensures (p + d)[0] == p[0] && (p + d)[..n] == p[..n] && (p + d)[n..] == p[n..] + d
  {
  }

  /** Appending a run of the other kind than the last character adds one match. */
  lemma {:induction false} RunsAppendRun(p: string, d: string)
    requires Uniform(d)
    requires p == [] || IsDigit(p[|p| - 1]) != IsDigit(d[0])
    ensures Runs(p + d) == Runs(p) + [d]
    decreases |p|
  {
    if p == [] {
      assert p + d == d;
      RunsSingle(d);
    } else {
      var n := SpanLen(p, IsDigit(p[0]));
      var q := p[n..];
      RunsAppendHead(p, d);
      RunsStep(p);
      if q != [] {
        assert q[|q| - 1] == p[|p| - 1];
      }
      RunsAppendRun(q, d);
      var h, t := [p[..n]], Runs(q);
      assert h + (t + [d]) == (h + t) + [d];
    }
  }

  /** A string that does not end in a digit, followed by a run of digits, has
      the key of the string followed by the value of the run. */
  lemma NatOrderDigitSuffix(p: string, d: string)
    requires p == [] || !IsDigit(p[|p| - 1])
    requires d != [] && AllDigits(d)
    ensures NatOrder(p + d) == NatOrder(p) + [Num(DigitsValue(d))]
  {
    RunsAppendRun(p, d);
    var r := Runs(p);
    assert Runs(p + d) == r + [d];
    assert forall i :: 0 <= i < |r| ==> (r + [d])[i] == r[i];
  }

  /** Identifiers that differ only in a numeric suffix are ordered by the
      value of the suffix, whatever its width. */
  lemma NumericSuffixOrder(p: string, d1: string, d2: string)
    requires p == [] || !IsDigit(p[|p| - 1])
    requires d1 != [] && AllDigits(d1) && d2 != [] && AllDigits(d2)
    ensures ListLess(NatOrder(p + d1), NatOrder(p + d2)) == Ordered(DigitsValue(d1) < DigitsValue(d2))
  {
    NatOrderDigitSuffix(p, d1);
    NatOrderDigitSuffix(p, d2);
    ListLessCommonPrefix(NatOrder(p), [Num(DigitsValue(d1))], [Num(DigitsValue(d2))]);
  }

  /** The example of the source's comment: 'abc1' < 'abc9' < 'abc10', where
      plain string order puts 'abc10' before 'abc9'. */

  /** First half of the source comment's example: 'abc1' < 'abc9'. */
  lemma OneBeforeNine()
    ensures Less(NatOrder("abc1"), NatOrder("abc9"))
  {
    NumericSuffixOrder("abc", "1", "9");
    assert "abc1" == "abc" + "1" && "abc9" == "abc" + "9";
  }

  /** Second half: 'abc9' < 'abc10'. */
  lemma NineBeforeTen()
    ensures Less(NatOrder("abc9"), NatOrder("abc10"))
  {
    NumericSuffixOrder("abc", "9", "10");
    assert "abc9" == "abc" + "9" && "abc10" == "abc" + "10";
    assert DigitsValue("10") == 10 by {
      assert "10"[..1] == "1";
    }
  }

  /** Dictionary order, which the natural order replaces, puts 'abc10' before 'abc9'. */
  lemma DictionaryOrderDiffers()
    ensures StrLess("abc10", "abc9")
  {
  }

  // --------------------------------------------------------------- sorting

  /** `natorder(a) <= natorder(b)`, which is how `sorted` decides that `a`
      may stay before `b`. */
  predicate NatLe(a: string, b: string) {
    !Less(NatOrder(b), NatOrder(a))
  }

  function ByKey<T>(key: T -> string): (T, T) -> bool {
    (x: T, y: T) => NatLe(key(x), key(y))
  }

  predicate KeysNameLike<T>(xs: seq<T>, key: T -> string) {
    forall i :: 0 <= i < |xs| ==> NameLike(key(xs[i]))
  }

  lemma NatLePreorder<T>(xs: seq<T>, key: T -> string)
    requires KeysNameLike(xs, key)
    ensures Sorting.TotalPreorderOn(ByKey(key), xs)
  {
    var le := ByKey(key);
    forall a, b | a in xs && b in xs ensures le(a, b) || le(b, a) {
      var i :| 0 <= i < |xs| && xs[i] == a;
      var j :| 0 <= j < |xs| && xs[j] == b;
      if Less(NatOrder(key(a)), NatOrder(key(b))) {
        LessAsymmetric(NatOrder(key(a)), NatOrder(key(b)));
      }
    }
    forall a, b, c | a in xs && b in xs && c in xs && le(a, b) && le(b, c) ensures le(a, c) {
      var i :| 0 <= i < |xs| && xs[i] == a;
      var j :| 0 <= j < |xs| && xs[j] == b;
      var k :| 0 <= k < |xs| && xs[k] == c;
      var ka, kb, kc := NatOrder(key(a)), NatOrder(key(b)), NatOrder(key(c));
      NameLikeAligned(key(a));
      NameLikeAligned(key(b));
      NameLikeAligned(key(c));
      LessTotal(ka, kb, true);
      LessTotal(kb, kc, true);
      if Less(kc, ka) {
        if ka != kb {
          LessTransitive(kc, ka, kb);
        }
      }
    }
  }

  /** `natsorted(xs, key)`: `sorted` with the natural-order key, a stable sort. */
  function NatSorted<T(==)>(xs: seq<T>, key: T -> string): (r: seq<T>)
    requires KeysNameLike(xs, key)
    ensures multiset(r) == multiset(xs)
    ensures forall i, j :: 0 <= i < j < |r| ==> !Less(NatOrder(key(r[j])), NatOrder(key(r[i])))
  {
    NatLePreorder(xs, key);
    var r := Sorting.SortBy(xs, ByKey(key));
    assert Sorting.Sorted(r, ByKey(key));
    r
  }

  /** The elements of `xs` whose key is `k`, in their order in `xs`. */
  function WithKey<T>(xs: seq<T>, key: T -> string, k: seq<Token>): seq<T>
    decreases |xs|
  {
    if xs == [] then []
    else (if NatOrder(key(xs[0])) == k then [xs[0]] else []) + WithKey(xs[1..], key, k)
  }

  lemma {:induction false} ClassIsWithKey<T>(xs: seq<T>, key: T -> string, t: T)
    requires KeysNameLike(xs, key) && NameLike(key(t))
    ensures Sorting.Class(xs, ByKey(key), t) == WithKey(xs, key, NatOrder(key(t)))
    decreases |xs|
  {
    if xs != [] {
      var a, b := NatOrder(key(xs[0])), NatOrder(key(t));
      NameLikeAligned(key(xs[0]));
      NameLikeAligned(key(t));
      LessTotal(a, b, true);
      if a == b {
        LessIrreflexive(a);
      } else if Less(a, b) {
        LessAsymmetric(a, b);
      } else {
        LessAsymmetric(b, a);
      }
      assert KeysNameLike(xs[1..], key) by {
        forall i | 0 <= i < |xs[1..]| ensures NameLike(key(xs[1..][i])) {
          assert xs[1..][i] == xs[i + 1];
        }
      }
      ClassIsWithKey(xs[1..], key, t);
    }
  }

  /** `natsorted` is stable: elements with equal keys ('a01' and 'a1', say)
      keep their input order. */
  lemma NatSortedStable<T>(xs: seq<T>, key: T -> string, t: T)
    requires KeysNameLike(xs, key)
    requires NameLike(key(t))
    ensures WithKey(NatSorted(xs, key), key, NatOrder(key(t))) == WithKey(xs, key, NatOrder(key(t)))
  {
    var all := [t] + xs;
    assert KeysNameLike(all, key) by {
      forall i | 0 <= i < |all| ensures NameLike(key(all[i])) {
        if i > 0 {
          assert all[i] == xs[i - 1];
        }
      }
    }
    NatLePreorder(all, key);
    Sorting.SortByStable(xs, ByKey(key), t);
    var r := NatSorted(xs, key);
    assert KeysNameLike(r, key) by {
      forall i | 0 <= i < |r| ensures NameLike(key(r[i])) {
        assert r[i] in multiset(xs);
        var j :| 0 <= j < |xs| && xs[j] == r[i];
      }
    }
    ClassIsWithKey(r, key, t);
    ClassIsWithKey(xs, key, t);
  }
}
