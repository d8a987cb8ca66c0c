/** Output naming and the split loop of splitter/splitter_strategy.h. */
module SplitterStrategy {
  import opened Wrappers

  datatype State = OK | ERROR

  // ---------------------------------------------------------------- std::to_string and its inverse

  function DigitChar(d: nat): char
    requires d < 10
  {
    "0123456789"[d]
  }

  function CharDigit(c: char): Option<nat> {
    if '0' <= c <= '9' then Some(c as int - '0' as int) else None
  }

  lemma DigitRoundTrip(d: nat)
    requires d < 10
    ensures CharDigit(DigitChar(d)) == Some(d)
  {
  }

  function Decimal(n: nat): string {
    if n < 10 then [DigitChar(n)] else Decimal(n / 10) + [DigitChar(n % 10)]
  }

  function ToString(i: int): string {
    if i < 0 then "-" + Decimal(-i) else Decimal(i)
  }

  function ParseDecimal(s: string): Option<nat> {
    if s == [] then None
    else
      match CharDigit(s[|s| - 1])
      case None => None
      case Some(d) =>
        if |s| == 1 then Some(d)
        else match ParseDecimal(s[..|s| - 1])
          case None => None
          case Some(n) => Some(10 * n + d)
  }

  function ParseInt(s: string): Option<int> {
    if s != [] && s[0] == '-' then
      match ParseDecimal(s[1..])
      case None => None
      case Some(n) => var m: int := n; Option<int>.Some(-m)
    else
      match ParseDecimal(s)
      case None => None
      case Some(n) => Option<int>.Some(n)
  }

  predicate AllDigits(s: string) {
    forall i :: 0 <= i < |s| ==> '0' <= s[i] <= '9'
  }

  lemma ParseAppend(s: string, c: char)
    requires s != [] && ParseDecimal(s).Some? && CharDigit(c).Some?
    ensures ParseDecimal(s + [c]) == Some(10 * ParseDecimal(s).value + CharDigit(c).value)
  {
    assert (s + [c])[..|s + [c]| - 1] == s;
  }

  lemma {:induction false} DecimalRoundTrip(n: nat)
    ensures ParseDecimal(Decimal(n)) == Some(n)
    ensures AllDigits(Decimal(n)) && Decimal(n) != []
  {
    DigitRoundTrip(n % 10);
    if n >= 10 {
      DecimalRoundTrip(n / 10);
      ParseAppend(Decimal(n / 10), DigitChar(n % 10));
    }
  }

  lemma DigitsOnly(s: string)
    requires AllDigits(s) && s != []
    ensures '_' !in s && s[0] != '-'
  {
  }

  lemma ToStringRoundTrip(i: int)
    ensures ParseInt(ToString(i)) == Some(i)
    ensures '_' !in ToString(i)
  {
    var n: nat := if i < 0 then -i else i;
    var d := Decimal(n);
    DecimalRoundTrip(n);
    DigitsOnly(d);
    if i < 0 {
      var s := "-" + d;
      assert s[0] == '-' && s[1..] == d;
      assert ToString(i) == s;
    }
  }

  /** The spelling std::to_string uses: digits without a leading zero. */
  predicate Canonical(s: string) {
    AllDigits(s) && s != [] && (|s| > 1 ==> s[0] != '0')
  }

  lemma {:induction false} DecimalCanonical(n: nat)
    ensures Canonical(Decimal(n)) && (n > 0 ==> Decimal(n)[0] != '0')
  {
    DecimalRoundTrip(n);
    if n >= 10 {
      DecimalCanonical(n / 10);
    }
  }

  lemma DigitSpelling(c: char)
    requires '0' <= c <= '9'
    ensures CharDigit(c).Some? && CharDigit(c).value < 10 && DigitChar(CharDigit(c).value) == c
    ensures c != '0' ==> CharDigit(c).value > 0
  {
  }

  lemma DecimalAppend(m: nat, d: nat)
    requires m > 0 && d < 10
    ensures Decimal(10 * m + d) == Decimal(m) + [DigitChar(d)]
  {
    assert (10 * m + d) / 10 == m && (10 * m + d) % 10 == d;
  }

  lemma FrontCanonical(s: string)
    requires Canonical(s) && |s| > 1
    ensures Canonical(s[..|s| - 1]) && s[..|s| - 1][0] == s[0] && s == s[..|s| - 1] + [s[|s| - 1]]
  {
  }

  lemma AppendRoundTrip(front: string, c: char)
    requires '0' <= c <= '9' && front != [] && ParseDecimal(front).Some? && ParseDecimal(front).value > 0
    requires Decimal(ParseDecimal(front).value) == front
    ensures var p := ParseDecimal(front + [c]); p.Some? && p.value > 0 && Decimal(p.value) == front + [c]
  {
    DigitSpelling(c);
    ParseAppend(front, c);
    DecimalAppend(ParseDecimal(front).value, CharDigit(c).value);
  }

  /** Every canonical string spells a number, and it is what Decimal prints for that number. */
  lemma {:induction false} CanonicalRoundTrip(s: string)
    requires Canonical(s)
    ensures ParseDecimal(s).Some? && Decimal(ParseDecimal(s).value) == s
    ensures s[0] != '0' ==> ParseDecimal(s).value > 0
    decreases |s|
  {
    DigitSpelling(s[|s| - 1]);
    if |s| > 1 {
      FrontCanonical(s);
      CanonicalRoundTrip(s[..|s| - 1]);
      AppendRoundTrip(s[..|s| - 1], s[|s| - 1]);
    } else {
      assert s == [s[0]];
    }
  }

  /** The same with a sign: minus in front of a number that is not zero. */
  predicate CanonicalInt(s: string) {
    if s != [] && s[0] == '-' then Canonical(s[1..]) && s[1] != '0' else Canonical(s)
  }

  lemma ToStringCanonical(i: int)
    ensures CanonicalInt(ToString(i))
  {
    var n: nat := if i < 0 then -i else i;
    DecimalCanonical(n);
    if i < 0 {
      assert ("-" + Decimal(n))[1..] == Decimal(n);
    }
  }

  lemma CanonicalIntRoundTrip(s: string)
    requires CanonicalInt(s)
    ensures ParseInt(s).Some? && ToString(ParseInt(s).value) == s
  {
    if s[0] == '-' {
      CanonicalRoundTrip(s[1..]);
      assert s == "-" + s[1..];
    } else {
      CanonicalRoundTrip(s);
    }
  }

  // ---------------------------------------------------------------- names

  const SUFFIX: string := "_.epub"

  function MakePartialName(path: string, index: int, suffix: string): string {
    path + "_" + ToString(index) + suffix
  }

  /** The last underscore of a stem separates the path from the index. */
  function LastUnderscore(s: string): Option<nat> {
    if s == [] then None
    else if s[|s| - 1] == '_' then Some(|s| - 1)
    else LastUnderscore(s[..|s| - 1])
  }

  lemma {:induction false} LastUnderscoreFinds(path: string, tail: string)
    requires '_' !in tail
    ensures LastUnderscore(path + "_" + tail) == Some(|path|)
  {
    var s := path + "_" + tail;
    if tail == [] {
      assert s == path + "_";
    } else {
      var n := |tail| - 1;
      assert s[..|s| - 1] == path + "_" + tail[..n];
      assert s[|s| - 1] == tail[n] && tail[n] in tail;
      LastUnderscoreFinds(path, tail[..n]);
    }
  }

  /** The path and the index a name with this suffix was made from. */
  function ParsePartialName(name: string, suffix: string): Option<(string, int)> {
    if |name| < |suffix| || name[|name| - |suffix|..] != suffix then None
    else
      var stem := name[..|name| - |suffix|];
      match LastUnderscore(stem)
      case None => None
      case Some(k) =>
        if k >= |stem| then None
        else match ParseInt(stem[k + 1..])
          case None => None
          case Some(i) => Some((stem[..k], i))
  }

  /** Path and index are recovered from the name, for every path, index and suffix. */
  lemma NameRoundTrip(path: string, index: int, suffix: string)
    ensures ParsePartialName(MakePartialName(path, index, suffix), suffix) == Some((path, index))
  {
    var name := MakePartialName(path, index, suffix);
    var stem := path + "_" + ToString(index);
    assert name[|name| - |suffix|..] == suffix;
    assert name[..|name| - |suffix|] == stem;
    ToStringRoundTrip(index);
    LastUnderscoreFinds(path, ToString(index));
    assert stem[..|path|] == path;
    assert stem[|path| + 1..] == ToString(index);
  }

  /** And the name is the only one: path, underscore, the canonical spelling of the index, and
      the suffix, nothing else. */
  lemma NameUnique(path: string, spelling: string, suffix: string)
    requires CanonicalInt(spelling)
    ensures ParseInt(spelling).Some?
    ensures MakePartialName(path, ParseInt(spelling).value, suffix) == path + "_" + spelling + suffix
  {
    CanonicalIntRoundTrip(spelling);
  }

  /** So no two sections of any two books share an output name. */
  lemma NameInjective(path1: string, index1: int, path2: string, index2: int, suffix: string)
    requires MakePartialName(path1, index1, suffix) == MakePartialName(path2, index2, suffix)
    ensures path1 == path2 && index1 == index2
  {
    NameRoundTrip(path1, index1, suffix);
    NameRoundTrip(path2, index2, suffix);
  }

  // ---------------------------------------------------------------- the split loop

  /** The entry for section i when the splitter reports ok[i]. */
  function Entry(path: string, ok: int -> bool, i: int): (string, State) {
    (MakePartialName(path, i, SUFFIX), if ok(i) then OK else ERROR)
  }

  function Entries(path: string, ok: int -> bool, n: nat): seq<(string, State)> {
    seq(n, i => Entry(path, ok, i))
  }

  ghost predicate FailsFirstAt(ok: int -> bool, k: int) {
    !ok(k) && forall i :: 0 <= i < k ==> ok(i)
  }

  /** Appends one entry per section up to and including the first failure. True means that there
      are sections and all of them were split. */
  method Split(path: string, sectionCount: int, ok: int -> bool, before: seq<(string, State)>)
    returns (result: bool, outputPaths: seq<(string, State)>)
    ensures result <==> sectionCount > 0 && forall i :: 0 <= i < sectionCount ==> ok(i)
    ensures result ==> outputPaths == before + Entries(path, ok, sectionCount)
    ensures !result && sectionCount <= 0 ==> outputPaths == before
    ensures !result && sectionCount > 0 ==>
              exists k :: 0 <= k < sectionCount && FailsFirstAt(ok, k)
                          && outputPaths == before + Entries(path, ok, k + 1)
  {
    outputPaths := before;
    if sectionCount <= 0 {
      return false, outputPaths;
    }
    assert outputPaths == before + Entries(path, ok, 0);
    for i := 0 to sectionCount
      invariant forall j :: 0 <= j < i ==> ok(j)
      invariant outputPaths == before + Entries(path, ok, i)
    {
      var outputName := MakePartialName(path, i, SUFFIX);
      var state := if ok(i) then OK else ERROR;
      outputPaths := outputPaths + [(outputName, state)];
      assert Entries(path, ok, i + 1) == Entries(path, ok, i) + [(outputName, state)];
      if state == ERROR {
        assert FailsFirstAt(ok, i);
        return false, outputPaths;
      }
    }
    result := true;
  }

  predicate AllOk(out: seq<(string, State)>) {
    forall i :: 0 <= i < |out| ==> out[i].1 == OK
  }

  /** The shape of an output list: OK entries with distinct names, and at most one ERROR, last. */
  ghost predicate WellShaped(out: seq<(string, State)>) {
    && (out == [] || AllOk(out[..|out| - 1]))
    && forall i, j :: 0 <= i < j < |out| ==> out[i].0 != out[j].0
  }

  lemma EntriesWellShaped(path: string, ok: int -> bool, k: nat)
    requires forall i :: 0 <= i < k ==> ok(i)
    ensures WellShaped(Entries(path, ok, k)) && AllOk(Entries(path, ok, k))
    ensures WellShaped(Entries(path, ok, k + 1))
    ensures !ok(k) ==> Entries(path, ok, k + 1)[k].1 == ERROR
  {
    var out := Entries(path, ok, k + 1);
    forall i, j | 0 <= i < j < |out| ensures out[i].0 != out[j].0 {
      if out[i].0 == out[j].0 {
        NameInjective(path, i, path, j, SUFFIX);
      }
    }
    assert Entries(path, ok, k) == out[..k];
  }

  /** A job's list starts empty: then the result tells the shape of the output. */
  method SplitFresh(path: string, sectionCount: int, ok: int -> bool)
    returns (result: bool, outputPaths: seq<(string, State)>)
    ensures WellShaped(outputPaths)
    ensures result <==> outputPaths != [] && AllOk(outputPaths)
    ensures result ==> |outputPaths| == sectionCount
    ensures forall i :: 0 <= i < |outputPaths| ==> outputPaths[i].0 == MakePartialName(path, i, SUFFIX)
  {
    result, outputPaths := Split(path, sectionCount, ok, []);
    if result {
      EntriesWellShaped(path, ok, sectionCount);
      assert outputPaths == Entries(path, ok, sectionCount);
    } else if sectionCount > 0 {
      ghost var k :| 0 <= k < sectionCount && FailsFirstAt(ok, k) && outputPaths == [] + Entries(path, ok, k + 1);
      EntriesWellShaped(path, ok, k);
      assert outputPaths == Entries(path, ok, k + 1);
      assert outputPaths[k].1 == ERROR;
    }
  }
}
