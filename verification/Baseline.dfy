/** Baseline comparison: loading two JSON run reports and listing their differences in name order. */
module Baseline {
  datatype Json =
    | Null
    | Bool(value: bool)
    | Number(number: int)
    | Text(text: string)
    | List(items: seq<Json>)
    | Object(fields: map<string, Json>)

  type Verdicts = map<string, string>

  // ---- Loading a report -----------------------------------------------------------------------------------

  /** Which finding is wrong, and how; None is a report without a list of findings. */
  datatype LoadError =
    | NoFindings
    | NotAnObject(index: nat)
    | BadName(index: nat)
    | BadVerdict(index: nat)
    | Duplicate(index: nat)

  datatype Loaded = Cases(verdicts: Verdicts) | Rejected(error: LoadError)

  predicate NonEmptyText(fields: map<string, Json>, key: string) {
    key in fields && fields[key].Text? && fields[key].text != ""
  }

  predicate WellFormed(f: Json) {
    f.Object? && NonEmptyText(f.fields, "name") && NonEmptyText(f.fields, "verdict")
  }

  function NameOf(f: Json): string
    requires WellFormed(f)
  {
    f.fields["name"].text
  }

  function VerdictOf(f: Json): string
    requires WellFormed(f)
  {
    f.fields["verdict"].text
  }

  predicate HasFindings(report: map<string, Json>) {
    "findings" in report && report["findings"].List?
  }

  /** Every finding has a name and a verdict, and no two share a name. */
  ghost predicate Loadable(findings: seq<Json>) {
    && (forall i :: 0 <= i < |findings| ==> WellFormed(findings[i]))
    && (forall i, j :: 0 <= i < j < |findings| ==> NameOf(findings[i]) != NameOf(findings[j]))
  }

  /** The name-to-verdict map of a loadable list. */
  ghost function VerdictsOf(findings: seq<Json>): Verdicts
    requires Loadable(findings)
  {
    if findings == [] then map[] else
    var last := findings[|findings| - 1];
    VerdictsOf(findings[..|findings| - 1])[NameOf(last) := VerdictOf(last)]
  }

  /** On a loadable list the map has one entry for every finding and no other. */
  lemma VerdictsOfLoadable(findings: seq<Json>)
    requires Loadable(findings)
    ensures forall i :: 0 <= i < |findings| ==>
      NameOf(findings[i]) in VerdictsOf(findings) && VerdictsOf(findings)[NameOf(findings[i])] == VerdictOf(findings[i])
    ensures forall name :: name in VerdictsOf(findings) ==>
      exists i :: 0 <= i < |findings| && NameOf(findings[i]) == name
    ensures |VerdictsOf(findings)| == |findings|
  {
    hide WellFormed, NameOf, VerdictOf, VerdictsOf;
    forall i | 0 <= i < |findings|
      ensures NameOf(findings[i]) in VerdictsOf(findings)
      ensures VerdictsOf(findings)[NameOf(findings[i])] == VerdictOf(findings[i])
    {
      EntryOf(findings, i);
    }
    forall name | name in VerdictsOf(findings) ensures exists i :: 0 <= i < |findings| && NameOf(findings[i]) == name {
      var i := OriginOf(findings, name);
    }
    EntryCount(findings);
  }

  lemma {:induction false} EntryOf(findings: seq<Json>, i: nat)
    requires Loadable(findings) && i < |findings|
    ensures NameOf(findings[i]) in VerdictsOf(findings)
    ensures VerdictsOf(findings)[NameOf(findings[i])] == VerdictOf(findings[i])
  {
    hide WellFormed, NameOf, VerdictOf;
    if i < |findings| - 1 {
      EntryOf(findings[..|findings| - 1], i);
    }
  }

  lemma {:induction false} OriginOf(findings: seq<Json>, name: string) returns (i: nat)
    requires Loadable(findings) && name in VerdictsOf(findings)
    ensures i < |findings| && NameOf(findings[i]) == name
  {
    hide WellFormed, NameOf, VerdictOf;
    i := |findings| - 1;
    if name != NameOf(findings[i]) {
      i := OriginOf(findings[..i], name);
    }
  }

  lemma {:induction false} EntryCount(findings: seq<Json>)
    requires Loadable(findings)
    ensures |VerdictsOf(findings)| == |findings|
  {
    hide WellFormed, NameOf, VerdictOf;
    if findings != [] {
      var n := |findings| - 1;
      EntryCount(findings[..n]);
      if NameOf(findings[n]) in VerdictsOf(findings[..n]) {
        var i := OriginOf(findings[..n], NameOf(findings[n]));
        assert false;
      }
    }
  }

  /** What is wrong with the finding at `index`, all earlier ones being fine. */
  ghost predicate Explains(findings: seq<Json>, error: LoadError) {
    match error
    case NoFindings => false
    case NotAnObject(i) => i < |findings| && Loadable(findings[..i]) && !findings[i].Object?
    case BadName(i) =>
      i < |findings| && Loadable(findings[..i]) && findings[i].Object? && !NonEmptyText(findings[i].fields, "name")
    case BadVerdict(i) =>
      i < |findings| && Loadable(findings[..i]) && findings[i].Object? && NonEmptyText(findings[i].fields, "name")
      && !NonEmptyText(findings[i].fields, "verdict")
    case Duplicate(i) =>
      i < |findings| && Loadable(findings[..i]) && WellFormed(findings[i])
      && exists j :: 0 <= j < i && NameOf(findings[j]) == NameOf(findings[i])
  }

  /** At most one error explains why findings do not load: the first offender, and what is wrong with it. */
  lemma OneExplanation(findings: seq<Json>, d: LoadError, e: LoadError)
    requires Explains(findings, d) && Explains(findings, e)
    ensures d == e
  {
    hide NonEmptyText, NameOf;
    assert forall i :: 0 <= i < d.index ==> findings[..d.index][i] == findings[i];
    assert forall i :: 0 <= i < e.index ==> findings[..e.index][i] == findings[i];
  }

  /** `_findings_by_name` */
  method FindingsByName(report: map<string, Json>) returns (r: Loaded)
    ensures r.Cases? <==> HasFindings(report) && Loadable(report["findings"].items)
    ensures r.Cases? ==>
      r.verdicts == VerdictsOf(report["findings"].items) && |r.verdicts| == |report["findings"].items|
    ensures r == Rejected(NoFindings) <==> "findings" !in report || !report["findings"].List?
    ensures r.Rejected? && HasFindings(report) ==> Explains(report["findings"].items, r.error)
  {
    hide NonEmptyText, Loadable, VerdictsOf, Explains;
    if "findings" !in report || !report["findings"].List? {
      return Rejected(NoFindings);
    }
    var findings := report["findings"].items;
    var cases: Verdicts := map[];
    EmptyIsLoadable();
    assert findings[..0] == [];
    for index := 0 to |findings|
      invariant Loadable(findings[..index])
      invariant cases == VerdictsOf(findings[..index])
    {
      var finding := findings[index];
      if !finding.Object? {
        Malformed(findings, index);
        return Rejected(NotAnObject(index));
      }
      if !NonEmptyText(finding.fields, "name") {
        Malformed(findings, index);
        return Rejected(BadName(index));
      }
      if !NonEmptyText(finding.fields, "verdict") {
        Malformed(findings, index);
        return Rejected(BadVerdict(index));
      }
      var name, verdict := NameOf(finding), VerdictOf(finding);
      if name in cases {
        RepeatedName(findings, index);
        return Rejected(Duplicate(index));
      }
      ExtendLoadable(findings, index);
      cases := cases[name := verdict];
    }
    assert findings[..|findings|] == findings;
    VerdictsOfLoadable(findings);
    return Cases(cases);
  }

  /** What loading demands of the findings and what it takes from them, by the fields of the JSON objects. */
  lemma LoadingSpelledOut(findings: seq<Json>)
    ensures Loadable(findings) <==>
      && (forall i :: 0 <= i < |findings| ==>
            && findings[i].Object?
            && "name" in findings[i].fields && findings[i].fields["name"].Text?
            && findings[i].fields["name"].text != ""
            && "verdict" in findings[i].fields && findings[i].fields["verdict"].Text?
            && findings[i].fields["verdict"].text != "")
      && (forall i, j :: 0 <= i < j < |findings| ==> findings[i].fields["name"] != findings[j].fields["name"])
    ensures Loadable(findings) ==>
      && |VerdictsOf(findings)| == |findings|
      && forall i :: 0 <= i < |findings| ==>
           && findings[i].fields["name"].text in VerdictsOf(findings)
           && VerdictsOf(findings)[findings[i].fields["name"].text] == findings[i].fields["verdict"].text
  {
    hide VerdictsOf;
    if Loadable(findings) {
      VerdictsOfLoadable(findings);
      forall i | 0 <= i < |findings|
        ensures findings[i].fields["name"].text in VerdictsOf(findings)
        ensures VerdictsOf(findings)[findings[i].fields["name"].text] == findings[i].fields["verdict"].text
      {
        assert NameOf(findings[i]) in VerdictsOf(findings);
      }
    }
  }

  /** What each error says of the finding it names: the first check it fails, in the order of the checks. */
  lemma ErrorSpelledOut(findings: seq<Json>, error: LoadError)
    requires Explains(findings, error)
    ensures !error.NoFindings? && error.index < |findings| && Loadable(findings[..error.index])
    ensures var f := findings[error.index];
      var named := f.Object? && "name" in f.fields && f.fields["name"].Text? && f.fields["name"].text != "";
      var judged := f.Object? && "verdict" in f.fields && f.fields["verdict"].Text? && f.fields["verdict"].text != "";
      && (error.NotAnObject? <==> !f.Object?)
      && (error.BadName? <==> f.Object? && !named)
      && (error.BadVerdict? <==> named && !judged)
      && (error.Duplicate? <==> named && judged)
      && (error.Duplicate? ==>
            exists j :: 0 <= j < error.index && findings[j].Object? && "name" in findings[j].fields
                     && findings[j].fields["name"] == f.fields["name"])
  {
    if error.Duplicate? {
      var j :| 0 <= j < error.index && NameOf(findings[j]) == NameOf(findings[error.index]);
      assert findings[..error.index][j] == findings[j];
    }
  }

  lemma EmptyIsLoadable()
    ensures Loadable([]) && VerdictsOf([]) == map[]
  {
  }

  lemma Malformed(findings: seq<Json>, index: nat)
    requires index < |findings| && Loadable(findings[..index]) && !WellFormed(findings[index])
    ensures !Loadable(findings)
    ensures Explains(findings,
                     if !findings[index].Object? then NotAnObject(index)
                     else if !NonEmptyText(findings[index].fields, "name") then BadName(index)
                     else BadVerdict(index))
  {
    hide NonEmptyText;
  }

  lemma RepeatedName(findings: seq<Json>, index: nat)
    requires index < |findings| && Loadable(findings[..index]) && WellFormed(findings[index])
    requires NameOf(findings[index]) in VerdictsOf(findings[..index])
    ensures Explains(findings, Duplicate(index)) && !Loadable(findings)
  {
    hide WellFormed, NameOf;
    var before := findings[..index];
    VerdictsOfLoadable(before);
    var j :| 0 <= j < index && NameOf(before[j]) == NameOf(findings[index]);
    assert before[j] == findings[j];
  }

  lemma ExtendLoadable(findings: seq<Json>, index: nat)
    requires index < |findings| && Loadable(findings[..index]) && WellFormed(findings[index])
    requires NameOf(findings[index]) !in VerdictsOf(findings[..index])
    ensures Loadable(findings[..index + 1])
    ensures VerdictsOf(findings[..index + 1])
         == VerdictsOf(findings[..index])[NameOf(findings[index]) := VerdictOf(findings[index])]
  {
    hide WellFormed, NameOf, VerdictOf;
    var before, after := findings[..index], findings[..index + 1];
    assert after[..index] == before;
    forall j | 0 <= j < index ensures NameOf(before[j]) != NameOf(findings[index]) {
      EntryOf(before, j);
    }
    assert forall j :: 0 <= j < index ==> before[j] == after[j] == findings[j];
  }

  /** Whether a list of findings loads, and to which map, does not depend on the order they are listed in. */
  lemma LoadIgnoresOrder(f: seq<Json>, g: seq<Json>)
    requires Loadable(f) && multiset(f) == multiset(g)
    ensures Loadable(g) && VerdictsOf(f) == VerdictsOf(g)
  {
    hide WellFormed, NameOf, VerdictsOf;
    forall i | 0 <= i < |g| ensures WellFormed(g[i]) {
      assert g[i] in multiset(g);
      assert g[i] in f;
    }
    forall i, j | 0 <= i < j < |g| ensures NameOf(g[i]) != NameOf(g[j]) {
      assert g[i] in multiset(g) && g[j] in multiset(g);
      if g[i] == g[j] {
        CountsTwice(g, i, j);
        var p, q := FoundTwice(f, g[i]);
      } else {
        var p :| 0 <= p < |f| && f[p] == g[i];
        var q :| 0 <= q < |f| && f[q] == g[j];
      }
    }
    SameMembersLoadAlike(f, g);
    SameMembersLoadAlike(g, f);
  }

  lemma CountsTwice(s: seq<Json>, i: nat, j: nat)
    requires i < j < |s| && s[i] == s[j]
    ensures multiset(s)[s[i]] >= 2
  {
    assert s == s[..j] + s[j..];
    assert s[..j][i] == s[i] && s[j..][0] == s[i];
  }

  lemma FoundTwice(s: seq<Json>, x: Json) returns (i: nat, j: nat)
    requires multiset(s)[x] >= 2
    ensures i < j < |s| && s[i] == x == s[j]
  {
    assert x in multiset(s);
    i :| 0 <= i < |s| && s[i] == x;
    var rest := s[..i] + s[i + 1..];
    assert s == s[..i] + [x] + s[i + 1..];
    assert multiset(s) == multiset(rest) + multiset{x};
    assert x in multiset(rest);
    var k :| 0 <= k < |rest| && rest[k] == x;
    j := if k < i then k else k + 1;
    assert s[j] == x && j != i;
    if j < i {
      i, j := j, i;
    }
  }

  lemma SameMembersLoadAlike(f: seq<Json>, g: seq<Json>)
    requires Loadable(f) && Loadable(g) && multiset(f) == multiset(g)
    ensures forall name :: name in VerdictsOf(f) ==> name in VerdictsOf(g) && VerdictsOf(g)[name] == VerdictsOf(f)[name]
  {
    hide WellFormed, NameOf, VerdictOf, VerdictsOf;
    VerdictsOfLoadable(f);
    VerdictsOfLoadable(g);
    forall name | name in VerdictsOf(f)
      ensures name in VerdictsOf(g) && VerdictsOf(g)[name] == VerdictsOf(f)[name]
    {
      var i :| 0 <= i < |f| && NameOf(f[i]) == name;
      assert f[i] in multiset(f);
      var j :| 0 <= j < |g| && g[j] == f[i];
    }
  }

  // ---- Name order ---------------------------------------------------------------------------------------------

  /** Python's string order: lexicographic by code point. */
  predicate Less(a: string, b: string) {
    b != [] && (a == [] || a[0] < b[0] || (a[0] == b[0] && Less(a[1..], b[1..])))
  }

  lemma {:induction false} LessIsStrict(a: string, b: string)
    ensures !(Less(a, b) && Less(b, a)) && !Less(a, a)
  {
    if a != [] {
      LessIsStrict(a[1..], if b == [] then [] else b[1..]);
    }
  }

  lemma {:induction false} LessTransitive(a: string, b: string, c: string)
    requires Less(a, b) && Less(b, c)
    ensures Less(a, c)
  {
    if a != [] && a[0] == b[0] && b[0] == c[0] {
      LessTransitive(a[1..], b[1..], c[1..]);
    }
  }

  lemma {:induction false} LessTotal(a: string, b: string)
    ensures a == b || Less(a, b) || Less(b, a)
  {
    if a != [] && b != [] && a[0] == b[0] {
      LessTotal(a[1..], b[1..]);
      assert a == [a[0]] + a[1..] && b == [b[0]] + b[1..];
    }
  }

  /** Less is: at the first difference the one ends, or has the smaller code point. */
  lemma {:induction false} LessSpelledOut(a: string, b: string)
    ensures Less(a, b) <==>
      exists p :: 0 <= p <= |a| && p < |b| && a[..p] == b[..p] && (p == |a| || a[p] < b[p])
  {
    if a != [] && b != [] {
      var x, y := a[1..], b[1..];
      LessSpelledOut(x, y);
      if a[0] == b[0] && Less(x, y) {
        var p :| 0 <= p <= |x| && p < |y| && x[..p] == y[..p] && (p == |x| || x[p] < y[p]);
        assert a[..p + 1] == [a[0]] + x[..p] && b[..p + 1] == [b[0]] + y[..p];
      } else if a[0] < b[0] {
        assert a[..0] == b[..0];
      }
      if p :| 0 <= p <= |a| && p < |b| && a[..p] == b[..p] && (p == |a| || a[p] < b[p]) {
        if p > 0 {
          assert a[0] == a[..p][0] && b[0] == b[..p][0];
          assert x[..p - 1] == a[..p][1..] && y[..p - 1] == b[..p][1..];
        }
      }
    } else if b != [] {
      assert a[..0] == b[..0];
    }
  }

  ghost predicate Ascending(names: seq<string>) {
    forall i, j :: 0 <= i < j < |names| ==> Less(names[i], names[j])
  }

  ghost predicate Enumerates(names: seq<string>, s: set<string>) {
    && Ascending(names)
    && (forall i :: 0 <= i < |names| ==> names[i] in s)
    && (forall x :: x in s ==> x in names)
  }

  /** Where a new name goes in an ascending list. */
  lemma InsertName(names: seq<string>, s: set<string>, x: string, i: nat)
    requires Enumerates(names, s) && x !in s && i <= |names|
    requires forall j :: 0 <= j < i ==> Less(names[j], x)
    requires i < |names| ==> !Less(names[i], x)
    ensures Enumerates(names[..i] + [x] + names[i..], s + {x})
  {
    hide Less;
    var r := names[..i] + [x] + names[i..];
    forall j | i <= j < |names| ensures Less(x, names[j]) {
      LessTotal(names[i], x);
      if j > i {
        LessTransitive(x, names[i], names[j]);
      }
    }
    forall y | y in s + {x} ensures y in r {
      if y == x {
        assert r[i] == x;
      } else {
        var j :| 0 <= j < |names| && names[j] == y;
        assert r[if j < i then j else j + 1] == y;
      }
    }
  }

  /** `sorted` on a set of names. */
  method SortNames(s: set<string>) returns (names: seq<string>)
    ensures Enumerates(names, s)
  {
    names := [];
    var rest := s;
    while rest != {}
      invariant rest <= s && Enumerates(names, s - rest)
      decreases |rest|
    {
      var x :| x in rest;
      var i := 0;
      while i < |names| && Less(names[i], x)
        invariant i <= |names|
        invariant forall j :: 0 <= j < i ==> Less(names[j], x)
      {
        i := i + 1;
      }
      InsertName(names, s - rest, x, i);
      names := names[..i] + [x] + names[i..];
      rest := rest - {x};
      assert s - rest == s - (rest + {x}) + {x};
    }
    assert s - rest == s;
  }

  /** A set of names has one ascending enumeration, so sorting is deterministic. */
  lemma {:induction false} EnumerationUnique(a: seq<string>, b: seq<string>, s: set<string>)
    requires Enumerates(a, s) && Enumerates(b, s)
    ensures a == b
    decreases |a|
  {
    hide Less;
    assert b != [] ==> b[0] in s && b[0] in a;
    if a != [] {
      assert a[0] in s;
      var i :| 0 <= i < |b| && b[i] == a[0];
      assert b[0] in s;
      var j :| 0 <= j < |a| && a[j] == b[0];
      LessIsStrict(a[0], b[0]);
      assert i == 0;
      EnumerationTail(a, s);
      EnumerationTail(b, s);
      EnumerationUnique(a[1..], b[1..], s - {a[0]});
      assert a == [a[0]] + a[1..] && b == [b[0]] + b[1..];
    }
  }

  lemma EnumerationTail(a: seq<string>, s: set<string>)
    requires Enumerates(a, s) && a != []
    ensures Enumerates(a[1..], s - {a[0]})
  {
    forall i | 0 <= i < |a[1..]| ensures a[1..][i] in s - {a[0]} {
      LessIsStrict(a[0], a[i + 1]);
    }
    forall x | x in s - {a[0]} ensures x in a[1..] {
      var i :| 0 <= i < |a| && a[i] == x;
      assert a[1..][i - 1] == x;
    }
  }

  lemma {:induction false} EnumerationExists(s: set<string>)
    ensures exists names :: Enumerates(names, s)
    decreases |s|
  {
    if s == {} {
      assert Enumerates([], s);
    } else {
      var x :| x in s;
      EnumerationExists(s - {x});
      var names :| Enumerates(names, s - {x});
      var i := 0;
      while i < |names| && Less(names[i], x)
        invariant i <= |names|
        invariant forall j :: 0 <= j < i ==> Less(names[j], x)
      {
        i := i + 1;
      }
      InsertName(names, s - {x}, x, i);
      assert s - {x} + {x} == s;
    }
  }

  ghost function InOrder(s: set<string>): (names: seq<string>)
    ensures Enumerates(names, s)
  {
    EnumerationExists(s);
    var names :| Enumerates(names, s);
    names
  }

  // ---- The difference list --------------------------------------------------------------------------------

  datatype Difference =
    | MissingCase(name: string, baseline: string)
    | NewCase(name: string, actual: string)
    | VerdictChanged(name: string, baseline: string, actual: string)

  ghost function MissingNames(b: Verdicts, a: Verdicts): set<string> {
    b.Keys - a.Keys
  }

  ghost function ChangedNames(b: Verdicts, a: Verdicts): set<string> {
    set name | name in b && name in a && b[name] != a[name]
  }

  ghost function MissingCases(b: Verdicts, names: seq<string>): seq<Difference>
    requires forall i :: 0 <= i < |names| ==> names[i] in b
  {
    seq(|names|, i requires 0 <= i < |names| => MissingCase(names[i], b[names[i]]))
  }

  ghost function NewCases(a: Verdicts, names: seq<string>): seq<Difference>
    requires forall i :: 0 <= i < |names| ==> names[i] in a
  {
    seq(|names|, i requires 0 <= i < |names| => NewCase(names[i], a[names[i]]))
  }

  ghost function ChangedCases(b: Verdicts, a: Verdicts, names: seq<string>): seq<Difference>
    requires forall i :: 0 <= i < |names| ==> names[i] in b && names[i] in a
  {
    seq(|names|, i requires 0 <= i < |names| => VerdictChanged(names[i], b[names[i]], a[names[i]]))
  }

  /** Three segments, each in name order: cases gone, cases added, verdicts changed. */
  ghost function Diff(b: Verdicts, a: Verdicts): seq<Difference> {
    MissingCases(b, InOrder(MissingNames(b, a)))
    + NewCases(a, InOrder(MissingNames(a, b)))
    + ChangedCases(b, a, InOrder(ChangedNames(b, a)))
  }

  datatype Comparison =
    | Differences(differences: seq<Difference>)
    | BaselineRejected(error: LoadError)
    | ActualRejected(error: LoadError)

  /** What `compare_reports` must return: an error for the first report that does not load, or the differences. */
  ghost predicate Compares(baseline: map<string, Json>, actual: map<string, Json>, r: Comparison) {
    if !HasFindings(baseline) then r == BaselineRejected(NoFindings)
    else if !Loadable(baseline["findings"].items) then
      r.BaselineRejected? && Explains(baseline["findings"].items, r.error)
    else if !HasFindings(actual) then r == ActualRejected(NoFindings)
    else if !Loadable(actual["findings"].items) then
      r.ActualRejected? && Explains(actual["findings"].items, r.error)
    else
      r == Differences(Diff(VerdictsOf(baseline["findings"].items), VerdictsOf(actual["findings"].items)))
  }

  /** `compare_reports` */
  method CompareReports(baseline: map<string, Json>, actual: map<string, Json>) returns (r: Comparison)
    ensures Compares(baseline, actual, r)
    ensures r.BaselineRejected? <==> !(HasFindings(baseline) && Loadable(baseline["findings"].items))
    ensures r.ActualRejected? <==> !r.BaselineRejected? && !(HasFindings(actual) && Loadable(actual["findings"].items))
  {
    hide Diff;
    var loadedBaseline := FindingsByName(baseline);
    if loadedBaseline.Rejected? {
      return BaselineRejected(loadedBaseline.error);
    }
    var loadedActual := FindingsByName(actual);
    if loadedActual.Rejected? {
      return ActualRejected(loadedActual.error);
    }
    var differences := CompareVerdicts(loadedBaseline.verdicts, loadedActual.verdicts);
    return Differences(differences);
  }

  /** The comparison of two reports has one outcome, the reported error included. */
  lemma ComparisonDetermined(baseline: map<string, Json>, actual: map<string, Json>, r: Comparison, r': Comparison)
    requires Compares(baseline, actual, r) && Compares(baseline, actual, r')
    ensures r == r'
  {
    hide Loadable, Explains, Diff, VerdictsOf;
    if HasFindings(baseline) && !Loadable(baseline["findings"].items) {
      OneExplanation(baseline["findings"].items, r.error, r'.error);
    } else if r.ActualRejected? && HasFindings(actual) {
      OneExplanation(actual["findings"].items, r.error, r'.error);
    }
  }

  /** One report lists the findings of the other in some order. */
  ghost predicate Reordered(report: map<string, Json>, report': map<string, Json>) {
    && (HasFindings(report) <==> HasFindings(report'))
    && (HasFindings(report) ==> multiset(report["findings"].items) == multiset(report'["findings"].items))
  }

  /** The comparison does not depend on the order in which either report lists its findings. */
  lemma ComparisonIgnoresOrder(baseline: map<string, Json>, actual: map<string, Json>, r: Comparison,
                               baseline': map<string, Json>, actual': map<string, Json>, r': Comparison)
    requires Compares(baseline, actual, r) && Compares(baseline', actual', r')
    requires Reordered(baseline, baseline') && Reordered(actual, actual')
    ensures r.Differences? || r'.Differences? ==> r == r'
    ensures r.BaselineRejected? == r'.BaselineRejected? && r.ActualRejected? == r'.ActualRejected?
  {
    hide Loadable, Explains, Diff, VerdictsOf;
    if HasFindings(baseline) {
      ReorderedLoads(baseline, baseline');
    }
    if HasFindings(actual) {
      ReorderedLoads(actual, actual');
    }
  }

  lemma ReorderedLoads(report: map<string, Json>, report': map<string, Json>)
    requires Reordered(report, report') && HasFindings(report)
    ensures Loadable(report["findings"].items) <==> Loadable(report'["findings"].items)
    ensures Loadable(report["findings"].items) ==>
      VerdictsOf(report["findings"].items) == VerdictsOf(report'["findings"].items)
  {
    hide Loadable, VerdictsOf;
    if Loadable(report["findings"].items) {
      LoadIgnoresOrder(report["findings"].items, report'["findings"].items);
    } else if Loadable(report'["findings"].items) {
      LoadIgnoresOrder(report'["findings"].items, report["findings"].items);
    }
  }

  method CompareVerdicts(b: Verdicts, a: Verdicts) returns (differences: seq<Difference>)
    ensures differences == Diff(b, a)
  {
    hide Less;
    differences := [];
    var missing := SortNames(b.Keys - a.Keys);
    EnumerationUnique(missing, InOrder(MissingNames(b, a)), MissingNames(b, a));
    for i := 0 to |missing|
      invariant differences == MissingCases(b, missing)[..i]
    {
      differences := differences + [MissingCase(missing[i], b[missing[i]])];
    }
    ghost var first := differences;

    var added := SortNames(a.Keys - b.Keys);
    EnumerationUnique(added, InOrder(MissingNames(a, b)), MissingNames(a, b));
    for i := 0 to |added|
      invariant differences == first + NewCases(a, added)[..i]
    {
      differences := differences + [NewCase(added[i], a[added[i]])];
    }
    ghost var second := differences;

    var shared := SortNames(b.Keys * a.Keys);
    var changed := AppendChanged(b, a, shared);
    differences := differences + changed;
  }

  /** The third loop walks all shared names and reports those whose verdict moved. */
  method AppendChanged(b: Verdicts, a: Verdicts, shared: seq<string>) returns (changes: seq<Difference>)
    requires Enumerates(shared, b.Keys * a.Keys)
    ensures changes == ChangedCases(b, a, InOrder(ChangedNames(b, a)))
  {
    hide Less;
    changes := [];
    ghost var names: seq<string> := [];
    for i := 0 to |shared|
      invariant forall k :: 0 <= k < |names| ==> names[k] in ChangedNames(b, a) && names[k] in shared[..i]
      invariant forall k :: 0 <= k < i && shared[k] in ChangedNames(b, a) ==> shared[k] in names
      invariant Ascending(names)
      invariant changes == ChangedCases(b, a, names)
    {
      assert shared[i] in b.Keys * a.Keys;
      var baselineVerdict, actualVerdict := b[shared[i]], a[shared[i]];
      if baselineVerdict != actualVerdict {
        changes := changes + [VerdictChanged(shared[i], baselineVerdict, actualVerdict)];
        names := names + [shared[i]];
      }
    }
    forall x | x in ChangedNames(b, a) ensures x in names {
      assert x in shared;
      var k :| 0 <= k < |shared| && shared[k] == x;
    }
    EnumerationUnique(names, InOrder(ChangedNames(b, a)), ChangedNames(b, a));
  }

  // ---- What a difference list is good for ------------------------------------------------------------------

  function Patch(v: Verdicts, d: Difference): Verdicts {
    match d
    case MissingCase(name, _) => v - {name}
    case NewCase(name, verdict) => v[name := verdict]
    case VerdictChanged(name, _, verdict) => v[name := verdict]
  }

  function Apply(v: Verdicts, ds: seq<Difference>): Verdicts
    decreases |ds|
  {
    if ds == [] then v else Patch(Apply(v, ds[..|ds| - 1]), ds[|ds| - 1])
  }

  lemma {:induction false} ApplyAppend(v: Verdicts, ds: seq<Difference>, es: seq<Difference>)
    ensures Apply(v, ds + es) == Apply(Apply(v, ds), es)
    decreases |es|
  {
    if es == [] {
      assert ds + es == ds;
    } else {
      ApplyAppend(v, ds, es[..|es| - 1]);
      assert (ds + es)[..|ds + es| - 1] == ds + es[..|es| - 1];
    }
  }

  lemma {:induction false} ApplyMissing(v: Verdicts, b: Verdicts, names: seq<string>)
    requires forall i :: 0 <= i < |names| ==> names[i] in b
    ensures Apply(v, MissingCases(b, names)) == v - (set name | name in names)
  {
    if names != [] {
      var front, last := names[..|names| - 1], names[|names| - 1];
      ApplyMissing(v, b, front);
      assert MissingCases(b, names)[..|names| - 1] == MissingCases(b, front);
      assert (set name | name in names) == (set name | name in front) + {last};
    }
  }

  ghost predicate Writes(a: Verdicts, names: seq<string>, ds: seq<Difference>) {
    && |ds| == |names|
    && forall i :: 0 <= i < |names| ==>
         names[i] in a && !ds[i].MissingCase? && ds[i].name == names[i] && ds[i].actual == a[names[i]]
  }

  lemma {:induction false} ApplyWrites(v: Verdicts, a: Verdicts, names: seq<string>, ds: seq<Difference>)
    requires Writes(a, names, ds)
    ensures forall name :: name in Apply(v, ds) <==> name in v || name in names
    ensures forall name :: name in Apply(v, ds) ==>
      Apply(v, ds)[name] == if name in names then a[name] else v[name]
    decreases |ds|
  {
    if names != [] {
      var n := |names| - 1;
      ApplyWrites(v, a, names[..n], ds[..n]);
      assert names == names[..n] + [names[n]];
      assert Apply(v, ds) == Apply(v, ds[..n])[names[n] := a[names[n]]];
    }
  }

  /** The differences are a correct patch: applied to the baseline's verdicts they give the actual ones. */
  lemma DiffIsPatch(b: Verdicts, a: Verdicts)
    ensures Apply(b, Diff(b, a)) == a
  {
    hide Less, Ascending, Apply, InOrder;
    var missing, added := InOrder(MissingNames(b, a)), InOrder(MissingNames(a, b));
    var changed := InOrder(ChangedNames(b, a));
    var d0, d1, d2 := MissingCases(b, missing), NewCases(a, added), ChangedCases(b, a, changed);
    ApplyAppend(b, d0 + d1, d2);
    ApplyAppend(b, d0, d1);
    ApplyMissing(b, b, missing);
    var b1 := Apply(b, d0);
    var b2 := Apply(b1, d1);
    ApplyWrites(b1, a, added, d1);
    ApplyWrites(b2, a, changed, d2);
    PatchedInThree(b, a, b1, b2, Apply(b2, d2), missing, added, changed);
  }

  lemma PatchedInThree(b: Verdicts, a: Verdicts, b1: Verdicts, b2: Verdicts, b3: Verdicts,
                       missing: seq<string>, added: seq<string>, changed: seq<string>)
    requires forall x :: x in missing <==> x in MissingNames(b, a)
    requires forall x :: x in added <==> x in MissingNames(a, b)
    requires forall x :: x in changed <==> x in ChangedNames(b, a)
    requires b1 == b - (set x | x in missing)
    requires forall x :: x in b2 <==> x in b1 || x in added
    requires forall x :: x in b2 ==> b2[x] == if x in added then a[x] else b1[x]
    requires forall x :: x in b3 <==> x in b2 || x in changed
    requires forall x :: x in b3 ==> b3[x] == if x in changed then a[x] else b2[x]
    ensures b3 == a
  {
    forall x ensures x in b3 <==> x in a {
      assert x in b1 <==> x in b && x !in missing;
    }
  }

  lemma DiffEmptyIffSame(b: Verdicts, a: Verdicts)
    ensures Diff(b, a) == [] <==> b == a
  {
    hide Less, Apply;
    DiffIsPatch(b, a);
    assert Apply(b, []) == b by {
      ApplyNothing(b);
    }
    if b == a {
      assert MissingNames(b, a) == {} && ChangedNames(b, a) == {};
      EnumerationLength(InOrder({}), {});
    }
  }

  lemma ApplyNothing(v: Verdicts)
    ensures Apply(v, []) == v
  {
  }

  ghost predicate NamesAscend(ds: seq<Difference>) {
    forall i, j :: 0 <= i < j < |ds| ==> Less(ds[i].name, ds[j].name)
  }

  ghost predicate AllMissing(b: Verdicts, a: Verdicts, ds: seq<Difference>) {
    forall i :: 0 <= i < |ds| ==>
      ds[i].MissingCase? && ds[i].name in b && ds[i].name !in a && ds[i].baseline == b[ds[i].name]
  }

  ghost predicate AllNew(b: Verdicts, a: Verdicts, ds: seq<Difference>) {
    forall i :: 0 <= i < |ds| ==>
      ds[i].NewCase? && ds[i].name !in b && ds[i].name in a && ds[i].actual == a[ds[i].name]
  }

  ghost predicate AllChanged(b: Verdicts, a: Verdicts, ds: seq<Difference>) {
    forall i :: 0 <= i < |ds| ==>
      && ds[i].VerdictChanged? && ds[i].name in b && ds[i].name in a
      && ds[i].baseline == b[ds[i].name] && ds[i].actual == a[ds[i].name] && ds[i].baseline != ds[i].actual
  }

  /** Every entry states a real difference, and names strictly ascend within each of the three segments. */
  lemma DiffSegments(b: Verdicts, a: Verdicts)
    ensures var m, n := |MissingNames(b, a)|, |MissingNames(a, b)|;
      var ds := Diff(b, a);
      && |ds| == m + n + |ChangedNames(b, a)|
      && AllMissing(b, a, ds[..m]) && NamesAscend(ds[..m])
      && AllNew(b, a, ds[m..m + n]) && NamesAscend(ds[m..m + n])
      && AllChanged(b, a, ds[m + n..]) && NamesAscend(ds[m + n..])
  {
    hide Less, InOrder, Ascending, AllMissing, AllNew, AllChanged, NamesAscend;
    var missing, added := InOrder(MissingNames(b, a)), InOrder(MissingNames(a, b));
    var changed := InOrder(ChangedNames(b, a));
    EnumerationLength(missing, MissingNames(b, a));
    EnumerationLength(added, MissingNames(a, b));
    EnumerationLength(changed, ChangedNames(b, a));
    MissingSegment(b, a, missing);
    NewSegment(b, a, added);
    ChangedSegment(b, a, changed);
    Thirds(MissingCases(b, missing), NewCases(a, added), ChangedCases(b, a, changed));
  }

  lemma Thirds(x: seq<Difference>, y: seq<Difference>, z: seq<Difference>)
    ensures var s := x + y + z;
      s[..|x|] == x && s[|x|..|x| + |y|] == y && s[|x| + |y|..] == z
  {
  }

  lemma MissingSegment(b: Verdicts, a: Verdicts, names: seq<string>)
    requires Enumerates(names, MissingNames(b, a))
    ensures AllMissing(b, a, MissingCases(b, names)) && NamesAscend(MissingCases(b, names))
  {
    hide Less;
  }

  lemma NewSegment(b: Verdicts, a: Verdicts, names: seq<string>)
    requires Enumerates(names, MissingNames(a, b))
    ensures AllNew(b, a, NewCases(a, names)) && NamesAscend(NewCases(a, names))
  {
    hide Less;
  }

  lemma ChangedSegment(b: Verdicts, a: Verdicts, names: seq<string>)
    requires Enumerates(names, ChangedNames(b, a))
    ensures AllChanged(b, a, ChangedCases(b, a, names)) && NamesAscend(ChangedCases(b, a, names))
  {
    hide Less;
  }

  lemma {:induction false} EnumerationLength(names: seq<string>, s: set<string>)
    requires Enumerates(names, s)
    ensures |names| == |s|
    decreases |names|
  {
    hide Less;
    if names == [] {
      assert s == {};
    } else {
      EnumerationTail(names, s);
      EnumerationLength(names[1..], s - {names[0]});
    }
  }

  // ---- The comparison in terms of the reports ------------------------------------------------------------

  /** A report has a finding with this name and this verdict. */
  ghost predicate Reports(report: map<string, Json>, name: string, verdict: string) {
    && "findings" in report && report["findings"].List?
    && exists f :: f in report["findings"].items && f.Object?
                && "name" in f.fields && f.fields["name"] == Text(name)
                && "verdict" in f.fields && f.fields["verdict"] == Text(verdict)
  }

  lemma ReportsIff(report: map<string, Json>, name: string, verdict: string)
    requires HasFindings(report) && Loadable(report["findings"].items)
    ensures var verdicts := VerdictsOf(report["findings"].items);
      Reports(report, name, verdict) <==> name in verdicts && verdicts[name] == verdict
  {
    hide VerdictsOf;
    var items := report["findings"].items;
    VerdictsOfLoadable(items);
    if Reports(report, name, verdict) {
      var f :| f in items && f.Object? && "name" in f.fields && f.fields["name"] == Text(name)
                && "verdict" in f.fields && f.fields["verdict"] == Text(verdict);
      var i :| 0 <= i < |items| && items[i] == f;
      assert NameOf(items[i]) in VerdictsOf(items);
    }
    if name in VerdictsOf(items) && VerdictsOf(items)[name] == verdict {
      var i :| 0 <= i < |items| && NameOf(items[i]) == name;
      assert items[i] in items;
    }
  }

  /** The entries are all the differences and no others. */
  lemma DiffComplete(b: Verdicts, a: Verdicts, d: Difference)
    ensures d in Diff(b, a) <==>
      match d
      case MissingCase(name, v) => name in b && name !in a && b[name] == v
      case NewCase(name, v) => name in a && name !in b && a[name] == v
      case VerdictChanged(name, v, u) => name in b && name in a && b[name] == v && a[name] == u && v != u
  {
    hide Ascending, InOrder;
    var missing, added := InOrder(MissingNames(b, a)), InOrder(MissingNames(a, b));
    var changed := InOrder(ChangedNames(b, a));
    var x, y, z := MissingCases(b, missing), NewCases(a, added), ChangedCases(b, a, changed);
    assert d in Diff(b, a) <==> d in x || d in y || d in z;
    match d {
      case MissingCase(name, _) =>
        assert name in missing <==> name in MissingNames(b, a);
        if i :| 0 <= i < |missing| && missing[i] == name {
          assert x[i] in x;
        }
      case NewCase(name, _) =>
        assert name in added <==> name in MissingNames(a, b);
        if i :| 0 <= i < |added| && added[i] == name {
          assert y[i] in y;
        }
      case VerdictChanged(name, _, _) =>
        assert name in changed <==> name in ChangedNames(b, a);
        if i :| 0 <= i < |changed| && changed[i] == name {
          assert z[i] in z;
        }
    }
  }

  lemma DiffOrder(b: Verdicts, a: Verdicts, i: nat, j: nat)
    requires i < j < |Diff(b, a)|
    ensures var x, y := Diff(b, a)[i], Diff(b, a)[j];
      && (y.MissingCase? ==> x.MissingCase?) && (x.VerdictChanged? ==> y.VerdictChanged?)
      && ((x.MissingCase? <==> y.MissingCase?) && (x.VerdictChanged? <==> y.VerdictChanged?) ==> Less(x.name, y.name))
  {
    hide Less, InOrder;
  }

  /**
    What a comparison returns, by the contents of the two reports alone: cases of the baseline the other
    report lacks, then cases it adds, then cases it judges differently, each kind complete, and each in the
    order of the names' code points.
   */
  lemma ComparisonSpelledOut(baseline: map<string, Json>, actual: map<string, Json>, r: Comparison)
    requires Compares(baseline, actual, r) && r.Differences?
    ensures forall name, v :: MissingCase(name, v) in r.differences
                         <==> Reports(baseline, name, v) && forall u :: !Reports(actual, name, u)
    ensures forall name, v :: NewCase(name, v) in r.differences
                         <==> Reports(actual, name, v) && forall u :: !Reports(baseline, name, u)
    ensures forall name, v, u :: VerdictChanged(name, v, u) in r.differences
                            <==> Reports(baseline, name, v) && Reports(actual, name, u) && v != u
    ensures forall i, j :: 0 <= i < j < |r.differences| ==>
      var x, y := r.differences[i], r.differences[j];
      && (y.MissingCase? ==> x.MissingCase?) && (x.VerdictChanged? ==> y.VerdictChanged?)
      && ((x.MissingCase? <==> y.MissingCase?) && (x.VerdictChanged? <==> y.VerdictChanged?) ==>
            exists p :: 0 <= p <= |x.name| && p < |y.name| && x.name[..p] == y.name[..p]
                     && (p == |x.name| || x.name[p] < y.name[p]))
  {
    hide Diff, Less, Reports, Loadable, VerdictsOf;
    var b, a := VerdictsOf(baseline["findings"].items), VerdictsOf(actual["findings"].items);
    forall name, v ensures Reports(baseline, name, v) <==> name in b && b[name] == v {
      ReportsIff(baseline, name, v);
    }
    forall name, v ensures Reports(actual, name, v) <==> name in a && a[name] == v {
      ReportsIff(actual, name, v);
    }
    forall d ensures d in r.differences <==>
      match d
      case MissingCase(name, v) => name in b && name !in a && b[name] == v
      case NewCase(name, v) => name in a && name !in b && a[name] == v
      case VerdictChanged(name, v, u) => name in b && name in a && b[name] == v && a[name] == u && v != u
    {
      DiffComplete(b, a, d);
    }
    forall name: string ensures (forall u :: !Reports(actual, name, u)) <==> name !in a {
      if name in a {
        assert Reports(actual, name, a[name]);
      }
    }
    forall name: string ensures (forall u :: !Reports(baseline, name, u)) <==> name !in b {
      if name in b {
        assert Reports(baseline, name, b[name]);
      }
    }
    forall i, j | 0 <= i < j < |r.differences|
      ensures var x, y := r.differences[i], r.differences[j];
        && (y.MissingCase? ==> x.MissingCase?) && (x.VerdictChanged? ==> y.VerdictChanged?)
        && ((x.MissingCase? <==> y.MissingCase?) && (x.VerdictChanged? <==> y.VerdictChanged?) ==>
              exists p :: 0 <= p <= |x.name| && p < |y.name| && x.name[..p] == y.name[..p]
                       && (p == |x.name| || x.name[p] < y.name[p]))
    {
      DiffOrder(b, a, i, j);
      LessSpelledOut(r.differences[i].name, r.differences[j].name);
    }
  }

  function Reverse(d: Difference): Difference {
    match d
    case MissingCase(name, v) => NewCase(name, v)
    case NewCase(name, v) => MissingCase(name, v)
    case VerdictChanged(name, v, w) => VerdictChanged(name, w, v)
  }

  function ReverseAll(ds: seq<Difference>): (r: seq<Difference>)
    ensures |r| == |ds|
  {
    seq(|ds|, i requires 0 <= i < |ds| => Reverse(ds[i]))
  }

  /** Swapping the reports exchanges the first two segments and, in every entry, the two verdict columns. */
  lemma DiffSwapped(b: Verdicts, a: Verdicts)
    ensures var m, n := |MissingNames(b, a)|, |MissingNames(a, b)|;
      var ds := Diff(b, a);
      && |ds| >= m + n
      && Diff(a, b) == ReverseAll(ds[m..m + n]) + ReverseAll(ds[..m]) + ReverseAll(ds[m + n..])
  {
    hide Less, InOrder, Ascending;
    var missing, added := InOrder(MissingNames(b, a)), InOrder(MissingNames(a, b));
    var changed := InOrder(ChangedNames(b, a));
    assert ChangedNames(a, b) == ChangedNames(b, a);
    EnumerationLength(missing, MissingNames(b, a));
    EnumerationLength(added, MissingNames(a, b));
    Thirds(MissingCases(b, missing), NewCases(a, added), ChangedCases(b, a, changed));
    assert ReverseAll(MissingCases(b, missing)) == NewCases(b, missing);
    assert ReverseAll(NewCases(a, added)) == MissingCases(a, added);
    assert ReverseAll(ChangedCases(b, a, changed)) == ChangedCases(a, b, changed);
  }
}
