/** The dependency-lock check (scripts/freeze.py): names, pins, version ranges. */
module LockChecks {
  import opened Wrappers
  import opened Text

  // ------------------------------------------------ names

  predicate IsSeparator(c: char) {
    c == '-' || c == '_' || c == '.'
  }

  function SkipSeparators(s: string): (r: string)
    ensures |r| <= |s| && (r != "" ==> !IsSeparator(r[0]))
  {
    if s != "" && IsSeparator(s[0]) then SkipSeparators(s[1..]) else s
  }

  /** Every run of separators becomes one dash, letters become lower case. */
  function Normalize(name: string): string
    decreases |name|
  {
    if name == "" then ""
    else if IsSeparator(name[0]) then "-" + Normalize(SkipSeparators(name[1..]))
    else [LowerChar(name[0])] + Normalize(name[1..])
  }

  /** Normal names: no capitals, no separator but single dashes. */
  ghost predicate IsNormal(name: string) {
    && (forall i :: 0 <= i < |name| ==> LowerChar(name[i]) == name[i] && name[i] != '_' && name[i] != '.')
    && (forall i :: 0 < i < |name| ==> name[i] != '-' || name[i - 1] != '-')
  }

  lemma {:induction false} NormalizeIsNormal(name: string)
    ensures IsNormal(Normalize(name))
    ensures name != "" && !IsSeparator(name[0]) ==> Normalize(name)[0] != '-'
    decreases |name|
  {
    if name != "" {
      var rest := if IsSeparator(name[0]) then SkipSeparators(name[1..]) else name[1..];
      NormalizeIsNormal(rest);
      assert rest == "" || Normalize(rest) != "";
    }
  }

  lemma {:induction false} NormalStays(name: string)
    requires IsNormal(name)
    ensures Normalize(name) == name
    decreases |name|
  {
    if name != "" {
      assert IsNormal(name[1..]) by {
        forall i | 0 < i < |name[1..]| ensures name[1..][i] != '-' || name[1..][i - 1] != '-' {
          assert name[i + 1] != '-' || name[i] != '-';
        }
      }
      NormalStays(name[1..]);
      if |name| > 1 {
        assert name[1] != '-' || name[0] != '-';
      }
      assert name == [name[0]] + name[1..];
    }
  }

  /** Normalisation is idempotent, and the names it leaves alone are the normal ones
      (section "Normalized Names" of PEP 503). */
  lemma NormalizeExactly(name: string)
    ensures Normalize(Normalize(name)) == Normalize(name)
    ensures Normalize(name) == name <==> IsNormal(name)
  {
    NormalizeIsNormal(name);
    NormalStays(Normalize(name));
    if IsNormal(name) {
      NormalStays(name);
    }
  }

  /** Normalisation works through a name piece by piece, as long as no run of separators is torn. */
  lemma {:induction false} NormalizeConcat(a: string, b: string)
    requires a != "" && IsSeparator(a[|a| - 1]) ==> b == "" || !IsSeparator(b[0])
    ensures Normalize(a + b) == Normalize(a) + Normalize(b)
    decreases |a|
  {
    if a == "" {
      assert a + b == b;
    } else if IsSeparator(a[0]) {
      var rest := SkipSeparators(a[1..]);
      assert (a + b)[1..] == a[1..] + b;
      SkipConcat(a[1..], b);
      hide IsSeparator, SkipSeparators, Normalize;
      NormalizeConcat(rest, b);
      NormalizeDash(a + b);
      NormalizeDash(a);
    } else {
      assert (a + b)[1..] == a[1..] + b;
      NormalizeConcat(a[1..], b);
    }
  }

  lemma NormalizeDash(s: string)
    requires s != "" && IsSeparator(s[0])
    ensures Normalize(s) == "-" + Normalize(SkipSeparators(s[1..]))
  {
  }

  lemma {:induction false} SkipConcat(a: string, b: string)
    requires b == "" || !IsSeparator(b[0]) || exists i :: 0 <= i < |a| && !IsSeparator(a[i])
    ensures SkipSeparators(a + b) == SkipSeparators(a) + b
    ensures SkipSeparators(a) != "" ==> SkipSeparators(a)[|SkipSeparators(a)| - 1] == a[|a| - 1]
  {
    if a == "" {
      assert a + b == b;
    } else if IsSeparator(a[0]) {
      assert (a + b)[1..] == a[1..] + b;
      SkipConcat(a[1..], b);
    }
  }

  /** A run of separators becomes one dash, and any other character its small letter. */
  lemma {:induction false} NormalizePieces(run: string, c: char)
    requires run != "" && (forall i :: 0 <= i < |run| ==> run[i] in "-_.") && c !in "-_."
    ensures Normalize(run) == "-"
    ensures Normalize([c]) == [LowerChar(c)]
  {
    SkipAll(run[1..]);
    assert [c][1..] == "";
  }

  lemma {:induction false} SkipAll(run: string)
    requires forall i :: 0 <= i < |run| ==> IsSeparator(run[i])
    ensures SkipSeparators(run) == ""
  {
    if run != "" {
      SkipAll(run[1..]);
    }
  }

  // ------------------------------------------------ versions

  type Version = seq<nat>

  function NumericParts(version: string): Option<Version> {
    var parts := Split(version, '.');
    if forall i :: 0 <= i < |parts| ==> IsNumber(parts[i])
    then Some(seq(|parts|, i requires 0 <= i < |parts| => ParseNat(parts[i])))
    else None
  }

  /** The text is these numbers, in decimal, with dots between them. */
  ghost predicate Spells(text: string, parts: seq<string>, v: Version) {
    && |parts| == |v| > 0 && text == Join(parts, '.')
    && forall i :: 0 <= i < |v| ==> IsNumber(parts[i]) && ParseNat(parts[i]) == v[i]
  }

  ghost predicate Reads(text: string, v: Version) {
    exists parts :: Spells(text, parts, v)
  }

  lemma NumericExactly(text: string, v: Version)
    ensures NumericParts(text) == Some(v) <==> Reads(text, v)
  {
    if NumericParts(text) == Some(v) {
      SplitExactly(text, '.');
      assert Spells(text, Split(text, '.'), v);
    }
    if parts :| Spells(text, parts, v) {
      forall p | p in parts ensures '.' !in p {
        assert !IsDigit('.');
      }
      SplitJoin(parts, '.');
      assert NumericParts(text).value == v;
    }
  }

  /** Every version can be written down. */
  lemma VersionText(v: Version) returns (parts: seq<string>)
    requires v != []
    ensures parts == seq(|v|, i requires 0 <= i < |v| => Digits(v[i])) && Reads(Join(parts, '.'), v)
  {
    parts := seq(|v|, i requires 0 <= i < |v| => Digits(v[i]));
    forall i | 0 <= i < |v| ensures IsNumber(parts[i]) && ParseNat(parts[i]) == v[i] {
      DigitsReadBack(v[i]);
    }
    assert Spells(Join(parts, '.'), parts, v);
  }

  /** Component `i`, missing components being zero. */
  function At(v: Version, i: nat): nat {
    if i < |v| then v[i] else 0
  }

  /** The order of release segments padded with zeros to any length (section "Final releases"
      of PEP 440). */
  ghost predicate Before(a: Version, b: Version) {
    exists i: nat :: DiffersAt(a, b, i)
  }

  ghost predicate DiffersAt(a: Version, b: Version, i: nat) {
    At(a, i) < At(b, i) && forall j: nat | j < i :: At(a, j) == At(b, j)
  }

  ghost predicate SameRelease(a: Version, b: Version) {
    forall i: nat :: At(a, i) == At(b, i)
  }

  /** How the program compares lists. */
  predicate ListLess(a: Version, b: Version) {
    if b == [] then false
    else if a == [] then true
    else a[0] < b[0] || (a[0] == b[0] && ListLess(a[1..], b[1..]))
  }

  function Zeros(n: nat): (v: Version)
    ensures |v| == n && forall i :: 0 <= i < n ==> v[i] == 0
  {
    seq(n, _ => 0)
  }

  /** `(v + [0] * n)[:n]` */
  function Cut(v: Version, n: nat): (r: Version)
    ensures |r| == n && forall i :: 0 <= i < n ==> r[i] == At(v, i)
  {
    (v + Zeros(n))[..n]
  }

  lemma {:induction false} ListLessExactly(a: Version, b: Version)
    requires |a| == |b|
    ensures ListLess(a, b) <==> exists i :: 0 <= i < |b| && DiffersAt(a, b, i)
  {
    if b != [] {
      var u, v := a[1..], b[1..];
      ListLessExactly(u, v);
      if a[0] < b[0] {
        assert DiffersAt(a, b, 0);
      } else if a[0] == b[0] && ListLess(u, v) {
        var i :| 0 <= i < |v| && DiffersAt(u, v, i);
        forall j: nat | j < i + 1 ensures At(a, j) == At(b, j) {
          assert j > 0 ==> At(u, j - 1) == At(v, j - 1);
        }
        assert DiffersAt(a, b, i + 1);
      } else if i :| 0 <= i < |b| && DiffersAt(a, b, i) {
        assert i > 0 && At(a, 0) == At(b, 0);
        forall j: nat | j < i - 1 ensures At(u, j) == At(v, j) {
          assert At(a, j + 1) == At(b, j + 1);
        }
        assert DiffersAt(u, v, i - 1);
        assert false;
      }
    }
  }

  /** Cutting the version to the length of the bound loses nothing. */
  lemma CutComparesExactly(v: Version, bound: Version)
    ensures ListLess(Cut(v, |bound|), bound) <==> Before(v, bound)
  {
    var c := Cut(v, |bound|);
    ListLessExactly(c, bound);
    if i :| 0 <= i < |bound| && DiffersAt(c, bound, i) {
      assert forall j: nat | j < i :: At(v, j) == At(c, j);
      assert DiffersAt(v, bound, i);
    }
    if i: nat :| DiffersAt(v, bound, i) {
      assert forall j: nat | j < i :: At(v, j) == At(c, j);
      assert DiffersAt(c, bound, i);
    }
  }

  lemma BeforeTransitive(a: Version, b: Version, c: Version)
    requires Before(a, b) && Before(b, c)
    ensures Before(a, c)
  {
    var i: nat :| DiffersAt(a, b, i);
    var k: nat :| DiffersAt(b, c, k);
    assert DiffersAt(a, c, if i < k then i else k);
  }

  lemma BeforeIrreflexive(a: Version, b: Version)
    requires Before(a, b)
    ensures !Before(b, a) && !SameRelease(a, b)
  {
    var i: nat :| DiffersAt(a, b, i);
    assert At(a, i) != At(b, i);
    forall k: nat ensures !DiffersAt(b, a, k) {
      if k < i {
        assert At(a, k) == At(b, k);
      }
    }
  }

  /** Any two versions are ordered, unless they are the same release. */
  lemma BeforeTotal(a: Version, b: Version)
    ensures Before(a, b) || Before(b, a) || SameRelease(a, b)
  {
    if !SameRelease(a, b) {
      var k: nat :| At(a, k) != At(b, k);
      var i := FirstDifference(a, b, k);
      assert DiffersAt(a, b, i) || DiffersAt(b, a, i);
    }
  }

  lemma {:induction false} FirstDifference(a: Version, b: Version, k: nat) returns (i: nat)
    requires At(a, k) != At(b, k)
    ensures At(a, i) != At(b, i) && forall j: nat | j < i :: At(a, j) == At(b, j)
  {
    if j: nat :| j < k && At(a, j) != At(b, j) {
      i := FirstDifference(a, b, j);
    } else {
      i := k;
    }
  }

  // ------------------------------------------------ ranges

  datatype Bound = AtLeast(v: Version) | Below(v: Version)

  /** A clause of a range, `None` when a human has to look at it. */
  function Clause(text: string): Option<Bound> {
    if ">=" <= text then
      match NumericParts(Strip(text[2..]))
      case Some(v) => Some(AtLeast(v))
      case None => None
    else if "<" <= text && !("<=" <= text) then
      match NumericParts(Strip(text[1..]))
      case Some(v) => Some(Below(v))
      case None => None
    else None
  }

  ghost predicate Meets(v: Version, b: Bound) {
    if b.AtLeast? then !Before(v, b.v) else Before(v, b.v)
  }

  /** What a clause of the text asks for, as it stands between the commas. */
  ghost predicate Asks(clause: string, b: Bound) {
    var t := Strip(clause);
    match b
    case AtLeast(v) => ">=" <= t && Reads(Strip(t[2..]), v)
    case Below(v) => "<" <= t && !("<=" <= t) && Reads(Strip(t[1..]), v)
  }

  lemma ClauseExactly(clause: string, b: Bound)
    ensures Clause(Strip(clause)) == Some(b) <==> Asks(clause, b)
  {
    var t := Strip(clause);
    NumericExactly(Strip(if ">=" <= t then t[2..] else if "<" <= t then t[1..] else ""), b.v);
    hide Strip, Reads, NumericParts;
    assert ">=" <= t ==> t[0] == '>';
    assert "<" <= t ==> t[0] == '<';
  }

  ghost predicate ClauseHolds(v: Version, clause: string) {
    exists b :: Asks(clause, b) && Meets(v, b)
  }

  ghost predicate ClauseUnclear(clause: string) {
    forall b :: !Asks(clause, b)
  }

  /** Every clause asks for something and gets it. */
  ghost predicate Within(v: Version, spec: string) {
    forall i :: 0 <= i < |Split(spec, ',')| ==> ClauseHolds(v, Split(spec, ',')[i])
  }

  ghost predicate InRange(version: string, spec: string) {
    spec == "" || exists v :: Reads(version, v) && Within(v, spec)
  }

  /** Clause `i` is the first that does not hold. */
  ghost predicate StopsAt(v: Version, spec: string, i: nat) {
    && i < |Split(spec, ',')| && !ClauseHolds(v, Split(spec, ',')[i])
    && forall j :: 0 <= j < i ==> ClauseHolds(v, Split(spec, ',')[j])
  }

  /** The first clause that does not hold asks for something. */
  ghost predicate Excluded(version: string, spec: string) {
    spec != "" && exists v, i: nat ::
      Reads(version, v) && StopsAt(v, spec, i) && !ClauseUnclear(Split(spec, ',')[i])
  }

  /** The version is not made of numbers, or the first clause that does not hold is not understood. */
  ghost predicate Unclear(version: string, spec: string) {
    spec != "" &&
    ((forall v :: !Reads(version, v))
     || exists v, i: nat :: Reads(version, v) && StopsAt(v, spec, i) && ClauseUnclear(Split(spec, ',')[i]))
  }

  /** Whether a clause holds, fails or is not understood shows in what it asks for. */
  lemma ClauseCases(v: Version, clause: string)
    ensures match Clause(Strip(clause))
      case None => ClauseUnclear(clause) && !ClauseHolds(v, clause)
      case Some(b) => !ClauseUnclear(clause) && (ClauseHolds(v, clause) <==> Meets(v, b))
  {
    hide Asks, Clause, Meets;
    forall b ensures Clause(Strip(clause)) == Some(b) <==> Asks(clause, b) {
      ClauseExactly(clause, b);
    }
  }

  lemma ReadsOnce(text: string, v: Version, w: Version)
    requires Reads(text, v) && Reads(text, w)
    ensures v == w
  {
    NumericExactly(text, v);
    NumericExactly(text, w);
  }

  /** The first clause that does not hold settles the answer. */
  lemma Stopped(version: string, v: Version, spec: string, n: nat)
    requires spec != "" && Reads(version, v) && StopsAt(v, spec, n)
    ensures !InRange(version, spec)
    ensures Excluded(version, spec) <==> !ClauseUnclear(Split(spec, ',')[n])
    ensures Unclear(version, spec) <==> ClauseUnclear(Split(spec, ',')[n])
  {
    hide ClauseHolds, ClauseUnclear, Reads;
    forall w | Reads(version, w) ensures w == v {
      ReadsOnce(version, v, w);
    }
    assert !Within(v, spec);
    assert forall i: nat :: StopsAt(v, spec, i) ==> i == n;
  }

  /** Compares list prefixes, clause by clause, up to the first that fails or needs a human:
      `None` stands for the error. */
  method VersionSatisfies(version: string, spec: string) returns (r: Option<bool>)
    ensures r == Some(true) <==> InRange(version, spec)
    ensures r == Some(false) <==> Excluded(version, spec)
    ensures r.None? <==> Unclear(version, spec)
  {
    hide ClauseHolds, ClauseUnclear, Reads, Clause, NumericParts, Strip, Meets, Before;
    if spec == "" {
      return Some(true);
    }
    var parsed := NumericParts(version);
    forall w ensures Reads(version, w) <==> parsed == Some(w) {
      NumericExactly(version, w);
    }
    if parsed.None? {
      return None;
    }
    var v, clauses := parsed.value, Split(spec, ',');
    var n := 0;
    while n < |clauses|
      invariant 0 <= n <= |clauses|
      invariant forall i :: 0 <= i < n ==> ClauseHolds(v, clauses[i])
    {
      var holds := ClauseMet(v, clauses[n]);
      if holds.None? || !holds.value {
        Stopped(version, v, spec, n);
        return holds;
      }
      n := n + 1;
    }
    assert forall i: nat :: !StopsAt(v, spec, i);
    return Some(true);
  }

  /** One turn of the loop. */
  method ClauseMet(v: Version, clause: string) returns (r: Option<bool>)
    ensures r == Some(true) <==> ClauseHolds(v, clause)
    ensures r.None? <==> ClauseUnclear(clause)
  {
    hide Clause, ClauseHolds, ClauseUnclear;
    ClauseCases(v, clause);
    var parsed := Clause(Strip(clause));
    if parsed.None? {
      return None;
    }
    var bound := parsed.value.v;
    CutComparesExactly(v, bound);
    if parsed.value.AtLeast? {
      return Some(!ListLess(Cut(v, |bound|), bound));
    } else {
      return Some(ListLess(Cut(v, |bound|), bound));
    }
  }

  ghost predicate NotAfter(a: Version, b: Version) {
    Before(a, b) || SameRelease(a, b)
  }

  lemma SameMeets(a: Version, b: Version, c: Version)
    requires SameRelease(a, b)
    ensures Before(a, c) <==> Before(b, c)
    ensures Before(c, a) <==> Before(c, b)
  {
    forall i: nat ensures (DiffersAt(a, c, i) <==> DiffersAt(b, c, i)) && (DiffersAt(c, a, i) <==> DiffersAt(c, b, i)) {
      assert forall j: nat | j <= i :: At(a, j) == At(b, j);
    }
  }

  /** A range accepts whatever lies between two versions that it accepts. */
  lemma RangesAreConvex(a: Version, b: Version, c: Version, spec: string)
    requires Within(a, spec) && Within(c, spec) && NotAfter(a, b) && NotAfter(b, c)
    ensures Within(b, spec)
  {
    hide Asks, Clause, Meets, ClauseUnclear;
    forall i | 0 <= i < |Split(spec, ',')| ensures ClauseHolds(b, Split(spec, ',')[i]) {
      var clause := Split(spec, ',')[i];
      ClauseCases(a, clause);
      ClauseCases(b, clause);
      ClauseCases(c, clause);
      assert ClauseHolds(a, clause) && ClauseHolds(c, clause);
      hide ClauseHolds;
      BoundIsConvex(a, b, c, Clause(Strip(clause)).value);
    }
  }

  lemma BoundIsConvex(a: Version, b: Version, c: Version, x: Bound)
    requires Meets(a, x) && Meets(c, x) && NotAfter(a, b) && NotAfter(b, c)
    ensures Meets(b, x)
  {
    if x.AtLeast? {
      if Before(b, x.v) {
        if SameRelease(a, b) {
          SameMeets(a, b, x.v);
        } else {
          BeforeTransitive(a, b, x.v);
        }
      }
    } else if SameRelease(b, c) {
      SameMeets(b, c, x.v);
    } else {
      BeforeTransitive(b, c, x.v);
    }
  }

  // ------------------------------------------------ ranges, as they are written

  /** A version is written without blanks and commas. */
  lemma ReadsPlain(text: string, v: Version)
    requires Reads(text, v)
    ensures text != "" && forall i :: 0 <= i < |text| ==> IsDigit(text[i]) || text[i] == '.'
  {
    var parts :| Spells(text, parts, v);
    JoinedDigits(parts);
  }

  lemma {:induction false} JoinedDigits(parts: seq<string>)
    requires parts != [] && forall p :: p in parts ==> IsNumber(p)
    ensures var text := Join(parts, '.');
      text != "" && forall i :: 0 <= i < |text| ==> IsDigit(text[i]) || text[i] == '.'
  {
    assert parts[0] in parts;
    if |parts| > 1 {
      JoinedDigits(parts[1..]);
    }
  }

  /** A text without a comma is one clause. */
  lemma OneClause(version: string, v: Version, clause: string)
    requires Reads(version, v) && clause != "" && ',' !in clause
    ensures InRange(version, clause) <==> ClauseHolds(v, clause)
  {
    SplitPlain(clause, ',');
    hide ClauseHolds;
    RangeOfClauses(version, v, clause, [clause]);
    assert [clause][0] == clause;
  }

  /** `>=` and a version accept what is not before that version, `<` and a version what is. */
  lemma OneBound(version: string, v: Version, bound: string, b: Version)
    requires Reads(version, v) && Reads(bound, b)
    ensures InRange(version, ">=" + bound) <==> !Before(v, b)
    ensures InRange(version, "<" + bound) <==> Before(v, b)
  {
    ReadsPlain(bound, b);
    var low, high := ">=" + bound, "<" + bound;
    StripUnpadded(low);
    StripUnpadded(high);
    StripUnpadded(bound);
    assert low[2..] == bound && high[1..] == bound;
    assert high[1] == bound[0];
    assert Asks(low, AtLeast(b)) && Asks(high, Below(b));
    OneClause(version, v, low);
    OneClause(version, v, high);
    ClauseExactly(low, AtLeast(b));
    ClauseExactly(high, Below(b));
    ClauseCases(v, low);
    ClauseCases(v, high);
  }

  /** Clauses joined by commas accept what each of them accepts. */
  lemma JoinedClauses(version: string, v: Version, clauses: seq<string>)
    requires Reads(version, v) && clauses != [] && forall c :: c in clauses ==> c != "" && ',' !in c
    ensures InRange(version, Join(clauses, ',')) <==> forall i :: 0 <= i < |clauses| ==> InRange(version, clauses[i])
  {
    hide ClauseHolds, Reads, InRange, Within;
    SplitJoin(clauses, ',');
    assert clauses[0] in clauses && Join(clauses, ',') != "";
    hide Join;
    RangeOfClauses(version, v, Join(clauses, ','), clauses);
    forall i | 0 <= i < |clauses| ensures InRange(version, clauses[i]) <==> ClauseHolds(v, clauses[i]) {
      OneClause(version, v, clauses[i]);
    }
  }

  lemma RangeOfClauses(version: string, v: Version, spec: string, clauses: seq<string>)
    requires Reads(version, v) && spec != "" && Split(spec, ',') == clauses
    ensures InRange(version, spec) <==> forall i :: 0 <= i < |clauses| ==> ClauseHolds(v, clauses[i])
  {
    hide ClauseHolds, Reads, Split;
    forall w | Reads(version, w) ensures w == v {
      ReadsOnce(version, v, w);
    }
  }

  // ------------------------------------------------ the lock file

  predicate IsNameChar(c: char) {
    IsDigit(c) || 'a' <= c <= 'z' || 'A' <= c <= 'Z' || IsSeparator(c)
  }

  /** Length of the name a line starts with. */
  function NameLength(s: string): (n: nat)
    ensures n <= |s| && (forall i :: 0 <= i < n ==> IsNameChar(s[i])) && (n < |s| ==> !IsNameChar(s[n]))
  {
    if s != "" && IsNameChar(s[0]) then 1 + NameLength(s[1..]) else 0
  }

  /** `name==version` and nothing else. */
  function Pin(line: string): Option<(string, string)> {
    var n := NameLength(line);
    if 0 < n && n + 2 < |line| && line[n..n + 2] == "=="
       && forall i :: n + 2 <= i < |line| ==> line[i] != '=' && line[i] != ';' && !IsSpace(line[i])
    then Some((line[..n], line[n + 2..]))
    else None
  }

  /** The line has the form of the pattern: name characters, `==`, a version. */
  ghost predicate IsPin(line: string, name: string, version: string) {
    && line == name + "==" + version && name != "" && version != ""
    && (forall i :: 0 <= i < |name| ==> IsNameChar(name[i]))
    && forall i :: 0 <= i < |version| ==> version[i] != '=' && version[i] != ';' && !IsSpace(version[i])
  }

  lemma PinExactly(line: string, name: string, version: string)
    ensures Pin(line) == Some((name, version)) <==> IsPin(line, name, version)
    ensures forall c :: IsNameChar(c) <==> 'a' <= LowerChar(c) <= 'z' || '0' <= c <= '9' || c in {'-', '_', '.'}
  {
    var n := NameLength(line);
    if Pin(line) == Some((name, version)) {
      assert line == line[..n] + line[n..n + 2] + line[n + 2..];
    }
    if IsPin(line, name, version) {
      assert line[|name|] == '=' && !IsNameChar('=');
      assert forall i :: 0 <= i < |name| ==> line[i] == name[i];
      assert n == |name|;
      assert line[n..n + 2] == "==" && line[..n] == name && line[n + 2..] == version;
    }
  }

  /** Neither blank nor a comment, once stripped. */
  predicate Significant(line: string) {
    Strip(line) != "" && Strip(line)[0] != '#'
  }

  function SignificantLines(lines: seq<string>): seq<string> {
    if lines == [] then []
    else
      var before, last := SignificantLines(lines[..|lines| - 1]), lines[|lines| - 1];
      if Significant(last) then before + [Strip(last)] else before
  }

  /** The lines that count keep their order. */
  lemma {:induction false} SignificantConcat(lines: seq<string>, more: seq<string>)
    ensures SignificantLines(lines + more) == SignificantLines(lines) + SignificantLines(more)
  {
    hide Strip;
    if more == [] {
      assert lines + more == lines;
    } else {
      var all := lines + more;
      assert all[..|all| - 1] == lines + more[..|more| - 1];
      SignificantConcat(lines, more[..|more| - 1]);
    }
  }

  /** A line counts, stripped, exactly if it is neither blank nor a comment. */
  lemma SignificantOne(line: string)
    ensures SignificantLines([line]) == if IsBlank(line) || Strip(line)[0] == '#' then [] else [Strip(line)]
  {
    hide Strip;
    assert [line][..0] == [];
  }

  datatype LockError = NotAPin(line: string) | DuplicateEntry(name: string)

  function KeyOf(line: string): string
    requires Pin(line).Some?
  {
    Normalize(Pin(line).value.0)
  }

  /** Every line that counts is a pin, and no two name the same package. */
  ghost predicate ExactLock(lines: seq<string>) {
    && (forall i :: 0 <= i < |lines| ==> Pin(lines[i]).Some?)
    && (forall i, j :: 0 <= i < j < |lines| ==> KeyOf(lines[i]) != KeyOf(lines[j]))
  }

  /** Package and version of every line, and nothing else. */
  ghost predicate Pins(lines: seq<string>, locked: map<string, string>) {
    && ExactLock(lines)
    && (forall i :: 0 <= i < |lines| ==> KeyOf(lines[i]) in locked && locked[KeyOf(lines[i])] == Pin(lines[i]).value.1)
    && (forall k :: k in locked ==> exists i :: 0 <= i < |lines| && KeyOf(lines[i]) == k)
  }

  method ParseLock(lines: seq<string>) returns (r: Result<map<string, string>, LockError>)
    ensures r.Ok? <==> ExactLock(SignificantLines(lines))
    ensures r.Ok? ==> Pins(SignificantLines(lines), r.value)
  {
    hide Pin, Normalize, Strip, Pins, ExactLock, SignificantLines;
    var locked: map<string, string> := map[];
    var n := 0;
    NoPins(lines);
    while n < |lines|
      invariant 0 <= n <= |lines| && Pins(SignificantLines(lines[..n]), locked)
    {
      ghost var before := SignificantLines(lines[..n]);
      OneMoreLine(lines, n);
      if Significant(lines[n]) {
        var line := Strip(lines[n]);
        var pin := Pin(line);
        if pin.None? {
          BadLine(before, line, SignificantLines(lines));
          return Err(NotAPin(lines[n]));
        }
        var key := Normalize(pin.value.0);
        if key in locked {
          RepeatedKey(before, locked, line, SignificantLines(lines));
          return Err(DuplicateEntry(key));
        }
        PinsGrow(before, locked, line);
        locked := locked[key := pin.value.1];
      }
      n := n + 1;
    }
    assert lines[..n] == lines;
    PinsAreExact(SignificantLines(lines), locked);
    return Ok(locked);
  }

  lemma NoPins(lines: seq<string>)
    ensures Pins(SignificantLines(lines[..0]), map[])
  {
  }

  lemma PinsAreExact(lines: seq<string>, locked: map<string, string>)
    requires Pins(lines, locked)
    ensures ExactLock(lines)
  {
  }

  lemma OneMoreLine(lines: seq<string>, n: nat)
    requires n < |lines|
    ensures var before := SignificantLines(lines[..n]);
      SignificantLines(lines[..n + 1]) == (if Significant(lines[n]) then before + [Strip(lines[n])] else before)
    ensures SignificantLines(lines[..n + 1]) <= SignificantLines(lines)
  {
    assert lines[..n + 1][..n] == lines[..n];
    SignificantPrefix(lines, n + 1);
  }

  lemma BadLine(before: seq<string>, line: string, all: seq<string>)
    requires before + [line] <= all && Pin(line).None?
    ensures !ExactLock(all)
  {
    hide Pin;
    assert all[|before|] == line;
  }

  lemma RepeatedKey(before: seq<string>, locked: map<string, string>, line: string, all: seq<string>)
    requires Pins(before, locked) && before + [line] <= all && Pin(line).Some? && KeyOf(line) in locked
    ensures !ExactLock(all)
  {
    hide Pin, Normalize;
    var i :| 0 <= i < |before| && KeyOf(before[i]) == KeyOf(line);
    assert all[i] == before[i] && all[|before|] == line;
  }

  lemma PinsGrow(lines: seq<string>, locked: map<string, string>, line: string)
    requires Pins(lines, locked) && Pin(line).Some? && KeyOf(line) !in locked
    ensures Pins(lines + [line], locked[KeyOf(line) := Pin(line).value.1])
  {
    hide Pin, Normalize;
    var more, pins := lines + [line], locked[KeyOf(line) := Pin(line).value.1];
    forall k | k in pins ensures exists i :: 0 <= i < |more| && KeyOf(more[i]) == k {
      if k == KeyOf(line) {
        assert KeyOf(more[|lines|]) == k;
      } else {
        var i :| 0 <= i < |lines| && KeyOf(lines[i]) == k;
        assert KeyOf(more[i]) == k;
      }
    }
  }

  lemma {:induction false} SignificantPrefix(lines: seq<string>, n: nat)
    requires n <= |lines|
    ensures SignificantLines(lines[..n]) <= SignificantLines(lines)
    decreases |lines|
  {
    if n < |lines| {
      SignificantPrefix(lines[..|lines| - 1], n);
      assert lines[..|lines| - 1][..n] == lines[..n];
    } else {
      assert lines[..n] == lines;
    }
  }

  // ------------------------------------------------ the requirements

  /** Without what follows a `#` that comes after a blank. */
  function CutComment(s: string): string {
    if |s| < 2 then s
    else if IsSpace(s[0]) && s[1] == '#' then ""
    else [s[0]] + CutComment(s[1..])
  }

  /** Without the marker and the comment. */
  function Bare(line: string): string {
    Strip(CutComment(Strip(Split(line, ';')[0])))
  }

  function AfterBracket(s: string): string {
    if s == "" then "" else if s[0] == ']' then s[1..] else AfterBracket(s[1..])
  }

  /** Normalised name and range of a requirement line, extras dropped. */
  function Requirement(line: string): Option<(string, string)> {
    var bare := Bare(line);
    var n := NameLength(bare);
    if n == 0 then None
    else
      var rest := bare[n..];
      Some((Normalize(bare[..n]), Strip(if "[" <= rest && ']' in rest then AfterBracket(rest) else rest)))
  }

  /** The pieces of a requirement line: `piece` and `marker` make up the line, `bare` and `comment` the
      stripped piece, `name`, `extras` and `range` the stripped bare text. */
  datatype Pieces = Pieces(piece: string, marker: string, bare: string, comment: string,
                           name: string, extras: string, range: string)

  /** A comment opens here. */
  predicate OpensComment(s: string, i: nat) {
    i + 1 < |s| && IsSpace(s[i]) && s[i + 1] == '#'
  }

  /** The marker starts at the first semicolon, the comment at the first `#` behind a blank. */
  ghost predicate CutInPieces(line: string, p: Pieces) {
    && line == p.piece + p.marker && ';' !in p.piece && (p.marker == "" || p.marker[0] == ';')
    && Strip(p.piece) == p.bare + p.comment && (p.comment == "" || OpensComment(Strip(p.piece), |p.bare|))
    && forall i :: 0 <= i < |p.bare| ==> !OpensComment(Strip(p.piece), i)
  }

  /** The extras are one pair of brackets, if there is one; the first closing bracket ends them. */
  ghost predicate Brackets(extras: string, rest: string) {
    if "[" <= rest && ']' in rest then
      extras != "" && extras <= rest && extras[|extras| - 1] == ']' && forall i :: 0 <= i < |extras| - 1 ==> extras[i] != ']'
    else extras == ""
  }

  /** The name is as long as it can be. */
  ghost predicate Named(p: Pieces) {
    && Strip(p.bare) == p.name + p.extras + p.range && (forall c :: c in p.name ==> IsNameChar(c))
    && (p.extras + p.range == "" || !IsNameChar((p.extras + p.range)[0])) && Brackets(p.extras, p.extras + p.range)
  }

  lemma {:induction false} CutCommentExactly(s: string)
    ensures var n := |CutComment(s)|;
      && n <= |s| && CutComment(s) == s[..n] && (n == |s| || OpensComment(s, n))
      && forall i :: 0 <= i < n ==> !OpensComment(s, i)
  {
    if |s| >= 2 && !(IsSpace(s[0]) && s[1] == '#') {
      var rest := s[1..];
      CutCommentExactly(rest);
      var n := |CutComment(rest)|;
      assert CutComment(s) == s[..n + 1];
      assert n < |rest| ==> OpensComment(s, n + 1);
      forall i | 0 <= i < n + 1 ensures !OpensComment(s, i) {
        if i > 0 {
          assert OpensComment(rest, i - 1) == OpensComment(s, i);
        }
      }
    }
  }

  lemma {:induction false} AfterBracketExactly(s: string)
    requires ']' in s
    ensures var n := |s| - |AfterBracket(s)|;
      0 < n <= |s| && AfterBracket(s) == s[n..] && s[n - 1] == ']' && forall i :: 0 <= i < n - 1 ==> s[i] != ']'
  {
    if s[0] != ']' {
      AfterBracketExactly(s[1..]);
      var n := |s[1..]| - |AfterBracket(s[1..])|;
      assert s[1..][n..] == s[n + 1..] && forall i :: 0 < i < |s| ==> s[1..][i - 1] == s[i];
    }
  }

  lemma NameExactly(s: string, name: string, rest: string)
    requires s == name + rest && (forall c :: c in name ==> IsNameChar(c)) && (rest == "" || !IsNameChar(rest[0]))
    ensures NameLength(s) == |name|
  {
    assert forall i :: 0 <= i < |name| ==> s[i] == name[i];
    assert rest != "" ==> s[|name|] == rest[0];
  }

  /** Every line comes apart. */
  lemma CutApart(line: string) returns (p: Pieces)
    ensures CutInPieces(line, p) && Named(p) && Strip(p.bare) == Bare(line)
    ensures p.name == Bare(line)[..NameLength(Bare(line))]
    ensures p.range == (var rest := Bare(line)[NameLength(Bare(line))..];
                        if "[" <= rest && ']' in rest then AfterBracket(rest) else rest)
  {
    hide Strip, CutComment, OpensComment, NameLength, IsNameChar, AfterBracket, Split;
    var piece := Split(line, ';')[0];
    FirstPart(line, ';');
    var t := Strip(piece);
    CutCommentExactly(t);
    var bare := CutComment(t);
    assert piece + line[|piece|..] == line && bare + t[|bare|..] == t;
    var name, extras, range := CutName(Strip(bare));
    p := Pieces(piece, line[|piece|..], bare, t[|bare|..], name, extras, range);
    assert Bare(line) == Strip(bare);
  }

  lemma CutName(s: string) returns (name: string, extras: string, range: string)
    ensures s == name + extras + range && (forall c :: c in name ==> IsNameChar(c))
    ensures extras + range == "" || !IsNameChar((extras + range)[0])
    ensures Brackets(extras, extras + range)
    ensures name == s[..NameLength(s)]
    ensures range == (var rest := s[NameLength(s)..]; if "[" <= rest && ']' in rest then AfterBracket(rest) else rest)
  {
    var n := NameLength(s);
    hide IsNameChar, NameLength, AfterBracket, Brackets;
    name := s[..n];
    extras, range := CutExtras(s[n..]);
    assert s == name + s[n..];
  }

  lemma CutExtras(rest: string) returns (extras: string, range: string)
    ensures extras + range == rest && Brackets(extras, rest)
    ensures range == if "[" <= rest && ']' in rest then AfterBracket(rest) else rest
  {
    var k := 0;
    if "[" <= rest && ']' in rest {
      AfterBracketExactly(rest);
      k := |rest| - |AfterBracket(rest)|;
    }
    hide AfterBracket;
    extras, range := rest[..k], rest[k..];
  }

  lemma FirstPart(line: string, sep: char)
    ensures var part := Split(line, sep)[0];
      part <= line && sep !in part && (|part| == |line| || line[|part|] == sep)
  {
    SplitExactly(line, sep);
    var parts := Split(line, sep);
    assert parts[0] in parts;
  }

  lemma PiecesUnique(line: string, p: Pieces, q: Pieces)
    requires CutInPieces(line, p) && CutInPieces(line, q) && Named(p) && Named(q)
    ensures p == q
  {
    assert forall i :: 0 <= i < |p.piece| ==> line[i] == p.piece[i];
    assert forall i :: 0 <= i < |q.piece| ==> line[i] == q.piece[i];
    assert p.marker != "" ==> line[|p.piece|] == ';';
    assert q.marker != "" ==> line[|q.piece|] == ';';
    assert |p.piece| == |q.piece|;
    assert p.piece == line[..|p.piece|] == q.piece && p.marker == line[|p.piece|..] == q.marker;
    var s := Strip(p.piece);
    assert |p.bare| == |q.bare|;
    assert p.bare == s[..|p.bare|] == q.bare && p.comment == s[|p.bare|..] == q.comment;
    NamesUnique(p, q);
  }

  lemma BracketsUnique(a: string, b: string, rest: string)
    requires Brackets(a, rest) && Brackets(b, rest)
    ensures a == b
  {
    assert forall i :: 0 <= i < |a| && i < |b| ==> a[i] == b[i];
    assert |a| == |b|;
  }

  lemma NamesUnique(p: Pieces, q: Pieces)
    requires p.bare == q.bare && Named(p) && Named(q)
    ensures p.name == q.name && p.extras == q.extras && p.range == q.range
  {
    hide Strip, IsNameChar;
    var t := Strip(p.bare);
    var restP, restQ := p.extras + p.range, q.extras + q.range;
    assert t == p.name + restP && t == q.name + restQ;
    NameExactly(t, p.name, restP);
    NameExactly(t, q.name, restQ);
    assert restP == t[|p.name|..] == restQ;
    assert Brackets(p.extras, restP) && Brackets(q.extras, restQ);
    BracketsUnique(p.extras, q.extras, restP);
    assert p.range == restP[|p.extras|..] && q.range == restQ[|q.extras|..];
  }

  /** What a requirement line is read as: the name, normalised, and the range of its pieces; it
      cannot be read exactly if it has no name. */
  lemma RequirementExactly(line: string, p: Pieces)
    requires CutInPieces(line, p) && Named(p)
    ensures Requirement(line) == if p.name == "" then None else Some((Normalize(p.name), Strip(p.range)))
  {
    var q := CutApart(line);
    PiecesUnique(line, p, q);
  }

  ghost predicate IsRequirements(lines: seq<string>, reqs: seq<(string, string)>) {
    && |reqs| == |SignificantLines(lines)|
    && forall i :: 0 <= i < |reqs| ==> Requirement(SignificantLines(lines)[i]) == Some(reqs[i])
  }

  method ParseRequirements(lines: seq<string>) returns (r: Option<seq<(string, string)>>)
    ensures r.None? <==> exists i :: 0 <= i < |SignificantLines(lines)| && Requirement(SignificantLines(lines)[i]).None?
    ensures r.Some? ==> IsRequirements(lines, r.value)
  {
    hide Requirement, SignificantLines, Strip;
    var out: seq<(string, string)> := [];
    var n := 0;
    NoPins(lines);
    assert SignificantLines(lines[..0]) == [] by {
      NoLines(lines);
    }
    while n < |lines|
      invariant 0 <= n <= |lines| && |out| == |SignificantLines(lines[..n])|
      invariant forall i :: 0 <= i < |out| ==> Requirement(SignificantLines(lines[..n])[i]) == Some(out[i])
    {
      ghost var before := SignificantLines(lines[..n]);
      OneMoreLine(lines, n);
      if Significant(lines[n]) {
        var parsed := Requirement(Strip(lines[n]));
        if parsed.None? {
          assert SignificantLines(lines)[|before|] == Strip(lines[n]);
          return None;
        }
        out := out + [parsed.value];
      }
      n := n + 1;
    }
    assert lines[..n] == lines;
    return Some(out);
  }

  lemma NoLines(lines: seq<string>)
    ensures SignificantLines(lines[..0]) == []
  {
  }

  // ------------------------------------------------ the check

  datatype Finding = Malformed(error: LockError) | NotLocked(name: string) | OutOfRange(name: string) | NeedsReview(name: string)

  ghost predicate Covered(req: (string, string), locked: map<string, string>) {
    req.0 in locked && InRange(locked[req.0], req.1)
  }

  /** The finding names the requirement and says what is wrong with it. */
  ghost predicate Explains(f: Finding, req: (string, string), locked: map<string, string>) {
    !Covered(req, locked) &&
    match f
    case Malformed(_) => false
    case NotLocked(name) => name == req.0 && name !in locked
    case OutOfRange(name) => name == req.0 && name in locked && Excluded(locked[name], req.1)
    case NeedsReview(name) => name == req.0 && name in locked && Unclear(locked[name], req.1)
  }

  /** One explanation for each requirement that is not covered, in order, and no other. */
  ghost predicate Reports(findings: seq<Finding>, reqs: seq<(string, string)>, locked: map<string, string>)
    decreases |reqs|
  {
    if reqs == [] then findings == []
    else if Covered(reqs[|reqs| - 1], locked) then Reports(findings, reqs[..|reqs| - 1], locked)
    else
      && findings != [] && Explains(findings[|findings| - 1], reqs[|reqs| - 1], locked)
      && Reports(findings[..|findings| - 1], reqs[..|reqs| - 1], locked)
  }

  /** What the check is for: exact pins of distinct packages, covering every requirement
      inside its range. */
  ghost predicate LockHolds(reqLines: seq<string>, lockLines: seq<string>) {
    exists reqs, locked ::
      && IsRequirements(reqLines, reqs) && Pins(SignificantLines(lockLines), locked)
      && forall i :: 0 <= i < |reqs| ==> Covered(reqs[i], locked)
  }

  lemma LockHoldsOnlyIf(reqLines: seq<string>, lockLines: seq<string>)
    requires LockHolds(reqLines, lockLines)
    ensures ExactLock(SignificantLines(lockLines))
    ensures forall i :: 0 <= i < |SignificantLines(reqLines)| ==> Requirement(SignificantLines(reqLines)[i]).Some?
  {
    hide ExactLock, Requirement, SignificantLines;
    var reqs, locked :| IsRequirements(reqLines, reqs) && Pins(SignificantLines(lockLines), locked);
  }

  lemma NothingReported(reqLines: seq<string>, lockLines: seq<string>, findings: seq<Finding>,
                        reqs: seq<(string, string)>, locked: map<string, string>)
    requires IsRequirements(reqLines, reqs) && Pins(SignificantLines(lockLines), locked)
    requires Reports(findings, reqs, locked)
    ensures findings == [] <==> LockHolds(reqLines, lockLines)
  {
    hide Pins, Requirement, SignificantLines, Covered;
    ReportsNothing(findings, reqs, locked);
    if others, also :| IsRequirements(reqLines, others) && Pins(SignificantLines(lockLines), also)
                       && forall i :: 0 <= i < |others| ==> Covered(others[i], also) {
      PinsUnique(SignificantLines(lockLines), locked, also);
      RequirementsUnique(reqLines, reqs, others);
    }
  }

  lemma RequirementsUnique(lines: seq<string>, reqs: seq<(string, string)>, others: seq<(string, string)>)
    requires IsRequirements(lines, reqs) && IsRequirements(lines, others)
    ensures reqs == others
  {
    hide Requirement, SignificantLines;
    forall i | 0 <= i < |reqs| ensures reqs[i] == others[i] {
      assert Requirement(SignificantLines(lines)[i]) == Some(reqs[i]);
    }
  }

  /** `None`: a requirement line that cannot be parsed stops the check with an error. */
  method CheckLock(reqLines: seq<string>, lockLines: seq<string>) returns (r: Option<seq<Finding>>)
    ensures !ExactLock(SignificantLines(lockLines)) ==> r.Some? && |r.value| == 1 && r.value[0].Malformed?
    ensures ExactLock(SignificantLines(lockLines)) ==>
      (r.None? <==> exists i :: 0 <= i < |SignificantLines(reqLines)| && Requirement(SignificantLines(reqLines)[i]).None?)
    ensures ExactLock(SignificantLines(lockLines)) && r.Some? ==>
      exists reqs, locked ::
        IsRequirements(reqLines, reqs) && Pins(SignificantLines(lockLines), locked) && Reports(r.value, reqs, locked)
    ensures r == Some([]) <==> LockHolds(reqLines, lockLines)
  {
    hide ExactLock, Pins, Requirement, SignificantLines, Covered, Explains, InRange, LockHolds;
    if LockHolds(reqLines, lockLines) {
      LockHoldsOnlyIf(reqLines, lockLines);
    }
    var lock := ParseLock(lockLines);
    if lock.Err? {
      return Some([Malformed(lock.error)]);
    }
    var locked := lock.value;
    var parsed := ParseRequirements(reqLines);
    if parsed.None? {
      return None;
    }
    var reqs := parsed.value;
    var findings: seq<Finding> := [];
    var n := 0;
    while n < |reqs|
      invariant 0 <= n <= |reqs| && Reports(findings, reqs[..n], locked)
    {
      assert reqs[..n + 1][..n] == reqs[..n];
      var f := Judge(reqs[n], locked);
      if f.Some? {
        assert (findings + [f.value])[..|findings|] == findings;
        findings := findings + [f.value];
      }
      n := n + 1;
    }
    assert reqs[..n] == reqs;
    NothingReported(reqLines, lockLines, findings, reqs, locked);
    return Some(findings);
  }

  method Judge(req: (string, string), locked: map<string, string>) returns (f: Option<Finding>)
    ensures f.None? <==> Covered(req, locked)
    ensures f.Some? ==> Explains(f.value, req, locked)
  {
    hide InRange, Excluded, Unclear;
    if req.0 !in locked {
      return Some(NotLocked(req.0));
    }
    var fits := VersionSatisfies(locked[req.0], req.1);
    match fits
    case Some(true) => return None;
    case Some(false) => return Some(OutOfRange(req.0));
    case None => return Some(NeedsReview(req.0));
  }

  lemma {:induction false} ReportsNothing(findings: seq<Finding>, reqs: seq<(string, string)>, locked: map<string, string>)
    requires Reports(findings, reqs, locked)
    ensures findings == [] <==> forall i :: 0 <= i < |reqs| ==> Covered(reqs[i], locked)
    decreases |reqs|
  {
    if reqs != [] {
      var init, last := reqs[..|reqs| - 1], reqs[|reqs| - 1];
      ReportsNothing(if Covered(last, locked) then findings else findings[..|findings| - 1], init, locked);
    }
  }

  lemma PinsUnique(lines: seq<string>, locked: map<string, string>, other: map<string, string>)
    requires Pins(lines, locked) && Pins(lines, other)
    ensures locked == other
  {
    hide Pin, Normalize;
    forall k | k in locked ensures k in other && other[k] == locked[k] {
      var i :| 0 <= i < |lines| && KeyOf(lines[i]) == k;
    }
    forall k | k in other ensures k in locked {
      var i :| 0 <= i < |lines| && KeyOf(lines[i]) == k;
    }
  }
}
