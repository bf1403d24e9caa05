// The version comparator of android/.../UpdateRepository.java. Case folding of a character
// (Character.toLowerCase of Character.toUpperCase) is a parameter.
module Versions {
  import opened Bytes

  type Fold = char -> int

  const MAX_INT := 0x7fff_ffff

  // ----- Parsing ---------------------------------------------------------------------------------------

  /** String.trim. */
  function TrimLeft(s: string): string {
    if s != [] && s[0] <= ' ' then TrimLeft(s[1..]) else s
  }

  function TrimRight(s: string): string {
    if s != [] && s[|s| - 1] <= ' ' then TrimRight(s[..|s| - 1]) else s
  }

  function Clean(s: string): string {
    var t := TrimRight(TrimLeft(s));
    if t != [] && t[0] == 'v' then t[1..] else t
  }

  /** The text up to the first of these separators. */
  function Head(s: string, seps: set<char>): (h: string)
    ensures h <= s && (forall c :: c in h ==> c !in seps) && (|h| < |s| ==> s[|h|] in seps)
  {
    if s == [] || s[0] in seps then []
    else
      var h := Head(s[1..], seps);
      assert s == [s[0]] + s[1..];
      [s[0]] + h
  }

  function Pieces(s: string, seps: set<char>): seq<string>
    decreases |s|
  {
    var h := Head(s, seps);
    [h] + if |h| < |s| then Pieces(s[|h| + 1..], seps) else []
  }

  function DropEmptyTail(pieces: seq<string>): seq<string> {
    if pieces != [] && pieces[|pieces| - 1] == [] then DropEmptyTail(pieces[..|pieces| - 1]) else pieces
  }

  /** String.split: without a separator the text itself, otherwise no empty pieces at the end. */
  function Split(s: string, seps: set<char>): seq<string> {
    if |Head(s, seps)| == |s| then [s] else DropEmptyTail(Pieces(s, seps))
  }

  predicate IsDigit(c: char) {
    '0' <= c <= '9'
  }

  predicate Digits(s: string) {
    forall c :: c in s ==> IsDigit(c)
  }

  function Number(s: string): nat
    requires Digits(s)
  {
    if s == [] then 0
    else
      assert s[|s| - 1] in s;
      Number(s[..|s| - 1]) * 10 + (s[|s| - 1] as int - '0' as int)
  }

  /** Integer.parseInt of digits. */
  function ParseInt(s: string): Option<nat>
    requires Digits(s)
  {
    if s == [] || Number(s) > MAX_INT then None else Some(Number(s))
  }

  function LeadingDigits(s: string): (d: string)
    ensures Digits(d) && d <= s
  {
    if s == [] || !IsDigit(s[0]) then []
    else
      assert s == [s[0]] + s[1..];
      [s[0]] + LeadingDigits(s[1..])
  }

  /** A component that is no int counts as 0. */
  function Component(s: string): nat {
    var n := ParseInt(LeadingDigits(s));
    if n.Some? then n.value else 0
  }

  datatype Version = Version(numbers: seq<nat>, pre: seq<string>)

  function NumbersOf(parts: seq<string>): (r: seq<nat>)
    ensures |r| == 3
  {
    seq(3, i requires 0 <= i < 3 => if i < |parts| then Component(parts[i]) else 0)
  }

  /** Version.parse; a null text is the version 0.0.0. */
  function ParseVersion(raw: Option<string>): (v: Version)
    ensures |v.numbers| == 3
  {
    match raw
    case None => Version([0, 0, 0], [])
    case Some(s) =>
      var clean := Clean(s);
      var main := Head(clean, {'-'});
      Version(NumbersOf(Split(main, {'.'})),
              if |main| < |clean| then Split(clean[|main| + 1..], {'.', '-'}) else [])
  }

  // ----- Comparing -------------------------------------------------------------------------------------

  function Order(x: int, y: int): int {
    if x < y then -1 else if x > y then 1 else 0
  }

  /** String.compareToIgnoreCase. */
  function CompareFolded(fold: Fold, x: string, y: string): int {
    if x == [] || y == [] then |x| - |y|
    else if fold(x[0]) != fold(y[0]) then fold(x[0]) - fold(y[0])
    else CompareFolded(fold, x[1..], y[1..])
  }

  predicate Numeric(s: string) {
    s != [] && Digits(s)
  }

  /** Two prerelease identifiers; None is the NumberFormatException of a number beyond int. */
  function CompareIds(fold: Fold, x: string, y: string): Option<int> {
    if Numeric(x) && Numeric(y) then
      if ParseInt(x) == None || ParseInt(y) == None then None else Some(Order(ParseInt(x).value, ParseInt(y).value))
    else if Numeric(x) then Some(-1)
    else if Numeric(y) then Some(1)
    else Some(CompareFolded(fold, x, y))
  }

  function ComparePre(fold: Fold, a: seq<string>, b: seq<string>): Option<int> {
    if a == [] && b == [] then Some(0)
    else if a == [] then Some(-1)
    else if b == [] then Some(1)
    else
      var c := CompareIds(fold, a[0], b[0]);
      if c == Some(0) then ComparePre(fold, a[1..], b[1..]) else c
  }

  function CompareNumbers(a: seq<nat>, b: seq<nat>): int
    requires |a| == |b|
  {
    if a == [] then 0
    else if Order(a[0], b[0]) != 0 then Order(a[0], b[0])
    else CompareNumbers(a[1..], b[1..])
  }

  function Compare(fold: Fold, a: Version, b: Version): Option<int>
    requires |a.numbers| == |b.numbers|
  {
    var c := CompareNumbers(a.numbers, b.numbers);
    if c != 0 then Some(c)
    else if a.pre == [] && b.pre == [] then Some(0)
    else if a.pre == [] then Some(1)
    else if b.pre == [] then Some(-1)
    else ComparePre(fold, a.pre, b.pre)
  }

  // ----- The methods -------------------------------------------------------------------------------------

  method Parse(raw: Option<string>) returns (out: Version)
    ensures out == ParseVersion(raw)
  {
    var numbers: seq<nat> := [0, 0, 0];
    if raw == None {
      return Version(numbers, []);
    }
    var clean := Clean(raw.value);
    var main := Head(clean, {'-'});
    var parts := Split(main, {'.'});
    for i := 0 to if |parts| < 3 then |parts| else 3
      invariant |numbers| == 3
      invariant forall k :: 0 <= k < i ==> numbers[k] == Component(parts[k])
      invariant forall k :: i <= k < 3 ==> numbers[k] == 0
    {
      numbers := numbers[i := Component(parts[i])];
    }
    NumbersAre(parts, numbers);
    out := Version(numbers, if |main| < |clean| then Split(clean[|main| + 1..], {'.', '-'}) else []);
  }

  lemma NumbersAre(parts: seq<string>, numbers: seq<nat>)
    requires |numbers| == 3 && forall k :: 0 <= k < 3 ==> numbers[k] == if k < |parts| then Component(parts[k]) else 0
    ensures numbers == NumbersOf(parts)
  {
  }

  lemma NumberStep(a: seq<nat>, b: seq<nat>, i: nat)
    requires |a| == |b| && i < |a|
    ensures CompareNumbers(a[i..], b[i..])
      == if a[i] != b[i] then Order(a[i], b[i]) else CompareNumbers(a[i + 1..], b[i + 1..])
  {
    assert a[i..][1..] == a[i + 1..] && b[i..][1..] == b[i + 1..];
  }

  lemma PreStep(fold: Fold, a: seq<string>, b: seq<string>, i: nat)
    requires i < |a| && i < |b|
    ensures ComparePre(fold, a[i..], b[i..])
      == if CompareIds(fold, a[i], b[i]) == Some(0) then ComparePre(fold, a[i + 1..], b[i + 1..])
         else CompareIds(fold, a[i], b[i])
  {
    assert a[i..][1..] == a[i + 1..] && b[i..][1..] == b[i + 1..];
  }

  method CompareVersions(fold: Fold, left: Option<string>, right: Option<string>) returns (cmp: Option<int>)
    ensures cmp == Compare(fold, ParseVersion(left), ParseVersion(right))
  {
    var a := Parse(left);
    var b := Parse(right);
    for i := 0 to 3
      invariant CompareNumbers(a.numbers, b.numbers) == CompareNumbers(a.numbers[i..], b.numbers[i..])
    {
      NumberStep(a.numbers, b.numbers, i);
      if a.numbers[i] != b.numbers[i] {
        return Some(Order(a.numbers[i], b.numbers[i]));
      }
    }
    if |a.pre| == 0 && |b.pre| == 0 {
      return Some(0);
    }
    if |a.pre| == 0 {
      return Some(1);
    }
    if |b.pre| == 0 {
      return Some(-1);
    }
    cmp := ComparePrereleases(fold, a.pre, b.pre);
  }

  method ComparePrereleases(fold: Fold, a: seq<string>, b: seq<string>) returns (cmp: Option<int>)
    ensures cmp == ComparePre(fold, a, b)
  {
    var max := if |a| > |b| then |a| else |b|;
    for i := 0 to max
      invariant i <= |a| && i <= |b|
      invariant ComparePre(fold, a, b) == ComparePre(fold, a[i..], b[i..])
    {
      if i >= |a| {
        return Some(-1);
      }
      if i >= |b| {
        return Some(1);
      }
      PreStep(fold, a, b, i);
      var c := CompareIds(fold, a[i], b[i]);
      if c != Some(0) {
        return c;
      }
    }
    cmp := Some(0);
  }

  method IsNewer(fold: Fold, candidate: Option<string>, current: Option<string>) returns (newer: Option<bool>)
    ensures newer == Newer(fold, ParseVersion(candidate), ParseVersion(current))
  {
    var cmp := CompareVersions(fold, candidate, current);
    newer := if cmp == None then None else Some(cmp.value > 0);
  }

  function Newer(fold: Fold, a: Version, b: Version): Option<bool>
    requires |a.numbers| == |b.numbers|
  {
    var c := Compare(fold, a, b);
    if c == None then None else Some(c.value > 0)
  }

  // ----- A total preorder ----------------------------------------------------------------------------------

  /** The numeric identifiers are ints. */
  predicate Fits(pre: seq<string>) {
    forall x :: x in pre && Numeric(x) ==> ParseInt(x).Some?
  }

  /** From a against b and b against c to a against c. */
  predicate Chains(ab: int, bc: int, ac: int) {
    ab <= 0 && bc <= 0 ==> ac <= 0 && (ac == 0 <==> ab == 0 && bc == 0)
  }

  lemma {:induction false} FoldedIsAntisymmetric(fold: Fold, x: string, y: string)
    ensures CompareFolded(fold, x, y) == -CompareFolded(fold, y, x)
  {
    if x != [] && y != [] {
      FoldedIsAntisymmetric(fold, x[1..], y[1..]);
    }
  }

  lemma {:induction false} FoldedChains(fold: Fold, x: string, y: string, z: string)
    ensures Chains(CompareFolded(fold, x, y), CompareFolded(fold, y, z), CompareFolded(fold, x, z))
  {
    if x != [] && y != [] && z != [] {
      FoldedChains(fold, x[1..], y[1..], z[1..]);
    }
  }

  predicate FitId(x: string) {
    Numeric(x) ==> ParseInt(x).Some?
  }

  lemma IdsOrder(fold: Fold, x: string, y: string, z: string)
    requires FitId(x) && FitId(y) && FitId(z)
    ensures CompareIds(fold, x, y).Some? && CompareIds(fold, y, x).Some?
    ensures CompareIds(fold, y, z).Some? && CompareIds(fold, x, z).Some?
    ensures CompareIds(fold, x, y).value == -CompareIds(fold, y, x).value
    ensures Chains(CompareIds(fold, x, y).value, CompareIds(fold, y, z).value, CompareIds(fold, x, z).value)
  {
    FoldedIsAntisymmetric(fold, x, y);
    FoldedChains(fold, x, y, z);
  }

  lemma {:induction false} PreOrder(fold: Fold, a: seq<string>, b: seq<string>, c: seq<string>)
    requires Fits(a) && Fits(b) && Fits(c)
    ensures ComparePre(fold, a, b).Some? && ComparePre(fold, b, a).Some?
    ensures ComparePre(fold, b, c).Some? && ComparePre(fold, a, c).Some?
    ensures ComparePre(fold, a, b).value == -ComparePre(fold, b, a).value
    ensures Chains(ComparePre(fold, a, b).value, ComparePre(fold, b, c).value, ComparePre(fold, a, c).value)
  {
    if a != [] && b != [] && c != [] {
      IdsOrder(fold, a[0], b[0], c[0]);
      PreOrder(fold, a[1..], b[1..], c[1..]);
    } else {
      PreIsAntisymmetric(fold, a, b);
      PreIsAntisymmetric(fold, b, c);
      PreIsAntisymmetric(fold, a, c);
    }
  }

  lemma {:induction false} PreIsAntisymmetric(fold: Fold, a: seq<string>, b: seq<string>)
    requires Fits(a) && Fits(b)
    ensures ComparePre(fold, a, b).Some? && ComparePre(fold, b, a).Some?
    ensures ComparePre(fold, a, b).value == -ComparePre(fold, b, a).value
  {
    if a != [] && b != [] {
      IdsOrder(fold, a[0], b[0], b[0]);
      PreIsAntisymmetric(fold, a[1..], b[1..]);
    }
  }

  lemma {:induction false} NumbersOrder(a: seq<nat>, b: seq<nat>, c: seq<nat>)
    requires |a| == |b| == |c|
    ensures CompareNumbers(a, b) == -CompareNumbers(b, a)
    ensures Chains(CompareNumbers(a, b), CompareNumbers(b, c), CompareNumbers(a, c))
  {
    if a != [] {
      NumbersOrder(a[1..], b[1..], c[1..]);
    }
  }

  predicate Comparable(v: Version) {
    |v.numbers| == 3 && Fits(v.pre)
  }

  /** Comparing is total, sign-antisymmetric and transitive, ties included, so it is a total preorder. */
  lemma CompareIsTotalPreorder(fold: Fold, a: Version, b: Version, c: Version)
    requires Comparable(a) && Comparable(b) && Comparable(c)
    ensures Compare(fold, a, b).Some? && Compare(fold, b, a).Some?
    ensures Compare(fold, b, c).Some? && Compare(fold, a, c).Some?
    ensures Compare(fold, a, b).value == -Compare(fold, b, a).value
    ensures Chains(Compare(fold, a, b).value, Compare(fold, b, c).value, Compare(fold, a, c).value)
  {
    NumbersOrder(a.numbers, b.numbers, c.numbers);
    PreOrder(fold, a.pre, b.pre, c.pre);
  }

  /** "Newer than" is a strict order, and being newer than neither way is transitive. */
  lemma NewerIsStrictWeakOrder(fold: Fold, a: Version, b: Version, c: Version)
    requires Comparable(a) && Comparable(b) && Comparable(c)
    ensures Newer(fold, a, a) == Some(false)
    ensures Newer(fold, a, b) == Some(true) ==> Newer(fold, b, a) == Some(false)
    ensures Newer(fold, a, b) == Some(true) && Newer(fold, b, c) == Some(true) ==> Newer(fold, a, c) == Some(true)
    ensures Newer(fold, a, b) == Some(false) && Newer(fold, b, c) == Some(false) ==> Newer(fold, a, c) == Some(false)
  {
    CompareIsTotalPreorder(fold, a, a, a);
    CompareIsTotalPreorder(fold, a, b, c);
    CompareIsTotalPreorder(fold, c, b, a);
    CompareIsTotalPreorder(fold, a, c, c);
  }

  /** A release is newer than every prerelease of the same numbers. */
  lemma ReleaseAbovePrereleases(fold: Fold, release: Version, pre: Version)
    requires |release.numbers| == |pre.numbers| == 3 && release.numbers == pre.numbers
    requires release.pre == [] && pre.pre != []
    ensures Newer(fold, release, pre) == Some(true) && Newer(fold, pre, release) == Some(false)
  {
    SameNumbers(release.numbers);
  }

  lemma {:induction false} SameNumbers(a: seq<nat>)
    ensures CompareNumbers(a, a) == 0
  {
    if a != [] {
      SameNumbers(a[1..]);
    }
  }

  // ----- Ties and failures ---------------------------------------------------------------------------------

  predicate SameFolded(fold: Fold, x: string, y: string) {
    |x| == |y| && forall i :: 0 <= i < |x| ==> fold(x[i]) == fold(y[i])
  }

  predicate SameId(fold: Fold, x: string, y: string) {
    if Numeric(x) && Numeric(y) then ParseInt(x) == ParseInt(y) else Numeric(x) == Numeric(y) && SameFolded(fold, x, y)
  }

  lemma {:induction false} FoldedTie(fold: Fold, x: string, y: string)
    ensures CompareFolded(fold, x, y) == 0 <==> SameFolded(fold, x, y)
  {
    if x != [] && y != [] {
      FoldedTie(fold, x[1..], y[1..]);
      assert SameFolded(fold, x, y) <==> fold(x[0]) == fold(y[0]) && SameFolded(fold, x[1..], y[1..]) by {
        assert forall i :: 0 <= i < |x| - 1 ==> x[1..][i] == x[i + 1];
        assert forall i :: 0 <= i < |y| - 1 ==> y[1..][i] == y[i + 1];
        assert forall i :: 0 < i < |x| ==> x[i] == x[1..][i - 1];
        assert forall i :: 0 < i < |y| ==> y[i] == y[1..][i - 1];
      }
    }
  }

  predicate SamePre(fold: Fold, a: seq<string>, b: seq<string>) {
    |a| == |b| && forall i :: 0 <= i < |a| ==> SameId(fold, a[i], b[i])
  }

  lemma SamePreCons(fold: Fold, a: seq<string>, b: seq<string>)
    requires a != [] && b != []
    ensures SamePre(fold, a, b) <==> SameId(fold, a[0], b[0]) && SamePre(fold, a[1..], b[1..])
  {
    if SameId(fold, a[0], b[0]) && SamePre(fold, a[1..], b[1..]) {
      forall i | 0 <= i < |a|
        ensures SameId(fold, a[i], b[i])
      {
        if i > 0 {
          assert SameId(fold, a[1..][i - 1], b[1..][i - 1]);
        }
      }
    }
    if SamePre(fold, a, b) {
      forall i | 0 <= i < |a| - 1
        ensures SameId(fold, a[1..][i], b[1..][i])
      {
        assert SameId(fold, a[i + 1], b[i + 1]);
      }
    }
  }

  /** Prereleases tie exactly when their identifiers agree one by one: numeric ones in value, others
      up to case. */
  lemma {:induction false} PreTie(fold: Fold, a: seq<string>, b: seq<string>)
    requires Fits(a) && Fits(b)
    ensures ComparePre(fold, a, b) == Some(0) <==> SamePre(fold, a, b)
  {
    if a != [] && b != [] {
      FoldedTie(fold, a[0], b[0]);
      PreTie(fold, a[1..], b[1..]);
      SamePreCons(fold, a, b);
    }
  }

  /** Versions tie exactly when their numbers and their prereleases do. */
  lemma VersionsTie(fold: Fold, a: Version, b: Version)
    requires Comparable(a) && Comparable(b)
    ensures Compare(fold, a, b) == Some(0) <==> a.numbers == b.numbers && SamePre(fold, a.pre, b.pre)
  {
    NumbersTie(a.numbers, b.numbers);
    PreTie(fold, a.pre, b.pre);
  }

  lemma {:induction false} NumbersTie(a: seq<nat>, b: seq<nat>)
    requires |a| == |b|
    ensures CompareNumbers(a, b) == 0 <==> a == b
  {
    if a != [] {
      NumbersTie(a[1..], b[1..]);
      assert a == [a[0]] + a[1..] && b == [b[0]] + b[1..];
    }
  }

  /** A version can be compared with itself exactly when its numeric identifiers fit. */
  lemma {:induction false} ComparesWithItselfIffFits(fold: Fold, pre: seq<string>)
    ensures ComparePre(fold, pre, pre) == (if Fits(pre) then Some(0) else None)
  {
    if pre != [] {
      FoldedTie(fold, pre[0], pre[0]);
      ComparesWithItselfIffFits(fold, pre[1..]);
      assert pre == [pre[0]] + pre[1..];
    }
  }

  // ----- Which version is newer ------------------------------------------------------------------------------

  /** The first text goes on where the second ends, or is larger at their first difference. */
  ghost predicate TextAfter(fold: Fold, x: string, y: string) {
    exists k: nat :: TextAfterAt(fold, x, y, k)
  }

  ghost predicate TextAfterAt(fold: Fold, x: string, y: string, k: nat) {
    && k < |x| && k <= |y| && (forall i :: 0 <= i < k ==> fold(x[i]) == fold(y[i]))
    && (k < |y| ==> fold(x[k]) > fold(y[k]))
  }

  lemma {:induction false} TextIsAfter(fold: Fold, x: string, y: string)
    ensures CompareFolded(fold, x, y) > 0 <==> TextAfter(fold, x, y)
  {
    if x != [] && y != [] {
      TextIsAfter(fold, x[1..], y[1..]);
      TextAfterLater(fold, x, y, 0);
      if k: nat :| TextAfterAt(fold, x[1..], y[1..], k) {
        TextAfterLater(fold, x, y, k);
      }
      if k: nat :| TextAfterAt(fold, x, y, k) && k > 0 {
        TextAfterLater(fold, x, y, k - 1);
      }
    } else if x != [] {
      assert TextAfterAt(fold, x, y, 0);
    }
  }

  lemma TextAfterLater(fold: Fold, x: string, y: string, k: nat)
    requires x != [] && y != []
    ensures TextAfterAt(fold, x, y, 0) <==> fold(x[0]) > fold(y[0])
    ensures TextAfterAt(fold, x, y, k + 1) <==> fold(x[0]) == fold(y[0]) && TextAfterAt(fold, x[1..], y[1..], k)
  {
    if fold(x[0]) == fold(y[0]) && TextAfterAt(fold, x[1..], y[1..], k) {
      forall i | 0 <= i < k + 1
        ensures fold(x[i]) == fold(y[i])
      {
        assert i > 0 ==> x[i] == x[1..][i - 1] && y[i] == y[1..][i - 1];
      }
    }
    if TextAfterAt(fold, x, y, k + 1) {
      forall i | 0 <= i < k
        ensures fold(x[1..][i]) == fold(y[1..][i])
      {
        assert x[1..][i] == x[i + 1] && y[1..][i] == y[i + 1];
      }
    }
  }

  /** The larger number, any text after a number, and the text that is later up to case. */
  ghost predicate IdAfter(fold: Fold, x: string, y: string) {
    if Numeric(x) && Numeric(y) then Number(x) > Number(y)
    else !Numeric(x) && (Numeric(y) || TextAfter(fold, x, y))
  }

  lemma IdIsAfter(fold: Fold, x: string, y: string)
    requires FitId(x) && FitId(y)
    ensures CompareIds(fold, x, y).Some? && (CompareIds(fold, x, y).value > 0 <==> IdAfter(fold, x, y))
    ensures CompareIds(fold, x, y) == Some(0) <==> SameId(fold, x, y)
  {
    TextIsAfter(fold, x, y);
    FoldedTie(fold, x, y);
  }

  /** The identifiers before position k tie; at k the first list goes on or has the later identifier. */
  ghost predicate PreAfterAt(fold: Fold, a: seq<string>, b: seq<string>, k: nat) {
    && k < |a| && k <= |b| && (forall i :: 0 <= i < k ==> SameId(fold, a[i], b[i]))
    && (k < |b| ==> IdAfter(fold, a[k], b[k]))
  }

  lemma {:induction false} PreIsAfter(fold: Fold, a: seq<string>, b: seq<string>)
    requires Fits(a) && Fits(b)
    ensures ComparePre(fold, a, b).Some?
    ensures ComparePre(fold, a, b).value > 0 <==> exists k :: PreAfterAt(fold, a, b, k)
  {
    if a != [] && b != [] {
      IdIsAfter(fold, a[0], b[0]);
      PreIsAfter(fold, a[1..], b[1..]);
      PreAfterLater(fold, a, b, 0);
      if k: nat :| PreAfterAt(fold, a[1..], b[1..], k) {
        PreAfterLater(fold, a, b, k);
      }
      if k: nat :| PreAfterAt(fold, a, b, k) && k > 0 {
        PreAfterLater(fold, a, b, k - 1);
      }
    } else if a != [] {
      assert PreAfterAt(fold, a, b, 0);
    }
  }

  lemma PreAfterLater(fold: Fold, a: seq<string>, b: seq<string>, k: nat)
    requires a != [] && b != []
    ensures PreAfterAt(fold, a, b, 0) <==> IdAfter(fold, a[0], b[0])
    ensures PreAfterAt(fold, a, b, k + 1) <==> SameId(fold, a[0], b[0]) && PreAfterAt(fold, a[1..], b[1..], k)
  {
    if SameId(fold, a[0], b[0]) && PreAfterAt(fold, a[1..], b[1..], k) {
      forall i | 0 <= i < k + 1
        ensures SameId(fold, a[i], b[i])
      {
        assert i > 0 ==> SameId(fold, a[1..][i - 1], b[1..][i - 1]);
      }
    }
    if PreAfterAt(fold, a, b, k + 1) {
      forall i | 0 <= i < k
        ensures SameId(fold, a[1..][i], b[1..][i])
      {
        assert SameId(fold, a[i + 1], b[i + 1]);
      }
    }
  }

  /** The numbers before position k are equal, and the one at k is larger. */
  ghost predicate LargerAt(a: seq<nat>, b: seq<nat>, k: nat)
    requires |a| == |b|
  {
    k < |a| && a[..k] == b[..k] && a[k] > b[k]
  }

  lemma {:induction false} NumbersAreAfter(a: seq<nat>, b: seq<nat>)
    requires |a| == |b|
    ensures CompareNumbers(a, b) > 0 <==> exists k :: LargerAt(a, b, k)
  {
    if a != [] {
      NumbersAreAfter(a[1..], b[1..]);
      LargerLater(a, b, 0);
      if k: nat :| LargerAt(a[1..], b[1..], k) {
        LargerLater(a, b, k);
      }
      if k: nat :| LargerAt(a, b, k) && k > 0 {
        LargerLater(a, b, k - 1);
      }
    }
  }

  lemma LargerLater(a: seq<nat>, b: seq<nat>, k: nat)
    requires |a| == |b| && a != []
    ensures LargerAt(a, b, 0) <==> a[0] > b[0]
    ensures LargerAt(a, b, k + 1) <==> a[0] == b[0] && LargerAt(a[1..], b[1..], k)
  {
    if k < |a| - 1 {
      assert a[..k + 1] == [a[0]] + a[1..][..k] && b[..k + 1] == [b[0]] + b[1..][..k];
      assert a[..k + 1] == b[..k + 1] ==> a[..k + 1][0] == b[..k + 1][0] && a[..k + 1][1..] == b[..k + 1][1..];
    }
  }

  /** One version is newer than another exactly when the first differing number is larger; or, at equal
      numbers, it is a release and the other is not, or both are prereleases and at the first untied
      position it goes on alone or has the later identifier. */
  lemma NewerIff(fold: Fold, a: Version, b: Version)
    requires Comparable(a) && Comparable(b)
    ensures Newer(fold, a, b) == Some(
      || (exists k :: LargerAt(a.numbers, b.numbers, k))
      || (a.numbers == b.numbers && a.pre == [] && b.pre != [])
      || (a.numbers == b.numbers && b.pre != [] && exists k :: PreAfterAt(fold, a.pre, b.pre, k)))
  {
    NumbersAreAfter(a.numbers, b.numbers);
    NumbersTie(a.numbers, b.numbers);
    PreIsAfter(fold, a.pre, b.pre);
  }

  /** So larger numbers are newer, never the other way round. */
  lemma LargerIsNewer(fold: Fold, a: Version, b: Version, k: nat)
    requires Comparable(a) && Comparable(b) && LargerAt(a.numbers, b.numbers, k)
    ensures Newer(fold, a, b) == Some(true) && Newer(fold, b, a) == Some(false)
  {
    NewerIff(fold, a, b);
    CompareIsTotalPreorder(fold, a, b, b);
  }

  /** Integer.toString of a number that is not negative. */
  function Spelled(n: nat): (s: string)
    ensures s != [] && Digits(s)
  {
    if n < 10 then [Digit(n)] else Spelled(n / 10) + [Digit(n % 10)]
  }

  function Digit(n: nat): (c: char)
    requires n < 10
    ensures IsDigit(c) && c as int == '0' as int + n
  {
    ('0' as int + n) as char
  }

  /** Digits count in decimal. */
  lemma {:induction false} NumberOfSpelled(n: nat)
    ensures Number(Spelled(n)) == n
  {
    if n >= 10 {
      NumberOfSpelled(n / 10);
      var s := Spelled(n / 10) + [Digit(n % 10)];
      assert s[..|s| - 1] == Spelled(n / 10);
    }
  }

  /** Both identifiers are numbers, and one of them is beyond int. */
  predicate Clash(x: string, y: string) {
    Numeric(x) && Numeric(y) && (ParseInt(x) == None || ParseInt(y) == None)
  }

  /** The identifiers before position k tie, and those at k clash. */
  predicate ClashesAt(fold: Fold, a: seq<string>, b: seq<string>, k: nat) {
    && k < |a| && k < |b| && Clash(a[k], b[k])
    && forall i :: 0 <= i < k ==> SameId(fold, a[i], b[i]) && !Clash(a[i], b[i])
  }

  lemma IdsFailOrTie(fold: Fold, x: string, y: string)
    ensures CompareIds(fold, x, y) == None <==> Clash(x, y)
    ensures CompareIds(fold, x, y) == Some(0) <==> SameId(fold, x, y) && !Clash(x, y)
  {
    FoldedTie(fold, x, y);
  }

  lemma ClashesLater(fold: Fold, a: seq<string>, b: seq<string>, k: nat)
    requires a != [] && b != []
    ensures ClashesAt(fold, a, b, 0) <==> Clash(a[0], b[0])
    ensures ClashesAt(fold, a, b, k + 1)
      <==> SameId(fold, a[0], b[0]) && !Clash(a[0], b[0]) && ClashesAt(fold, a[1..], b[1..], k)
  {
    if ClashesAt(fold, a, b, k + 1) {
      forall i | 0 <= i < k
        ensures SameId(fold, a[1..][i], b[1..][i]) && !Clash(a[1..][i], b[1..][i])
      {
        assert SameId(fold, a[i + 1], b[i + 1]) && !Clash(a[i + 1], b[i + 1]);
      }
    }
    if ClashesAt(fold, a[1..], b[1..], k) {
      forall i | 0 < i < k + 1
        ensures SameId(fold, a[i], b[i]) && !Clash(a[i], b[i])
      {
        assert SameId(fold, a[1..][i - 1], b[1..][i - 1]) && !Clash(a[1..][i - 1], b[1..][i - 1]);
      }
    }
  }

  lemma {:induction false} PreFailsIff(fold: Fold, a: seq<string>, b: seq<string>)
    ensures ComparePre(fold, a, b) == None <==> exists k :: ClashesAt(fold, a, b, k)
  {
    if a != [] && b != [] {
      IdsFailOrTie(fold, a[0], b[0]);
      PreFailsIff(fold, a[1..], b[1..]);
      forall k: nat
        ensures ClashesAt(fold, a, b, 0) <==> Clash(a[0], b[0])
        ensures ClashesAt(fold, a, b, k + 1)
          <==> SameId(fold, a[0], b[0]) && !Clash(a[0], b[0]) && ClashesAt(fold, a[1..], b[1..], k)
      {
        ClashesLater(fold, a, b, k);
      }
      forall k: nat | ClashesAt(fold, a, b, k) && k > 0
        ensures ClashesAt(fold, a[1..], b[1..], k - 1)
      {
        ClashesLater(fold, a, b, k - 1);
      }
    }
  }

  /** Comparing fails exactly when the numbers tie and the first identifiers that do not tie are both
      numeric, one of them beyond int. */
  lemma CompareFailsIff(fold: Fold, a: Version, b: Version)
    requires |a.numbers| == |b.numbers|
    ensures Compare(fold, a, b) == None <==> a.numbers == b.numbers && exists k :: ClashesAt(fold, a.pre, b.pre, k)
  {
    NumbersTie(a.numbers, b.numbers);
    PreFailsIff(fold, a.pre, b.pre);
  }

  lemma {:induction false} LeadingDigitsOf(s: string, rest: string)
    requires Digits(s) && (rest == [] || !IsDigit(rest[0]))
    ensures LeadingDigits(s + rest) == s
  {
    if s == [] {
      assert s + rest == rest;
    } else {
      LeadingDigitsOf(s[1..], rest);
      assert s[0] in s && (s + rest)[1..] == s[1..] + rest && s == [s[0]] + s[1..];
    }
  }

  /** A component counts as the number its digits spell, or as 0 when that is no int: release 1.0.0 is
      newer than release 2147483648.0.0. */
  lemma ComponentIsNumber(s: string, rest: string)
    requires Digits(s) && (rest == [] || !IsDigit(rest[0]))
    ensures Component(s + rest) == if Number(s) <= MAX_INT then Number(s) else 0
  {
    LeadingDigitsOf(s, rest);
  }

  // ----- Parsing undoes showing --------------------------------------------------------------------------------

  predicate Blank(s: string) {
    forall i :: 0 <= i < |s| ==> s[i] <= ' '
  }

  /** A prerelease identifier as the versions of this project use them. */
  predicate PlainId(s: string) {
    s != [] && forall c :: c in s ==> c > ' ' && c != '.' && c != '-'
  }

  function Dotted(parts: seq<string>): string {
    if parts == [] then []
    else if |parts| == 1 then parts[0]
    else parts[0] + "." + Dotted(parts[1..])
  }

  function Shown(v: Version): string
    requires |v.numbers| == 3
  {
    Dotted([Spelled(v.numbers[0]), Spelled(v.numbers[1]), Spelled(v.numbers[2])])
    + if v.pre == [] then "" else "-" + Dotted(v.pre)
  }

  lemma {:induction false} BlankLeft(blank: string, s: string)
    requires Blank(blank) && s != [] && s[0] > ' '
    ensures TrimLeft(blank + s) == s
  {
    if blank == [] {
      assert blank + s == s;
    } else {
      assert (blank + s)[1..] == blank[1..] + s;
      BlankLeft(blank[1..], s);
    }
  }

  lemma {:induction false} BlankRight(s: string, blank: string)
    requires Blank(blank) && s != [] && s[|s| - 1] > ' '
    ensures TrimRight(s + blank) == s
  {
    if blank == [] {
      assert s + blank == s;
    } else {
      var n := |blank| - 1;
      assert (s + blank)[..|s| + n] == s + blank[..n];
      BlankRight(s, blank[..n]);
    }
  }

  lemma {:induction false} HeadOf(s: string, rest: string, seps: set<char>)
    requires (forall c :: c in s ==> c !in seps) && (rest == [] || rest[0] in seps)
    ensures Head(s + rest, seps) == s
  {
    if s == [] {
      assert s + rest == rest;
    } else {
      assert s[0] in s && (s + rest)[1..] == s[1..] + rest && s == [s[0]] + s[1..];
      HeadOf(s[1..], rest, seps);
    }
  }

  predicate Separate(parts: seq<string>, seps: set<char>) {
    && '.' in seps
    && forall i :: 0 <= i < |parts| ==> parts[i] != [] && forall c :: c in parts[i] ==> c !in seps
  }

  lemma OnePiece(s: string, rest: string, seps: set<char>)
    requires '.' in seps && forall c :: c in s ==> c !in seps
    ensures Pieces(s + "." + rest, seps) == [s] + Pieces(rest, seps)
  {
    var t := s + "." + rest;
    HeadOf(s, "." + rest, seps);
    assert t == s + ("." + rest) && t[|s| + 1..] == rest;
  }

  lemma LastPiece(s: string, seps: set<char>)
    requires forall c :: c in s ==> c !in seps
    ensures Pieces(s, seps) == [s]
  {
    HeadOf(s, [], seps);
    assert s + [] == s;
  }

  lemma {:induction false} PiecesOfDotted(parts: seq<string>, seps: set<char>)
    requires parts != [] && Separate(parts, seps)
    ensures Pieces(Dotted(parts), seps) == parts
  {
    if |parts| == 1 {
      LastPiece(parts[0], seps);
      assert parts == [parts[0]];
    } else {
      OnePiece(parts[0], Dotted(parts[1..]), seps);
      PiecesOfDotted(parts[1..], seps);
      assert parts == [parts[0]] + parts[1..];
    }
  }

  lemma SplitOfDotted(parts: seq<string>, seps: set<char>)
    requires parts != [] && Separate(parts, seps)
    ensures Split(Dotted(parts), seps) == parts
  {
    PiecesOfDotted(parts, seps);
    if |Head(Dotted(parts), seps)| == |Dotted(parts)| {
      assert Pieces(Dotted(parts), seps) == [Head(Dotted(parts), seps)];
    }
  }

  lemma {:induction false} DottedChars(parts: seq<string>, c: char)
    requires c != '.' && forall i :: 0 <= i < |parts| ==> c !in parts[i]
    ensures c !in Dotted(parts)
  {
    if |parts| > 1 {
      DottedChars(parts[1..], c);
    }
  }

  /** The ends of what Dotted makes are those of its first and last part. */
  lemma {:induction false} DottedEnds(parts: seq<string>)
    requires parts != [] && forall i :: 0 <= i < |parts| ==> parts[i] != []
    ensures var s, last := Dotted(parts), parts[|parts| - 1];
      s != [] && s[0] == parts[0][0] && s[|s| - 1] == last[|last| - 1]
  {
    if |parts| > 1 {
      DottedEnds(parts[1..]);
    }
  }

  lemma ComponentOfSpelled(n: nat)
    requires n <= MAX_INT
    ensures Component(Spelled(n)) == n
  {
    ComponentIsNumber(Spelled(n), []);
    NumberOfSpelled(n);
    assert Spelled(n) + [] == Spelled(n);
  }

  lemma ShownNumbers(numbers: seq<nat>)
    requires |numbers| == 3 && forall i :: 0 <= i < 3 ==> numbers[i] <= MAX_INT
    ensures var main := Dotted([Spelled(numbers[0]), Spelled(numbers[1]), Spelled(numbers[2])]);
      && main != [] && IsDigit(main[0]) && IsDigit(main[|main| - 1]) && '-' !in main
      && NumbersOf(Split(main, {'.'})) == numbers
  {
    var parts := [Spelled(numbers[0]), Spelled(numbers[1]), Spelled(numbers[2])];
    forall i | 0 <= i < 3
      ensures parts[i] != [] && Digits(parts[i]) && Component(parts[i]) == numbers[i]
    {
      ComponentOfSpelled(numbers[i]);
    }
    assert parts[0][0] in parts[0] && parts[2][|parts[2]| - 1] in parts[2];
    DottedChars(parts, '-');
    DottedEnds(parts);
    SplitOfDotted(parts, {'.'});
  }

  /** Parsing a version as it is shown gives it back, with or without a leading v and blanks around it. */
  lemma ParseOfShown(v: Version, left: string, right: string, marked: bool)
    requires |v.numbers| == 3 && forall i :: 0 <= i < 3 ==> v.numbers[i] <= MAX_INT
    requires (forall i :: 0 <= i < |v.pre| ==> PlainId(v.pre[i])) && Blank(left) && Blank(right)
    ensures ParseVersion(Some(left + (if marked then "v" else "") + Shown(v) + right)) == v
  {
    var main := Dotted([Spelled(v.numbers[0]), Spelled(v.numbers[1]), Spelled(v.numbers[2])]);
    ShownNumbers(v.numbers);
    ShownEnds(v, main);
    CleanOf(left, Shown(v), right, marked);
    ParseOfClean(v, main);
    ParseFrom(left + (if marked then "v" else "") + Shown(v) + right, v, main);
  }

  lemma ParseFrom(raw: string, v: Version, main: string)
    requires |v.numbers| == 3 && Clean(raw) == Shown(v) && Head(Shown(v), {'-'}) == main
    requires NumbersOf(Split(main, {'.'})) == v.numbers
    requires v.pre == (if |main| < |Shown(v)| then Split(Shown(v)[|main| + 1..], {'.', '-'}) else [])
    ensures ParseVersion(Some(raw)) == v
  {
  }

  lemma CleanOf(left: string, s: string, right: string, marked: bool)
    requires s != [] && IsDigit(s[0]) && s[|s| - 1] > ' ' && Blank(left) && Blank(right)
    ensures Clean(left + (if marked then "v" else "") + s + right) == s
  {
    var t := (if marked then "v" else "") + s;
    assert left + (if marked then "v" else "") + s + right == left + (t + right);
    assert t[0] == (if marked then 'v' else s[0]) && t[|t| - 1] == s[|s| - 1];
    BlankLeft(left, t + right);
    BlankRight(t, right);
    assert marked ==> t[1..] == s;
  }

  lemma ShownEnds(v: Version, main: string)
    requires |v.numbers| == 3 && (forall i :: 0 <= i < |v.pre| ==> PlainId(v.pre[i]))
    requires main == Dotted([Spelled(v.numbers[0]), Spelled(v.numbers[1]), Spelled(v.numbers[2])])
    requires main != [] && IsDigit(main[0]) && IsDigit(main[|main| - 1])
    ensures Shown(v) != [] && Shown(v)[0] == main[0] && Shown(v)[|Shown(v)| - 1] > ' '
  {
    if v.pre != [] {
      var last := v.pre[|v.pre| - 1];
      DottedEnds(v.pre);
      assert last[|last| - 1] in last;
    }
  }

  lemma ParseOfClean(v: Version, main: string)
    requires |v.numbers| == 3 && (forall i :: 0 <= i < |v.pre| ==> PlainId(v.pre[i]))
    requires main == Dotted([Spelled(v.numbers[0]), Spelled(v.numbers[1]), Spelled(v.numbers[2])]) && '-' !in main
    requires NumbersOf(Split(main, {'.'})) == v.numbers
    ensures Head(Shown(v), {'-'}) == main
    ensures v.pre == (if |main| < |Shown(v)| then Split(Shown(v)[|main| + 1..], {'.', '-'}) else [])
  {
    if v.pre == [] {
      HeadOf(main, "", {'-'});
      assert main + "" == main;
    } else {
      HeadOf(main, "-" + Dotted(v.pre), {'-'});
      assert Shown(v)[|main| + 1..] == Dotted(v.pre);
      SplitOfDotted(v.pre, {'.', '-'});
    }
  }
}
