/** Comparing release versions (internal/selfupdate/version.go). */
module ReleaseVersion {
  import opened Results
  import opened Sequences
  import opened Text

  datatype Version = Version(numbers: seq<nat>, prerelease: string)

  // --- parsing ---

  /** The largest value of a 64-bit int. */
  const MAX_INT := 0x7fff_ffff_ffff_ffff

  function IndexOf(s: string, c: char): (i: nat)
    ensures i <= |s| && c !in s[..i] && (i < |s| ==> s[i] == c)
  {
    if s == "" || s[0] == c then 0 else 1 + IndexOf(s[1..], c)
  }

  function Split(s: string): (parts: seq<string>)
    ensures parts != []
    decreases |s|
  {
    var i := IndexOf(s, '.');
    if i == |s| then [s] else [s[..i]] + Split(s[i + 1..])
  }

  predicate AllDigits(s: string) {
    forall i :: 0 <= i < |s| ==> '0' <= s[i] <= '9'
  }

  function Value(s: string): nat
    requires AllDigits(s)
  {
    if s == "" then 0 else 10 * Value(s[..|s| - 1]) + ((s[|s| - 1] as int) - ('0' as int))
  }

  /** A sign cannot get here: the text was cut at the first plus and minus before. */
  function Atoi(s: string): Option<nat> {
    if s != "" && AllDigits(s) && Value(s) <= MAX_INT then Some(Value(s)) else None
  }

  function ParsePart(part: string): Option<nat> {
    Atoi(Trim(part))
  }

  function ParseParts(parts: seq<string>): Option<seq<nat>> {
    if parts == [] then Some([])
    else match (ParseParts(parts[..|parts| - 1]), ParsePart(parts[|parts| - 1]))
         case (Some(numbers), Some(n)) => Some(numbers + [n])
         case _ => None
  }

  function WithoutV(version: string): string {
    if HasPrefix(version, "v") then version[1..] else version
  }

  function Parse(raw: string): Option<Version> {
    var version := Trim(raw);
    if version == "" then None
    else ParseBare(WithoutV(version))
  }

  /** The part of it that is left when the "v" is gone: a build is cut off, then a prerelease. */
  function ParseBare(bare: string): Option<Version> {
    var core := bare[..IndexOf(bare, '+')];
    var dash := IndexOf(core, '-');
    match ParseParts(Split(core[..dash]))
    case None => None
    case Some(numbers) => Some(Version(numbers, if dash < |core| then core[dash + 1..] else ""))
  }

  lemma {:induction false} PartFails(parts: seq<string>, i: nat)
    requires i < |parts| && ParsePart(parts[i]).None?
    ensures ParseParts(parts).None?
  {
    if i < |parts| - 1 {
      PartFails(parts[..|parts| - 1], i);
    }
  }

  method ParseReleaseVersion(raw: string) returns (r: Option<Version>)
    ensures r == Parse(raw)
  {
    var version := Trim(raw);
    if version == "" {
      return None;
    }
    version := WithoutV(version);
    version := version[..IndexOf(version, '+')];
    var prerelease := "";
    var idx := IndexOf(version, '-');
    if idx < |version| {
      prerelease := version[idx + 1..];
      version := version[..idx];
    } else {
      assert version[..idx] == version;
    }
    var parts := Split(version);
    var numbers := [];
    for i := 0 to |parts|
      invariant ParseParts(parts[..i]) == Some(numbers)
    {
      assert parts[..i + 1][..i] == parts[..i];
      var n := ParsePart(parts[i]);
      if n.None? {
        PartFails(parts, i);
        return None;
      }
      numbers := numbers + [n.value];
    }
    assert parts[..|parts|] == parts;
    return Some(Version(numbers, prerelease));
  }

  // --- printing and parsing ---

  function Digits(n: nat): (s: string)
    ensures s != "" && AllDigits(s) && Value(s) == n
  {
    var last := ('0' as int + n % 10) as char;
    if n < 10 then [last] else Digits(n / 10) + [last]
  }

  function Dotted(numbers: seq<nat>): string
    requires numbers != []
  {
    if |numbers| == 1 then Digits(numbers[0]) else Digits(numbers[0]) + ['.'] + Dotted(numbers[1..])
  }

  function Printed(numbers: seq<nat>): seq<string> {
    if numbers == [] then [] else [Digits(numbers[0])] + Printed(numbers[1..])
  }

  lemma {:induction false} IndexOfFirst(before: string, c: char, after: string)
    requires c !in before
    ensures IndexOf(before, c) == |before| && IndexOf(before + [c] + after, c) == |before|
  {
    if before != "" {
      IndexOfFirst(before[1..], c, after);
      assert (before + [c] + after)[1..] == before[1..] + [c] + after;
    }
  }

  lemma {:induction false} DottedIsPlain(numbers: seq<nat>, c: char)
    requires numbers != [] && !('0' <= c <= '9') && c != '.'
    ensures c !in Dotted(numbers)
  {
    if |numbers| > 1 {
      DottedIsPlain(numbers[1..], c);
    }
  }

  lemma {:induction false} SplitDotted(numbers: seq<nat>)
    requires numbers != []
    ensures Split(Dotted(numbers)) == Printed(numbers)
  {
    var first := Digits(numbers[0]);
    if |numbers| == 1 {
      IndexOfFirst(first, '.', "");
    } else {
      var rest := Dotted(numbers[1..]);
      IndexOfFirst(first, '.', rest);
      SplitDotted(numbers[1..]);
      var all := first + ['.'] + rest;
      assert all[..|first|] == first && all[|first| + 1..] == rest;
    }
  }

  lemma PartParses(n: nat)
    requires n <= MAX_INT
    ensures ParsePart(Digits(n)) == Some(n)
  {
    TrimFixesTrimmed(Digits(n));
  }

  lemma {:induction false} PartsParse(numbers: seq<nat>)
    requires forall i :: 0 <= i < |numbers| ==> numbers[i] <= MAX_INT
    ensures ParseParts(Printed(numbers)) == Some(numbers)
  {
    if numbers != [] {
      var before, last := numbers[..|numbers| - 1], numbers[|numbers| - 1];
      EndsInLast(numbers);
      PartsParse(before);
      PartParses(last);
      PrintedLast(numbers);
      OnePartMore(Printed(before), before, Digits(last), last);
    }
  }

  lemma OnePartMore(parts: seq<string>, numbers: seq<nat>, part: string, n: nat)
    requires ParseParts(parts) == Some(numbers) && ParsePart(part) == Some(n)
    ensures ParseParts(parts + [part]) == Some(numbers + [n])
  {
    assert (parts + [part])[..|parts|] == parts;
  }

  lemma {:induction false} PrintedLast(numbers: seq<nat>)
    requires numbers != []
    ensures Printed(numbers) == Printed(numbers[..|numbers| - 1]) + [Digits(numbers[|numbers| - 1])]
    ensures |Printed(numbers)| == |numbers|
  {
    if |numbers| > 1 {
      PrintedLast(numbers[1..]);
      assert numbers[1..][..|numbers| - 2] == numbers[..|numbers| - 1][1..];
    }
  }

  /** The core of a version as it is usually written. */
  function Core(v: Version): string
    requires v.numbers != []
  {
    Dotted(v.numbers) + if v.prerelease == "" then "" else ['-'] + v.prerelease
  }

  /** The first dash of a core separates the numbers from the prerelease. */
  lemma CoreIsCut(v: Version)
    requires v.numbers != []
    ensures var core, dash := Core(v), IndexOf(Core(v), '-');
            && core[..dash] == Dotted(v.numbers)
            && v.prerelease == if dash < |core| then core[dash + 1..] else ""
  {
    var dotted := Dotted(v.numbers);
    DottedIsPlain(v.numbers, '-');
    IndexOfFirst(dotted, '-', v.prerelease);
    if v.prerelease == "" {
      assert Core(v) == dotted;
    } else {
      assert Core(v) == dotted + ['-'] + v.prerelease;
    }
  }

  lemma CoreParses(v: Version)
    requires v.numbers != [] && forall i :: 0 <= i < |v.numbers| ==> v.numbers[i] <= MAX_INT
    ensures var core := Core(v);
            var dash := IndexOf(core, '-');
            && ParseParts(Split(core[..dash])) == Some(v.numbers)
            && v.prerelease == if dash < |core| then core[dash + 1..] else ""
  {
    CoreIsCut(v);
    SplitDotted(v.numbers);
    PartsParse(v.numbers);
  }

  function Build(build: Option<string>): string {
    match build case None => "" case Some(b) => ['+'] + b
  }

  lemma BareParses(v: Version, build: Option<string>)
    requires v.numbers != [] && (forall i :: 0 <= i < |v.numbers| ==> v.numbers[i] <= MAX_INT) && '+' !in v.prerelease
    ensures ParseBare(Core(v) + Build(build)) == Some(v)
  {
    DottedIsPlain(v.numbers, '+');
    BuildIsCut(Core(v), build);
    CoreParses(v);
  }

  lemma BuildIsCut(core: string, build: Option<string>)
    requires '+' !in core
    ensures var bare := core + Build(build); bare[..IndexOf(bare, '+')] == core
  {
    match build
    case None =>
      IndexOfFirst(core, '+', "");
      assert core + Build(build) == core;
    case Some(b) =>
      IndexOfFirst(core, '+', b);
      assert core + Build(build) == core + ['+'] + b;
  }

  function Written(v: Version, withV: bool, build: Option<string>): string
    requires v.numbers != []
  {
    (if withV then "v" else "") + (Core(v) + Build(build))
  }

  /** A version that is written out parses back, with or without a "v" in front
      and a build behind, which do not count. */
  lemma WrittenVersionParses(v: Version, withV: bool, build: Option<string>)
    requires v.numbers != [] && (forall i :: 0 <= i < |v.numbers| ==> v.numbers[i] <= MAX_INT) && '+' !in v.prerelease
    requires Trimmed(Written(v, withV, build))
    ensures Parse(Written(v, withV, build)) == Some(v)
  {
    var text, bare := Written(v, withV, build), Core(v) + Build(build);
    BareParses(v, build);
    TrimFixesTrimmed(text);
    FirstIsDigit(v, build);
    assert WithoutV(text) == bare;
  }

  lemma FirstIsDigit(v: Version, build: Option<string>)
    requires v.numbers != []
    ensures var bare := Core(v) + Build(build); bare != "" && '0' <= bare[0] <= '9'
  {
    var first := Digits(v.numbers[0]);
    assert Dotted(v.numbers)[0] == first[0];
    assert Core(v)[0] == Dotted(v.numbers)[0];
  }

  // --- the order ---

  /** A version has as many zeros behind its numbers as one likes. */
  function Part(numbers: seq<nat>, i: nat): nat {
    if i < |numbers| then numbers[i] else 0
  }

  ghost predicate SameNumbers(a: seq<nat>, b: seq<nat>) {
    forall i: nat :: Part(a, i) == Part(b, i)
  }

  ghost predicate DiffersFirstAt(a: seq<nat>, b: seq<nat>, i: nat) {
    Part(a, i) < Part(b, i) && forall j: nat :: j < i ==> Part(a, j) == Part(b, j)
  }

  ghost predicate NumbersLess(a: seq<nat>, b: seq<nat>) {
    exists i: nat :: DiffersFirstAt(a, b, i)
  }

  /** A release comes after its prereleases. */
  predicate PrereleaseLess(a: string, b: string) {
    a != b && (b == "" || (a != "" && StringLess(a, b)))
  }

  ghost predicate Below(a: Version, b: Version) {
    NumbersLess(a.numbers, b.numbers) || (SameNumbers(a.numbers, b.numbers) && PrereleaseLess(a.prerelease, b.prerelease))
  }

  ghost predicate Same(a: Version, b: Version) {
    SameNumbers(a.numbers, b.numbers) && a.prerelease == b.prerelease
  }

  method CompareReleaseVersions(current: string, latest: string) returns (r: Option<int>)
    ensures r.None? <==> Parse(current).None? || Parse(latest).None?
    ensures r.Some? ==>
              var a, b := Parse(current).value, Parse(latest).value;
              && (r.value == -1 <==> Below(a, b))
              && (r.value == 0 <==> Same(a, b))
              && (r.value == 1 <==> Below(b, a))
  {
    var x := ParseReleaseVersion(current);
    if x.None? {
      return None;
    }
    var y := ParseReleaseVersion(latest);
    if y.None? {
      return None;
    }
    var cmp := CompareParsed(x.value, y.value);
    return Some(cmp);
  }

  method CompareParsed(a: Version, b: Version) returns (r: int)
    ensures -1 <= r <= 1
    ensures r == -1 <==> Below(a, b)
    ensures r == 0 <==> Same(a, b)
    ensures r == 1 <==> Below(b, a)
  {
    OneOfThree(a, b);
    var maxLen := if |b.numbers| > |a.numbers| then |b.numbers| else |a.numbers|;
    for i := 0 to maxLen
      invariant forall j: nat :: j < i ==> Part(a.numbers, j) == Part(b.numbers, j)
    {
      var currentPart, latestPart := Part(a.numbers, i), Part(b.numbers, i);
      if currentPart < latestPart {
        assert DiffersFirstAt(a.numbers, b.numbers, i);
        return -1;
      }
      if currentPart > latestPart {
        assert DiffersFirstAt(b.numbers, a.numbers, i);
        return 1;
      }
    }
    assert SameNumbers(a.numbers, b.numbers);
    if a.prerelease == b.prerelease {
      return 0;
    } else if a.prerelease == "" {
      return 1;
    } else if b.prerelease == "" {
      return -1;
    } else if StringLess(a.prerelease, b.prerelease) {
      return -1;
    } else if StringLess(b.prerelease, a.prerelease) {
      return 1;
    } else {
      StringLessIsTotal(a.prerelease, b.prerelease);
      return 0;
    }
  }

  lemma NotBothLess(a: seq<nat>, b: seq<nat>)
    requires NumbersLess(a, b)
    ensures !NumbersLess(b, a) && !SameNumbers(a, b) && !SameNumbers(b, a)
  {
    var i: nat :| DiffersFirstAt(a, b, i);
    forall j: nat
      ensures !DiffersFirstAt(b, a, j)
    {
      assert j < i ==> Part(a, j) == Part(b, j);
      assert j > i ==> Part(b, i) != Part(a, i);
    }
  }

  /** The first index below `n` where the two differ, or `n`. */
  function FirstDifference(a: seq<nat>, b: seq<nat>, n: nat): (i: nat)
    ensures i <= n && (forall j: nat :: j < i ==> Part(a, j) == Part(b, j))
    ensures i < n ==> Part(a, i) != Part(b, i)
  {
    if n == 0 then 0
    else
      var i := FirstDifference(a, b, n - 1);
      if i == n - 1 && Part(a, i) == Part(b, i) then n else i
  }

  lemma NumbersAreComparable(a: seq<nat>, b: seq<nat>)
    ensures NumbersLess(a, b) || SameNumbers(a, b) || NumbersLess(b, a)
  {
    var n := |a| + |b|;
    var i := FirstDifference(a, b, n);
    if i < n {
      assert DiffersFirstAt(a, b, i) || DiffersFirstAt(b, a, i);
    }
  }

  /** Of two versions exactly one is below the other, or they are the same. */
  lemma OneOfThree(a: Version, b: Version)
    ensures Below(a, b) || Same(a, b) || Below(b, a)
    ensures !(Below(a, b) && Same(a, b)) && !(Below(a, b) && Below(b, a)) && !(Same(a, b) && Below(b, a))
  {
    NumbersAreComparable(a.numbers, b.numbers);
    if NumbersLess(a.numbers, b.numbers) {
      NotBothLess(a.numbers, b.numbers);
    } else if NumbersLess(b.numbers, a.numbers) {
      NotBothLess(b.numbers, a.numbers);
    } else {
      StringLessIsTotal(a.prerelease, b.prerelease);
    }
  }

  lemma NumbersLessIsTransitive(a: seq<nat>, b: seq<nat>, c: seq<nat>)
    requires (NumbersLess(a, b) && (NumbersLess(b, c) || SameNumbers(b, c))) || (SameNumbers(a, b) && NumbersLess(b, c))
    ensures NumbersLess(a, c)
  {
    if SameNumbers(a, b) {
      var j: nat :| DiffersFirstAt(b, c, j);
      assert DiffersFirstAt(a, c, j);
    } else {
      var i: nat :| DiffersFirstAt(a, b, i);
      if SameNumbers(b, c) {
        assert DiffersFirstAt(a, c, i);
      } else {
        var j: nat :| DiffersFirstAt(b, c, j);
        var k := if i < j then i else j;
        assert DiffersFirstAt(a, c, k);
      }
    }
  }

  lemma PrereleaseLessIsTransitive(a: string, b: string, c: string)
    requires PrereleaseLess(a, b) && PrereleaseLess(b, c)
    ensures PrereleaseLess(a, c)
  {
    if c != "" {
      StringLessIsTransitive(a, b, c);
      StringLessIsTotal(a, c);
    }
  }

  lemma BelowIsTransitive(a: Version, b: Version, c: Version)
    requires (Below(a, b) && (Below(b, c) || Same(b, c))) || (Same(a, b) && Below(b, c))
    ensures Below(a, c)
  {
    if SameNumbers(a.numbers, b.numbers) && SameNumbers(b.numbers, c.numbers) {
      assert forall i: nat :: Part(a.numbers, i) == Part(b.numbers, i) == Part(c.numbers, i);
      if PrereleaseLess(a.prerelease, b.prerelease) && PrereleaseLess(b.prerelease, c.prerelease) {
        PrereleaseLessIsTransitive(a.prerelease, b.prerelease, c.prerelease);
      } else {
        NotLessThanItself(a, b, c);
      }
    } else {
      NumbersLessIsTransitive(a.numbers, b.numbers, c.numbers);
    }
  }

  lemma NotLessThanItself(a: Version, b: Version, c: Version)
    requires SameNumbers(a.numbers, b.numbers) && SameNumbers(b.numbers, c.numbers)
    ensures !NumbersLess(a.numbers, b.numbers) && !NumbersLess(b.numbers, c.numbers)
  {
    if NumbersLess(a.numbers, b.numbers) {
      NotBothLess(a.numbers, b.numbers);
    }
    if NumbersLess(b.numbers, c.numbers) {
      NotBothLess(b.numbers, c.numbers);
    }
  }

  // --- what the order says about versions as they are written ---

  /** A release is above its own prereleases, and these compare like words in a dictionary. */
  lemma PrereleasesComeFirst(numbers: seq<nat>, p: string, q: string)
    requires p != ""
    ensures Below(Version(numbers, p), Version(numbers, ""))
    ensures q != "" ==> (Below(Version(numbers, p), Version(numbers, q)) <==> exists i: nat :: LessAt(p, q, i))
  {
    NotLessThanItself(Version(numbers, p), Version(numbers, p), Version(numbers, p));
    StringLessIsLexicographic(p, q);
    StringLessIsTotal(p, p);
  }

  /** The first number that differs decides, whatever comes behind it. */
  lemma FirstNumberDecides(front: seq<nat>, x: nat, y: nat, a: seq<nat>, b: seq<nat>, p: string, q: string)
    requires x < y
    ensures Below(Version(front + [x] + a, p), Version(front + [y] + b, q))
  {
    assert DiffersFirstAt(front + [x] + a, front + [y] + b, |front|);
  }

  predicate Printable(v: Version) {
    v.numbers != [] && (forall i :: 0 <= i < |v.numbers| ==> v.numbers[i] <= 0x7fff_ffff_ffff_ffff) && '+' !in v.prerelease
  }

  /** An update goes from a prerelease to its release and never back. */
  lemma ReleaseReplacesPrerelease(numbers: seq<nat>, p: string, allowUnknownCurrent: bool)
    requires p != "" && Printable(Version(numbers, p))
    requires Trimmed(Written(Version(numbers, p), false, None)) && Trimmed(Written(Version(numbers, ""), false, None))
    ensures var pre, release := Written(Version(numbers, p), false, None), Written(Version(numbers, ""), false, None);
            ShouldInstall(pre, release, allowUnknownCurrent) && !ShouldInstall(release, pre, allowUnknownCurrent)
  {
    WrittenVersionParses(Version(numbers, p), false, None);
    WrittenVersionParses(Version(numbers, ""), false, None);
    PrereleasesComeFirst(numbers, p, "");
    OneOfThree(Version(numbers, p), Version(numbers, ""));
  }

  /** An update goes to the version whose first differing number is larger, and never back. */
  lemma LargerNumberReplaces(front: seq<nat>, x: nat, y: nat, a: seq<nat>, b: seq<nat>, p: string, q: string, allowUnknownCurrent: bool)
    requires x < y && Printable(Version(front + [x] + a, p)) && Printable(Version(front + [y] + b, q))
    requires Trimmed(Written(Version(front + [x] + a, p), false, None)) && Trimmed(Written(Version(front + [y] + b, q), false, None))
    ensures var lower, higher := Written(Version(front + [x] + a, p), false, None), Written(Version(front + [y] + b, q), false, None);
            ShouldInstall(lower, higher, allowUnknownCurrent) && !ShouldInstall(higher, lower, allowUnknownCurrent)
  {
    WrittenVersionParses(Version(front + [x] + a, p), false, None);
    WrittenVersionParses(Version(front + [y] + b, q), false, None);
    FirstNumberDecides(front, x, y, a, b, p, q);
    OneOfThree(Version(front + [x] + a, p), Version(front + [y] + b, q));
  }

  /** A part of a version is a number exactly if, up to white space around it, it is
      made of digits, and its value fits a 64-bit integer. */
  lemma PartIsNumberIff(part: string)
    ensures ParsePart(part).Some? <==>
              && Trim(part) != "" && (forall i :: 0 <= i < |Trim(part)| ==> '0' <= Trim(part)[i] <= '9')
              && Value(Trim(part)) <= 0x7fff_ffff_ffff_ffff
  {
  }

  // --- against the usual order on tuples ---

  function Pad(numbers: seq<nat>, n: nat): (r: seq<nat>)
    requires |numbers| <= n
    ensures |r| == n && forall i :: 0 <= i < n ==> r[i] == Part(numbers, i)
  {
    seq(n, i requires 0 <= i => Part(numbers, i))
  }

  /** Lexicographic order of tuples of one length. */
  predicate TupleLess(a: seq<nat>, b: seq<nat>)
    requires |a| == |b|
  {
    a != [] && (a[0] < b[0] || (a[0] == b[0] && TupleLess(a[1..], b[1..])))
  }

  ghost predicate TupleDiffers(a: seq<nat>, b: seq<nat>, i: nat)
    requires |a| == |b|
  {
    i < |a| && a[i] < b[i] && a[..i] == b[..i]
  }

  lemma {:induction false} TupleLessMeans(a: seq<nat>, b: seq<nat>)
    requires |a| == |b|
    ensures TupleLess(a, b) <==> exists i: nat :: TupleDiffers(a, b, i)
  {
    if a != [] {
      TupleLessMeans(a[1..], b[1..]);
      if a[0] == b[0] {
        forall i: nat
          ensures TupleDiffers(a[1..], b[1..], i) <==> TupleDiffers(a, b, i + 1)
        {
          assert i < |a| - 1 ==> a[..i + 1] == [a[0]] + a[1..][..i] && b[..i + 1] == [b[0]] + b[1..][..i];
          assert i < |a| - 1 ==> a[1..][..i] == a[..i + 1][1..] && b[1..][..i] == b[..i + 1][1..];
        }
        if i: nat :| TupleDiffers(a[1..], b[1..], i) {
          assert TupleDiffers(a, b, i + 1);
        }
        if i: nat :| TupleDiffers(a, b, i) {
          assert TupleDiffers(a[1..], b[1..], i - 1);
        }
      } else if a[0] < b[0] {
        assert TupleDiffers(a, b, 0);
      } else {
        assert forall i: nat :: i > 0 && i <= |a| ==> a[..i][0] != b[..i][0];
      }
    }
  }

  /** Comparing the numbers is comparing them padded with zeros to any common length. */
  lemma NumbersLessIsPadded(a: seq<nat>, b: seq<nat>, n: nat)
    requires |a| <= n && |b| <= n
    ensures NumbersLess(a, b) <==> TupleLess(Pad(a, n), Pad(b, n))
  {
    TupleLessMeans(Pad(a, n), Pad(b, n));
    forall i: nat
      ensures DiffersFirstAt(a, b, i) <==> TupleDiffers(Pad(a, n), Pad(b, n), i)
    {
      if TupleDiffers(Pad(a, n), Pad(b, n), i) {
        assert forall j: nat :: j < i ==> Pad(a, n)[..i][j] == Pad(b, n)[..i][j];
      }
    }
  }

  // --- which release to install ---

  ghost predicate ShouldInstall(current: string, latest: string, allowUnknownCurrent: bool) {
    if Parse(current).None? || Parse(latest).None? then allowUnknownCurrent && Trim(current) != Trim(latest)
    else Below(Parse(current).value, Parse(latest).value)
  }

  method ShouldInstallLatestRelease(current: string, latest: string, allowUnknownCurrent: bool) returns (r: bool)
    ensures r <==> ShouldInstall(current, latest, allowUnknownCurrent)
  {
    var cmp := CompareReleaseVersions(current, latest);
    if cmp.None? {
      if !allowUnknownCurrent {
        return false;
      }
      return Trim(current) != Trim(latest);
    }
    if Parse(current).Some? && Parse(latest).Some? {
      OneOfThree(Parse(current).value, Parse(latest).value);
    }
    return cmp.value < 0;
  }

  /** Each release of a chain is one that should be installed over the one before. */
  ghost predicate IsUpdateChain(versions: seq<string>, allowUnknownCurrent: bool) {
    forall i :: 0 <= i < |versions| - 1 ==> ShouldInstall(versions[i], versions[i + 1], allowUnknownCurrent)
  }

  ghost predicate AllKnown(versions: seq<string>) {
    forall i :: 0 <= i < |versions| ==> Parse(versions[i]).Some?
  }

  lemma {:induction false} ChainsGoUp(versions: seq<Version>, i: nat, j: nat)
    requires i < j < |versions|
    requires forall k :: 0 <= k < |versions| - 1 ==> Below(versions[k], versions[k + 1])
    ensures Below(versions[i], versions[j])
    decreases j
  {
    if i + 1 < j {
      ChainsGoUp(versions, i, j - 1);
      assert Below(versions[j - 1], versions[j - 1 + 1]);
      BelowIsTransitive(versions[i], versions[j - 1], versions[j]);
    }
  }

  /** Among known versions no chain of updates comes back to a version it passed,
      nor to one that compares the same; without the allowance for unknown
      versions every chain of at least two is among known ones. */
  lemma UpdatesNeverReturn(versions: seq<string>, allowUnknownCurrent: bool, i: nat, j: nat)
    requires IsUpdateChain(versions, allowUnknownCurrent) && i < j < |versions|
    requires !allowUnknownCurrent || AllKnown(versions)
    ensures AllKnown(versions)
    ensures !Same(Parse(versions[i]).value, Parse(versions[j]).value)
    ensures !ShouldInstall(versions[j], versions[i], allowUnknownCurrent)
  {
    forall k | 0 <= k < |versions|
      ensures Parse(versions[k]).Some?
    {
      if !allowUnknownCurrent {
        assert k + 1 < |versions| ==> ShouldInstall(versions[k], versions[k + 1], allowUnknownCurrent);
        assert k > 0 ==> ShouldInstall(versions[k - 1], versions[k - 1 + 1], allowUnknownCurrent);
      }
    }
    var parsed := seq(|versions|, k requires 0 <= k < |versions| => Parse(versions[k]).value);
    forall k | 0 <= k < |parsed| - 1
      ensures Below(parsed[k], parsed[k + 1])
    {
      assert ShouldInstall(versions[k], versions[k + 1], allowUnknownCurrent);
    }
    ChainsGoUp(parsed, i, j);
    OneOfThree(Parse(versions[i]).value, Parse(versions[j]).value);
  }

  /** With the allowance, two versions are each installed over the other exactly
      when one of them is unknown and they are spelt differently. */
  lemma UnknownVersionsAlternate(a: string, b: string)
    ensures ShouldInstall(a, b, true) && ShouldInstall(b, a, true)
       <==> (Parse(a).None? || Parse(b).None?) && Trim(a) != Trim(b)
  {
    if Parse(a).Some? && Parse(b).Some? {
      OneOfThree(Parse(a).value, Parse(b).value);
    }
  }
}
