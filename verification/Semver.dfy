/** Versions and their precedence, section 11 of Semantic Versioning 2.0.0
    (scripts/release/channel-manifest.py). */
module Semver {
  import opened Decimal
  import opened Text

  datatype Version = Version(major: nat, minor: nat, patch: nat, pre: seq<string>)

  predicate IsMark(c: char) {
    IsDigit(c) || 'a' <= c <= 'z' || 'A' <= c <= 'Z' || c == '-'
  }

  predicate BuildIdentifier(s: string) {
    s != [] && forall c | c in s :: IsMark(c)
  }

  /** A number without leading zeros, or marks that are not all digits. */
  predicate PreIdentifier(s: string) {
    BuildIdentifier(s) && (AllDigits(s) ==> Canonical(s))
  }

  predicate Identifiers(pre: seq<string>) {
    forall id | id in pre :: PreIdentifier(id)
  }

  predicate BuildIdentifiers(build: seq<string>) {
    forall id | id in build :: BuildIdentifier(id)
  }

  function ParseNumbers(text: string, pre: seq<string>): (v: Option<Version>) {
    var parts := SplitAll(text, '.');
    if |parts| == 3 && Canonical(parts[0]) && Canonical(parts[1]) && Canonical(parts[2])
    then Some(Version(Value(parts[0]), Value(parts[1]), Value(parts[2]), pre))
    else None
  }

  function ParseCore(text: string): (v: Option<Version>) {
    match SplitOnce(text, '-')
    case Unsplit => ParseNumbers(text, [])
    case Split(numbers, pre) =>
      var ids := SplitAll(pre, '.');
      if Identifiers(ids) then ParseNumbers(numbers, ids) else None
  }

  function Parse(text: string): (v: Option<Version>) {
    match SplitOnce(text, '+')
    case Unsplit => ParseCore(text)
    case Split(core, build) => if BuildIdentifiers(SplitAll(build, '.')) then ParseCore(core) else None
  }

  // ---- the grammar, as what is printed ----

  function Numbers(v: Version): (text: string) {
    Join([ToString(v.major), ToString(v.minor), ToString(v.patch)], '.')
  }

  function Core(v: Version): (text: string) {
    if v.pre == [] then Numbers(v) else Numbers(v) + ['-'] + Join(v.pre, '.')
  }

  function Render(v: Version, build: seq<string>): (text: string) {
    if build == [] then Core(v) else Core(v) + ['+'] + Join(build, '.')
  }

  lemma {:induction false} NumbersHold(v: Version, c: char)
    requires c != '.' && !IsDigit(c)
    ensures c !in Numbers(v)
  {
    PrintThenRead(v.major);
    PrintThenRead(v.minor);
    PrintThenRead(v.patch);
    JoinHolds([ToString(v.major), ToString(v.minor), ToString(v.patch)], '.', c);
  }

  lemma {:induction false} NumbersAreRead(v: Version)
    ensures ParseNumbers(Numbers(v), v.pre) == Some(v)
  {
    PrintThenRead(v.major);
    PrintThenRead(v.minor);
    PrintThenRead(v.patch);
    JoinThenSplit([ToString(v.major), ToString(v.minor), ToString(v.patch)], '.');
  }

  lemma {:induction false} CoreIsRead(v: Version)
    requires Identifiers(v.pre)
    ensures ParseCore(Core(v)) == Some(v) && '+' !in Core(v)
  {
    NumbersHold(v, '-');
    NumbersHold(v, '+');
    NumbersAreRead(v);
    if v.pre == [] {
      NothingToSplit(Numbers(v), '-');
    } else {
      SplitOfJoined(Numbers(v), Join(v.pre, '.'), '-');
      JoinThenSplit(v.pre, '.');
      JoinHolds(v.pre, '.', '+');
    }
  }

  lemma {:induction false} RenderThenParse(v: Version, build: seq<string>)
    requires Identifiers(v.pre) && BuildIdentifiers(build)
    ensures Parse(Render(v, build)) == Some(v)
  {
    CoreIsRead(v);
    if build == [] {
      NothingToSplit(Core(v), '+');
    } else {
      SplitOfJoined(Core(v), Join(build, '.'), '+');
      JoinThenSplit(build, '.');
    }
  }

  lemma {:induction false} NumbersArePrinted(text: string, pre: seq<string>)
    requires ParseNumbers(text, pre).Some?
    ensures Numbers(ParseNumbers(text, pre).value) == text
    ensures ParseNumbers(text, pre).value.pre == pre
  {
    var parts := SplitAll(text, '.');
    SplitThenJoin(text, '.');
    ReadThenPrint(parts[0]);
    ReadThenPrint(parts[1]);
    ReadThenPrint(parts[2]);
    assert parts == [parts[0], parts[1], parts[2]];
  }

  lemma {:induction false} CoreIsPrinted(text: string)
    requires ParseCore(text).Some?
    ensures Core(ParseCore(text).value) == text && Identifiers(ParseCore(text).value.pre)
  {
    SplitOnceSplits(text, '-');
    match SplitOnce(text, '-')
    case Unsplit => NumbersArePrinted(text, []);
    case Split(numbers, pre) =>
      SplitThenJoin(pre, '.');
      NumbersArePrinted(numbers, SplitAll(pre, '.'));
  }

  lemma {:induction false} ParseThenRender(text: string)
    requires Parse(text).Some?
    ensures var v := Parse(text).value;
            Identifiers(v.pre) && exists build :: BuildIdentifiers(build) && Render(v, build) == text
  {
    SplitOnceSplits(text, '+');
    match SplitOnce(text, '+')
    case Unsplit =>
      CoreIsPrinted(text);
      assert BuildIdentifiers([]) && Render(Parse(text).value, []) == text;
    case Split(core, tail) =>
      CoreIsPrinted(core);
      SplitThenJoin(tail, '.');
      var build := SplitAll(tail, '.');
      assert BuildIdentifiers(build) && Render(Parse(text).value, build) == text;
  }

  /** A text is accepted as a version exactly when it is that version printed,
      with some build metadata or none. */
  lemma {:induction false} ParsesIffPrinted(text: string, v: Version)
    ensures Parse(text) == Some(v) <==>
            Identifiers(v.pre) && exists build :: BuildIdentifiers(build) && Render(v, build) == text
  {
    if Parse(text) == Some(v) {
      ParseThenRender(text);
    } else if Identifiers(v.pre) {
      forall build | BuildIdentifiers(build) ensures Render(v, build) != text {
        RenderThenParse(v, build);
      }
    }
  }

  // ---- precedence ----

  function Order(a: int, b: int): (sign: int) {
    if a < b then -1 else if a > b then 1 else 0
  }

  function TextOrder(x: string, y: string): (sign: int) {
    if x == [] || y == [] then Order(|x|, |y|)
    else if x[0] == y[0] then TextOrder(x[1..], y[1..])
    else Order(x[0] as int, y[0] as int)
  }

  /** Two identifiers that differ: a number before a word, numbers by value,
      words by their characters. */
  function IdentifierOrder(x: string, y: string): (sign: int) {
    if x == y then 0
    else if AllDigits(x) && AllDigits(y) then if Value(x) < Value(y) then -1 else 1
    else if AllDigits(x) != AllDigits(y) then if AllDigits(x) then -1 else 1
    else if TextOrder(x, y) < 0 then -1 else 1
  }

  /** The first pair of identifiers that differ decides, then the count of them. */
  function ListOrder(x: seq<string>, y: seq<string>): (sign: int) {
    if x == [] || y == [] then Order(|x|, |y|)
    else if x[0] == y[0] then ListOrder(x[1..], y[1..])
    else IdentifierOrder(x[0], y[0])
  }

  function PreOrder(x: seq<string>, y: seq<string>): (sign: int) {
    if x == [] || y == [] then (if x == [] then 1 else 0) - (if y == [] then 1 else 0)
    else ListOrder(x, y)
  }

  function Precedence(v: Version, w: Version): (sign: int) {
    if v.major != w.major then Order(v.major, w.major)
    else if v.minor != w.minor then Order(v.minor, w.minor)
    else if v.patch != w.patch then Order(v.patch, w.patch)
    else PreOrder(v.pre, w.pre)
  }

  function Compare(a: string, b: string): (sign: Option<int>) {
    var v, w := Parse(a), Parse(b);
    if v.None? || w.None? then None else Some(Precedence(v.value, w.value))
  }

  lemma {:induction false} TextOrderTotal(x: string, y: string)
    ensures -1 <= TextOrder(x, y) <= 1
    ensures TextOrder(y, x) == -TextOrder(x, y)
    ensures TextOrder(x, y) == 0 <==> x == y
  {
    if x != [] && y != [] && x[0] == y[0] {
      TextOrderTotal(x[1..], y[1..]);
      assert x == [x[0]] + x[1..] && y == [y[0]] + y[1..];
    }
  }

  lemma {:induction false} TextOrderTransitive(x: string, y: string, z: string)
    requires TextOrder(x, y) <= 0 && TextOrder(y, z) <= 0
    ensures TextOrder(x, z) <= 0
  {
    if x != [] && y != [] && z != [] && x[0] == y[0] == z[0] {
      TextOrderTransitive(x[1..], y[1..], z[1..]);
    }
  }

  lemma {:induction false} NumeralsDiffer(x: string, y: string)
    requires Canonical(x) && Canonical(y) && Value(x) == Value(y)
    ensures x == y
  {
    ReadThenPrint(x);
    ReadThenPrint(y);
  }

  lemma {:induction false} IdentifierOrderTotal(x: string, y: string)
    requires PreIdentifier(x) && PreIdentifier(y)
    ensures -1 <= IdentifierOrder(x, y) <= 1
    ensures IdentifierOrder(y, x) == -IdentifierOrder(x, y)
    ensures IdentifierOrder(x, y) == 0 <==> x == y
  {
    TextOrderTotal(x, y);
    if AllDigits(x) && AllDigits(y) && Value(x) == Value(y) {
      NumeralsDiffer(x, y);
    }
  }

  lemma {:induction false} IdentifierOrderTransitive(x: string, y: string, z: string)
    requires PreIdentifier(x) && PreIdentifier(y) && PreIdentifier(z)
    requires IdentifierOrder(x, y) <= 0 && IdentifierOrder(y, z) <= 0
    ensures IdentifierOrder(x, z) <= 0
  {
    if x != y && y != z && x != z {
      if AllDigits(x) && AllDigits(z) {
        if Value(x) == Value(y) { NumeralsDiffer(x, y); }
      } else if !AllDigits(x) && !AllDigits(y) && !AllDigits(z) {
        TextOrderTotal(x, z);
        TextOrderTotal(x, y);
        TextOrderTotal(y, z);
        TextOrderTransitive(x, y, z);
      }
    }
  }

  lemma {:induction false} ListOrderTotal(x: seq<string>, y: seq<string>)
    requires Identifiers(x) && Identifiers(y)
    ensures -1 <= ListOrder(x, y) <= 1
    ensures ListOrder(y, x) == -ListOrder(x, y)
    ensures ListOrder(x, y) == 0 <==> x == y
  {
    if x != [] && y != [] {
      if x[0] == y[0] {
        ListOrderTotal(x[1..], y[1..]);
        assert x == [x[0]] + x[1..] && y == [y[0]] + y[1..];
      } else {
        IdentifierOrderTotal(x[0], y[0]);
      }
    }
  }

  lemma {:induction false} ListOrderTransitive(x: seq<string>, y: seq<string>, z: seq<string>)
    requires Identifiers(x) && Identifiers(y) && Identifiers(z)
    requires ListOrder(x, y) <= 0 && ListOrder(y, z) <= 0
    ensures ListOrder(x, z) <= 0
  {
    if x != [] && y != [] && z != [] {
      if x[0] == y[0] == z[0] {
        ListOrderTransitive(x[1..], y[1..], z[1..]);
      } else if x[0] != y[0] && y[0] != z[0] {
        IdentifierOrderTotal(x[0], y[0]);
        IdentifierOrderTotal(x[0], z[0]);
        IdentifierOrderTransitive(x[0], y[0], z[0]);
        ListHeadsDiffer(x, y, z);
      }
    }
  }

  /** Going down twice never comes back to where it started. */
  lemma {:induction false} ListHeadsDiffer(x: seq<string>, y: seq<string>, z: seq<string>)
    requires x != [] && y != [] && z != [] && Identifiers(x) && Identifiers(y) && Identifiers(z)
    requires x[0] != y[0] && IdentifierOrder(x[0], y[0]) <= 0 && IdentifierOrder(y[0], z[0]) <= 0
    ensures x[0] != z[0]
  {
    IdentifierOrderTotal(x[0], y[0]);
  }

  lemma {:induction false} PrecedenceIsTotal(v: Version, w: Version)
    requires Identifiers(v.pre) && Identifiers(w.pre)
    ensures -1 <= Precedence(v, w) <= 1
    ensures Precedence(w, v) == -Precedence(v, w)
    ensures Precedence(v, w) == 0 <==> v == w
  {
    if v.pre != [] && w.pre != [] {
      ListOrderTotal(v.pre, w.pre);
    }
  }

  lemma {:induction false} PrecedenceIsTransitive(u: Version, v: Version, w: Version)
    requires Identifiers(u.pre) && Identifiers(v.pre) && Identifiers(w.pre)
    requires Precedence(u, v) <= 0 && Precedence(v, w) <= 0
    ensures Precedence(u, w) <= 0
  {
    if u.pre != [] && v.pre != [] && w.pre != [] && PreOrder(u.pre, v.pre) <= 0 && PreOrder(v.pre, w.pre) <= 0 {
      ListOrderTransitive(u.pre, v.pre, w.pre);
    }
  }

  predicate IsVersion(text: string) {
    Parse(text).Some?
  }

  /** Precedence over texts: defined on versions alone, total, antisymmetric in
      sign, and zero exactly on versions that agree but for build metadata. */
  lemma {:induction false} CompareIsTotal(a: string, b: string)
    ensures Compare(a, b).Some? <==> IsVersion(a) && IsVersion(b)
    ensures IsVersion(a) && IsVersion(b) ==>
              && -1 <= Compare(a, b).value <= 1
              && Compare(b, a) == Some(-Compare(a, b).value)
              && (Compare(a, b) == Some(0) <==> Parse(a) == Parse(b))
  {
    if IsVersion(a) && IsVersion(b) {
      ParseThenRender(a);
      ParseThenRender(b);
      PrecedenceIsTotal(Parse(a).value, Parse(b).value);
    }
  }

  lemma {:induction false} CompareIsTransitive(a: string, b: string, c: string)
    requires IsVersion(a) && IsVersion(b) && IsVersion(c)
    requires Compare(a, b).value <= 0 && Compare(b, c).value <= 0
    ensures Compare(a, c).value <= 0
  {
    ParseThenRender(a);
    ParseThenRender(b);
    ParseThenRender(c);
    PrecedenceIsTransitive(Parse(a).value, Parse(b).value, Parse(c).value);
  }

  /** Build metadata changes no comparison. */
  lemma {:induction false} BuildIsIgnored(v: Version, build: seq<string>, other: seq<string>, b: string)
    requires Identifiers(v.pre) && BuildIdentifiers(build) && BuildIdentifiers(other)
    ensures Compare(Render(v, build), b) == Compare(Render(v, other), b)
    ensures Compare(b, Render(v, build)) == Compare(b, Render(v, other))
  {
    RenderThenParse(v, build);
    RenderThenParse(v, other);
  }

  // ---- the rules of section 11, stated apart from the comparison ----

  /** The first character that differs is smaller, or there is none and `x` is the shorter. */
  ghost predicate TextBefore(x: string, y: string) {
    exists k | 0 <= k <= |x| && k < |y| :: x[..k] == y[..k] && (k < |x| ==> x[k] < y[k])
  }

  /** Numbers by value, words in ASCII order, and any number before any word. */
  ghost predicate IdentifierBefore(x: string, y: string) {
    if AllDigits(x) then AllDigits(y) ==> Value(x) < Value(y)
    else !AllDigits(y) && TextBefore(x, y)
  }

  /** The first identifier that differs sorts before, or there is none and `x` has fewer. */
  ghost predicate ListBefore(x: seq<string>, y: seq<string>) {
    exists k | 0 <= k <= |x| && k < |y| :: x[..k] == y[..k] && (k < |x| ==> IdentifierBefore(x[k], y[k]))
  }

  /** Major, then minor, then patch; then a pre-release before its release. */
  ghost predicate Before(v: Version, w: Version) {
    || v.major < w.major
    || (v.major == w.major && v.minor < w.minor)
    || (v.major == w.major && v.minor == w.minor && v.patch < w.patch)
    || (v.major == w.major && v.minor == w.minor && v.patch == w.patch
        && v.pre != [] && (w.pre == [] || ListBefore(v.pre, w.pre)))
  }

  lemma {:induction false} TextOrderMeans(x: string, y: string)
    ensures TextOrder(x, y) < 0 <==> TextBefore(x, y)
  {
    if x == [] || y == [] {
      assert y != [] ==> x[..0] == y[..0];
    } else if x[0] == y[0] {
      TextOrderMeans(x[1..], y[1..]);
      if TextBefore(x[1..], y[1..]) {
        var k :| 0 <= k <= |x[1..]| && k < |y[1..]| && x[1..][..k] == y[1..][..k] && (k < |x[1..]| ==> x[1..][k] < y[1..][k]);
        assert x[..k + 1] == [x[0]] + x[1..][..k] && y[..k + 1] == [y[0]] + y[1..][..k];
      }
      if TextBefore(x, y) {
        var k :| 0 <= k <= |x| && k < |y| && x[..k] == y[..k] && (k < |x| ==> x[k] < y[k]);
        assert x[1..][..k - 1] == x[..k][1..] && y[1..][..k - 1] == y[..k][1..];
      }
    } else {
      assert x[..0] == y[..0];
      assert forall k | 0 < k <= |x| && k < |y| :: x[..k][0] == x[0] && y[..k][0] == y[0];
    }
  }

  lemma {:induction false} IdentifierOrderMeans(x: string, y: string)
    requires PreIdentifier(x) && PreIdentifier(y)
    ensures IdentifierOrder(x, y) < 0 <==> IdentifierBefore(x, y)
  {
    TextOrderMeans(x, y);
    TextOrderTotal(x, y);
    if AllDigits(x) && AllDigits(y) && Value(x) == Value(y) {
      NumeralsDiffer(x, y);
    }
  }

  lemma {:induction false} ListOrderMeans(x: seq<string>, y: seq<string>)
    requires Identifiers(x) && Identifiers(y)
    ensures ListOrder(x, y) < 0 <==> ListBefore(x, y)
  {
    if x == [] || y == [] {
      assert y != [] ==> x[..0] == y[..0];
    } else if x[0] == y[0] {
      ListOrderMeans(x[1..], y[1..]);
      ListBeforeOfTails(x, y);
    } else {
      IdentifierOrderMeans(x[0], y[0]);
      assert x[..0] == y[..0];
      assert forall k | 0 < k <= |x| && k < |y| :: x[..k][0] == x[0] && y[..k][0] == y[0];
    }
  }

  lemma {:induction false} NoIdentifierIsBeforeItself(x: string)
    requires PreIdentifier(x)
    ensures !IdentifierBefore(x, x)
  {
    IdentifierOrderMeans(x, x);
  }

  lemma {:induction false} ListBeforeOfTails(x: seq<string>, y: seq<string>)
    requires x != [] && y != [] && x[0] == y[0] && Identifiers(x) && Identifiers(y)
    ensures ListBefore(x, y) <==> ListBefore(x[1..], y[1..])
  {
    var p, q := x[1..], y[1..];
    NoIdentifierIsBeforeItself(x[0]);
    if ListBefore(p, q) {
      var k :| 0 <= k <= |p| && k < |q| && p[..k] == q[..k] && (k < |p| ==> IdentifierBefore(p[k], q[k]));
      assert x[..k + 1] == [x[0]] + p[..k] && y[..k + 1] == [y[0]] + q[..k];
    }
    if ListBefore(x, y) {
      var k :| 0 <= k <= |x| && k < |y| && x[..k] == y[..k] && (k < |x| ==> IdentifierBefore(x[k], y[k]));
      assert p[..k - 1] == x[..k][1..] && q[..k - 1] == y[..k][1..];
    }
  }

  /** A version compares lower exactly when the standard's rules put it before. */
  lemma {:induction false} ComparesAsTheStandardSays(a: string, b: string)
    requires IsVersion(a) && IsVersion(b)
    ensures Compare(a, b) == Some(-1) <==> Before(Parse(a).value, Parse(b).value)
  {
    var v, w := Parse(a).value, Parse(b).value;
    ParseThenRender(a);
    ParseThenRender(b);
    PrecedenceIsTotal(v, w);
    ListOrderMeans(v.pre, w.pre);
  }
}
