/** Trimming text and cutting it at a separator, as the standard libraries do. */
module Text {
  datatype Split = Unsplit | Split(head: string, tail: string)

  /** The characters with the White_Space property. */
  predicate IsBlank(c: char) {
    var n := c as int;
    || 0x9 <= n <= 0xD || n == 0x20 || n == 0x85 || n == 0xA0 || n == 0x1680
    || 0x2000 <= n <= 0x200A || n == 0x2028 || n == 0x2029 || n == 0x202F || n == 0x205F || n == 0x3000
  }

  function TrimStart(s: string): (t: string) {
    if s != [] && IsBlank(s[0]) then TrimStart(s[1..]) else s
  }

  function TrimEnd(s: string): (t: string) {
    if s != [] && IsBlank(s[|s| - 1]) then TrimEnd(s[..|s| - 1]) else s
  }

  function Trim(s: string): (t: string) {
    TrimEnd(TrimStart(s))
  }

  lemma {:induction false} TrimStartSettles(s: string)
    ensures TrimStart(s) == [] || !IsBlank(TrimStart(s)[0])
  {
    if s != [] && IsBlank(s[0]) {
      TrimStartSettles(s[1..]);
    }
  }

  lemma {:induction false} TrimEndSettles(s: string)
    ensures TrimEnd(s) <= s
    ensures TrimEnd(s) == [] || !IsBlank(TrimEnd(s)[|TrimEnd(s)| - 1])
  {
    if s != [] && IsBlank(s[|s| - 1]) {
      TrimEndSettles(s[..|s| - 1]);
    }
  }

  /** What was trimmed has nothing left to trim. */
  lemma {:induction false} TrimSettles(s: string)
    ensures Trim(Trim(s)) == Trim(s)
  {
    TrimStartSettles(s);
    TrimEndSettles(TrimStart(s));
    var t := Trim(s);
    if t != [] {
      assert t[0] == TrimStart(s)[0];
      assert TrimStart(t) == t;
    }
  }

  predicate Blank(s: string) {
    forall c | c in s :: IsBlank(c)
  }

  lemma {:induction false} TrimStartCuts(s: string) returns (w: string)
    ensures Blank(w) && s == w + TrimStart(s)
  {
    w := [];
    if s != [] && IsBlank(s[0]) {
      var rest := TrimStartCuts(s[1..]);
      BlankAhead(s[0], rest);
      assert s == [s[0]] + s[1..];
      w := [s[0]] + rest;
    }
  }

  lemma BlankAhead(c: char, rest: string)
    requires IsBlank(c) && Blank(rest)
    ensures Blank([c] + rest)
  {
  }

  lemma {:induction false} TrimEndCuts(s: string) returns (w: string)
    ensures Blank(w) && s == TrimEnd(s) + w
  {
    if s != [] && IsBlank(s[|s| - 1]) {
      var rest := TrimEndCuts(s[..|s| - 1]);
      w := rest + [s[|s| - 1]];
    } else {
      w := [];
    }
  }

  /** Trimming takes blanks off both ends, and all of them. */
  lemma {:induction false} TrimCuts(s: string) returns (front: string, back: string)
    ensures Blank(front) && Blank(back) && s == front + Trim(s) + back
    ensures Trim(s) != [] ==> !IsBlank(Trim(s)[0]) && !IsBlank(Trim(s)[|Trim(s)| - 1])
  {
    front := TrimStartCuts(s);
    back := TrimEndCuts(TrimStart(s));
    TrimStartSettles(s);
    TrimEndSettles(TrimStart(s));
  }

  lemma {:induction false} TrimStartPast(w: string, s: string)
    requires Blank(w)
    ensures TrimStart(w + s) == TrimStart(s)
  {
    if w == [] {
      assert w + s == s;
    } else {
      assert (w + s)[1..] == w[1..] + s;
      TrimStartPast(w[1..], s);
    }
  }

  lemma {:induction false} TrimEndPast(s: string, w: string)
    requires Blank(w)
    ensures TrimEnd(s + w) == TrimEnd(s)
  {
    if w == [] {
      assert s + w == s;
    } else {
      assert (s + w)[..|s + w| - 1] == s + w[..|w| - 1];
      TrimEndPast(s, w[..|w| - 1]);
    }
  }

  /** Nothing but the blanks around it is trimmed off a text that holds none. */
  lemma {:induction false} TrimLeaves(front: string, s: string, back: string)
    requires Blank(front) && Blank(back) && forall c | c in s :: !IsBlank(c)
    ensures Trim(front + s + back) == s
  {
    assert front + s + back == front + (s + back);
    TrimStartPast(front, s + back);
    if s == [] {
      assert s + back == back && back == back + [];
      TrimStartPast(back, []);
    } else {
      assert TrimStart(s + back) == s + back;
      TrimEndPast(s, back);
    }
  }

  lemma {:induction false} TrimStartUpTo(head: string, sep: char, tail: string)
    requires !IsBlank(sep)
    ensures TrimStart(head + [sep] + tail) == TrimStart(head) + [sep] + tail
  {
    var s := head + [sep] + tail;
    if head != [] && IsBlank(head[0]) {
      assert s[1..] == head[1..] + [sep] + tail;
      TrimStartUpTo(head[1..], sep, tail);
    }
  }

  lemma {:induction false} TrimEndUpTo(head: string, sep: char, tail: string)
    requires !IsBlank(sep)
    ensures TrimEnd(head + [sep] + tail) == head + [sep] + TrimEnd(tail)
  {
    var s := head + [sep] + tail;
    if tail != [] && IsBlank(tail[|tail| - 1]) {
      assert s[..|s| - 1] == head + [sep] + tail[..|tail| - 1];
      TrimEndUpTo(head, sep, tail[..|tail| - 1]);
    }
  }

  lemma {:induction false} TrimOfStart(s: string)
    ensures Trim(TrimStart(s)) == Trim(s)
  {
    TrimStartSettles(s);
  }

  lemma {:induction false} TrimOfEnd(s: string)
    ensures Trim(TrimEnd(s)) == Trim(s)
  {
    var front, back := TrimCuts(s);
    var w := TrimEndCuts(s);
    var f, b := TrimCuts(TrimEnd(s));
    assert s == f + Trim(TrimEnd(s)) + (b + w);
    OneCore(s, f, Trim(TrimEnd(s)), b + w);
  }

  /** A text with nothing blank at its ends is what blanks around it trim to. */
  lemma {:induction false} OneCore(s: string, front: string, core: string, back: string)
    requires s == front + core + back && Blank(front) && Blank(back)
    requires core != [] ==> !IsBlank(core[0]) && !IsBlank(core[|core| - 1])
    ensures Trim(s) == core
  {
    assert s == front + (core + back);
    TrimStartPast(front, core + back);
    if core == [] {
      assert core + back == back && back == back + [];
      TrimStartPast(back, []);
    } else {
      assert TrimStart(core + back) == core + back;
      TrimEndPast(core, back);
    }
  }

  /** Trimming a text first changes nothing in what its trimmed parts are. */
  lemma {:induction false} TrimThenSplit(head: string, sep: char, tail: string)
    requires !IsBlank(sep) && sep !in head
    ensures SplitOnce(Trim(head + [sep] + tail), sep) == Split(TrimStart(head), TrimEnd(tail))
    ensures Trim(TrimStart(head)) == Trim(head) && Trim(TrimEnd(tail)) == Trim(tail)
  {
    TrimStartUpTo(head, sep, tail);
    TrimEndUpTo(TrimStart(head), sep, tail);
    var w := TrimStartCuts(head);
    assert sep !in TrimStart(head);
    SplitOfJoined(TrimStart(head), TrimEnd(tail), sep);
    TrimOfStart(head);
    TrimOfEnd(tail);
  }

  /** One text after another takes the bytes of both. */
  lemma {:induction false} Utf8Adds(a: string, b: string)
    ensures Utf8Length(a + b) == Utf8Length(a) + Utf8Length(b)
  {
    if b == [] {
      assert a + b == a;
    } else {
      assert (a + b)[..|a + b| - 1] == a + b[..|b| - 1];
      Utf8Adds(a, b[..|b| - 1]);
    }
  }

  /** A character takes as many bytes as its scalar value has room in: seven bits
      in one, eleven in two, sixteen in three, the rest in four. */
  lemma Utf8OfOne(c: char)
    ensures var n := Utf8Length([c]);
            && (n == 1 <==> c as int < 128) && (n <= 2 <==> c as int < 2048) && (n <= 3 <==> c as int < 65536) && 1 <= n <= 4
  {
    assert [c][..0] == [];
  }

  /** How many bytes a text takes in UTF-8. */
  function Utf8Length(s: string): (n: nat) {
    if s == [] then 0
    else
      var c := s[|s| - 1] as int;
      Utf8Length(s[..|s| - 1]) + (if c < 0x80 then 1 else if c < 0x800 then 2 else if c < 0x1_0000 then 3 else 4)
  }

  /** The text before the first separator and the text after it. */
  function SplitOnce(s: string, sep: char): (r: Split) {
    if s == [] then Unsplit
    else if s[0] == sep then Split([], s[1..])
    else
      match SplitOnce(s[1..], sep)
      case Unsplit => Unsplit
      case Split(head, tail) => Split([s[0]] + head, tail)
  }

  lemma {:induction false} SplitOnceSplits(s: string, sep: char)
    ensures var r := SplitOnce(s, sep);
            && (r.Split? <==> sep in s)
            && (r.Split? ==> s == r.head + [sep] + r.tail && sep !in r.head)
  {
    if s != [] && s[0] != sep {
      SplitOnceSplits(s[1..], sep);
      assert s == [s[0]] + s[1..];
    }
  }

  /** Two texts that agree up to the first separator agree on both sides. */
  lemma {:induction false} SplitAt(a: string, x: string, b: string, y: string, sep: char)
    requires sep !in a && sep !in b
    requires a + [sep] + x == b + [sep] + y
    ensures a == b && x == y
  {
    var s, r := a + [sep] + x, b + [sep] + y;
    assert s[|a|] == sep && r[|b|] == sep;
    assert forall i | 0 <= i < |a| :: s[i] == a[i];
    assert forall i | 0 <= i < |b| :: r[i] == b[i];
    assert s[..|a|] == a && r[..|b|] == b;
    assert s[|a| + 1..] == x && r[|b| + 1..] == y;
  }

  lemma {:induction false} SplitOfJoined(head: string, tail: string, sep: char)
    requires sep !in head
    ensures SplitOnce(head + [sep] + tail, sep) == Split(head, tail)
  {
    var s := head + [sep] + tail;
    var split := SplitOnce(s, sep);
    SplitOnceSplits(s, sep);
    assert s[|head|] == sep;
    SplitAt(split.head, split.tail, head, tail, sep);
  }

  lemma {:induction false} NothingToSplit(s: string, sep: char)
    requires sep !in s
    ensures SplitOnce(s, sep) == Unsplit
  {
    SplitOnceSplits(s, sep);
  }

  /** Every part between separators: one more than there are separators. */
  function SplitAll(s: string, sep: char): (parts: seq<string>)
    ensures |parts| > 0
    decreases |s|
  {
    match SplitOnce(s, sep)
    case Unsplit => [s]
    case Split(head, tail) =>
      SplitOnceSplits(s, sep);
      [head] + SplitAll(tail, sep)
  }

  function Join(parts: seq<string>, sep: char): (s: string)
    requires |parts| > 0
  {
    if |parts| == 1 then parts[0] else parts[0] + [sep] + Join(parts[1..], sep)
  }

  lemma {:induction false} SplitThenJoin(s: string, sep: char)
    ensures Join(SplitAll(s, sep), sep) == s
    ensures forall part | part in SplitAll(s, sep) :: sep !in part
    decreases |s|
  {
    SplitOnceSplits(s, sep);
    var split := SplitOnce(s, sep);
    if split.Split? {
      SplitThenJoin(split.tail, sep);
      assert SplitAll(s, sep)[1..] == SplitAll(split.tail, sep);
    }
  }

  lemma {:induction false} JoinThenSplit(parts: seq<string>, sep: char)
    requires |parts| > 0 && forall part | part in parts :: sep !in part
    ensures SplitAll(Join(parts, sep), sep) == parts
  {
    if |parts| == 1 {
      NothingToSplit(parts[0], sep);
    } else {
      JoinThenSplit(parts[1..], sep);
      SplitOfJoined(parts[0], Join(parts[1..], sep), sep);
    }
  }

  lemma {:induction false} JoinHolds(parts: seq<string>, sep: char, c: char)
    requires |parts| > 0 && c != sep && forall part | part in parts :: c !in part
    ensures c !in Join(parts, sep)
  {
    if |parts| > 1 {
      JoinHolds(parts[1..], sep, c);
    }
  }
}
