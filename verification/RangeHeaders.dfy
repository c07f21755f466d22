/** Range headers: what they ask for, section 14.1.2 of RFC 9110, and what a file
    of some size has to answer with (src/media/stream.rs). */
module RangeHeaders {
  import opened Decimal
  import opened Text

  const MAX_RANGE: nat := 8 * 1024 * 1024
  const PREFIX: string := "bytes="

  datatype Range = Range(start: nat, end: nat)

  function StripPrefix(value: string): (spec: Option<string>) {
    if PREFIX <= value then Some(value[|PREFIX|..]) else None
  }

  predicate StartsAtTheFirstByte(value: string) {
    match StripPrefix(value)
    case None => false
    case Some(spec) =>
      match SplitOnce(Trim(spec), '-')
      case Unsplit => false
      case Split(start, end) =>
        ParseU64(Trim(start)) == Some(0) && (Trim(end) == [] || ParseU64(Trim(end)).Some?)
  }

  predicate AsksForABoundedStart(value: string) {
    var text := TrimEnd(value);
    StartsAtTheFirstByte(value) && text != [] && IsDigit(text[|text| - 1])
  }

  function Min(a: nat, b: nat): (m: nat) {
    if a < b then a else b
  }

  /** Sums wrap at 64 bits, as an optimised build computes them. */
  function ParseRange(value: string, size: nat): (r: Option<Range>)
    requires size < U64_LIMIT
  {
    var spec := StripPrefix(value);
    if size == 0 || spec.None? || ',' in spec.value then None
    else
      match SplitOnce(Trim(spec.value), '-')
      case Unsplit => None
      case Split(head, tail) => ParseBounds(Trim(head), Trim(tail), size)
  }

  function ParseBounds(start: string, end: string, size: nat): (r: Option<Range>)
    requires 0 < size < U64_LIMIT
  {
    var last := ParseU64(end);
    if start == [] then
      if last.None? || last.value == 0 then None
      else Some(Range(size - Min(Min(last.value, size), MAX_RANGE), size - 1))
    else
      var first := ParseU64(start);
      if first.None? || first.value >= size || (end != [] && last.None?) then None
      else
        var requested := if end == [] then size - 1 else Min(last.value, size - 1);
        if requested < first.value then None
        else Some(Range(first.value, Min(requested, (first.value + MAX_RANGE - 1) % U64_LIMIT)))
  }

  // ---- the cold path and the warm one ----

  /** The last position a header names, as its two readers cut it out. */
  function EndText(value: string): (end: string) {
    match StripPrefix(value)
    case None => []
    case Some(spec) =>
      match SplitOnce(Trim(spec), '-')
      case Unsplit => []
      case Split(_, tail) => Trim(tail)
  }

  lemma {:induction false} TrimStartKeepsTheEnd(s: string)
    ensures TrimStart(s) == [] || (s != [] && TrimStart(s)[|TrimStart(s)| - 1] == s[|s| - 1])
    ensures forall c | c in s && !IsBlank(c) :: c in TrimStart(s)
    ensures forall c | c in TrimStart(s) :: c in s
  {
    if s != [] && IsBlank(s[0]) {
      TrimStartKeepsTheEnd(s[1..]);
      assert s == [s[0]] + s[1..];
    }
  }

  lemma {:induction false} TrimEndKeepsTheStart(s: string)
    ensures TrimEnd(s) <= s
    ensures TrimEnd(s) != [] ==> !IsBlank(TrimEnd(s)[|TrimEnd(s)| - 1])
    ensures forall c | c in s && !IsBlank(c) :: c in TrimEnd(s)
  {
    if s != [] && IsBlank(s[|s| - 1]) {
      TrimEndKeepsTheStart(s[..|s| - 1]);
      assert s == s[..|s| - 1] + [s[|s| - 1]];
    }
  }

  /** Trimming the front first and the back after ends on the same character as
      trimming the back alone, wherever anything is left. */
  lemma {:induction false} TrimEndOfSuffix(front: string, s: string)
    ensures Trim(s) != [] ==>
              TrimEnd(front + s) != [] && TrimEnd(front + s)[|TrimEnd(front + s)| - 1] == Trim(s)[|Trim(s)| - 1]
  {
    TrimStartKeepsTheEnd(s);
    if Trim(s) != [] {
      TrimEndKeepsTheStart(TrimStart(s));
      TrimEndPastBlanks(front, s);
    }
  }

  lemma {:induction false} TrimEndPastBlanks(front: string, s: string)
    requires Trim(s) != []
    ensures TrimEnd(front + s) != [] && TrimEnd(front + s)[|TrimEnd(front + s)| - 1] == Trim(s)[|Trim(s)| - 1]
  {
    TrimStartKeepsTheEnd(s);
    var whole := front + s;
    assert whole[|whole| - 1] == s[|s| - 1];
    if IsBlank(s[|s| - 1]) {
      assert whole[..|whole| - 1] == front + s[..|s| - 1];
      TrimStartOfInit(s);
      TrimEndPastBlanks(front, s[..|s| - 1]);
    }
  }

  lemma {:induction false} TrimStartOfInit(s: string)
    requires s != [] && TrimStart(s) != []
    ensures TrimStart(s[..|s| - 1]) == TrimStart(s)[..|TrimStart(s)| - 1]
  {
    if IsBlank(s[0]) {
      assert s[1..][..|s[1..]| - 1] == s[1..|s| - 1];
      TrimStartOfInit(s[1..]);
      assert s[..|s| - 1][1..] == s[1..|s| - 1];
    }
  }

  lemma DigitsHoldNoComma(s: string)
    requires ParseU64(s).Some?
    ensures forall c | c in s :: c == '+' || IsDigit(c)
    ensures s != [] && IsDigit(s[|s| - 1])
  {
    var digits := if s[0] == '+' then s[1..] else s;
    assert digits[|digits| - 1] in digits;
    assert forall c | c in s :: c == s[0] || c in digits;
  }

  /** What the header accepted as opening the resource holds nothing but blanks,
      one hyphen, plus signs and digits. */
  lemma {:induction false} OpeningHoldsNoComma(value: string)
    requires StartsAtTheFirstByte(value)
    ensures ',' !in StripPrefix(value).value
  {
    var spec := StripPrefix(value).value;
    var split := SplitOnce(Trim(spec), '-');
    SplitOnceSplits(Trim(spec), '-');
    DigitsHoldNoComma(Trim(split.head));
    if Trim(split.tail) != [] {
      DigitsHoldNoComma(Trim(split.tail));
    }
    if ',' in spec {
      TrimKeepsMarks(spec, ',');
      assert ',' in split.head || ',' in split.tail;
      if ',' in split.head {
        TrimKeepsMarks(split.head, ',');
        assert false;
      } else {
        TrimKeepsMarks(split.tail, ',');
        assert false;
      }
    }
  }

  lemma TrimKeepsMarks(s: string, c: char)
    requires c in s && !IsBlank(c)
    ensures c in Trim(s)
  {
    TrimStartKeepsTheEnd(s);
    TrimEndKeepsTheStart(TrimStart(s));
  }

  /** Every range the cold path takes as opening the resource is answered from
      byte 0 once the cache exists, up to the end it names. */
  lemma {:induction false} AcceptedColdIsSatisfiableWarm(value: string, size: nat)
    requires StartsAtTheFirstByte(value) && 0 < size < U64_LIMIT
    ensures var r := ParseRange(value, size);
            && r.Some? && r.value.start == 0
            && r.value.end == Min(if EndText(value) == [] then size - 1 else Min(ParseU64(EndText(value)).value, size - 1), MAX_RANGE - 1)
  {
    OpeningHoldsNoComma(value);
    var split := SplitOnce(Trim(StripPrefix(value).value), '-');
    DigitsHoldNoComma(Trim(split.head));
  }

  /** Text that ends on a mark still does once trimmed. */
  lemma {:induction false} TrimKeepsALastMark(s: string)
    requires s != [] && !IsBlank(s[|s| - 1])
    ensures Trim(s) != [] && Trim(s)[|Trim(s)| - 1] == s[|s| - 1]
  {
    TrimStartKeepsTheEnd(s);
    assert s[|s| - 1] in TrimStart(s);
  }

  /** Text that splits at a hyphen ends on it, or on the last mark after it
      when it ends on no blank. */
  lemma {:induction false} SplitKeepsTheEnd(text: string)
    requires SplitOnce(text, '-').Split? && !IsBlank(text[|text| - 1])
    ensures var tail := Trim(SplitOnce(text, '-').tail);
            text[|text| - 1] == if tail == [] then '-' else tail[|tail| - 1]
  {
    var split := SplitOnce(text, '-');
    SplitOnceSplits(text, '-');
    if split.tail == [] {
      assert Trim([]) == [];
    } else {
      assert text[|text| - 1] == split.tail[|split.tail| - 1];
      TrimKeepsALastMark(split.tail);
    }
  }

  lemma {:induction false} SplitEndsOn(front: string, spec: string)
    requires SplitOnce(Trim(spec), '-').Split?
    ensures var text := TrimEnd(front + spec);
            var tail := Trim(SplitOnce(Trim(spec), '-').tail);
            text != [] && text[|text| - 1] == if tail == [] then '-' else tail[|tail| - 1]
  {
    SplitOnceSplits(Trim(spec), '-');
    TrimEndOfSuffix(front, spec);
    TrimEndKeepsTheStart(TrimStart(spec));
    SplitKeepsTheEnd(Trim(spec));
  }

  lemma {:induction false} OpeningEndsOn(value: string)
    requires StartsAtTheFirstByte(value)
    ensures var text := TrimEnd(value);
            && text != []
            && text[|text| - 1] == if EndText(value) == [] then '-' else EndText(value)[|EndText(value)| - 1]
  {
    assert value == PREFIX + StripPrefix(value).value;
    SplitEndsOn(PREFIX, StripPrefix(value).value);
  }

  /** A bounded start is asked for exactly when an opening range names an end. */
  lemma {:induction false} BoundedStartNamesItsEnd(value: string)
    ensures AsksForABoundedStart(value) <==> StartsAtTheFirstByte(value) && EndText(value) != []
  {
    if StartsAtTheFirstByte(value) {
      OpeningEndsOn(value);
      if EndText(value) != [] {
        DigitsHoldNoComma(EndText(value));
      }
    }
  }

  // ---- what a range means ----

  /** A byte range as the standard writes it, and as its readers print it. */
  datatype Spec = From(first: nat) | Span(first: nat, last: nat) | Suffix(length: nat)

  function Header(spec: Spec): (value: string) {
    match spec
    case From(first) => PREFIX + (ToString(first) + "-")
    case Span(first, last) => PREFIX + (ToString(first) + "-" + ToString(last))
    case Suffix(length) => PREFIX + ("-" + ToString(length))
  }

  /** The positions a range selects in a representation of `size` bytes. */
  predicate Selects(spec: Spec, size: nat, i: nat) {
    match spec
    case From(first) => first <= i < size
    case Span(first, last) => first <= i <= last && i < size
    case Suffix(length) => i < size && size - i <= length
  }

  predicate Positions(spec: Spec) {
    match spec
    case From(first) => first < U64_LIMIT
    case Span(first, last) => first < U64_LIMIT && last < U64_LIMIT
    case Suffix(length) => length < U64_LIMIT
  }

  lemma {:induction false} TrimLeavesMarks(s: string)
    requires forall c | c in s :: !IsBlank(c)
    ensures Trim(s) == s
  {
    assert TrimStart(s) == s;
    assert TrimEnd(s) == s;
  }

  lemma {:induction false} PrintedHeaderIsRead(head: string, tail: string, size: nat)
    requires 0 < size < U64_LIMIT
    requires AllDigits(head) && AllDigits(tail)
    ensures ParseRange(PREFIX + (head + "-" + tail), size) == ParseBounds(head, tail, size)
  {
    var spec := head + "-" + tail;
    assert (PREFIX + spec)[|PREFIX|..] == spec;
    assert forall c | c in spec :: c == '-' || IsDigit(c);
    TrimLeavesMarks(spec);
    SplitOfJoined(head, tail, '-');
    TrimLeavesMarks(head);
    TrimLeavesMarks(tail);
  }

  /** What a printed range is answered with, in numbers. */
  function Answer(spec: Spec, size: nat): (r: Option<Range>)
    requires 0 < size < U64_LIMIT
  {
    match spec
    case From(first) =>
      if first >= size then None
      else Some(Range(first, Min(size - 1, (first + MAX_RANGE - 1) % U64_LIMIT)))
    case Span(first, last) =>
      if first >= size || last < first then None
      else Some(Range(first, Min(Min(last, size - 1), (first + MAX_RANGE - 1) % U64_LIMIT)))
    case Suffix(length) =>
      if length == 0 then None else Some(Range(size - Min(Min(length, size), MAX_RANGE), size - 1))
  }

  lemma {:induction false} BoundsAreAnswered(start: string, end: string, size: nat)
    requires 0 < size < U64_LIMIT
    requires start == [] || ParseU64(start).Some?
    requires if start == [] then ParseU64(end).Some? else end == [] || ParseU64(end).Some?
    ensures ParseBounds(start, end, size) == Answer(AsRead(start, end), size)
  {
  }

  /** The range two bounds spell. */
  function AsRead(start: string, end: string): (spec: Spec)
    requires start == [] || ParseU64(start).Some?
    requires if start == [] then ParseU64(end).Some? else end == [] || ParseU64(end).Some?
  {
    if start == [] then Suffix(ParseU64(end).value)
    else if end == [] then From(ParseU64(start).value)
    else Span(ParseU64(start).value, ParseU64(end).value)
  }

  /** A position that fits 64 bits is printed in digits that read back. */
  lemma {:induction false} PositionIsRead(n: nat)
    requires n < U64_LIMIT
    ensures ToString(n) != [] && AllDigits(ToString(n)) && ParseU64(ToString(n)) == Some(n)
  {
    PrintThenRead(n);
    PrintedU64(n);
  }

  /** Reading a printed range comes down to answering it in numbers. */
  lemma {:induction false} PrintedBounds(start: string, end: string, size: nat)
    requires 0 < size < U64_LIMIT && AllDigits(start) && AllDigits(end)
    requires start == [] || ParseU64(start).Some?
    requires if start == [] then ParseU64(end).Some? else end == [] || ParseU64(end).Some?
    ensures ParseRange(PREFIX + (start + "-" + end), size) == Answer(AsRead(start, end), size)
  {
    PrintedHeaderIsRead(start, end, size);
    BoundsAreAnswered(start, end, size);
  }

  lemma {:induction false} PrintedFromIsAnswered(first: nat, size: nat)
    requires 0 < size < U64_LIMIT && first < U64_LIMIT
    ensures ParseRange(Header(From(first)), size) == Answer(From(first), size)
  {
    PositionIsRead(first);
    assert ToString(first) + "-" + [] == ToString(first) + "-";
    PrintedBounds(ToString(first), [], size);
  }

  lemma {:induction false} PrintedSpanIsAnswered(first: nat, last: nat, size: nat)
    requires 0 < size < U64_LIMIT && first < U64_LIMIT && last < U64_LIMIT
    ensures ParseRange(Header(Span(first, last)), size) == Answer(Span(first, last), size)
  {
    PositionIsRead(first);
    PositionIsRead(last);
    PrintedBounds(ToString(first), ToString(last), size);
  }

  lemma {:induction false} PrintedSuffixIsAnswered(length: nat, size: nat)
    requires 0 < size < U64_LIMIT && length < U64_LIMIT
    ensures ParseRange(Header(Suffix(length)), size) == Answer(Suffix(length), size)
  {
    PositionIsRead(length);
    assert [] + "-" + ToString(length) == "-" + ToString(length);
    PrintedBounds([], ToString(length), size);
  }

  lemma {:induction false} PrintedRangeIsAnswered(spec: Spec, size: nat)
    requires 0 < size < U64_LIMIT && Positions(spec)
    ensures ParseRange(Header(spec), size) == Answer(spec, size)
  {
    match spec
    case From(first) => PrintedFromIsAnswered(first, size);
    case Span(first, last) => PrintedSpanIsAnswered(first, last, size);
    case Suffix(length) => PrintedSuffixIsAnswered(length, size);
  }

  /** Sizes at which no sum in the range arithmetic leaves 64 bits. */
  predicate Unwrapped(size: nat) {
    size <= U64_LIMIT - MAX_RANGE + 1
  }

  predicate Inside(r: Range, size: nat) {
    r.start <= r.end < size && r.end - r.start + 1 <= MAX_RANGE
  }

  /** The longest run of selected positions that holds at most 8 MiB, from the
      range's own first byte, or for a suffix up to the last byte of the file. */
  ghost predicate LongestRun(spec: Spec, size: nat, r: Range) {
    && Inside(r, size)
    && (forall i: nat | r.start <= i <= r.end :: Selects(spec, size, i))
    && (if spec.Suffix? then r.end == size - 1 else r.start == spec.first)
    && (r.end - r.start + 1 < MAX_RANGE ==> forall i: nat | Selects(spec, size, i) :: r.start <= i <= r.end)
  }

  lemma {:induction false} AnswerIsTheLongestRun(spec: Spec, size: nat)
    requires 0 < size < U64_LIMIT && Unwrapped(size)
    ensures Answer(spec, size).Some? <==> exists i: nat :: Selects(spec, size, i)
    ensures Answer(spec, size).Some? ==> LongestRun(spec, size, Answer(spec, size).value)
  {
    var witness_ := if spec.Suffix? then size - 1 else spec.first;
    assert Answer(spec, size).Some? ==> Selects(spec, size, witness_);
  }

  /** A printed range is answered exactly when it selects something, and then by
      the longest run of it that 8 MiB allow. */
  lemma {:induction false} AnsweredAsSelected(spec: Spec, size: nat)
    requires 0 < size < U64_LIMIT && Unwrapped(size) && Positions(spec)
    ensures ParseRange(Header(spec), size).Some? <==> exists i: nat :: Selects(spec, size, i)
    ensures ParseRange(Header(spec), size).Some? ==> LongestRun(spec, size, ParseRange(Header(spec), size).value)
  {
    PrintedRangeIsAnswered(spec, size);
    AnswerIsTheLongestRun(spec, size);
  }

  lemma {:induction false} BoundsAreInside(start: string, end: string, size: nat)
    requires 0 < size < U64_LIMIT && Unwrapped(size)
    ensures ParseBounds(start, end, size).Some? ==> Inside(ParseBounds(start, end, size).value, size)
  {
  }

  lemma {:induction false} UnwrappedIsInside(value: string, size: nat)
    requires size < U64_LIMIT && Unwrapped(size)
    ensures ParseRange(value, size).Some? ==> Inside(ParseRange(value, size).value, size)
  {
    if size > 0 && StripPrefix(value).Some? {
      var split := SplitOnce(Trim(StripPrefix(value).value), '-');
      if split.Split? {
        BoundsAreInside(Trim(split.head), Trim(split.tail), size);
      }
    }
  }

  /** More than any file system lets a file hold: sizes there are signed. */
  const FILE_LIMIT: nat := U64_LIMIT / 2

  /** Every answer lies inside the file and within 8 MiB, for every header and
      every size a file can have. */
  lemma {:induction false} EveryAnswerIsInside(value: string, size: nat)
    requires size < FILE_LIMIT
    ensures ParseRange(value, size).Some? ==> Inside(ParseRange(value, size).value, size)
  {
    UnwrappedIsInside(value, size);
  }

  /** The arithmetic's own boundary lies past every such size: up to 2^64 less
      8 MiB no header is answered outside the file, and beyond that the last
      byte asked for alone is. */
  lemma {:induction false} InsideIffUnwrapped(size: nat)
    requires size < U64_LIMIT
    ensures (forall value :: ParseRange(value, size).Some? ==> Inside(ParseRange(value, size).value, size)) <==> Unwrapped(size)
  {
    if Unwrapped(size) {
      forall value ensures ParseRange(value, size).Some? ==> Inside(ParseRange(value, size).value, size) {
        UnwrappedIsInside(value, size);
      }
    } else {
      WrappedIsOutside(size);
    }
  }

  lemma {:induction false} WrappedIsOutside(size: nat)
    requires 0 < size < U64_LIMIT && !Unwrapped(size)
    ensures var r := ParseRange(Header(From(size - 1)), size);
            r.Some? && r.value.start == size - 1 && r.value.end < r.value.start
  {
    PrintedRangeIsAnswered(From(size - 1), size);
    assert (size - 1 + MAX_RANGE - 1) % U64_LIMIT == size - 1 + MAX_RANGE - 1 - U64_LIMIT;
  }

  // ---- the grammar of a header, apart from its reader ----

  /** Digits that denote a number of 64 bits, with or without a plus sign. */
  ghost predicate Numeral(text: string, n: nat) {
    n < U64_LIMIT && exists digits | digits != [] && AllDigits(digits) :: Value(digits) == n && (text == digits || text == ['+'] + digits)
  }

  /** A header cut up: two bounds and the blanks around them. */
  datatype Layout = Layout(w0: string, start: string, w1: string, w2: string, end: string, w3: string)

  ghost predicate Laid(value: string, spec: Spec, l: Layout) {
    && Blank(l.w0) && Blank(l.w1) && Blank(l.w2) && Blank(l.w3)
    && value == PREFIX + ((l.w0 + l.start + l.w1) + ['-'] + (l.w2 + l.end + l.w3))
    && match spec
       case From(first) => Numeral(l.start, first) && l.end == []
       case Span(first, last) => Numeral(l.start, first) && Numeral(l.end, last)
       case Suffix(length) => l.start == [] && Numeral(l.end, length)
  }

  /** The header spells this range. */
  ghost predicate Spells(value: string, spec: Spec) {
    exists l :: Laid(value, spec, l)
  }

  lemma {:induction false} NumeralIsParsed(text: string, n: nat)
    ensures ParseU64(text) == Some(n) <==> Numeral(text, n)
    ensures Numeral(text, n) ==> text != [] && forall c | c in text :: c == '+' || IsDigit(c)
  {
    if ParseU64(text) == Some(n) {
      var digits := if text[0] == '+' then text[1..] else text;
      assert digits != [] && AllDigits(digits) && Value(digits) == n && (text == digits || text == ['+'] + digits);
    }
    if Numeral(text, n) {
      var digits :| digits != [] && AllDigits(digits) && Value(digits) == n && (text == digits || text == ['+'] + digits);
      assert digits[0] in digits;
      if text == ['+'] + digits {
        assert text[1..] == digits;
      } else {
        assert text[0] != '+';
      }
      assert forall c | c in text :: c == '+' || c in digits;
    }
  }

  /** A bound is written in marks, and without its blanks is itself. */
  lemma {:induction false} BoundIsCut(front: string, bound: string, back: string)
    requires Blank(front) && Blank(back) && forall c | c in bound :: c == '+' || IsDigit(c)
    ensures Trim(front + bound + back) == bound
    ensures '-' !in front + bound + back && ',' !in front + bound + back
  {
    TrimLeaves(front, bound, back);
  }

  /** What the reader makes of a header that splits at a hyphen. */
  lemma {:induction false} HeaderIsCut(value: string, head: string, tail: string, size: nat)
    requires 0 < size < U64_LIMIT && '-' !in head && value == PREFIX + (head + ['-'] + tail)
    ensures StripPrefix(value) == Some(head + ['-'] + tail)
    ensures ParseRange(value, size) == if ',' in head || ',' in tail then None else ParseBounds(Trim(head), Trim(tail), size)
    ensures StartsAtTheFirstByte(value) <==> ParseU64(Trim(head)) == Some(0) && (Trim(tail) == [] || ParseU64(Trim(tail)).Some?)
    ensures EndText(value) == Trim(tail)
  {
    assert value[|PREFIX|..] == head + ['-'] + tail;
    TrimThenSplit(head, '-', tail);
  }

  lemma {:induction false} LaidIsCut(value: string, spec: Spec, l: Layout)
    requires Laid(value, spec, l)
    ensures var head, tail := l.w0 + l.start + l.w1, l.w2 + l.end + l.w3;
            && Trim(head) == l.start && Trim(tail) == l.end
            && '-' !in head && ',' !in head && ',' !in tail
            && value == PREFIX + (head + ['-'] + tail)
  {
    match spec {
      case From(first) => NumeralIsParsed(l.start, first);
      case Span(first, last) => NumeralIsParsed(l.start, first); NumeralIsParsed(l.end, last);
      case Suffix(length) => NumeralIsParsed(l.end, length);
    }
    BoundIsCut(l.w0, l.start, l.w1);
    BoundIsCut(l.w2, l.end, l.w3);
  }

  /** A header that spells a range is answered as that range, in numbers. */
  lemma {:induction false} SpelledIsAnswered(value: string, spec: Spec, size: nat)
    requires 0 < size < U64_LIMIT && Spells(value, spec)
    ensures ParseRange(value, size) == Answer(spec, size)
  {
    var l :| Laid(value, spec, l);
    LaidIsCut(value, spec, l);
    HeaderIsCut(value, l.w0 + l.start + l.w1, l.w2 + l.end + l.w3, size);
    LaidBounds(value, spec, l);
    BoundsAreAnswered(l.start, l.end, size);
  }

  lemma {:induction false} LaidBounds(value: string, spec: Spec, l: Layout)
    requires Laid(value, spec, l)
    ensures l.start == [] || ParseU64(l.start).Some?
    ensures if l.start == [] then ParseU64(l.end).Some? else l.end == [] || ParseU64(l.end).Some?
    ensures AsRead(l.start, l.end) == spec
  {
    match spec {
      case From(first) => NumeralIsParsed(l.start, first);
      case Span(first, last) => NumeralIsParsed(l.start, first); NumeralIsParsed(l.end, last);
      case Suffix(length) => NumeralIsParsed(l.end, length);
    }
  }

  /** The two sides of the first hyphen, each a bound between blanks. */
  lemma {:induction false} CutIsLaid(value: string, head: string, tail: string) returns (l: Layout)
    requires value == PREFIX + (head + ['-'] + tail)
    requires Trim(head) == [] || ParseU64(Trim(head)).Some?
    requires if Trim(head) == [] then ParseU64(Trim(tail)).Some? else Trim(tail) == [] || ParseU64(Trim(tail)).Some?
    ensures Laid(value, AsRead(Trim(head), Trim(tail)), l)
  {
    var w0, w1 := TrimCuts(head);
    var w2, w3 := TrimCuts(tail);
    l := Layout(w0, Trim(head), w1, w2, Trim(tail), w3);
    if l.start != [] {
      NumeralIsParsed(l.start, ParseU64(l.start).value);
    }
    if l.end != [] {
      NumeralIsParsed(l.end, ParseU64(l.end).value);
    }
  }

  /** The two sides of a header's first hyphen. */
  lemma {:induction false} HeaderSplits(value: string) returns (head: string, tail: string)
    requires PREFIX <= value && SplitOnce(Trim(StripPrefix(value).value), '-').Split?
    ensures '-' !in head && value == PREFIX + (head + ['-'] + tail)
  {
    var spec := StripPrefix(value).value;
    var front, back := TrimCuts(spec);
    SplitOnceSplits(Trim(spec), '-');
    SplitOnceSplits(spec, '-');
    var split := SplitOnce(spec, '-');
    head, tail := split.head, split.tail;
  }

  /** Whatever is answered at all spells a range. */
  lemma {:induction false} AnsweredIsSpelled(value: string, size: nat)
    requires size < U64_LIMIT && ParseRange(value, size).Some?
    ensures exists spec :: Spells(value, spec)
  {
    var head, tail := HeaderSplits(value);
    HeaderIsCut(value, head, tail, size);
    var l := CutIsLaid(value, head, tail);
    assert Spells(value, AsRead(Trim(head), Trim(tail)));
  }

  /** For every header: answered exactly when it spells a range that selects a
      byte, and then by the longest run of that selection 8 MiB allow. */
  lemma {:induction false} AnsweredIffSpelled(value: string, size: nat)
    requires size < U64_LIMIT && Unwrapped(size)
    ensures ParseRange(value, size).Some? <==> exists spec :: Spells(value, spec) && SelectsAny(spec, size)
    ensures forall spec | Spells(value, spec) && ParseRange(value, size).Some? :: LongestRun(spec, size, ParseRange(value, size).value)
  {
    if ParseRange(value, size).Some? {
      AnsweredIsSpelled(value, size);
    }
    forall spec | Spells(value, spec)
      ensures ParseRange(value, size).Some? <==> SelectsAny(spec, size)
      ensures ParseRange(value, size).Some? ==> LongestRun(spec, size, ParseRange(value, size).value)
    {
      if size > 0 {
        SpelledIsAnswered(value, spec, size);
        AnswerIsTheLongestRun(spec, size);
      }
    }
  }

  ghost predicate SelectsAny(spec: Spec, size: nat) {
    exists i: nat :: Selects(spec, size, i)
  }

  /** A printed range spells itself. */
  lemma {:induction false} HeaderSpells(spec: Spec)
    requires Positions(spec)
    ensures Spells(Header(spec), spec)
  {
    match spec {
      case From(first) =>
        PrintedIsANumeral(first);
        PlainIsLaid(spec, ToString(first), []);
        assert ToString(first) + "-" + [] == ToString(first) + "-";
      case Span(first, last) =>
        PrintedIsANumeral(first);
        PrintedIsANumeral(last);
        PlainIsLaid(spec, ToString(first), ToString(last));
      case Suffix(length) =>
        PrintedIsANumeral(length);
        PlainIsLaid(spec, [], ToString(length));
        assert [] + "-" + ToString(length) == "-" + ToString(length);
    }
  }

  lemma {:induction false} PlainIsLaid(spec: Spec, start: string, end: string)
    requires match spec
             case From(first) => Numeral(start, first) && end == []
             case Span(first, last) => Numeral(start, first) && Numeral(end, last)
             case Suffix(length) => start == [] && Numeral(end, length)
    ensures Spells(PREFIX + (start + "-" + end), spec)
  {
    var l := Layout([], start, [], [], end, []);
    assert [] + start + [] == start && [] + end + [] == end;
    assert Laid(PREFIX + (start + "-" + end), spec, l);
  }

  lemma {:induction false} PrintedIsANumeral(n: nat)
    requires n < U64_LIMIT
    ensures Numeral(ToString(n), n)
  {
    PositionIsRead(n);
    NumeralIsParsed(ToString(n), n);
  }

  /** Without the prefix, with a comma, without a hyphen, or with a bound that is
      neither blank nor a number, or with two blank ones. */
  ghost predicate Malformed(value: string) {
    || !(PREFIX <= value)
    || ',' in value
    || '-' !in value
    || (exists head, tail ::
          && '-' !in head && value == PREFIX + (head + ['-'] + tail)
          && ((Trim(head) != [] && forall n :: !Numeral(Trim(head), n))
              || (Trim(tail) != [] && forall n :: !Numeral(Trim(tail), n))
              || (Trim(head) == [] && Trim(tail) == [])))
  }

  lemma {:induction false} SpelledIsWellFormed(value: string, spec: Spec)
    requires Spells(value, spec)
    ensures !Malformed(value)
  {
    var l :| Laid(value, spec, l);
    LaidIsCut(value, spec, l);
    LaidBounds(value, spec, l);
    var h, t := l.w0 + l.start + l.w1, l.w2 + l.end + l.w3;
    LaidHolds(value, h, t);
    forall head, tail | '-' !in head && value == PREFIX + (head + ['-'] + tail) ensures head == h && tail == t {
      assert value[|PREFIX|..] == head + ['-'] + tail && value[|PREFIX|..] == h + ['-'] + t;
      SplitAt(head, tail, h, t, '-');
    }
    if l.start != [] {
      NumeralIsParsed(l.start, ParseU64(l.start).value);
    }
    if l.end != [] {
      NumeralIsParsed(l.end, ParseU64(l.end).value);
    }
  }

  lemma LaidHolds(value: string, head: string, tail: string)
    requires value == PREFIX + (head + ['-'] + tail) && ',' !in head && ',' !in tail
    ensures PREFIX <= value && ',' !in value && '-' in value
  {
    assert value[|PREFIX| + |head|] == '-';
    assert forall c | c in value :: c in PREFIX || c in head || c == '-' || c in tail;
  }

  /** The cold path takes a header as opening the resource exactly when it spells
      a range from byte 0, and a bounded one exactly when that range has an end. */
  lemma {:induction false} OpeningIffSpelled(value: string)
    ensures StartsAtTheFirstByte(value) <==> Spells(value, From(0)) || exists last :: Spells(value, Span(0, last))
    ensures AsksForABoundedStart(value) <==> exists last :: Spells(value, Span(0, last))
  {
    BoundedStartNamesItsEnd(value);
    if StartsAtTheFirstByte(value) {
      OpeningIsSpelled(value);
    }
    forall spec | Spells(value, spec) && (spec == From(0) || (spec.Span? && spec.first == 0))
      ensures StartsAtTheFirstByte(value) && (EndText(value) == [] <==> spec.From?)
    {
      SpelledOpens(value, spec);
    }
  }

  lemma {:induction false} OpeningIsSpelled(value: string)
    requires StartsAtTheFirstByte(value)
    ensures if EndText(value) == [] then Spells(value, From(0)) else exists last :: Spells(value, Span(0, last))
  {
    var head, tail := HeaderSplits(value);
    HeaderIsCut(value, head, tail, 1);
    assert ParseU64([]) == None;
    var l := CutIsLaid(value, head, tail);
    assert Spells(value, AsRead(Trim(head), Trim(tail)));
  }

  lemma {:induction false} SpelledOpens(value: string, spec: Spec)
    requires Spells(value, spec) && (spec == From(0) || (spec.Span? && spec.first == 0))
    ensures StartsAtTheFirstByte(value) && (EndText(value) == [] <==> spec.From?)
  {
    var l :| Laid(value, spec, l);
    LaidIsCut(value, spec, l);
    HeaderIsCut(value, l.w0 + l.start + l.w1, l.w2 + l.end + l.w3, 1);
    NumeralIsParsed(l.start, 0);
    if spec.Span? {
      NumeralIsParsed(l.end, spec.last);
    }
  }
}
