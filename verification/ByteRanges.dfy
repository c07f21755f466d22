/** Files sent whole or in part, and a client that puts the parts together
    (src/media/stream.rs). */
module ByteRanges {
  import opened Decimal
  import opened Text
  import opened RangeHeaders

  type Byte = bv8

  // ---- the bytes sent ----

  /** `Content-Range` as it is sent. */
  function ContentRange(r: Range, size: nat): (text: string) {
    "bytes " + (ToString(r.start) + "-" + (ToString(r.end) + "/" + ToString(size)))
  }

  /** What a client reads out of it: where the part starts and ends, of how much. */
  datatype Told = Told(start: nat, end: nat, size: nat)

  function ReadContentRange(text: string): (told: Option<Told>) {
    if !("bytes " <= text) then None
    else
      match SplitOnce(text[6..], '-')
      case Unsplit => None
      case Split(start, rest) =>
        match SplitOnce(rest, '/')
        case Unsplit => None
        case Split(end, size) =>
          if ParseU64(start).None? || ParseU64(end).None? || ParseU64(size).None? then None
          else Some(Told(ParseU64(start).value, ParseU64(end).value, ParseU64(size).value))
  }

  datatype Response = Whole(body: seq<Byte>) | Part(body: seq<Byte>, contentRange: string) | Unsatisfiable(size: nat)

  /** What a complete file is answered with, to a request that may name a range. */
  function Served(file: seq<Byte>, range: Option<string>): (r: Response)
    requires |file| < FILE_LIMIT
  {
    if range.None? then Whole(file)
    else
      EveryAnswerIsInside(range.value, |file|);
      match ParseRange(range.value, |file|)
      case None => Unsatisfiable(|file|)
      case Some(r) => Part(file[r.start..r.end + 1], ContentRange(r, |file|))
  }

  /** What a response must be, in the file's bytes and what the header spells. */
  ghost predicate Answers(file: seq<Byte>, range: Option<string>, r: Response) {
    && (r.Whole? <==> range.None?)
    && (r.Whole? ==> r.body == file)
    && (r.Unsatisfiable? ==> r.size == |file|)
    && (r.Part? <==> range.Some? && exists spec :: Spells(range.value, spec) && SelectsAny(spec, |file|))
    && (r.Part? ==> exists spec, run :: Sends(file, range.value, spec, run, r))
    && (range.Some? && Malformed(range.value) ==> r.Unsatisfiable?)
  }

  ghost predicate Sends(file: seq<Byte>, value: string, spec: Spec, run: Range, r: Response) {
    && Spells(value, spec) && LongestRun(spec, |file|, run)
    && r == Part(file[run.start..run.end + 1], ContentRange(run, |file|))
  }

  lemma {:induction false} ServedAnswers(file: seq<Byte>, range: Option<string>)
    requires |file| < FILE_LIMIT
    ensures Answers(file, range, Served(file, range))
  {
    if range.Some? {
      AnsweredIffSpelled(range.value, |file|);
      if ParseRange(range.value, |file|).Some? {
        PartIsTheRun(file, range.value);
      }
      if Malformed(range.value) {
        forall spec ensures !Spells(range.value, spec) {
          if Spells(range.value, spec) {
            SpelledIsWellFormed(range.value, spec);
          }
        }
      }
    }
  }

  lemma {:induction false} PartIsTheRun(file: seq<Byte>, value: string)
    requires |file| < FILE_LIMIT && ParseRange(value, |file|).Some?
    ensures exists spec, run :: Sends(file, value, spec, run, Served(file, Some(value)))
  {
    var run := ParseRange(value, |file|).value;
    EveryAnswerIsInside(value, |file|);
    PartIsSent(file, value, run);
    AnsweredIsSpelled(value, |file|);
    var spec :| Spells(value, spec);
    AnsweredIffSpelled(value, |file|);
    assert Sends(file, value, spec, run, Served(file, Some(value)));
  }

  /** The response to a range: a longest run of it, or a refusal when it selects nothing. */
  ghost predicate Responds(file: seq<Byte>, spec: Spec, r: Response) {
    if SelectsAny(spec, |file|)
    then exists run :: LongestRun(spec, |file|, run) && r == Part(file[run.start..run.end + 1], ContentRange(run, |file|))
    else r == Unsatisfiable(|file|)
  }

  /** A header that spells a range is answered in part exactly when the range
      selects a byte, and refused with the file's size when it selects none. */
  lemma {:induction false} SpelledIsServed(file: seq<Byte>, value: string, spec: Spec)
    requires |file| < FILE_LIMIT && Spells(value, spec)
    ensures Responds(file, spec, Served(file, Some(value)))
  {
    if |file| > 0 {
      SpelledIsAnswered(value, spec, |file|);
      AnswerIsTheLongestRun(spec, |file|);
      if SelectsAny(spec, |file|) {
        PartIsSent(file, value, Answer(spec, |file|).value);
      }
    }
  }

  lemma {:induction false} PrintedIsServed(file: seq<Byte>, spec: Spec)
    requires |file| < FILE_LIMIT && Positions(spec)
    ensures Responds(file, spec, Served(file, Some(Header(spec))))
  {
    HeaderSpells(spec);
    SpelledIsServed(file, Header(spec), spec);
  }

  class OpenFile {
    const bytes: seq<Byte>
    var position: nat

    constructor (bytes: seq<Byte>)
      ensures this.bytes == bytes && position == 0
    {
      this.bytes := bytes;
      position := 0;
    }

    /** Reads on from where the file stands. */
    method Read(length: nat) returns (body: seq<Byte>)
      requires position + length <= |bytes|
      modifies this
      ensures body == bytes[old(position)..old(position) + length] && position == old(position) + length
    {
      body := bytes[position..position + length];
      position := position + length;
    }

    /** Seeks, then reads from `start` to `end`, both included. */
    method ServePartial(start: nat, end: nat) returns (r: Response)
      requires start <= end < |bytes|
      modifies this
      ensures r == Part(bytes[start..end + 1], ContentRange(Range(start, end), |bytes|)) && position == end + 1
    {
      position := start;
      var length := end - start + 1;
      var body := Read(length);
      r := Part(body, ContentRange(Range(start, end), |bytes|));
    }

    /** Answers from a file just opened. Without a range, all of it. With one, the
        longest run of bytes the range selects that 8 MiB allow, and a refusal
        that tells the size where it selects none or is no range at all. */
    method ServeOpened(range: Option<string>) returns (r: Response)
      requires position == 0 && |bytes| < FILE_LIMIT
      modifies this
      ensures r == Served(bytes, range)
      ensures Answers(bytes, range, r)
    {
      ServedAnswers(bytes, range);
      if range.None? {
        var body := Read(|bytes|);
        return Whole(body);
      }
      EveryAnswerIsInside(range.value, |bytes|);
      var parsed := ParseRange(range.value, |bytes|);
      if parsed.None? {
        return Unsatisfiable(|bytes|);
      }
      r := ServePartial(parsed.value.start, parsed.value.end);
    }
  }

  // ---- a client that resumes ----

  /** What a client holds once it has asked from `from`, then after each answered
      end, until the file is whole: the bytes it was sent, and how many requests
      it made. */
  datatype Download = Download(bytes: seq<Byte>, requests: nat)

  /** The bytes a request was sent, and what its answer tells of them. */
  datatype Piece = Piece(body: seq<Byte>, told: Told)

  /** One request for everything from `from` on. */
  function Exchange(file: seq<Byte>, from: nat): (p: Option<Piece>)
    requires |file| < FILE_LIMIT
  {
    match Served(file, Some(Header(From(from))))
    case Whole(_) => None
    case Unsatisfiable(_) => None
    case Part(body, contentRange) =>
      var told := ReadContentRange(contentRange);
      if told.None? then None else Some(Piece(body, told.value))
  }

  function Resume(size: nat, from: nat, server: nat -> Option<Piece>): (d: Download)
    requires from <= size
    decreases size - from
  {
    if from == size then Download([], 0)
    else
      match server(from)
      case None => Download([], 1)
      case Some(p) =>
        if p.told.start != from || p.told.size != size || !(from <= p.told.end < size) then Download([], 1)
        else
          var rest := Resume(size, p.told.end + 1, server);
          Download(p.body + rest.bytes, 1 + rest.requests)
  }

  /** A client reads back where a part starts and ends, and the size. */
  lemma {:induction false} ContentRangeIsReadBack(r: Range, size: nat)
    requires r.start < U64_LIMIT && r.end < U64_LIMIT && size < U64_LIMIT
    ensures ReadContentRange(ContentRange(r, size)) == Some(Told(r.start, r.end, size))
  {
    PositionIsRead(r.start);
    PositionIsRead(r.end);
    PositionIsRead(size);
    var rest := ToString(r.end) + ['/'] + ToString(size);
    assert ContentRange(r, size)[6..] == ToString(r.start) + ['-'] + rest;
    SplitOfJoined(ToString(r.start), rest, '-');
    SplitOfJoined(ToString(r.end), ToString(size), '/');
  }

  lemma {:induction false} PartIsSent(file: seq<Byte>, value: string, sent: Range)
    requires |file| < FILE_LIMIT && Inside(sent, |file|) && ParseRange(value, |file|) == Some(sent)
    ensures Served(file, Some(value)) == Part(file[sent.start..sent.end + 1], ContentRange(sent, |file|))
  {
  }

  lemma {:induction false} ExchangeReadsTheAnswer(file: seq<Byte>, from: nat, sent: Range)
    requires |file| < FILE_LIMIT && Inside(sent, |file|)
    requires ParseRange(Header(From(from)), |file|) == Some(sent)
    ensures Exchange(file, from) == Some(Piece(file[sent.start..sent.end + 1], Told(sent.start, sent.end, |file|)))
  {
    PartIsSent(file, Header(From(from)), sent);
    ContentRangeIsReadBack(sent, |file|);
  }

  lemma FirstBlock(size: nat, from: nat)
    requires from < size < FILE_LIMIT
    ensures Answer(From(from), size) == Some(Range(from, Min(size - 1, from + MAX_RANGE - 1)))
  {
  }

  lemma {:induction false} ExchangeSucceeds(file: seq<Byte>, from: nat)
    requires from < |file| < FILE_LIMIT
    ensures var end := Min(|file| - 1, from + MAX_RANGE - 1);
            Exchange(file, from) == Some(Piece(file[from..end + 1], Told(from, end, |file|)))
  {
    var sent := Range(from, Min(|file| - 1, from + MAX_RANGE - 1));
    assert ParseRange(Header(From(from)), |file|) == Some(sent) by {
      PrintedFromIsAnswered(from, |file|);
      FirstBlock(|file|, from);
    }
    ExchangeReadsTheAnswer(file, from, sent);
  }

  function Blocks(n: nat): (count: nat) {
    (n + MAX_RANGE - 1) / MAX_RANGE
  }

  lemma OneBlockLess(n: nat)
    requires n > 0
    ensures Blocks(n) == 1 + Blocks(if n <= MAX_RANGE then 0 else n - MAX_RANGE)
  {
  }

  /** The first 8 MiB of what is missing, or all of it. */
  function Block(file: seq<Byte>, from: nat): (p: Piece)
    requires from < |file|
  {
    var end := Min(|file| - 1, from + MAX_RANGE - 1);
    Piece(file[from..end + 1], Told(from, end, |file|))
  }

  lemma {:induction false} BlocksRebuildTheFile(file: seq<Byte>, from: nat, server: nat -> Option<Piece>)
    requires from <= |file|
    requires forall k: nat | k < |file| :: server(k) == Some(Block(file, k))
    ensures Resume(|file|, from, server) == Download(file[from..], Blocks(|file| - from))
    decreases |file| - from
  {
    if from < |file| {
      var end := Min(|file| - 1, from + MAX_RANGE - 1);
      BlocksRebuildTheFile(file, end + 1, server);
      assert file[from..end + 1] + file[end + 1..] == file[from..];
      OneBlockLess(|file| - from);
    }
  }

  /** Asked header by header for the rest of the file, each time from the end the
      last answer named, the server sends it back byte for byte, in as many
      requests as it has blocks of 8 MiB. */
  lemma {:induction false} ResumingRebuildsTheFile(file: seq<Byte>, from: nat)
    requires |file| < FILE_LIMIT && from <= |file|
    ensures Resume(|file|, from, (k: nat) => Exchange(file, k)) == Download(file[from..], Blocks(|file| - from))
  {
    forall k: nat | k < |file| ensures Exchange(file, k) == Some(Block(file, k)) {
      ExchangeSucceeds(file, k);
    }
    BlocksRebuildTheFile(file, from, (k: nat) => Exchange(file, k));
  }
}
