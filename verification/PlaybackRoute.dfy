/** Which way a playback request goes: a refusal, a file, a probe encode or a
    live stream (src/media/stream.rs). */
module PlaybackRoute {
  import opened Decimal
  import opened CacheNames
  import opened RangeHeaders
  import opened ByteRanges

  datatype Query = Query(format: OutputFormat, bitrate: Option<nat>, offset: nat)

  /** The track as looked up: whether its path resolves inside its library, and
      the gain the ReplayGain mode asks for. */
  datatype Track = Track(available: bool, resolves: bool, hash: string, duration: int, gain: Option<int>)

  datatype Refusal = NotFound | InvalidRequest | RangeNotSatisfiable(size: Option<nat>)

  datatype Route =
    | Refused(why: Refusal)
    | ServeSource
    | ServeCached(job: Job)
    | Probe(job: Job)
    | StreamSeek(job: Job)
    | AwaitLock(job: Job)
    | StreamStart(job: Job)

  function ValidBitrate(format: OutputFormat, bitrate: Option<nat>): (r: Option<nat>) {
    if bitrate.None? && format == Raw then None
    else
      var chosen := if bitrate.Some? then bitrate.value else if format == Opus then 128 else 192;
      if 32 <= chosen <= 512 then Some(chosen) else None
  }

  /** The encode a request asks for, when it asks for one that can be made. */
  function Wanted(track: Track, query: Query): (job: Option<Job>) {
    var bitrate := ValidBitrate(query.format, query.bitrate);
    if query.format == Raw || bitrate.None? || query.offset > (if track.duration < 0 then 0 else track.duration) then None
    else Some(Job(track.hash, query.format, bitrate.value, track.gain, query.offset))
  }

  /** The route chosen over the file names then in the cache. A whole encode
      that is not there is looked for again once its lock is held. */
  function Routed(hash: string -> string, track: Track, query: Query, range: Option<string>, files: set<string>): (r: Route) {
    var wanted := Wanted(track, query);
    if !track.available || !track.resolves then Refused(NotFound)
    else if query.format == Raw then
      if query.offset != 0 || query.bitrate.Some? then Refused(InvalidRequest) else ServeSource
    else if wanted.None? then Refused(InvalidRequest)
    else if FileName(hash, wanted.value) in files then ServeCached(wanted.value)
    else if range.Some? && !StartsAtTheFirstByte(range.value) then Refused(RangeNotSatisfiable(None))
    else if query.offset == 0 then AwaitLock(wanted.value)
    else if range.Some? && AsksForABoundedStart(range.value) then Probe(wanted.value)
    else StreamSeek(wanted.value)
  }

  function OnceLocked(hash: string -> string, job: Job, files: set<string>): (r: Route) {
    if FileName(hash, job) in files then ServeCached(job) else StreamStart(job)
  }

  predicate Encodes(r: Route) {
    r.Probe? || r.StreamSeek? || r.AwaitLock?
  }

  predicate Playable(track: Track, query: Query) {
    track.available && track.resolves && Wanted(track, query).Some?
  }

  /** The header spells a range from the first byte. */
  ghost predicate Opens(value: string) {
    exists spec :: FromZero(spec) && Spells(value, spec)
  }

  /** And names where it ends. */
  ghost predicate EndsEarly(value: string) {
    exists last :: Spells(value, Span(0, last))
  }

  /** A seek is encoded whole before it is answered exactly when the request is
      playable, names a range from the first byte with an end, and the encode is
      not in the cache already. */
  lemma {:induction false} ProbedIffBounded(hash: string -> string, track: Track, query: Query, range: Option<string>, files: set<string>)
    ensures Routed(hash, track, query, range, files).Probe? <==>
            && Playable(track, query)
            && query.offset > 0
            && FileName(hash, Wanted(track, query).value) !in files
            && range.Some? && EndsEarly(range.value)
  {
    if range.Some? {
      OpeningIffSpelled(range.value);
    }
  }

  lemma {:induction false} OpensIff(value: string)
    ensures StartsAtTheFirstByte(value) <==> Opens(value)
  {
    OpeningIffSpelled(value);
    if Spells(value, From(0)) {
      assert FromZero(From(0));
    }
    forall last | Spells(value, Span(0, last)) ensures Opens(value) {
      assert FromZero(Span(0, last));
    }
  }

  /** The original is sent only as it is, and nothing is encoded that cannot be:
      a request is invalid exactly when it asks for the original cut or at a bit
      rate, or for an encode at a rate out of bounds or past the track's end. */
  lemma {:induction false} InvalidIff(hash: string -> string, track: Track, query: Query, range: Option<string>, files: set<string>)
    ensures var r := Routed(hash, track, query, range, files);
            && (r == Refused(NotFound) <==> !track.available || !track.resolves)
            && (r == Refused(InvalidRequest) <==>
                  && track.available && track.resolves
                  && (if query.format == Raw then query.offset != 0 || query.bitrate.Some?
                      else || (query.bitrate.Some? && !(32 <= query.bitrate.value <= 512))
                           || (query.offset > 0 && query.offset > track.duration)))
            && (r == ServeSource <==>
                  track.available && track.resolves && query.format == Raw && query.offset == 0 && query.bitrate.None?)
  {
  }

  /** Whatever is encoded or served is what was asked for: that track, in that
      format, at that rate or the format's own, levelled and cut as asked; a seek
      is streamed or probed and a play from the first byte waits for its lock. */
  lemma {:induction false} RoutedAsAsked(hash: string -> string, track: Track, query: Query, range: Option<string>, files: set<string>)
    ensures var r := Routed(hash, track, query, range, files);
            && (Encodes(r) || r.ServeCached? ==>
                  && r.job.source == track.hash && r.job.format == query.format && r.job.gain == track.gain && r.job.offset == query.offset
                  && (if query.bitrate.Some? then r.job.bitrate == query.bitrate.value
                      else r.job.bitrate == (match query.format case Opus => 128 case _ => 192)))
            && (r.AwaitLock? ==> query.offset == 0)
            && (r.Probe? || r.StreamSeek? ==> query.offset > 0)
  {
  }

  /** How much of a file a range from its first byte asks for and is given. */
  function OpeningLength(spec: Spec, size: nat): (length: nat)
    ensures length <= size
  {
    match spec
    case From(_) => Min(size, MAX_RANGE)
    case Span(_, last) => Min(Min(last + 1, size), MAX_RANGE)
    case Suffix(_) => 0
  }

  predicate FromZero(spec: Spec) {
    (spec.From? || spec.Span?) && spec.first == 0
  }

  lemma OpeningAnswer(spec: Spec, size: nat)
    requires 0 < size < FILE_LIMIT && FromZero(spec)
    ensures Answer(spec, size) == Some(Range(0, OpeningLength(spec, size) - 1))
  {
  }

  /** A range from a file's first byte is sent it from there on. */
  lemma {:induction false} OpeningIsSent(file: seq<Byte>, value: string, spec: Spec)
    requires 0 < |file| < FILE_LIMIT && Spells(value, spec) && FromZero(spec)
    ensures Served(file, Some(value)).Part?
    ensures Served(file, Some(value)).body == file[..OpeningLength(spec, |file|)]
  {
    var run := Range(0, OpeningLength(spec, |file|) - 1);
    assert ParseRange(value, |file|) == Some(run) by {
      SpelledIsAnswered(value, spec, |file|);
      OpeningAnswer(spec, |file|);
    }
    PartIsSent(file, value, run);
    assert file[run.start..run.end + 1] == file[..OpeningLength(spec, |file|)];
  }

  lemma {:induction false} RoutedCold(hash: string -> string, track: Track, query: Query, range: Option<string>, cold: set<string>)
    ensures var r := Routed(hash, track, query, range, cold);
            var cached := Playable(track, query) && FileName(hash, Wanted(track, query).value) in cold;
            var opens := range.Some? ==> Opens(range.value);
            && (r.ServeCached? ==> r.job == Wanted(track, query).value)
            && (r.ServeCached? <==> cached)
            && (Encodes(r) <==> Playable(track, query) && !cached && opens)
            && (r == Refused(RangeNotSatisfiable(None)) <==> Playable(track, query) && !cached && !opens)
  {
    assert query.format == Raw ==> Wanted(track, query).None?;
    if range.Some? {
      OpensIff(range.value);
    }
  }

  /** Cold, a playable request is served from the cache if its encode is there;
      otherwise it is let through to an encode if it names no range or one that
      opens the resource, and refused its range if not. Once that encode is a
      file, a request let through is sent the file from its first byte on: all
      of it, or up to 8 MiB of it ending where the range does. */
  lemma {:induction false} AdmittedColdIsAnsweredWarm(
    hash: string -> string, track: Track, query: Query, range: Option<string>, cold: set<string>, warm: set<string>, file: seq<Byte>)
    requires 0 < |file| < FILE_LIMIT
    ensures var r := Routed(hash, track, query, range, cold);
            var cached := Playable(track, query) && FileName(hash, Wanted(track, query).value) in cold;
            var opens := range.Some? ==> Opens(range.value);
            && (r.ServeCached? <==> cached)
            && (Encodes(r) <==> Playable(track, query) && !cached && opens)
            && (r == Refused(RangeNotSatisfiable(None)) <==> Playable(track, query) && !cached && !opens)
    ensures Encodes(Routed(hash, track, query, range, cold)) && FileName(hash, Wanted(track, query).value) in warm ==>
              && Routed(hash, track, query, range, warm) == ServeCached(Wanted(track, query).value)
              && (range.None? ==> Served(file, range) == Whole(file))
              && (range.Some? ==> Served(file, range).Part?)
              && (forall spec | range.Some? && FromZero(spec) && Spells(range.value, spec) ::
                    Served(file, range).body == file[..OpeningLength(spec, |file|)])
  {
    RoutedCold(hash, track, query, range, cold);
    RoutedCold(hash, track, query, range, warm);
    if range.Some? {
      forall spec | FromZero(spec) && Spells(range.value, spec)
        ensures Served(file, range).Part? && Served(file, range).body == file[..OpeningLength(spec, |file|)]
      {
        OpeningIsSent(file, range.value, spec);
      }
      if Opens(range.value) {
        var spec :| FromZero(spec) && Spells(range.value, spec);
      }
    }
  }

  /** Two requests answered with one cached file wanted one encode: their source,
      format, bit rate, offset and gain agree, levelled or not. */
  lemma {:induction false} OneFileOneEncode(
    hash: string -> string, p: Track, ask: Query, pr: Option<string>, q: Track, other: Query, qr: Option<string>, files: set<string>)
    requires CollisionFree(hash) && HexText(p.hash) && HexText(q.hash)
    requires var a, b := Routed(hash, p, ask, pr, files), Routed(hash, q, other, qr, files);
             a.ServeCached? && b.ServeCached? && FileName(hash, a.job) == FileName(hash, b.job)
    ensures p.hash == q.hash && p.gain == q.gain && ask.format == other.format && ask.offset == other.offset
    ensures ValidBitrate(ask.format, ask.bitrate) == ValidBitrate(other.format, other.bitrate)
  {
    FileNamesItsJob(hash, Wanted(p, ask).value, Wanted(q, other).value);
  }
}
