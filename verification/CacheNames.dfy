/** The names of the transcode cache: what a key is made of, and the files
    written under it (src/media/transcode.rs, src/media/mod.rs). */
module CacheNames {
  import opened Decimal
  import opened Text

  datatype OutputFormat = Raw | Mp3 | Opus | Aac

  /** Everything an encode depends on. `gain` is in hundredths of a decibel. */
  datatype Job = Job(source: string, format: OutputFormat, bitrate: nat, gain: Option<int>, offset: nat)

  const PROFILE: string := "waveflow-ffmpeg-v1"
  const PART: string := ".part-"

  function Name(format: OutputFormat): (name: string) {
    match format
    case Raw => "raw"
    case Mp3 => "mp3"
    case Opus => "opus"
    case Aac => "aac"
  }

  function Named(name: string): (format: Option<OutputFormat>) {
    if name == "raw" then Some(Raw)
    else if name == "mp3" then Some(Mp3)
    else if name == "opus" then Some(Opus)
    else if name == "aac" then Some(Aac)
    else None
  }

  /** The variant's own spelling, which is what the cache key holds. */
  function Spelling(format: OutputFormat): (name: string) {
    match format
    case Raw => "Raw"
    case Mp3 => "Mp3"
    case Opus => "Opus"
    case Aac => "Aac"
  }

  function Extension(format: OutputFormat): (ext: string) {
    match format
    case Raw => "bin"
    case Mp3 => "mp3"
    case Opus => "opus"
    case Aac => "aac"
  }

  function GainText(gain: Option<int>): (text: string) {
    match gain
    case None => ""
    case Some(centibels) => ":rg" + SignedToString(centibels)
  }

  function WholeKeyText(job: Job): (text: string) {
    job.source + ":" + (Spelling(job.format) + ":" + (ToString(job.bitrate) + ":" + (PROFILE + GainText(job.gain))))
  }

  function SeekKeyText(key: string, offset: nat): (text: string) {
    key + "@" + ToString(offset)
  }

  /** The key of a whole encode, then of the seek into it when there is one. */
  function CacheKey(hash: string -> string, job: Job): (key: string) {
    var whole := hash(WholeKeyText(job));
    if job.offset == 0 then whole else hash(SeekKeyText(whole, job.offset))
  }

  function FileName(hash: string -> string, job: Job): (name: string) {
    CacheKey(hash, job) + "." + Extension(job.format)
  }

  function StagingName(hash: string -> string, job: Job, suffix: string): (name: string) {
    FileName(hash, job) + PART + suffix
  }

  predicate IsHexChar(c: char) {
    '0' <= c <= '9' || 'a' <= c <= 'f'
  }

  predicate HexText(s: string) {
    forall c | c in s :: IsHexChar(c)
  }

  /** The digest as this model takes it: hexadecimal text, and no two inputs
      with the same one. */
  ghost predicate CollisionFree(hash: string -> string) {
    && (forall s :: HexText(hash(s)))
    && (forall s, r :: hash(s) == hash(r) ==> s == r)
  }

  /** A source is named by its own hexadecimal digest. */
  predicate WellFormed(job: Job) {
    HexText(job.source) && job.format != Raw
  }

  predicate Contains(s: string, part: string) {
    exists i | 0 <= i <= |s| :: part <= s[i..]
  }

  lemma NamesRoundTrip(format: OutputFormat, name: string)
    ensures Named(Name(format)) == Some(format)
    ensures Named(name) == Some(format) <==> name == Name(format)
  {
  }

  lemma {:induction false} WholeTextIsInjective(p: Job, q: Job)
    requires HexText(p.source) && HexText(q.source)
    requires WholeKeyText(p) == WholeKeyText(q)
    ensures p.(offset := 0) == q.(offset := 0)
  {
    var p3, q3 := PROFILE + GainText(p.gain), PROFILE + GainText(q.gain);
    var p2, q2 := ToString(p.bitrate) + ":" + p3, ToString(q.bitrate) + ":" + q3;
    var p1, q1 := Spelling(p.format) + ":" + p2, Spelling(q.format) + ":" + q2;
    SplitAt(p.source, p1, q.source, q1, ':');
    SplitAt(Spelling(p.format), p2, Spelling(q.format), q2, ':');
    PrintThenRead(p.bitrate);
    PrintThenRead(q.bitrate);
    SplitAt(ToString(p.bitrate), p3, ToString(q.bitrate), q3, ':');
    GainTextIsInjective(p.gain, q.gain);
  }

  lemma {:induction false} GainTextIsInjective(g: Option<int>, h: Option<int>)
    requires PROFILE + GainText(g) == PROFILE + GainText(h)
    ensures g == h
  {
    assert GainText(g) == (PROFILE + GainText(g))[|PROFILE|..];
    assert GainText(h) == (PROFILE + GainText(h))[|PROFILE|..];
    if g.Some? && h.Some? {
      assert SignedToString(g.value) == GainText(g)[3..];
      assert SignedToString(h.value) == GainText(h)[3..];
      SignedPrintIsInjective(g.value, h.value);
    }
  }

  /** No text names both a whole encode and a seek: only the first holds a colon. */
  lemma SeekTextIsNoWholeText(hash: string -> string, p: Job, q: Job, offset: nat)
    requires CollisionFree(hash)
    ensures WholeKeyText(p) != SeekKeyText(hash(WholeKeyText(q)), offset)
  {
    assert WholeKeyText(p)[|p.source|] == ':';
    assert HexText(hash(WholeKeyText(q)));
    PrintThenRead(offset);
    assert ':' !in SeekKeyText(hash(WholeKeyText(q)), offset);
  }

  /** A key names its source, format, bitrate, gain and offset and nothing else. */
  lemma {:induction false} KeyNamesItsJob(hash: string -> string, p: Job, q: Job)
    requires CollisionFree(hash)
    requires HexText(p.source) && HexText(q.source)
    requires CacheKey(hash, p) == CacheKey(hash, q)
    ensures p == q
  {
    var a, b := hash(WholeKeyText(p)), hash(WholeKeyText(q));
    SeekTextIsNoWholeText(hash, p, q, q.offset);
    SeekTextIsNoWholeText(hash, q, p, p.offset);
    if p.offset != 0 && q.offset != 0 {
      assert HexText(a) && HexText(b);
      SplitAt(a, ToString(p.offset), b, ToString(q.offset), '@');
      PrintIsInjective(p.offset, q.offset);
    }
    assert WholeKeyText(p) == WholeKeyText(q);
    WholeTextIsInjective(p, q);
  }

  lemma {:induction false} FileNamesItsJob(hash: string -> string, p: Job, q: Job)
    requires CollisionFree(hash)
    requires HexText(p.source) && HexText(q.source)
    requires FileName(hash, p) == FileName(hash, q)
    ensures p == q
  {
    assert HexText(CacheKey(hash, p)) && HexText(CacheKey(hash, q));
    SplitAt(CacheKey(hash, p), Extension(p.format), CacheKey(hash, q), Extension(q.format), '.');
    KeyNamesItsJob(hash, p, q);
  }

  /** The pruning pass tells a staging file from a committed one by its name. */
  lemma {:induction false} OnlyStagingNamesArePartial(hash: string -> string, job: Job, suffix: string)
    requires CollisionFree(hash)
    ensures !Contains(FileName(hash, job), PART)
    ensures Contains(StagingName(hash, job, suffix), PART)
  {
    var name := FileName(hash, job);
    assert HexText(CacheKey(hash, job));
    assert '-' !in name;
    forall i | 0 <= i <= |name|
      ensures !(PART <= name[i..])
    {
      assert PART[5] == '-';
      if |name| - i > 5 {
        assert name[i..][5] == name[i + 5];
      }
    }
    var staging := StagingName(hash, job, suffix);
    assert staging[|name|..] == PART + suffix;
  }
}
