/** What a playback request sets going: the tasks of the transcode cache
    (src/media/stream.rs, src/media/transcode.rs). */
module PlaybackTasks {
  import opened Decimal
  import opened CacheNames
  import opened TranscodeCache
  import opened TranscodeProtocol
  import PlaybackRoute

  /** The task a route begins, and the fill a seek leaves behind it. */
  function TaskOf(r: PlaybackRoute.Route): (task: Option<Kind>) {
    match r
    case Probe(_) => Some(Kind.Probe)
    case StreamSeek(_) => Some(Live(false))
    case AwaitLock(_) => Some(Live(true))
    case _ => None
  }

  /** Every route that encodes begins a task the protocol knows, of that very
      job, whoever asks and whatever runs beside it; and behind a seek the fill
      it may begin is of the whole track the seek is cut from. */
  lemma {:induction false} RoutesBeginTasks(
    c: Config, s: State, t: nat, user: nat,
    track: PlaybackRoute.Track, query: PlaybackRoute.Query, range: Option<string>, files: set<string>)
    requires t !in s.tasks && HexText(track.hash)
    ensures var r := PlaybackRoute.Routed(c.hash, track, query, range, files);
            && (TaskOf(r).Some? <==> PlaybackRoute.Encodes(r))
            && (PlaybackRoute.Encodes(r) ==> Possible(c, s, Begin(t, TaskOf(r).value, r.job, user)))
            && (r.Probe? || r.StreamSeek? ==> Possible(c, s, Begin(t, Fill, r.job.(offset := 0), user)))
  {
    PlaybackRoute.RoutedAsAsked(c.hash, track, query, range, files);
  }
}
