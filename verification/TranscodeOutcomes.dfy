/** How the tasks of a run end: which of them run, what they end with, and that
    every one of them ends. */
module TranscodeOutcomes {
  import opened CacheNames
  import opened TranscodeCache
  import opened TranscodeProtocol
  import opened TranscodeAccounts
  import opened TranscodeInvariant
  import opened TranscodeHistory

  // ---- what becomes of a task before its encode ----

  /** What the events decide of a task: it ran, it was refused a slot, it was
      served what was there, another had claimed its fill, or it gave up. */
  datatype Fate = Undecided | Ran | Refused | Served | Forestalled | GaveUp

  /** What one of a task's own events decides, in the state it comes in. */
  ghost function Decides(c: Config, s: State, e: Event): (fate: Fate)
    requires e.Begin? || e.t in s.tasks
  {
    match e
    case Begin(_, _, _, _) => Undecided
    case Settle(t, l) =>
      if l.Spawn? then Ran
      else if l.TakeGlobal? && s.g.global < 1 then Refused
      else if l.TakeTwo? && s.g.global < 2 then Refused
      else if l.TakeUser? && Available(c, s.g, s.tasks[t].id.user) < 1 then Refused
      else if l.Claim? && s.tasks[t].id.key in s.g.pending then Forestalled
      else if l.CancelWait? || l.CancelHeld? || l.SpawnFails? then GaveUp
      else Undecided
    case Touch(t, a) => if a.LookAgain? && s.tasks[t].id.file in s.d.files then Served else Undecided
  }

  /** The last of them that decided anything. */
  ghost function FateOf(c: Config, events: seq<Event>, t: nat): (fate: Fate)
    requires Runs(c, events)
    decreases |events|
  {
    if events == [] then Undecided
    else
      var e := Last(events);
      var fate := if e.t == t then Decides(c, StateAfter(c, Front(events)), e) else Undecided;
      if fate.Undecided? then FateOf(c, Front(events), t) else fate
  }

  /** Where each fate leaves a task: before its encode nothing is decided, in it
      the task ran, and on its way out something is. */
  predicate Fits(pc: Pc, fate: Fate) {
    if pc.BackOutUser? then fate.GaveUp?
    else if pc.BackOutGlobal? then fate.Refused? || fate.GaveUp?
    else if Releasing(pc) || pc.Done? then !fate.Undecided?
    else if Before(pc) then fate.Undecided?
    else fate.Ran?
  }

  lemma {:induction false} SettleFits(c: Config, s: State, t: nat, l: LedgerAction, fate: Fate)
    requires Possible(c, s, Settle(t, l)) && Fits(s.tasks[t].pc, fate)
    ensures var task := s.tasks[t];
            var decided := Decides(c, s, Settle(t, l));
            Fits(SettleStep(c, s.g, task.id, task.pc, task.held, l).pc, if decided.Undecided? then fate else decided)
  {
  }

  lemma {:induction false} TouchFits(c: Config, s: State, t: nat, a: DiskAction, fate: Fate)
    requires Possible(c, s, Touch(t, a)) && Fits(s.tasks[t].pc, fate)
    ensures var task := s.tasks[t];
            var decided := Decides(c, s, Touch(t, a));
            Fits(TouchStep(s.d, task.id, task.work, a).pc, if decided.Undecided? then fate else decided)
  {
  }

  lemma {:induction false} NoFateYet(c: Config, events: seq<Event>, t: nat)
    requires Runs(c, events) && t !in StateAfter(c, events).tasks
    ensures FateOf(c, events, t) == Undecided
  {
    if events != [] {
      OwnStep(c, StateAfter(c, Front(events)), Last(events));
      NoFateYet(c, Front(events), t);
    }
  }

  /** In every run every task is where its fate leaves it: it starts an encode
      exactly when nothing stopped it, and one that ends without was refused by a
      count that was spent, served from the cache, forestalled, or gave up. */
  lemma {:induction false} EveryTaskMeetsItsFate(c: Config, events: seq<Event>, t: nat)
    requires Runs(c, events) && t in StateAfter(c, events).tasks
    ensures Fits(StateAfter(c, events).tasks[t].pc, FateOf(c, events, t))
  {
    var before, e := StateAfter(c, Front(events)), Last(events);
    OwnStep(c, before, e);
    if t !in before.tasks {
      NoFateYet(c, Front(events), t);
    } else {
      EveryTaskMeetsItsFate(c, Front(events), t);
      if e.t != t {
        OthersLeaveIt(c, before, e, t);
      } else if e.Settle? {
        SettleFits(c, before, t, e.l, FateOf(c, Front(events), t));
      } else {
        TouchFits(c, before, t, e.d, FateOf(c, Front(events), t));
      }
    }
  }

  // ---- what an encode leaves its task with ----

  /** The task's commit failed, or it came to open a name no longer there. */
  ghost predicate Missed(c: Config, events: seq<Event>, t: nat)
    requires Runs(c, events)
    decreases |events|
  {
    events != [] &&
    var before, e := StateAfter(c, Front(events)), Last(events);
    || Missed(c, Front(events), t)
    || e == Touch(t, Commit(false))
    || (e == Touch(t, Open) && before.tasks[t].id.file !in before.d.files)
  }

  predicate Exited(events: seq<Event>, t: nat) {
    Touch(t, Exit(true)) in events
  }

  /** Probes and fills: how far a task is says what it holds. */
  predicate EndsWith(pc: Pc, handed: bool, exited: bool, missed: bool) {
    if Before(pc) || pc.Starting? || pc.Encoding? then !exited && !missed && !handed
    else if pc.Finished? || pc.Committing? || pc.Opening? then exited && !missed && !handed
    else exited ==> (handed <==> !missed)
  }

  lemma {:induction false} TouchEndsWith(c: Config, d: Disk, id: Identity, pc: Pc, w: Work, a: DiskAction, exited: bool, missed: bool)
    requires CanTouch(c, d, id, pc, w, a) && !id.kind.Live? && !pc.Reading? && !pc.Writing? && !pc.Sending? && !pc.Exiting?
    requires EndsWith(pc, w.handle.Some?, exited, missed)
    ensures var done := TouchStep(d, id, w, a);
            && EndsWith(done.pc, done.w.handle.Some?, exited || a == Exit(true),
                        missed || a == Commit(false) || (a.Open? && id.file !in d.files))
            && !done.pc.Reading? && !done.pc.Writing? && !done.pc.Sending? && !done.pc.Exiting?
  {
  }

  lemma {:induction false} SettleEndsWith(c: Config, g: Ledger, id: Identity, pc: Pc, h: Held, l: LedgerAction, handed: bool, exited: bool, missed: bool)
    requires CanSettle(g, id, pc, h, l) && !pc.Reading? && !pc.Writing? && !pc.Sending? && !pc.Exiting?
    requires EndsWith(pc, handed, exited, missed)
    ensures var done := SettleStep(c, g, id, pc, h, l);
            && EndsWith(done.pc, handed, exited, missed)
            && !done.pc.Reading? && !done.pc.Writing? && !done.pc.Sending? && !done.pc.Exiting?
  {
  }

  lemma {:induction false} NothingMissedYet(c: Config, events: seq<Event>, t: nat)
    requires Runs(c, events) && t !in StateAfter(c, events).tasks
    ensures !Exited(events, t) && !Missed(c, events, t)
  {
    if events != [] {
      OwnStep(c, StateAfter(c, Front(events)), Last(events));
      NothingMissedYet(c, Front(events), t);
      assert events == Front(events) + [Last(events)];
    }
  }

  lemma {:induction false} EveryEncodeEndsWith(c: Config, events: seq<Event>, t: nat)
    requires Runs(c, events) && t in StateAfter(c, events).tasks && !StateAfter(c, events).tasks[t].id.kind.Live?
    ensures var task := StateAfter(c, events).tasks[t];
            && EndsWith(task.pc, task.work.handle.Some?, Exited(events, t), Missed(c, events, t))
            && !task.pc.Reading? && !task.pc.Writing? && !task.pc.Sending? && !task.pc.Exiting?
  {
    var before, e := StateAfter(c, Front(events)), Last(events);
    OwnStep(c, before, e);
    assert events == Front(events) + [e];
    if t !in before.tasks {
      NothingMissedYet(c, Front(events), t);
    } else {
      if e.t != t {
        OthersLeaveIt(c, before, e, t);
      }
      EveryEncodeEndsWith(c, Front(events), t);
      var task := before.tasks[t];
      if e.t == t {
        if e.Touch? {
          TouchEndsWith(c, before.d, task.id, task.pc, task.work, e.d, Exited(Front(events), t), Missed(c, Front(events), t));
        } else {
          SettleEndsWith(c, before.g, task.id, task.pc, task.held, e.l, task.work.handle.Some?, Exited(Front(events), t), Missed(c, Front(events), t));
        }
      }
    }
  }

  /** A probe or a fill that is done after its encoder succeeded holds a file,
      unless its commit failed or the name was gone when it came to open it. */
  lemma {:induction false} EncodeEndsWithItsFile(c: Config, events: seq<Event>, t: nat)
    requires Runs(c, events) && t in StateAfter(c, events).tasks && !StateAfter(c, events).tasks[t].id.kind.Live?
    requires StateAfter(c, events).tasks[t].pc.Done? && Exited(events, t)
    ensures StateAfter(c, events).tasks[t].work.handle.Some? <==> !Missed(c, events, t)
  {
    EveryEncodeEndsWith(c, events, t);
  }

  /** A stream wrote its cache all along: it had a staging file and no write failed. */
  predicate Cached(events: seq<Event>, t: nat) {
    Touch(t, Stage(true)) in events && Touch(t, WriteChunk(false)) !in events
  }

  /** Live streams: how far one is says whether it has committed. */
  predicate StreamedTo(pc: Pc, caching: bool, cached: bool, exited: bool, committed: bool, failed: bool) {
    if Before(pc) || pc.Starting? then !caching && !exited && !committed && !failed && !cached
    else if pc.Reading? || pc.Writing? || pc.Sending? || pc.Exiting? then (caching <==> cached) && !exited && !committed && !failed
    else if pc.Committing? then caching && cached && exited && !committed && !failed
    else if pc.Pruning? then cached && exited && committed && !failed
    else if pc.Discarding? then !committed && !failed && (exited ==> !cached)
    else exited ==> (committed <==> cached && !failed)
  }

  lemma {:induction false} TouchStreams(
    c: Config, d: Disk, id: Identity, pc: Pc, w: Work, a: DiskAction, staged: bool, wrote: bool, exited: bool, committed: bool, failed: bool)
    requires CanTouch(c, d, id, pc, w, a) && id.kind.Live? && !pc.Encoding? && !pc.Finished? && !pc.Opening?
    requires pc.Starting? || Before(pc) ==> !staged && wrote
    requires StreamedTo(pc, w.caching, staged && wrote, exited, committed, failed)
    ensures var done := TouchStep(d, id, w, a);
            var nowStaged, nowWrote := staged || a == Stage(true), wrote && a != WriteChunk(false);
            && StreamedTo(done.pc, done.w.caching, nowStaged && nowWrote, exited || a == Exit(true), committed || a == Commit(true), failed || a == Commit(false))
            && !done.pc.Encoding? && !done.pc.Finished? && !done.pc.Opening?
            && (done.pc.Starting? || Before(done.pc) ==> !nowStaged && nowWrote)
  {
  }

  lemma {:induction false} SettleStreams(
    c: Config, g: Ledger, id: Identity, pc: Pc, h: Held, l: LedgerAction, caching: bool, cached: bool, exited: bool, committed: bool, failed: bool)
    requires CanSettle(g, id, pc, h, l)
    requires StreamedTo(pc, caching, cached, exited, committed, failed)
    ensures StreamedTo(SettleStep(c, g, id, pc, h, l).pc, caching, cached, exited, committed, failed)
  {
  }

  /** Where a stream's events leave it. */
  ghost predicate StreamFits(c: Config, events: seq<Event>, t: nat)
    requires Runs(c, events) && t in StateAfter(c, events).tasks
  {
    var task := StateAfter(c, events).tasks[t];
    && !task.pc.Encoding? && !task.pc.Finished? && !task.pc.Opening?
    && (task.pc.Starting? || Before(task.pc) ==> Touch(t, Stage(true)) !in events && Touch(t, WriteChunk(false)) !in events)
    && StreamedTo(task.pc, task.work.caching, Cached(events, t), Exited(events, t), Touch(t, Commit(true)) in events, Touch(t, Commit(false)) in events)
  }

  lemma {:induction false} NoTouchYet(c: Config, events: seq<Event>, t: nat, a: DiskAction)
    requires Runs(c, events) && t !in StateAfter(c, events).tasks
    ensures Touch(t, a) !in events
  {
    if events != [] {
      OwnStep(c, StateAfter(c, Front(events)), Last(events));
      NoTouchYet(c, Front(events), t, a);
      assert events == Front(events) + [Last(events)];
    }
  }

  lemma {:induction false} StreamBegins(c: Config, events: seq<Event>, t: nat)
    requires Runs(c, events) && t in StateAfter(c, events).tasks && StateAfter(c, events).tasks[t].id.kind.Live?
    requires events != [] && t !in StateAfter(c, Front(events)).tasks
    ensures StreamFits(c, events, t)
  {
    OwnStep(c, StateAfter(c, Front(events)), Last(events));
    assert events == Front(events) + [Last(events)];
    NoTouchYet(c, Front(events), t, Stage(true));
    NoTouchYet(c, Front(events), t, WriteChunk(false));
    NoTouchYet(c, Front(events), t, Exit(true));
    NoTouchYet(c, Front(events), t, Commit(true));
    NoTouchYet(c, Front(events), t, Commit(false));
  }

  lemma {:induction false} StreamGoesOn(c: Config, front: seq<Event>, e: Event, t: nat)
    requires Runs(c, front + [e]) && Runs(c, front) && t in StateAfter(c, front).tasks && StateAfter(c, front).tasks[t].id.kind.Live?
    requires StreamFits(c, front, t)
    ensures t in StateAfter(c, front + [e]).tasks && StreamFits(c, front + [e], t)
  {
    var before := StateAfter(c, front);
    var task := before.tasks[t];
    RunGoesOn(c, front, e);
    OwnStep(c, before, e);
    if e.t != t {
      OthersLeaveIt(c, before, e, t);
    } else if e.Touch? {
      TouchStreams(c, before.d, task.id, task.pc, task.work, e.d,
                   Touch(t, Stage(true)) in front, Touch(t, WriteChunk(false)) !in front, Exited(front, t),
                   Touch(t, Commit(true)) in front, Touch(t, Commit(false)) in front);
    } else {
      SettleStreams(c, before.g, task.id, task.pc, task.held, e.l, task.work.caching, Cached(front, t), Exited(front, t),
                    Touch(t, Commit(true)) in front, Touch(t, Commit(false)) in front);
      StreamStaysOut(c, before.g, task.id, task.pc, task.held, e.l);
    }
  }

  lemma {:induction false} StreamStaysOut(c: Config, g: Ledger, id: Identity, pc: Pc, h: Held, l: LedgerAction)
    requires CanSettle(g, id, pc, h, l) && !pc.Encoding? && !pc.Finished? && !pc.Opening?
    ensures var next := SettleStep(c, g, id, pc, h, l).pc;
            !next.Encoding? && !next.Finished? && !next.Opening? && (next.Starting? || Before(next) ==> Before(pc))
  {
  }

  lemma {:induction false} EveryStreamFits(c: Config, events: seq<Event>, t: nat)
    requires Runs(c, events) && t in StateAfter(c, events).tasks && StateAfter(c, events).tasks[t].id.kind.Live?
    ensures StreamFits(c, events, t)
  {
    var before, e := StateAfter(c, Front(events)), Last(events);
    OwnStep(c, before, e);
    if t !in before.tasks {
      StreamBegins(c, events, t);
    } else {
      if e.t != t {
        OthersLeaveIt(c, before, e, t);
      }
      EveryStreamFits(c, Front(events), t);
      assert events == Front(events) + [e];
      StreamGoesOn(c, Front(events), e, t);
    }
  }

  /** A stream that is done after its encoder succeeded has committed what it
      sent exactly if it had a staging file, no write to it failed, and neither
      did the commit. */
  lemma {:induction false} StreamEndsInTheCache(c: Config, events: seq<Event>, t: nat)
    requires Runs(c, events) && t in StateAfter(c, events).tasks && StateAfter(c, events).tasks[t].id.kind.Live?
    requires StateAfter(c, events).tasks[t].pc.Done? && Exited(events, t)
    ensures Touch(t, Commit(true)) in events <==> Cached(events, t) && Touch(t, Commit(false)) !in events
  {
    EveryStreamFits(c, events, t);
  }

  /** Everything a stream read, in order. */
  function ReadBy(events: seq<Event>, t: nat): (bytes: Bytes)
    decreases |events|
  {
    if events == [] then []
    else
      var before, e := ReadBy(Front(events), t), Last(events);
      if e.Touch? && e.t == t && e.d.Read? then before + e.d.bytes else before
  }

  /** A stream sends each chunk before it reads the next. */
  predicate SentUpTo(pc: Pc, read: Bytes, sent: Bytes, chunk: Bytes, exited: bool) {
    && (Before(pc) || pc.Starting? || pc.Reading? || pc.Exiting? || exited ==> sent == read)
    && (pc.Writing? || pc.Sending? ==> sent + chunk == read && !exited)
    && (Before(pc) || pc.Starting? || pc.Reading? || pc.Exiting? ==> !exited)
  }

  lemma {:induction false} TouchSends(c: Config, d: Disk, id: Identity, pc: Pc, w: Work, a: DiskAction, read: Bytes, sent: Bytes, chunk: Bytes, exited: bool)
    requires CanTouch(c, d, id, pc, w, a) && id.kind.Live? && !pc.Encoding? && !pc.Finished? && !pc.Opening?
    requires SentUpTo(pc, read, sent, chunk, exited)
    ensures SentUpTo(TouchStep(d, id, w, a).pc,
                     if a.Read? then read + a.bytes else read,
                     if a == Send(true) then sent + chunk else sent,
                     if a.Read? then a.bytes else chunk,
                     exited || a == Exit(true))
  {
  }

  lemma {:induction false} SettleSends(c: Config, g: Ledger, id: Identity, pc: Pc, h: Held, l: LedgerAction, read: Bytes, sent: Bytes, chunk: Bytes, exited: bool)
    requires CanSettle(g, id, pc, h, l) && SentUpTo(pc, read, sent, chunk, exited)
    ensures SentUpTo(SettleStep(c, g, id, pc, h, l).pc, read, sent, chunk, exited)
  {
  }

  lemma {:induction false} NothingReadYet(c: Config, events: seq<Event>, t: nat)
    requires Runs(c, events) && t !in StateAfter(c, events).tasks
    ensures ReadBy(events, t) == [] && SentBy(events, t) == []
  {
    if events != [] {
      OwnStep(c, StateAfter(c, Front(events)), Last(events));
      NothingReadYet(c, Front(events), t);
    }
  }

  ghost predicate Sends(c: Config, events: seq<Event>, t: nat)
    requires Runs(c, events) && t in StateAfter(c, events).tasks
  {
    SentUpTo(StateAfter(c, events).tasks[t].pc, ReadBy(events, t), SentBy(events, t), LastRead(events, t), Exited(events, t))
  }

  lemma {:induction false} SendsOn(c: Config, front: seq<Event>, e: Event, t: nat)
    requires Runs(c, front + [e]) && Runs(c, front) && t in StateAfter(c, front).tasks && StateAfter(c, front).tasks[t].id.kind.Live?
    requires Sends(c, front, t) && StreamFits(c, front, t)
    ensures t in StateAfter(c, front + [e]).tasks && Sends(c, front + [e], t)
  {
    var before := StateAfter(c, front);
    var task := before.tasks[t];
    RunGoesOn(c, front, e);
    assert Front(front + [e]) == front && Last(front + [e]) == e;
    OwnStep(c, before, e);
    if e.t != t {
      OthersLeaveIt(c, before, e, t);
    } else if e.Touch? {
      TouchSends(c, before.d, task.id, task.pc, task.work, e.d, ReadBy(front, t), SentBy(front, t), LastRead(front, t), Exited(front, t));
    } else {
      SettleSends(c, before.g, task.id, task.pc, task.held, e.l, ReadBy(front, t), SentBy(front, t), LastRead(front, t), Exited(front, t));
    }
  }

  /** Every chunk read is sent before the next, and a stream whose encoder exited
      has sent all it read. */
  lemma {:induction false} StreamSendsAllItReads(c: Config, events: seq<Event>, t: nat)
    requires Runs(c, events) && t in StateAfter(c, events).tasks && StateAfter(c, events).tasks[t].id.kind.Live?
    ensures Sends(c, events, t)
    ensures Exited(events, t) ==> SentBy(events, t) == ReadBy(events, t)
  {
    var before, e := StateAfter(c, Front(events)), Last(events);
    OwnStep(c, before, e);
    assert events == Front(events) + [e];
    if t !in before.tasks {
      NothingReadYet(c, Front(events), t);
      NoTouchYet(c, Front(events), t, Exit(true));
    } else {
      if e.t != t {
        OthersLeaveIt(c, before, e, t);
      }
      StreamSendsAllItReads(c, Front(events), t);
      EveryStreamFits(c, Front(events), t);
      SendsOn(c, Front(events), e, t);
    }
  }

  /** What ends an encode: its encoder exits, or it never had a file to write, or
      nobody listens any more. */
  predicate IsReason(e: Event, t: nat, live: bool) {
    && e.Touch? && e.t == t
    && (e.d.Exit? || (if live then e.d == Send(false) || e.d.Leave? else e.d == Stage(false)))
  }

  ghost predicate HasReason(events: seq<Event>, t: nat, live: bool) {
    exists e :: e in events && IsReason(e, t, live)
  }

  predicate PastEncode(pc: Pc) {
    pc.Finished? || pc.Committing? || pc.Opening? || pc.Pruning? || pc.Discarding?
  }

  lemma {:induction false} TouchHasReason(c: Config, d: Disk, id: Identity, pc: Pc, w: Work, a: DiskAction, t: nat)
    requires CanTouch(c, d, id, pc, w, a) && !PastEncode(pc)
    requires if id.kind.Live? then !pc.Encoding? else !pc.Reading? && !pc.Writing? && !pc.Sending? && !pc.Exiting?
    ensures var next := TouchStep(d, id, w, a).pc;
            PastEncode(next) || ((Releasing(next) || next.Done?) && !pc.Locked?) ==> IsReason(Touch(t, a), t, id.kind.Live?)
  {
  }

  lemma {:induction false} SettleKeepsReason(c: Config, g: Ledger, id: Identity, pc: Pc, h: Held, l: LedgerAction)
    requires CanSettle(g, id, pc, h, l)
    ensures !PastEncode(SettleStep(c, g, id, pc, h, l).pc)
    ensures !Before(pc) ==> Releasing(pc)
  {
  }

  /** A task past its encode, or on its way out after one, has a reason to be. */
  ghost predicate Reasoned(c: Config, events: seq<Event>, t: nat)
    requires Runs(c, events) && t in StateAfter(c, events).tasks
  {
    var task := StateAfter(c, events).tasks[t];
    PastEncode(task.pc) || ((Releasing(task.pc) || task.pc.Done?) && FateOf(c, events, t).Ran?) ==> HasReason(events, t, task.id.kind.Live?)
  }

  lemma {:induction false} ReasonsGoOn(c: Config, front: seq<Event>, e: Event, t: nat)
    requires Runs(c, front + [e]) && Runs(c, front) && t in StateAfter(c, front).tasks && Reasoned(c, front, t)
    requires Fits(StateAfter(c, front).tasks[t].pc, FateOf(c, front, t))
    requires var task := StateAfter(c, front).tasks[t];
             if task.id.kind.Live? then !task.pc.Encoding? else !task.pc.Reading? && !task.pc.Writing? && !task.pc.Sending? && !task.pc.Exiting?
    ensures t in StateAfter(c, front + [e]).tasks && Reasoned(c, front + [e], t)
  {
    var before := StateAfter(c, front);
    var task := before.tasks[t];
    RunGoesOn(c, front, e);
    assert Front(front + [e]) == front && Last(front + [e]) == e;
    OwnStep(c, before, e);
    assert forall x | x in front :: x in front + [e];
    assert e in front + [e];
    if e.t != t {
      OthersLeaveIt(c, before, e, t);
    } else if e.Touch? {
      if !PastEncode(task.pc) {
        TouchHasReason(c, before.d, task.id, task.pc, task.work, e.d, t);
      }
    } else {
      SettleKeepsReason(c, before.g, task.id, task.pc, task.held, e.l);
    }
  }

  /** No encode is dropped on the way: one that started is over only because its
      encoder exited, it had no file to write, or its listener left. */
  lemma {:induction false} EncodesEndForAReason(c: Config, events: seq<Event>, t: nat)
    requires Runs(c, events) && t in StateAfter(c, events).tasks
    ensures Reasoned(c, events, t)
  {
    var before, e := StateAfter(c, Front(events)), Last(events);
    OwnStep(c, before, e);
    if t in before.tasks {
      if e.t != t {
        OthersLeaveIt(c, before, e, t);
      }
      EncodesEndForAReason(c, Front(events), t);
      EveryTaskMeetsItsFate(c, Front(events), t);
      if before.tasks[t].id.kind.Live? {
        EveryStreamFits(c, Front(events), t);
      } else {
        EveryEncodeEndsWith(c, Front(events), t);
      }
      assert events == Front(events) + [e];
      ReasonsGoOn(c, Front(events), e, t);
    }
  }

  // ---- every task ends ----

  /** How far along its way a task is. A stream's loop ends where it started, so
      each chunk is paid for when it is read. */
  function Rank(kind: Kind, pc: Pc): (rank: int) {
    match pc
    case Entering | Claiming => 0
    case Waiting | WantTwo => 1
    case Locked | GivingOneBack => 2
    case WantGlobal => 3
    case WantUser => 4
    case WantSpawn => 5
    case BackOutUser | Starting => 6
    case BackOutGlobal | Encoding | Reading => 7
    case Writing => 5
    case Sending => 6
    case Finished | Exiting => 8
    case Committing => 9
    case Opening => 10
    case Pruning | Discarding => 11
    case RelClaim => 12
    case RelGlobal => if kind.Live? then 16 else 13
    case RelUser => if kind.Live? then 15 else 14
    case Unlocking => if kind.Live? then 12 else 15
    case DroppingRef => if kind.Live? then 13 else 16
    case RemoveCheck => 17
    case RelActive => if kind.Live? then 14 else 18
    case Done => 19
  }

  /** What an event adds to what a task may take: its encoder's output, its chunks. */
  function Pays(e: Event): (n: nat) {
    if e.Touch? && e.d.Encode? then 1 else if e.Touch? && e.d.Read? then 3 else 0
  }

  lemma {:induction false} SettleGoesOn(c: Config, g: Ledger, id: Identity, pc: Pc, h: Held, l: LedgerAction)
    requires CanSettle(g, id, pc, h, l) && (id.kind.Live? ==> !pc.RelClaim? && !pc.RemoveCheck?)
    ensures Rank(id.kind, SettleStep(c, g, id, pc, h, l).pc) > Rank(id.kind, pc)
    ensures id.kind.Live? ==> !SettleStep(c, g, id, pc, h, l).pc.RelClaim? && !SettleStep(c, g, id, pc, h, l).pc.RemoveCheck?
  {
  }

  lemma {:induction false} TouchGoesOn(c: Config, d: Disk, id: Identity, pc: Pc, w: Work, a: DiskAction, t: nat)
    requires CanTouch(c, d, id, pc, w, a) && (if id.kind.Live? then !pc.RelClaim? && !pc.RemoveCheck? else !pc.Exiting?)
    ensures Rank(id.kind, TouchStep(d, id, w, a).pc) > Rank(id.kind, pc) - Pays(Touch(t, a))
    ensures id.kind.Live? ==> !TouchStep(d, id, w, a).pc.RelClaim? && !TouchStep(d, id, w, a).pc.RemoveCheck?
  {
  }

  /** How many of the events are a task's own, its beginning apart. */
  function Own(events: seq<Event>, t: nat): (n: nat)
    decreases |events|
  {
    if events == [] then 0
    else Own(Front(events), t) + (if Last(events).t == t && !Last(events).Begin? then 1 else 0)
  }

  function Paid(events: seq<Event>, t: nat): (n: nat)
    decreases |events|
  {
    if events == [] then 0
    else Paid(Front(events), t) + (if Last(events).t == t then Pays(Last(events)) else 0)
  }

  lemma {:induction false} NoneOwnedYet(c: Config, events: seq<Event>, t: nat)
    requires Runs(c, events) && t !in StateAfter(c, events).tasks
    ensures Own(events, t) == 0 && Paid(events, t) == 0
  {
    if events != [] {
      OwnStep(c, StateAfter(c, Front(events)), Last(events));
      NoneOwnedYet(c, Front(events), t);
    }
  }

  /** Where a task is on its way, and how much of it it has come. */
  ghost predicate OnItsWay(c: Config, events: seq<Event>, t: nat)
    requires Runs(c, events) && t in StateAfter(c, events).tasks
  {
    var task := StateAfter(c, events).tasks[t];
    && Own(events, t) <= Rank(task.id.kind, task.pc) + Paid(events, t)
    && (task.id.kind.Live? ==> !task.pc.RelClaim? && !task.pc.RemoveCheck?)
  }

  lemma {:induction false} OwnGoesOn(c: Config, front: seq<Event>, e: Event)
    requires Runs(c, front + [e]) && Runs(c, front) && e.t in StateAfter(c, front).tasks && OnItsWay(c, front, e.t)
    requires !StateAfter(c, front).tasks[e.t].id.kind.Live? ==> !StateAfter(c, front).tasks[e.t].pc.Exiting?
    ensures e.t in StateAfter(c, front + [e]).tasks && OnItsWay(c, front + [e], e.t)
  {
    var before := StateAfter(c, front);
    var task := before.tasks[e.t];
    RunGoesOn(c, front, e);
    assert Front(front + [e]) == front && Last(front + [e]) == e;
    OwnStep(c, before, e);
    if e.Settle? {
      SettleGoesOn(c, before.g, task.id, task.pc, task.held, e.l);
    } else {
      TouchGoesOn(c, before.d, task.id, task.pc, task.work, e.d, e.t);
    }
  }

  lemma {:induction false} EveryTaskIsOnItsWay(c: Config, events: seq<Event>, t: nat)
    requires Runs(c, events) && t in StateAfter(c, events).tasks
    ensures OnItsWay(c, events, t)
  {
    var front, e := Front(events), Last(events);
    var before := StateAfter(c, front);
    OwnStep(c, before, e);
    if t !in before.tasks {
      NoneOwnedYet(c, front, t);
    } else {
      EveryTaskIsOnItsWay(c, front, t);
      assert events == front + [e];
      if e.t == t {
        if !before.tasks[t].id.kind.Live? {
          EveryEncodeEndsWith(c, front, t);
        }
        OwnGoesOn(c, front, e);
      } else {
        OthersPassBy(c, front, e, t);
      }
    }
  }

  lemma {:induction false} OthersPassBy(c: Config, front: seq<Event>, e: Event, t: nat)
    requires Runs(c, front + [e]) && Runs(c, front) && t in StateAfter(c, front).tasks && OnItsWay(c, front, t) && e.t != t
    ensures t in StateAfter(c, front + [e]).tasks && OnItsWay(c, front + [e], t)
  {
    RunGoesOn(c, front, e);
    assert Front(front + [e]) == front && Last(front + [e]) == e;
    OthersLeaveIt(c, StateAfter(c, front), e, t);
  }

  lemma RankIsBounded(kind: Kind, pc: Pc)
    ensures Rank(kind, pc) <= 19
  {
  }

  /** No task goes round in circles: in every run it takes at most nineteen steps
      besides its encoder's writes and three for each chunk it reads. */
  lemma {:induction false} EveryTaskGoesOn(c: Config, events: seq<Event>, t: nat)
    requires Runs(c, events) && t in StateAfter(c, events).tasks
    ensures Own(events, t) <= 19 + Paid(events, t)
  {
    EveryTaskIsOnItsWay(c, events, t);
    RankIsBounded(StateAfter(c, events).tasks[t].id.kind, StateAfter(c, events).tasks[t].pc);
  }

  /** A step a task can take wherever it is, unless it waits for a lock another holds. */
  function NextOf(t: nat, pc: Pc): (e: Event) {
    match pc
    case Entering => Settle(t, Enter)
    case Waiting => Settle(t, Lock)
    case Locked => Touch(t, LookAgain)
    case WantGlobal => Settle(t, TakeGlobal)
    case WantUser => Settle(t, TakeUser)
    case BackOutUser | BackOutGlobal => Settle(t, BackOut)
    case Claiming => Settle(t, Claim)
    case WantTwo => Settle(t, TakeTwo)
    case GivingOneBack => Settle(t, GiveOneBack)
    case WantSpawn => Settle(t, Spawn)
    case Starting => Touch(t, Stage(false))
    case Encoding | Exiting => Touch(t, Exit(false))
    case Finished => Touch(t, LookBeforeCommit)
    case Committing => Touch(t, Commit(true))
    case Opening => Touch(t, Open)
    case Pruning => Touch(t, Prune({}))
    case Discarding => Touch(t, Discard(true))
    case Reading => Touch(t, Eof)
    case Writing => Touch(t, WriteChunk(true))
    case Sending => Touch(t, Send(true))
    case _ => Settle(t, Release)
  }

  lemma {:induction false} ItsNextIsPossible(c: Config, s: State, t: nat)
    requires t in s.tasks && !s.tasks[t].pc.Done?
    ensures Possible(c, s, NextOf(t, s.tasks[t].pc)) <==> !s.tasks[t].pc.Waiting? || RefOf(s.tasks[t].held) !in s.g.locked
  {
  }

  /** Nothing ever stands still for good: while some task is not done, some task
      can take a step of its own, though every wait be seen through. */
  lemma {:induction false} SomeoneCanGoOn(c: Config, events: seq<Event>, t: nat) returns (u: nat)
    requires CollisionFree(c.hash) && Runs(c, events)
    requires t in StateAfter(c, events).tasks && !StateAfter(c, events).tasks[t].pc.Done?
    ensures u in StateAfter(c, events).tasks && !StateAfter(c, events).tasks[u].pc.Done?
    ensures Possible(c, StateAfter(c, events), NextOf(u, StateAfter(c, events).tasks[u].pc))
  {
    var s := StateAfter(c, events);
    u := t;
    if s.tasks[t].pc.Waiting? && RefOf(s.tasks[t].held) in s.g.locked {
      RunKeepsInv(c, events);
      u := HolderOf(c, s, RefOf(s.tasks[t].held));
    }
    ItsNextIsPossible(c, s, u);
  }

  lemma {:induction false} HolderOf(c: Config, s: State, lock: nat) returns (u: nat)
    requires Inv(c, s) && lock in s.g.locked
    ensures u in s.tasks && !s.tasks[u].pc.Done? && !s.tasks[u].pc.Waiting?
  {
    assert |Holders(s.tasks, Holding(lock))| == Bit(lock in s.g.locked);
    assert Holders(s.tasks, Holding(lock)) != {};
    u :| u in Holders(s.tasks, Holding(lock));
    assert Shape(s.tasks[u].id.kind, s.tasks[u].pc, s.tasks[u].held);
  }

  // ---- what the state remembers is what happened ----

  /** The last thing to happen to a key was a cancelled wait. */
  ghost predicate LastGivenUp(c: Config, events: seq<Event>, key: string)
    requires Runs(c, events)
    decreases |events|
  {
    events != [] &&
    var before, e := StateAfter(c, Front(events)), Last(events);
    if !e.Settle? || before.tasks[e.t].id.key != key then LastGivenUp(c, Front(events), key)
    else if e.l.CancelWait? then true
    else if e.l.Enter? || (e.l.Release? && before.tasks[e.t].pc.RemoveCheck? && before.tasks[e.t].id.kind.Probe?) then false
    else LastGivenUp(c, Front(events), key)
  }

  /** The two histories a state carries are those of its run. */
  lemma {:induction false} HistoriesAreTrue(c: Config, events: seq<Event>, t: nat, key: string)
    requires Runs(c, events)
    ensures t in StateAfter(c, events).spawned <==> Settle(t, Spawn) in events
    ensures key in StateAfter(c, events).abandoned <==> LastGivenUp(c, events, key)
  {
    if events != [] {
      HistoriesAreTrue(c, Front(events), t, key);
      assert events == Front(events) + [Last(events)];
    }
  }
}
