/** What the events of a run say happened, apart from the steps that make it
    happen, and that every state is what they say. */
module TranscodeHistory {
  import opened Decimal
  import opened CacheNames
  import opened TranscodeCache
  import opened TranscodeProtocol
  import opened TranscodeAccounts
  import opened TranscodeInvariant

  // ---- runs, and the state after each ----

  ghost predicate Runs(c: Config, events: seq<Event>)
    decreases |events|, 0
  {
    events == [] || (Runs(c, Front(events)) && Possible(c, StateAfter(c, Front(events)), Last(events)))
  }

  ghost function StateAfter(c: Config, events: seq<Event>): (s: State)
    requires Runs(c, events)
    decreases |events|, 1
  {
    if events == [] then Init(c) else Apply(c, StateAfter(c, Front(events)), Last(events))
  }

  function Front(events: seq<Event>): (front: seq<Event>)
    requires events != []
  {
    events[..|events| - 1]
  }

  function Last(events: seq<Event>): (last: Event)
    requires events != []
  {
    events[|events| - 1]
  }

  lemma {:induction false} LeadsIff(c: Config, events: seq<Event>, s: State)
    ensures Leads(c, events, s) <==> Runs(c, events) && s == StateAfter(c, events)
  {
    if events != [] {
      if Leads(c, events, s) {
        var front, last := events[..|events| - 1], events[|events| - 1];
        var before :| Leads(c, front, before) && Step(c, before, last, s);
        LeadsIff(c, front, before);
      }
      if Runs(c, events) {
        LeadsIff(c, Front(events), StateAfter(c, Front(events)));
        assert Step(c, StateAfter(c, Front(events)), Last(events), StateAfter(c, events));
      }
    }
  }

  lemma {:induction false} RunKeepsInv(c: Config, events: seq<Event>)
    requires CollisionFree(c.hash) && Runs(c, events)
    ensures Inv(c, StateAfter(c, events))
  {
    LeadsIff(c, events, StateAfter(c, events));
    EveryStateKeepsInv(c, events, StateAfter(c, events));
  }

  lemma {:induction false} RunWorks(c: Config, events: seq<Event>)
    requires CollisionFree(c.hash) && Runs(c, events)
    ensures Works(c, StateAfter(c, events).d, StateAfter(c, events).tasks)
  {
    RunKeepsInv(c, events);
  }

  lemma {:induction false} RunGoesOn(c: Config, events: seq<Event>, e: Event)
    ensures Runs(c, events + [e]) <==> Runs(c, events) && Possible(c, StateAfter(c, events), e)
    ensures Runs(c, events + [e]) ==> StateAfter(c, events + [e]) == Apply(c, StateAfter(c, events), e)
  {
    assert Front(events + [e]) == events && Last(events + [e]) == e;
  }

  /** An event is some task's own, or leaves that task as it is. */
  lemma {:induction false} OthersLeaveIt(c: Config, s: State, e: Event, t: nat)
    requires Possible(c, s, e) && t in s.tasks && e.t != t
    ensures t in Apply(c, s, e).tasks && Apply(c, s, e).tasks[t] == s.tasks[t]
  {
  }

  lemma {:induction false} OwnStep(c: Config, s: State, e: Event)
    requires Possible(c, s, e)
    ensures e.t in Apply(c, s, e).tasks
    ensures e.Begin? ==> e.t !in s.tasks && Apply(c, s, e).tasks[e.t] == NewTask(c, e.kind, e.job, e.user) && Apply(c, s, e).d == s.d
    ensures e.Settle? ==>
              var task := s.tasks[e.t];
              var done := SettleStep(c, s.g, task.id, task.pc, task.held, e.l);
              && CanSettle(s.g, task.id, task.pc, task.held, e.l)
              && Apply(c, s, e).tasks[e.t] == task.(held := done.h, pc := done.pc) && Apply(c, s, e).d == s.d
    ensures e.Touch? ==>
              var task := s.tasks[e.t];
              var done := TouchStep(s.d, task.id, task.work, e.d);
              && CanTouch(c, s.d, task.id, task.pc, task.work, e.d)
              && Apply(c, s, e).tasks[e.t] == task.(work := done.w, pc := done.pc) && Apply(c, s, e).d == done.d
    ensures forall t | t in Apply(c, s, e).tasks && t != e.t :: t in s.tasks
    ensures forall t | t in s.tasks :: t in Apply(c, s, e).tasks
  {
  }

  // ---- what a task was handed ----

  predicate Looks(a: DiskAction) {
    a.LookAgain? || a.LookBeforeCommit? || a.Open?
  }

  /** What a task last found under its own name when it looked: the bytes then
      there, or nothing if it came to open them and they were gone. */
  ghost function Handed(c: Config, events: seq<Event>, t: nat): (handle: Option<Bytes>)
    requires Runs(c, events)
    decreases |events|
  {
    if events == [] then None
    else
      var before, e := StateAfter(c, Front(events)), Last(events);
      if e.Touch? && e.t == t && Looks(e.d) then
        var file := before.tasks[t].id.file;
        if file in before.d.files then Some(before.d.files[file])
        else if e.d.Open? then None
        else Handed(c, Front(events), t)
      else Handed(c, Front(events), t)
  }

  lemma {:induction false} TouchHands(c: Config, d: Disk, id: Identity, pc: Pc, w: Work, a: DiskAction)
    requires CanTouch(c, d, id, pc, w, a)
    ensures TouchStep(d, id, w, a).w.handle ==
            if !Looks(a) then w.handle
            else if id.file in d.files then Some(d.files[id.file])
            else if a.Open? then None
            else w.handle
  {
  }

  /** In every run every task holds exactly what it last found. */
  lemma {:induction false} HoldsWhatItFound(c: Config, events: seq<Event>, t: nat)
    requires Runs(c, events)
    ensures Handed(c, events, t) == if t in StateAfter(c, events).tasks then StateAfter(c, events).tasks[t].work.handle else None
  {
    if events != [] {
      var before, e := StateAfter(c, Front(events)), Last(events);
      HoldsWhatItFound(c, Front(events), t);
      OwnStep(c, before, e);
      if e.t == t {
        if e.Touch? {
          TouchHands(c, before.d, before.tasks[t].id, before.tasks[t].pc, before.tasks[t].work, e.d);
        }
      } else if t in before.tasks {
        OthersLeaveIt(c, before, e, t);
      }
    }
  }

  predicate LeavingPc(pc: Pc) {
    pc.Discarding? || pc.Pruning? || pc.Done? || Releasing(pc)
  }

  lemma {:induction false} TouchLeaves(c: Config, d: Disk, id: Identity, pc: Pc, w: Work, a: DiskAction)
    requires CanTouch(c, d, id, pc, w, a) && (w.handle.Some? ==> LeavingPc(pc))
    ensures TouchStep(d, id, w, a).w.handle.Some? ==> LeavingPc(TouchStep(d, id, w, a).pc)
    ensures w.handle.Some? ==> TouchStep(d, id, w, a).w.handle == w.handle
  {
  }

  lemma {:induction false} SettleLeaves(c: Config, g: Ledger, id: Identity, pc: Pc, h: Held, l: LedgerAction)
    requires CanSettle(g, id, pc, h, l) && LeavingPc(pc)
    ensures LeavingPc(SettleStep(c, g, id, pc, h, l).pc)
  {
  }

  /** A task that was handed a file only goes on to leave. */
  lemma {:induction false} HandedIsLeaving(c: Config, events: seq<Event>, t: nat)
    requires Runs(c, events) && t in StateAfter(c, events).tasks
    ensures StateAfter(c, events).tasks[t].work.handle.Some? ==> LeavingPc(StateAfter(c, events).tasks[t].pc)
  {
    if events != [] {
      var before, e := StateAfter(c, Front(events)), Last(events);
      OwnStep(c, before, e);
      if t in before.tasks {
        HandedIsLeaving(c, Front(events), t);
        if e.t != t {
          OthersLeaveIt(c, before, e, t);
        } else if e.Touch? {
          TouchLeaves(c, before.d, before.tasks[t].id, before.tasks[t].pc, before.tasks[t].work, e.d);
        } else if before.tasks[t].work.handle.Some? {
          SettleLeaves(c, before.g, before.tasks[t].id, before.tasks[t].pc, before.tasks[t].held, e.l);
        }
      }
    }
  }

  lemma {:induction false} FrontOfSum(a: seq<Event>, b: seq<Event>)
    requires b != []
    ensures Front(a + b) == a + Front(b) && Last(a + b) == Last(b)
  {
  }

  lemma {:induction false} Prefix(c: Config, a: seq<Event>, b: seq<Event>)
    requires Runs(c, a + b)
    ensures Runs(c, a)
  {
    if b == [] {
      assert a + b == a;
    } else {
      FrontOfSum(a, b);
      Prefix(c, a, Front(b));
    }
  }

  /** What a task was handed stays in its hands, whatever else runs, is pruned or
      is committed over it. */
  lemma {:induction false} StaysInHand(c: Config, events: seq<Event>, more: seq<Event>, t: nat)
    requires Runs(c, events + more) && Runs(c, events)
    requires t in StateAfter(c, events).tasks && StateAfter(c, events).tasks[t].work.handle.Some?
    ensures t in StateAfter(c, events + more).tasks
    ensures StateAfter(c, events + more).tasks[t].work.handle == StateAfter(c, events).tasks[t].work.handle
  {
    if more == [] {
      assert events + more == events;
    } else {
      FrontOfSum(events, more);
      StaysInHand(c, events, Front(more), t);
      var so := events + Front(more);
      var before, e := StateAfter(c, so), Last(more);
      HandedIsLeaving(c, so, t);
      OwnStep(c, before, e);
      if e.t != t {
        OthersLeaveIt(c, before, e, t);
      } else if e.Touch? {
        TouchLeaves(c, before.d, before.tasks[t].id, before.tasks[t].pc, before.tasks[t].work, e.d);
      }
    }
  }

  // ---- a commit, then an open ----

  predicate PrunesFile(e: Event, file: string) {
    e.Touch? && e.d.Prune? && file in e.d.gone
  }

  lemma {:induction false} TouchKeepsFile(c: Config, d: Disk, id: Identity, pc: Pc, w: Work, a: DiskAction, file: string)
    requires CanTouch(c, d, id, pc, w, a) && file in d.files && !(a.Prune? && file in a.gone)
    ensures file in TouchStep(d, id, w, a).d.files
  {
  }

  /** A file leaves the cache only when a pruning pass takes it. */
  lemma {:induction false} FileStays(c: Config, a: seq<Event>, b: seq<Event>, file: string)
    requires Runs(c, a + b) && Runs(c, a) && file in StateAfter(c, a).d.files
    requires forall e | e in b :: !PrunesFile(e, file)
    ensures file in StateAfter(c, a + b).d.files
  {
    if b == [] {
      assert a + b == a;
    } else {
      FrontOfSum(a, b);
      FileStays(c, a, Front(b), file);
      var before, e := StateAfter(c, a + Front(b)), Last(b);
      assert e in b;
      OwnStep(c, before, e);
      if e.Touch? {
        var task := before.tasks[e.t];
        TouchKeepsFile(c, before.d, task.id, task.pc, task.work, e.d, file);
      }
    }
  }

  lemma {:induction false} IdStays(c: Config, a: seq<Event>, b: seq<Event>, t: nat)
    requires Runs(c, a + b) && Runs(c, a) && t in StateAfter(c, a).tasks
    ensures t in StateAfter(c, a + b).tasks && StateAfter(c, a + b).tasks[t].id == StateAfter(c, a).tasks[t].id
  {
    if b == [] {
      assert a + b == a;
    } else {
      FrontOfSum(a, b);
      IdStays(c, a, Front(b), t);
      var before, e := StateAfter(c, a + Front(b)), Last(b);
      OwnStep(c, before, e);
      if e.t != t {
        OthersLeaveIt(c, before, e, t);
      }
    }
  }

  lemma {:induction false} CommitPuts(c: Config, d: Disk, id: Identity, pc: Pc, w: Work)
    requires Sound(c, d, id, pc, w) && CanTouch(c, d, id, pc, w, Commit(true))
    ensures id.file in TouchStep(d, id, w, Commit(true)).d.files
  {
  }

  lemma {:induction false} CommitPutsFile(c: Config, s: State, t: nat)
    requires Works(c, s.d, s.tasks) && Possible(c, s, Touch(t, Commit(true)))
    ensures s.tasks[t].id.file in Apply(c, s, Touch(t, Commit(true))).d.files
  {
    var task := s.tasks[t];
    OwnStep(c, s, Touch(t, Commit(true)));
    CommitPuts(c, s.d, task.id, task.pc, task.work);
  }

  lemma {:induction false} CommitLands(c: Config, a: seq<Event>, t: nat)
    requires CollisionFree(c.hash) && Runs(c, a + [Touch(t, Commit(true))])
    requires Runs(c, a) && t in StateAfter(c, a).tasks
    ensures var s := StateAfter(c, a + [Touch(t, Commit(true))]);
            t in s.tasks && s.tasks[t].id == StateAfter(c, a).tasks[t].id && s.tasks[t].id.file in s.d.files
  {
    RunGoesOn(c, a, Touch(t, Commit(true)));
    RunWorks(c, a);
    CommitPutsFile(c, StateAfter(c, a), t);
    OwnStep(c, StateAfter(c, a), Touch(t, Commit(true)));
  }

  lemma {:induction false} CommittedStands(c: Config, a: seq<Event>, b: seq<Event>, t: nat)
    requires CollisionFree(c.hash) && Runs(c, a + [Touch(t, Commit(true))] + b)
    requires Runs(c, a) && t in StateAfter(c, a).tasks
    requires forall e | e in b :: !PrunesFile(e, StateAfter(c, a).tasks[t].id.file)
    ensures var s := StateAfter(c, a + [Touch(t, Commit(true))] + b);
            t in s.tasks && s.tasks[t].id == StateAfter(c, a).tasks[t].id && s.tasks[t].id.file in s.d.files
  {
    Prefix(c, a + [Touch(t, Commit(true))], b);
    CommitLands(c, a, t);
    FileStays(c, a + [Touch(t, Commit(true))], b, StateAfter(c, a).tasks[t].id.file);
    IdStays(c, a + [Touch(t, Commit(true))], b, t);
  }

  lemma {:induction false} OpenHands(c: Config, opening: seq<Event>, more: seq<Event>, t: nat)
    requires Runs(c, opening + [Touch(t, Open)] + more) && Runs(c, opening)
    requires t in StateAfter(c, opening).tasks && StateAfter(c, opening).tasks[t].id.file in StateAfter(c, opening).d.files
    ensures var s := StateAfter(c, opening);
            var all := opening + [Touch(t, Open)] + more;
            t in StateAfter(c, all).tasks && StateAfter(c, all).tasks[t].work.handle == Some(s.d.files[s.tasks[t].id.file])
  {
    var open := Touch(t, Open);
    Prefix(c, opening + [open], more);
    RunGoesOn(c, opening, open);
    OwnStep(c, StateAfter(c, opening), open);
    StaysInHand(c, opening + [open], more, t);
  }

  /** A probe or a fill that committed its encode and whose name no pass took
      before it opened it holds exactly the bytes that were under its name when
      it opened it, from then on. */
  lemma {:induction false} CommittedIsOpened(c: Config, a: seq<Event>, b: seq<Event>, more: seq<Event>, t: nat)
    requires CollisionFree(c.hash) && Runs(c, a + [Touch(t, Commit(true))] + b + [Touch(t, Open)] + more)
    requires Runs(c, a) && t in StateAfter(c, a).tasks
    requires forall e | e in b :: !PrunesFile(e, StateAfter(c, a).tasks[t].id.file)
    ensures var file := StateAfter(c, a).tasks[t].id.file;
            var opening := a + [Touch(t, Commit(true))] + b;
            var all := opening + [Touch(t, Open)] + more;
            && Runs(c, opening) && file in StateAfter(c, opening).d.files
            && t in StateAfter(c, all).tasks
            && StateAfter(c, all).tasks[t].work.handle == Some(StateAfter(c, opening).d.files[file])
  {
    var opening := a + [Touch(t, Commit(true))] + b;
    assert opening + [Touch(t, Open)] + more == opening + ([Touch(t, Open)] + more);
    Prefix(c, opening, [Touch(t, Open)] + more);
    CommittedStands(c, a, b, t);
    OpenHands(c, opening, more, t);
  }

  // ---- what is in the cache ----

  /** What an encoder has written for a task. */
  function EncodedBy(events: seq<Event>, t: nat): (bytes: Bytes)
    decreases |events|
  {
    if events == [] then []
    else
      var before, e := EncodedBy(Front(events), t), Last(events);
      if e.Touch? && e.t == t && e.d.Encode? then before + e.d.bytes else before
  }

  /** The chunk a stream read last. */
  function LastRead(events: seq<Event>, t: nat): (chunk: Bytes)
    decreases |events|
  {
    if events == [] then []
    else
      var e := Last(events);
      if e.Touch? && e.t == t && e.d.Read? then e.d.bytes else LastRead(Front(events), t)
  }

  /** What a stream has sent: each chunk once it was taken, in order. */
  function SentBy(events: seq<Event>, t: nat): (bytes: Bytes)
    decreases |events|
  {
    if events == [] then []
    else
      var before, e := SentBy(Front(events), t), Last(events);
      if e == Touch(t, Send(true)) then before + LastRead(Front(events), t) else before
  }

  /** The files of the cache: each with what the task that committed it last had
      written or, streaming, had sent; and none a pass took since. */
  ghost function Content(c: Config, events: seq<Event>): (files: map<string, Bytes>)
    requires Runs(c, events)
    decreases |events|
  {
    if events == [] then map[]
    else
      var before, e := Content(c, Front(events)), Last(events);
      if e.Touch? && e.d == Commit(true) then
        var id := StateAfter(c, Front(events)).tasks[e.t].id;
        before[id.file := if id.kind.Live? then SentBy(Front(events), e.t) else EncodedBy(Front(events), e.t)]
      else if e.Touch? && e.d.Prune? then before - e.d.gone
      else before
  }

  predicate Unwritten(pc: Pc) {
    Before(pc) || pc.Starting?
  }

  /** A task's own record of what it has written is what the events say. */
  predicate Recorded(d: Disk, id: Identity, pc: Pc, w: Work, encoded: Bytes, read: Bytes, sent: Bytes) {
    && (Unwritten(pc) ==> encoded == [])
    && (pc.Encoding? || pc.Finished? || pc.Committing? ==> !id.kind.Live? ==> Staged(d, w) == encoded)
    && w.sent == sent && (pc.Writing? || pc.Sending? ==> w.chunk == read)
  }

  lemma {:induction false} TouchRecords(c: Config, d: Disk, id: Identity, pc: Pc, w: Work, a: DiskAction, encoded: Bytes, read: Bytes, sent: Bytes)
    requires Sound(c, d, id, pc, w) && CanTouch(c, d, id, pc, w, a) && Recorded(d, id, pc, w, encoded, read, sent)
    ensures var done := TouchStep(d, id, w, a);
            Recorded(done.d, id, done.pc, done.w,
                     if a.Encode? then encoded + a.bytes else encoded,
                     if a.Read? then a.bytes else read,
                     if a == Send(true) then sent + read else sent)
  {
  }

  lemma {:induction false} SettleRecords(c: Config, g: Ledger, d: Disk, id: Identity, pc: Pc, h: Held, w: Work, l: LedgerAction, encoded: Bytes, read: Bytes, sent: Bytes)
    requires CanSettle(g, id, pc, h, l) && Recorded(d, id, pc, w, encoded, read, sent)
    ensures Recorded(d, id, SettleStep(c, g, id, pc, h, l).pc, w, encoded, read, sent)
  {
  }

  lemma {:induction false} OthersRecord(c: Config, d: Disk, mine: Work, after: Disk, id: Identity, pc: Pc, w: Work, encoded: Bytes, read: Bytes, sent: Bytes)
    requires LeavesOthers(d, mine, after) && Sound(c, d, id, pc, w)
    requires mine.stage.Some? && w.stage.Some? ==> mine.stage.value != w.stage.value
    requires Recorded(d, id, pc, w, encoded, read, sent)
    ensures Recorded(after, id, pc, w, encoded, read, sent)
  {
  }

  ghost predicate TaskRecorded(c: Config, events: seq<Event>, t: nat)
    requires Runs(c, events) && t in StateAfter(c, events).tasks
  {
    var s := StateAfter(c, events);
    Recorded(s.d, s.tasks[t].id, s.tasks[t].pc, s.tasks[t].work, EncodedBy(events, t), LastRead(events, t), SentBy(events, t))
  }

  lemma {:induction false} NothingYet(c: Config, events: seq<Event>, t: nat)
    requires Runs(c, events) && t !in StateAfter(c, events).tasks
    ensures EncodedBy(events, t) == [] && SentBy(events, t) == []
  {
    if events != [] {
      OwnStep(c, StateAfter(c, Front(events)), Last(events));
      NothingYet(c, Front(events), t);
    }
  }

  lemma {:induction false} EveryTaskRecords(c: Config, events: seq<Event>, t: nat)
    requires CollisionFree(c.hash) && Runs(c, events) && t in StateAfter(c, events).tasks
    ensures TaskRecorded(c, events, t)
  {
    var before, e := StateAfter(c, Front(events)), Last(events);
    OwnStep(c, before, e);
    RunWorks(c, Front(events));
    if t !in before.tasks {
      NothingYet(c, Front(events), t);
    } else {
      EveryTaskRecords(c, Front(events), t);
      StepRecords(c, Front(events), e, t);
      assert Front(events) + [e] == events;
    }
  }

  lemma {:induction false} StepRecords(c: Config, front: seq<Event>, e: Event, t: nat)
    requires Runs(c, front + [e]) && Runs(c, front) && t in StateAfter(c, front).tasks
    requires Works(c, StateAfter(c, front).d, StateAfter(c, front).tasks)
    requires TaskRecorded(c, front, t)
    ensures t in StateAfter(c, front + [e]).tasks && TaskRecorded(c, front + [e], t)
  {
    var before := StateAfter(c, front);
    RunGoesOn(c, front, e);
    assert Front(front + [e]) == front && Last(front + [e]) == e;
    OwnStep(c, before, e);
    var task := before.tasks[t];
    if e.t == t {
      if e.Touch? {
        TouchRecords(c, before.d, task.id, task.pc, task.work, e.d, EncodedBy(front, t), LastRead(front, t), SentBy(front, t));
      } else {
        SettleRecords(c, before.g, before.d, task.id, task.pc, task.held, task.work, e.l, EncodedBy(front, t), LastRead(front, t), SentBy(front, t));
      }
    } else {
      OthersLeaveIt(c, before, e, t);
      if e.Touch? {
        var other := before.tasks[e.t];
        TouchLeavesOthers(c, before.d, other.id, other.pc, other.work, e.d);
        OthersRecord(c, before.d, other.work, Apply(c, before, e).d, task.id, task.pc, task.work,
                     EncodedBy(front, t), LastRead(front, t), SentBy(front, t));
      }
    }
  }

  lemma {:induction false} TouchFiles(c: Config, d: Disk, id: Identity, pc: Pc, w: Work, a: DiskAction, encoded: Bytes, read: Bytes, sent: Bytes)
    requires Sound(c, d, id, pc, w) && CanTouch(c, d, id, pc, w, a) && Recorded(d, id, pc, w, encoded, read, sent)
    ensures TouchStep(d, id, w, a).d.files ==
            if a == Commit(true) then d.files[id.file := if id.kind.Live? then sent else encoded]
            else if a.Prune? then d.files - a.gone
            else d.files
  {
  }

  /** In every run the cache holds exactly the files the events say: under each
      name what was written or sent by the task that last committed it. */
  lemma {:induction false} CacheIsWhatWasCommitted(c: Config, events: seq<Event>)
    requires CollisionFree(c.hash) && Runs(c, events)
    ensures StateAfter(c, events).d.files == Content(c, events)
  {
    if events != [] {
      var before, e := StateAfter(c, Front(events)), Last(events);
      CacheIsWhatWasCommitted(c, Front(events));
      OwnStep(c, before, e);
      if e.Touch? {
        var task := before.tasks[e.t];
        RunWorks(c, Front(events));
        EveryTaskRecords(c, Front(events), e.t);
        TouchFiles(c, before.d, task.id, task.pc, task.work, e.d,
                   EncodedBy(Front(events), e.t), LastRead(Front(events), e.t), SentBy(Front(events), e.t));
      }
    }
  }
}
