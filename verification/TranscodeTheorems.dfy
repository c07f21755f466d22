/** What a reader of the transcode cache may rely on, over every run. */
module TranscodeTheorems {
  import opened Decimal
  import opened CacheNames
  import opened TranscodeCache
  import opened TranscodeProtocol
  import opened TranscodeAccounts
  import opened TranscodeInvariant

  lemma {:induction false} ReachableIsInv(c: Config, s: State)
    requires CollisionFree(c.hash) && Reachable(c, s)
    ensures Inv(c, s)
  {
    var events :| Leads(c, events, s);
    EveryStateKeepsInv(c, events, s);
  }

  // ---- one lock per key ----

  /** Everyone who waits on or holds a key's lock refers to the one lock object
      the map holds for it, and one of them at most holds it. */
  lemma {:induction false} OneLockPerKey(c: Config, s: State, t: nat, u: nat)
    requires CollisionFree(c.hash) && Reachable(c, s)
    requires t in s.tasks && u in s.tasks && s.tasks[t].id.key == s.tasks[u].id.key
    requires s.tasks[t].held.ref.Some? && s.tasks[u].held.ref.Some?
    ensures s.tasks[t].id.key in s.g.locks
    ensures s.tasks[t].held.ref == s.tasks[u].held.ref == Some(s.g.locks[s.tasks[t].id.key])
    ensures s.tasks[t].held.holds && s.tasks[u].held.holds ==> t == u
  {
    ReachableIsInv(c, s);
    OneHolderPerKey(c, s.g, s.tasks, t, u);
  }

  lemma {:induction false} OneHolderPerKey(c: Config, g: Ledger, tasks: map<nat, Task>, t: nat, u: nat)
    requires Accounts(c, g, tasks) && Locks(g, tasks)
    requires t in tasks && u in tasks && tasks[t].id.key == tasks[u].id.key
    ensures tasks[t].held.ref.Some? && tasks[u].held.ref.Some? && tasks[t].held.holds && tasks[u].held.holds ==> t == u
    ensures tasks[t].held.claim && tasks[u].held.claim ==> t == u
  {
    if tasks[t].held.ref.Some? && tasks[u].held.ref.Some? && tasks[t].held.holds && tasks[u].held.holds {
      OneHolder(tasks, t, u, Holding(tasks[t].held.ref.value));
    }
    if tasks[t].held.claim && tasks[u].held.claim {
      OneHolder(tasks, t, u, FillClaim(tasks[t].id.key));
    }
  }

  /** Two probe encodes, or two plays from the first byte, never overlap on a key. */
  lemma {:induction false} LockedEncodesNeverOverlap(c: Config, s: State, t: nat, u: nat)
    requires CollisionFree(c.hash) && Reachable(c, s)
    requires t in s.tasks && u in s.tasks && s.tasks[t].id.key == s.tasks[u].id.key
    requires TakesLock(s.tasks[t].id.kind) && TakesLock(s.tasks[u].id.kind)
    requires Running(s.tasks[t].pc) && Running(s.tasks[u].pc)
    ensures t == u
  {
    ReachableIsInv(c, s);
    RunningShape(s.tasks[t].id.kind, s.tasks[t].pc, s.tasks[t].held);
    RunningShape(s.tasks[u].id.kind, s.tasks[u].pc, s.tasks[u].held);
    OneLockPerKey(c, s, t, u);
  }

  /** However many seeks ask for it at once, a key has one fill. */
  lemma {:induction false} OneFillPerKey(c: Config, s: State, t: nat, u: nat)
    requires CollisionFree(c.hash) && Reachable(c, s)
    requires t in s.tasks && u in s.tasks && s.tasks[t].id.key == s.tasks[u].id.key
    requires s.tasks[t].held.claim && s.tasks[u].held.claim
    ensures t == u
  {
    ReachableIsInv(c, s);
    OneHolderPerKey(c, s.g, s.tasks, t, u);
  }

  // ---- keys leave the map ----

  predicate AllDone(s: State) {
    forall t | t in s.tasks :: s.tasks[t].pc.Done?
  }

  /** Once every task has ended, a seek's key is still in the map exactly when
      the last thing that happened to it was a cancelled wait. */
  lemma {:induction false} SeekKeyLeftIffAbandoned(c: Config, s: State, job: Job)
    requires CollisionFree(c.hash) && Reachable(c, s) && AllDone(s)
    requires WellFormed(job) && job.offset > 0
    ensures CacheKey(c.hash, job) in s.g.locks <==> CacheKey(c.hash, job) in s.abandoned
  {
    ReachableIsInv(c, s);
    var key := CacheKey(c.hash, job);
    NoPlayOfASeek(c, s, job);
    assert forall t | t in s.tasks :: s.tasks[t].held == NOTHING && !Attends(s.tasks[t], key);
  }

  predicate NobodyGaveUp(events: seq<Event>) {
    forall e | e in events :: !(e.Settle? && e.l.CancelWait?)
  }

  lemma {:induction false} NothingAbandoned(c: Config, events: seq<Event>, s: State)
    requires Leads(c, events, s) && NobodyGaveUp(events)
    ensures s.abandoned == {}
  {
    if events != [] {
      var front, last := events[..|events| - 1], events[|events| - 1];
      var before :| Leads(c, front, before) && Step(c, before, last, s);
      assert last in events && forall e | e in front :: e in events;
      NothingAbandoned(c, front, before);
    }
  }

  /** In every state of a run in which no wait on a lock was cancelled, a seek's
      key is in the map only while some task waits on its lock, holds it, refers
      to it or is about to make its removal check. */
  lemma {:induction false} SeekKeyIsAttended(c: Config, events: seq<Event>, s: State, job: Job)
    requires CollisionFree(c.hash) && Leads(c, events, s) && NobodyGaveUp(events)
    requires WellFormed(job) && job.offset > 0 && CacheKey(c.hash, job) in s.g.locks
    ensures Attended(s.tasks, CacheKey(c.hash, job))
  {
    EveryStateKeepsInv(c, events, s);
    NothingAbandoned(c, events, s);
    NoPlayOfASeek(c, s, job);
  }

  /** No play from the first byte ever entered a seek's key. */
  lemma {:induction false} NoPlayOfASeek(c: Config, s: State, job: Job)
    requires CollisionFree(c.hash) && Swept(c, s) && WellFormed(job) && job.offset > 0
    ensures CacheKey(c.hash, job) !in s.plays
  {
    if CacheKey(c.hash, job) in s.plays {
      var whole :| WellFormed(whole) && whole.offset == 0 && CacheKey(c.hash, whole) == CacheKey(c.hash, job);
      KeyNamesItsJob(c.hash, job, whole);
    }
  }

  /** When no wait on a lock was cancelled, no seek leaves a key behind: committed,
      failed or refused for want of a slot. */
  lemma {:induction false} NoSeekKeyLeft(c: Config, events: seq<Event>, s: State, job: Job)
    requires CollisionFree(c.hash) && Leads(c, events, s) && NobodyGaveUp(events) && AllDone(s)
    requires WellFormed(job) && job.offset > 0
    ensures CacheKey(c.hash, job) !in s.g.locks
  {
    NothingAbandoned(c, events, s);
    SeekKeyLeftIffAbandoned(c, s, job);
  }

  lemma {:induction false} OneMore(c: Config, events: seq<Event>, s: State, e: Event)
    requires Leads(c, events, s) && Possible(c, s, e)
    ensures Leads(c, events + [e], Apply(c, s, e))
  {
    assert (events + [e])[..|events|] == events;
    assert Step(c, s, e, Apply(c, s, e));
  }

  /** A probe whose request is dropped while it waits for its lock leaves the key
      with nobody to remove it, whatever the job, the limits and the digest. */
  lemma {:induction false} ACancelledWaitLeavesItsKey(c: Config, job: Job) returns (s: State)
    requires WellFormed(job) && job.offset > 0
    ensures Reachable(c, s) && AllDone(s)
    ensures CacheKey(c.hash, job) in s.g.locks
  {
    var begun := Apply(c, Init(c), Begin(0, Probe, job, 0));
    OneMore(c, [], Init(c), Begin(0, Probe, job, 0));
    var waiting := Apply(c, begun, Settle(0, Enter));
    OneMore(c, [] + [Begin(0, Probe, job, 0)], begun, Settle(0, Enter));
    s := Apply(c, waiting, Settle(0, CancelWait));
    OneMore(c, [] + [Begin(0, Probe, job, 0)] + [Settle(0, Enter)], waiting, Settle(0, CancelWait));
  }

  // ---- slots ----

  /** Every permit is free or held by a task, and no account holds more than its share. */
  lemma {:induction false} SlotsAreConserved(c: Config, s: State, user: nat)
    requires CollisionFree(c.hash) && Reachable(c, s)
    ensures 0 <= s.g.global <= c.globalLimit
    ensures s.g.global + |Holders(s.tasks, First)| + |Holders(s.tasks, Second)| == c.globalLimit
    ensures |Holders(s.tasks, UserSlot(user))| <= c.perUserLimit
    ensures s.g.active == |Holders(s.tasks, Counted)|
    ensures AllDone(s) ==> s.g.global == c.globalLimit && Available(c, s.g, user) == c.perUserLimit
                           && s.g.active == 0 && s.g.pending == {} && s.g.locked == {}
  {
    ReachableIsInv(c, s);
    assert 0 <= Available(c, s.g, user);
    if AllDone(s) {
      forall r: Resource
        ensures Holders(s.tasks, r) == {}
      {
        assert forall t | t in s.tasks :: s.tasks[t].held == NOTHING;
      }
      assert forall l :: l !in s.g.locked by {
        forall l ensures l !in s.g.locked { assert |Holders(s.tasks, Holding(l))| == 0; }
      }
      assert forall k :: k !in s.g.pending by {
        forall k ensures k !in s.g.pending { assert |Holders(s.tasks, FillClaim(k))| == 0; }
      }
    }
  }

  /** What a listener's task holds while no encode of it was ever counted: a slot
      of the server's only between taking it and handing it back. */
  predicate Unspawned(pc: Pc, h: Held) {
    match pc
    case Entering | Waiting | Locked | WantGlobal => h.slots == 0 && !h.userSlot
    case WantUser | BackOutGlobal => h.slots == 1 && !h.userSlot
    case WantSpawn | BackOutUser => h.slots == 1 && h.userSlot
    case RelClaim | RelGlobal | RelUser | Unlocking | DroppingRef | RemoveCheck | RelActive | Done => h.slots == 0 && !h.userSlot
    case _ => false
  }

  lemma {:induction false} SettleKeepsUnspawned(c: Config, g: Ledger, id: Identity, pc: Pc, h: Held, l: LedgerAction)
    requires !id.kind.Fill? && Unspawned(pc, h) && CanSettle(g, id, pc, h, l) && !l.Spawn?
    ensures Unspawned(SettleStep(c, g, id, pc, h, l).pc, SettleStep(c, g, id, pc, h, l).h)
  {
  }

  lemma {:induction false} TouchKeepsUnspawned(c: Config, d: Disk, id: Identity, pc: Pc, h: Held, w: Work, a: DiskAction)
    requires Unspawned(pc, h) && CanTouch(c, d, id, pc, w, a)
    ensures Unspawned(TouchStep(d, id, w, a).pc, h)
  {
  }

  lemma {:induction false} ListenersBeforeTheEncode(c: Config, events: seq<Event>, s: State)
    requires Leads(c, events, s)
    ensures forall t | t in s.tasks && t !in s.spawned && !s.tasks[t].id.kind.Fill? :: Unspawned(s.tasks[t].pc, s.tasks[t].held)
  {
    if events != [] {
      var front, last := events[..|events| - 1], events[|events| - 1];
      var before :| Leads(c, front, before) && Step(c, before, last, s);
      ListenersBeforeTheEncode(c, front, before);
      if last.Settle? {
        var task := before.tasks[last.t];
        if last.t !in s.spawned && !task.id.kind.Fill? {
          SettleKeepsUnspawned(c, before.g, task.id, task.pc, task.held, last.l);
        }
      } else if last.Touch? {
        var task := before.tasks[last.t];
        if last.t !in s.spawned && !task.id.kind.Fill? {
          TouchKeepsUnspawned(c, before.d, task.id, task.pc, task.held, task.work, last.d);
        }
      }
    }
  }

  /** In every run, a stream or a probe that is on its way out without an encode
      ever counted for it, whichever slot it was refused, holds neither slot. */
  lemma {:induction false} RefusedListenerHoldsNoSlot(c: Config, events: seq<Event>, s: State, t: nat)
    requires Leads(c, events, s)
    requires t in s.tasks && t !in s.spawned && !s.tasks[t].id.kind.Fill?
    requires Releasing(s.tasks[t].pc) || s.tasks[t].pc.Done?
    ensures s.tasks[t].held.slots == 0 && !s.tasks[t].held.userSlot
  {
    ListenersBeforeTheEncode(c, events, s);
  }

  /** Fills never take the last slot: at most all but one of them are theirs. */
  lemma {:induction false} FillsLeaveOneSlot(c: Config, events: seq<Event>, s: State)
    requires CollisionFree(c.hash) && Leads(c, events, s) && c.globalLimit >= 1
    ensures |Holders(s.tasks, FillSlot)| <= c.globalLimit - 1
  {
    if events == [] {
      assert Holders(s.tasks, FillSlot) == {};
    } else {
      var front, last := events[..|events| - 1], events[|events| - 1];
      var before :| Leads(c, front, before) && Step(c, before, last, s);
      FillsLeaveOneSlot(c, front, before);
      EveryStateKeepsInv(c, front, before);
      HoldersAfter(before.tasks, last.t, s.tasks[last.t], FillSlot);
      if last.Settle? {
        FillSlotsGrowOnlyByTwo(c, before, last.t, last.l);
      }
    }
  }

  lemma {:induction false} FillSlotsComeInTwos(c: Config, g: Ledger, id: Identity, pc: Pc, h: Held, l: LedgerAction)
    requires Shape(id.kind, pc, h) && CanSettle(g, id, pc, h, l)
    requires !Owns(id, h, FillSlot) && Owns(id, SettleStep(c, g, id, pc, h, l).h, FillSlot)
    ensures g.global >= 2
  {
    assert l.TakeGlobal? || l.TakeTwo? || l.GiveOneBack?;
  }

  lemma {:induction false} FillSlotsGrowOnlyByTwo(c: Config, s: State, t: nat, l: LedgerAction)
    requires Inv(c, s) && Possible(c, s, Settle(t, l))
    ensures var task := s.tasks[t];
            var left := SettleStep(c, s.g, task.id, task.pc, task.held, l).h;
            Owns(task.id, left, FillSlot) && !Owns(task.id, task.held, FillSlot) ==>
            |Holders(s.tasks, FillSlot)| <= c.globalLimit - 2
  {
    var task := s.tasks[t];
    var left := SettleStep(c, s.g, task.id, task.pc, task.held, l).h;
    if Owns(task.id, left, FillSlot) && !Owns(task.id, task.held, FillSlot) {
      FillSlotsComeInTwos(c, s.g, task.id, task.pc, task.held, l);
      SubsetSize(Holders(s.tasks, FillSlot), Holders(s.tasks, First));
    }
  }

  /** The count goes last: a task that was counted and is not a live stream has
      its count, or has ended. */
  lemma {:induction false} CountedToTheEnd(c: Config, events: seq<Event>, s: State)
    requires Leads(c, events, s)
    ensures forall t | t in s.spawned :: t in s.tasks
              && (s.tasks[t].held.counted || s.tasks[t].pc.Done? || s.tasks[t].id.kind.Live?)
  {
    if events != [] {
      var front, last := events[..|events| - 1], events[|events| - 1];
      var before :| Leads(c, front, before) && Step(c, before, last, s);
      CountedToTheEnd(c, front, before);
      if last.Settle? {
        var task := before.tasks[last.t];
        CountEndsTheTask(c, before.g, task.id, task.pc, task.held, last.l);
      } else if last.Touch? {
        assert s.tasks[last.t].held == before.tasks[last.t].held;
        assert !before.tasks[last.t].pc.Done?;
      }
    }
  }

  lemma {:induction false} CountEndsTheTask(c: Config, g: Ledger, id: Identity, pc: Pc, h: Held, l: LedgerAction)
    requires CanSettle(g, id, pc, h, l)
    ensures !pc.Done?
    ensures var done := SettleStep(c, g, id, pc, h, l);
            && (l.Spawn? ==> done.h.counted)
            && (h.counted && !done.h.counted ==> done.pc.Done? || id.kind.Live?)
  {
  }

  /** A caller that sees no active transcode finds every fill and probe that ever
      started with its slots, its lock and its claim given back. */
  lemma {:induction false} NoCountNothingHeld(c: Config, events: seq<Event>, s: State, t: nat)
    requires CollisionFree(c.hash) && Leads(c, events, s)
    requires s.g.active == 0 && t in s.spawned && t in s.tasks && !s.tasks[t].id.kind.Live?
    ensures s.tasks[t].pc.Done? && s.tasks[t].held == NOTHING
  {
    EveryStateKeepsInv(c, events, s);
    CountedToTheEnd(c, events, s);
    if s.tasks[t].held.counted {
      HolderCounts(s.tasks, t, Counted);
    }
  }

  // ---- files ----

  /** A file under a final name is the whole output of one successful encode of
      exactly the source, format, bitrate, gain and offset that name stands for. */
  lemma {:induction false} CommittedFilesAreWhole(c: Config, s: State, file: string)
    requires CollisionFree(c.hash) && Reachable(c, s) && file in s.d.files
    ensures exists j :: WellFormed(j) && FileName(c.hash, j) == file && c.whole(j, s.d.files[file])
    ensures forall j | WellFormed(j) && FileName(c.hash, j) == file :: c.whole(j, s.d.files[file])
  {
    ReachableIsInv(c, s);
    var j :| WellFormed(j) && FileName(c.hash, j) == file;
    assert c.whole(j, s.d.files[file]);
  }

  /** Whatever a probe or a fill opened is a whole encode of its own job. */
  lemma {:induction false} OpenedFilesAreTheirs(c: Config, s: State, t: nat)
    requires CollisionFree(c.hash) && Reachable(c, s)
    requires t in s.tasks && s.tasks[t].work.handle.Some?
    ensures c.whole(s.tasks[t].id.job, s.tasks[t].work.handle.value)
  {
    ReachableIsInv(c, s);
  }

  /** A live stream that commits has cached exactly the bytes it sent. */
  lemma {:induction false} LiveCommitIsWhatWasSent(c: Config, s: State, t: nat)
    requires CollisionFree(c.hash) && Reachable(c, s)
    requires Possible(c, s, Touch(t, Commit(true))) && s.tasks[t].id.kind.Live?
    ensures var after := Apply(c, s, Touch(t, Commit(true)));
            && s.tasks[t].id.file in after.d.files
            && after.d.files[s.tasks[t].id.file] == s.tasks[t].work.sent
            && c.whole(s.tasks[t].id.job, s.tasks[t].work.sent)
  {
    ReachableIsInv(c, s);
    var task := s.tasks[t];
    assert Sound(c, s.d, task.id, task.pc, task.work);
  }
}
