/** The invariant of every run of the transcode cache, and why each step keeps it. */
module TranscodeInvariant {
  import opened Decimal
  import opened CacheNames
  import opened TranscodeCache
  import opened TranscodeProtocol
  import opened TranscodeAccounts

  /** Every committed file is the whole output of an encode of the job that has
      its name, and some job has it. */
  ghost predicate Committed(c: Config, d: Disk) {
    && (forall j | WellFormed(j) && FileName(c.hash, j) in d.files :: c.whole(j, d.files[FileName(c.hash, j)]))
    && (forall f | f in d.files :: exists j :: WellFormed(j) && FileName(c.hash, j) == f)
  }

  /** What a task's own work says of its staging file and of what it opened. */
  ghost predicate Sound(c: Config, d: Disk, id: Identity, pc: Pc, w: Work) {
    && (w.stage.Some? ==> w.stage.value < d.nextStage)
    && (Before(pc) || pc.Starting? ==> w.stage.None? && !w.caching && w.sent == [])
    && (pc.Encoding? ==> w.stage.Some? && w.stage.value in d.staging)
    && ((pc.Finished? || pc.Committing?) && !id.kind.Live? ==>
          w.stage.Some? && w.stage.value in d.staging && c.whole(id.job, d.staging[w.stage.value]))
    && (id.kind.Live? && pc.Committing? ==> w.caching && c.whole(id.job, w.sent))
    && (w.caching ==> id.kind.Live?)
    && (id.kind.Live? ==> !pc.Encoding? && !pc.Finished? && !pc.Opening?)
    && (!id.kind.Live? ==> !pc.Reading? && !pc.Writing? && !pc.Sending? && !pc.Exiting?)
    && (w.caching && (Running(pc) && !pc.Pruning?) ==>
          w.stage.Some? && w.stage.value in d.staging
          && d.staging[w.stage.value] == if pc.Sending? then w.sent + w.chunk else w.sent)
    && (w.handle.Some? ==> c.whole(id.job, w.handle.value))
  }

  ghost predicate Works(c: Config, d: Disk, tasks: map<nat, Task>) {
    && (forall t | t in tasks :: Sound(c, d, tasks[t].id, tasks[t].pc, tasks[t].work))
    && (forall t, u | t in tasks && u in tasks && t != u ::
          tasks[t].work.stage.Some? && tasks[u].work.stage.Some? ==>
          tasks[t].work.stage.value != tasks[u].work.stage.value)
  }

  /** This task will remove the key if nobody else does: it refers to its lock,
      or is about to check. */
  predicate Attends(task: Task, key: string) {
    task.id.key == key && (task.held.ref.Some? || (task.pc.RemoveCheck? && task.id.kind.Probe?))
  }

  ghost predicate Attended(tasks: map<nat, Task>, key: string) {
    exists t | t in tasks :: Attends(tasks[t], key)
  }

  ghost predicate Swept(c: Config, s: State) {
    && (forall k | k in s.g.locks :: k in s.plays || k in s.abandoned || Attended(s.tasks, k))
    && s.abandoned <= s.g.locks.Keys
    && (forall t | t in s.tasks && s.tasks[t].id.kind == Live(true) && s.tasks[t].held.ref.Some? ::
          s.tasks[t].id.key in s.plays)
    && (forall k | k in s.plays :: exists j :: WellFormed(j) && j.offset == 0 && CacheKey(c.hash, j) == k)
  }

  ghost predicate Inv(c: Config, s: State) {
    && Accounts(c, s.g, s.tasks)
    && Locks(s.g, s.tasks)
    && Shapes(c, s.tasks)
    && Committed(c, s.d)
    && Works(c, s.d, s.tasks)
    && Swept(c, s)
  }

  // ---- slots, references, locks, claims ----

  /** A step moves units between one task and the ledger, and nowhere else. */
  ghost predicate Balanced(c: Config, id: Identity, g: Ledger, h: Held, after: Ledger, left: Held) {
    && 0 <= after.global && after.global + left.slots == g.global + h.slots
    && after.active - Bit(left.counted) == g.active - Bit(h.counted)
    && (forall u :: 0 <= Available(c, after, u))
    && (forall u :: Available(c, after, u) + Bit(Owns(id, left, UserSlot(u)))
                    == Available(c, g, u) + Bit(Owns(id, h, UserSlot(u))))
    && (forall x :: Outside(after, x) - Bit(Owns(id, left, Ref(x))) == Outside(g, x) - Bit(Owns(id, h, Ref(x))))
    && (forall x :: Bit(x in after.locked) - Bit(Owns(id, left, Holding(x)))
                    == Bit(x in g.locked) - Bit(Owns(id, h, Holding(x))))
    && (forall k :: Bit(k in after.pending) - Bit(Owns(id, left, FillClaim(k)))
                    == Bit(k in g.pending) - Bit(Owns(id, h, FillClaim(k))))
  }

  lemma {:induction false} SettleIsBalanced(c: Config, g: Ledger, id: Identity, pc: Pc, h: Held, l: LedgerAction)
    requires LockTable(g) && Ready(pc, h) && CanSettle(g, id, pc, h, l)
    requires 0 <= g.global && 0 <= h.slots && forall u :: 0 <= Available(c, g, u)
    requires h.holds ==> h.ref.Some? && h.ref.value in g.locked
    requires h.claim ==> id.key in g.pending
    ensures var done := SettleStep(c, g, id, pc, h, l);
            Balanced(c, id, g, h, done.g, done.h)
  {
    GlobalBalance(c, g, id, pc, h, l);
    CountBalance(c, g, id, pc, h, l);
    forall u { UsersBalance(c, g, id, pc, h, l, u); }
    forall x { RefsBalance(c, g, id, pc, h, l, x); }
    forall x { LocksBalance(c, g, id, pc, h, l, x); }
    forall k { ClaimsBalance(c, g, id, pc, h, l, k); }
  }

  lemma {:induction false} BalanceKeepsAccounts(c: Config, g: Ledger, tasks: map<nat, Task>, t: nat, after: Ledger, b: Task)
    requires Accounts(c, g, tasks) && t in tasks && b.id == tasks[t].id
    requires 0 <= tasks[t].held.slots <= 2 && 0 <= b.held.slots <= 2
    requires Balanced(c, b.id, g, tasks[t].held, after, b.held)
    ensures Accounts(c, after, tasks[t := b])
  {
    forall r: Resource
      ensures |Holders(tasks[t := b], r)| == |Holders(tasks, r)| - Bit(Owns(b.id, tasks[t].held, r)) + Bit(Owns(b.id, b.held, r))
    {
      HoldersAfter(tasks, t, b, r);
    }
  }

  lemma {:induction false} SettleKeepsAccounts(c: Config, s: State, t: nat, l: LedgerAction)
    requires Inv(c, s) && Possible(c, s, Settle(t, l))
    ensures var after := Apply(c, s, Settle(t, l)); Accounts(c, after.g, after.tasks)
  {
    var task := s.tasks[t];
    var done := SettleStep(c, s.g, task.id, task.pc, task.held, l);
    ShapeIsReady(task.id.kind, task.pc, task.held);
    HoldingsAreTaken(c, s.g, s.tasks, t);
    SettleKeepsShape(c, s.g, task.id, task.pc, task.held, l);
    ShapeIsReady(task.id.kind, done.pc, done.h);
    SettleIsBalanced(c, s.g, task.id, task.pc, task.held, l);
    BalanceKeepsAccounts(c, s.g, s.tasks, t, done.g, task.(held := done.h, pc := done.pc));
  }

  /** Where nothing held changes, no count does. */
  lemma {:induction false} SameHoldersSameAccounts(c: Config, g: Ledger, tasks: map<nat, Task>, t: nat, b: Task)
    requires Accounts(c, g, tasks)
    requires if t in tasks then b.held == tasks[t].held && b.id == tasks[t].id else b.held == NOTHING
    ensures Accounts(c, g, tasks[t := b])
  {
    forall r: Resource ensures |Holders(tasks[t := b], r)| == |Holders(tasks, r)| {
      HoldersAfter(tasks, t, b, r);
    }
  }

  // ---- the lock map ----

  lemma {:induction false} EnterKeepsLocks(g: Ledger, tasks: map<nat, Task>, t: nat, b: Task)
    requires Locks(g, tasks) && t in tasks
    requires b.held.ref == Some(EnterKey(g, b.id.key).locks[b.id.key])
    ensures Locks(EnterKey(g, b.id.key), tasks[t := b])
  {
  }

  /** An entry leaves only when no task refers to its lock. */
  lemma {:induction false} RemovalKeepsLocks(c: Config, g: Ledger, tasks: map<nat, Task>, t: nat, b: Task)
    requires Accounts(c, g, tasks) && Locks(g, tasks) && t in tasks && b.held.ref.None?
    ensures Locks(RemoveIfUnshared(g, b.id.key), tasks[t := b])
  {
    var after := RemoveIfUnshared(g, b.id.key);
    forall u | u in tasks && tasks[u].held.ref.Some?
      ensures tasks[u].id.key in after.locks && after.locks[tasks[u].id.key] == tasks[u].held.ref.value
    {
      var lock := tasks[u].held.ref.value;
      HolderCounts(tasks, u, Ref(lock));
      assert InMap(g, lock) && Outside(g, lock) >= 1;
    }
  }

  lemma {:induction false} SameMapKeepsLocks(g: Ledger, tasks: map<nat, Task>, t: nat, after: Ledger, b: Task)
    requires Locks(g, tasks) && t in tasks && b.id == tasks[t].id
    requires after.locks == g.locks && after.owner == g.owner && after.nextLock == g.nextLock
    requires forall x | x in after.strong :: x in g.strong || x in g.owner
    requires b.held.ref.None? || b.held.ref == tasks[t].held.ref
    ensures Locks(after, tasks[t := b])
  {
  }

  predicate ChecksRemoval(id: Identity, pc: Pc, l: LedgerAction) {
    l.Release? && pc.RemoveCheck? && id.kind.Probe?
  }

  lemma {:induction false} OtherStepsKeepTheMap(c: Config, g: Ledger, id: Identity, pc: Pc, h: Held, l: LedgerAction)
    requires !l.Enter? && !ChecksRemoval(id, pc, l)
    requires Ready(pc, h) && CanSettle(g, id, pc, h, l)
    ensures var done := SettleStep(c, g, id, pc, h, l);
            && done.g.locks == g.locks && done.g.owner == g.owner && done.g.nextLock == g.nextLock
            && (done.g.strong == g.strong || (h.ref.Some? && done.g.strong.Keys == g.strong.Keys + {h.ref.value}))
            && (done.h.ref.None? || done.h.ref == h.ref)
  {
  }

  lemma {:induction false} CheckKeepsLocks(c: Config, g: Ledger, tasks: map<nat, Task>, t: nat)
    requires Accounts(c, g, tasks) && Locks(g, tasks) && t in tasks
    requires tasks[t].held.ref.None? && ChecksRemoval(tasks[t].id, tasks[t].pc, Release)
    ensures var done := SettleStep(c, g, tasks[t].id, tasks[t].pc, tasks[t].held, Release);
            Locks(done.g, tasks[t := tasks[t].(held := done.h, pc := done.pc)])
  {
    var done := SettleStep(c, g, tasks[t].id, tasks[t].pc, tasks[t].held, Release);
    RemovalKeepsLocks(c, g, tasks, t, tasks[t].(held := done.h, pc := done.pc));
  }

  lemma {:induction false} OtherStepsKeepLocks(c: Config, g: Ledger, tasks: map<nat, Task>, t: nat, l: LedgerAction)
    requires Locks(g, tasks) && t in tasks
    requires !ChecksRemoval(tasks[t].id, tasks[t].pc, l)
    requires Ready(tasks[t].pc, tasks[t].held) && CanSettle(g, tasks[t].id, tasks[t].pc, tasks[t].held, l)
    ensures var done := SettleStep(c, g, tasks[t].id, tasks[t].pc, tasks[t].held, l);
            Locks(done.g, tasks[t := tasks[t].(held := done.h, pc := done.pc)])
  {
    var done := SettleStep(c, g, tasks[t].id, tasks[t].pc, tasks[t].held, l);
    var b := tasks[t].(held := done.h, pc := done.pc);
    if l.Enter? {
      EnterKeepsLocks(g, tasks, t, b);
    } else {
      OtherStepsKeepTheMap(c, g, tasks[t].id, tasks[t].pc, tasks[t].held, l);
      SameMapKeepsLocks(g, tasks, t, done.g, b);
    }
  }

  lemma {:induction false} PastTheDrop(kind: Kind, pc: Pc, h: Held)
    requires Shape(kind, pc, h) && pc.RemoveCheck?
    ensures h.ref.None?
  {
  }

  lemma {:induction false} SettleKeepsLocks(c: Config, s: State, t: nat, l: LedgerAction)
    requires Inv(c, s) && Possible(c, s, Settle(t, l))
    ensures var after := Apply(c, s, Settle(t, l)); Locks(after.g, after.tasks)
  {
    var task := s.tasks[t];
    if ChecksRemoval(task.id, task.pc, l) {
      PastTheDrop(task.id.kind, task.pc, task.held);
      CheckKeepsLocks(c, s.g, s.tasks, t);
    } else {
      ShapeIsReady(task.id.kind, task.pc, task.held);
      OtherStepsKeepLocks(c, s.g, s.tasks, t, l);
    }
  }

  // ---- shapes ----

  predicate Follows(kind: Kind, pc: Pc, next: Pc) {
    || (Running(pc) && (Running(next) || next == FirstRelease(kind)))
    || (pc.Locked? && (next.WantGlobal? || next == FirstRelease(kind)))
  }

  lemma {:induction false} TouchFollows(c: Config, d: Disk, id: Identity, pc: Pc, w: Work, a: DiskAction)
    requires CanTouch(c, d, id, pc, w, a)
    ensures Follows(id.kind, pc, TouchStep(d, id, w, a).pc)
  {
  }

  lemma {:induction false} RunningShape(kind: Kind, pc: Pc, h: Held)
    ensures Running(pc) ==> (Shape(kind, pc, h) <==> Exactly(h, TakesLock(kind), TakesLock(kind), 1, !kind.Fill?, kind.Fill?, true))
  {
  }

  lemma {:induction false} FirstReleaseShape(kind: Kind, h: Held)
    requires h.slots == 0 || h.slots == 1
    requires h.ref.Some? == h.holds == TakesLock(kind) && (h.userSlot ==> !kind.Fill?) && (h.claim ==> kind.Fill?)
    ensures Shape(kind, FirstRelease(kind), h)
  {
  }

  lemma {:induction false} LockedShape(kind: Kind, h: Held)
    requires Shape(kind, Locked, h)
    ensures Shape(kind, WantGlobal, h) && TakesLock(kind)
    ensures h.ref.Some? && h.holds && h.slots == 0 && !h.userSlot && !h.claim
  {
  }

  lemma {:induction false} FollowingKeepsShape(kind: Kind, pc: Pc, next: Pc, h: Held)
    requires Shape(kind, pc, h) && Follows(kind, pc, next)
    ensures Shape(kind, next, h)
  {
    RunningShape(kind, pc, h);
    RunningShape(kind, next, h);
    if pc.Locked? {
      LockedShape(kind, h);
    }
    FirstReleaseShape(kind, h);
  }

  // ---- keys in the map ----

  lemma {:induction false} AttendedKept(tasks: map<nat, Task>, t: nat, b: Task, key: string)
    requires Attended(tasks, key) && t in tasks
    requires Attends(tasks[t], key) ==> Attends(b, key)
    ensures Attended(tasks[t := b], key)
  {
    var u :| u in tasks && Attends(tasks[u], key);
    assert Attends(tasks[t := b][u], key);
  }

  /** A check that leaves the entry leaves it to someone who refers to its lock. */
  lemma {:induction false} RemainingEntryIsAttended(c: Config, g: Ledger, tasks: map<nat, Task>, t: nat, b: Task)
    requires Accounts(c, g, tasks) && Locks(g, tasks)
    requires t in tasks && tasks[t].held.ref.None?
    requires b.id.key in RemoveIfUnshared(g, b.id.key).locks
    ensures Attended(tasks[t := b], b.id.key)
  {
    var lock := g.locks[b.id.key];
    assert InMap(g, lock) && Outside(g, lock) == |Holders(tasks, Ref(lock))|;
    assert Holders(tasks, Ref(lock)) != {};
    var u :| u in Holders(tasks, Ref(lock));
    assert g.owner[lock] == b.id.key && g.owner[g.locks[tasks[u].id.key]] == tasks[u].id.key;
    assert Attends(tasks[t := b][u], b.id.key);
  }

  lemma {:induction false} SettleKeepsSwept(c: Config, s: State, t: nat, l: LedgerAction)
    requires Inv(c, s) && Possible(c, s, Settle(t, l))
    ensures Swept(c, Apply(c, s, Settle(t, l)))
  {
    var task := s.tasks[t];
    ShapeIsReady(task.id.kind, task.pc, task.held);
    if l.Enter? {
      EnterKeepsSwept(c, s, t);
    } else if ChecksRemoval(task.id, task.pc, l) {
      PastTheDrop(task.id.kind, task.pc, task.held);
      CheckKeepsSwept(c, s, t);
    } else if l.CancelWait? {
      CancelKeepsSwept(c, s, t);
    } else {
      OthersKeepSwept(c, s, t, l);
    }
  }

  lemma {:induction false} EnterKeepsSwept(c: Config, s: State, t: nat)
    requires Locks(s.g, s.tasks) && Shapes(c, s.tasks) && Swept(c, s) && Possible(c, s, Settle(t, Enter))
    ensures Swept(c, Apply(c, s, Settle(t, Enter)))
  {
    var task, after := s.tasks[t], Apply(c, s, Settle(t, Enter));
    assert TakesLock(task.id.kind) && task.held == NOTHING;
    assert task.id.kind.Live? ==> task.id.job.offset == 0 && CacheKey(c.hash, task.id.job) == task.id.key;
    forall k | k in after.g.locks
      ensures k in after.plays || k in after.abandoned || Attended(after.tasks, k)
    {
      if k == task.id.key {
        assert Attends(after.tasks[t], k);
      } else if Attended(s.tasks, k) {
        AttendedKept(s.tasks, t, after.tasks[t], k);
      }
    }
  }

  lemma {:induction false} CheckKeepsSwept(c: Config, s: State, t: nat)
    requires Accounts(c, s.g, s.tasks) && Locks(s.g, s.tasks) && Swept(c, s) && Possible(c, s, Settle(t, Release))
    requires s.tasks[t].held.ref.None? && ChecksRemoval(s.tasks[t].id, s.tasks[t].pc, Release)
    ensures Swept(c, Apply(c, s, Settle(t, Release)))
  {
    var task, after := s.tasks[t], Apply(c, s, Settle(t, Release));
    forall k | k in after.g.locks
      ensures k in after.plays || k in after.abandoned || Attended(after.tasks, k)
    {
      if k == task.id.key {
        RemainingEntryIsAttended(c, s.g, s.tasks, t, after.tasks[t]);
      } else if Attended(s.tasks, k) {
        AttendedKept(s.tasks, t, after.tasks[t], k);
      }
    }
  }

  lemma {:induction false} CancelKeepsSwept(c: Config, s: State, t: nat)
    requires Locks(s.g, s.tasks) && Swept(c, s) && Possible(c, s, Settle(t, CancelWait))
    requires s.tasks[t].held.ref.Some?
    ensures Swept(c, Apply(c, s, Settle(t, CancelWait)))
  {
    var task, after := s.tasks[t], Apply(c, s, Settle(t, CancelWait));
    forall k | k in after.g.locks
      ensures k in after.plays || k in after.abandoned || Attended(after.tasks, k)
    {
      if k != task.id.key && Attended(s.tasks, k) {
        AttendedKept(s.tasks, t, after.tasks[t], k);
      }
    }
  }

  /** A reference is let go of only on the way to the removal check, or by a
      play from the first byte. */
  lemma {:induction false} OthersKeepAttending(c: Config, g: Ledger, task: Task, l: LedgerAction, key: string)
    requires !l.CancelWait? && !ChecksRemoval(task.id, task.pc, l)
    requires Shape(task.id.kind, task.pc, task.held) && CanSettle(g, task.id, task.pc, task.held, l)
    requires Attends(task, key)
    ensures var done := SettleStep(c, g, task.id, task.pc, task.held, l);
            Attends(task.(held := done.h, pc := done.pc), key) || task.id.kind == Live(true)
  {
  }

  lemma {:induction false} OthersKeepSwept(c: Config, s: State, t: nat, l: LedgerAction)
    requires !l.Enter? && !l.CancelWait? && Locks(s.g, s.tasks) && Shapes(c, s.tasks) && Swept(c, s)
    requires Possible(c, s, Settle(t, l)) && !ChecksRemoval(s.tasks[t].id, s.tasks[t].pc, l)
    ensures Swept(c, Apply(c, s, Settle(t, l)))
  {
    var task, after := s.tasks[t], Apply(c, s, Settle(t, l));
    ShapeIsReady(task.id.kind, task.pc, task.held);
    OtherStepsKeepTheMap(c, s.g, task.id, task.pc, task.held, l);
    assert after.plays == s.plays && after.abandoned == s.abandoned;
    forall k | k in after.g.locks
      ensures k in after.plays || k in after.abandoned || Attended(after.tasks, k)
    {
      if k !in s.plays && k !in s.abandoned {
        if Attends(task, k) {
          OthersKeepAttending(c, s.g, task, l, k);
        }
        AttendedKept(s.tasks, t, after.tasks[t], k);
      }
    }
  }

  // ---- files ----

  lemma {:induction false} NamedFileIsWhole(c: Config, d: Disk, id: Identity)
    requires Committed(c, d) && WellNamed(c, id) && id.file in d.files
    ensures c.whole(id.job, d.files[id.file])
  {
    assert FileName(c.hash, id.job) in d.files;
  }

  lemma {:induction false} CommitKeepsFilesWhole(c: Config, d: Disk, id: Identity, stage: nat)
    requires CollisionFree(c.hash) && Committed(c, d) && WellNamed(c, id)
    requires stage in d.staging && c.whole(id.job, d.staging[stage])
    ensures Committed(c, CommitStaged(d, stage, id.file))
  {
    var after := CommitStaged(d, stage, id.file);
    forall j | WellFormed(j) && FileName(c.hash, j) in after.files
      ensures c.whole(j, after.files[FileName(c.hash, j)])
    {
      if FileName(c.hash, j) == id.file {
        FileNamesItsJob(c.hash, j, id.job);
      }
    }
    assert WellFormed(id.job) && FileName(c.hash, id.job) == id.file;
  }

  lemma {:induction false} TouchKeepsFiles(c: Config, d: Disk, id: Identity, pc: Pc, w: Work, a: DiskAction)
    requires CollisionFree(c.hash) && Committed(c, d) && WellNamed(c, id)
    requires Sound(c, d, id, pc, w) && CanTouch(c, d, id, pc, w, a)
    ensures Committed(c, TouchStep(d, id, w, a).d)
  {
    match a {
      case Commit(ok) =>
        if ok {
          CommitKeepsFilesWhole(c, d, id, w.stage.value);
        }
      case Prune(gone) =>
      case _ => assert TouchStep(d, id, w, a).d.files == d.files;
    }
  }

  /** A step writes and removes its own staging file, or makes one nobody has. */
  predicate LeavesOthers(d: Disk, w: Work, after: Disk) {
    && d.nextStage <= after.nextStage
    && forall x | x in d.staging && x != d.nextStage && (w.stage.Some? ==> x != w.stage.value) ::
         x in after.staging && after.staging[x] == d.staging[x]
  }

  lemma {:induction false} TouchLeavesOthers(c: Config, d: Disk, id: Identity, pc: Pc, w: Work, a: DiskAction)
    requires Sound(c, d, id, pc, w) && CanTouch(c, d, id, pc, w, a)
    ensures LeavesOthers(d, w, TouchStep(d, id, w, a).d)
  {
  }

  lemma {:induction false} OthersStaySound(c: Config, d: Disk, w: Work, after: Disk, other: Task)
    requires Sound(c, d, other.id, other.pc, other.work) && LeavesOthers(d, w, after)
    requires w.stage.Some? && other.work.stage.Some? ==> w.stage.value != other.work.stage.value
    ensures Sound(c, after, other.id, other.pc, other.work)
  {
  }

  /** A live stream's own steps, chunk by chunk. */
  predicate Streams(a: DiskAction) {
    a.Read? || a.WriteChunk? || a.Send? || a.Leave? || a.Eof? || a.Stage?
  }

  lemma {:induction false} StreamingStaysSound(c: Config, d: Disk, id: Identity, pc: Pc, w: Work, a: DiskAction)
    requires Committed(c, d) && WellNamed(c, id)
    requires Sound(c, d, id, pc, w) && CanTouch(c, d, id, pc, w, a)
    requires Streams(a)
    ensures var done := TouchStep(d, id, w, a);
            && Sound(c, done.d, id, done.pc, done.w)
            && (done.w.stage.None? || done.w.stage == w.stage || done.w.stage == Some(d.nextStage))
  {
  }

  lemma {:induction false} EncodingStaysSound(c: Config, d: Disk, id: Identity, pc: Pc, w: Work, a: DiskAction)
    requires Committed(c, d) && WellNamed(c, id)
    requires Sound(c, d, id, pc, w) && CanTouch(c, d, id, pc, w, a)
    requires !Streams(a)
    ensures var done := TouchStep(d, id, w, a);
            && Sound(c, done.d, id, done.pc, done.w)
            && (done.w.stage.None? || done.w.stage == w.stage || done.w.stage == Some(d.nextStage))
  {
    if id.file in d.files {
      NamedFileIsWhole(c, d, id);
    }
  }

  lemma {:induction false} TouchStaysSound(c: Config, d: Disk, id: Identity, pc: Pc, w: Work, a: DiskAction)
    requires Committed(c, d) && WellNamed(c, id)
    requires Sound(c, d, id, pc, w) && CanTouch(c, d, id, pc, w, a)
    ensures var done := TouchStep(d, id, w, a);
            && Sound(c, done.d, id, done.pc, done.w)
            && (done.w.stage.None? || done.w.stage == w.stage || done.w.stage == Some(d.nextStage))
  {
    if Streams(a) {
      StreamingStaysSound(c, d, id, pc, w, a);
    } else {
      EncodingStaysSound(c, d, id, pc, w, a);
    }
  }

  // ---- every step, every run ----

  predicate MovesOn(pc: Pc, next: Pc) {
    if Before(pc) then Before(next) || next.Starting? || next.Done? || Releasing(next)
    else Releasing(pc) && (Releasing(next) || next.Done?)
  }

  lemma {:induction false} SettleMovesOn(c: Config, g: Ledger, id: Identity, pc: Pc, h: Held, l: LedgerAction)
    requires CanSettle(g, id, pc, h, l)
    ensures MovesOn(pc, SettleStep(c, g, id, pc, h, l).pc)
  {
  }

  lemma {:induction false} MovingOnStaysSound(c: Config, d: Disk, id: Identity, pc: Pc, next: Pc, w: Work)
    requires Sound(c, d, id, pc, w) && MovesOn(pc, next)
    ensures Sound(c, d, id, next, w)
  {
  }

  lemma {:induction false} ShapesAfter(c: Config, tasks: map<nat, Task>, t: nat, b: Task)
    requires Shapes(c, tasks) && Shape(b.id.kind, b.pc, b.held) && WellNamed(c, b.id)
    ensures Shapes(c, tasks[t := b])
  {
  }

  lemma {:induction false} WorksAfter(c: Config, d: Disk, tasks: map<nat, Task>, t: nat, b: Task)
    requires Works(c, d, tasks) && Sound(c, d, b.id, b.pc, b.work)
    requires b.work.stage.None? || (t in tasks && b.work.stage == tasks[t].work.stage)
    ensures Works(c, d, tasks[t := b])
  {
  }

  lemma {:induction false} SettleKeepsWorks(c: Config, s: State, t: nat, l: LedgerAction)
    requires Works(c, s.d, s.tasks) && Possible(c, s, Settle(t, l))
    ensures Works(c, s.d, Apply(c, s, Settle(t, l)).tasks)
  {
    var task := s.tasks[t];
    var done := SettleStep(c, s.g, task.id, task.pc, task.held, l);
    SettleMovesOn(c, s.g, task.id, task.pc, task.held, l);
    MovingOnStaysSound(c, s.d, task.id, task.pc, done.pc, task.work);
    WorksAfter(c, s.d, s.tasks, t, task.(held := done.h, pc := done.pc));
  }

  lemma {:induction false} SettleKeepsShapes(c: Config, s: State, t: nat, l: LedgerAction)
    requires Shapes(c, s.tasks) && Possible(c, s, Settle(t, l))
    ensures Shapes(c, Apply(c, s, Settle(t, l)).tasks)
  {
    var task := s.tasks[t];
    var done := SettleStep(c, s.g, task.id, task.pc, task.held, l);
    SettleKeepsShape(c, s.g, task.id, task.pc, task.held, l);
    ShapesAfter(c, s.tasks, t, task.(held := done.h, pc := done.pc));
  }

  lemma {:induction false} SettleKeepsInv(c: Config, s: State, t: nat, l: LedgerAction)
    requires Inv(c, s) && Possible(c, s, Settle(t, l))
    ensures Inv(c, Apply(c, s, Settle(t, l)))
  {
    SettleKeepsAccounts(c, s, t, l);
    SettleKeepsLocks(c, s, t, l);
    SettleKeepsShapes(c, s, t, l);
    SettleKeepsWorks(c, s, t, l);
    SettleKeepsSwept(c, s, t, l);
  }

  lemma {:induction false} TouchKeepsWorks(c: Config, s: State, t: nat, a: DiskAction)
    requires Committed(c, s.d) && Works(c, s.d, s.tasks) && Shapes(c, s.tasks) && Possible(c, s, Touch(t, a))
    ensures var after := Apply(c, s, Touch(t, a)); Works(c, after.d, after.tasks)
  {
    var task, after := s.tasks[t], Apply(c, s, Touch(t, a));
    TouchStaysSound(c, s.d, task.id, task.pc, task.work, a);
    TouchLeavesOthers(c, s.d, task.id, task.pc, task.work, a);
    forall u | u in s.tasks && u != t
      ensures Sound(c, after.d, s.tasks[u].id, s.tasks[u].pc, s.tasks[u].work)
    {
      OthersStaySound(c, s.d, task.work, after.d, s.tasks[u]);
    }
  }

  lemma {:induction false} TouchKeepsSwept(c: Config, s: State, t: nat, a: DiskAction)
    requires Swept(c, s) && Possible(c, s, Touch(t, a))
    requires Shapes(c, s.tasks)
    ensures Swept(c, Apply(c, s, Touch(t, a)))
  {
    var task, after := s.tasks[t], Apply(c, s, Touch(t, a));
    forall k | k in s.g.locks
      ensures k in after.plays || k in after.abandoned || Attended(after.tasks, k)
    {
      if Attended(s.tasks, k) {
        AttendedKept(s.tasks, t, after.tasks[t], k);
      }
    }
  }

  lemma {:induction false} TouchKeepsShapes(c: Config, s: State, t: nat, a: DiskAction)
    requires Shapes(c, s.tasks) && Possible(c, s, Touch(t, a))
    ensures Shapes(c, Apply(c, s, Touch(t, a)).tasks)
  {
    var task := s.tasks[t];
    var done := TouchStep(s.d, task.id, task.work, a);
    TouchFollows(c, s.d, task.id, task.pc, task.work, a);
    FollowingKeepsShape(task.id.kind, task.pc, done.pc, task.held);
    ShapesAfter(c, s.tasks, t, task.(work := done.w, pc := done.pc));
  }

  lemma {:induction false} SameRefsKeepLocks(g: Ledger, tasks: map<nat, Task>, t: nat, b: Task)
    requires Locks(g, tasks)
    requires b.held.ref.None? || (t in tasks && b.held == tasks[t].held && b.id == tasks[t].id)
    ensures Locks(g, tasks[t := b])
  {
  }

  lemma {:induction false} TouchKeepsInv(c: Config, s: State, t: nat, a: DiskAction)
    requires CollisionFree(c.hash) && Inv(c, s) && Possible(c, s, Touch(t, a))
    ensures Inv(c, Apply(c, s, Touch(t, a)))
  {
    var task := s.tasks[t];
    var done := TouchStep(s.d, task.id, task.work, a);
    var b := task.(work := done.w, pc := done.pc);
    SameHoldersSameAccounts(c, s.g, s.tasks, t, b);
    SameRefsKeepLocks(s.g, s.tasks, t, b);
    TouchKeepsShapes(c, s, t, a);
    TouchKeepsFiles(c, s.d, task.id, task.pc, task.work, a);
    TouchKeepsWorks(c, s, t, a);
    TouchKeepsSwept(c, s, t, a);
  }

  lemma {:induction false} BeginKeepsSwept(c: Config, s: State, t: nat, b: Task)
    requires Swept(c, s) && t !in s.tasks && b.held == NOTHING
    ensures Swept(c, s.(tasks := s.tasks[t := b]))
  {
    forall k | k in s.g.locks
      ensures k in s.plays || k in s.abandoned || Attended(s.tasks[t := b], k)
    {
      if Attended(s.tasks, k) {
        var u :| u in s.tasks && Attends(s.tasks[u], k);
        assert Attends(s.tasks[t := b][u], k);
      }
    }
  }

  lemma {:induction false} BeginsEmpty(c: Config, s: State, t: nat, kind: Kind, job: Job, user: nat)
    requires Possible(c, s, Begin(t, kind, job, user))
    ensures var b := NewTask(c, kind, job, user);
            && b.held == NOTHING && Shape(kind, b.pc, b.held) && WellNamed(c, b.id) && Sound(c, s.d, b.id, b.pc, b.work)
            && Apply(c, s, Begin(t, kind, job, user)) == s.(tasks := s.tasks[t := b])
  {
  }

  lemma {:induction false} BeginKeepsLedger(c: Config, s: State, t: nat, b: Task)
    requires Accounts(c, s.g, s.tasks) && Locks(s.g, s.tasks) && t !in s.tasks && b.held == NOTHING
    ensures Accounts(c, s.g, s.tasks[t := b]) && Locks(s.g, s.tasks[t := b])
  {
    SameHoldersSameAccounts(c, s.g, s.tasks, t, b);
    SameRefsKeepLocks(s.g, s.tasks, t, b);
  }

  lemma {:induction false} BeginKeepsInv(c: Config, s: State, t: nat, kind: Kind, job: Job, user: nat)
    requires Inv(c, s) && Possible(c, s, Begin(t, kind, job, user))
    ensures Inv(c, Apply(c, s, Begin(t, kind, job, user)))
  {
    var b := NewTask(c, kind, job, user);
    BeginsEmpty(c, s, t, kind, job, user);
    BeginKeepsLedger(c, s, t, b);
    ShapesAfter(c, s.tasks, t, b);
    WorksAfter(c, s.d, s.tasks, t, b);
    BeginKeepsSwept(c, s, t, b);
  }

  lemma {:induction false} InitIsInv(c: Config)
    ensures Inv(c, Init(c))
  {
    forall r: Resource ensures Holders(map[], r) == {} {
    }
  }

  lemma {:induction false} EveryStateKeepsInv(c: Config, events: seq<Event>, s: State)
    requires CollisionFree(c.hash) && Leads(c, events, s)
    ensures Inv(c, s)
  {
    if events == [] {
      InitIsInv(c);
    } else {
      var front, last := events[..|events| - 1], events[|events| - 1];
      var before :| Leads(c, front, before) && Step(c, before, last, s);
      EveryStateKeepsInv(c, front, before);
      match last {
        case Begin(t, kind, job, user) => BeginKeepsInv(c, before, t, kind, job, user);
        case Settle(t, l) => SettleKeepsInv(c, before, t, l);
        case Touch(t, a) => TouchKeepsInv(c, before, t, a);
      }
    }
  }
}
