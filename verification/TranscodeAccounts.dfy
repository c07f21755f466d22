/** What every interleaving keeps of slots, locks, references, claims and the
    count of active transcodes. */
module TranscodeAccounts {
  import opened Decimal
  import opened CacheNames
  import opened TranscodeCache
  import opened TranscodeProtocol

  /** One unit of something a task may hold. */
  datatype Resource =
    | First | Second | FillSlot | UserSlot(user: nat) | Counted
    | Ref(lock: nat) | Holding(lock: nat) | FillClaim(key: string)

  predicate Owns(id: Identity, h: Held, r: Resource) {
    match r
    case First => h.slots >= 1
    case Second => h.slots >= 2
    case FillSlot => id.kind.Fill? && h.slots >= 1
    case UserSlot(user) => h.userSlot && id.user == user
    case Counted => h.counted
    case Ref(lock) => h.ref == Some(lock)
    case Holding(lock) => h.holds && h.ref == Some(lock)
    case FillClaim(key) => h.claim && id.key == key
  }

  predicate Has(task: Task, r: Resource) {
    Owns(task.id, task.held, r)
  }

  function Bit(b: bool): (n: int) {
    if b then 1 else 0
  }

  function Holders(tasks: map<nat, Task>, r: Resource): (ids: set<nat>) {
    set t | t in tasks && Has(tasks[t], r)
  }

  /** The references to a lock other than the map's own. */
  function Outside(g: Ledger, x: nat): (n: int) {
    StrongCount(g, x) - Bit(InMap(g, x))
  }

  /** Everything taken is held by a task, and everything a task holds was taken. */
  ghost predicate Accounts(c: Config, g: Ledger, tasks: map<nat, Task>) {
    && 0 <= g.global
    && g.global + |Holders(tasks, First)| + |Holders(tasks, Second)| == c.globalLimit
    && g.active == |Holders(tasks, Counted)|
    && (forall u :: 0 <= Available(c, g, u))
    && (forall u :: Available(c, g, u) + |Holders(tasks, UserSlot(u))| == c.perUserLimit)
    && (forall l :: Outside(g, l) == |Holders(tasks, Ref(l))|)
    && (forall l :: |Holders(tasks, Holding(l))| == Bit(l in g.locked))
    && (forall k :: |Holders(tasks, FillClaim(k))| == Bit(k in g.pending))
  }

  predicate Exactly(h: Held, lock: bool, holds: bool, slots: int, userSlot: bool, claim: bool, counted: bool) {
    && h.ref.Some? == lock && h.holds == holds && h.slots == slots && h.userSlot == userSlot
    && h.claim == claim && h.counted == counted
  }

  predicate Running(pc: Pc) {
    || pc.Starting? || pc.Encoding? || pc.Finished? || pc.Committing? || pc.Opening? || pc.Pruning?
    || pc.Discarding? || pc.Reading? || pc.Writing? || pc.Sending? || pc.Exiting?
  }

  predicate Before(pc: Pc) {
    !Running(pc) && !Releasing(pc) && !pc.Done?
  }

  /** What a task holds at each point before its encoder and beside it. */
  predicate Shape(kind: Kind, pc: Pc, h: Held) {
    var lock, fill := TakesLock(kind), kind.Fill?;
    && (pc.Entering? ==> lock && h == NOTHING)
    && (pc.Waiting? ==> lock && Exactly(h, true, false, 0, false, false, false))
    && (pc.Locked? ==> lock && Exactly(h, true, true, 0, false, false, false))
    && (pc.WantGlobal? ==> !fill && Exactly(h, lock, lock, 0, false, false, false))
    && (pc.WantUser? || pc.BackOutGlobal? ==> !fill && Exactly(h, lock, lock, 1, false, false, false))
    && (pc.BackOutUser? ==> kind.Live? && Exactly(h, lock, lock, 1, true, false, false))
    && (pc.Claiming? ==> fill && h == NOTHING)
    && (pc.WantTwo? ==> fill && Exactly(h, false, false, 0, false, true, false))
    && (pc.GivingOneBack? ==> fill && Exactly(h, false, false, 2, false, true, false))
    && (pc.WantSpawn? ==> Exactly(h, lock, lock, 1, !fill, fill, false))
    && (Running(pc) ==> Exactly(h, lock, lock, 1, !fill, fill, true))
    && (Releasing(pc) ==> LetGo(kind, pc, h))
    && (pc.Done? ==> h == NOTHING)
  }

  /** How many of a task's release points lie behind it. */
  function Behind(kind: Kind, pc: Pc): (n: int) {
    if kind.Live? then
      match pc
      case Unlocking => 0 case DroppingRef => 1 case RelActive => 2 case RelUser => 3 case RelGlobal => 4 case _ => -1
    else
      match pc
      case RelClaim => 0 case RelGlobal => 1 case RelUser => 2 case Unlocking => 3 case DroppingRef => 4
      case RemoveCheck => 5 case RelActive => 6 case _ => -1
  }

  /** On the way out, what has been given back stays given back. */
  predicate LetGo(kind: Kind, pc: Pc, h: Held) {
    var n := Behind(kind, pc);
    && 0 <= n && 0 <= h.slots <= 1
    && (h.ref.Some? || h.holds ==> TakesLock(kind) && h.ref.Some?)
    && (h.userSlot ==> !kind.Fill?)
    && if kind.Live? then
         && !h.claim
         && (n >= 1 ==> !h.holds) && (n >= 2 ==> h.ref.None?) && (n >= 3 ==> !h.counted) && (n >= 4 ==> !h.userSlot)
       else
         && (h.claim ==> kind.Fill?)
         && (n >= 1 ==> !h.claim) && (n >= 2 ==> h.slots == 0) && (n >= 3 ==> !h.userSlot)
         && (n >= 4 ==> !h.holds) && (n >= 5 ==> h.ref.None?)
  }

  /** A lock is filed under the key it was made for, and its number is spent. */
  ghost predicate LockTable(g: Ledger) {
    && (forall k | k in g.locks :: g.locks[k] in g.owner && g.owner[g.locks[k]] == k)
    && (forall l | l in g.owner :: l < g.nextLock)
    && (forall l | l in g.strong :: l < g.nextLock)
  }

  /** Every lock a task refers to is the one in the map under the task's key. */
  ghost predicate Locks(g: Ledger, tasks: map<nat, Task>) {
    && LockTable(g)
    && (forall t | t in tasks && tasks[t].held.ref.Some? ::
          tasks[t].id.key in g.locks && g.locks[tasks[t].id.key] == tasks[t].held.ref.value)
  }

  /** A task keeps the job it began with, and the names that job has. */
  predicate WellNamed(c: Config, id: Identity) {
    && WellFormed(id.job)
    && id == Identify(c, id.kind, id.job, id.user)
    && (id.kind.Fill? || id.kind == Live(true) <==> id.job.offset == 0)
  }

  ghost predicate Shapes(c: Config, tasks: map<nat, Task>) {
    forall t | t in tasks :: Shape(tasks[t].id.kind, tasks[t].pc, tasks[t].held) && WellNamed(c, tasks[t].id)
  }

  lemma OneElement(before: set<nat>, after: set<nat>, t: nat)
    requires before - {t} == after - {t}
    ensures |after| == |before| - Bit(t in before) + Bit(t in after)
  {
    var rest := before - {t};
    assert before == if t in before then rest + {t} else rest;
    assert after == if t in after then rest + {t} else rest;
  }

  /** Replacing one task changes a holder count by that task alone. */
  lemma HoldersAfter(tasks: map<nat, Task>, t: nat, b: Task, r: Resource)
    ensures |Holders(tasks[t := b], r)|
            == |Holders(tasks, r)| - Bit(t in tasks && Has(tasks[t], r)) + Bit(Has(b, r))
  {
    OneElement(Holders(tasks, r), Holders(tasks[t := b], r), t);
  }

  /** A held unit shows in the count. */
  lemma HolderCounts(tasks: map<nat, Task>, t: nat, r: Resource)
    requires t in tasks && Has(tasks[t], r)
    ensures |Holders(tasks, r)| >= 1
  {
    assert t in Holders(tasks, r);
  }

  lemma {:induction false} SubsetSize(a: set<nat>, b: set<nat>)
    requires a <= b
    ensures |a| <= |b|
  {
    if a != {} {
      var x :| x in a;
      SubsetSize(a - {x}, b - {x});
    }
  }

  lemma {:induction false} OneHolder(tasks: map<nat, Task>, t: nat, u: nat, r: Resource)
    requires |Holders(tasks, r)| <= 1
    requires t in tasks && u in tasks && Has(tasks[t], r) && Has(tasks[u], r)
    ensures t == u
  {
    if t != u {
      assert {t, u} <= Holders(tasks, r);
      SubsetSize({t, u}, Holders(tasks, r));
    }
  }

  /** What a task's own holdings say of the ledger. */
  lemma {:induction false} HoldingsAreTaken(c: Config, g: Ledger, tasks: map<nat, Task>, t: nat)
    requires Accounts(c, g, tasks) && t in tasks
    ensures var h := tasks[t].held;
            && (h.holds && h.ref.Some? ==> h.ref.value in g.locked)
            && (h.claim ==> tasks[t].id.key in g.pending)
  {
    var h := tasks[t].held;
    if h.holds && h.ref.Some? { HolderCounts(tasks, t, Holding(h.ref.value)); }
    if h.claim { HolderCounts(tasks, t, FillClaim(tasks[t].id.key)); }
  }

  lemma {:induction false} ReleaseKeepsShape(kind: Kind, pc: Pc, h: Held)
    requires LetGo(kind, pc, h) && Releasing(pc)
    ensures var next := NextRelease(kind, pc);
            if next.Done? then Released(pc, h) == NOTHING
            else Releasing(next) && LetGo(kind, next, Released(pc, h))
  {
  }

  lemma {:induction false} LockStepsKeepShape(c: Config, g: Ledger, id: Identity, pc: Pc, h: Held, l: LedgerAction)
    requires l.Enter? || l.Lock? || l.CancelWait? || l.CancelHeld? || l.SpawnFails? || l.Spawn?
    requires Shape(id.kind, pc, h) && CanSettle(g, id, pc, h, l)
    ensures var done := SettleStep(c, g, id, pc, h, l);
            Shape(id.kind, done.pc, done.h)
  {
  }

  lemma {:induction false} SlotStepsKeepShape(c: Config, g: Ledger, id: Identity, pc: Pc, h: Held, l: LedgerAction)
    requires l.TakeGlobal? || l.TakeUser? || l.BackOut?
    requires Shape(id.kind, pc, h) && CanSettle(g, id, pc, h, l)
    ensures var done := SettleStep(c, g, id, pc, h, l);
            Shape(id.kind, done.pc, done.h)
  {
  }

  lemma {:induction false} FillStepsKeepShape(c: Config, g: Ledger, id: Identity, pc: Pc, h: Held, l: LedgerAction)
    requires l.Claim? || l.TakeTwo? || l.GiveOneBack?
    requires Shape(id.kind, pc, h) && CanSettle(g, id, pc, h, l)
    ensures var done := SettleStep(c, g, id, pc, h, l);
            Shape(id.kind, done.pc, done.h)
  {
  }

  lemma {:induction false} SettleKeepsShape(c: Config, g: Ledger, id: Identity, pc: Pc, h: Held, l: LedgerAction)
    requires Shape(id.kind, pc, h) && CanSettle(g, id, pc, h, l)
    ensures var done := SettleStep(c, g, id, pc, h, l);
            Shape(id.kind, done.pc, done.h)
  {
    if l.TakeGlobal? || l.TakeUser? || l.BackOut? {
      SlotStepsKeepShape(c, g, id, pc, h, l);
    } else if l.Claim? || l.TakeTwo? || l.GiveOneBack? {
      FillStepsKeepShape(c, g, id, pc, h, l);
    } else if l.Release? {
      ReleaseKeepsShape(id.kind, pc, h);
    } else {
      LockStepsKeepShape(c, g, id, pc, h, l);
    }
  }

  /** The part of a shape that its next ledger action needs. */
  predicate Ready(pc: Pc, h: Held) {
    && (pc.Entering? ==> h.ref.None? && !h.holds)
    && (pc.Waiting? ==> h.ref.Some? && !h.holds)
    && (pc.DroppingRef? ==> !h.holds)
    && (pc.WantGlobal? || pc.WantTwo? ==> h.slots == 0)
    && (pc.GivingOneBack? ==> h.slots == 2)
    && (pc.BackOutGlobal? ==> h.slots == 1)
    && (pc.WantUser? ==> !h.userSlot)
    && (pc.BackOutUser? ==> h.userSlot)
    && (pc.Claiming? ==> !h.claim)
    && (pc.WantSpawn? ==> !h.counted)
  }

  lemma {:induction false} ShapeIsReady(kind: Kind, pc: Pc, h: Held)
    requires Shape(kind, pc, h)
    ensures Ready(pc, h) && 0 <= h.slots <= 2 && (h.holds ==> h.ref.Some?)
  {
  }

  lemma {:induction false} ReleaseSlotsBalance(c: Config, g: Ledger, id: Identity, pc: Pc, h: Held)
    ensures GiveBack(c, g, id, pc, h).global + Released(pc, h).slots == g.global + h.slots
    ensures GiveBack(c, g, id, pc, h).active - Bit(Released(pc, h).counted) == g.active - Bit(h.counted)
  {
  }

  lemma {:induction false} GlobalBalance(c: Config, g: Ledger, id: Identity, pc: Pc, h: Held, l: LedgerAction)
    requires Ready(pc, h) && CanSettle(g, id, pc, h, l) && 0 <= g.global && 0 <= h.slots
    ensures var done := SettleStep(c, g, id, pc, h, l);
            0 <= done.g.global && done.g.global + done.h.slots == g.global + h.slots
  {
    if l.Release? {
      ReleaseSlotsBalance(c, g, id, pc, h);
    }
  }

  lemma {:induction false} CountBalance(c: Config, g: Ledger, id: Identity, pc: Pc, h: Held, l: LedgerAction)
    requires Ready(pc, h) && CanSettle(g, id, pc, h, l)
    ensures var done := SettleStep(c, g, id, pc, h, l);
            done.g.active - Bit(done.h.counted) == g.active - Bit(h.counted)
  {
    if l.Release? {
      ReleaseSlotsBalance(c, g, id, pc, h);
    }
  }

  lemma SameUsers(c: Config, g: Ledger, after: Ledger, u: nat)
    requires after.users == g.users
    ensures Available(c, after, u) == Available(c, g, u)
  {
  }

  lemma {:induction false} UsersBalance(c: Config, g: Ledger, id: Identity, pc: Pc, h: Held, l: LedgerAction, u: nat)
    requires Ready(pc, h) && CanSettle(g, id, pc, h, l) && 0 <= Available(c, g, u)
    ensures var done := SettleStep(c, g, id, pc, h, l);
            && 0 <= Available(c, done.g, u)
            && Available(c, done.g, u) + Bit(Owns(id, done.h, UserSlot(u)))
               == Available(c, g, u) + Bit(Owns(id, h, UserSlot(u)))
  {
    match l {
      case TakeUser =>
      case BackOut =>
      case Release =>
      case _ => SameUsers(c, g, SettleStep(c, g, id, pc, h, l).g, u);
    }
  }

  lemma {:induction false} LocksBalance(c: Config, g: Ledger, id: Identity, pc: Pc, h: Held, l: LedgerAction, x: nat)
    requires Ready(pc, h) && CanSettle(g, id, pc, h, l)
    requires h.holds ==> h.ref.Some? && h.ref.value in g.locked
    ensures var done := SettleStep(c, g, id, pc, h, l);
            Bit(x in done.g.locked) - Bit(Owns(id, done.h, Holding(x))) == Bit(x in g.locked) - Bit(Owns(id, h, Holding(x)))
  {
  }

  lemma {:induction false} ClaimsBalance(c: Config, g: Ledger, id: Identity, pc: Pc, h: Held, l: LedgerAction, k: string)
    requires Ready(pc, h) && CanSettle(g, id, pc, h, l)
    requires h.claim ==> id.key in g.pending
    ensures var done := SettleStep(c, g, id, pc, h, l);
            Bit(k in done.g.pending) - Bit(Owns(id, done.h, FillClaim(k))) == Bit(k in g.pending) - Bit(Owns(id, h, FillClaim(k)))
  {
  }

  lemma EnterAddsOneReference(g: Ledger, key: string, x: nat)
    requires LockTable(g)
    ensures Outside(EnterKey(g, key), x) == Outside(g, x) + Bit(x == EnterKey(g, key).locks[key])
  {
  }

  lemma DropTakesOneReference(g: Ledger, lock: nat, x: nat)
    ensures Outside(DropReference(g, lock), x) == Outside(g, x) - Bit(x == lock)
  {
  }

  lemma RemovalTakesTheMapsOwn(g: Ledger, key: string, x: nat)
    requires LockTable(g)
    ensures Outside(RemoveIfUnshared(g, key), x) == Outside(g, x)
  {
  }

  lemma SameReferences(g: Ledger, after: Ledger, x: nat)
    requires after.strong == g.strong && after.locks == g.locks && after.owner == g.owner
    ensures Outside(after, x) == Outside(g, x)
  {
  }

  lemma {:induction false} ReleaseRefsBalance(c: Config, g: Ledger, id: Identity, pc: Pc, h: Held, x: nat)
    requires LockTable(g)
    ensures Outside(GiveBack(c, g, id, pc, h), x) - Bit(Owns(id, Released(pc, h), Ref(x))) == Outside(g, x) - Bit(Owns(id, h, Ref(x)))
  {
    if pc.DroppingRef? {
      DropTakesOneReference(g, RefOf(h), x);
    } else if pc.RemoveCheck? {
      RemovalTakesTheMapsOwn(g, id.key, x);
    } else {
      SameReferences(g, GiveBack(c, g, id, pc, h), x);
    }
  }

  lemma {:induction false} RefsBalance(c: Config, g: Ledger, id: Identity, pc: Pc, h: Held, l: LedgerAction, x: nat)
    requires LockTable(g) && Ready(pc, h) && CanSettle(g, id, pc, h, l)
    ensures var done := SettleStep(c, g, id, pc, h, l);
            Outside(done.g, x) - Bit(Owns(id, done.h, Ref(x))) == Outside(g, x) - Bit(Owns(id, h, Ref(x)))
  {
    match l {
      case Enter => EnterAddsOneReference(g, id.key, x);
      case CancelWait => DropTakesOneReference(g, RefOf(h), x);
      case Release => ReleaseRefsBalance(c, g, id, pc, h, x);
      case _ => SameReferences(g, SettleStep(c, g, id, pc, h, l).g, x);
    }
  }
}
