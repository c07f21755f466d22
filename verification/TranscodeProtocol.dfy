/** Streams, probes and fills as one concurrent protocol: one action per await
    point or guard drop (src/media/transcode.rs, src/media/stream.rs). */
module TranscodeProtocol {
  import opened Decimal
  import opened CacheNames
  import opened TranscodeCache

  /** A probe encodes a seek a listener waits on, a fill encodes the whole
      track behind one, a live stream answers as it encodes; only the one from
      the first byte writes the cache as it goes. */
  datatype Kind = Probe | Fill | Live(cached: bool)

  datatype Identity = Identity(kind: Kind, job: Job, user: nat, key: string, file: string)

  datatype Pc =
    // before the encoder
    | Entering | Waiting | Locked | WantGlobal | WantUser | BackOutUser | BackOutGlobal
    | Claiming | WantTwo | GivingOneBack | WantSpawn
    // around the encoder
    | Starting | Encoding | Finished | Committing | Opening | Pruning | Discarding
    | Reading | Writing | Sending | Exiting
    // on the way out
    | RelClaim | RelGlobal | RelUser | Unlocking | DroppingRef | RemoveCheck | RelActive
    | Done

  /** What a task holds of the ledger. */
  datatype Held = Held(ref: Option<nat>, holds: bool, slots: int, userSlot: bool, claim: bool, counted: bool)

  /** What a task has written, sent and opened. */
  datatype Work = Work(stage: Option<nat>, caching: bool, chunk: Bytes, sent: Bytes, handle: Option<Bytes>)

  datatype Task = Task(id: Identity, pc: Pc, held: Held, work: Work)

  datatype LedgerAction =
    | Enter | Lock | CancelWait | CancelHeld
    | TakeGlobal | TakeUser | BackOut
    | Claim | TakeTwo | GiveOneBack
    | Spawn | SpawnFails | Release

  datatype DiskAction =
    | LookAgain | Stage(ok: bool)
    | Encode(bytes: Bytes) | Exit(success: bool) | LookBeforeCommit | Commit(ok: bool)
    | Open | Prune(gone: set<string>) | Discard(removed: bool)
    | Read(bytes: Bytes) | WriteChunk(ok: bool) | Send(ok: bool) | Leave | Eof

  datatype Event =
    | Begin(t: nat, kind: Kind, job: Job, user: nat)
    | Settle(t: nat, l: LedgerAction)
    | Touch(t: nat, d: DiskAction)

  /** The last three are history: the keys a play from the first byte entered,
      those whose last entry or removal check was followed by a cancelled wait,
      and the tasks that were counted active. */
  datatype State = State(g: Ledger, d: Disk, tasks: map<nat, Task>,
                         plays: set<string>, abandoned: set<string>, spawned: set<nat>)

  const NOTHING := Held(None, false, 0, false, false, false)
  const NO_WORK := Work(None, false, [], [], None)

  function Init(c: Config): (s: State) {
    State(EmptyLedger(c), Disk(map[], map[], 0), map[], {}, {}, {})
  }

  predicate TakesLock(kind: Kind) {
    kind.Probe? || kind == Live(true)
  }

  function Identify(c: Config, kind: Kind, job: Job, user: nat): (id: Identity) {
    Identity(kind, job, user, CacheKey(c.hash, job), FileName(c.hash, job))
  }

  function NewTask(c: Config, kind: Kind, job: Job, user: nat): (task: Task) {
    var pc := if kind.Fill? then Claiming else if kind == Live(false) then WantGlobal else Entering;
    Task(Identify(c, kind, job, user), pc, NOTHING, NO_WORK)
  }

  /** Where a task starts giving back what it holds. */
  function FirstRelease(kind: Kind): (pc: Pc) {
    if kind.Live? then Unlocking else RelClaim
  }

  /** Fills and probes drop the count last; a live stream drops it before its slots. */
  function NextRelease(kind: Kind, pc: Pc): (next: Pc) {
    match pc
    case RelClaim => RelGlobal
    case RelGlobal => if kind.Live? then Done else RelUser
    case RelUser => if kind.Live? then RelGlobal else Unlocking
    case Unlocking => DroppingRef
    case DroppingRef => if kind.Live? then RelActive else RemoveCheck
    case RemoveCheck => RelActive
    case RelActive => if kind.Live? then RelUser else Done
    case _ => pc
  }

  predicate Releasing(pc: Pc) {
    pc.RelClaim? || pc.RelGlobal? || pc.RelUser? || pc.Unlocking? || pc.DroppingRef? || pc.RemoveCheck? || pc.RelActive?
  }

  function RefOf(h: Held): (lock: nat) {
    if h.ref.Some? then h.ref.value else 0
  }

  predicate CanSettle(g: Ledger, id: Identity, pc: Pc, h: Held, l: LedgerAction) {
    match l
    case Enter => pc.Entering?
    case Lock => pc.Waiting? && RefOf(h) !in g.locked
    case CancelWait => pc.Waiting?
    case CancelHeld => pc.Locked?
    case TakeGlobal => pc.WantGlobal?
    case TakeUser => pc.WantUser?
    case BackOut => pc.BackOutUser? || pc.BackOutGlobal?
    case Claim => pc.Claiming?
    case TakeTwo => pc.WantTwo?
    case GiveOneBack => pc.GivingOneBack?
    case Spawn => pc.WantSpawn?
    case SpawnFails => pc.WantSpawn? && id.kind.Live?
    case Release => Releasing(pc)
  }

  datatype Settled = Settled(g: Ledger, h: Held, pc: Pc)
  datatype Touched = Touched(d: Disk, w: Work, pc: Pc)

  /** What a task still holds once the guard it is at has dropped. */
  function Released(pc: Pc, h: Held): (r: Held) {
    match pc
    case RelClaim => h.(claim := false)
    case RelGlobal => h.(slots := 0)
    case RelUser => h.(userSlot := false)
    case Unlocking => h.(holds := false)
    case DroppingRef => h.(ref := None)
    case RelActive => h.(counted := false)
    case _ => h
  }

  /** What that guard gives back. */
  function GiveBack(c: Config, g: Ledger, id: Identity, pc: Pc, h: Held): (r: Ledger) {
    match pc
    case RelClaim => if h.claim then ReleaseClaim(g, id.key) else g
    case RelGlobal => ReturnPermits(g, h.slots)
    case RelUser => if h.userSlot then ReturnUserSlot(c, g, id.user) else g
    case Unlocking => if h.holds then Unlock(g, RefOf(h)) else g
    case DroppingRef => if h.ref.Some? then DropReference(g, h.ref.value) else g
    case RemoveCheck => if id.kind.Probe? then RemoveIfUnshared(g, id.key) else g
    case RelActive => if h.counted then Uncount(g) else g
    case _ => g
  }

  function SettleStep(c: Config, g: Ledger, id: Identity, pc: Pc, h: Held, l: LedgerAction): (r: Settled) {
    match l
    case Enter =>
      var entered := EnterKey(g, id.key);
      Settled(entered, h.(ref := Some(entered.locks[id.key])), Waiting)
    case Lock => Settled(Acquire(g, RefOf(h)), h.(holds := true), Locked)
    case CancelWait => Settled(DropReference(g, RefOf(h)), h.(ref := None), Done)
    case CancelHeld => Settled(g, h, FirstRelease(id.kind))
    case TakeGlobal =>
      if g.global >= 1 then Settled(TakePermits(g, 1), h.(slots := 1), WantUser)
      else Settled(g, h, FirstRelease(id.kind))
    case TakeUser =>
      if Available(c, g, id.user) >= 1 then Settled(TakeUserSlot(c, g, id.user), h.(userSlot := true), WantSpawn)
      else Settled(TakeUserSlot(c, g, id.user), h, BackOutGlobal)
    case BackOut =>
      if pc.BackOutUser? then Settled(ReturnUserSlot(c, g, id.user), h.(userSlot := false), BackOutGlobal)
      else Settled(ReturnPermits(g, 1), h.(slots := 0), FirstRelease(id.kind))
    case Claim =>
      if id.key in g.pending then Settled(g, h, Done)
      else Settled(ClaimKey(g, id.key), h.(claim := true), WantTwo)
    case TakeTwo =>
      if g.global >= 2 then Settled(TakePermits(g, 2), h.(slots := 2), GivingOneBack)
      else Settled(g, h, FirstRelease(id.kind))
    case GiveOneBack => Settled(ReturnPermits(g, 1), h.(slots := 1), WantSpawn)
    case Spawn => Settled(Count(g), h.(counted := true), Starting)
    case SpawnFails => Settled(g, h, BackOutUser)
    case Release => Settled(GiveBack(c, g, id, pc, h), Released(pc, h), NextRelease(id.kind, pc))
  }

  function StageOf(w: Work): (stage: nat) {
    if w.stage.Some? then w.stage.value else 0
  }

  function Staged(d: Disk, w: Work): (bytes: Bytes) {
    if w.stage.Some? && w.stage.value in d.staging then d.staging[w.stage.value] else []
  }

  /** An encoder that exits successfully has written its whole output. */
  predicate CanTouch(c: Config, d: Disk, id: Identity, pc: Pc, w: Work, a: DiskAction) {
    match a
    case LookAgain => pc.Locked?
    case Stage(ok) => pc.Starting? && (ok ==> id.kind != Live(false))
    case Encode(_) => pc.Encoding?
    case Exit(success) =>
      || (pc.Encoding? && (success ==> c.whole(id.job, Staged(d, w))))
      || (pc.Exiting? && (success ==> c.whole(id.job, w.sent)))
    case LookBeforeCommit => pc.Finished?
    case Commit(ok) => pc.Committing?
    case Open => pc.Opening?
    case Prune(_) => pc.Pruning?
    case Discard(_) => pc.Discarding?
    case Read(bytes) => pc.Reading? && bytes != []
    case WriteChunk(_) => pc.Writing?
    case Send(_) => pc.Sending?
    case Leave => pc.Reading?
    case Eof => pc.Reading?
  }

  function TouchStep(d: Disk, id: Identity, w: Work, a: DiskAction): (r: Touched) {
    match a
    case LookAgain =>
      if id.file in d.files then Touched(d, w.(handle := Some(d.files[id.file])), FirstRelease(id.kind))
      else Touched(d, w, WantGlobal)
    case Stage(ok) =>
      if ok then Touched(d.(staging := d.staging[d.nextStage := []], nextStage := d.nextStage + 1),
                  w.(stage := Some(d.nextStage), caching := id.kind.Live?),
                  if id.kind.Live? then Reading else Encoding)
      else Touched(d, w, if id.kind.Live? then Reading else FirstRelease(id.kind))
    case Encode(bytes) => Touched(d.(staging := d.staging[StageOf(w) := Staged(d, w) + bytes]), w, Encoding)
    case Exit(success) =>
      Touched(d, w, if !success then Discarding
             else if !id.kind.Live? then Finished
             else if w.caching then Committing
             else Discarding)
    case LookBeforeCommit =>
      if id.file in d.files then Touched(d, w.(handle := Some(d.files[id.file])), Discarding)
      else Touched(d, w, Committing)
    case Commit(ok) =>
      if ok then Touched(CommitStaged(d, StageOf(w), id.file), w, if id.kind.Live? then Pruning else Opening)
      else Touched(d, w, if id.kind.Live? then FirstRelease(id.kind) else Discarding)
    case Open => Touched(d, w.(handle := if id.file in d.files then Some(d.files[id.file]) else None), Pruning)
    case Prune(gone) => Touched(d.(files := d.files - gone), w, FirstRelease(id.kind))
    case Discard(removed) =>
      Touched(if removed && w.stage.Some? then d.(staging := d.staging - {w.stage.value}) else d, w.(stage := None, caching := false), FirstRelease(id.kind))
    case Read(bytes) => Touched(d, w.(chunk := bytes), Writing)
    case WriteChunk(ok) =>
      if w.caching && ok then Touched(d.(staging := d.staging[StageOf(w) := Staged(d, w) + w.chunk]), w, Sending)
      else Touched(d, w.(caching := false), Sending)
    case Send(ok) =>
      if ok then Touched(d, w.(sent := w.sent + w.chunk), Reading)
      else Touched(d, w.(caching := false), Discarding)
    case Leave => Touched(d, w.(caching := false), Discarding)
    case Eof => Touched(d, w, Exiting)
  }

  function NoteAbandoned(abandoned: set<string>, id: Identity, pc: Pc, l: LedgerAction): (r: set<string>) {
    if l.CancelWait? then abandoned + {id.key}
    else if l.Enter? || (l.Release? && pc.RemoveCheck? && id.kind.Probe?) then abandoned - {id.key}
    else abandoned
  }

  predicate Possible(c: Config, s: State, e: Event) {
    match e
    case Begin(t, kind, job, user) =>
      && t !in s.tasks && WellFormed(job)
      && (kind.Fill? || kind == Live(true) <==> job.offset == 0)
    case Settle(t, l) => t in s.tasks && CanSettle(s.g, s.tasks[t].id, s.tasks[t].pc, s.tasks[t].held, l)
    case Touch(t, a) => t in s.tasks && CanTouch(c, s.d, s.tasks[t].id, s.tasks[t].pc, s.tasks[t].work, a)
  }

  function Apply(c: Config, s: State, e: Event): (r: State)
    requires e.Begin? || e.t in s.tasks
  {
    match e
    case Begin(t, kind, job, user) => s.(tasks := s.tasks[t := NewTask(c, kind, job, user)])
    case Settle(t, l) =>
      var task := s.tasks[t];
      var done := SettleStep(c, s.g, task.id, task.pc, task.held, l);
      s.(g := done.g,
         tasks := s.tasks[t := task.(held := done.h, pc := done.pc)],
         plays := if l.Enter? && task.id.kind.Live? then s.plays + {task.id.key} else s.plays,
         abandoned := NoteAbandoned(s.abandoned, task.id, task.pc, l),
         spawned := if l.Spawn? then s.spawned + {t} else s.spawned)
    case Touch(t, a) =>
      var task := s.tasks[t];
      var done := TouchStep(s.d, task.id, task.work, a);
      s.(d := done.d, tasks := s.tasks[t := task.(work := done.w, pc := done.pc)])
  }

  predicate Step(c: Config, s: State, e: Event, next: State) {
    Possible(c, s, e) && next == Apply(c, s, e)
  }

  /** A run: every event possible in the state the ones before it lead to. */
  ghost predicate Leads(c: Config, events: seq<Event>, s: State) {
    if events == [] then s == Init(c)
    else
      var front, last := events[..|events| - 1], events[|events| - 1];
      exists before :: Leads(c, front, before) && Step(c, before, last, s)
  }

  ghost predicate Reachable(c: Config, s: State) {
    exists events :: Leads(c, events, s)
  }
}
