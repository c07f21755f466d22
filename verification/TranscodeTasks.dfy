/** The steps of a task as calls on the shared state, and what a task asks for or
    gives back as steps of the protocol (src/media/transcode.rs). */
module TranscodeTasks {
  import opened Decimal
  import opened TranscodeCache
  import opened TranscodeProtocol

  /** What a task holds and where it is, the shared state apart. */
  datatype Standing = Standing(h: Held, pc: Pc)

  ghost predicate Stands(m: MediaInner, s: Standing, done: Settled)
    reads m
  {
    done == Settled(m.View(), s.h, s.pc)
  }

  // ---- every step of the protocol is calls on the shared state ----

  method SettleLock(m: MediaInner, id: Identity, s: Standing, l: LedgerAction) returns (u: Standing)
    requires CanSettle(m.View(), id, s.pc, s.h, l)
    requires l.Enter? || l.Lock? || l.CancelWait? || l.CancelHeld?
    modifies m
    ensures Stands(m, u, SettleStep(m.Limits(), old(m.View()), id, s.pc, s.h, l))
  {
    match l
    case Enter =>
      var lock := m.LockOf(id.key);
      u := Standing(s.h.(ref := Some(lock)), Waiting);
    case Lock =>
      m.Hold(RefOf(s.h));
      u := Standing(s.h.(holds := true), Locked);
    case CancelWait =>
      m.DropRef(RefOf(s.h));
      u := Standing(s.h.(ref := None), Done);
    case CancelHeld =>
      u := Standing(s.h, FirstRelease(id.kind));
  }

  method SettleListener(m: MediaInner, id: Identity, s: Standing, l: LedgerAction) returns (u: Standing)
    requires CanSettle(m.View(), id, s.pc, s.h, l)
    requires l.TakeGlobal? || l.TakeUser? || l.BackOut?
    modifies m
    ensures Stands(m, u, SettleStep(m.Limits(), old(m.View()), id, s.pc, s.h, l))
  {
    if l.TakeGlobal? {
      var granted := m.TryPermits(1);
      u := if granted then Standing(s.h.(slots := 1), WantUser) else Standing(s.h, FirstRelease(id.kind));
    } else if l.TakeUser? {
      var granted := m.TryUserSlot(id.user);
      u := if granted then Standing(s.h.(userSlot := true), WantSpawn) else Standing(s.h, BackOutGlobal);
    } else if s.pc.BackOutUser? {
      m.GiveUserSlot(id.user);
      u := Standing(s.h.(userSlot := false), BackOutGlobal);
    } else {
      m.GivePermits(1);
      u := Standing(s.h.(slots := 0), FirstRelease(id.kind));
    }
  }

  method SettleFill(m: MediaInner, id: Identity, s: Standing, l: LedgerAction) returns (u: Standing)
    requires CanSettle(m.View(), id, s.pc, s.h, l)
    requires l.Claim? || l.TakeTwo? || l.GiveOneBack? || l.Spawn? || l.SpawnFails?
    modifies m
    ensures Stands(m, u, SettleStep(m.Limits(), old(m.View()), id, s.pc, s.h, l))
  {
    match l
    case Claim =>
      var first := m.ClaimFill(id.key);
      u := if first then Standing(s.h.(claim := true), WantTwo) else Standing(s.h, Done);
      assert !first ==> m.View().pending == old(m.View()).pending;
    case TakeTwo =>
      var granted := m.TryPermits(2);
      u := if granted then Standing(s.h.(slots := 2), GivingOneBack) else Standing(s.h, FirstRelease(id.kind));
    case GiveOneBack =>
      m.GivePermits(1);
      u := Standing(s.h.(slots := 1), WantSpawn);
    case Spawn =>
      m.CountUp();
      u := Standing(s.h.(counted := true), Starting);
    case SpawnFails =>
      u := Standing(s.h, BackOutUser);
  }

  /** Drops the guard the task is at. */
  method SettleRelease(m: MediaInner, id: Identity, s: Standing) returns (u: Standing)
    requires Releasing(s.pc)
    modifies m
    ensures Stands(m, u, SettleStep(m.Limits(), old(m.View()), id, s.pc, s.h, Release))
  {
    match s.pc {
      case RelClaim => if s.h.claim { m.DropClaim(id.key); }
      case RelGlobal => m.GivePermits(s.h.slots);
      case RelUser => if s.h.userSlot { m.GiveUserSlot(id.user); }
      case Unlocking => if s.h.holds { m.LetGo(RefOf(s.h)); }
      case DroppingRef => if s.h.ref.Some? { m.DropRef(s.h.ref.value); }
      case RemoveCheck => if id.kind.Probe? { m.RemoveEntryIfUnshared(id.key); }
      case RelActive => if s.h.counted { m.CountDown(); }
      case _ =>
    }
    u := Standing(Released(s.pc, s.h), NextRelease(id.kind, s.pc));
  }

  /** Any step of any task on the shared counters and tables: the state moves as
      the protocol says it does, and so does the task. */
  method Settle(m: MediaInner, id: Identity, s: Standing, l: LedgerAction) returns (u: Standing)
    requires CanSettle(m.View(), id, s.pc, s.h, l)
    modifies m
    ensures Stands(m, u, SettleStep(m.Limits(), old(m.View()), id, s.pc, s.h, l))
  {
    if l.Enter? || l.Lock? || l.CancelWait? || l.CancelHeld? {
      u := SettleLock(m, id, s, l);
    } else if l.TakeGlobal? || l.TakeUser? || l.BackOut? {
      u := SettleListener(m, id, s, l);
    } else if l.Release? {
      u := SettleRelease(m, id, s);
    } else {
      u := SettleFill(m, id, s, l);
    }
  }

  // ---- what a task asks for and gives back, as steps of the protocol ----

  predicate CanAll(c: Config, id: Identity, s: Settled, steps: seq<LedgerAction>)
    decreases |steps|
  {
    steps == [] || (CanSettle(s.g, id, s.pc, s.h, steps[0]) && CanAll(c, id, SettleStep(c, s.g, id, s.pc, s.h, steps[0]), steps[1..]))
  }

  /** Where a task gets to by these steps, nobody else moving. */
  function AfterAll(c: Config, id: Identity, s: Settled, steps: seq<LedgerAction>): (r: Settled)
    decreases |steps|
  {
    if steps == [] then s else AfterAll(c, id, SettleStep(c, s.g, id, s.pc, s.h, steps[0]), steps[1..])
  }

  function Asking(c: Config, g: Ledger, user: nat): (steps: seq<LedgerAction>) {
    if g.global < 1 then [TakeGlobal]
    else if Available(c, g, user) >= 1 then [TakeGlobal, TakeUser]
    else [TakeGlobal, TakeUser, BackOut]
  }

  lemma OneStep(c: Config, id: Identity, s: Settled, l: LedgerAction)
    ensures AfterAll(c, id, s, [l]) == SettleStep(c, s.g, id, s.pc, s.h, l)
    ensures CanAll(c, id, s, [l]) <==> CanSettle(s.g, id, s.pc, s.h, l)
  {
  }

  lemma FirstStep(c: Config, id: Identity, s: Settled, l: LedgerAction, more: seq<LedgerAction>)
    ensures AfterAll(c, id, s, [l] + more) == AfterAll(c, id, SettleStep(c, s.g, id, s.pc, s.h, l), more)
    ensures CanAll(c, id, s, [l] + more) <==>
            CanSettle(s.g, id, s.pc, s.h, l) && CanAll(c, id, SettleStep(c, s.g, id, s.pc, s.h, l), more)
  {
    assert ([l] + more)[1..] == more;
  }

  /** A listener that asks for its slots goes through the protocol's own steps:
      refused on its account, it takes the server's, fails, and gives it back. */
  lemma {:induction false} AskingIsSteps(c: Config, g: Ledger, id: Identity, h: Held)
    requires h.slots == 0 && !h.userSlot && !id.kind.Fill?
    ensures var s := Settled(g, h, WantGlobal);
            var asked := ListenerSlots(c, g, id.user);
            && CanAll(c, id, s, Asking(c, g, id.user))
            && AfterAll(c, id, s, Asking(c, g, id.user))
               == if asked.granted then Settled(asked.g, h.(slots := 1, userSlot := true), WantSpawn)
                  else Settled(asked.g, h, FirstRelease(id.kind))
  {
    var s := Settled(g, h, WantGlobal);
    if g.global < 1 {
      OneStep(c, id, s, TakeGlobal);
    } else {
      var taken := Settled(TakePermits(g, 1), h.(slots := 1), WantUser);
      if Available(c, g, id.user) >= 1 {
        FirstStep(c, id, s, TakeGlobal, [TakeUser]);
        OneStep(c, id, taken, TakeUser);
      } else {
        var asked := Settled(TakeUserSlot(c, taken.g, id.user), taken.h, BackOutGlobal);
        FirstStep(c, id, s, TakeGlobal, [TakeUser, BackOut]);
        FirstStep(c, id, taken, TakeUser, [BackOut]);
        OneStep(c, id, asked, BackOut);
        assert [TakeGlobal] + [TakeUser, BackOut] == [TakeGlobal, TakeUser, BackOut];
        assert [TakeUser] + [BackOut] == [TakeUser, BackOut];
      }
    }
  }

  /** The ledgers a task goes through as it drops one guard after another. */
  function Releases(c: Config, id: Identity, s: Settled, n: nat): (r: seq<Ledger>)
    decreases n
  {
    if n == 0 then []
    else
      var next := SettleStep(c, s.g, id, s.pc, s.h, Release);
      [next.g] + Releases(c, id, next, n - 1)
  }

  /** A fill that ends goes through the ledgers its guards leave, in their order:
      the claim, the slot, and after what it never held, the count. */
  lemma {:induction false} FillEndsInOrder(c: Config, g: Ledger, id: Identity)
    requires id.kind.Fill?
    ensures var h := NOTHING.(slots := 1, claim := true, counted := true);
            var left := FillReleases(g, id.key);
            Releases(c, id, Settled(g, h, RelClaim), 7) == [left[0], left[1], left[1], left[1], left[1], left[1], left[2]]
  {
    var left := FillReleases(g, id.key);
    var h := NOTHING.(slots := 1, claim := true, counted := true);
    var h1, h2 := h.(claim := false), h.(claim := false, slots := 0);
    assert Releases(c, id, Settled(left[2], NOTHING, Done), 0) == [];
    assert Releases(c, id, Settled(left[1], h2, RelActive), 1) == [left[2]];
    assert Releases(c, id, Settled(left[1], h2, RemoveCheck), 2) == [left[1], left[2]];
    assert Releases(c, id, Settled(left[1], h2, DroppingRef), 3) == [left[1], left[1], left[2]];
    assert Releases(c, id, Settled(left[1], h2, Unlocking), 4) == [left[1], left[1], left[1], left[2]];
    assert Releases(c, id, Settled(left[1], h2, RelUser), 5) == [left[1], left[1], left[1], left[1], left[2]];
    assert Releases(c, id, Settled(left[0], h1, RelGlobal), 6) == [left[1], left[1], left[1], left[1], left[1], left[2]];
  }

  /** A probe drops its held key in the order the guard does. */
  lemma {:induction false} HeldKeyDropsInOrder(c: Config, g: Ledger, id: Identity, h: Held)
    requires id.kind.Probe? && h.ref.Some? && h.holds
    ensures Releases(c, id, Settled(g, h, Unlocking), 3) == HeldKeyReleases(g, id.key, h.ref.value)
  {
    var left := HeldKeyReleases(g, id.key, h.ref.value);
    var h1, h2 := h.(holds := false), h.(holds := false, ref := None);
    assert Releases(c, id, Settled(left[2], h2, RelActive), 0) == [];
    assert Releases(c, id, Settled(left[1], h2, RemoveCheck), 1) == [left[2]];
    assert Releases(c, id, Settled(left[0], h1, DroppingRef), 2) == [left[1], left[2]];
  }
}
