/** The state every transcode shares, and its atomic operations
    (src/media/mod.rs, src/media/transcode.rs). */
module TranscodeCache {
  import opened CacheNames

  type Bytes = seq<bv8>

  /** The limits, the digest, and which bytes are the whole output of one
      successful encode of a job. */
  datatype Config = Config(globalLimit: nat, perUserLimit: nat, hash: string -> string, whole: (Job, Bytes) -> bool)

  /** The counters and tables of `MediaInner` as a value. A lock is a number
      never used twice; `strong` is its reference count, the map's own reference
      included, and `owner` keeps the key it was made for. */
  datatype Ledger = Ledger(
    global: int,
    users: map<nat, int>,
    locks: map<string, nat>,
    strong: map<nat, int>,
    locked: set<nat>,
    pending: set<string>,
    active: int,
    nextLock: nat,
    owner: map<nat, string>)

  /** The cache directory: committed files by name, staging files by writer. */
  datatype Disk = Disk(files: map<string, Bytes>, staging: map<nat, Bytes>, nextStage: nat)

  function EmptyLedger(c: Config): (g: Ledger) {
    Ledger(c.globalLimit, map[], map[], map[], {}, {}, 0, 0, map[])
  }

  /** What an account may still take: its whole share until it first asks. */
  function Available(c: Config, g: Ledger, user: nat): (n: int) {
    if user in g.users then g.users[user] else c.perUserLimit
  }

  function StrongCount(g: Ledger, lock: nat): (n: int) {
    if lock in g.strong then g.strong[lock] else 0
  }

  /** The map holds this very lock, under the key it was made for. */
  predicate InMap(g: Ledger, lock: nat) {
    lock in g.owner && g.owner[lock] in g.locks && g.locks[g.owner[lock]] == lock
  }

  /** The entry of a key, made when there is none, and its lock cloned. */
  function EnterKey(g: Ledger, key: string): (r: Ledger) {
    if key in g.locks then
      var lock := g.locks[key];
      g.(strong := g.strong[lock := StrongCount(g, lock) + 1])
    else
      g.(locks := g.locks[key := g.nextLock],
          strong := g.strong[g.nextLock := 2],
          owner := g.owner[g.nextLock := key],
          nextLock := g.nextLock + 1)
  }

  function DropReference(g: Ledger, lock: nat): (r: Ledger) {
    g.(strong := g.strong[lock := StrongCount(g, lock) - 1])
  }

  /** Removes a key's entry when the map holds the only reference to its lock. */
  function RemoveIfUnshared(g: Ledger, key: string): (r: Ledger) {
    if key in g.locks && StrongCount(g, g.locks[key]) == 1 then
      g.(locks := g.locks - {key}, strong := g.strong[g.locks[key] := 0])
    else
      g
  }

  function Acquire(g: Ledger, lock: nat): (r: Ledger) {
    g.(locked := g.locked + {lock})
  }

  function Unlock(g: Ledger, lock: nat): (r: Ledger) {
    g.(locked := g.locked - {lock})
  }

  function TakePermits(g: Ledger, n: int): (r: Ledger) {
    g.(global := g.global - n)
  }

  function ReturnPermits(g: Ledger, n: int): (r: Ledger) {
    g.(global := g.global + n)
  }

  function TakeUserSlot(c: Config, g: Ledger, user: nat): (r: Ledger) {
    var left := Available(c, g, user);
    g.(users := g.users[user := if left >= 1 then left - 1 else left])
  }

  function ReturnUserSlot(c: Config, g: Ledger, user: nat): (r: Ledger) {
    g.(users := g.users[user := Available(c, g, user) + 1])
  }

  function ClaimKey(g: Ledger, key: string): (r: Ledger) {
    g.(pending := g.pending + {key})
  }

  function ReleaseClaim(g: Ledger, key: string): (r: Ledger) {
    g.(pending := g.pending - {key})
  }

  function Count(g: Ledger): (r: Ledger) {
    g.(active := g.active + 1)
  }

  function Uncount(g: Ledger): (r: Ledger) {
    g.(active := g.active - 1)
  }

  function CommitStaged(d: Disk, stage: nat, name: string): (r: Disk) {
    if stage in d.staging then
      d.(files := d.files[name := d.staging[stage]], staging := d.staging - {stage})
    else d
  }

  datatype Asked = Asked(g: Ledger, granted: bool)

  /** What a listener's request for its two slots makes of the counters: the
      server's is taken first, and handed back if the account has none left. */
  function ListenerSlots(c: Config, g: Ledger, user: nat): (r: Asked) {
    if g.global < 1 then Asked(g, false)
    else
      var taken := TakePermits(g, 1);
      var asked := TakeUserSlot(c, taken, user);
      if Available(c, taken, user) >= 1 then Asked(asked, true) else Asked(ReturnPermits(asked, 1), false)
  }

  /** The counters a fill's end goes through: its claim, its slot, its count. */
  function FillReleases(g: Ledger, key: string): (r: seq<Ledger>) {
    var unclaimed := ReleaseClaim(g, key);
    var freed := ReturnPermits(unclaimed, 1);
    [unclaimed, freed, Uncount(freed)]
  }

  /** A key's guard is let go, then its reference, then an entry nobody shares. */
  function HeldKeyReleases(g: Ledger, key: string, lock: nat): (r: seq<Ledger>) {
    var unlocked := Unlock(g, lock);
    var dropped := DropReference(unlocked, lock);
    [unlocked, dropped, RemoveIfUnshared(dropped, key)]
  }

  /** A refused listener leaves every account and the server with what they had. */
  lemma RefusalReturnsBothSlots(c: Config, g: Ledger, user: nat, other: nat)
    requires !ListenerSlots(c, g, user).granted
    ensures ListenerSlots(c, g, user).g.global == g.global
    ensures Available(c, ListenerSlots(c, g, user).g, other) == Available(c, g, other)
  {
  }

  /** Both slots are granted exactly when both are free, one of each is spent,
      and giving them back restores every balance. */
  lemma SlotsComeBack(c: Config, g: Ledger, user: nat, other: nat)
    ensures ListenerSlots(c, g, user).granted <==> g.global >= 1 && Available(c, g, user) >= 1
    ensures ListenerSlots(c, g, user).granted ==>
              var after := ListenerSlots(c, g, user).g;
              && after.global == g.global - 1
              && Available(c, after, other) == Available(c, g, other) - (if other == user then 1 else 0)
              && Available(c, ReturnUserSlot(c, after, user), other) == Available(c, g, other)
  {
  }

  class MediaInner {
    const globalLimit: nat
    const perUserLimit: nat
    ghost const hash: string -> string
    ghost const whole: (Job, Bytes) -> bool
    var global: int
    var users: map<nat, int>
    var locks: map<string, nat>
    var strong: map<nat, int>
    var locked: set<nat>
    var pending: set<string>
    var active: int
    var files: map<string, Bytes>
    var staging: map<nat, Bytes>
    var nextLock: nat
    var nextStage: nat
    ghost var owner: map<nat, string>

    ghost function Limits(): (c: Config) {
      Config(globalLimit, perUserLimit, hash, whole)
    }

    ghost function View(): (g: Ledger)
      reads this
    {
      Ledger(global, users, locks, strong, locked, pending, active, nextLock, owner)
    }

    ghost function Directory(): (d: Disk)
      reads this
    {
      Disk(files, staging, nextStage)
    }

    constructor (globalLimit: nat, perUserLimit: nat, ghost hash: string -> string, ghost whole: (Job, Bytes) -> bool)
      ensures Limits() == Config(globalLimit, perUserLimit, hash, whole)
      ensures View() == EmptyLedger(Limits()) && Directory() == Disk(map[], map[], 0)
    {
      this.globalLimit, this.perUserLimit := globalLimit, perUserLimit;
      this.hash, this.whole := hash, whole;
      global, users := globalLimit, map[];
      locks, strong, locked, owner := map[], map[], {}, map[];
      pending, active, files, staging, nextLock, nextStage := {}, 0, map[], map[], 0, 0;
    }

    /** The key's entry, made when there is none, and one more reference to its lock. */
    method LockOf(key: string) returns (lock: nat)
      modifies `locks, `strong, `nextLock, `owner
      ensures View() == EnterKey(old(View()), key)
      ensures key in locks && locks[key] == lock
    {
      if key in locks {
        lock := locks[key];
        strong := strong[lock := (if lock in strong then strong[lock] else 0) + 1];
      } else {
        lock := nextLock;
        locks := locks[key := lock];
        strong := strong[lock := 2];
        owner := owner[lock := key];
        nextLock := nextLock + 1;
      }
    }

    method Hold(lock: nat)
      modifies `locked
      ensures View() == Acquire(old(View()), lock)
    {
      locked := locked + {lock};
    }

    method LetGo(lock: nat)
      modifies `locked
      ensures View() == Unlock(old(View()), lock)
    {
      locked := locked - {lock};
    }

    method DropRef(lock: nat)
      modifies `strong
      ensures View() == DropReference(old(View()), lock)
    {
      strong := strong[lock := (if lock in strong then strong[lock] else 0) - 1];
    }

    method RemoveEntryIfUnshared(key: string)
      modifies `locks, `strong
      ensures View() == RemoveIfUnshared(old(View()), key)
    {
      if key in locks {
        var entry := locks[key];
        if entry in strong && strong[entry] == 1 {
          locks := locks - {key};
          strong := strong[entry := 0];
        }
      }
    }

    method TryPermits(n: nat) returns (granted: bool)
      modifies `global
      ensures granted == (old(global) >= n)
      ensures View() == if granted then TakePermits(old(View()), n) else old(View())
    {
      granted := global >= n;
      if granted {
        global := global - n;
      }
    }

    method GivePermits(n: int)
      modifies `global
      ensures View() == ReturnPermits(old(View()), n)
    {
      global := global + n;
    }

    /** The account's semaphore is made on first use, granted or not. */
    method TryUserSlot(user: nat) returns (granted: bool)
      modifies `users
      ensures granted == (Available(Limits(), old(View()), user) >= 1)
      ensures View() == TakeUserSlot(Limits(), old(View()), user)
    {
      if user !in users {
        users := users[user := perUserLimit];
      }
      granted := users[user] >= 1;
      if granted {
        users := users[user := users[user] - 1];
      }
      assert users == TakeUserSlot(Limits(), old(View()), user).users;
    }

    method GiveUserSlot(user: nat)
      modifies `users
      ensures View() == ReturnUserSlot(Limits(), old(View()), user)
    {
      users := users[user := (if user in users then users[user] else perUserLimit) + 1];
    }

    method ClaimFill(key: string) returns (first: bool)
      modifies `pending
      ensures first == (key !in old(pending))
      ensures View() == ClaimKey(old(View()), key)
    {
      first := key !in pending;
      pending := pending + {key};
    }

    method DropClaim(key: string)
      modifies `pending
      ensures View() == ReleaseClaim(old(View()), key)
    {
      pending := pending - {key};
    }

    method CountUp()
      modifies `active
      ensures View() == Count(old(View()))
    {
      active := active + 1;
    }

    method CountDown()
      modifies `active
      ensures View() == Uncount(old(View()))
    {
      active := active - 1;
    }

    method AskListenerSlots(user: nat) returns (granted: bool)
      modifies `global, `users
      ensures Asked(View(), granted) == ListenerSlots(Limits(), old(View()), user)
    {
      granted := TryPermits(1);
      if granted {
        granted := TryUserSlot(user);
        if !granted {
          GivePermits(1);
        }
      }
    }

    /** Two permits at once and one handed back, or none. */
    method TakeFillSlot() returns (granted: bool)
      modifies `global
      ensures granted == (old(global) >= 2)
      ensures View() == if granted then ReturnPermits(TakePermits(old(View()), 2), 1) else old(View())
    {
      granted := TryPermits(2);
      if granted {
        GivePermits(1);
      }
    }

    /** What dropping a held key does, one guard at a time. */
    method DropHeldKey(key: string, lock: nat) returns (ghost seen: seq<Ledger>)
      modifies `locks, `strong, `locked
      ensures seen == HeldKeyReleases(old(View()), key, lock) && View() == seen[2]
    {
      LetGo(lock);
      seen := [View()];
      DropRef(lock);
      seen := seen + [View()];
      RemoveEntryIfUnshared(key);
      seen := seen + [View()];
    }

    /** The end of a fill, one guard at a time: whoever sees the count go down
        finds the claim and the slot already back. */
    method FinishFill(key: string) returns (ghost seen: seq<Ledger>)
      modifies `pending, `global, `active
      ensures seen == FillReleases(old(View()), key) && View() == seen[2]
    {
      DropClaim(key);
      seen := [View()];
      GivePermits(1);
      seen := seen + [View()];
      CountDown();
      seen := seen + [View()];
    }

    method Commit(stage: nat, name: string) returns (ok: bool)
      modifies `files, `staging
      ensures ok == (stage in old(staging))
      ensures Directory() == CommitStaged(old(Directory()), stage, name) && View() == old(View())
    {
      ok := stage in staging;
      if ok {
        files := files[name := staging[stage]];
        staging := staging - {stage};
      }
    }
  }
}
