/** Replacing the instance key, over files that survive a machine stopping at
    any moment (src/cli/key.rs, src/storage/database/keys.rs). */
module KeyChange {
  import opened Decimal

  // ---- files, directories and what a stop leaves of them ----

  datatype Name = InstanceKey | StagedKey | RecoveryDirectory | SavedDatabase | SavedKey

  /** The files and directories themselves, whatever names lead to them. */
  datatype Node = KeyFound | KeyMade | RecoveryMade | DatabaseCopied | KeyCopied

  datatype Data = KeyBytes(key: nat) | DatabaseFile(bound: Option<nat>) | DirectoryEntry

  /** A file's bytes are sure to be what was written only once they are synced. */
  datatype File = File(data: Data, synced: bool)

  datatype Op = Link(name: Name, node: Node) | Unlink(name: Name) | Rename(from: Name, to: Name)

  type Entries = map<Name, Node>

  /** A directory as last synced, and what was done to its entries since. */
  datatype Directory = Directory(durable: Entries, pending: seq<Op>)

  function Effect(entries: Entries, op: Op): (r: Entries) {
    match op
    case Link(name, node) => entries[name := node]
    case Unlink(name) => entries - {name}
    case Rename(from, to) => if from in entries then (entries - {from})[to := entries[from]] else entries
  }

  /** The entries once the chosen operations reached the disk, each one whole. */
  function Left(entries: Entries, ops: seq<Op>, reached: seq<bool>): (r: Entries)
    requires |ops| == |reached|
  {
    if ops == [] then entries
    else
      var n := |ops| - 1;
      var before := Left(entries, ops[..n], reached[..n]);
      if reached[n] then Effect(before, ops[n]) else before
  }

  function All(n: nat, b: bool): (r: seq<bool>) {
    seq(n, _ => b)
  }

  function View(d: Directory): (r: Entries) {
    Left(d.durable, d.pending, All(|d.pending|, true))
  }

  function After(d: Directory, op: Op): (r: Directory) {
    d.(pending := d.pending + [op])
  }

  /** The disk: the data directory, the recovery directory in it, the files, and
      the key the database answers to, on disk and as committed. */
  datatype Disk = Disk(
    data: Directory,
    recovery: Directory,
    files: map<Node, File>,
    settled: Option<nat>,
    committed: Option<nat>)

  /** What a machine finds when it starts again. */
  datatype Image = Image(data: Entries, recovery: Entries, bound: Option<nat>)

  ghost predicate Survives(d: Disk, i: Image) {
    && (exists reached: seq<bool> | |reached| == |d.data.pending| :: i.data == Left(d.data.durable, d.data.pending, reached))
    && (exists reached: seq<bool> | |reached| == |d.recovery.pending| :: i.recovery == Left(d.recovery.durable, d.recovery.pending, reached))
    && (i.bound == d.settled || i.bound == d.committed)
  }

  predicate Holds(d: Disk, entries: Entries, name: Name, data: Data) {
    name in entries && entries[name] in d.files && d.files[entries[name]] == File(data, true)
  }

  /** The key the surviving database is bound to is in a durable file. */
  predicate KeyHeld(d: Disk, i: Image) {
    i.bound.Some? ==>
      Holds(d, i.data, InstanceKey, KeyBytes(i.bound.value)) || Holds(d, i.data, StagedKey, KeyBytes(i.bound.value))
  }

  // ---- the command, one durable step at a time ----

  /** What the command starts from. A directory is synced on Unix only. */
  datatype Setup = Setup(keyFile: Option<nat>, bound: Option<nat>, made: nat, unix: bool)

  datatype Step =
    | MakeRecovery | SaveDatabase | SyncDatabase | SaveKey | SyncKey | SyncRecovery
    | Migrate | StageKey | SyncData | Rekey | DropStaged | Close | Install | SyncParent
    | Refused | Unfinished | Complete

  datatype Machine = Machine(disk: Disk, at: Step)

  function Start(s: Setup): (m: Machine) {
    var found: Entries := if s.keyFile.Some? then map[InstanceKey := KeyFound] else map[];
    var files := if s.keyFile.Some? then map[KeyFound := File(KeyBytes(s.keyFile.value), true)] else map[];
    Machine(Disk(Directory(found, []), Directory(map[], []), files, s.bound, s.bound), MakeRecovery)
  }

  /** `rotate` wants the key the database is bound to, or any key for one that
      records none; `adopt` wants anything else. */
  predicate Rotates(s: Setup) {
    s.keyFile.Some? && (s.bound.Some? ==> s.bound == s.keyFile)
  }

  predicate Adopts(s: Setup) {
    !(s.keyFile.Some? && s.bound == s.keyFile)
  }

  /** A key that was just drawn is none of those already there. */
  predicate Drawn(s: Setup) {
    Some(s.made) != s.bound && Some(s.made) != s.keyFile
  }

  predicate Ended(at: Step) {
    at.Refused? || at.Unfinished? || at.Complete?
  }

  // The operations the steps are made of.

  function WithFile(d: Disk, node: Node, data: Data, synced: bool): (r: Disk) {
    d.(files := d.files[node := File(data, synced)])
  }

  function FileSynced(d: Disk, node: Node): (r: Disk) {
    if node in d.files then d.(files := d.files[node := d.files[node].(synced := true)]) else d
  }

  function DataSynced(d: Disk, unix: bool): (r: Disk) {
    if unix then d.(data := Directory(View(d.data), [])) else d
  }

  function RecoverySynced(d: Disk, unix: bool): (r: Disk) {
    if unix then d.(recovery := Directory(View(d.recovery), [])) else d
  }

  function InData(d: Disk, op: Op): (r: Disk) {
    d.(data := After(d.data, op))
  }

  function InRecovery(d: Disk, op: Op): (r: Disk) {
    d.(recovery := After(d.recovery, op))
  }

  /** What a step that succeeds does to the disk. */
  function Perform(s: Setup, d: Disk, at: Step): (r: Disk) {
    match at
    case MakeRecovery => InData(WithFile(d, RecoveryMade, DirectoryEntry, true), Link(RecoveryDirectory, RecoveryMade))
    case SaveDatabase => InRecovery(WithFile(d, DatabaseCopied, DatabaseFile(d.committed), false), Link(SavedDatabase, DatabaseCopied))
    case SyncDatabase => FileSynced(d, DatabaseCopied)
    case SaveKey =>
      if KeyFound in d.files then InRecovery(WithFile(d, KeyCopied, d.files[KeyFound].data, false), Link(SavedKey, KeyCopied)) else d
    case SyncKey => FileSynced(d, KeyCopied)
    case SyncRecovery => RecoverySynced(d, s.unix)
    case StageKey => InData(WithFile(d, KeyMade, KeyBytes(s.made), true), Link(StagedKey, KeyMade))
    case SyncData => DataSynced(d, s.unix)
    case Rekey => d.(committed := Some(s.made))
    case DropStaged => InData(d, Unlink(StagedKey))
    case Close => d.(settled := d.committed)
    case Install => InData(d, Rename(StagedKey, InstanceKey))
    case SyncParent => DataSynced(d, s.unix)
    case _ => d
  }

  /** Where the command goes on, after a step that succeeded or one that failed. */
  function Follows(s: Setup, at: Step, ok: bool): (next: Step) {
    match at
    case MakeRecovery => if ok then SaveDatabase else Refused
    case SaveDatabase => if ok then SyncDatabase else Refused
    case SyncDatabase => if ok then (if s.keyFile.Some? then SaveKey else SyncRecovery) else Refused
    case SaveKey => if ok then SyncKey else Refused
    case SyncKey => if ok then SyncRecovery else Refused
    case SyncRecovery => if ok then Migrate else Refused
    case Migrate => if ok then StageKey else Refused
    case StageKey => if ok then SyncData else Refused
    case SyncData => if ok then Rekey else Refused
    case Rekey => if ok then Close else DropStaged
    case DropStaged => Refused
    case Close => if ok then Install else Unfinished
    case Install => if ok then SyncParent else Unfinished
    case SyncParent => Complete
    case _ => at
  }

  /** One step; `fails` says which would be refused by the system. */
  function Next(s: Setup, m: Machine, fails: Step -> bool): (r: Machine) {
    if fails(m.at) then Machine(m.disk, Follows(s, m.at, false))
    else Machine(Perform(s, m.disk, m.at), Follows(s, m.at, true))
  }

  function Run(s: Setup, fails: Step -> bool, steps: nat): (m: Machine) {
    if steps == 0 then Start(s) else Next(s, Run(s, fails, steps - 1), fails)
  }

  function Runs(s: Setup, fails: Step -> bool): (run: nat -> Machine) {
    (n: nat) => Run(s, fails, n)
  }

  /** The disks a run went through, and the step that comes next. */
  ghost predicate Visited(run: nat -> Machine, disks: seq<Disk>, at: Step) {
    && |disks| > 0
    && (forall k: nat | k < |disks| :: disks[k] == run(k).disk)
    && run(|disks| - 1).at == at
  }

  lemma {:induction false} VisitedGoesOn(run: nat -> Machine, disks: seq<Disk>, at: Step)
    requires Visited(run, disks, at)
    ensures Visited(run, disks + [run(|disks|).disk], run(|disks|).at)
  {
  }

  lemma RunGoesOn(s: Setup, fails: Step -> bool, steps: nat, disk: Disk, at: Step)
    requires Runs(s, fails)(steps) == Machine(disk, at)
    ensures Runs(s, fails)(steps + 1).disk == if fails(at) then disk else Perform(s, disk, at)
    ensures Runs(s, fails)(steps + 1).at == Follows(s, at, !fails(at))
  {
  }

  // ---- what every reachable disk looks like ----

  predicate PastCommit(at: Step) {
    at.Close? || at.Install? || at.SyncParent? || at.Unfinished? || at.Complete?
  }

  predicate PastStaging(at: Step) {
    at.SyncData? || at.Rekey? || at.DropStaged? || PastCommit(at)
  }

  predicate PastCopying(at: Step) {
    at.Migrate? || at.StageKey? || PastStaging(at)
  }

  predicate Bindings(s: Setup, m: Machine) {
    && m.disk.committed == (if PastCommit(m.at) then Some(s.made) else s.bound)
    && (m.at.Install? || m.at.SyncParent? || m.at.Complete? ==> m.disk.settled == Some(s.made))
    && (m.disk.settled == s.bound || m.disk.settled == m.disk.committed)
  }

  predicate Files(s: Setup, m: Machine) {
    && (KeyFound in m.disk.files <==> s.keyFile.Some?)
    && (s.keyFile.Some? ==> m.disk.files[KeyFound] == File(KeyBytes(s.keyFile.value), true))
    && (PastStaging(m.at) ==> KeyMade in m.disk.files)
    && (KeyMade in m.disk.files ==> m.disk.files[KeyMade] == File(KeyBytes(s.made), true))
  }

  function Found(s: Setup): (r: Entries) {
    Start(s).disk.data.durable
  }

  /** The data directory as it is synced just before the commit. */
  function Staged(s: Setup): (r: Entries) {
    Found(s)[RecoveryDirectory := RecoveryMade][StagedKey := KeyMade]
  }

  function Installed(s: Setup): (r: Entries) {
    Effect(Staged(s), Rename(StagedKey, InstanceKey))
  }

  const MADE: Op := Link(RecoveryDirectory, RecoveryMade)
  const STAGED: Op := Link(StagedKey, KeyMade)

  predicate DataEntries(s: Setup, m: Machine) {
    var d := m.disk.data;
    match m.at
    case MakeRecovery => d == Directory(Found(s), [])
    case SyncData => d == Directory(Found(s), [MADE, STAGED])
    case Rekey | DropStaged | Close | Install | Unfinished => d == Directory(Staged(s), [])
    case SyncParent => d == Directory(Staged(s), [Rename(StagedKey, InstanceKey)])
    case Complete => d == Directory(Staged(s), [Rename(StagedKey, InstanceKey)]) || d == Directory(Installed(s), [])
    case Refused =>
      || d == Directory(Found(s), []) || d == Directory(Found(s), [MADE]) || d == Directory(Found(s), [MADE, STAGED])
      || d == Directory(Staged(s), []) || d == Directory(Staged(s), [Unlink(StagedKey)])
    case _ => d == Directory(Found(s), [MADE])
  }

  /** The previous pair, as the recovery directory names it. */
  function Copies(s: Setup): (r: Entries) {
    if s.keyFile.Some? then map[SavedDatabase := DatabaseCopied, SavedKey := KeyCopied] else map[SavedDatabase := DatabaseCopied]
  }

  predicate DatabaseSaved(s: Setup, m: Machine, synced: bool) {
    DatabaseCopied in m.disk.files && m.disk.files[DatabaseCopied] == File(DatabaseFile(s.bound), synced)
  }

  predicate KeySaved(s: Setup, m: Machine, synced: bool) {
    s.keyFile.Some? && KeyCopied in m.disk.files && m.disk.files[KeyCopied] == File(KeyBytes(s.keyFile.value), synced)
  }

  const SAVED_DATABASE: Op := Link(SavedDatabase, DatabaseCopied)
  const SAVED_KEY: Op := Link(SavedKey, KeyCopied)

  predicate RecoveryEntries(s: Setup, m: Machine) {
    var d := m.disk.recovery;
    match m.at
    case MakeRecovery | SaveDatabase => d == Directory(map[], [])
    case SyncDatabase => d == Directory(map[], [SAVED_DATABASE]) && DatabaseSaved(s, m, false)
    case SaveKey => d == Directory(map[], [SAVED_DATABASE]) && DatabaseSaved(s, m, true) && s.keyFile.Some?
    case SyncKey => d == Directory(map[], [SAVED_DATABASE, SAVED_KEY]) && DatabaseSaved(s, m, true) && KeySaved(s, m, false)
    case SyncRecovery =>
      && DatabaseSaved(s, m, true)
      && (if s.keyFile.Some? then d == Directory(map[], [SAVED_DATABASE, SAVED_KEY]) && KeySaved(s, m, true)
          else d == Directory(map[], [SAVED_DATABASE]))
    case Refused => true
    case _ => d == Directory(Copies(s), []) && DatabaseSaved(s, m, true) && (s.keyFile.Some? ==> KeySaved(s, m, true))
  }

  lemma LeftOfOne(entries: Entries, op: Op, reached: seq<bool>)
    requires |reached| == 1
    ensures Left(entries, [op], reached) == if reached[0] then Effect(entries, op) else entries
  {
    assert [op][..0] == [] && reached[..0] == [];
  }

  lemma LeftOfTwo(entries: Entries, p: Op, q: Op, reached: seq<bool>)
    requires |reached| == 2
    ensures var before := if reached[0] then Effect(entries, p) else entries;
            Left(entries, [p, q], reached) == if reached[1] then Effect(before, q) else before
  {
    assert [p, q][..1] == [p];
    LeftOfOne(entries, p, reached[..1]);
  }

  lemma {:induction false} BindingsHold(s: Setup, m: Machine, fails: Step -> bool)
    requires Bindings(s, m) && Files(s, m)
    ensures Bindings(s, Next(s, m, fails)) && Files(s, Next(s, m, fails))
  {
  }

  lemma {:induction false} DataEntriesHold(s: Setup, m: Machine, fails: Step -> bool)
    requires s.unix && DataEntries(s, m)
    ensures DataEntries(s, Next(s, m, fails))
  {
    LeftOfTwo(Found(s), MADE, STAGED, [true, true]);
    LeftOfOne(Staged(s), Rename(StagedKey, InstanceKey), [true]);
    assert All(2, true) == [true, true] && All(1, true) == [true] && All(0, true) == [];
  }

  lemma {:induction false} CopyingHolds(s: Setup, m: Machine, fails: Step -> bool)
    requires s.unix && RecoveryEntries(s, m) && Bindings(s, m) && Files(s, m)
    requires !PastCopying(m.at)
    ensures RecoveryEntries(s, Next(s, m, fails))
  {
    LeftOfTwo(map[], SAVED_DATABASE, SAVED_KEY, [true, true]);
    LeftOfOne(map[], SAVED_DATABASE, [true]);
    assert All(2, true) == [true, true] && All(1, true) == [true];
  }

  lemma {:induction false} CopiesStay(s: Setup, m: Machine, fails: Step -> bool)
    requires RecoveryEntries(s, m)
    requires PastCopying(m.at)
    ensures RecoveryEntries(s, Next(s, m, fails))
  {
  }

  lemma {:induction false} RunHolds(s: Setup, fails: Step -> bool, steps: nat)
    ensures var m := Run(s, fails, steps);
            Bindings(s, m) && Files(s, m) && (s.unix ==> DataEntries(s, m) && RecoveryEntries(s, m))
  {
    if steps > 0 {
      RunHolds(s, fails, steps - 1);
      var m := Run(s, fails, steps - 1);
      BindingsHold(s, m, fails);
      if s.unix {
        DataEntriesHold(s, m, fails);
        if PastCopying(m.at) {
          CopiesStay(s, m, fails);
        } else {
          CopyingHolds(s, m, fails);
        }
      }
    }
  }

  // ---- what a stop at any moment leaves ----

  /** The names a stop can leave: those of before, or those of after the change. */
  lemma {:induction false} EntriesLeft(s: Setup, m: Machine, reached: seq<bool>)
    requires s.unix && DataEntries(s, m) && |reached| == |m.disk.data.pending|
    ensures var left := Left(m.disk.data.durable, m.disk.data.pending, reached);
            if PastCommit(m.at) then left == Staged(s) || ((m.at.SyncParent? || m.at.Complete?) && left == Installed(s))
            else && (InstanceKey in left <==> InstanceKey in Found(s))
                 && (InstanceKey in left ==> left[InstanceKey] == KeyFound)
                 && (StagedKey in left ==> left[StagedKey] == KeyMade)
  {
    var d := m.disk.data;
    if |d.pending| == 1 {
      LeftOfOne(d.durable, d.pending[0], reached);
      assert d.pending == [d.pending[0]];
    } else if |d.pending| == 2 {
      LeftOfTwo(d.durable, MADE, STAGED, reached);
    }
  }

  predicate Committed(s: Setup, m: Machine) {
    m.disk.committed == Some(s.made)
  }

  // What holds wherever a stop cuts the run, on hosts that sync directories and
  // on those that do not.

  /** Every name leads to what was put there, and no other is in use. */
  predicate Placed(entries: Entries) {
    forall n | n in entries ::
      || (n == InstanceKey && (entries[n] == KeyFound || entries[n] == KeyMade))
      || (n == StagedKey && entries[n] == KeyMade)
      || (n == RecoveryDirectory && entries[n] == RecoveryMade)
  }

  predicate Places(ops: seq<Op>) {
    forall k | 0 <= k < |ops| :: ops[k] == MADE || ops[k] == STAGED || ops[k] == Unlink(StagedKey) || ops[k] == Rename(StagedKey, InstanceKey)
  }

  /** Before the rename no operation touches the key file that was found. */
  predicate SparesTheKey(ops: seq<Op>) {
    forall k | 0 <= k < |ops| :: (ops[k].Link? || ops[k].Unlink?) && ops[k].name != InstanceKey
  }

  predicate SameKeyFile(a: Entries, b: Entries) {
    (InstanceKey in a <==> InstanceKey in b) && (InstanceKey in a ==> a[InstanceKey] == b[InstanceKey])
  }

  lemma {:induction false} LeftIsPlaced(entries: Entries, ops: seq<Op>, reached: seq<bool>)
    requires |ops| == |reached| && Placed(entries) && Places(ops)
    ensures Placed(Left(entries, ops, reached))
  {
    if ops != [] {
      LeftIsPlaced(entries, ops[..|ops| - 1], reached[..|ops| - 1]);
    }
  }

  lemma {:induction false} SparedKeyStays(entries: Entries, ops: seq<Op>, reached: seq<bool>)
    requires |ops| == |reached| && SparesTheKey(ops)
    ensures SameKeyFile(Left(entries, ops, reached), entries)
  {
    if ops != [] {
      SparedKeyStays(entries, ops[..|ops| - 1], reached[..|ops| - 1]);
    }
  }

  predicate Renamed(at: Step) {
    at.SyncParent? || at.Complete?
  }

  predicate Cut(s: Setup, m: Machine) {
    && Placed(m.disk.data.durable) && Places(m.disk.data.pending)
    && (!Renamed(m.at) ==> SameKeyFile(m.disk.data.durable, Found(s)) && SparesTheKey(m.disk.data.pending))
  }

  lemma {:induction false} SyncKeepsCut(s: Setup, m: Machine)
    requires Cut(s, m)
    ensures Cut(s, m.(disk := DataSynced(m.disk, s.unix)))
  {
    LeftIsPlaced(m.disk.data.durable, m.disk.data.pending, All(|m.disk.data.pending|, true));
    if !Renamed(m.at) {
      SparedKeyStays(m.disk.data.durable, m.disk.data.pending, All(|m.disk.data.pending|, true));
    }
  }

  /** A step syncs the data directory, adds one operation to it, or leaves it. */
  lemma {:induction false} StepOnData(s: Setup, d: Disk, at: Step)
    ensures var after := Perform(s, d, at).data;
            || after == d.data
            || after == DataSynced(d, s.unix).data
            || (exists op :: after == After(d.data, op) && Places([op]) && (at.Install? || SparesTheKey([op])))
  {
    if at.MakeRecovery? {
      assert Places([MADE]) && SparesTheKey([MADE]);
      assert Perform(s, d, at).data == After(d.data, MADE);
    } else if at.StageKey? {
      assert Places([STAGED]) && SparesTheKey([STAGED]);
      assert Perform(s, d, at).data == After(d.data, STAGED);
    } else if at.DropStaged? {
      assert Places([Unlink(StagedKey)]) && SparesTheKey([Unlink(StagedKey)]);
    } else if at.Install? {
      assert Places([Rename(StagedKey, InstanceKey)]);
    }
  }

  lemma {:induction false} OneMoreIsCut(s: Setup, m: Machine, op: Op)
    requires Cut(s, m) && Places([op]) && (Renamed(m.at) || SparesTheKey([op]))
    ensures Cut(s, m.(disk := InData(m.disk, op)))
  {
    assert [op][0] == op;
  }

  lemma RenamedFollows(s: Setup, at: Step, ok: bool)
    ensures Renamed(at) ==> Renamed(Follows(s, at, ok))
    ensures at.Install? && ok ==> Renamed(Follows(s, at, ok))
  {
  }

  lemma {:induction false} StepKeepsCut(s: Setup, m: Machine, next: Step)
    requires Cut(s, m) && (Renamed(m.at) || m.at.Install? ==> Renamed(next))
    ensures Cut(s, Machine(Perform(s, m.disk, m.at), next))
  {
    StepOnData(s, m.disk, m.at);
    SyncKeepsCut(s, m);
    var after := Perform(s, m.disk, m.at).data;
    if after != m.disk.data && after != DataSynced(m.disk, s.unix).data {
      var op :| after == After(m.disk.data, op) && Places([op]) && (m.at.Install? || SparesTheKey([op]));
      OneMoreIsCut(s, if m.at.Install? then m.(at := next) else m, op);
    }
  }

  lemma {:induction false} RunIsCut(s: Setup, fails: Step -> bool, steps: nat)
    ensures Cut(s, Run(s, fails, steps))
  {
    if steps > 0 {
      var m := Run(s, fails, steps - 1);
      RunIsCut(s, fails, steps - 1);
      RenamedFollows(s, m.at, !fails(m.at));
      if !fails(m.at) {
        StepKeepsCut(s, m, Follows(s, m.at, true));
      }
    }
  }

  /** What a stop leaves of the names, on any host. */
  lemma {:induction false} NamesLeft(s: Setup, fails: Step -> bool, steps: nat, i: Image)
    requires Survives(Run(s, fails, steps).disk, i)
    ensures Placed(i.data)
    ensures !Renamed(Run(s, fails, steps).at) ==> SameKeyFile(i.data, Found(s))
  {
    var m := Run(s, fails, steps);
    RunIsCut(s, fails, steps);
    var reached: seq<bool> :| |reached| == |m.disk.data.pending| && i.data == Left(m.disk.data.durable, m.disk.data.pending, reached);
    LeftIsPlaced(m.disk.data.durable, m.disk.data.pending, reached);
    if !Renamed(m.at) {
      SparedKeyStays(m.disk.data.durable, m.disk.data.pending, reached);
    }
  }

  /** Where directories sync, a stop past the commit leaves the new key named. */
  lemma {:induction false} NewKeyIsNamed(s: Setup, fails: Step -> bool, steps: nat, i: Image)
    requires s.unix && Survives(Run(s, fails, steps).disk, i) && PastCommit(Run(s, fails, steps).at)
    ensures KeyMade in i.data.Values
    ensures !Renamed(Run(s, fails, steps).at) ==> StagedKey in i.data
    ensures RecoveryDirectory in i.data
  {
    var m := Run(s, fails, steps);
    RunHolds(s, fails, steps);
    var reached: seq<bool> :| |reached| == |m.disk.data.pending| && i.data == Left(m.disk.data.durable, m.disk.data.pending, reached);
    EntriesLeft(s, m, reached);
    assert Staged(s)[StagedKey] == KeyMade && Installed(s)[InstanceKey] == KeyMade;
  }

  /** The database's key is in a durable file exactly when it is bound to none, or
      to the new key and some name leads to it, or to the key it was found with;
      and where directories sync some name leads to the new one. */
  predicate HeldAsBound(s: Setup, d: Disk, i: Image) {
    && (KeyHeld(d, i) <==> i.bound.None? || (if i.bound == Some(s.made) then KeyMade in i.data.Values else s.bound == s.keyFile))
    && (s.unix && i.bound == Some(s.made) ==> KeyMade in i.data.Values)
  }

  /** Whatever the moment, the host and the steps that failed before it. */
  lemma {:induction false} KeyHeldWhenever(s: Setup, fails: Step -> bool, steps: nat, i: Image)
    requires Drawn(s)
    requires Survives(Run(s, fails, steps).disk, i)
    ensures HeldAsBound(s, Run(s, fails, steps).disk, i)
  {
    RunHolds(s, fails, steps);
    NamesLeft(s, fails, steps, i);
    if s.unix && i.bound == Some(s.made) {
      NewKeyIsNamed(s, fails, steps, i);
    }
  }

  ghost predicate SafeNow(d: Disk) {
    forall i | Survives(d, i) :: KeyHeld(d, i)
  }

  /** The database was found bound to a key that is not in the key file. */
  predicate KeyLost(s: Setup) {
    s.bound.Some? && s.bound != s.keyFile
  }

  /** Until the commit only a key already lost is at risk; from it on, the host
      must sync directories, and a lost key's database must have settled. */
  predicate Guarded(s: Setup, m: Machine) {
    if Committed(s, m) then s.unix && (KeyLost(s) ==> m.disk.settled == Some(s.made)) else !KeyLost(s)
  }

  /** A stop before anything pending reached the disk. */
  lemma {:induction false} DurableSurvives(d: Disk, bound: Option<nat>) returns (i: Image)
    requires bound == d.settled || bound == d.committed
    ensures i == Image(d.data.durable, d.recovery.durable, bound) && Survives(d, i)
  {
    i := Image(d.data.durable, d.recovery.durable, bound);
    NothingReached(d.data.durable, d.data.pending);
    NothingReached(d.recovery.durable, d.recovery.pending);
    assert |All(|d.data.pending|, false)| == |d.data.pending|;
    assert |All(|d.recovery.pending|, false)| == |d.recovery.pending|;
  }

  lemma {:induction false} GuardedIsSafe(s: Setup, fails: Step -> bool, steps: nat, i: Image)
    requires Drawn(s) && Guarded(s, Run(s, fails, steps)) && Survives(Run(s, fails, steps).disk, i)
    ensures KeyHeld(Run(s, fails, steps).disk, i)
  {
    RunHolds(s, fails, steps);
    KeyHeldWhenever(s, fails, steps, i);
  }

  lemma {:induction false} UnguardedIsNot(s: Setup, fails: Step -> bool, steps: nat) returns (i: Image)
    requires Drawn(s) && !Guarded(s, Run(s, fails, steps))
    ensures Survives(Run(s, fails, steps).disk, i) && !KeyHeld(Run(s, fails, steps).disk, i)
  {
    var m := Run(s, fails, steps);
    RunHolds(s, fails, steps);
    if Committed(s, m) && !s.unix {
      NeverSynced(s, fails, steps);
      i := DurableSurvives(m.disk, m.disk.committed);
      assert KeyMade !in Found(s).Values;
    } else {
      i := DurableSurvives(m.disk, m.disk.settled);
    }
    KeyHeldWhenever(s, fails, steps, i);
  }

  /** What a key change risks, exactly, at every moment of every run of either
      command on any host. */
  lemma {:induction false} SafeIffGuarded(s: Setup, fails: Step -> bool, steps: nat)
    requires Drawn(s)
    ensures SafeNow(Run(s, fails, steps).disk) <==> Guarded(s, Run(s, fails, steps))
  {
    if Guarded(s, Run(s, fails, steps)) {
      forall i | Survives(Run(s, fails, steps).disk, i) ensures KeyHeld(Run(s, fails, steps).disk, i) {
        GuardedIsSafe(s, fails, steps, i);
      }
    } else {
      var i := UnguardedIsNot(s, fails, steps);
    }
  }

  /** Rotating is safe at every stop where directories sync, and elsewhere at
      every stop until the commit and at none after it. */
  lemma {:induction false} RotationIsSafeIff(s: Setup, fails: Step -> bool, steps: nat)
    requires Drawn(s) && Rotates(s)
    ensures SafeNow(Run(s, fails, steps).disk) <==> s.unix || !Committed(s, Run(s, fails, steps))
  {
    SafeIffGuarded(s, fails, steps);
  }

  /** Adopting a database whose key is lost holds its key again, at every stop,
      exactly once the commit has settled where directories sync; and one stop
      holds it exactly if what survives is the commit and a name for its key. */
  lemma {:induction false} AdoptionIsSafeIff(s: Setup, fails: Step -> bool, steps: nat)
    requires Drawn(s) && Adopts(s) && s.bound.Some?
    ensures SafeNow(Run(s, fails, steps).disk) <==> s.unix && Run(s, fails, steps).disk.settled == Some(s.made)
    ensures forall i | Survives(Run(s, fails, steps).disk, i) ::
              KeyHeld(Run(s, fails, steps).disk, i) <==> i.bound == Some(s.made) && KeyMade in i.data.Values
  {
    RunHolds(s, fails, steps);
    SafeIffGuarded(s, fails, steps);
    forall i | Survives(Run(s, fails, steps).disk, i)
      ensures KeyHeld(Run(s, fails, steps).disk, i) <==> i.bound == Some(s.made) && KeyMade in i.data.Values
    {
      KeyHeldWhenever(s, fails, steps, i);
    }
  }

  /** The previous pair, whole in a recovery directory that has its name. */
  predicate PairKept(s: Setup, d: Disk, i: Image) {
    && RecoveryDirectory in i.data
    && Holds(d, i.recovery, SavedDatabase, DatabaseFile(s.bound))
    && (s.keyFile.Some? ==> Holds(d, i.recovery, SavedKey, KeyBytes(s.keyFile.value)))
  }

  lemma {:induction false} RecoveryOutlivesTheCommit(s: Setup, fails: Step -> bool, steps: nat, i: Image)
    requires s.unix && Drawn(s)
    requires var m := Run(s, fails, steps); Committed(s, m) && Survives(m.disk, i)
    ensures PairKept(s, Run(s, fails, steps).disk, i)
  {
    RunHolds(s, fails, steps);
    NewKeyIsNamed(s, fails, steps, i);
  }

  /** From the commit on, the previous pair is whole at every stop exactly where
      directories sync. */
  lemma {:induction false} PairIsKeptIff(s: Setup, fails: Step -> bool, steps: nat)
    requires Drawn(s) && Committed(s, Run(s, fails, steps))
    ensures (forall i | Survives(Run(s, fails, steps).disk, i) :: PairKept(s, Run(s, fails, steps).disk, i)) <==> s.unix
  {
    var d := Run(s, fails, steps).disk;
    if s.unix {
      forall i | Survives(d, i) ensures PairKept(s, d, i) {
        RecoveryOutlivesTheCommit(s, fails, steps, i);
      }
    } else {
      NeverSynced(s, fails, steps);
      var i := DurableSurvives(d, d.committed);
      assert !PairKept(s, d, i);
    }
  }

  /** How a command that is over left things, on any host. Refused, the pair is
      the one it found. Unfinished, the database is bound to the new key.
      Complete, what survives is bound to it too, and it is in place once the
      directory synced. */
  lemma {:induction false} EndsAsReported(s: Setup, fails: Step -> bool, steps: nat, i: Image)
    requires Drawn(s)
    requires Survives(Run(s, fails, steps).disk, i)
    ensures var m := Run(s, fails, steps);
            && (m.at.Refused? ==>
                  && i.bound == s.bound
                  && (InstanceKey in i.data <==> s.keyFile.Some?)
                  && (s.keyFile.Some? ==> Holds(m.disk, i.data, InstanceKey, KeyBytes(s.keyFile.value))))
            && (m.at.Unfinished? ==> Committed(s, m))
            && (m.at.Unfinished? && s.unix ==> Holds(m.disk, i.data, StagedKey, KeyBytes(s.made)))
            && (m.at.Complete? ==> i.bound == Some(s.made))
            && (m.at.Complete? && m.disk.data.pending == [] ==>
                  Holds(m.disk, i.data, InstanceKey, KeyBytes(s.made)) && StagedKey !in i.data)
  {
    var m := Run(s, fails, steps);
    RunHolds(s, fails, steps);
    NamesLeft(s, fails, steps, i);
    if s.unix && PastCommit(m.at) {
      NewKeyIsNamed(s, fails, steps, i);
    }
    if m.at.Complete? && m.disk.data.pending == [] {
      CompleteIsInPlace(s, fails, steps, i);
    }
  }

  lemma {:induction false} CompleteIsInPlace(s: Setup, fails: Step -> bool, steps: nat, i: Image)
    requires Survives(Run(s, fails, steps).disk, i)
    requires Run(s, fails, steps).at.Complete? && Run(s, fails, steps).disk.data.pending == []
    ensures Holds(Run(s, fails, steps).disk, i.data, InstanceKey, KeyBytes(s.made)) && StagedKey !in i.data
  {
    var m := Run(s, fails, steps);
    RunHolds(s, fails, steps);
    if !s.unix {
      NeverSynced(s, fails, steps);
      assert false;
    }
    assert i.data == Installed(s);
  }

  /** Where the new key is when a command stops past the commit: in the staged
      file its message names, at every stop, exactly where directories sync; in
      place, at every stop, exactly once the last sync went through. */
  lemma {:induction false} NewKeyIsThereIff(s: Setup, fails: Step -> bool, steps: nat)
    requires Drawn(s)
    ensures var m := Run(s, fails, steps);
            && (m.at.Unfinished? ==>
                  ((forall i | Survives(m.disk, i) :: Holds(m.disk, i.data, StagedKey, KeyBytes(s.made))) <==> s.unix))
            && (m.at.Complete? ==>
                  ((forall i | Survives(m.disk, i) :: Holds(m.disk, i.data, InstanceKey, KeyBytes(s.made))) <==> m.disk.data.pending == []))
  {
    var m := Run(s, fails, steps);
    RunHolds(s, fails, steps);
    if m.at.Unfinished? || m.at.Complete? {
      forall i | Survives(m.disk, i) ensures m.at.Unfinished? && s.unix ==> Holds(m.disk, i.data, StagedKey, KeyBytes(s.made)) {
        EndsAsReported(s, fails, steps, i);
      }
      forall i | Survives(m.disk, i) ensures m.at.Complete? && m.disk.data.pending == [] ==> Holds(m.disk, i.data, InstanceKey, KeyBytes(s.made)) {
        EndsAsReported(s, fails, steps, i);
      }
      var i := DurableSurvives(m.disk, m.disk.committed);
      if !s.unix {
        NeverSynced(s, fails, steps);
      }
      assert m.at.Unfinished? && !s.unix ==> !Holds(m.disk, i.data, StagedKey, KeyBytes(s.made));
      assert m.at.Complete? && m.disk.data.pending != [] ==> !Holds(m.disk, i.data, InstanceKey, KeyBytes(s.made));
    }
  }

  lemma {:induction false} NothingReached(entries: Entries, ops: seq<Op>)
    ensures Left(entries, ops, All(|ops|, false)) == entries
  {
    if ops != [] {
      var n := |ops| - 1;
      assert All(|ops|, false)[..n] == All(n, false);
      NothingReached(entries, ops[..n]);
    }
  }

  /** Where a directory cannot be synced, everything done stays pending. */
  lemma {:induction false} NeverSynced(s: Setup, fails: Step -> bool, steps: nat)
    requires !s.unix
    ensures var m := Run(s, fails, steps);
            && m.disk.data.durable == Found(s) && m.disk.recovery.durable == map[]
            && (PastStaging(m.at) ==> m.disk.data.pending != [])
  {
    StillPending(s, fails, steps);
    if steps > 0 {
      NeverSynced(s, fails, steps - 1);
    }
  }

  lemma {:induction false} StillPending(s: Setup, fails: Step -> bool, steps: nat)
    requires !s.unix
    ensures PastStaging(Run(s, fails, steps).at) ==> Run(s, fails, steps).disk.data.pending != []
  {
    if steps > 0 {
      StillPending(s, fails, steps - 1);
    }
  }

  // ---- which end comes when ----

  predicate CopyGoesThrough(s: Setup, fails: Step -> bool) {
    && !fails(MakeRecovery) && !fails(SaveDatabase) && !fails(SyncDatabase)
    && (s.keyFile.Some? ==> !fails(SaveKey) && !fails(SyncKey))
    && !fails(SyncRecovery)
  }

  predicate CommitGoesThrough(fails: Step -> bool) {
    !fails(StageKey) && !fails(SyncData) && !fails(Rekey)
  }

  /** How a command that was agreed to must end: complete when nothing fails up
      to the rename, unfinished when the first failure comes after the commit,
      and refused when it comes before. The last sync decides nothing. */
  function EndOf(s: Setup, fails: Step -> bool): (end: Step) {
    if !(CopyGoesThrough(s, fails) && !fails(Migrate) && CommitGoesThrough(fails)) then Refused
    else if fails(Close) || fails(Install) then Unfinished
    else Complete
  }

  /** What must have gone through for a step to come next. */
  predicate Earned(s: Setup, fails: Step -> bool, at: Step) {
    match at
    case MakeRecovery => true
    case SaveDatabase => !fails(MakeRecovery)
    case SyncDatabase => !fails(MakeRecovery) && !fails(SaveDatabase)
    case SaveKey => s.keyFile.Some? && !fails(MakeRecovery) && !fails(SaveDatabase) && !fails(SyncDatabase)
    case SyncKey => s.keyFile.Some? && !fails(MakeRecovery) && !fails(SaveDatabase) && !fails(SyncDatabase) && !fails(SaveKey)
    case SyncRecovery =>
      !fails(MakeRecovery) && !fails(SaveDatabase) && !fails(SyncDatabase) && (s.keyFile.Some? ==> !fails(SaveKey) && !fails(SyncKey))
    case Migrate => CopyGoesThrough(s, fails)
    case StageKey => CopyGoesThrough(s, fails) && !fails(Migrate)
    case SyncData => CopyGoesThrough(s, fails) && !fails(Migrate) && !fails(StageKey)
    case Rekey => CopyGoesThrough(s, fails) && !fails(Migrate) && !fails(StageKey) && !fails(SyncData)
    case DropStaged => CopyGoesThrough(s, fails) && !fails(Migrate) && !fails(StageKey) && !fails(SyncData) && fails(Rekey)
    case Close => CopyGoesThrough(s, fails) && !fails(Migrate) && CommitGoesThrough(fails)
    case Install => CopyGoesThrough(s, fails) && !fails(Migrate) && CommitGoesThrough(fails) && !fails(Close)
    case SyncParent => CopyGoesThrough(s, fails) && !fails(Migrate) && CommitGoesThrough(fails) && !fails(Close) && !fails(Install)
    case _ => at == EndOf(s, fails)
  }

  lemma {:induction false} NextIsEarned(s: Setup, fails: Step -> bool, at: Step)
    requires Earned(s, fails, at)
    ensures Earned(s, fails, Follows(s, at, !fails(at)))
  {
  }

  /** How many steps a command can still take. */
  function StepsLeft(at: Step): (n: nat) {
    match at
    case MakeRecovery => 13
    case SaveDatabase => 12
    case SyncDatabase => 11
    case SaveKey => 10
    case SyncKey => 9
    case SyncRecovery => 8
    case Migrate => 7
    case StageKey => 6
    case SyncData => 5
    case Rekey => 4
    case DropStaged => 1
    case Close => 3
    case Install => 2
    case SyncParent => 1
    case _ => 0
  }

  lemma NextIsNearer(s: Setup, at: Step, ok: bool)
    ensures Ended(at) <==> StepsLeft(at) == 0
    ensures !Ended(at) ==> StepsLeft(Follows(s, at, ok)) < StepsLeft(at)
    ensures Ended(at) ==> Follows(s, at, ok) == at
  {
  }

  lemma {:induction false} RunIsEarned(s: Setup, fails: Step -> bool, steps: nat)
    ensures Earned(s, fails, Run(s, fails, steps).at)
    ensures StepsLeft(Run(s, fails, steps).at) <= (if steps <= 13 then 13 - steps else 0)
  {
    if steps > 0 {
      var m := Run(s, fails, steps - 1);
      RunIsEarned(s, fails, steps - 1);
      NextIsEarned(s, fails, m.at);
      NextIsNearer(s, m.at, !fails(m.at));
    }
  }

  /** Every command ends, within thirteen steps, in the one end its failures
      leave it, and no run reaches another. */
  lemma {:induction false} EndsAsItMust(s: Setup, fails: Step -> bool, steps: nat)
    ensures Ended(Run(s, fails, steps).at) ==> Run(s, fails, steps).at == EndOf(s, fails)
    ensures steps >= 13 ==> Ended(Run(s, fails, steps).at)
  {
    RunIsEarned(s, fails, steps);
    NextIsNearer(s, Run(s, fails, steps).at, true);
  }

  /** Refused because the database would not be rebound, the command takes its
      staged key away again: a name for it is left only if that fails too. */
  lemma {:induction false} StagedKeyIsTakenAway(s: Setup, fails: Step -> bool, steps: nat)
    requires CopyGoesThrough(s, fails) && !fails(Migrate) && !fails(StageKey) && !fails(SyncData) && fails(Rekey)
    ensures Run(s, fails, steps).at.Refused? ==> (StagedKey in View(Run(s, fails, steps).disk.data) <==> fails(DropStaged))
    ensures Run(s, fails, steps).at.Rekey? || Run(s, fails, steps).at.DropStaged? ==> StagedKey in View(Run(s, fails, steps).disk.data)
  {
    if steps > 0 {
      var m := Run(s, fails, steps - 1);
      RunIsEarned(s, fails, steps - 1);
      StagedKeyIsTakenAway(s, fails, steps - 1);
      StagedAfter(s, m.disk, m.at);
      if m.at.SyncData? {
        StagedWhenSyncing(s, fails, steps - 1);
      }
    }
  }

  lemma {:induction false} StagedWhenSyncing(s: Setup, fails: Step -> bool, steps: nat)
    requires !fails(StageKey)
    ensures Run(s, fails, steps).at.SyncData? ==> StagedKey in View(Run(s, fails, steps).disk.data)
  {
    if steps > 0 {
      StagedWhenSyncing(s, fails, steps - 1);
      StagedAfter(s, Run(s, fails, steps - 1).disk, Run(s, fails, steps - 1).at);
    }
  }

  lemma {:induction false} ViewAfter(d: Directory, op: Op)
    ensures View(After(d, op)) == Effect(View(d), op)
  {
    var n := |d.pending|;
    assert All(n + 1, true)[..n] == All(n, true);
    assert (d.pending + [op])[..n] == d.pending;
  }

  lemma {:induction false} StagedAfter(s: Setup, d: Disk, at: Step)
    ensures var after := View(Perform(s, d, at).data);
            && (at.StageKey? ==> StagedKey in after)
            && (at.DropStaged? ==> StagedKey !in after)
            && (at.SyncData? || at.Rekey? ==> after == View(d.data))
  {
    if at.StageKey? {
      ViewAfter(d.data, STAGED);
    } else if at.DropStaged? {
      ViewAfter(d.data, Unlink(StagedKey));
    } else if at.SyncData? {
      assert View(Directory(View(d.data), [])) == View(d.data);
    }
  }
}
