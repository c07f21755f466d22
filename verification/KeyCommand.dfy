/** `key rotate` and `key adopt` as the command runs them (src/cli/key.rs). */
module KeyCommand {
  import opened KeyChange

  class Command {
    const setup: Setup
    var disk: Disk
    /** Every disk a machine could have stopped on. */
    ghost var seen: seq<Disk>

    constructor (setup: Setup)
      ensures this.setup == setup && disk == Start(setup).disk && seen == [disk]
    {
      this.setup := setup;
      disk := Start(setup).disk;
      seen := [Start(setup).disk];
    }

    /** The disks seen so far are the first ones of the run, and `at` is next. */
    ghost predicate Reached(fails: Step -> bool, at: Step)
      reads this
    {
      Visited(Runs(setup, fails), seen, at) && disk == seen[|seen| - 1]
    }

    /** Tries one step: what it does to the disk, unless the system refuses it. */
    method Try(fails: Step -> bool, at: Step) returns (ok: bool)
      requires Reached(fails, at)
      modifies this
      ensures ok == !fails(at)
      ensures Reached(fails, Follows(setup, at, ok))
    {
      ok := !fails(at);
      RunGoesOn(setup, fails, |seen| - 1, disk, at);
      VisitedGoesOn(Runs(setup, fails), seen, at);
      if ok {
        disk := Perform(setup, disk, at);
      }
      seen := seen + [disk];
    }

    method CopyThePairAside(fails: Step -> bool) returns (ok: bool)
      requires Reached(fails, MakeRecovery)
      modifies this
      ensures Reached(fails, if ok then Migrate else Refused)
      ensures ok <==> CopyGoesThrough(setup, fails)
    {
      ok := Try(fails, MakeRecovery);
      if !ok { return; }
      ok := Try(fails, SaveDatabase);
      if !ok { return; }
      ok := Try(fails, SyncDatabase);
      if !ok { return; }
      if setup.keyFile.Some? {
        ok := CopyKey(fails);
        if !ok { return; }
      }
      ok := Try(fails, SyncRecovery);
    }

    method CopyKey(fails: Step -> bool) returns (ok: bool)
      requires Reached(fails, SaveKey)
      modifies this
      ensures Reached(fails, if ok then SyncRecovery else Refused)
      ensures ok <==> !fails(SaveKey) && !fails(SyncKey)
    {
      ok := Try(fails, SaveKey);
      if !ok { return; }
      ok := Try(fails, SyncKey);
    }

    /** Binds the database to the new key; an error means no commit, and takes
        the staged key away again. */
    method Rebind(fails: Step -> bool) returns (ok: bool)
      requires Reached(fails, Rekey)
      modifies this
      ensures Reached(fails, if ok then Close else Refused)
      ensures ok <==> !fails(Rekey)
    {
      ok := Try(fails, Rekey);
      if !ok {
        var _ := Try(fails, DropStaged);
      }
    }

    method InstallNewKey(fails: Step -> bool) returns (end: Step)
      requires Reached(fails, StageKey)
      modifies this
      ensures Reached(fails, end)
      ensures end == if !CommitGoesThrough(fails) then Refused else if fails(Close) || fails(Install) then Unfinished else Complete
    {
      var ok := Try(fails, StageKey);
      if !ok { return Refused; }
      ok := Try(fails, SyncData);
      if !ok { return Refused; }
      ok := Rebind(fails);
      if !ok { return Refused; }
      end := PutInPlace(fails);
    }

    /** Past the commit, a failure leaves the change unfinished rather than undone. */
    method PutInPlace(fails: Step -> bool) returns (end: Step)
      requires Reached(fails, Close)
      modifies this
      ensures Reached(fails, end)
      ensures end == if fails(Close) || fails(Install) then Unfinished else Complete
    {
      var ok := Try(fails, Close);
      if !ok { return Unfinished; }
      ok := Try(fails, Install);
      if !ok { return Unfinished; }
      var _ := Try(fails, SyncParent);
      end := Complete;
    }

    /** What both commands do once they agreed to. */
    method Replace(fails: Step -> bool) returns (end: Step)
      requires disk == Start(setup).disk && seen == [disk]
      modifies this
      ensures end == EndOf(setup, fails) && Reached(fails, end)
    {
      var ok := CopyThePairAside(fails);
      if !ok { return Refused; }
      ok := Try(fails, Migrate);
      if !ok { return Refused; }
      end := InstallNewKey(fails);
    }

    /** Refuses without touching anything unless the key beside the database is
        its own; then every disk on the way holds the database's key. */
    method RotateKey(confirm: bool, fails: Step -> bool) returns (end: Step)
      requires disk == Start(setup).disk && seen == [disk] && Drawn(setup)
      modifies this
      ensures Ended(end)
      ensures !confirm || !Rotates(setup) ==> end == Refused && disk == old(disk)
      ensures confirm && Rotates(setup) ==> end == EndOf(setup, fails) && Reached(fails, end)
      ensures confirm && Rotates(setup) ==>
                forall k | 0 <= k < |seen| :: SafeNow(seen[k]) <==> setup.unix || !Committed(setup, Run(setup, fails, k))
    {
      if setup.keyFile.None? || (setup.bound.Some? && setup.bound != setup.keyFile) || !confirm {
        return Refused;
      }
      end := Replace(fails);
      forall k | 0 <= k < |seen| ensures SafeNow(seen[k]) <==> setup.unix || !Committed(setup, Run(setup, fails, k)) {
        RotationIsSafeIff(setup, fails, k);
      }
    }

    /** Refuses a database whose key is beside it; otherwise every disk on the
        way is safe exactly when it is guarded, on any host and whether or not
        the database records a key. */
    method AdoptKey(confirm: bool, fails: Step -> bool) returns (end: Step)
      requires disk == Start(setup).disk && seen == [disk] && Drawn(setup)
      modifies this
      ensures Ended(end)
      ensures !confirm || !Adopts(setup) ==> end == Refused && disk == old(disk)
      ensures confirm && Adopts(setup) ==> end == EndOf(setup, fails) && Reached(fails, end)
      ensures confirm && Adopts(setup) ==>
                forall k | 0 <= k < |seen| :: SafeNow(seen[k]) <==> Guarded(setup, Run(setup, fails, k))
      ensures confirm && Adopts(setup) ==> forall k, i | 0 <= k < |seen| && Survives(seen[k], i) :: HeldAsBound(setup, seen[k], i)
    {
      if (setup.keyFile.Some? && setup.bound == setup.keyFile) || !confirm {
        return Refused;
      }
      end := Replace(fails);
      forall k | 0 <= k < |seen| ensures SafeNow(seen[k]) <==> Guarded(setup, Run(setup, fails, k)) {
        SafeIffGuarded(setup, fails, k);
      }
      forall k, i | 0 <= k < |seen| && Survives(seen[k], i) ensures HeldAsBound(setup, seen[k], i) {
        KeyHeldWhenever(setup, fails, k, i);
      }
    }
  }
}
