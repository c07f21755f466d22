/** The pruning pass: the cache directory brought back to its budget, least
    recently used file first (src/media/transcode.rs). */
module PruneCache {
  import opened Decimal
  import opened CacheNames

  const U64_MAX: nat := U64_LIMIT - 1
  const EPOCH: int := 0

  datatype Metadata = Unreadable | Directory | Regular(length: nat, modified: Option<int>)

  /** One entry as reading the directory gives it. A name that is not valid
      text is never compared with anything. */
  datatype Entry = Entry(name: string, text: bool, metadata: Metadata)

  datatype Candidate = Candidate(accessed: int, name: string, size: nat)

  predicate IsStaging(e: Entry) {
    e.text && Contains(e.name, PART)
  }

  predicate IsCandidate(e: Entry) {
    !IsStaging(e) && e.metadata.Regular?
  }

  function LastUse(e: Entry, access: map<string, int>): (when: int)
    requires e.metadata.Regular?
  {
    if e.name in access then access[e.name]
    else if e.metadata.modified.Some? then e.metadata.modified.value
    else EPOCH
  }

  /** Every committed file of a listing, dated by its last use. */
  function Candidates(listing: seq<Entry>, access: map<string, int>): (cs: seq<Candidate>) {
    if listing == [] then []
    else
      var rest, e := Candidates(listing[..|listing| - 1], access), listing[|listing| - 1];
      if IsCandidate(e) then rest + [Candidate(LastUse(e, access), e.name, e.metadata.length)] else rest
  }

  // ---- the order: a stable sort by last use ----

  /** Places a candidate after every one used no later. */
  function Placed(c: Candidate, cs: seq<Candidate>): (r: seq<Candidate>) {
    if cs == [] then [c]
    else if cs[|cs| - 1].accessed <= c.accessed then cs + [c]
    else Placed(c, cs[..|cs| - 1]) + [cs[|cs| - 1]]
  }

  function ByLastUse(cs: seq<Candidate>): (r: seq<Candidate>) {
    if cs == [] then [] else Placed(cs[|cs| - 1], ByLastUse(cs[..|cs| - 1]))
  }

  predicate Oldest(cs: seq<Candidate>) {
    forall i, j | 0 <= i < j < |cs| :: cs[i].accessed <= cs[j].accessed
  }

  function UsedAt(cs: seq<Candidate>, when: int): (r: seq<Candidate>) {
    if cs == [] then []
    else
      var rest, c := UsedAt(cs[..|cs| - 1], when), cs[|cs| - 1];
      if c.accessed == when then rest + [c] else rest
  }

  lemma {:induction false} PlacedHolds(c: Candidate, cs: seq<Candidate>)
    ensures multiset(Placed(c, cs)) == multiset(cs) + multiset{c}
  {
    if cs != [] {
      assert cs == cs[..|cs| - 1] + [cs[|cs| - 1]];
      PlacedHolds(c, cs[..|cs| - 1]);
    }
  }

  lemma {:induction false} PlacedKeepsOrder(c: Candidate, cs: seq<Candidate>)
    requires Oldest(cs)
    ensures Oldest(Placed(c, cs))
  {
    if cs != [] && cs[|cs| - 1].accessed > c.accessed {
      var front, last := cs[..|cs| - 1], cs[|cs| - 1];
      PlacedKeepsOrder(c, front);
      PlacedHolds(c, front);
      forall i | 0 <= i < |Placed(c, front)| ensures Placed(c, front)[i].accessed <= last.accessed {
        assert Placed(c, front)[i] in multiset(Placed(c, front));
        assert Placed(c, front)[i] == c || Placed(c, front)[i] in multiset(front);
      }
    }
  }

  lemma {:induction false} UsedAtOfAppend(cs: seq<Candidate>, c: Candidate, when: int)
    ensures UsedAt(cs + [c], when) == UsedAt(cs, when) + (if c.accessed == when then [c] else [])
  {
    assert (cs + [c])[..|cs|] == cs;
  }

  lemma {:induction false} UsedAtNone(cs: seq<Candidate>, when: int)
    requires forall c | c in cs :: c.accessed != when
    ensures UsedAt(cs, when) == []
  {
    if cs != [] {
      UsedAtNone(cs[..|cs| - 1], when);
    }
  }

  lemma {:induction false} PlacedIsStable(c: Candidate, cs: seq<Candidate>, when: int)
    requires Oldest(cs)
    ensures UsedAt(Placed(c, cs), when) == UsedAt(cs, when) + (if c.accessed == when then [c] else [])
  {
    if cs == [] || cs[|cs| - 1].accessed <= c.accessed {
      UsedAtOfAppend(cs, c, when);
    } else {
      var front, last := cs[..|cs| - 1], cs[|cs| - 1];
      assert cs == front + [last];
      PlacedIsStable(c, front, when);
      UsedAtOfAppend(Placed(c, front), last, when);
    }
  }

  /** Oldest first, nothing lost or doubled, and files last used at one instant
      in the order the directory listed them. */
  lemma {:induction false} SortIsStable(cs: seq<Candidate>, when: int)
    ensures Oldest(ByLastUse(cs)) && multiset(ByLastUse(cs)) == multiset(cs)
    ensures UsedAt(ByLastUse(cs), when) == UsedAt(cs, when)
  {
    if cs != [] {
      var front := cs[..|cs| - 1];
      assert cs == front + [cs[|cs| - 1]];
      SortIsStable(front, when);
      PlacedHolds(cs[|cs| - 1], ByLastUse(front));
      PlacedKeepsOrder(cs[|cs| - 1], ByLastUse(front));
      PlacedIsStable(cs[|cs| - 1], ByLastUse(front), when);
    }
  }

  // ---- the budget ----

  function SaturatingAdd(a: nat, b: nat): (r: nat) {
    if a + b > U64_MAX then U64_MAX else a + b
  }

  function SaturatingSub(a: nat, b: nat): (r: nat) {
    if a < b then 0 else a - b
  }

  function Counted(cs: seq<Candidate>): (total: nat) {
    if cs == [] then 0 else SaturatingAdd(Counted(cs[..|cs| - 1]), cs[|cs| - 1].size)
  }

  /** What the pass counts as left once it has tried the first `k` files. */
  function Remaining(cs: seq<Candidate>, start: nat, k: nat, refuses: string -> bool): (total: nat)
    requires k <= |cs|
  {
    if k == 0 then start
    else
      var before := Remaining(cs, start, k - 1, refuses);
      if refuses(cs[k - 1].name) then before else SaturatingSub(before, cs[k - 1].size)
  }

  /** The names gone after the first `k` tries. */
  function Gone(cs: seq<Candidate>, k: nat, refuses: string -> bool): (names: set<string>)
    requires k <= |cs|
  {
    set i | 0 <= i < k && !refuses(cs[i].name) :: cs[i].name
  }

  /** Where the pass stops: in budget for the first time, or out of files. */
  predicate StopsAt(cs: seq<Candidate>, start: nat, budget: nat, tried: nat, refuses: string -> bool) {
    && tried <= |cs|
    && (forall k | 0 <= k < tried :: Remaining(cs, start, k, refuses) > budget)
    && (tried < |cs| ==> Remaining(cs, start, tried, refuses) <= budget)
  }

  lemma GoneStep(cs: seq<Candidate>, k: nat, refuses: string -> bool)
    requires k < |cs|
    ensures Gone(cs, k + 1, refuses) == Gone(cs, k, refuses) + (if refuses(cs[k].name) then {} else {cs[k].name})
  {
  }

  lemma CandidatesStep(listing: seq<Entry>, i: nat, access: map<string, int>)
    requires i < |listing|
    ensures var before, e := Candidates(listing[..i], access), listing[i];
            Candidates(listing[..i + 1], access)
            == if IsCandidate(e) then before + [Candidate(LastUse(e, access), e.name, e.metadata.length)] else before
  {
    assert listing[..i + 1][..i] == listing[..i];
  }

  lemma CountedStep(cs: seq<Candidate>, c: Candidate)
    ensures Counted(cs + [c]) == SaturatingAdd(Counted(cs), c.size)
  {
    assert (cs + [c])[..|cs|] == cs;
  }

  class MediaCache {
    const budget: nat
    var disk: set<string>
    var access: map<string, int>

    constructor (budget: nat)
      ensures this.budget == budget && disk == {} && access == map[]
    {
      this.budget := budget;
      disk := {};
      access := map[];
    }

    /** Every committed file a listing names, and what they are counted as together. */
    method Collect(listing: seq<Entry>) returns (files: seq<Candidate>, total: nat)
      ensures files == Candidates(listing, access) && total == Counted(files)
    {
      files, total := [], 0;
      for i := 0 to |listing|
        invariant files == Candidates(listing[..i], access) && total == Counted(files)
      {
        var e := listing[i];
        CandidatesStep(listing, i, access);
        if IsStaging(e) || !e.metadata.Regular? {
          continue;
        }
        var c := Candidate(LastUse(e, access), e.name, e.metadata.length);
        CountedStep(files, c);
        total := SaturatingAdd(total, e.metadata.length);
        files := files + [c];
      }
      assert listing[..|listing|] == listing;
    }

    /** Tries files in order, and stops as soon as the count is in budget: `tried`
        is the first point at which it is, or the end of the list. */
    method RemoveUntilInBudget(order: seq<Candidate>, counted: nat, refuses: string -> bool) returns (tried: nat)
      modifies this
      ensures StopsAt(order, counted, budget, tried, refuses)
      ensures disk == old(disk) - Gone(order, tried, refuses)
      ensures access == old(access) - Gone(order, tried, refuses)
    {
      var total := counted;
      tried := 0;
      while tried < |order|
        invariant tried <= |order|
        invariant total == Remaining(order, counted, tried, refuses)
        invariant forall k | 0 <= k < tried :: Remaining(order, counted, k, refuses) > budget
        invariant disk == old(disk) - Gone(order, tried, refuses)
        invariant access == old(access) - Gone(order, tried, refuses)
      {
        if total <= budget {
          break;
        }
        var c := order[tried];
        GoneStep(order, tried, refuses);
        if !refuses(c.name) {
          total := SaturatingSub(total, c.size);
          disk := disk - {c.name};
          access := access - {c.name};
        }
        tried := tried + 1;
      }
    }

    /** The whole pass: every committed file listed, oldest use first. */
    method Prune(listing: seq<Entry>, refuses: string -> bool) returns (order: seq<Candidate>, tried: nat)
      modifies this
      ensures order == ByLastUse(Candidates(listing, old(access)))
      ensures StopsAt(order, Counted(Candidates(listing, old(access))), budget, tried, refuses)
      ensures disk == old(disk) - Gone(order, tried, refuses)
      ensures access == old(access) - Gone(order, tried, refuses)
      ensures Lists(listing, old(disk)) && SizeOn(listing, old(disk)) <= U64_MAX ==>
                Pruned(listing, old(disk), old(access), budget, refuses, disk, access)
    {
      var files, total := Collect(listing);
      order := ByLastUse(files);
      tried := RemoveUntilInBudget(order, total, refuses);
      if Lists(listing, old(disk)) && SizeOn(listing, old(disk)) <= U64_MAX {
        StoppedIsPruned(listing, old(disk), old(access), budget, refuses, tried);
      }
    }
  }

  // ---- what the pass leaves ----

  function Total(cs: seq<Candidate>): (total: nat) {
    if cs == [] then 0 else Total(cs[..|cs| - 1]) + cs[|cs| - 1].size
  }

  /** The true size of what is left: every file but the ones removed. */
  function Kept(cs: seq<Candidate>, k: nat, refuses: string -> bool): (total: nat)
    requires k <= |cs|
  {
    if cs == [] then 0
    else
      var n, last := |cs| - 1, cs[|cs| - 1];
      if k == |cs| then Kept(cs[..n], n, refuses) + (if refuses(last.name) then last.size else 0)
      else Kept(cs[..n], k, refuses) + last.size
  }

  lemma {:induction false} CountedSaturates(cs: seq<Candidate>)
    ensures Counted(cs) == if Total(cs) > U64_MAX then U64_MAX else Total(cs)
  {
    if cs != [] {
      CountedSaturates(cs[..|cs| - 1]);
    }
  }

  lemma {:induction false} TotalOfPlaced(c: Candidate, cs: seq<Candidate>)
    ensures Total(Placed(c, cs)) == Total(cs) + c.size
  {
    if cs == [] || cs[|cs| - 1].accessed <= c.accessed {
      assert (cs + [c])[..|cs|] == cs;
    } else {
      var front, last := cs[..|cs| - 1], cs[|cs| - 1];
      TotalOfPlaced(c, front);
      assert (Placed(c, front) + [last])[..|Placed(c, front)|] == Placed(c, front);
    }
  }

  lemma {:induction false} TotalOfSorted(cs: seq<Candidate>)
    ensures Total(ByLastUse(cs)) == Total(cs)
  {
    if cs != [] {
      TotalOfSorted(cs[..|cs| - 1]);
      TotalOfPlaced(cs[|cs| - 1], ByLastUse(cs[..|cs| - 1]));
    }
  }

  lemma {:induction false} KeptStep(cs: seq<Candidate>, k: nat, refuses: string -> bool)
    requires k < |cs|
    ensures Kept(cs, k, refuses) == Kept(cs, k + 1, refuses) + (if refuses(cs[k].name) then 0 else cs[k].size)
  {
    var n := |cs| - 1;
    if k < n {
      KeptStep(cs[..n], k, refuses);
    }
  }

  lemma {:induction false} KeptAll(cs: seq<Candidate>, refuses: string -> bool)
    ensures Kept(cs, 0, refuses) == Total(cs)
  {
    if cs != [] {
      KeptAll(cs[..|cs| - 1], refuses);
    }
  }

  /** The running count is the true size of what is left, as long as the whole
      directory fits 64 bits; and never more than it otherwise. */
  lemma {:induction false} RemainingIsKept(cs: seq<Candidate>, k: nat, refuses: string -> bool)
    requires k <= |cs|
    ensures Remaining(cs, Counted(cs), k, refuses) <= Kept(cs, k, refuses)
    ensures Total(cs) <= U64_MAX ==> Remaining(cs, Counted(cs), k, refuses) == Kept(cs, k, refuses)
  {
    if k == 0 {
      CountedSaturates(cs);
      KeptAll(cs, refuses);
    } else {
      RemainingIsKept(cs, k - 1, refuses);
      KeptStep(cs, k - 1, refuses);
    }
  }

  /** In budget or with every file tried, whichever removals fail; with no file
      left untried older than a tried one; and with each file removed only
      while what was left still exceeded the budget. */
  lemma {:induction false} PrunedToBudget(
    listing: seq<Entry>, access: map<string, int>, budget: nat, tried: nat, refuses: string -> bool)
    requires var cs := Candidates(listing, access);
             Total(cs) <= U64_MAX && StopsAt(ByLastUse(cs), Counted(cs), budget, tried, refuses)
    ensures var order := ByLastUse(Candidates(listing, access));
            && (Kept(order, tried, refuses) <= budget || tried == |order|)
            && (forall k | 0 <= k < tried :: Kept(order, k, refuses) > budget)
            && (forall i, j | 0 <= i < tried <= j < |order| :: order[i].accessed <= order[j].accessed)
  {
    var cs := Candidates(listing, access);
    var order := ByLastUse(cs);
    SortIsStable(cs, EPOCH);
    TotalOfSorted(cs);
    CountedSaturates(cs);
    CountedSaturates(order);
    RemainingIsKept(order, tried, refuses);
    forall k | 0 <= k < tried ensures Kept(order, k, refuses) > budget {
      RemainingIsKept(order, k, refuses);
    }
  }

  /** The last file removed was needed, whichever others refused: with it back
      and every other removal kept, the directory is over its budget. */
  lemma {:induction false} LastRemovalWasNeeded(
    listing: seq<Entry>, access: map<string, int>, budget: nat, tried: nat, refuses: string -> bool, last: nat)
    requires var cs := Candidates(listing, access);
             Total(cs) <= U64_MAX && StopsAt(ByLastUse(cs), Counted(cs), budget, tried, refuses)
    requires var order := ByLastUse(Candidates(listing, access));
             && last < tried && !refuses(order[last].name)
             && (forall i | last < i < tried :: refuses(order[i].name))
    ensures var order := ByLastUse(Candidates(listing, access));
            Kept(order, tried, refuses) + order[last].size > budget
  {
    PrunedToBudget(listing, access, budget, tried, refuses);
    RefusalsKeep(ByLastUse(Candidates(listing, access)), last + 1, tried, refuses);
    KeptStep(ByLastUse(Candidates(listing, access)), last, refuses);
  }

  lemma {:induction false} RefusalsKeep(cs: seq<Candidate>, from: nat, to: nat, refuses: string -> bool)
    requires from <= to <= |cs|
    requires forall i | from <= i < to :: refuses(cs[i].name)
    ensures Kept(cs, to, refuses) == Kept(cs, from, refuses)
    decreases (to as int) - from
  {
    if from < to {
      KeptStep(cs, from, refuses);
      RefusalsKeep(cs, from + 1, to, refuses);
    }
  }

  lemma {:induction false} CandidatesComeFrom(listing: seq<Entry>, access: map<string, int>, c: Candidate)
    requires c in Candidates(listing, access)
    ensures exists e | e in listing :: IsCandidate(e) && e.name == c.name && e.metadata.length == c.size && LastUse(e, access) == c.accessed
  {
    var front, last := listing[..|listing| - 1], listing[|listing| - 1];
    assert listing == front + [last];
    if c in Candidates(front, access) {
      CandidatesComeFrom(front, access, c);
    }
  }

  /** A staging file is never removed, however old and whatever the budget. */
  lemma {:induction false} StagingIsNeverTouched(
    hash: string -> string, job: Job, suffix: string, listing: seq<Entry>, access: map<string, int>, tried: nat, refuses: string -> bool)
    requires CollisionFree(hash)
    requires forall e | e in listing && e.name == StagingName(hash, job, suffix) :: e.text
    requires tried <= |ByLastUse(Candidates(listing, access))|
    ensures StagingName(hash, job, suffix) !in Gone(ByLastUse(Candidates(listing, access)), tried, refuses)
  {
    var cs := Candidates(listing, access);
    OnlyStagingNamesArePartial(hash, job, suffix);
    SortIsStable(cs, EPOCH);
    forall i | 0 <= i < tried ensures ByLastUse(cs)[i].name != StagingName(hash, job, suffix) {
      assert ByLastUse(cs)[i] in multiset(ByLastUse(cs));
      assert ByLastUse(cs)[i] in multiset(cs);
      CandidatesComeFrom(listing, access, ByLastUse(cs)[i]);
    }
  }

  /** A committed encode is a candidate whatever its name's characters. */
  lemma {:induction false} CommittedFilesAreCandidates(hash: string -> string, job: Job, listing: seq<Entry>, access: map<string, int>, e: Entry)
    requires CollisionFree(hash) && e in listing
    requires e.name == FileName(hash, job) && e.metadata.Regular?
    ensures Candidate(LastUse(e, access), e.name, e.metadata.length) in Candidates(listing, access)
  {
    OnlyStagingNamesArePartial(hash, job, "");
    IsListed(listing, access, e);
  }

  lemma {:induction false} IsListed(listing: seq<Entry>, access: map<string, int>, e: Entry)
    requires e in listing && IsCandidate(e)
    ensures Candidate(LastUse(e, access), e.name, e.metadata.length) in Candidates(listing, access)
  {
    var front, last := listing[..|listing| - 1], listing[|listing| - 1];
    assert listing == front + [last];
    if e in front {
      IsListed(front, access, e);
    }
  }

  // ---- the whole pass, in the entries, the disk and the access times ----

  predicate IsCommitted(e: Entry) {
    e.metadata.Regular? && !(e.text && Contains(e.name, ".part-"))
  }

  /** Last used when it was last served, or else last written, or else never. */
  predicate LastUsedAt(e: Entry, access: map<string, int>, when: int) {
    if e.name in access then when == access[e.name]
    else when == match e.metadata
      case Regular(_, Some(modified)) => modified
      case _ => 0
  }

  /** What the committed files of a listing take of a disk. */
  function SizeOn(listing: seq<Entry>, disk: set<string>): (size: nat) {
    if listing == [] then 0
    else
      var e := listing[|listing| - 1];
      SizeOn(listing[..|listing| - 1], disk) + (if IsCommitted(e) && e.name in disk then e.metadata.length else 0)
  }

  /** A directory names each file once, and what it names is there. */
  predicate Lists(listing: seq<Entry>, disk: set<string>) {
    && (forall i, j | 0 <= i < j < |listing| :: listing[i].name != listing[j].name)
    && (forall e | e in listing && IsCommitted(e) :: e.name in disk)
  }

  /** What a pass does: it takes committed files only, and none that refuses; it
      ends in budget or with nothing left to take; it takes none while one used
      earlier stays that would go; it takes one that was needed; and it forgets
      when what it took was used, and nothing else. */
  ghost predicate Pruned(
    listing: seq<Entry>, disk: set<string>, access: map<string, int>, budget: nat, refuses: string -> bool,
    left: set<string>, times: map<string, int>)
  {
    && left <= disk
    && times == access - (disk - left)
    && (forall name | name in disk - left :: !refuses(name) && Names(listing, name))
    && (SizeOn(listing, left) <= budget || forall e | e in listing && IsCommitted(e) :: e.name !in left || refuses(e.name))
    && (forall e, f | e in listing && f in listing && IsCommitted(e) && IsCommitted(f) :: OldestGoes(e, f, access, left, refuses))
    && (left != disk ==> exists name :: name in disk - left && SizeOn(listing, left + {name}) > budget)
  }

  ghost predicate Names(listing: seq<Entry>, name: string) {
    exists e :: e in listing && IsCommitted(e) && e.name == name
  }

  /** If `e` is gone and `f`, which would go, is not, `e` was used no later. */
  ghost predicate OldestGoes(e: Entry, f: Entry, access: map<string, int>, left: set<string>, refuses: string -> bool) {
    e.name !in left && f.name in left && !refuses(f.name) ==>
      forall m, n | LastUsedAt(e, access, m) && LastUsedAt(f, access, n) :: m <= n
  }

  lemma CommittedIsCandidate(e: Entry, access: map<string, int>)
    ensures IsCandidate(e) <==> IsCommitted(e)
    ensures IsCommitted(e) ==> forall when :: LastUsedAt(e, access, when) <==> when == LastUse(e, access)
  {
  }

  predicate NamedOnce(cs: seq<Candidate>) {
    forall i, j | 0 <= i < j < |cs| :: cs[i].name != cs[j].name
  }

  /** The sizes of the candidates not among those gone. */
  function SumLeft(cs: seq<Candidate>, gone: set<string>): (total: nat) {
    if cs == [] then 0
    else SumLeft(cs[..|cs| - 1], gone) + (if cs[|cs| - 1].name in gone then 0 else cs[|cs| - 1].size)
  }

  lemma {:induction false} SumLeftOfPlaced(c: Candidate, cs: seq<Candidate>, gone: set<string>)
    ensures SumLeft(Placed(c, cs), gone) == SumLeft(cs, gone) + (if c.name in gone then 0 else c.size)
  {
    if cs == [] || cs[|cs| - 1].accessed <= c.accessed {
      assert (cs + [c])[..|cs|] == cs;
    } else {
      var front, last := cs[..|cs| - 1], cs[|cs| - 1];
      SumLeftOfPlaced(c, front, gone);
      assert (Placed(c, front) + [last])[..|Placed(c, front)|] == Placed(c, front);
    }
  }

  lemma {:induction false} SumLeftOfSorted(cs: seq<Candidate>, gone: set<string>)
    ensures SumLeft(ByLastUse(cs), gone) == SumLeft(cs, gone)
  {
    if cs != [] {
      SumLeftOfSorted(cs[..|cs| - 1], gone);
      SumLeftOfPlaced(cs[|cs| - 1], ByLastUse(cs[..|cs| - 1]), gone);
    }
  }

  lemma {:induction false} SumLeftOfListing(listing: seq<Entry>, access: map<string, int>, disk: set<string>, gone: set<string>)
    requires Lists(listing, disk)
    ensures SumLeft(Candidates(listing, access), gone) == SizeOn(listing, disk - gone)
  {
    if listing != [] {
      var n := |listing| - 1;
      SumLeftOfListing(listing[..n], access, disk, gone);
      CommittedIsCandidate(listing[n], access);
      var before := Candidates(listing[..n], access);
      if IsCandidate(listing[n]) {
        assert listing[n] in listing;
        assert Candidates(listing, access)[..|before|] == before;
      }
    }
  }

  lemma {:induction false} SumLeftLess(cs: seq<Candidate>, gone: set<string>, k: nat)
    requires NamedOnce(cs) && k < |cs| && cs[k].name !in gone
    ensures SumLeft(cs, gone + {cs[k].name}) + cs[k].size == SumLeft(cs, gone)
  {
    var n := |cs| - 1;
    if k < n {
      SumLeftLess(cs[..n], gone, k);
    } else {
      SumLeftSame(cs[..n], gone, cs[n].name);
    }
  }

  lemma {:induction false} SumLeftSame(cs: seq<Candidate>, gone: set<string>, name: string)
    requires forall i | 0 <= i < |cs| :: cs[i].name != name
    ensures SumLeft(cs, gone + {name}) == SumLeft(cs, gone)
  {
    if cs != [] {
      SumLeftSame(cs[..|cs| - 1], gone, name);
    }
  }

  lemma {:induction false} SumLeftOfNone(cs: seq<Candidate>)
    ensures SumLeft(cs, {}) == Total(cs)
  {
    if cs != [] {
      SumLeftOfNone(cs[..|cs| - 1]);
    }
  }

  /** What is counted as kept is what is left with the names gone. */
  lemma {:induction false} KeptIsLeft(cs: seq<Candidate>, k: nat, refuses: string -> bool)
    requires NamedOnce(cs) && k <= |cs|
    ensures Kept(cs, k, refuses) == SumLeft(cs, Gone(cs, k, refuses))
  {
    if k == 0 {
      KeptAll(cs, refuses);
      SumLeftOfNone(cs);
      assert Gone(cs, 0, refuses) == {};
    } else {
      KeptIsLeft(cs, k - 1, refuses);
      KeptStep(cs, k - 1, refuses);
      GoneStep(cs, k - 1, refuses);
      if !refuses(cs[k - 1].name) {
        assert cs[k - 1].name !in Gone(cs, k - 1, refuses);
        SumLeftLess(cs, Gone(cs, k - 1, refuses), k - 1);
      } else {
        assert Gone(cs, k, refuses) == Gone(cs, k - 1, refuses);
      }
    }
  }

  /** A candidate, and the entry it comes from. */
  predicate Of(c: Candidate, e: Entry, access: map<string, int>) {
    IsCommitted(e) && c.name == e.name && c.size == e.metadata.length && LastUsedAt(e, access, c.accessed)
  }

  lemma {:induction false} EntryOf(listing: seq<Entry>, access: map<string, int>, c: Candidate) returns (e: Entry)
    requires c in ByLastUse(Candidates(listing, access))
    ensures e in listing && Of(c, e, access)
  {
    SortIsStable(Candidates(listing, access), EPOCH);
    assert c in multiset(ByLastUse(Candidates(listing, access)));
    assert c in multiset(Candidates(listing, access));
    CandidatesComeFrom(listing, access, c);
    e :| e in listing && IsCandidate(e) && e.name == c.name && e.metadata.length == c.size && LastUse(e, access) == c.accessed;
    CommittedIsCandidate(e, access);
  }

  lemma {:induction false} PlaceOf(listing: seq<Entry>, access: map<string, int>, e: Entry) returns (i: nat)
    requires e in listing && IsCommitted(e)
    ensures var order := ByLastUse(Candidates(listing, access));
            i < |order| && Of(order[i], e, access)
  {
    CommittedIsCandidate(e, access);
    IsListed(listing, access, e);
    var c := Candidate(LastUse(e, access), e.name, e.metadata.length);
    SortIsStable(Candidates(listing, access), EPOCH);
    assert c in multiset(Candidates(listing, access));
    assert c in multiset(ByLastUse(Candidates(listing, access)));
    i :| i < |ByLastUse(Candidates(listing, access))| && ByLastUse(Candidates(listing, access))[i] == c;
  }

  predicate Unnamed(cs: seq<Candidate>, name: string) {
    forall i | 0 <= i < |cs| :: cs[i].name != name
  }

  lemma UnnamedAppend(cs: seq<Candidate>, c: Candidate, name: string)
    ensures Unnamed(cs + [c], name) <==> Unnamed(cs, name) && c.name != name
  {
    assert (cs + [c])[|cs|] == c;
    assert forall i | 0 <= i < |cs| :: (cs + [c])[i] == cs[i];
  }

  lemma {:induction false} PlacedUnnamed(c: Candidate, cs: seq<Candidate>, name: string)
    ensures Unnamed(Placed(c, cs), name) <==> Unnamed(cs, name) && c.name != name
  {
    if cs == [] || cs[|cs| - 1].accessed <= c.accessed {
      UnnamedAppend(cs, c, name);
    } else {
      var front, last := cs[..|cs| - 1], cs[|cs| - 1];
      assert cs == front + [last];
      PlacedUnnamed(c, front, name);
      UnnamedAppend(front, last, name);
      UnnamedAppend(Placed(c, front), last, name);
    }
  }

  lemma {:induction false} PlacedNamedOnce(c: Candidate, cs: seq<Candidate>)
    requires NamedOnce(cs) && Unnamed(cs, c.name)
    ensures NamedOnce(Placed(c, cs))
  {
    if cs != [] && cs[|cs| - 1].accessed > c.accessed {
      PlacedNamedOnce(c, cs[..|cs| - 1]);
      PlacedUnnamed(c, cs[..|cs| - 1], cs[|cs| - 1].name);
    }
  }

  lemma {:induction false} SortedUnnamed(cs: seq<Candidate>, name: string)
    ensures Unnamed(ByLastUse(cs), name) <==> Unnamed(cs, name)
  {
    if cs != [] {
      SortedUnnamed(cs[..|cs| - 1], name);
      UnnamedAppend(cs[..|cs| - 1], cs[|cs| - 1], name);
      assert cs == cs[..|cs| - 1] + [cs[|cs| - 1]];
      PlacedUnnamed(cs[|cs| - 1], ByLastUse(cs[..|cs| - 1]), name);
    }
  }

  lemma {:induction false} SortedNamedOnce(cs: seq<Candidate>)
    requires NamedOnce(cs)
    ensures NamedOnce(ByLastUse(cs))
  {
    if cs != [] {
      SortedNamedOnce(cs[..|cs| - 1]);
      SortedUnnamed(cs[..|cs| - 1], cs[|cs| - 1].name);
      PlacedNamedOnce(cs[|cs| - 1], ByLastUse(cs[..|cs| - 1]));
    }
  }

  lemma {:induction false} CandidatesNamedOnce(listing: seq<Entry>, access: map<string, int>, disk: set<string>)
    requires Lists(listing, disk)
    ensures NamedOnce(Candidates(listing, access))
    ensures forall c | c in Candidates(listing, access) :: exists e :: e in listing && e.name == c.name
  {
    if listing != [] {
      var n := |listing| - 1;
      CandidatesNamedOnce(listing[..n], access, disk);
      assert listing == listing[..n] + [listing[n]];
      forall c | c in Candidates(listing[..n], access) ensures c.name != listing[n].name && exists e :: e in listing && e.name == c.name {
        var e :| e in listing[..n] && e.name == c.name;
        var i :| 0 <= i < n && listing[..n][i] == e;
        assert listing[i].name != listing[n].name;
      }
      assert listing[n] in listing;
    }
  }

  /** The last place before `k` whose file did not refuse, if there is one. */
  lemma {:induction false} LastGone(cs: seq<Candidate>, k: nat, refuses: string -> bool) returns (last: nat)
    requires k <= |cs| && exists i :: 0 <= i < k && !refuses(cs[i].name)
    ensures last < k && !refuses(cs[last].name) && forall i | last < i < k :: refuses(cs[i].name)
  {
    if !refuses(cs[k - 1].name) {
      last := k - 1;
    } else {
      last := LastGone(cs, k - 1, refuses);
    }
  }

  /** Everything a pass did, whatever it found and whatever refused. */
  lemma {:induction false} StoppedIsPruned(
    listing: seq<Entry>, disk: set<string>, access: map<string, int>, budget: nat, refuses: string -> bool, tried: nat)
    requires Lists(listing, disk) && SizeOn(listing, disk) <= U64_MAX
    requires StopsAt(ByLastUse(Candidates(listing, access)), Counted(Candidates(listing, access)), budget, tried, refuses)
    ensures var gone := Gone(ByLastUse(Candidates(listing, access)), tried, refuses);
            Pruned(listing, disk, access, budget, refuses, disk - gone, access - gone)
  {
    var cs := Candidates(listing, access);
    var order := ByLastUse(cs);
    var gone := Gone(order, tried, refuses);
    CandidatesNamedOnce(listing, access, disk);
    SortedNamedOnce(cs);
    SizeIsTotal(listing, access, disk);
    PrunedToBudget(listing, access, budget, tried, refuses);
    GoneAreListed(listing, access, disk, tried, refuses);
    KeptIsSize(listing, access, disk, tried, refuses);
    assert disk - (disk - gone) == gone;
    forall e | e in listing && IsCommitted(e) && tried == |order| && e.name in disk - gone ensures refuses(e.name) {
      var i := PlaceOf(listing, access, e);
      assert order[i].name == e.name;
    }
    forall e, f | e in listing && f in listing && IsCommitted(e) && IsCommitted(f) ensures OldestGoes(e, f, access, disk - gone, refuses) {
      OldestFirst(listing, access, disk, tried, refuses, e, f);
    }
    if gone != {} {
      NeededOne(listing, access, disk, budget, tried, refuses);
    }
  }

  lemma {:induction false} SizeIsTotal(listing: seq<Entry>, access: map<string, int>, disk: set<string>)
    requires Lists(listing, disk)
    ensures Total(Candidates(listing, access)) == SizeOn(listing, disk)
  {
    SumLeftOfListing(listing, access, disk, {});
    SumLeftOfNone(Candidates(listing, access));
    assert disk - {} == disk;
  }

  lemma {:induction false} KeptIsSize(listing: seq<Entry>, access: map<string, int>, disk: set<string>, k: nat, refuses: string -> bool)
    requires Lists(listing, disk) && k <= |ByLastUse(Candidates(listing, access))|
    ensures var order := ByLastUse(Candidates(listing, access));
            Kept(order, k, refuses) == SizeOn(listing, disk - Gone(order, k, refuses))
  {
    var cs := Candidates(listing, access);
    CandidatesNamedOnce(listing, access, disk);
    SortedNamedOnce(cs);
    KeptIsLeft(ByLastUse(cs), k, refuses);
    SumLeftOfSorted(cs, Gone(ByLastUse(cs), k, refuses));
    SumLeftOfListing(listing, access, disk, Gone(ByLastUse(cs), k, refuses));
  }

  lemma {:induction false} GoneAreListed(listing: seq<Entry>, access: map<string, int>, disk: set<string>, k: nat, refuses: string -> bool)
    requires Lists(listing, disk) && k <= |ByLastUse(Candidates(listing, access))|
    ensures forall name | name in Gone(ByLastUse(Candidates(listing, access)), k, refuses) ::
              name in disk && !refuses(name) && Names(listing, name)
  {
    var order := ByLastUse(Candidates(listing, access));
    forall name | name in Gone(order, k, refuses) ensures name in disk && !refuses(name) && Names(listing, name) {
      var i :| 0 <= i < k && !refuses(order[i].name) && order[i].name == name;
      var e := EntryOf(listing, access, order[i]);
    }
  }

  lemma {:induction false} OldestFirst(
    listing: seq<Entry>, access: map<string, int>, disk: set<string>, tried: nat, refuses: string -> bool, e: Entry, f: Entry)
    requires Lists(listing, disk) && tried <= |ByLastUse(Candidates(listing, access))|
    requires e in listing && f in listing && IsCommitted(e) && IsCommitted(f)
    ensures OldestGoes(e, f, access, disk - Gone(ByLastUse(Candidates(listing, access)), tried, refuses), refuses)
  {
    var order := ByLastUse(Candidates(listing, access));
    var gone := Gone(order, tried, refuses);
    if e.name !in disk - gone && f.name in disk - gone && !refuses(f.name) {
      var i := PlaceOf(listing, access, e);
      var j := PlaceOf(listing, access, f);
      CandidatesNamedOnce(listing, access, disk);
      SortedNamedOnce(Candidates(listing, access));
      SortIsStable(Candidates(listing, access), EPOCH);
      var k :| 0 <= k < tried && !refuses(order[k].name) && order[k].name == e.name;
      assert k == i && j >= tried;
      assert order[i].accessed <= order[j].accessed;
      CommittedIsCandidate(e, access);
      CommittedIsCandidate(f, access);
    }
  }

  lemma {:induction false} NeededOne(
    listing: seq<Entry>, access: map<string, int>, disk: set<string>, budget: nat, tried: nat, refuses: string -> bool)
    requires Lists(listing, disk) && SizeOn(listing, disk) <= U64_MAX
    requires StopsAt(ByLastUse(Candidates(listing, access)), Counted(Candidates(listing, access)), budget, tried, refuses)
    requires Gone(ByLastUse(Candidates(listing, access)), tried, refuses) != {}
    ensures var gone := Gone(ByLastUse(Candidates(listing, access)), tried, refuses);
            exists name :: name in gone && SizeOn(listing, disk - gone + {name}) > budget
  {
    var order := ByLastUse(Candidates(listing, access));
    var gone := Gone(order, tried, refuses);
    var some :| some in gone;
    var last := LastGone(order, tried, refuses);
    SizeIsTotal(listing, access, disk);
    PrunedToBudget(listing, access, budget, tried, refuses);
    KeptIsSize(listing, access, disk, last, refuses);
    CandidatesNamedOnce(listing, access, disk);
    SortedNamedOnce(Candidates(listing, access));
    GoneAreListed(listing, access, disk, tried, refuses);
    GoneButLast(order, last, tried, refuses);
    PutBack(disk, Gone(order, last, refuses), order[last].name);
  }

  lemma PutBack(disk: set<string>, before: set<string>, name: string)
    requires name in disk && name !in before
    ensures disk - (before + {name}) + {name} == disk - before
  {
  }

  lemma {:induction false} GoneSince(cs: seq<Candidate>, from: nat, to: nat, refuses: string -> bool)
    requires from <= to <= |cs|
    requires forall i | from <= i < to :: refuses(cs[i].name)
    ensures Gone(cs, to, refuses) == Gone(cs, from, refuses)
    decreases (to as int) - from
  {
    if from < to {
      GoneStep(cs, from, refuses);
      GoneSince(cs, from + 1, to, refuses);
    }
  }

  lemma {:induction false} GoneButLast(cs: seq<Candidate>, last: nat, tried: nat, refuses: string -> bool)
    requires NamedOnce(cs) && last < tried <= |cs| && !refuses(cs[last].name)
    requires forall i | last < i < tried :: refuses(cs[i].name)
    ensures Gone(cs, tried, refuses) == Gone(cs, last, refuses) + {cs[last].name}
    ensures cs[last].name !in Gone(cs, last, refuses)
  {
    GoneSince(cs, last + 1, tried, refuses);
    GoneStep(cs, last, refuses);
  }
}
