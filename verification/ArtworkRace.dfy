/** The artwork sweep beside writers it shares no lock with: only a file's age
    keeps the two apart (src/services/artwork.rs). */
module ArtworkRace {
  import opened Decimal
  import opened ArtworkStore

  datatype Pass = NoPass | Pass(start: real, named: set<string>)

  /** The clock, when each file was written, when each live row was committed,
      and the pass under way with the hashes it read. */
  datatype World = World(now: real, files: map<string, real>, rows: map<string, real>, pass: Pass)

  /** A writer writes a file the store lacks, and commits a row for a file it
      wrote or met again; a pass reads the rows, then looks at files one by one. */
  datatype Event =
    | Wait(time: real)
    | Write(name: string)
    | Commit(hash: string)
    | Forget(hash: string)
    | Start
    | Visit(name: string)
    | Finish

  const EMPTY: World := World(0.0, map[], map[], NoPass)

  predicate Removes(s: World, name: string) {
    s.pass.Pass? && name in s.files && Orphan(s.pass.named, name) && s.now - s.files[name] > WRITE_GRACE
  }

  /** A pass lasts at most `longest`. */
  predicate Can(s: World, e: Event, longest: real) {
    match e
    case Wait(time) => time >= 0.0 && (s.pass.Pass? ==> s.now + time <= s.pass.start + longest)
    case Write(name) => !Classify(name).Unknown? && name !in s.files
    case Commit(_) => true
    case Forget(_) => true
    case Start => s.pass.NoPass?
    case Visit(name) => s.pass.Pass? && name in s.files
    case Finish => s.pass.Pass?
  }

  function After(s: World, e: Event): (r: World) {
    match e
    case Wait(time) => s.(now := s.now + time)
    case Write(name) => s.(files := s.files[name := s.now])
    case Commit(hash) => if hash in s.rows then s else s.(rows := s.rows[hash := s.now])
    case Forget(hash) => s.(rows := s.rows - {hash})
    case Start => s.(pass := Pass(s.now, s.rows.Keys))
    case Visit(name) => if Removes(s, name) then s.(files := s.files - {name}) else s
    case Finish => s.(pass := NoPass)
  }

  /** The ages files have on this clock, where every removal succeeds. */
  function Clocked(s: World): (w: Weather) {
    Weather(name => if name in s.files then Some(s.now - s.files[name]) else None, _ => false)
  }

  /** A visit is the sweep's own look at one file, ages read off the clock: it
      removes it exactly when the sweep does. */
  method VisitStore(store: Store, s: World, name: string, before: Round) returns (r: Round)
    requires s.pass.Pass? && store.files == s.files.Keys && before.files == store.files
    modifies store
    ensures store.files == After(s, Visit(name)).files.Keys
    ensures name in s.files ==> (name !in store.files <==> Removes(s, name))
  {
    r := store.Look(name, s.pass.named, Clocked(s), before);
  }

  function Run(events: seq<Event>): (s: World) {
    if events == [] then EMPTY else After(Run(events[..|events| - 1]), events[|events| - 1])
  }

  predicate Happens(events: seq<Event>, longest: real) {
    events == [] ||
    (Happens(events[..|events| - 1], longest) && Can(Run(events[..|events| - 1]), events[|events| - 1], longest))
  }

  /** The file's row is live. */
  predicate Live(s: World, name: string) {
    name in s.files && !Classify(name).Unknown? && Classify(name).hash in s.rows
  }

  /** The file's row is live, and was committed within `gap` of the file's writing. */
  predicate LiveWithin(s: World, name: string, gap: real) {
    Live(s, name) && s.rows[Classify(name).hash] <= s.files[name] + gap
  }

  predicate Inv(s: World, longest: real) {
    && (forall name | name in s.files :: s.files[name] <= s.now)
    && (forall hash | hash in s.rows :: s.rows[hash] <= s.now)
    && (s.pass.Pass? ==>
          && s.pass.start <= s.now <= s.pass.start + longest
          && (forall hash | hash in s.rows && s.rows[hash] < s.pass.start :: hash in s.pass.named))
  }

  lemma {:induction false} InvHolds(events: seq<Event>, longest: real)
    requires longest >= 0.0 && Happens(events, longest)
    ensures Inv(Run(events), longest)
  {
    if events != [] {
      InvHolds(events[..|events| - 1], longest);
    }
  }

  /** What the age does not cover, exactly: a pass removes a file of a live row
      only when that row was committed during the pass, longer than the grace
      less a whole pass after the file was written. */
  lemma {:induction false} LostOnlyWhenMetAgain(events: seq<Event>, name: string, longest: real)
    requires longest >= 0.0 && Happens(events, longest)
    requires var s := Run(events); Live(s, name) && Removes(s, name)
    ensures var s, hash := Run(events), Classify(name).hash;
            && hash !in s.pass.named
            && s.rows[hash] >= s.pass.start
            && s.rows[hash] - s.files[name] > WRITE_GRACE - longest
  {
    InvHolds(events, longest);
  }

  /** No pass, in any run, takes a file whose live row came within `gap` of it. */
  ghost predicate KeepsFreshFiles(gap: real, longest: real) {
    forall events, name | Happens(events, longest) && LiveWithin(Run(events), name, gap) :: !Removes(Run(events), name)
  }

  function MetAgain(cover: string, hash: string, gap: real, longest: real): (events: seq<Event>) {
    [Write(cover), Wait(gap), Start, Commit(hash), Wait(longest)]
  }

  lemma RunOf(events: seq<Event>, e: Event, longest: real)
    ensures Run(events + [e]) == After(Run(events), e)
    ensures Happens(events + [e], longest) <==> Happens(events, longest) && Can(Run(events), e, longest)
  {
    assert (events + [e])[..|events|] == events;
  }

  lemma {:induction false} MetAgainRuns(cover: string, hash: string, gap: real, longest: real)
    requires gap >= 0.0 && longest >= 0.0 && Classify(cover) == Cover(hash)
    ensures var events := MetAgain(cover, hash, gap, longest);
            && Happens(events, longest)
            && Run(events) == World(gap + longest, map[cover := 0.0], map[hash := gap], Pass(gap, {}))
  {
    var a := [Write(cover)];
    var b, c := a + [Wait(gap)], a + [Wait(gap)] + [Start];
    var d := c + [Commit(hash)];
    RunOf([], Write(cover), longest);
    assert [] + a == a;
    assert Happens(a, longest) && Run(a) == World(0.0, map[cover := 0.0], map[], NoPass);
    RunOf(a, Wait(gap), longest);
    assert Happens(b, longest) && Run(b) == World(gap, map[cover := 0.0], map[], NoPass);
    RunOf(b, Start, longest);
    assert Run(b).rows.Keys == {};
    assert Happens(c, longest) && Run(c) == World(gap, map[cover := 0.0], map[], Pass(gap, {}));
    RunOf(c, Commit(hash), longest);
    assert Happens(d, longest) && Run(d) == World(gap, map[cover := 0.0], map[hash := gap], Pass(gap, {}));
    RunOf(d, Wait(longest), longest);
    assert d + [Wait(longest)] == MetAgain(cover, hash, gap, longest);
  }

  /** A file older than the grace, met again as a pass begins, is taken from its new row. */
  lemma {:induction false} MetAgainIsLost(cover: string, hash: string, gap: real, longest: real)
    requires gap >= 0.0 && longest >= 0.0 && gap + longest > WRITE_GRACE && Classify(cover) == Cover(hash)
    ensures var events := MetAgain(cover, hash, gap, longest);
            Happens(events, longest) && LiveWithin(Run(events), cover, gap) && Removes(Run(events), cover)
  {
    MetAgainRuns(cover, hash, gap, longest);
  }

  lemma {:induction false} ACoverExists() returns (cover: string, hash: string)
    ensures Classify(cover) == Cover(hash)
  {
    hash := seq(64, _ => '0');
    cover := hash + "." + "jpg";
    CoverIsNamed(hash, "jpg");
  }

  /** The grace protects every freshly written file of a live row, in every run
      of writers and passes, exactly when it outlasts the longest gap between a
      file and its row and the longest pass together. */
  lemma {:induction false} GraceProtectsIff(gap: real, longest: real)
    requires gap >= 0.0 && longest >= 0.0
    ensures KeepsFreshFiles(gap, longest) <==> gap + longest <= WRITE_GRACE
  {
    if gap + longest <= WRITE_GRACE {
      forall events, name | Happens(events, longest) && LiveWithin(Run(events), name, gap) ensures !Removes(Run(events), name) {
        if Removes(Run(events), name) {
          LostOnlyWhenMetAgain(events, name, longest);
          assert false;
        }
      }
    } else {
      var cover, hash := ACoverExists();
      MetAgainIsLost(cover, hash, gap, longest);
    }
  }
}
