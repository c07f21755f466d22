/** The artwork store and one sweep of it: what each name is, what goes and what
    is counted (src/services/artwork.rs, src/media/artwork.rs). */
module ArtworkStore {
  import opened Decimal
  import opened Text
  import opened CacheNames

  /** One hour, in seconds. */
  const WRITE_GRACE: real := 3600.0

  datatype StoreEntry = Cover(hash: string) | Thumbnail(hash: string) | Unknown

  predicate IsArtwork(extension: string) {
    extension == "jpg" || extension == "jpeg" || extension == "png" || extension == "webp"
  }

  predicate IsHash(stem: string) {
    |stem| == 64 && HexText(stem)
  }

  /** The text before the last separator and the text after it. */
  function SplitLast(s: string, sep: char): (r: Split) {
    if s == [] then Unsplit
    else if s[|s| - 1] == sep then Split(s[..|s| - 1], [])
    else
      match SplitLast(s[..|s| - 1], sep)
      case Unsplit => Unsplit
      case Split(head, tail) => Split(head, tail + [s[|s| - 1]])
  }

  function StripSuffix(s: string, suffix: string): (r: Option<string>) {
    if |suffix| <= |s| && s[|s| - |suffix|..] == suffix then Some(s[..|s| - |suffix|]) else None
  }

  function Classify(name: string): (e: StoreEntry) {
    match SplitLast(name, '.')
    case Unsplit => Unknown
    case Split(stem, extension) =>
      var small, large := StripSuffix(stem, "_1x"), StripSuffix(stem, "_2x");
      if extension == "jpg" && small.Some? then
        if IsHash(small.value) then Thumbnail(small.value) else Unknown
      else if extension == "jpg" && large.Some? then
        if IsHash(large.value) then Thumbnail(large.value) else Unknown
      else if IsArtwork(extension) && IsHash(stem) then Cover(stem)
      else Unknown
  }

  lemma {:induction false} SplitLastSplits(s: string, sep: char)
    ensures var r := SplitLast(s, sep);
            && (r.Split? <==> sep in s)
            && (r.Split? ==> s == r.head + [sep] + r.tail && sep !in r.tail)
  {
    if s != [] && s[|s| - 1] != sep {
      SplitLastSplits(s[..|s| - 1], sep);
      assert s == s[..|s| - 1] + [s[|s| - 1]];
    }
  }

  lemma {:induction false} SplitLastOfJoined(head: string, tail: string, sep: char)
    requires sep !in tail
    ensures SplitLast(head + [sep] + tail, sep) == Split(head, tail)
  {
    var s := head + [sep] + tail;
    if tail == [] {
      assert s[..|s| - 1] == head;
    } else {
      var n := |tail| - 1;
      assert s[..|s| - 1] == head + [sep] + tail[..n];
      SplitLastOfJoined(head, tail[..n], sep);
    }
  }

  lemma StripsSuffix(front: string, suffix: string)
    ensures StripSuffix(front + suffix, suffix) == Some(front)
  {
  }

  lemma Strips(s: string, suffix: string)
    ensures StripSuffix(s, suffix).Some? ==> s == StripSuffix(s, suffix).value + suffix
  {
  }

  /** No hash ends in a thumbnail's suffix: it holds an underscore. */
  lemma HashHasNoSuffix(hash: string, suffix: string)
    requires HexText(hash) && (suffix == "_1x" || suffix == "_2x")
    ensures StripSuffix(hash, suffix).None?
  {
    if |hash| >= 3 {
      assert IsHexChar(hash[|hash| - 3]);
      assert hash[|hash| - 3..][0] == hash[|hash| - 3];
    }
  }

  /** Sixty-four lowercase hexadecimal characters. */
  predicate IsDigest(hash: string) {
    |hash| == 64 && forall c | c in hash :: '0' <= c <= '9' || 'a' <= c <= 'f'
  }

  predicate IsCoverName(name: string, hash: string) {
    IsDigest(hash) && (name == hash + ".jpg" || name == hash + ".jpeg" || name == hash + ".png" || name == hash + ".webp")
  }

  predicate IsThumbnailName(name: string, hash: string) {
    IsDigest(hash) && (name == hash + "_1x.jpg" || name == hash + "_2x.jpg")
  }

  lemma {:induction false} CoverIsNamed(hash: string, extension: string)
    requires IsHash(hash) && IsArtwork(extension)
    ensures Classify(hash + "." + extension) == Cover(hash)
  {
    SplitLastOfJoined(hash, extension, '.');
    HashHasNoSuffix(hash, "_1x");
    HashHasNoSuffix(hash, "_2x");
  }

  lemma {:induction false} ThumbnailIsNamed(hash: string, suffix: string)
    requires IsHash(hash) && (suffix == "_1x" || suffix == "_2x")
    ensures Classify(hash + suffix + ".jpg") == Thumbnail(hash)
  {
    var stem := hash + suffix;
    SplitLastOfJoined(stem, "jpg", '.');
    assert stem + ".jpg" == stem + ['.'] + "jpg";
    StripsSuffix(hash, suffix);
    assert stem[|stem| - 3..] == suffix;
  }

  lemma {:induction false} ThumbnailIsSpelled(stem: string, hash: string, suffix: string)
    requires IsHash(hash) && (suffix == "_1x" || suffix == "_2x") && StripSuffix(stem, suffix) == Some(hash)
    ensures IsThumbnailName(stem + ['.'] + "jpg", hash)
  {
    Strips(stem, suffix);
    assert stem + ['.'] + "jpg" == hash + (suffix + ".jpg");
    assert "_1x" + ".jpg" == "_1x.jpg" && "_2x" + ".jpg" == "_2x.jpg";
  }

  lemma {:induction false} CoverIsSpelled(stem: string, extension: string)
    requires IsHash(stem) && IsArtwork(extension)
    ensures IsCoverName(stem + ['.'] + extension, stem)
  {
    assert stem + ['.'] + extension == stem + ("." + extension);
  }

  lemma {:induction false} ClassifiedIsNamed(name: string)
    ensures Classify(name).Cover? ==> IsCoverName(name, Classify(name).hash)
    ensures Classify(name).Thumbnail? ==> IsThumbnailName(name, Classify(name).hash)
  {
    SplitLastSplits(name, '.');
    var split := SplitLast(name, '.');
    if Classify(name).Cover? {
      CoverIsSpelled(split.head, split.tail);
    } else if Classify(name).Thumbnail? {
      var suffix := if StripSuffix(split.head, "_1x").Some? then "_1x" else "_2x";
      ThumbnailIsSpelled(split.head, Classify(name).hash, suffix);
    }
  }

  /** The sweep recognises covers and thumbnails by exactly these names. */
  lemma {:induction false} ClassifyNames(name: string, hash: string)
    ensures Classify(name) == Cover(hash) <==> IsCoverName(name, hash)
    ensures Classify(name) == Thumbnail(hash) <==> IsThumbnailName(name, hash)
  {
    ClassifiedIsNamed(name);
    if IsCoverName(name, hash) {
      var extension := name[65..];
      assert name == hash + "." + extension;
      CoverIsNamed(hash, extension);
    }
    if IsThumbnailName(name, hash) {
      var suffix := name[64..67];
      assert name == hash + suffix + ".jpg";
      ThumbnailIsNamed(hash, suffix);
    }
  }

  // ---- one sweep ----

  /** What listing the directory gives: every name, or the first ones and an error. */
  datatype Listing = NoStore | Closed | Names(names: seq<string>, broken: bool)

  datatype Swept = Swept(rows: nat, covers: nat, thumbnails: nat, deadLinks: nat, unknown: nat)

  /** The ages the files have when they are looked at, and the removals that fail. */
  datatype Weather = Weather(age: string -> Option<real>, refuses: string -> bool)

  predicate Aged(w: Weather, name: string) {
    w.age(name).Some? && w.age(name).value > WRITE_GRACE && !w.refuses(name)
  }

  predicate Orphan(named: set<string>, name: string) {
    !Classify(name).Unknown? && Classify(name).hash !in named
  }

  /** The files a sweep of these names removes. */
  function Discards(names: seq<string>, named: set<string>, files: set<string>, w: Weather): (gone: set<string>) {
    set name | name in names && Goes(name, named, w, files)
  }

  function CoversOf(names: set<string>): (covers: set<string>) {
    set name | name in names && Classify(name).Cover?
  }

  function HashesFound(names: seq<string>): (hashes: set<string>) {
    set name | name in names && Classify(name).Cover? :: Classify(name).hash
  }

  function Unrecognised(names: seq<string>): (n: nat) {
    if names == [] then 0
    else Unrecognised(names[..|names| - 1]) + (if Classify(names[|names| - 1]).Unknown? then 1 else 0)
  }

  /** The files left part-way through a walk, and what it has counted. */
  datatype Round = Round(files: set<string>, covers: nat, thumbnails: nat, unknown: nat, seen: set<string>)

  predicate Goes(name: string, named: set<string>, w: Weather, files: set<string>) {
    name in files && Orphan(named, name) && Aged(w, name)
  }

  /** What looking at one name removes and counts. */
  function Looked(name: string, named: set<string>, w: Weather, r: Round): (u: Round) {
    var kind := Classify(name);
    if Goes(name, named, w, r.files) then
      if kind.Cover? then r.(files := r.files - {name}, covers := r.covers + 1)
      else r.(files := r.files - {name}, thumbnails := r.thumbnails + 1)
    else if kind.Unknown? then r.(unknown := r.unknown + 1)
    else if kind.Cover? && kind.hash in named then r.(seen := r.seen + {kind.hash})
    else r
  }

  function Walked(names: seq<string>, named: set<string>, w: Weather, files: set<string>): (r: Round) {
    if names == [] then Round(files, 0, 0, 0, {})
    else Looked(names[|names| - 1], named, w, Walked(names[..|names| - 1], named, w, files))
  }

  lemma DiscardsStep(names: seq<string>, name: string, named: set<string>, files: set<string>, w: Weather)
    ensures Discards(names + [name], named, files, w)
            == Discards(names, named, files, w) + (if Goes(name, named, w, files) then {name} else {})
  {
  }

  lemma FoundStep(names: seq<string>, name: string)
    ensures HashesFound(names + [name]) == HashesFound(names) + (if Classify(name).Cover? then {Classify(name).hash} else {})
  {
  }

  lemma CoversStep(gone: set<string>, name: string)
    requires name !in gone
    ensures |CoversOf(gone + {name})| == |CoversOf(gone)| + (if Classify(name).Cover? then 1 else 0)
    ensures |(gone + {name}) - CoversOf(gone + {name})| == |gone - CoversOf(gone)| + (if Classify(name).Cover? then 0 else 1)
  {
    if Classify(name).Cover? {
      assert CoversOf(gone + {name}) == CoversOf(gone) + {name};
      assert (gone + {name}) - CoversOf(gone + {name}) == gone - CoversOf(gone);
    } else {
      assert CoversOf(gone + {name}) == CoversOf(gone);
      assert (gone + {name}) - CoversOf(gone) == (gone - CoversOf(gone)) + {name};
    }
  }

  lemma LookRemoves(name: string, named: set<string>, w: Weather, r: Round)
    ensures Looked(name, named, w, r).files == r.files - (if Goes(name, named, w, r.files) then {name} else {})
  {
  }

  lemma {:induction false} WalkRemoves(names: seq<string>, named: set<string>, w: Weather, files: set<string>)
    ensures Walked(names, named, w, files).files == files - Discards(names, named, files, w)
  {
    if names != [] {
      var front, name := names[..|names| - 1], names[|names| - 1];
      assert names == front + [name];
      WalkRemoves(front, named, w, files);
      DiscardsStep(front, name, named, files, w);
      LookRemoves(name, named, w, Walked(front, named, w, files));
    }
  }

  predicate CountsOf(r: Round, gone: set<string>) {
    r.covers == |CoversOf(gone)| && r.thumbnails == |gone - CoversOf(gone)|
  }

  lemma {:induction false} LookCounts(name: string, named: set<string>, w: Weather, r: Round, gone: set<string>)
    requires CountsOf(r, gone)
    requires Goes(name, named, w, r.files) ==> name !in gone
    ensures CountsOf(Looked(name, named, w, r), if Goes(name, named, w, r.files) then gone + {name} else gone)
  {
    if Goes(name, named, w, r.files) {
      CoversStep(gone, name);
    }
  }

  lemma {:induction false} WalkCounts(names: seq<string>, named: set<string>, w: Weather, files: set<string>)
    ensures CountsOf(Walked(names, named, w, files), Discards(names, named, files, w))
  {
    if names == [] {
      assert Discards(names, named, files, w) == {} && CoversOf({}) == {};
    } else {
      var front, name := names[..|names| - 1], names[|names| - 1];
      assert names == front + [name];
      var gone := Discards(front, named, files, w);
      WalkCounts(front, named, w, files);
      WalkRemoves(front, named, w, files);
      DiscardsStep(front, name, named, files, w);
      LookCounts(name, named, w, Walked(front, named, w, files), gone);
      assert name in gone ==> gone + {name} == gone;
    }
  }

  lemma {:induction false} WalkCountsUnknown(names: seq<string>, named: set<string>, w: Weather, files: set<string>)
    ensures Walked(names, named, w, files).unknown == Unrecognised(names)
  {
    if names != [] {
      WalkCountsUnknown(names[..|names| - 1], named, w, files);
    }
  }

  lemma LookSees(name: string, named: set<string>, w: Weather, r: Round)
    ensures var kind := Classify(name);
            Looked(name, named, w, r).seen == r.seen + (if kind.Cover? && kind.hash in named then {kind.hash} else {})
  {
  }

  lemma {:induction false} WalkSees(names: seq<string>, named: set<string>, w: Weather, files: set<string>)
    ensures Walked(names, named, w, files).seen == named * HashesFound(names)
  {
    if names != [] {
      var front, name := names[..|names| - 1], names[|names| - 1];
      assert names == front + [name];
      WalkSees(front, named, w, files);
      FoundStep(front, name);
      LookSees(name, named, w, Walked(front, named, w, files));
    }
  }

  // ---- the same, in the names and ages themselves ----

  ghost predicate IsACover(name: string) {
    exists hash :: IsCoverName(name, hash)
  }

  ghost predicate IsRecognised(name: string) {
    exists hash :: IsCoverName(name, hash) || IsThumbnailName(name, hash)
  }

  /** A cover or a thumbnail of a hash no row names. */
  ghost predicate NamesOrphan(rows: set<string>, name: string) {
    exists hash :: hash !in rows && (IsCoverName(name, hash) || IsThumbnailName(name, hash))
  }

  /** A file not known to be over an hour old is young. */
  predicate IsYoung(age: Option<real>) {
    age.None? || age.value <= 3600.0
  }

  ghost predicate IsFound(names: seq<string>, hash: string) {
    exists name :: name in names && IsCoverName(name, hash)
  }

  lemma {:induction false} KindsAreNames(name: string)
    ensures Classify(name).Cover? <==> IsACover(name)
    ensures !Classify(name).Unknown? <==> IsRecognised(name)
    ensures forall rows :: Orphan(rows, name) <==> NamesOrphan(rows, name)
  {
    forall hash ensures (Classify(name) == Cover(hash) <==> IsCoverName(name, hash)) && (Classify(name) == Thumbnail(hash) <==> IsThumbnailName(name, hash)) {
      ClassifyNames(name, hash);
    }
    if !Classify(name).Unknown? {
      assert IsCoverName(name, Classify(name).hash) || IsThumbnailName(name, Classify(name).hash);
    }
  }

  /** Every place of a listing that holds a name nobody knows. */
  ghost function Strangers(names: seq<string>): (places: set<int>) {
    set i | 0 <= i < |names| && !IsRecognised(names[i])
  }

  lemma {:induction false} StrangersAreCounted(names: seq<string>)
    ensures Unrecognised(names) == |Strangers(names)|
  {
    if names == [] {
      assert Strangers(names) == {};
    } else {
      var n := |names| - 1;
      StrangersAreCounted(names[..n]);
      KindsAreNames(names[n]);
      assert Strangers(names) == Strangers(names[..n]) + (if IsRecognised(names[n]) then {} else {n});
    }
  }

  lemma {:induction false} GoneAreOrphans(names: seq<string>, named: set<string>, files: set<string>, w: Weather, name: string)
    requires name in files
    ensures name in Discards(names, named, files, w) <==>
            name in names && NamesOrphan(named, name) && !IsYoung(w.age(name)) && !w.refuses(name)
  {
    KindsAreNames(name);
  }

  lemma {:induction false} CoversAreCovers(gone: set<string>)
    ensures CoversOf(gone) == set name | name in gone && IsACover(name)
  {
    forall name ensures Classify(name).Cover? <==> IsACover(name) {
      KindsAreNames(name);
    }
  }

  lemma {:induction false} FoundAreFound(names: seq<string>, hash: string)
    ensures hash in HashesFound(names) <==> IsFound(names, hash)
  {
    forall name ensures Classify(name) == Cover(hash) <==> IsCoverName(name, hash) {
      ClassifyNames(name, hash);
    }
  }

  class Store {
    var files: set<string>
    var rows: set<string>

    constructor ()
      ensures files == {} && rows == {}
    {
      files, rows := {}, {};
    }

    method ForgetUnreferenced(referenced: set<string>) returns (removed: nat)
      modifies this`rows
      ensures rows == old(rows) * referenced && removed == |old(rows) - referenced|
    {
      removed := |rows - referenced|;
      rows := rows * referenced;
    }

    method DiscardAged(name: string, w: Weather) returns (gone: bool)
      modifies this`files
      ensures gone <==> name in old(files) && !IsYoung(w.age(name)) && !w.refuses(name)
      ensures files == if gone then old(files) - {name} else old(files)
    {
      gone := name in files && w.age(name).Some? && w.age(name).value > WRITE_GRACE && !w.refuses(name);
      if gone {
        files := files - {name};
      }
    }

    /** Looks at one name: keeps it, counts it, or removes the file it names. */
    method Look(name: string, named: set<string>, w: Weather, before: Round) returns (r: Round)
      requires before.files == files
      modifies this`files
      ensures r == Looked(name, named, w, before) && r.files == files
    {
      var covers, thumbnails, unknown, seen := before.covers, before.thumbnails, before.unknown, before.seen;
      match Classify(name) {
      case Cover(hash) =>
        if hash in named {
          seen := seen + {hash};
        } else {
          var removed := DiscardAged(name, w);
          if removed {
            covers := covers + 1;
          }
        }
      case Thumbnail(hash) =>
        if hash !in named {
          var removed := DiscardAged(name, w);
          if removed {
            thumbnails := thumbnails + 1;
          }
        }
      case Unknown =>
        unknown := unknown + 1;
      }
      r := Round(files, covers, thumbnails, unknown, seen);
    }

    /** Looks at every name the directory gives, in its order. */
    method Walk(names: seq<string>, named: set<string>, w: Weather) returns (r: Round)
      modifies this`files
      ensures r == Walked(names, named, w, old(files)) && r.files == files
    {
      r := Round(files, 0, 0, 0, {});
      for i := 0 to |names|
        invariant r == Walked(names[..i], named, w, old(files)) && r.files == files
      {
        assert names[..i + 1][..i] == names[..i];
        r := Look(names[i], named, w, r);
      }
      assert names[..|names|] == names;
    }

    /** Counts the named hashes no cover was found for, one by one. */
    method CountDeadLinks(named: set<string>, seen: set<string>) returns (dead: nat)
      ensures dead == |named - seen|
    {
      dead := 0;
      var left := named;
      while left != {}
        invariant left <= named
        invariant dead + |left - seen| == |named - seen|
        decreases left
      {
        var hash :| hash in left;
        if hash in seen {
          assert left - {hash} - seen == left - seen;
        } else {
          assert left - seen == (left - {hash} - seen) + {hash};
          dead := dead + 1;
        }
        left := left - {hash};
      }
      assert left - seen == {};
    }

    /** One pass: the rows nothing names, then every listed file over an hour old
        whose name is that of a cover or a thumbnail no row has, and nothing
        else; with every count exact, and dead links only reported. */
    method Sweep(referenced: set<string>, listing: Listing, w: Weather) returns (r: Option<Swept>)
      modifies this
      ensures rows == old(rows) * referenced && files <= old(files)
      ensures forall name | name in old(files) ::
                name !in files <==>
                listing.Names? && name in listing.names && NamesOrphan(rows, name) && !IsYoung(w.age(name)) && !w.refuses(name)
      ensures r.None? <==> listing.Closed? || (listing.Names? && listing.broken)
      ensures var names := if listing.Names? then listing.names else [];
              r.Some? ==>
                && r.value.rows == |old(rows) - rows|
                && r.value.covers == |set name | name in old(files) - files && IsACover(name)|
                && r.value.covers + r.value.thumbnails == |old(files) - files|
                && r.value.unknown == |Strangers(names)|
                && (listing.Names? ==> r.value.deadLinks == |set hash | hash in rows && !IsFound(names, hash)|)
                && (listing.NoStore? ==> r.value.deadLinks == 0)
    {
      var removed := ForgetUnreferenced(referenced);
      assert old(rows) - referenced == old(rows) - rows;
      if listing.Closed? {
        return None;
      }
      if listing.NoStore? {
        assert Strangers([]) == {} && (set name | name in old(files) - files && IsACover(name)) == {};
        return Some(Swept(removed, 0, 0, 0, 0));
      }
      var t := Walk(listing.names, rows, w);
      TallyIsExact(listing.names, rows, w, old(files));
      forall name | name in old(files)
        ensures name !in files <==> name in listing.names && NamesOrphan(rows, name) && !IsYoung(w.age(name)) && !w.refuses(name)
      {
        WalkRemoves(listing.names, rows, w, old(files));
        GoneAreOrphans(listing.names, rows, old(files), w, name);
      }
      if listing.broken {
        return None;
      }
      var dead := CountDeadLinks(rows, t.seen);
      r := Some(Swept(removed, t.covers, t.thumbnails, dead, t.unknown));
    }
  }

  /** What a walk counts, in the files it took and the names it saw. */
  lemma {:induction false} TallyIsExact(names: seq<string>, named: set<string>, w: Weather, files: set<string>)
    ensures var r := Walked(names, named, w, files);
            && r.files <= files
            && r.covers == |set name | name in files - r.files && IsACover(name)|
            && r.covers + r.thumbnails == |files - r.files|
            && r.unknown == |Strangers(names)|
            && named - r.seen == set hash | hash in named && !IsFound(names, hash)
  {
    var r, gone := Walked(names, named, w, files), Discards(names, named, files, w);
    WalkRemoves(names, named, w, files);
    assert files - r.files == gone;
    WalkCounts(names, named, w, files);
    CoversAreCovers(gone);
    PartsAddUp(gone, CoversOf(gone));
    WalkCountsUnknown(names, named, w, files);
    StrangersAreCounted(names);
    WalkSees(names, named, w, files);
    forall hash ensures hash in HashesFound(names) <==> IsFound(names, hash) {
      FoundAreFound(names, hash);
    }
  }

  lemma PartsAddUp(whole: set<string>, part: set<string>)
    requires part <= whole
    ensures |part| + |whole - part| == |whole|
  {
    assert whole == part + (whole - part);
  }

  /** A file goes exactly when it is there, is a cover or a thumbnail of a hash
      no row names, is over an hour old and can be removed. */
  lemma {:induction false} DiscardedIff(names: seq<string>, named: set<string>, files: set<string>, w: Weather, name: string)
    requires name in names && name in files
    ensures name in Discards(names, named, files, w) <==>
            && (exists hash :: hash !in named && (IsCoverName(name, hash) || IsThumbnailName(name, hash)))
            && w.age(name).Some? && w.age(name).value > 3600.0 && !w.refuses(name)
  {
    ClassifiedIsNamed(name);
    forall hash ensures Classify(name) == Cover(hash) <==> IsCoverName(name, hash) {
      ClassifyNames(name, hash);
    }
    forall hash ensures Classify(name) == Thumbnail(hash) <==> IsThumbnailName(name, hash) {
      ClassifyNames(name, hash);
    }
  }
}
