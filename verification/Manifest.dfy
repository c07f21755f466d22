/** The manifest of a release channel, which only moves forward
    (scripts/release/channel-manifest.py). */
module Manifest {
  import opened Decimal
  import opened Semver

  datatype Decision =
    | NotATag
    | NotAVersion
    | UnreadableManifest
    | Kept
    | Published(version: string)

  /** What one run makes of a tag and of the version already published. */
  function Decide(tag: string, current: Option<string>): (d: Decision) {
    if tag == [] || tag[0] != 'v' then NotATag
    else if !IsVersion(tag[1..]) then NotAVersion
    else if current.None? then Published(tag[1..])
    else
      match Compare(current.value, tag[1..])
      case None => UnreadableManifest
      case Some(sign) => if sign > 0 then Kept else Published(tag[1..])
  }

  function Next(tag: string, current: Option<string>): (r: Option<string>) {
    match Decide(tag, current)
    case Published(version) => Some(version)
    case _ => current
  }

  /** What a channel publishes after a run for each tag, from nothing. */
  function Channel(tags: seq<string>): (current: Option<string>) {
    if tags == [] then None else Next(tags[|tags| - 1], Channel(tags[..|tags| - 1]))
  }

  predicate Attempt(tag: string) {
    tag != [] && tag[0] == 'v' && IsVersion(tag[1..])
  }

  /** The version at `i` was attempted last among the highest of all attempts. */
  ghost predicate LatestMaximum(tags: seq<string>, i: nat) {
    && i < |tags| && Attempt(tags[i])
    && (forall j | 0 <= j < i && Attempt(tags[j]) :: Compare(tags[j][1..], tags[i][1..]).value <= 0)
    && (forall j | i < j < |tags| && Attempt(tags[j]) :: Compare(tags[j][1..], tags[i][1..]).value < 0)
  }

  lemma {:induction false} Supersedes(tags: seq<string>, i: nat, tag: string)
    requires LatestMaximum(tags, i) && Attempt(tag) && Compare(tags[i][1..], tag[1..]).value <= 0
    ensures LatestMaximum(tags + [tag], |tags|)
  {
    forall j | 0 <= j < |tags| && Attempt(tags[j]) ensures Compare(tags[j][1..], tag[1..]).value <= 0 {
      CompareIsTotal(tags[j][1..], tags[i][1..]);
      CompareIsTransitive(tags[j][1..], tags[i][1..], tag[1..]);
    }
  }

  lemma {:induction false} Stays(tags: seq<string>, i: nat, tag: string)
    requires LatestMaximum(tags, i)
    requires Attempt(tag) ==> Compare(tags[i][1..], tag[1..]).value > 0
    ensures LatestMaximum(tags + [tag], i)
  {
    if Attempt(tag) {
      CompareIsTotal(tags[i][1..], tag[1..]);
    }
  }

  lemma {:induction false} OneMoreRun(before: seq<string>, i: nat, tag: string) returns (k: nat)
    requires LatestMaximum(before, i) && Channel(before) == Some(before[i][1..])
    ensures LatestMaximum(before + [tag], k) && Channel(before + [tag]) == Some((before + [tag])[k][1..])
  {
    assert (before + [tag])[..|before|] == before;
    if Attempt(tag) {
      CompareIsTotal(before[i][1..], tag[1..]);
    }
    if Attempt(tag) && Compare(before[i][1..], tag[1..]).value <= 0 {
      Supersedes(before, i, tag);
      k := |before|;
    } else {
      Stays(before, i, tag);
      k := i;
    }
  }

  /** Over every history: nothing is published exactly while no tag named a
      version, and what is published is the latest of the highest attempts. */
  lemma {:induction false} PublishesTheLatestMaximum(tags: seq<string>)
    ensures Channel(tags).None? <==> forall i | 0 <= i < |tags| :: !Attempt(tags[i])
    ensures Channel(tags).Some? ==> exists i: nat :: LatestMaximum(tags, i) && Channel(tags) == Some(tags[i][1..])
  {
    if tags != [] {
      var n := |tags| - 1;
      var before, tag := tags[..n], tags[n];
      assert tags == before + [tag];
      PublishesTheLatestMaximum(before);
      if Channel(before).Some? {
        var i: nat :| LatestMaximum(before, i) && Channel(before) == Some(before[i][1..]);
        var k := OneMoreRun(before, i, tag);
      } else if Attempt(tag) {
        assert LatestMaximum(tags, n);
      }
    }
  }

  /** A channel that publishes never goes back: however many runs follow, the
      version is at least as high. */
  lemma {:induction false} NeverGoesBack(tags: seq<string>, more: seq<string>)
    requires Channel(tags).Some?
    ensures IsVersion(Channel(tags).value)
    ensures Channel(tags + more).Some? && IsVersion(Channel(tags + more).value)
    ensures Compare(Channel(tags).value, Channel(tags + more).value).value <= 0
  {
    PublishesTheLatestMaximum(tags);
    PublishesTheLatestMaximum(tags + more);
    var i: nat :| LatestMaximum(tags, i) && Channel(tags) == Some(tags[i][1..]);
    assert (tags + more)[i] == tags[i];
    assert Attempt((tags + more)[i]);
    var j: nat :| LatestMaximum(tags + more, j) && Channel(tags + more) == Some((tags + more)[j][1..]);
    AtMostTheMaximum(tags + more, i, j);
  }

  lemma {:induction false} AtMostTheMaximum(tags: seq<string>, i: nat, j: nat)
    requires i < |tags| && Attempt(tags[i]) && LatestMaximum(tags, j)
    ensures Compare(tags[i][1..], tags[j][1..]).value <= 0
  {
    CompareIsTotal(tags[i][1..], tags[j][1..]);
  }

  /** A run keeps what is published exactly when its own version is lower, so a
      retry of the same version goes through; no run finds it unreadable. */
  lemma {:induction false} KeptIffNewer(tags: seq<string>, tag: string)
    ensures Decide(tag, Channel(tags)) != UnreadableManifest
    ensures Decide(tag, Channel(tags)).Kept? <==>
            && Channel(tags).Some? && Attempt(tag)
            && Compare(tag[1..], Channel(tags).value) == Some(-1)
  {
    PublishesTheLatestMaximum(tags);
    if Channel(tags).Some? && Attempt(tag) {
      CompareIsTotal(tag[1..], Channel(tags).value);
    }
  }
}
