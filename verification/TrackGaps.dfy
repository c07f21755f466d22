/** A gap in a disc's track numbers, found by counting rather than searching
    (src/services/attention.rs). */
module TrackGaps {
  import opened Decimal

  /** A track and what an edit put over its disc and its number. */
  datatype Track = Track(
    album: Option<nat>,
    available: bool,
    disc: Option<int>,
    number: Option<int>,
    editedDisc: Option<int>,
    editedNumber: Option<int>)

  function Coalesce(a: Option<int>, b: Option<int>, otherwise: int): (n: int) {
    if a.Some? then a.value else if b.Some? then b.value else otherwise
  }

  function Disc(t: Track): (disc: int) {
    Coalesce(t.editedDisc, t.disc, 1)
  }

  function Number(t: Track): (number: int) {
    Coalesce(t.editedNumber, t.number, 0)
  }

  /** `other` counts on the disc `t` is on. */
  predicate Counts(other: Track, t: Track) {
    t.album.Some? && other.album == t.album && other.available && Disc(other) == Disc(t) && Number(other) > 0
  }

  /** The numbers the aggregates run over, one a row. */
  function Numbers(tracks: seq<Track>, t: Track): (numbers: seq<int>) {
    if tracks == [] then []
    else
      var rest, last := Numbers(tracks[..|tracks| - 1], t), tracks[|tracks| - 1];
      if Counts(last, t) then rest + [Number(last)] else rest
  }

  function Max(numbers: seq<int>): (m: int)
    requires numbers != []
    ensures m in numbers && forall n | n in numbers :: n <= m
  {
    if |numbers| == 1 then numbers[0]
    else
      var k := |numbers| - 1;
      var before := Max(numbers[..k]);
      assert numbers == numbers[..k] + [numbers[k]];
      if before < numbers[k] then numbers[k] else before
  }

  function Min(numbers: seq<int>): (m: int)
    requires numbers != []
    ensures m in numbers && forall n | n in numbers :: m <= n
  {
    if |numbers| == 1 then numbers[0]
    else
      var k := |numbers| - 1;
      var before := Min(numbers[..k]);
      assert numbers == numbers[..k] + [numbers[k]];
      if before > numbers[k] then numbers[k] else before
  }

  function Distinct(numbers: seq<int>): (s: set<int>) {
    set n | n in numbers
  }

  /** The criterion: over no rows the aggregates are null, which is no gap. */
  predicate HasGap(tracks: seq<Track>, t: Track) {
    var numbers := Numbers(tracks, t);
    numbers != [] && Max(numbers) - Min(numbers) + 1 - |Distinct(numbers)| > 0
  }

  function Between(low: int, high: int): (s: set<int>)
    ensures forall n :: n in s <==> low <= n <= high
    decreases high - low + 1
  {
    if low > high then {} else Between(low, high - 1) + {high}
  }

  lemma {:induction false} BetweenCounts(low: int, high: int)
    requires low <= high + 1
    ensures |Between(low, high)| == high - low + 1
    decreases high - low + 1
  {
    if low <= high {
      BetweenCounts(low, high - 1);
    }
  }

  /** A part of a finite set is smaller exactly when it lacks an element. */
  lemma {:induction false} SmallerIffLacking(part: set<int>, all: set<int>)
    requires part <= all
    ensures |part| < |all| <==> exists n :: n in all && n !in part
  {
    assert all == part + (all - part);
    if exists n :: n in all && n !in part {
      var n :| n in all && n !in part;
      assert n in all - part;
    } else {
      assert all - part == {};
    }
  }

  /** A track's number is the one an edit gave it, or else the one it was read with. */
  predicate HasNumber(t: Track, n: int) {
    t.editedNumber == Some(n) || (t.editedNumber.None? && t.number == Some(n))
  }

  /** Its disc likewise, and the first where there is neither. */
  predicate OnDisc(t: Track, disc: int) {
    || t.editedDisc == Some(disc)
    || (t.editedDisc.None? && t.disc == Some(disc))
    || (t.editedDisc.None? && t.disc.None? && disc == 1)
  }

  /** A track carries a number on the disc of `t` when it can be played, is of the
      same album and that disc, and has it; a number is positive. */
  ghost predicate Carries(other: Track, t: Track, n: int) {
    && t.album.Some? && other.album == t.album && other.available
    && HasNumber(other, n) && n > 0
    && (exists disc :: OnDisc(other, disc) && OnDisc(t, disc))
  }

  ghost predicate Carried(tracks: seq<Track>, t: Track, n: int) {
    exists other :: other in tracks && Carries(other, t, n)
  }

  lemma {:induction false} CarriesIff(other: Track, t: Track, n: int)
    ensures Carries(other, t, n) <==> Counts(other, t) && Number(other) == n
  {
    assert OnDisc(other, Disc(other)) && OnDisc(t, Disc(t));
    assert forall disc :: OnDisc(other, disc) <==> disc == Disc(other);
    assert forall disc :: OnDisc(t, disc) <==> disc == Disc(t);
  }

  lemma {:induction false} NumbersAreCarried(tracks: seq<Track>, t: Track, n: int)
    ensures n in Numbers(tracks, t) <==> Carried(tracks, t, n)
  {
    if tracks != [] {
      var front, last := tracks[..|tracks| - 1], tracks[|tracks| - 1];
      assert tracks == front + [last];
      NumbersAreCarried(front, t, n);
      CarriesIff(last, t, n);
      if Carried(tracks, t, n) {
        var other :| other in tracks && Carries(other, t, n);
        assert other in front || other == last;
      }
    }
  }

  /** Counting finds a gap exactly when a search would: some number lies between
      two that tracks of the disc carry, and none of them carries it. */
  lemma {:induction false} GapIffANumberIsMissing(tracks: seq<Track>, t: Track)
    ensures HasGap(tracks, t) <==>
            exists a, b, n :: Carried(tracks, t, a) && Carried(tracks, t, b) && a < n < b && !Carried(tracks, t, n)
  {
    var numbers := Numbers(tracks, t);
    forall n ensures Carried(tracks, t, n) <==> n in numbers {
      NumbersAreCarried(tracks, t, n);
    }
    if numbers != [] {
      var low, high := Min(numbers), Max(numbers);
      BetweenCounts(low, high);
      SmallerIffLacking(Distinct(numbers), Between(low, high));
      if HasGap(tracks, t) {
        var n :| n in Between(low, high) && n !in Distinct(numbers);
        assert Carried(tracks, t, low) && Carried(tracks, t, high) && low < n < high && !Carried(tracks, t, n);
      }
      if a, b, n :| Carried(tracks, t, a) && Carried(tracks, t, b) && a < n < b && !Carried(tracks, t, n) {
        assert n in Between(low, high) && n !in Distinct(numbers);
      }
    }
  }
}
