/**
  The pool's rate meter: bytes moved are counted in buckets of a quarter of a second, and only
  the last half minute of buckets is kept. The full log of moves is what it stands for.
*/
module PoolMeter {
  import opened Wrappers
  import opened PoolRules

  const MILLISECOND: nat := 1_000_000
  const BUCKET: nat := 250
  /** Buckets in the span of the speed, of the average, and in the time after which nothing moves. */
  const SPEED: nat := 12
  const KEEP: nat := 120
  const STILL: nat := 40
  const AVERAGE_FLOOR: nat := SECOND
  const AVERAGE_SPAN: nat := 30 * SECOND

  /** The bucket of a time since the pool started. */
  function BucketOf(now: nat): nat {
    now / MILLISECOND / BUCKET
  }

  datatype Counts = Counts(down: nat, up: nat)
  {
    function Of(direction: Direction): nat {
      if direction.Down? then down else up
    }

    function Plus(direction: Direction, bytes: nat): Counts {
      if direction.Down? then this.(down := down + bytes) else this.(up := up + bytes)
    }
  }

  const NOTHING: Counts := Counts(0, 0)

  datatype Bucket = Bucket(at: nat, counts: Counts)

  /** Some bytes that went one way, in a bucket's time. */
  datatype Move = Move(direction: Direction, bytes: nat, at: nat)

  // ---------------------------------------------------------------- the trimmed buckets

  function Added(buckets: seq<Bucket>, move: Move): seq<Bucket> {
    if buckets != [] && buckets[|buckets| - 1].at == move.at then
      buckets[|buckets| - 1 := Bucket(move.at, buckets[|buckets| - 1].counts.Plus(move.direction, move.bytes))]
    else
      buckets + [Bucket(move.at, NOTHING.Plus(move.direction, move.bytes))]
  }

  function Trimmed(buckets: seq<Bucket>, bucket: nat): seq<Bucket> {
    if buckets != [] && buckets[0].at + KEEP <= bucket then Trimmed(buckets[1..], bucket) else buckets
  }

  /** A move of nothing counts for nothing. */
  function Metered(buckets: seq<Bucket>, move: Move): seq<Bucket> {
    if move.bytes == 0 then buckets else Trimmed(Added(buckets, move), move.at)
  }

  /** The buckets that a log of moves leaves. */
  function Buckets(log: seq<Move>): seq<Bucket> {
    if log == [] then [] else Metered(Buckets(log[..|log| - 1]), log[|log| - 1])
  }

  /** What is read off the buckets: one way's bytes, and the first and the last bucket that moved any. */
  datatype Reading = Reading(sum: nat, first: Option<nat>, last: nat)

  const NO_READING: Reading := Reading(0, None, 0)

  function Count(reading: Reading, at: nat, bytes: nat): Reading {
    if bytes == 0 then reading
    else Reading(reading.sum + bytes, if reading.first.None? then Some(at) else reading.first, at)
  }

  /** The reading of the buckets less than `span` before `bucket`. */
  function ReadBuckets(buckets: seq<Bucket>, direction: Direction, bucket: nat, span: nat): Reading {
    if buckets == [] then NO_READING
    else
      var last := buckets[|buckets| - 1];
      var before := ReadBuckets(buckets[..|buckets| - 1], direction, bucket, span);
      if last.at + span > bucket then Count(before, last.at, last.counts.Of(direction)) else before
  }

  /** The same reading of the log itself. */
  function ReadLog(log: seq<Move>, direction: Direction, bucket: nat, span: nat): Reading {
    if log == [] then NO_READING
    else
      var last := log[|log| - 1];
      var before := ReadLog(log[..|log| - 1], direction, bucket, span);
      if last.direction == direction && last.at + span > bucket then Count(before, last.at, last.bytes) else before
  }

  // ---------------------------------------------------------------- nothing is lost

  /** The clock never goes back. */
  predicate InTime(log: seq<Move>) {
    forall i, j :: 0 <= i < j < |log| ==> log[i].at <= log[j].at
  }

  predicate Increasing(buckets: seq<Bucket>) {
    forall i, j :: 0 <= i < j < |buckets| ==> buckets[i].at < buckets[j].at
  }

  /** All buckets are of the half minute that ends with `bucket`. */
  predicate Recent(buckets: seq<Bucket>, bucket: nat) {
    forall b <- buckets :: b.at <= bucket < b.at + KEEP
  }

  lemma {:induction false} TrimmedIsRecent(buckets: seq<Bucket>, bucket: nat)
    requires Increasing(buckets) && forall b <- buckets :: b.at <= bucket
    ensures Increasing(Trimmed(buckets, bucket)) && Recent(Trimmed(buckets, bucket), bucket)
  {
    if buckets != [] && buckets[0].at + KEEP <= bucket {
      TrimmedIsRecent(buckets[1..], bucket);
    }
  }

  lemma {:induction false} IncreasingIsShort(buckets: seq<Bucket>, low: nat, high: nat)
    requires Increasing(buckets) && forall b <- buckets :: low <= b.at < high
    requires low <= high
    ensures |buckets| <= high - low
    decreases |buckets|
  {
    if buckets != [] {
      assert buckets[0] in buckets;
      forall b <- buckets[1..]
        ensures buckets[0].at + 1 <= b.at
      {
        var i: nat :| i < |buckets[1..]| && buckets[1..][i] == b;
        assert b == buckets[i + 1];
      }
      IncreasingIsShort(buckets[1..], buckets[0].at + 1, high);
    }
  }

  lemma AddedIsIncreasing(buckets: seq<Bucket>, move: Move)
    requires Increasing(buckets) && forall b <- buckets :: b.at <= move.at
    ensures Increasing(Added(buckets, move)) && forall b <- Added(buckets, move) :: b.at <= move.at
  {
    if buckets != [] {
      assert buckets[|buckets| - 1] in buckets;
    }
  }

  /** Of a log kept in time: at most 120 buckets of strictly increasing numbers, none too old. */
  lemma {:induction false} BucketsAreRecent(log: seq<Move>)
    requires InTime(log)
    ensures var buckets := Buckets(log);
            && Increasing(buckets) && |buckets| <= KEEP
            && forall b <- buckets :: exists m <- log :: m.at == b.at
  {
    if log != [] {
      var before, last := log[..|log| - 1], log[|log| - 1];
      BucketsAreRecent(before);
      if last.bytes > 0 {
        forall b <- Buckets(before)
          ensures b.at <= last.at
        {
          var m :| m in before && m.at == b.at;
        }
        AddedIsIncreasing(Buckets(before), last);
        TrimmedIsRecent(Added(Buckets(before), last), last.at);
        TrimmedIsPart(Added(Buckets(before), last), last.at);
        AddedAre(Buckets(before), last);
        IncreasingIsShort(Buckets(log), if last.at + 1 < KEEP then 0 else last.at + 1 - KEEP, last.at + 1);
      }
      BucketsAreMoves(log);
    }
  }

  lemma {:induction false} TrimmedIsPart(buckets: seq<Bucket>, bucket: nat)
    ensures forall b <- Trimmed(buckets, bucket) :: b in buckets
  {
    if buckets != [] && buckets[0].at + KEEP <= bucket {
      TrimmedIsPart(buckets[1..], bucket);
    }
  }

  lemma AddedAre(buckets: seq<Bucket>, move: Move)
    ensures forall b <- Added(buckets, move) :: b in buckets || b.at == move.at
  {
  }

  lemma {:induction false} BucketsAreMoves(log: seq<Move>)
    ensures forall b <- Buckets(log) :: exists m <- log :: m.at == b.at
  {
    if log != [] {
      var before, last := log[..|log| - 1], log[|log| - 1];
      BucketsAreMoves(before);
      AddedAre(Buckets(before), last);
      TrimmedIsPart(Added(Buckets(before), last), last.at);
      forall b <- Buckets(log)
        ensures exists m <- log :: m.at == b.at
      {
        assert last in log;
        if b in Buckets(before) {
          var m :| m in before && m.at == b.at;
          assert m in log;
        }
      }
    }
  }

  lemma {:induction false} ReadWithoutFirst(buckets: seq<Bucket>, direction: Direction, bucket: nat, span: nat)
    requires buckets != [] && buckets[0].at + span <= bucket
    ensures ReadBuckets(buckets[1..], direction, bucket, span) == ReadBuckets(buckets, direction, bucket, span)
    decreases |buckets|
  {
    if |buckets| > 1 {
      var front := buckets[..|buckets| - 1];
      ReadWithoutFirst(front, direction, bucket, span);
      assert buckets[1..][..|buckets[1..]| - 1] == front[1..];
    } else {
      assert buckets[..0] == [];
    }
  }

  /** What is trimmed is in no window that ends now or later. */
  lemma {:induction false} ReadTrimmed(buckets: seq<Bucket>, at: nat, direction: Direction, bucket: nat, span: nat)
    requires at <= bucket && span <= KEEP
    ensures ReadBuckets(Trimmed(buckets, at), direction, bucket, span) == ReadBuckets(buckets, direction, bucket, span)
  {
    if buckets != [] && buckets[0].at + KEEP <= at {
      ReadWithoutFirst(buckets, direction, bucket, span);
      ReadTrimmed(buckets[1..], at, direction, bucket, span);
    }
  }

  lemma ReadAdded(buckets: seq<Bucket>, move: Move, direction: Direction, bucket: nat, span: nat)
    requires move.bytes > 0
    ensures ReadBuckets(Added(buckets, move), direction, bucket, span) ==
            var before := ReadBuckets(buckets, direction, bucket, span);
            if move.direction == direction && move.at + span > bucket then Count(before, move.at, move.bytes) else before
  {
    var added := Added(buckets, move);
    if buckets != [] && buckets[|buckets| - 1].at == move.at {
      assert added[..|added| - 1] == buckets[..|buckets| - 1];
    } else {
      assert added[..|added| - 1] == buckets;
    }
  }

  /**
    The meter loses nothing: in any window of at most half a minute that ends now or later, the
    trimmed buckets give the same bytes and the same first and last active bucket as the log.
  */
  lemma {:induction false} BucketsReadAsLog(log: seq<Move>, direction: Direction, bucket: nat, span: nat)
    requires InTime(log) && span <= KEEP
    requires forall m <- log :: m.at <= bucket
    ensures ReadBuckets(Buckets(log), direction, bucket, span) == ReadLog(log, direction, bucket, span)
  {
    if log != [] {
      var before, last := log[..|log| - 1], log[|log| - 1];
      BucketsReadAsLog(before, direction, bucket, span);
      if last.bytes > 0 {
        ReadTrimmed(Added(Buckets(before), last), last.at, direction, bucket, span);
        ReadAdded(Buckets(before), last, direction, bucket, span);
      }
    }
  }

  // ---------------------------------------------------------------- what the log's reading says

  /** A move that counts in a window: it went this way, moved something, and not too long ago. */
  predicate CountsIn(move: Move, direction: Direction, bucket: nat, span: nat) {
    move.direction == direction && move.bytes > 0 && move.at + span > bucket
  }

  /** Some move that counts is in this bucket. */
  predicate Counted(log: seq<Move>, direction: Direction, bucket: nat, span: nat, at: nat) {
    exists m <- log :: CountsIn(m, direction, bucket, span) && m.at == at
  }

  /** The first and the last of the reading are the least and the greatest bucket of the moves that count. */
  predicate Bounds(log: seq<Move>, direction: Direction, bucket: nat, span: nat, reading: Reading) {
    && (reading.first.None? ==> forall m <- log :: !CountsIn(m, direction, bucket, span))
    && (reading.first.Some? ==>
          && Counted(log, direction, bucket, span, reading.first.value)
          && Counted(log, direction, bucket, span, reading.last)
          && (forall m <- log :: CountsIn(m, direction, bucket, span) ==> reading.first.value <= m.at <= reading.last))
  }

  lemma CountedStays(log: seq<Move>, last: Move, direction: Direction, bucket: nat, span: nat, at: nat)
    requires Counted(log, direction, bucket, span, at)
    ensures Counted(log + [last], direction, bucket, span, at)
  {
    var m :| m in log && CountsIn(m, direction, bucket, span) && m.at == at;
    assert m in log + [last];
  }

  lemma LastCounts(log: seq<Move>, last: Move, direction: Direction, bucket: nat, span: nat)
    requires CountsIn(last, direction, bucket, span)
    ensures Counted(log + [last], direction, bucket, span, last.at)
  {
    assert last in log + [last];
  }

  lemma BoundsStep(log: seq<Move>, last: Move, direction: Direction, bucket: nat, span: nat, was: Reading)
    requires Bounds(log, direction, bucket, span, was) && forall m <- log :: m.at <= last.at
    ensures Bounds(log + [last], direction, bucket, span, if CountsIn(last, direction, bucket, span) then Count(was, last.at, last.bytes) else was)
  {
    if was.first.Some? {
      FirstIsEarlier(log, last, direction, bucket, span, was.first.value);
      CountedStays(log, last, direction, bucket, span, was.first.value);
      CountedStays(log, last, direction, bucket, span, was.last);
    }
    if CountsIn(last, direction, bucket, span) {
      LastCounts(log, last, direction, bucket, span);
    }
    hide Counted, CountsIn;
  }

  lemma FirstIsEarlier(log: seq<Move>, last: Move, direction: Direction, bucket: nat, span: nat, at: nat)
    requires Counted(log, direction, bucket, span, at) && forall m <- log :: m.at <= last.at
    ensures at <= last.at
  {
  }

  lemma {:induction false} FirstAndLastAreBounds(log: seq<Move>, direction: Direction, bucket: nat, span: nat)
    requires InTime(log)
    ensures Bounds(log, direction, bucket, span, ReadLog(log, direction, bucket, span))
  {
    if log != [] {
      var before, last := log[..|log| - 1], log[|log| - 1];
      FirstAndLastAreBounds(before, direction, bucket, span);
      assert log == before + [last];
      BoundsStep(before, last, direction, bucket, span, ReadLog(before, direction, bucket, span));
      hide Bounds;
    }
  }

  /** What an average is taken of: the bytes, and the time they took. */
  datatype Average = Average(bytes: nat, time: nat)

  /** No average once nothing has moved for a while; else the bytes of the last half minute, or of the run when it began within it. */
  function AverageFrom(reading: Reading, now: nat): Option<Average> {
    if reading.first.None? || reading.last + STILL <= BucketOf(now) then None
    else
      var began := reading.first.value * BUCKET * MILLISECOND;
      var passed := if now >= began then now - began else 0;
      Some(Average(reading.sum, Clamp(passed, AVERAGE_FLOOR, AVERAGE_SPAN)))
  }

  /** The bytes that went one way in the buckets after this one. */
  function BytesAfter(log: seq<Move>, direction: Direction, bucket: int): nat {
    if log == [] then 0
    else
      var last := log[|log| - 1];
      BytesAfter(log[..|log| - 1], direction, bucket) + if last.direction == direction && last.at > bucket then last.bytes else 0
  }

  lemma {:induction false} SumIsBytes(log: seq<Move>, direction: Direction, bucket: nat, span: nat)
    ensures ReadLog(log, direction, bucket, span).sum == BytesAfter(log, direction, bucket - span)
  {
    if log != [] {
      SumIsBytes(log[..|log| - 1], direction, bucket, span);
    }
  }

  /** Some bytes went this way in the last so many buckets of a quarter of a second. */
  predicate WentLately(move: Move, direction: Direction, now: nat, buckets: nat) {
    move.direction == direction && move.bytes > 0 && move.at + buckets > now / 250_000_000
  }

  /**
    None exactly when nothing went this way for ten seconds; else the bytes of the last half minute,
    and the time since the first of them began, a second at the least and half a minute at the most.
  */
  ghost predicate IsAverageOf(log: seq<Move>, direction: Direction, now: nat, average: Option<Average>) {
    && (average.None? <==> forall m <- log :: !WentLately(m, direction, now, 40))
    && (average.Some? ==>
          && average.value.bytes == BytesAfter(log, direction, now / 250_000_000 - 120)
          && exists first <- log ::
               && WentLately(first, direction, now, 120) && (forall m <- log :: WentLately(m, direction, now, 120) ==> first.at <= m.at)
               && average.value.time == if now - 250_000_000 * first.at < 1_000_000_000 then 1_000_000_000 else now - 250_000_000 * first.at)
    && (average.Some? ==> average.value.time <= 30_000_000_000)
  }

  lemma WentIsCounted(move: Move, direction: Direction, now: nat, buckets: nat)
    ensures WentLately(move, direction, now, buckets) <==> CountsIn(move, direction, BucketOf(now), buckets)
    ensures BucketOf(now) == now / 250_000_000
  {
  }

  /**
    The average that the trimmed buckets give is the one of the log, and there is none exactly
    when nothing has moved this way in the last ten seconds' buckets.
  */
  lemma AverageIsOfTheLog(log: seq<Move>, direction: Direction, now: nat)
    requires InTime(log) && forall m <- log :: m.at <= BucketOf(now)
    ensures var average := AverageFrom(ReadBuckets(Buckets(log), direction, BucketOf(now), KEEP), now);
            && average == AverageFrom(ReadLog(log, direction, BucketOf(now), KEEP), now)
            && IsAverageOf(log, direction, now, average)
  {
    hide IsAverageOf, BytesAfter, WentLately, CountsIn, AverageFrom, ReadBuckets, Buckets, ReadLog;
    BucketsReadAsLog(log, direction, BucketOf(now), KEEP);
    NoneLately(log, direction, now);
    SumIsBytes(log, direction, BucketOf(now), KEEP);
    if AverageFrom(ReadLog(log, direction, BucketOf(now), KEEP), now).Some? {
      SomeIsAverage(log, direction, now);
    } else {
      NoneIsAverage(log, direction, now, AverageFrom(ReadLog(log, direction, BucketOf(now), KEEP), now));
    }
  }

  lemma NoneIsAverage(log: seq<Move>, direction: Direction, now: nat, average: Option<Average>)
    requires average.None? && forall m <- log :: !WentLately(m, direction, now, 40)
    ensures IsAverageOf(log, direction, now, average)
  {
  }

  lemma SomeIsAverage(log: seq<Move>, direction: Direction, now: nat)
    requires InTime(log) && (forall m <- log :: m.at <= BucketOf(now)) && !forall m <- log :: !WentLately(m, direction, now, 40)
    requires var reading := ReadLog(log, direction, BucketOf(now), KEEP);
             AverageFrom(reading, now).Some? && reading.sum == BytesAfter(log, direction, BucketOf(now) - KEEP)
    ensures IsAverageOf(log, direction, now, AverageFrom(ReadLog(log, direction, BucketOf(now), KEEP), now))
  {
    hide BytesAfter, ReadLog;
    var reading := ReadLog(log, direction, BucketOf(now), KEEP);
    FirstAndLastAreBounds(log, direction, BucketOf(now), KEEP);
    forall m: Move
      ensures WentLately(m, direction, now, 120) <==> CountsIn(m, direction, BucketOf(now), KEEP)
      ensures BucketOf(now) == now / 250_000_000
    {
      WentIsCounted(m, direction, now, 120);
    }
    hide CountsIn, WentLately;
    assert Counted(log, direction, BucketOf(now), KEEP, reading.first.value);
    var first :| first in log && CountsIn(first, direction, BucketOf(now), KEEP) && first.at == reading.first.value;
    assert AverageFrom(reading, now).value.time == if now - 250_000_000 * first.at < 1_000_000_000 then 1_000_000_000 else now - 250_000_000 * first.at;
  }

  lemma NoneLately(log: seq<Move>, direction: Direction, now: nat)
    requires InTime(log) && forall m <- log :: m.at <= BucketOf(now)
    ensures AverageFrom(ReadLog(log, direction, BucketOf(now), KEEP), now).None? <==> forall m <- log :: !WentLately(m, direction, now, 40)
  {
    forall m: Move
      ensures WentLately(m, direction, now, 40) <==> CountsIn(m, direction, BucketOf(now), STILL)
    {
      WentIsCounted(m, direction, now, 40);
    }
    hide WentLately;
    NoneCountsIff(log, direction, now);
  }

  lemma NoneCountsIff(log: seq<Move>, direction: Direction, now: nat)
    requires InTime(log) && forall m <- log :: m.at <= BucketOf(now)
    ensures AverageFrom(ReadLog(log, direction, BucketOf(now), KEEP), now).None? <==> forall m <- log :: !CountsIn(m, direction, BucketOf(now), STILL)
  {
    FirstAndLastAreBounds(log, direction, BucketOf(now), KEEP);
    var reading := ReadLog(log, direction, BucketOf(now), KEEP);
    if reading.first.Some? {
      assert Counted(log, direction, BucketOf(now), KEEP, reading.last);
      var n :| n in log && CountsIn(n, direction, BucketOf(now), KEEP) && n.at == reading.last;
      forall m <- log
        ensures CountsIn(m, direction, BucketOf(now), STILL) ==> reading.last + STILL > BucketOf(now)
      {
        assert CountsIn(m, direction, BucketOf(now), STILL) ==> CountsIn(m, direction, BucketOf(now), KEEP);
      }
      if reading.last + STILL > BucketOf(now) {
        assert CountsIn(n, direction, BucketOf(now), STILL);
      }
    } else {
      forall m <- log
        ensures !CountsIn(m, direction, BucketOf(now), STILL)
      {
        assert !CountsIn(m, direction, BucketOf(now), KEEP);
      }
    }
  }
}
