// The map from source time stamps to version numbers shared by all accessors.
//
// A version number is a fresh number, larger than all before, with a point in time attached. Other parts of the
// program create version numbers too, so a request may find the counter advanced.
module VersionMapper {
  import opened Common

  const MAX_ENTRIES: nat := 2000
  const UNIX_EPOCH: int := 116_444_736_000_000_000
  const TWO_63: int := 0x8000_0000_0000_0000

  // Two's complement 64-bit result.
  function Wrap64(x: int): int { (x + TWO_63) % (2 * TWO_63) - TWO_63 }

  function TimePoint(ts: int): int { Wrap64(Wrap64(ts - UNIX_EPOCH) * 100) }

  datatype Version = Version(number: nat, time: int)

  datatype Mapper = Mapper(entries: map<int, Version>, nextNumber: nat)

  datatype Request = Request(ts: int, skipped: nat)

  const EMPTY: Mapper := Mapper(map[], 0)

  predicate IsSmallest(t: int, s: set<int>) {
    t in s && forall u :: u in s ==> t <= u
  }

  lemma SmallestExists(s: set<int>)
    requires s != {}
    ensures exists t :: IsSmallest(t, s)
  {
    var t := Pick(s);
    if s == {t} {
      assert IsSmallest(t, s);
    } else {
      SmallestExists(s - {t});
      var u :| IsSmallest(u, s - {t});
      var m := if t < u then t else u;
      assert forall v :: v in s ==> v == t || v in s - {t};
      assert IsSmallest(m, s);
    }
  }

  ghost function Smallest(s: set<int>): (t: int)
    requires s != {}
    ensures IsSmallest(t, s)
  {
    SmallestExists(s);
    var t :| IsSmallest(t, s);
    t
  }

  ghost function Room(entries: map<int, Version>): map<int, Version> {
    if |entries| == MAX_ENTRIES then entries - {Smallest(entries.Keys)} else entries
  }

  // The state after a request.
  ghost function Get(m: Mapper, q: Request): Mapper {
    var number := m.nextNumber + q.skipped;
    if q.ts in m.entries then m.(nextNumber := number)
    else Mapper(Room(m.entries)[q.ts := Version(number, TimePoint(q.ts))], number + 1)
  }

  // The version it returns.
  ghost function Answer(m: Mapper, q: Request): (v: Version)
    ensures q.ts in Get(m, q).entries && v == Get(m, q).entries[q.ts]
  {
    if q.ts in m.entries then m.entries[q.ts] else Version(m.nextNumber + q.skipped, TimePoint(q.ts))
  }

  // ----- what always holds -----

  ghost predicate Valid(m: Mapper) {
    && |m.entries| <= MAX_ENTRIES
    && (forall t :: t in m.entries ==> m.entries[t].number < m.nextNumber && m.entries[t].time == TimePoint(t))
    && (forall t, u :: t in m.entries && u in m.entries && t != u ==> m.entries[t].number != m.entries[u].number)
  }

  lemma RoomSize(entries: map<int, Version>)
    requires |entries| <= MAX_ENTRIES
    ensures |Room(entries)| < MAX_ENTRIES
    ensures forall t :: t in Room(entries) ==> t in entries && Room(entries)[t] == entries[t]
  {
  }

  lemma GetKeepsValid(m: Mapper, q: Request)
    requires Valid(m)
    ensures Valid(Get(m, q))
  {
  }

  ghost function Run(m: Mapper, qs: seq<Request>): Mapper {
    if qs == [] then m else Get(Run(m, qs[..|qs| - 1]), qs[|qs| - 1])
  }

  // Along every run the map keeps at most 2000 entries and different time stamps keep different versions.
  lemma {:induction false} RunValid(qs: seq<Request>)
    ensures Valid(Run(EMPTY, qs))
  {
    if qs == [] {
    } else {
      RunValid(qs[..|qs| - 1]);
      GetKeepsValid(Run(EMPTY, qs[..|qs| - 1]), qs[|qs| - 1]);
    }
  }

  // ----- eviction -----

  // A request drops an older entry exactly when it brings a new time stamp into a full map and the entry has the
  // smallest one; the new time stamp need not be larger.
  lemma EvictedExactly(m: Mapper, q: Request, t: int)
    requires t in m.entries && t != q.ts
    ensures t !in Get(m, q).entries <==> q.ts !in m.entries && |m.entries| == MAX_ENTRIES && IsSmallest(t, m.entries.Keys)
    ensures t in Get(m, q).entries ==> Get(m, q).entries[t] == m.entries[t]
  {
  }

  ghost function Greater(qs: seq<Request>, t: int): set<int> {
    set i | 0 <= i < |qs| && qs[i].ts > t :: qs[i].ts
  }

  ghost predicate Requested(m: Mapper, qs: seq<Request>) {
    forall t :: t in m.entries ==> exists i :: 0 <= i < |qs| && qs[i].ts == t
  }

  lemma {:induction false} OnlyRequested(qs: seq<Request>)
    ensures Requested(Run(EMPTY, qs), qs)
  {
    if qs != [] {
      var before := qs[..|qs| - 1];
      OnlyRequested(before);
      RunValid(before);
      RoomSize(Run(EMPTY, before).entries);
      forall t | t in Run(EMPTY, qs).entries ensures exists i :: 0 <= i < |qs| && qs[i].ts == t {
        if t == qs[|qs| - 1].ts {
          assert qs[|qs| - 1].ts == t;
        } else {
          var i :| 0 <= i < |before| && before[i].ts == t;
          assert qs[i].ts == t;
        }
      }
    }
  }

  lemma SmallestOfFull(m: Mapper, qs: seq<Request>, t: int)
    requires Requested(m, qs) && |m.entries| == MAX_ENTRIES && IsSmallest(t, m.entries.Keys)
    ensures |Greater(qs, t)| >= MAX_ENTRIES - 1
  {
    var others := m.entries.Keys - {t};
    assert |others| == MAX_ENTRIES - 1;
    forall u | u in others ensures u in Greater(qs, t) {
      var i :| 0 <= i < |qs| && qs[i].ts == u;
    }
    SubsetSize(others, Greater(qs, t));
  }

  lemma {:induction false} Retained(qs: seq<Request>, j: nat, t: int, i: nat)
    requires i < j <= |qs| && qs[i].ts == t && |Greater(qs, t)| < MAX_ENTRIES - 1
    ensures t in Run(EMPTY, qs[..j]).entries
    ensures Run(EMPTY, qs[..j]).entries[t] == Answer(Run(EMPTY, qs[..i]), qs[i])
  {
    var m := Run(EMPTY, qs[..j - 1]);
    assert qs[..j][..j - 1] == qs[..j - 1];
    if i == j - 1 {
    } else {
      Retained(qs, j - 1, t, i);
      if t != qs[j - 1].ts {
        EvictedExactly(m, qs[j - 1], t);
        if t !in Get(m, qs[j - 1]).entries {
          OnlyRequested(qs[..j - 1]);
          SmallestOfFull(m, qs[..j - 1], t);
          SubsetSize(Greater(qs[..j - 1], t), Greater(qs, t));
        }
      }
    }
  }

  // If fewer than 1999 different larger time stamps are ever requested, all requests for t give one version.
  lemma StableVersion(qs: seq<Request>, t: int, i: nat, j: nat)
    requires i <= j < |qs| && qs[i].ts == t && qs[j].ts == t && |Greater(qs, t)| < MAX_ENTRIES - 1
    ensures Answer(Run(EMPTY, qs[..j]), qs[j]) == Answer(Run(EMPTY, qs[..i]), qs[i])
  {
    if i < j {
      Retained(qs, j, t, i);
    }
  }

  // Different time stamps never share a version, not even after eviction.
  lemma {:induction false} NumbersGrow(qs: seq<Request>, i: nat, j: nat)
    requires i <= j <= |qs|
    ensures Run(EMPTY, qs[..i]).nextNumber <= Run(EMPTY, qs[..j]).nextNumber
  {
    if i == j {
    } else {
      assert qs[..j][..j - 1] == qs[..j - 1];
      NumbersGrow(qs, i, j - 1);
    }
  }

  lemma AnswerBelow(m: Mapper, q: Request)
    requires Valid(m)
    ensures Answer(m, q).number < Get(m, q).nextNumber
  {
  }

  // An entry after a request was there before, or is the one just made.
  lemma EntryOrigin(m: Mapper, q: Request, t: int)
    requires Valid(m) && t in Get(m, q).entries
    ensures if t in m.entries then Get(m, q).entries[t] == m.entries[t]
            else t == q.ts && Get(m, q).entries[t].number == m.nextNumber + q.skipped
  {
  }

  lemma {:induction false} NumberKeepsStamp(qs: seq<Request>, i: nat, j: nat, t: int)
    requires i < j <= |qs| && t in Run(EMPTY, qs[..j]).entries
    requires Run(EMPTY, qs[..j]).entries[t].number == Answer(Run(EMPTY, qs[..i]), qs[i]).number
    ensures t == qs[i].ts
  {
    hide TimePoint, Valid, Get, Answer;
    assert qs[..j][..j - 1] == qs[..j - 1];
    var m, q := Run(EMPTY, qs[..j - 1]), qs[j - 1];
    RunValid(qs[..j - 1]);
    EntryOrigin(m, q, t);
    if i == j - 1 {
      AnswerOnce(m, q, t);
    } else {
      assert qs[..i + 1][..i] == qs[..i];
      RunValid(qs[..i]);
      AnswerBelow(Run(EMPTY, qs[..i]), qs[i]);
      NumbersGrow(qs, i + 1, j - 1);
      NumberKeepsStamp(qs, i, j - 1, t);
    }
  }

  lemma AnswerOnce(m: Mapper, q: Request, t: int)
    requires Valid(m) && t in Get(m, q).entries && Get(m, q).entries[t].number == Answer(m, q).number
    ensures t == q.ts
  {
  }

  // Two requests that get the same version had the same time stamp.
  lemma SameVersionSameStamp(qs: seq<Request>, i: nat, j: nat)
    requires i < j < |qs|
    requires Answer(Run(EMPTY, qs[..i]), qs[i]).number == Answer(Run(EMPTY, qs[..j]), qs[j]).number
    ensures qs[i].ts == qs[j].ts
  {
    hide TimePoint, Valid, Get, Answer;
    assert qs[..j + 1][..j] == qs[..j];
    NumberKeepsStamp(qs, i, j + 1, qs[j].ts);
  }

  // ----- 1999 is the exact bound -----

  function Interval(lo: int, n: nat): (s: set<int>)
    ensures forall k :: k in s <==> lo <= k < lo + n
    ensures |s| == n
  {
    if n == 0 then {} else Interval(lo, n - 1) + {lo + n - 1}
  }

  function Upwards(t: int, n: nat): seq<Request> {
    if n == 0 then [] else Upwards(t, n - 1) + [Request(t + n - 1, 0)]
  }

  lemma {:induction false} UpwardsAt(t: int, n: nat)
    ensures |Upwards(t, n)| == n
    ensures forall i :: 0 <= i < n ==> Upwards(t, n)[i] == Request(t + i, 0)
  {
    if n == 0 {
    } else {
      UpwardsAt(t, n - 1);
    }
  }

  ghost predicate Filled(m: Mapper, t: int, n: nat) {
    && m.entries.Keys == Interval(t, n) && |m.entries| == n == m.nextNumber
    && (n > 0 ==> t in m.entries && m.entries[t] == Version(0, TimePoint(t)))
  }

  lemma FillOne(m: Mapper, t: int, n: nat)
    requires Filled(m, t, n) && n < MAX_ENTRIES
    ensures Filled(Get(m, Request(t + n, 0)), t, n + 1)
  {
  }

  lemma FillNone(t: int)
    ensures Filled(EMPTY, t, 0)
  {
  }

  lemma {:induction false} UpwardsFills(t: int, n: nat)
    requires n <= MAX_ENTRIES
    ensures Filled(Run(EMPTY, Upwards(t, n)), t, n)
  {
    hide Get, Filled, TimePoint, Interval;
    if n == 0 {
      FillNone(t);
    } else {
      UpwardsFills(t, n - 1);
      UpwardsAt(t, n - 1);
      assert Upwards(t, n)[..n - 1] == Upwards(t, n - 1);
      FillOne(Run(EMPTY, Upwards(t, n - 1)), t, n - 1);
    }
  }

  // With 1999 larger time stamps the version can change: a request for t - 1 evicts t.
  lemma UnstableAtBound(t: int)
    ensures var qs := Upwards(t, MAX_ENTRIES) + [Request(t - 1, 0)];
            && qs[0].ts == t
            && |Greater(qs, t)| == MAX_ENTRIES - 1
            && Answer(Run(EMPTY, qs), Request(t, 0)) != Answer(Run(EMPTY, []), qs[0])
  {
    UpwardsFills(t, MAX_ENTRIES);
    UpwardsAt(t, MAX_ENTRIES);
    var full := Upwards(t, MAX_ENTRIES);
    var qs := full + [Request(t - 1, 0)];
    assert qs[..MAX_ENTRIES] == full;
    var m := Run(EMPTY, full);
    assert IsSmallest(t, m.entries.Keys);
    EvictedExactly(m, Request(t - 1, 0), t);
    GreaterUpwards(t);
  }

  lemma GreaterUpwards(t: int)
    ensures |Greater(Upwards(t, MAX_ENTRIES) + [Request(t - 1, 0)], t)| == MAX_ENTRIES - 1
  {
    UpwardsFills(t, MAX_ENTRIES);
    UpwardsAt(t, MAX_ENTRIES);
    var qs := Upwards(t, MAX_ENTRIES) + [Request(t - 1, 0)];
    forall k | k in Interval(t + 1, MAX_ENTRIES - 1) ensures k in Greater(qs, t) {
      assert qs[k - t].ts == k;
    }
    assert Greater(qs, t) == Interval(t + 1, MAX_ENTRIES - 1);
  }

  // ----- the point in time -----

  // The point in time is exact precisely when the distance from 1970 fits into 64-bit nanoseconds.
  lemma TimePointExact(ts: int)
    requires -TWO_63 <= ts < TWO_63
    ensures TimePoint(ts) == (ts - UNIX_EPOCH) * 100
       <==> -92_233_720_368_547_758 <= ts - UNIX_EPOCH <= 92_233_720_368_547_758
  {
  }

  // A value without a source time stamp carries 0, which is outside.
  lemma MissingStampWraps()
    ensures TimePoint(0) != (0 - UNIX_EPOCH) * 100
  {
  }

  // ----- the class -----

  class VersionMap {
    var versionMap: map<int, Version>
    var nextNumber: nat

    ghost function Model(): Mapper
      reads this
    {
      Mapper(versionMap, nextNumber)
    }

    constructor ()
      ensures Model() == EMPTY
    {
      versionMap := map[];
      nextNumber := 0;
    }

    method GetVersion(timeStamp: int, skipped: nat) returns (version: Version)
      modifies this
      ensures Model() == Get(old(Model()), Request(timeStamp, skipped))
      ensures version == Answer(old(Model()), Request(timeStamp, skipped))
    {
      nextNumber := nextNumber + skipped;
      if timeStamp !in versionMap {
        if |versionMap| == MAX_ENTRIES {
          SmallestExists(versionMap.Keys);
          var first :| first in versionMap && forall t :: t in versionMap.Keys ==> first <= t;
          assert IsSmallest(first, versionMap.Keys) && first == Smallest(versionMap.Keys);
          versionMap := versionMap - {first};
        }
        versionMap := versionMap[timeStamp := Version(nextNumber, TimePoint(timeStamp))];
        nextNumber := nextNumber + 1;
      }
      version := versionMap[timeStamp];
    }
  }

  // The bound, and the day from which time is counted: 134774 days lie between 1601 and 1970, of 86400 seconds of ten
  // million ticks each; a tick has 100 nanoseconds.
  lemma BoundAndEpoch(qs: seq<Request>, days: int, ticks: int)
    requires 0 <= days < 100_000 && 0 <= ticks < 864_000_000_000
    ensures |Run(EMPTY, qs).entries| <= 2000
    ensures TimePoint((134_774 + days) * 864_000_000_000 + ticks) == days * 86_400_000_000_000 + 100 * ticks
  {
    hide Run, TimePoint;
    RunValid(qs);
    EpochDay(days, ticks);
  }

  lemma EpochDay(days: int, ticks: int)
    requires 0 <= days < 100_000 && 0 <= ticks < 864_000_000_000
    ensures TimePoint((134_774 + days) * 864_000_000_000 + ticks) == days * 86_400_000_000_000 + 100 * ticks
  {
    var ts := (134_774 + days) * 864_000_000_000 + ticks;
    assert ts - UNIX_EPOCH == days * 864_000_000_000 + ticks;
    TimePointExact(ts);
  }
}
