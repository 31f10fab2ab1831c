/**
 * The study-session calendar of chapter8: a list of schedules, each with an
 * id, a subject and a time range. New schedules are refused when they overlap
 * an existing one; schedules are deleted by id.
 *
 * Timestamps (chrono's NaiveDateTime) are modelled as integers, which are
 * totally ordered in the same way.
 */
module Calendar {
  import opened Wrappers

  datatype Schedule = Schedule(id: nat, subject: string, start: int, end: int)

  /** Strict overlap of the time ranges of two schedules. */
  predicate Intersects(s: Schedule, other: Schedule)
  {
    s.start < other.end && other.start < s.end
  }

  /** A schedule whose range holds at least one instant. */
  predicate WellFormed(s: Schedule)
  {
    s.start < s.end
  }

  /** Instant `t` lies in the half-open range [start, end) of `s`. */
  predicate Covers(s: Schedule, t: int)
  {
    s.start <= t < s.end
  }

  lemma IntersectsSymmetric(a: Schedule, b: Schedule)
    ensures Intersects(a, b) <==> Intersects(b, a)
  {
  }

  /**
   * For well-formed schedules, intersecting means sharing an instant.
   * Ranges that only touch, such as [18:15, 19:00) and [19:00, 20:00), share none.
   */
  lemma IntersectsIffSharedInstant(a: Schedule, b: Schedule)
    requires WellFormed(a) && WellFormed(b)
    ensures Intersects(a, b) <==> exists t :: Covers(a, t) && Covers(b, t)
  {
    if Intersects(a, b) {
      var t := if a.start < b.start then b.start else a.start;
      assert Covers(a, t) && Covers(b, t);
    }
  }

  /** The half of the characterisation that needs no well-formedness. */
  lemma SharedInstantIntersects(a: Schedule, b: Schedule, t: int)
    requires Covers(a, t) && Covers(b, t)
    ensures Intersects(a, b)
  {
  }

  /** The six cases of the source's overlap test, against the range [19:00, 20:00) (minutes of the day). */
  lemma IntersectsExamples()
    ensures var incoming := Schedule(999, "new", 19 * 60, 20 * 60);
      && !Intersects(Schedule(0, "old", 18 * 60 + 15, 18 * 60 + 45), incoming)
      && Intersects(Schedule(0, "old", 18 * 60 + 15, 19 * 60 + 45), incoming)
      && Intersects(Schedule(0, "old", 18 * 60 + 15, 20 * 60 + 45), incoming)
      && Intersects(Schedule(0, "old", 19 * 60 + 15, 19 * 60 + 45), incoming)
      && Intersects(Schedule(0, "old", 19 * 60 + 15, 20 * 60 + 45), incoming)
      && !Intersects(Schedule(0, "old", 20 * 60 + 15, 20 * 60 + 45), incoming)
  {
  }

  /** Ids strictly increase along the list (hence are unique). */
  ghost predicate IdsIncreasing(s: seq<Schedule>)
  {
    forall i, j :: 0 <= i < j < |s| ==> s[i].id < s[j].id
  }

  /** No two stored schedules intersect. */
  ghost predicate PairwiseDisjoint(s: seq<Schedule>)
  {
    forall i, j :: 0 <= i < j < |s| ==> !Intersects(s[i], s[j])
  }

  /** The id `add_schedule` gives a new schedule: 0 for an empty list, else the last id plus one. */
  function NextId(s: seq<Schedule>): nat
  {
    if |s| == 0 then 0 else s[|s| - 1].id + 1
  }

  /** Some stored schedule intersects `x` (tested as `schedule.intersects(&new_schedule)`). */
  predicate Conflicts(s: seq<Schedule>, x: Schedule)
  {
    exists i :: 0 <= i < |s| && Intersects(s[i], x)
  }

  /** The schedule list after `add_schedule`, and whether it was added. */
  function Added(s: seq<Schedule>, subject: string, start: int, end: int): (bool, seq<Schedule>)
  {
    var x := Schedule(NextId(s), subject, start, end);
    if Conflicts(s, x) then (false, s) else (true, s + [x])
  }

  /** Index of the first schedule carrying `id`. */
  function FirstIndexOf(s: seq<Schedule>, id: nat): (r: Option<nat>)
    ensures r.Some? ==> r.value < |s| && s[r.value].id == id
    ensures r.Some? ==> forall k :: 0 <= k < r.value ==> s[k].id != id
    ensures r.None? <==> forall k :: 0 <= k < |s| ==> s[k].id != id
  {
    if |s| == 0 then None
    else if s[0].id == id then Some(0)
    else match FirstIndexOf(s[1..], id)
      case None => None
      case Some(k) => Some(k + 1)
  }

  /** The schedule list after `delete_schedule`. */
  function Deleted(s: seq<Schedule>, id: nat): seq<Schedule>
  {
    match FirstIndexOf(s, id)
    case None => s
    case Some(k) => s[..k] + s[k + 1..]
  }

  /** `NextId` is larger than every stored id when ids increase. */
  lemma NextIdIsFresh(s: seq<Schedule>)
    requires IdsIncreasing(s)
    ensures forall k :: 0 <= k < |s| ==> s[k].id < NextId(s)
  {
    forall k | 0 <= k < |s| ensures s[k].id < NextId(s) {
      if k < |s| - 1 {
        assert s[k].id < s[|s| - 1].id;
      }
    }
  }

  /** On a conflict, nothing changes; otherwise exactly one schedule is appended with the next id. */
  lemma AddedOutcome(s: seq<Schedule>, subject: string, start: int, end: int)
    ensures var (ok, r) := Added(s, subject, start, end);
      && (ok <==> !Conflicts(s, Schedule(NextId(s), subject, start, end)))
      && (!ok ==> r == s)
      && (ok ==> |r| == |s| + 1 && r[..|s|] == s && r[|s|] == Schedule(NextId(s), subject, start, end))
  {
  }

  /** Adding keeps the ids strictly increasing. */
  lemma AddedKeepsIdsIncreasing(s: seq<Schedule>, subject: string, start: int, end: int)
    requires IdsIncreasing(s)
    ensures IdsIncreasing(Added(s, subject, start, end).1)
  {
    NextIdIsFresh(s);
  }

  /** Adding keeps the schedules pairwise non-intersecting. */
  lemma AddedKeepsDisjoint(s: seq<Schedule>, subject: string, start: int, end: int)
    requires PairwiseDisjoint(s)
    ensures PairwiseDisjoint(Added(s, subject, start, end).1)
  {
    var x := Schedule(NextId(s), subject, start, end);
    if !Conflicts(s, x) {
      var r := s + [x];
      forall i, j | 0 <= i < j < |r| ensures !Intersects(r[i], r[j]) {
        if j == |s| {
          assert r[i] == s[i] && r[j] == x;
        }
      }
    }
  }

  /** Removing one element keeps any pairwise relation between the remaining ones. */
  lemma RemovedAt(s: seq<Schedule>, k: nat)
    requires k < |s|
    ensures var r := s[..k] + s[k + 1..];
      && |r| == |s| - 1
      && (forall i :: 0 <= i < |r| ==> r[i] == s[if i < k then i else i + 1])
  {
  }

  /** Deleting a present id removes exactly the first schedule with it; a missing id changes nothing. */
  lemma DeletedOutcome(s: seq<Schedule>, id: nat)
    ensures (exists k :: 0 <= k < |s| && s[k].id == id) ==>
      exists k :: 0 <= k < |s| && s[k].id == id && (forall i :: 0 <= i < k ==> s[i].id != id)
        && Deleted(s, id) == s[..k] + s[k + 1..]
    ensures (forall k :: 0 <= k < |s| ==> s[k].id != id) ==> Deleted(s, id) == s
  {
    var f := FirstIndexOf(s, id);
    if f.Some? {
      assert s[f.value].id == id;
    }
  }

  /** Deleting keeps the ids strictly increasing. */
  lemma DeletedKeepsIdsIncreasing(s: seq<Schedule>, id: nat)
    requires IdsIncreasing(s)
    ensures IdsIncreasing(Deleted(s, id))
  {
    var f := FirstIndexOf(s, id);
    if f.Some? {
      var k := f.value;
      RemovedAt(s, k);
      var r := s[..k] + s[k + 1..];
      forall i, j | 0 <= i < j < |r| ensures r[i].id < r[j].id {
        assert r[i] == s[if i < k then i else i + 1];
        assert r[j] == s[if j < k then j else j + 1];
      }
    }
  }

  /** Deleting keeps the schedules pairwise non-intersecting. */
  lemma DeletedKeepsDisjoint(s: seq<Schedule>, id: nat)
    requires PairwiseDisjoint(s)
    ensures PairwiseDisjoint(Deleted(s, id))
  {
    var f := FirstIndexOf(s, id);
    if f.Some? {
      var k := f.value;
      RemovedAt(s, k);
      var r := s[..k] + s[k + 1..];
      forall i, j | 0 <= i < j < |r| ensures !Intersects(r[i], r[j]) {
        assert r[i] == s[if i < k then i else i + 1];
        assert r[j] == s[if j < k then j else j + 1];
      }
    }
  }

  /** With increasing ids, a deleted id is gone from the list afterwards. */
  lemma DeletedIdIsGone(s: seq<Schedule>, id: nat)
    requires IdsIncreasing(s)
    ensures forall k :: 0 <= k < |Deleted(s, id)| ==> Deleted(s, id)[k].id != id
  {
    var f := FirstIndexOf(s, id);
    if f.Some? {
      var k := f.value;
      RemovedAt(s, k);
      var r := s[..k] + s[k + 1..];
      forall i | 0 <= i < |r| ensures r[i].id != id {
        assert r[i] == s[if i < k then i else i + 1];
      }
    }
  }

  /**
   * Deleting any schedule but the last leaves the next id as it was, so ids
   * are not handed out again (the source's add-after-delete test).
   */
  lemma DeleteKeepsNextId(s: seq<Schedule>, id: nat)
    requires |s| > 0 && s[|s| - 1].id != id
    ensures NextId(Deleted(s, id)) == NextId(s)
  {
    var f := FirstIndexOf(s, id);
    if f.Some? {
      var k := f.value;
      assert k < |s| - 1;
      var tail := s[k + 1..];
      assert tail[|tail| - 1] == s[|s| - 1];
      assert (s[..k] + tail)[|s| - 2] == tail[|tail| - 1];
    }
  }

  /**
   * Deleting the last schedule lowers the next id: when the last two ids are
   * consecutive, as `add_schedule` makes them, the deleted id is handed out
   * again by the following add.
   */
  lemma DeletingLastReusesId(s: seq<Schedule>)
    requires IdsIncreasing(s)
    requires |s| >= 2 && s[|s| - 1].id == s[|s| - 2].id + 1
    ensures NextId(Deleted(s, s[|s| - 1].id)) == s[|s| - 1].id
  {
    var last := |s| - 1;
    var f := FirstIndexOf(s, s[last].id);
    assert f.Some? && f.value == last;
    RemovedAt(s, last);
  }

  /**
   * The source's add, delete and add-after-delete tests on three schedules
   * with ids 0, 1 and 2 (times as integers in the same order); the last
   * delete finds id 2, the condition under which `DeleteSchedule` returns true.
   */
  lemma CalendarTestsExample()
    ensures var a, b, c := Schedule(0, "first", 100, 200), Schedule(1, "second", 300, 400), Schedule(2, "third", 500, 600);
      && Added([a], "second", 300, 400) == (true, [a, b])
      && Deleted([a, b, c], 0) == [b, c]
      && Deleted([b, c], 1) == [c]
      && Deleted([c], 2) == []
      && (exists k :: 0 <= k < |[c]| && [c][k].id == 2)
      && Added(Deleted([a, b, c], 0), "fourth", 700, 800) == (true, [b, c, Schedule(3, "fourth", 700, 800)])
  {
    var a, b, c := Schedule(0, "first", 100, 200), Schedule(1, "second", 300, 400), Schedule(2, "third", 500, 600);
    assert FirstIndexOf([a, b, c], 0) == Some(0);
    assert [a, b, c][..0] + [a, b, c][1..] == [b, c];
    assert FirstIndexOf([b, c], 1) == Some(0);
    assert [b, c][..0] + [b, c][1..] == [c];
    assert FirstIndexOf([c], 2) == Some(0);
    assert NextId([a]) == 1 && NextId([b, c]) == 3;
    assert !Conflicts([b, c], Schedule(3, "fourth", 700, 800));
    assert !Conflicts([a], b);
    assert [a] + [b] == [a, b] && [b, c] + [Schedule(3, "fourth", 700, 800)] == [b, c, Schedule(3, "fourth", 700, 800)];
  }

  /** The stored calendar; `add_schedule` and `delete_schedule` update it in place. */
  class Calendar {
    var schedules: seq<Schedule>

    constructor (schedules: seq<Schedule>)
      ensures this.schedules == schedules
    {
      this.schedules := schedules;
    }

    /** `add_schedule`: returns whether the new schedule was stored. */
    method AddSchedule(subject: string, start: int, end: int) returns (added: bool)
      modifies this
      ensures (added, schedules) == Added(old(schedules), subject, start, end)
    {
      var id := if |schedules| == 0 then 0 else schedules[|schedules| - 1].id + 1;
      var newSchedule := Schedule(id, subject, start, end);
      for i := 0 to |schedules|
        invariant forall k :: 0 <= k < i ==> !Intersects(schedules[k], newSchedule)
      {
        if Intersects(schedules[i], newSchedule) {
          return false;
        }
      }
      schedules := schedules + [newSchedule];
      return true;
    }

    /** `delete_schedule`: removes the first schedule with `id`; returns whether one was found. */
    method DeleteSchedule(id: nat) returns (deleted: bool)
      modifies this
      ensures deleted <==> exists k :: 0 <= k < |old(schedules)| && old(schedules)[k].id == id
      ensures schedules == Deleted(old(schedules), id)
    {
      for i := 0 to |schedules|
        invariant forall k :: 0 <= k < i ==> schedules[k].id != id
      {
        if schedules[i].id == id {
          assert FirstIndexOf(schedules, id) == Some(i);
          schedules := schedules[..i] + schedules[i + 1..];
          return true;
        }
      }
      return false;
    }
  }
}
