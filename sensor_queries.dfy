/**
 * The read side of the sensor store in src/server.js as functions over the
 * sequence of stored readings: the device filter shared by the latest query,
 * the history query and the broadcast, the FIFO window kept by the store,
 * and the shapes of the latest and history answers.
 */
module SensorQueries {
  import opened Wrappers
  import opened JsValues
  import opened Readings

  /** A filter applies only when it is a non-empty string: "" and null are falsy in JavaScript. */
  predicate HasFilter(filter: Option<string>) {
    filter.Some? && filter.value != []
  }

  /** A reading (or broadcast target) passes the filter when there is none or it names the device. */
  predicate Matches(filter: Option<string>, deviceId: string) {
    !HasFilter(filter) || filter.value == deviceId
  }

  /**
   * The last min(n, |s|) elements of s, in their order: `slice(-n)` for n >= 1,
   * and the window trimSensorHistory keeps. Whatever is dropped is the oldest prefix.
   */
  function LastN<T>(s: seq<T>, n: nat): (r: seq<T>)
    ensures |r| == if |s| <= n then |s| else n
    ensures |s| <= n ==> r == s
    ensures r == s[|s| - |r|..]
  {
    if |s| <= n then s else s[|s| - n..]
  }

  /**
   * Index of the most recent reading that passes the filter, or -1 when none
   * does: every later reading fails the filter.
   */
  function LatestIndex(rs: seq<Reading>, filter: Option<string>): (i: int)
    ensures -1 <= i < |rs|
    ensures i >= 0 ==> Matches(filter, rs[i].deviceId)
    ensures forall j :: i < j < |rs| ==> !Matches(filter, rs[j].deviceId)
  {
    if rs == [] then -1
    else if Matches(filter, rs[|rs| - 1].deviceId) then |rs| - 1
    else LatestIndex(rs[..|rs| - 1], filter)
  }

  /** getLatestSensorReading's answer on a given store. */
  function LatestMatching(rs: seq<Reading>, filter: Option<string>): (r: Option<Reading>)
    ensures r.None? <==> forall j :: 0 <= j < |rs| ==> !Matches(filter, rs[j].deviceId)
    ensures !HasFilter(filter) ==> r == if rs == [] then None else Some(rs[|rs| - 1])
    ensures r.Some? ==> Matches(filter, r.value.deviceId) && r.value in rs
  {
    var i := LatestIndex(rs, filter);
    if i < 0 then None else Some(rs[i])
  }

  /** The readings that pass the filter, in store order. */
  function Filtered(rs: seq<Reading>, filter: Option<string>): (r: seq<Reading>)
    ensures |r| <= |rs|
    ensures forall k :: 0 <= k < |r| ==> Matches(filter, r[k].deviceId)
    ensures !HasFilter(filter) ==> r == rs
  {
    if rs == [] then []
    else
      var rest := Filtered(rs[..|rs| - 1], filter);
      var last := rs[|rs| - 1];
      assert rs == rs[..|rs| - 1] + [last];
      if Matches(filter, last.deviceId) then rest + [last] else rest
  }

  /** Filtering keeps exactly the stored readings that pass the filter. */
  lemma {:induction false} FilteredMembers(rs: seq<Reading>, filter: Option<string>)
    ensures forall x :: x in Filtered(rs, filter) <==> x in rs && Matches(filter, x.deviceId)
  {
    if rs != [] {
      var init := rs[..|rs| - 1];
      FilteredMembers(init, filter);
      assert rs == init + [rs[|rs| - 1]];
    }
  }

  /**
   * Filtering keeps store order, each reading once: a matching reading rs[i]
   * sits in the filtered sequence right after the matching readings before it.
   */
  lemma {:induction false} FilteredInOrder(rs: seq<Reading>, filter: Option<string>)
    ensures forall i :: 0 <= i < |rs| && Matches(filter, rs[i].deviceId) ==>
      && |Filtered(rs[..i], filter)| < |Filtered(rs, filter)|
      && Filtered(rs, filter)[|Filtered(rs[..i], filter)|] == rs[i]
  {
    if rs != [] {
      var init := rs[..|rs| - 1];
      var last := rs[|rs| - 1];
      FilteredInOrder(init, filter);
      assert rs == init + [last];
      forall i | 0 <= i < |rs| && Matches(filter, rs[i].deviceId)
        ensures |Filtered(rs[..i], filter)| < |Filtered(rs, filter)|
        ensures Filtered(rs, filter)[|Filtered(rs[..i], filter)|] == rs[i]
      {
        if i < |rs| - 1 {
          assert rs[..i] == init[..i];
          assert rs[i] == init[i];
        } else {
          assert rs[..i] == init;
        }
      }
    }
  }

  /** Filtering drops readings and never repeats one: the kept readings are a sub-multiset of the store. */
  lemma {:induction false} FilteredSubMultiset(rs: seq<Reading>, filter: Option<string>)
    ensures multiset(Filtered(rs, filter)) <= multiset(rs)
  {
    if rs != [] {
      var init := rs[..|rs| - 1];
      var last := rs[|rs| - 1];
      FilteredSubMultiset(init, filter);
      assert rs == init + [last];
      assert multiset(rs) == multiset(init) + multiset{last};
      if Matches(filter, last.deviceId) {
        assert multiset(Filtered(rs, filter)) == multiset(Filtered(init, filter)) + multiset{last};
      }
    }
  }

  function Reversed<T>(s: seq<T>): (r: seq<T>)
    ensures |r| == |s|
    ensures forall k :: 0 <= k < |s| ==> r[k] == s[|s| - 1 - k]
  {
    if s == [] then [] else [s[|s| - 1]] + Reversed(s[..|s| - 1])
  }

  /** Math.trunc on a finite number: drop the fraction, toward zero. */
  function Trunc(x: real): (n: int)
    ensures n as real <= x < n as real + 1.0 || n as real - 1.0 < x <= n as real
    ensures 0.0 <= x ==> 0 <= n && n as real <= x
    ensures x <= 0.0 ==> n <= 0 && x <= n as real
  {
    if x >= 0.0 then x.Floor else -((-x).Floor)
  }

  const DefaultHistoryLimit := 100
  const MaxHistoryLimit := 500

  /**
   * The history limit: 100 when the parameter is absent or not a finite
   * number, otherwise its truncation clamped into [1, 500].
   */
  function SafeLimit(rawLimit: JsValue): (n: int)
    ensures 1 <= n <= MaxHistoryLimit
    ensures rawLimit.Undefined? || ToNumberOrNull(rawLimit).None? ==> n == DefaultHistoryLimit
    ensures ToNumberOrNull(rawLimit).Some? ==>
      var t := Trunc(ToNumberOrNull(rawLimit).value);
      && (1 <= t <= MaxHistoryLimit ==> n == t)
      && (t < 1 ==> n == 1)
      && (t > MaxHistoryLimit ==> n == MaxHistoryLimit)
  {
    var parsed := if !rawLimit.Undefined? then ToNumberOrNull(rawLimit) else Some(DefaultHistoryLimit as real);
    match parsed
    case None => DefaultHistoryLimit
    case Some(x) =>
      var t := Trunc(x);
      var capped := if t < MaxHistoryLimit then t else MaxHistoryLimit;
      if 1 < capped then capped else 1
  }

  /** createHistoryResponse on a given store, filter and limit: `filtered.slice(-limit).reverse()`. */
  function History(rs: seq<Reading>, filter: Option<string>, limit: nat): (h: seq<Reading>)
    ensures |h| <= limit && |h| <= |rs|
  {
    Reversed(LastN(Filtered(rs, filter), limit))
  }

  /**
   * The history answer holds min(limit, number of matching readings)
   * readings, all matching, being the most recent matching ones, most
   * recent first.
   */
  lemma {:induction false} HistoryShape(rs: seq<Reading>, filter: Option<string>, limit: nat)
    ensures var f := Filtered(rs, filter);
      var h := History(rs, filter, limit);
      && |h| == (if limit < |f| then limit else |f|)
      && (forall k :: 0 <= k < |h| ==> Matches(filter, h[k].deviceId))
      && (forall k :: 0 <= k < |h| ==> h[k] == f[|f| - 1 - k])
  {
    NewestFirst(Filtered(rs, filter), limit);
  }

  /** `s.slice(-n).reverse()` lists the last elements of s, newest first. */
  lemma {:induction false} NewestFirst<T>(s: seq<T>, n: nat)
    ensures var h := Reversed(LastN(s, n));
      forall k :: 0 <= k < |h| ==> h[k] == s[|s| - 1 - k]
  {
    var w := LastN(s, n);
    var d := |s| - |w|;
    forall k | 0 <= k < |w|
      ensures Reversed(w)[k] == s[|s| - 1 - k]
    {
      assert w[|w| - 1 - k] == s[d + |w| - 1 - k];
    }
  }

  /** The newest matching reading is the last element of the filtered sequence. */
  lemma {:induction false} LatestIsLastFiltered(rs: seq<Reading>, filter: Option<string>)
    ensures var f := Filtered(rs, filter);
      LatestMatching(rs, filter) == if f == [] then None else Some(f[|f| - 1])
  {
    if rs != [] {
      var init := rs[..|rs| - 1];
      if !Matches(filter, rs[|rs| - 1].deviceId) {
        LatestIsLastFiltered(init, filter);
        assert LatestIndex(rs, filter) == LatestIndex(init, filter);
      }
    }
  }

  /** The first history entry is the reading the latest query returns for the same filter. */
  lemma HistoryStartsWithLatest(rs: seq<Reading>, filter: Option<string>, limit: nat)
    requires limit >= 1
    ensures var h := History(rs, filter, limit);
      h == [] <==> LatestMatching(rs, filter).None?
    ensures var h := History(rs, filter, limit);
      h != [] ==> LatestMatching(rs, filter) == Some(h[0])
  {
    HistoryShape(rs, filter, limit);
    LatestIsLastFiltered(rs, filter);
  }

  /**
   * A reading just appended is what the latest query returns for no filter
   * and for its own device, whatever window the store keeps.
   */
  lemma AppendedIsLatest(rs: seq<Reading>, r: Reading, n: nat, filter: Option<string>)
    requires n >= 1
    requires Matches(filter, r.deviceId)
    ensures LatestMatching(LastN(rs + [r], n), filter) == Some(r)
  {
    var w := LastN(rs + [r], n);
    assert w[|w| - 1] == r;
  }

  /**
   * A reading of another device does not hide an older matching one: the latest
   * query filtered to device `a` skips it.
   */
  lemma {:induction false} LatestSkipsOtherDevices(rs: seq<Reading>, b: Reading, a: string)
    requires a != [] && b.deviceId != a
    ensures LatestMatching(rs + [b], Some(a)) == LatestMatching(rs, Some(a))
  {
    assert (rs + [b])[..|rs + [b]| - 1] == rs;
  }

  /** Ids strictly increase along the store. */
  predicate IdsIncreasing(rs: seq<Reading>) {
    forall i, j :: 0 <= i < j < |rs| ==> rs[i].id < rs[j].id
  }

  /** Every stored id is below the next id to be handed out. */
  predicate IdsBelow(rs: seq<Reading>, next: int) {
    forall i :: 0 <= i < |rs| ==> rs[i].id < next
  }

  /**
   * Appending a reading that takes the next id and then keeping a window keeps
   * ids strictly increasing and below the advanced counter.
   */
  lemma {:induction false} AppendKeepsIdOrder(rs: seq<Reading>, r: Reading, next: int, n: nat)
    requires IdsIncreasing(rs) && IdsBelow(rs, next) && r.id == next
    ensures IdsIncreasing(LastN(rs + [r], n)) && IdsBelow(LastN(rs + [r], n), next + 1)
  {
    var s := rs + [r];
    var w := LastN(s, n);
    var d := |s| - |w|;
    assert w == s[d..];
    forall i | 0 <= i < |w|
      ensures w[i].id <= next && (d + i < |rs| ==> w[i] == rs[d + i]) && (d + i == |rs| ==> w[i] == r)
    {
      assert w[i] == s[d + i];
    }
    forall i, j | 0 <= i < j < |w| ensures w[i].id < w[j].id {
      assert d + i < |rs|;
      if d + j < |rs| {
        assert rs[d + i].id < rs[d + j].id;
      }
    }
  }
}
