/**
 * The shared `controller_data` collection that every controller writes its
 * readings and commands to, and the three queries the controllers run on it:
 * the newest matching record (`find_one` sorted by timestamp, descending) and
 * the newest matching records up to a limit (`find(...).sort(...).limit(n)`).
 *
 * Timestamps are natural numbers supplied by the caller in place of
 * `datetime.utcnow()`. Among records with equal timestamps the one inserted
 * later counts as the newer one.
 */
module History {
  import opened Options

  /** The `data_type` field of a stored document: "sensor" or "actuator". */
  datatype DataType = Sensor | Actuator

  /** The `value` field: a sensor reading or an actuator command. */
  datatype Entry = Reading(reading: real) | Command(command: string) {
    function DataType(): DataType {
      if Reading? then Sensor else Actuator
    }
  }

  /** One stored document {controller, timestamp, data_type, topic, value}. */
  datatype Record = Record(controller: string, timestamp: nat, topic: string, entry: Entry)

  /** The query filter {"controller": name, "data_type": dt}. */
  predicate Matches(r: Record, name: string, dt: DataType)
  {
    r.controller == name && r.entry.DataType() == dt
  }

  /** Index `i` holds the newest record matching the filter. */
  ghost predicate IsNewest(s: seq<Record>, name: string, dt: DataType, i: nat)
  {
    && i < |s|
    && Matches(s[i], name, dt)
    && forall j :: 0 <= j < |s| && Matches(s[j], name, dt) ==>
         s[j].timestamp < s[i].timestamp || (s[j].timestamp == s[i].timestamp && j <= i)
  }

  /** Where `find_one(filter, sort=[("timestamp", DESCENDING)])` finds its answer. */
  function LatestIndex(s: seq<Record>, name: string, dt: DataType): (r: Option<nat>)
    ensures r.Some? ==> IsNewest(s, name, dt, r.value)
    ensures r.None? <==> forall j :: 0 <= j < |s| ==> !Matches(s[j], name, dt)
  {
    if s == [] then None
    else
      var prev := LatestIndex(s[..|s| - 1], name, dt);
      var last := s[|s| - 1];
      if Matches(last, name, dt) && (prev.None? || s[prev.value].timestamp <= last.timestamp)
      then Some(|s| - 1)
      else prev
  }

  /** The value of the newest sensor record of `name`, if there is one. */
  function LatestReading(s: seq<Record>, name: string): (r: Option<real>)
    ensures r.None? <==> forall j :: 0 <= j < |s| ==> !Matches(s[j], name, Sensor)
  {
    match LatestIndex(s, name, Sensor)
    case None => None
    case Some(i) => Some(s[i].entry.reading)
  }

  /** The value of the newest actuator record of `name`, if there is one. */
  function LatestCommand(s: seq<Record>, name: string): (r: Option<string>)
    ensures r.None? <==> forall j :: 0 <= j < |s| ==> !Matches(s[j], name, Actuator)
  {
    match LatestIndex(s, name, Actuator)
    case None => None
    case Some(i) => Some(s[i].entry.command)
  }

  ghost predicate NewestFirstOrder(s: seq<Record>)
  {
    forall i, j :: 0 <= i < j < |s| ==> s[i].timestamp >= s[j].timestamp
  }

  /** The records that pass the filter, in insertion order. */
  function Select(s: seq<Record>, name: string, dt: DataType): (out: seq<Record>)
    ensures forall x :: x in out <==> x in s && Matches(x, name, dt)
    ensures |out| <= |s|
  {
    if s == [] then []
    else
      var last := s[|s| - 1];
      Select(s[..|s| - 1], name, dt) + (if Matches(last, name, dt) then [last] else [])
  }

  /** The filter keeps every copy of a matching record and no copy of any other. */
  lemma {:induction false} SelectCounts(s: seq<Record>, name: string, dt: DataType)
    ensures forall x :: multiset(Select(s, name, dt))[x] == if Matches(x, name, dt) then multiset(s)[x] else 0
  {
    if s != [] {
      var last := s[|s| - 1];
      SelectCounts(s[..|s| - 1], name, dt);
      assert s == s[..|s| - 1] + [last];
    }
  }

  /** Places `r` before every record that is not strictly newer than it. */
  function InsertNewestFirst(r: Record, sorted: seq<Record>): (out: seq<Record>)
    requires NewestFirstOrder(sorted)
    ensures NewestFirstOrder(out)
    ensures multiset(out) == multiset(sorted) + multiset{r}
    ensures forall x :: x in out <==> x == r || x in sorted
  {
    if sorted == [] || sorted[0].timestamp <= r.timestamp then [r] + sorted
    else
      var rest := InsertNewestFirst(r, sorted[1..]);
      assert forall x :: x in rest ==> x.timestamp <= sorted[0].timestamp;
      NewestFirstCons(sorted[0], rest);
      assert sorted == [sorted[0]] + sorted[1..];
      [sorted[0]] + rest
  }

  /** A record no older than anything in a newest-first sequence can go in front of it. */
  lemma NewestFirstCons(x: Record, rest: seq<Record>)
    requires NewestFirstOrder(rest)
    requires forall y :: y in rest ==> y.timestamp <= x.timestamp
    ensures NewestFirstOrder([x] + rest)
  {
    var out := [x] + rest;
    forall i, j | 0 <= i < j < |out|
      ensures out[i].timestamp >= out[j].timestamp
    {
      if i == 0 {
        assert out[j] in rest;
      } else {
        assert out[i] == rest[i - 1] && out[j] == rest[j - 1];
      }
    }
  }

  /**
   * Sorting by timestamp, descending. Records are taken in insertion order and
   * each goes in front of its equals, so ties list the later insertion first.
   */
  function NewestFirst(s: seq<Record>): (out: seq<Record>)
    ensures NewestFirstOrder(out)
    ensures multiset(out) == multiset(s)
    ensures forall x :: x in out <==> x in s
  {
    if s == [] then []
    else
      assert s == s[..|s| - 1] + [s[|s| - 1]];
      var out := InsertNewestFirst(s[|s| - 1], NewestFirst(s[..|s| - 1]));
      assert forall x :: x in out <==> x in multiset(s);
      out
  }

  /** In a newest-first sequence, nothing after a prefix is newer than anything in it. */
  lemma PrefixIsNewest(sorted: seq<Record>, k: nat)
    requires NewestFirstOrder(sorted) && k <= |sorted|
    ensures forall y, x :: y in sorted && y !in sorted[..k] && x in sorted[..k] ==>
              y.timestamp <= x.timestamp
  {
    forall y, x | y in sorted && y !in sorted[..k] && x in sorted[..k]
      ensures y.timestamp <= x.timestamp
    {
      var a :| 0 <= a < |sorted| && sorted[a] == y;
      var b :| 0 <= b < k && sorted[..k][b] == x;
      assert a >= k;
    }
  }

  /** `find(filter, sort=[("timestamp", DESCENDING)]).limit(limit)`. */
  function FindMany(s: seq<Record>, name: string, dt: DataType, limit: nat): (out: seq<Record>)
    ensures limit > 0 ==> |out| <= limit
    ensures NewestFirstOrder(out)
    ensures forall i :: 0 <= i < |out| ==> out[i] in s && Matches(out[i], name, dt)
  {
    var sorted := NewestFirst(Select(s, name, dt));
    if limit == 0 || |sorted| <= limit then sorted else sorted[..limit]
  }

  /**
   * What the history query leaves out: nothing newer than anything it returns,
   * and nothing at all unless the limit was reached.
   */
  lemma FindManyComplete(s: seq<Record>, name: string, dt: DataType, limit: nat)
    ensures var out := FindMany(s, name, dt, limit);
            forall j, x :: 0 <= j < |s| && Matches(s[j], name, dt) && s[j] !in out && x in out ==>
              s[j].timestamp <= x.timestamp
    ensures var out := FindMany(s, name, dt, limit);
            (limit == 0 || |out| < limit) ==>
              forall j :: 0 <= j < |s| && Matches(s[j], name, dt) ==> s[j] in out
  {
    var sorted := NewestFirst(Select(s, name, dt));
    if limit > 0 && |sorted| > limit {
      PrefixIsNewest(sorted, limit);
    }
  }

  /** The query returns every matching record, or exactly `limit` of them when there are more. */
  lemma FindManyCount(s: seq<Record>, name: string, dt: DataType, limit: nat)
    ensures var matching := Select(s, name, dt);
            |FindMany(s, name, dt, limit)| == if limit == 0 || |matching| <= limit then |matching| else limit
  {
    var sorted := NewestFirst(Select(s, name, dt));
    assert |sorted| == |multiset(sorted)| == |Select(s, name, dt)|;
  }

  /** The query returns no record more often than the store holds it under the filter. */
  lemma FindManyNoDuplicates(s: seq<Record>, name: string, dt: DataType, limit: nat)
    ensures multiset(FindMany(s, name, dt, limit)) <= multiset(Select(s, name, dt))
  {
    var sorted := NewestFirst(Select(s, name, dt));
    if limit > 0 && |sorted| > limit {
      PrefixWithin(sorted, limit);
    }
  }

  /**
   * Counting copies: a record the query returns fewer times than the filter
   * keeps it is no newer than anything returned.
   */
  lemma FindManyCompleteCounts(s: seq<Record>, name: string, dt: DataType, limit: nat)
    ensures var out := FindMany(s, name, dt, limit);
            forall x :: multiset(out)[x] < multiset(Select(s, name, dt))[x] ==>
              forall y :: y in out ==> x.timestamp <= y.timestamp
  {
    var sorted := NewestFirst(Select(s, name, dt));
    if limit > 0 && |sorted| > limit {
      PrefixCountsNewest(sorted, limit);
    }
  }

  /** In a newest-first sequence, a copy left out of a prefix is no newer than the prefix. */
  lemma PrefixCountsNewest(sorted: seq<Record>, k: nat)
    requires NewestFirstOrder(sorted) && k <= |sorted|
    ensures forall x :: multiset(sorted[..k])[x] < multiset(sorted)[x] ==>
              forall y :: y in sorted[..k] ==> x.timestamp <= y.timestamp
  {
    assert sorted == sorted[..k] + sorted[k..];
    forall x, y | multiset(sorted[..k])[x] < multiset(sorted)[x] && y in sorted[..k]
      ensures x.timestamp <= y.timestamp
    {
      assert x in sorted[k..];
      var a :| 0 <= a < |sorted[k..]| && sorted[k..][a] == x;
      var b :| 0 <= b < k && sorted[..k][b] == y;
      assert sorted[b] == y && sorted[k + a] == x;
    }
  }

  /** A prefix holds no element more often than the whole sequence. */
  lemma PrefixWithin(t: seq<Record>, k: nat)
    requires k <= |t|
    ensures multiset(t[..k]) <= multiset(t)
  {
    assert t == t[..k] + t[k..];
  }

  lemma NewestFirstSnoc(t: seq<Record>, r: Record)
    ensures NewestFirst(t + [r]) == InsertNewestFirst(r, NewestFirst(t))
  {
    assert (t + [r])[..|t|] == t;
  }

  /** What the head lemma below says of one sequence of records. */
  ghost predicate HeadAgrees(s: seq<Record>, name: string, dt: DataType)
  {
    var sorted := NewestFirst(Select(s, name, dt));
    var i := LatestIndex(s, name, dt);
    && (sorted != [] <==> i.Some?)
    && (i.Some? ==> i.value < |s| && sorted[0] == s[i.value])
  }

  /** The inductive step of NewestFirstHeadIsLatest when the last record matches. */
  lemma HeadAgreesMatchingLast(s: seq<Record>, name: string, dt: DataType)
    requires s != [] && Matches(s[|s| - 1], name, dt)
    requires HeadAgrees(s[..|s| - 1], name, dt)
    ensures HeadAgrees(s, name, dt)
  {
    var p := s[..|s| - 1];
    var last := s[|s| - 1];
    var sp := Select(p, name, dt);
    var np := NewestFirst(sp);
    var prev := LatestIndex(p, name, dt);
    assert Select(s, name, dt) == sp + [last];
    NewestFirstSnoc(sp, last);
    var ins := InsertNewestFirst(last, np);
    assert ins[0] == if np == [] || np[0].timestamp <= last.timestamp then last else np[0];
    if prev.Some? {
      assert s[prev.value] == p[prev.value];
    }
  }

  /** The inductive step of NewestFirstHeadIsLatest when the last record does not match. */
  lemma HeadAgreesOtherLast(s: seq<Record>, name: string, dt: DataType)
    requires s != [] && !Matches(s[|s| - 1], name, dt)
    requires HeadAgrees(s[..|s| - 1], name, dt)
    ensures HeadAgrees(s, name, dt)
  {
    var p := s[..|s| - 1];
    var prev := LatestIndex(p, name, dt);
    assert Select(s, name, dt) == Select(p, name, dt);
    if prev.Some? {
      assert s[prev.value] == p[prev.value];
    }
  }

  /**
   * The head of the history query is the record that `find_one` picks: the
   * history shown for a controller starts with the value its recovery would
   * install.
   */
  lemma {:induction false} NewestFirstHeadIsLatest(s: seq<Record>, name: string, dt: DataType)
    ensures HeadAgrees(s, name, dt)
  {
    if s != [] {
      NewestFirstHeadIsLatest(s[..|s| - 1], name, dt);
      if Matches(s[|s| - 1], name, dt) {
        HeadAgreesMatchingLast(s, name, dt);
      } else {
        HeadAgreesOtherLast(s, name, dt);
      }
    }
  }

  lemma HistoryHeadIsLatest(s: seq<Record>, name: string, dt: DataType, limit: nat)
    ensures FindMany(s, name, dt, limit) != [] <==> LatestIndex(s, name, dt).Some?
    ensures LatestIndex(s, name, dt).Some? ==>
              FindMany(s, name, dt, limit)[0] == s[LatestIndex(s, name, dt).value]
  {
    NewestFirstHeadIsLatest(s, name, dt);
  }

  /**
   * The one persistent collection shared by all controllers. `online` is
   * false while the database cannot be reached.
   */
  class Store {
    var records: seq<Record>
    var online: bool

    constructor (initial: seq<Record>)
      ensures records == initial && online
    {
      records := initial;
      online := true;
    }

    /** `insert_one`: the store only ever grows at the end. */
    method InsertOne(r: Record)
      requires online
      modifies this`records
      ensures records == old(records) + [r]
    {
      records := records + [r];
    }
  }
}
