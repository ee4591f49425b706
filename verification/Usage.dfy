/** Usage metering: raw records, their rollup by project, and the total read back. */
module Usage {
  import opened Common
  import opened Order

  datatype Key = Key(org: string, project: string, dimension: string, period: string)

  datatype Record = Record(key: Key, quantity: real, unit: string, at: int)

  datatype Rollup = Rollup(total: real, unit: string)

  datatype State = State(records: seq<Record>, rollups: map<Key, Rollup>)

  const EMPTY := State([], map[])

  /** The total of one group. */
  function GroupSum(records: seq<Record>, k: Key): real {
    if records == [] then 0.0
    else
      var n := |records| - 1;
      GroupSum(records[..n], k) + if records[n].key == k then records[n].quantity else 0.0
  }

  /** The least unit of one group. */
  function GroupUnit(records: seq<Record>, k: Key): Option<string> {
    if records == [] then None
    else
      var n := |records| - 1;
      var rest := GroupUnit(records[..n], k);
      if records[n].key != k then rest
      else if rest.Some? && Less(rest.value, records[n].unit) then rest
      else Some(records[n].unit)
  }

  function Groups(records: seq<Record>, period: string): set<Key> {
    set i | 0 <= i < |records| && records[i].key.period == period :: records[i].key
  }

  /** The row of a group after its upsert: a row already there keeps its unit. */
  function Rolled(records: seq<Record>, rollups: map<Key, Rollup>, k: Key): Rollup {
    if k in rollups then rollups[k].(total := GroupSum(records, k))
    else Rollup(GroupSum(records, k), GroupUnit(records, k).GetOr(""))
  }

  function RollUp(s: State, period: string): State {
    var groups := Groups(s.records, period);
    s.(rollups := map k | k in s.rollups.Keys + groups ::
         if k in groups then Rolled(s.records, s.rollups, k) else s.rollups[k])
  }

  predicate Counts(k: Key, org: string, dimension: string, period: string) {
    k.org == org && k.dimension == dimension && k.period == period
  }

  function Selected(rollups: map<Key, Rollup>, org: string, dimension: string, period: string): set<Key> {
    set k | k in rollups && Counts(k, org, dimension, period)
  }

  /** SUM over a set of rows, which has no order. */
  ghost function Total(rollups: map<Key, Rollup>, keys: set<Key>): real
    requires keys <= rollups.Keys
  {
    if keys == {} then 0.0
    else var k :| k in keys; rollups[k].total + Total(rollups, keys - {k})
  }

  ghost function Usage(s: State, org: string, dimension: string, period: string): real {
    Total(s.rollups, Selected(s.rollups, org, dimension, period))
  }

  function RawUsage(records: seq<Record>, org: string, dimension: string, period: string): real {
    if records == [] then 0.0
    else
      var n := |records| - 1;
      RawUsage(records[..n], org, dimension, period)
      + if records[n].key.org == org && records[n].key.dimension == dimension && records[n].key.period == period
        then records[n].quantity else 0.0
  }

  /** Any row may be taken out first. */
  lemma {:induction false} TotalWithout(rollups: map<Key, Rollup>, keys: set<Key>, k: Key)
    requires keys <= rollups.Keys && k in keys
    ensures Total(rollups, keys) == rollups[k].total + Total(rollups, keys - {k})
    decreases |keys|
  {
    var j :| j in keys && Total(rollups, keys) == rollups[j].total + Total(rollups, keys - {j});
    if j != k {
      TotalWithout(rollups, keys - {j}, k);
      TotalWithout(rollups, keys - {k}, j);
      assert keys - {j} - {k} == keys - {k} - {j};
    }
  }

  lemma RollUpIs(s: State, period: string, after: map<Key, Rollup>)
    requires forall k :: k in after <==> k in s.rollups || k in Groups(s.records, period)
    requires forall k :: k in after ==>
               after[k] == if k in Groups(s.records, period) then Rolled(s.records, s.rollups, k) else s.rollups[k]
    ensures RollUp(s, period) == State(s.records, after)
  {}

  /** The upsert, one group at a time. */
  method Upsert<K(==), V>(rows: map<K, V>, groups: set<K>, row: K -> V) returns (after: map<K, V>)
    ensures forall k :: k in after <==> k in rows || k in groups
    ensures forall k :: k in after ==> after[k] == if k in groups then row(k) else rows[k]
  {
    after := rows;
    var left := groups;
    while left != {}
      invariant left <= groups
      invariant forall k :: k in after <==> k in rows || (k in groups && k !in left)
      invariant forall k :: k in after ==> after[k] == if k in groups && k !in left then row(k) else rows[k]
      decreases |left|
    {
      var k :| k in left;
      left := left - {k};
      after := after[k := row(k)];
    }
  }

  class Store {
    var records: seq<Record>
    var rollups: map<Key, Rollup>

    function Now(): State
      reads this
    {
      State(records, rollups)
    }

    constructor ()
      ensures Now() == EMPTY
    {
      records, rollups := [], map[];
    }

    method RecordUsage(r: Record)
      modifies this`records
      ensures records == old(records) + [r]
    {
      records := records + [r];
    }

    /** One INSERT ... SELECT ... GROUP BY ... ON CONFLICT DO UPDATE: the groups are formed, then upserted one by one. */
    method RollupUsage(period: string)
      modifies this`rollups
      ensures Now() == RollUp(old(Now()), period)
    {
      var all, before := records, rollups;
      var after := Upsert(before, Groups(all, period), k => Rolled(all, before, k));
      RollUpIs(Now(), period, after);
      rollups := after;
    }

    method GetCurrentUsage(org: string, dimension: string, period: string) returns (total: real)
      ensures total == Usage(Now(), org, dimension, period)
    {
      var left := Selected(rollups, org, dimension, period);
      total := 0.0;
      while left != {}
        invariant left <= rollups.Keys
        invariant total + Total(rollups, left) == Usage(Now(), org, dimension, period)
        decreases |left|
      {
        var k :| k in left;
        TotalWithout(rollups, left, k);
        left := left - {k};
        total := total + rollups[k].total;
      }
    }

    /** The garbage collector's purge of old raw records. */
    method Purge(cutoff: int)
      modifies this`records
      ensures records == Kept(old(records), cutoff)
    {
      var kept: seq<Record> := [];
      for i := 0 to |records|
        invariant records == old(records) && kept == Kept(records[..i], cutoff)
      {
        assert records[..i + 1][..i] == records[..i];
        if records[i].at >= cutoff {
          kept := kept + [records[i]];
        }
      }
      assert records[..|records|] == records;
      records := kept;
    }
  }

  function Kept(records: seq<Record>, cutoff: int): (kept: seq<Record>)
    ensures forall r :: r in kept <==> r in records && r.at >= cutoff
  {
    if records == [] then []
    else
      var n := |records| - 1;
      Kept(records[..n], cutoff) + if records[n].at >= cutoff then [records[n]] else []
  }

  // ------------------------------------------------------------------- totals

  /** The quantity of all records with keys in a set. */
  function SumIn(records: seq<Record>, keys: set<Key>): real {
    if records == [] then 0.0
    else
      var n := |records| - 1;
      SumIn(records[..n], keys) + if records[n].key in keys then records[n].quantity else 0.0
  }

  lemma {:induction false} SumInSplit(records: seq<Record>, keys: set<Key>, k: Key)
    requires k in keys
    ensures SumIn(records, keys) == SumIn(records, keys - {k}) + GroupSum(records, k)
  {
    if records != [] {
      SumInSplit(records[..|records| - 1], keys, k);
    }
  }

  lemma {:induction false} SumInNone(records: seq<Record>)
    ensures SumIn(records, {}) == 0.0
  {
    if records != [] {
      SumInNone(records[..|records| - 1]);
    }
  }

  lemma {:induction false} TotalIsSumIn(records: seq<Record>, rollups: map<Key, Rollup>, keys: set<Key>)
    requires keys <= rollups.Keys && forall k :: k in keys ==> rollups[k].total == GroupSum(records, k)
    ensures Total(rollups, keys) == SumIn(records, keys)
    decreases |keys|
  {
    if keys == {} {
      SumInNone(records);
    } else {
      var k :| k in keys;
      TotalWithout(rollups, keys, k);
      SumInSplit(records, keys, k);
      TotalIsSumIn(records, rollups, keys - {k});
    }
  }

  lemma {:induction false} RawIsSumIn(records: seq<Record>, keys: set<Key>, org: string, dimension: string, period: string)
    requires forall r :: r in records ==> (r.key in keys <==> Counts(r.key, org, dimension, period))
    ensures RawUsage(records, org, dimension, period) == SumIn(records, keys)
  {
    if records != [] {
      var n := |records| - 1;
      assert records[n] in records && forall r :: r in records[..n] ==> r in records;
      RawIsSumIn(records[..n], keys, org, dimension, period);
    }
  }

  lemma {:induction false} TotalDisjoint(rollups: map<Key, Rollup>, a: set<Key>, b: set<Key>)
    requires a <= rollups.Keys && b <= rollups.Keys && a !! b
    ensures Total(rollups, a + b) == Total(rollups, a) + Total(rollups, b)
    decreases |a|
  {
    if a == {} {
      assert a + b == b;
    } else {
      var k :| k in a;
      TotalWithout(rollups, a, k);
      TotalWithout(rollups, a + b, k);
      assert a + b - {k} == (a - {k}) + b;
      TotalDisjoint(rollups, a - {k}, b);
    }
  }

  lemma {:induction false} TotalSame(r1: map<Key, Rollup>, r2: map<Key, Rollup>, keys: set<Key>)
    requires keys <= r1.Keys && keys <= r2.Keys && forall k :: k in keys ==> r1[k] == r2[k]
    ensures Total(r1, keys) == Total(r2, keys)
    decreases |keys|
  {
    if keys != {} {
      var k :| k in keys;
      TotalWithout(r1, keys, k);
      TotalWithout(r2, keys, k);
      TotalSame(r1, r2, keys - {k});
    }
  }

  /** Rollup rows of the period whose records are all gone. */
  function Stale(s: State, org: string, dimension: string, period: string): set<Key> {
    Selected(s.rollups, org, dimension, period) - Groups(s.records, period)
  }

  lemma GroupsOf(records: seq<Record>, period: string, k: Key)
    ensures k in Groups(records, period) <==> k.period == period && exists r :: r in records && r.key == k
  {
    if r :| r in records && r.key == k && k.period == period {
      var i :| 0 <= i < |records| && records[i] == r;
      assert records[i].key in Groups(records, period);
    }
    if k in Groups(records, period) {
      var i :| 0 <= i < |records| && records[i].key == k;
      assert records[i] in records;
    }
  }

  /**
    From any state: after a rollup, the usage read for an organisation and
    dimension is the raw total over all its projects plus what stale rows keep.
   */
  lemma UsageAfterRollup(s: State, org: string, dimension: string, period: string)
    ensures Usage(RollUp(s, period), org, dimension, period)
         == RawUsage(s.records, org, dimension, period) + Total(s.rollups, Stale(s, org, dimension, period))
  {
    var after := RollUp(s, period).rollups;
    var all, stale := Selected(after, org, dimension, period), Stale(s, org, dimension, period);
    var live := all - stale;
    assert all == live + stale;
    TotalDisjoint(after, live, stale);
    TotalSame(after, s.rollups, stale);
    TotalIsSumIn(s.records, after, live);
    forall r | r in s.records ensures r.key in live <==> Counts(r.key, org, dimension, period) {
      GroupsOf(s.records, period, r.key);
    }
    RawIsSumIn(s.records, live, org, dimension, period);
  }

  /** Rolling up again changes nothing. */
  lemma RollUpTwice(s: State, period: string)
    ensures RollUp(RollUp(s, period), period) == RollUp(s, period)
  {}

  /** Rolling up one period leaves what is read for another. */
  lemma OtherPeriods(s: State, period: string, org: string, dimension: string, other: string)
    requires other != period
    ensures Usage(RollUp(s, period), org, dimension, other) == Usage(s, org, dimension, other)
  {
    var keys := Selected(s.rollups, org, dimension, other);
    assert keys == Selected(RollUp(s, period).rollups, org, dimension, other);
    TotalSame(RollUp(s, period).rollups, s.rollups, keys);
  }

  // ---------------------------------------------------------------------- runs

  datatype Op = Add(record: Record) | RollPeriod(period: string) | Drop(cutoff: int)

  function Apply(s: State, op: Op): State {
    match op
    case Add(r) => s.(records := s.records + [r])
    case RollPeriod(period) => RollUp(s, period)
    case Drop(cutoff) => s.(records := Kept(s.records, cutoff))
  }

  function Exec(s: State, ops: seq<Op>): State
    decreases |ops|
  {
    if ops == [] then s else Exec(Apply(s, ops[0]), ops[1..])
  }

  /** Every rollup row has a record. */
  ghost predicate Backed(s: State) {
    forall k :: k in s.rollups ==> exists r :: r in s.records && r.key == k
  }

  lemma {:induction false} AppendOnlyBacked(s: State, ops: seq<Op>)
    requires Backed(s) && forall op :: op in ops ==> !op.Drop?
    ensures Backed(Exec(s, ops))
    decreases |ops|
  {
    if ops != [] {
      var after := Apply(s, ops[0]);
      forall k | k in after.rollups ensures exists r :: r in after.records && r.key == k {
        if k in s.rollups {
          var r :| r in s.records && r.key == k;
          assert r in after.records;
        } else {
          GroupsOf(s.records, ops[0].period, k);
        }
      }
      AppendOnlyBacked(after, ops[1..]);
    }
  }

  /** As long as raw records are only added, a rollup makes the usage read exactly the raw total. */
  lemma AppendOnlyExact(ops: seq<Op>, org: string, dimension: string, period: string)
    requires forall op :: op in ops ==> !op.Drop?
    ensures var s := Exec(EMPTY, ops);
            Usage(RollUp(s, period), org, dimension, period) == RawUsage(s.records, org, dimension, period)
  {
    var s := Exec(EMPTY, ops);
    AppendOnlyBacked(EMPTY, ops);
    UsageAfterRollup(s, org, dimension, period);
    forall k | k in Selected(s.rollups, org, dimension, period) ensures k in Groups(s.records, period) {
      GroupsOf(s.records, period, k);
    }
    assert Stale(s, org, dimension, period) == {};
  }

  lemma {:induction false} LeastUnit(records: seq<Record>, k: Key)
    ensures match GroupUnit(records, k)
            case None => forall r :: r in records ==> r.key != k
            case Some(unit) =>
              && (exists r :: r in records && r.key == k && r.unit == unit)
              && (forall r :: r in records && r.key == k ==> r.unit == unit || Less(unit, r.unit))
  {
    if records != [] {
      var n := |records| - 1;
      LeastUnit(records[..n], k);
      assert records == records[..n] + [records[n]] && records[n] in records;
      var rest := GroupUnit(records[..n], k);
      if rest.Some? && records[n].key == k {
        LessTotal(rest.value, records[n].unit);
        forall r | r in records[..n] && r.key == k && Less(records[n].unit, rest.value) ensures Less(records[n].unit, r.unit) {
          if r.unit != rest.value { LessTrans(records[n].unit, rest.value, r.unit); }
        }
      }
    }
  }

  /** A group's first rollup takes the least of its records' units; no later operation changes it. */
  lemma UnitIsFirstLeast(s: State, period: string, k: Key, ops: seq<Op>)
    requires k !in s.rollups && k in Groups(s.records, period)
    ensures var end := Exec(RollUp(s, period), ops);
            && k in end.rollups
            && (exists r :: r in s.records && r.key == k && r.unit == end.rollups[k].unit)
            && (forall r :: r in s.records && r.key == k ==> r.unit == end.rollups[k].unit || Less(end.rollups[k].unit, r.unit))
  {
    LeastUnit(s.records, k);
    GroupsOf(s.records, period, k);
    UnitKept(RollUp(s, period), ops, k);
  }

  lemma {:induction false} UnitKept(s: State, ops: seq<Op>, k: Key)
    requires k in s.rollups
    ensures k in Exec(s, ops).rollups && Exec(s, ops).rollups[k].unit == s.rollups[k].unit
    decreases |ops|
  {
    if ops != [] {
      UnitKept(Apply(s, ops[0]), ops[1..], k);
    }
  }
}
