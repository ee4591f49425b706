/** GetOrLoad's single flight: callers with one key string share one load. */
module SingleFlight {
  import opened Common

  /** A GetOrLoad call that missed: before Do, sharing a flight, leading one (re-checking, then loading), or back. */
  datatype Caller<K, V> =
    | Missed(key: K)
    | Waiting(key: K, flight: nat)
    | Leading(key: K, flight: nat, loading: bool)
    | Returned(key: K, result: Option<V>, loadedFor: K)

  datatype Landed<K, V> = Landed(result: Option<V>, loadedFor: K)

  datatype World<!K, V> = World(
    callers: seq<Caller<K, V>>,
    flights: map<string, nat>,              // the group: key string to the flight in progress
    landed: map<nat, Landed<K, V>>,         // finished flights
    owners: map<nat, K>,                    // the key each flight was started for
    next: nat)

  datatype Step<K, V> =
    | Call(key: K)
    | Do(i: nat)                            // join the flight for the key string, or start one
    | Recheck(i: nat, hit: Option<V>)       // inside the flight, look in the cache again
    | Loaded(i: nat, result: Option<V>)     // load returned a value, or an error (None)
    | Wake(i: nat)

  ghost predicate Possible<K, V>(w: World<K, V>, s: Step<K, V>) {
    match s
    case Call(_) => true
    case Do(i) => i < |w.callers| && w.callers[i].Missed?
    case Recheck(i, _) => i < |w.callers| && w.callers[i].Leading? && !w.callers[i].loading
    case Loaded(i, _) => i < |w.callers| && w.callers[i].Leading? && w.callers[i].loading
    case Wake(i) => i < |w.callers| && w.callers[i].Waiting? && w.callers[i].flight in w.landed
  }

  ghost function Land<K, V>(ks: K -> string, w: World<K, V>, i: nat, result: Option<V>): World<K, V>
    requires i < |w.callers| && w.callers[i].Leading?
  {
    var c := w.callers[i];
    w.(callers := w.callers[i := Returned(c.key, result, c.key)],
       flights := w.flights - {ks(c.key)},
       landed := w.landed[c.flight := Landed(result, c.key)])
  }

  ghost function Next<K, V>(ks: K -> string, w: World<K, V>, s: Step<K, V>): World<K, V>
    requires Possible(w, s)
  {
    match s
    case Call(key) => w.(callers := w.callers + [Missed(key)])
    case Do(i) =>
      var key := w.callers[i].key;
      if ks(key) in w.flights then w.(callers := w.callers[i := Waiting(key, w.flights[ks(key)])])
      else w.(callers := w.callers[i := Leading(key, w.next, false)], flights := w.flights[ks(key) := w.next],
              owners := w.owners[w.next := key], next := w.next + 1)
    case Recheck(i, hit) =>
      if hit.Some? then Land(ks, w, i, hit) else w.(callers := w.callers[i := w.callers[i].(loading := true)])
    case Loaded(i, result) => Land(ks, w, i, result)
    case Wake(i) =>
      var c := w.callers[i];
      w.(callers := w.callers[i := Returned(c.key, w.landed[c.flight].result, w.landed[c.flight].loadedFor)])
  }

  ghost predicate FlightsOk<K, V>(ks: K -> string, w: World<K, V>) {
    && (forall s :: s in w.flights ==> w.flights[s] in w.owners && ks(w.owners[w.flights[s]]) == s)
    && (forall f :: f in w.owners ==> f < w.next)
    && (forall f :: f in w.landed ==> f in w.owners && w.landed[f].loadedFor == w.owners[f])
  }

  /** A leader owns the flight under its key string. */
  ghost predicate Leads<K, V>(ks: K -> string, w: World<K, V>, c: Caller<K, V>)
    requires c.Leading?
  {
    c.flight in w.owners && w.owners[c.flight] == c.key && ks(c.key) in w.flights && w.flights[ks(c.key)] == c.flight
  }

  ghost predicate SameFlight<K, V>(a: Caller<K, V>, b: Caller<K, V>) { a.Leading? && b.Leading? && a.flight == b.flight }

  ghost predicate LeadersOk<K, V>(ks: K -> string, w: World<K, V>) {
    && (forall i :: 0 <= i < |w.callers| && w.callers[i].Leading? ==> Leads(ks, w, w.callers[i]))
    && (forall i, j :: 0 <= i < |w.callers| && 0 <= j < |w.callers| && SameFlight(w.callers[i], w.callers[j]) ==> i == j)
  }

  ghost predicate SharersOk<K, V>(ks: K -> string, w: World<K, V>) {
    && (forall i :: 0 <= i < |w.callers| && w.callers[i].Waiting? ==>
          w.callers[i].flight in w.owners && ks(w.owners[w.callers[i].flight]) == ks(w.callers[i].key))
    && (forall i :: 0 <= i < |w.callers| && w.callers[i].Returned? ==> ks(w.callers[i].loadedFor) == ks(w.callers[i].key))
  }

  ghost predicate Inv<K, V>(ks: K -> string, w: World<K, V>) { FlightsOk(ks, w) && LeadersOk(ks, w) && SharersOk(ks, w) }

  ghost predicate Runs<K, V>(ks: K -> string, w: World<K, V>, steps: seq<Step<K, V>>)
    decreases |steps|
  {
    steps == [] || (Possible(w, steps[0]) && Runs(ks, Next(ks, w, steps[0]), steps[1..]))
  }

  ghost function End<K, V>(ks: K -> string, w: World<K, V>, steps: seq<Step<K, V>>): World<K, V>
    requires Runs(ks, w, steps)
    decreases |steps|
  {
    if steps == [] then w else End(ks, Next(ks, w, steps[0]), steps[1..])
  }

  ghost function Start<K, V>(): World<K, V> { World([], map[], map[], map[], 0) }

  lemma LandKeeps<K, V>(ks: K -> string, w: World<K, V>, i: nat, result: Option<V>)
    requires Inv(ks, w) && i < |w.callers| && w.callers[i].Leading?
    ensures Inv(ks, Land(ks, w, i, result))
  {
    var q := Land(ks, w, i, result);
    assert Leads(ks, w, w.callers[i]);
    forall j | 0 <= j < |q.callers| && q.callers[j].Leading? ensures Leads(ks, q, q.callers[j]) {
      assert Leads(ks, w, w.callers[j]);
      var a, b := w.callers[i], w.callers[j];
      assert SameFlight(a, b) <==> a.flight == b.flight;
    }
  }

  lemma DoKeeps<K, V>(ks: K -> string, w: World<K, V>, i: nat)
    requires Inv(ks, w) && Possible(w, Do(i))
    ensures Inv(ks, Next(ks, w, Do(i)))
  {
    var q := Next(ks, w, Do(i));
    forall j | 0 <= j < |q.callers| && q.callers[j].Leading? ensures Leads(ks, q, q.callers[j]) {
      if j != i { assert Leads(ks, w, w.callers[j]); }
    }
    forall j, k | 0 <= j < |q.callers| && 0 <= k < |q.callers| && SameFlight(q.callers[j], q.callers[k]) ensures j == k {
      if j != i { assert Leads(ks, w, w.callers[j]); }
      if k != i { assert Leads(ks, w, w.callers[k]); }
    }
  }

  lemma StepKeeps<K, V>(ks: K -> string, w: World<K, V>, s: Step<K, V>)
    requires Inv(ks, w) && Possible(w, s)
    ensures Inv(ks, Next(ks, w, s))
  {
    match s {
      case Do(i) => DoKeeps(ks, w, i);
      case Loaded(i, result) => LandKeeps(ks, w, i, result);
      case Recheck(i, hit) =>
        if hit.Some? {
          LandKeeps(ks, w, i, hit);
        } else {
          var q := Next(ks, w, s);
          forall j | 0 <= j < |q.callers| && q.callers[j].Leading? ensures Leads(ks, q, q.callers[j]) {
            assert Leads(ks, w, w.callers[j]);
          }
          forall j, k | 0 <= j < |q.callers| && 0 <= k < |q.callers| && SameFlight(q.callers[j], q.callers[k]) ensures j == k {
            assert SameFlight(w.callers[j], w.callers[k]);
          }
        }
      case Call(_) =>
        forall j | 0 <= j < |w.callers| && w.callers[j].Leading? ensures Leads(ks, Next(ks, w, s), w.callers[j]) {
          assert Leads(ks, w, w.callers[j]);
        }
      case Wake(_) =>
        forall j | 0 <= j < |w.callers| && w.callers[j].Leading? ensures Leads(ks, Next(ks, w, s), w.callers[j]) {
          assert Leads(ks, w, w.callers[j]);
        }
    }
  }

  lemma {:induction false} RunKeeps<K, V>(ks: K -> string, w: World<K, V>, steps: seq<Step<K, V>>)
    requires Inv(ks, w) && Runs(ks, w, steps)
    ensures Inv(ks, End(ks, w, steps))
    decreases |steps|
  {
    if steps != [] {
      StepKeeps(ks, w, steps[0]);
      RunKeeps(ks, Next(ks, w, steps[0]), steps[1..]);
    }
  }

  /** At most one load is in flight per key string, hence per key. */
  lemma OneLoadPerKey<K, V>(ks: K -> string, steps: seq<Step<K, V>>, i: nat, j: nat)
    requires Runs(ks, Start(), steps)
    requires var w := End(ks, Start(), steps);
             i < |w.callers| && j < |w.callers| && w.callers[i].Leading? && w.callers[j].Leading?
             && ks(w.callers[i].key) == ks(w.callers[j].key)
    ensures i == j
  {
    RunKeeps(ks, Start(), steps);
    var w := End(ks, Start(), steps);
    assert Leads(ks, w, w.callers[i]) && Leads(ks, w, w.callers[j]);
    assert SameFlight(w.callers[i], w.callers[j]);
  }

  ghost predicate Injective<K(!new)>(ks: K -> string) { forall a, b :: ks(a) == ks(b) ==> a == b }

  ghost predicate OwnResults<K, V>(w: World<K, V>) {
    forall i :: 0 <= i < |w.callers| && w.callers[i].Returned? ==> w.callers[i].loadedFor == w.callers[i].key
  }

  /** Every caller is handed a value loaded for its own key, in every run, iff no two keys print alike. */
  lemma OwnResultsIffInjective<K(!new), V>(ks: K -> string, v: V)
    ensures Injective(ks) <==> forall steps: seq<Step<K, V>> :: Runs(ks, Start(), steps) ==> OwnResults(End(ks, Start(), steps))
  {
    if Injective(ks) {
      forall steps: seq<Step<K, V>> | Runs(ks, Start(), steps) ensures OwnResults(End(ks, Start(), steps)) {
        RunKeeps(ks, Start(), steps);
      }
    } else {
      var a, b :| ks(a) == ks(b) && a != b;
      var steps: seq<Step<K, V>> := CrossedKeys(ks, a, b, v);
      assert Runs(ks, Start(), steps) && !OwnResults(End(ks, Start(), steps));
    }
  }

  /** Two keys that print alike: the second caller joins the first one's flight and gets its value. */
  lemma CrossedKeys<K, V>(ks: K -> string, a: K, b: K, v: V) returns (steps: seq<Step<K, V>>)
    requires ks(a) == ks(b) && a != b
    ensures Runs(ks, Start(), steps) && !OwnResults(End(ks, Start(), steps))
  {
    var w0: World<K, V> := Start();
    var w1 := Next(ks, w0, Call(a));
    var w2 := Next(ks, w1, Call(b));
    var w3 := Next(ks, w2, Do(0));
    var w4 := Next(ks, w3, Do(1));
    var w5 := Next(ks, w4, Recheck(0, None));
    var w6 := Next(ks, w5, Loaded(0, Some(v)));
    var w7 := Next(ks, w6, Wake(1));
    assert w7.callers[1] == Returned(b, Some(v), a);
    var s6 := Prepend(ks, w6, Wake(1), []);
    var s5 := Prepend(ks, w5, Loaded(0, Some(v)), s6);
    var s4 := Prepend(ks, w4, Recheck(0, None), s5);
    var s3 := Prepend(ks, w3, Do(1), s4);
    var s2 := Prepend(ks, w2, Do(0), s3);
    var s1 := Prepend(ks, w1, Call(b), s2);
    steps := Prepend(ks, w0, Call(a), s1);
  }

  lemma Prepend<K, V>(ks: K -> string, w: World<K, V>, s: Step<K, V>, rest: seq<Step<K, V>>) returns (steps: seq<Step<K, V>>)
    requires Possible(w, s) && Runs(ks, Next(ks, w, s), rest)
    ensures Runs(ks, w, steps) && End(ks, w, steps) == End(ks, Next(ks, w, s), rest)
  {
    steps := [s] + rest;
    assert steps[1..] == rest;
  }

  /** Some leader's load gave that result, or its second look in the cache found it. */
  ghost predicate Produced<K, V>(steps: seq<Step<K, V>>, result: Option<V>) {
    exists k, i :: 0 <= k < |steps| && (steps[k] == Loaded(i, result) || (result.Some? && steps[k] == Recheck(i, result)))
  }

  ghost predicate AllProduced<K, V>(w: World<K, V>, past: seq<Step<K, V>>) {
    && (forall i :: 0 <= i < |w.callers| && w.callers[i].Returned? ==> Produced(past, w.callers[i].result))
    && (forall f :: f in w.landed ==> Produced(past, w.landed[f].result))
  }

  lemma ProducedStep<K, V>(ks: K -> string, w: World<K, V>, s: Step<K, V>, past: seq<Step<K, V>>)
    requires Possible(w, s) && AllProduced(w, past)
    ensures AllProduced(Next(ks, w, s), past + [s])
  {
    var all := past + [s];
    assert all[|past|] == s;
    forall result | Produced(past, result) ensures Produced(all, result) {
      var k, i :| 0 <= k < |past| && (past[k] == Loaded(i, result) || (result.Some? && past[k] == Recheck(i, result)));
      assert all[k] == past[k];
    }
    assert s.Loaded? ==> Produced(all, s.result);
    assert s.Recheck? && s.hit.Some? ==> Produced(all, s.hit);
    hide Produced;
  }

  lemma {:induction false} RunProduces<K, V>(ks: K -> string, w: World<K, V>, steps: seq<Step<K, V>>, past: seq<Step<K, V>>)
    requires Runs(ks, w, steps) && AllProduced(w, past)
    ensures AllProduced(End(ks, w, steps), past + steps)
    decreases |steps|
  {
    if steps == [] {
      assert past + steps == past;
    } else {
      ProducedStep(ks, w, steps[0], past);
      hide AllProduced, Next;
      RunProduces(ks, Next(ks, w, steps[0]), steps[1..], past + [steps[0]]);
      assert past + [steps[0]] + steps[1..] == past + steps;
    }
  }

  /** Whatever a caller is handed, some load or second look produced it in this run. */
  lemma ResultsAreProduced<K, V>(ks: K -> string, steps: seq<Step<K, V>>, i: nat)
    requires Runs(ks, Start(), steps) && i < |End(ks, Start(), steps).callers| && End(ks, Start(), steps).callers[i].Returned?
    ensures Produced(steps, End(ks, Start(), steps).callers[i].result)
  {
    RunProduces(ks, Start(), steps, []);
    assert [] + steps == steps;
  }
}
