/** The in-memory event bus: subscription, and delivery with retries and dead-lettering. */
module EventBus {
  import opened Common
  import opened Retry

  const WILDCARD := "*"

  datatype Handler = Handler(id: nat, name: string)

  datatype Letter = Letter(event: string, handler: string, failure: Failure)

  /** Handlers are retried on every error but an invalid argument. */
  function Retryable(f: Failure): bool { f.code != InvalidArgument }

  /** The run of the i-th delivery of one publication. */
  type Runs = nat -> Attempts

  predicate Fails(n: nat, a: Attempts)
    requires n >= 1
  {
    Outcome(n, Retryable, a) != None
  }

  function LetterFor(n: nat, event: string, h: Handler, a: Attempts): Letter
    requires n >= 1 && Fails(n, a)
  {
    Letter(event, h.name, Outcome(n, Retryable, a).value)
  }

  /** The dead letters of delivering to hs in order. */
  function Letters(n: nat, event: string, hs: seq<Handler>, runs: Runs): (ls: seq<Letter>)
    requires n >= 1
  {
    if hs == [] then []
    else
      var k := |hs| - 1;
      Letters(n, event, hs[..k], runs) + if Fails(n, runs(k)) then [LetterFor(n, event, hs[k], runs(k))] else []
  }

  lemma NoLetters(n: nat, event: string, runs: Runs)
    requires n >= 1
    ensures Letters(n, event, [], runs) == []
  {}

  lemma LettersGrow(n: nat, event: string, hs: seq<Handler>, i: nat, runs: Runs)
    requires n >= 1 && i < |hs|
    ensures Letters(n, event, hs[..i + 1], runs)
         == Letters(n, event, hs[..i], runs) + if Fails(n, runs(i)) then [LetterFor(n, event, hs[i], runs(i))] else []
    ensures Fails(n, runs(i)) <==> Outcome(n, Retryable, runs(i)).Some?
    ensures Fails(n, runs(i)) ==> LetterFor(n, event, hs[i], runs(i)).failure == Outcome(n, Retryable, runs(i)).value
  {
    hide Outcome;
    assert hs[..i + 1][..i] == hs[..i];
  }

  class InMemory {
    const maxAttempts: int
    var subs: map<string, seq<Handler>>
    var dead: seq<Letter>

    constructor (maxAttempts: int)
      ensures this.maxAttempts == Limit(maxAttempts) && subs == map[] && dead == []
    {
      this.maxAttempts := if maxAttempts < 1 then 3 else maxAttempts;
      subs := map[];
      dead := [];
    }

    function Subscribed(name: string): seq<Handler>
      reads this
    {
      if name in subs then subs[name] else []
    }

    method Subscribe(name: string, h: Handler)
      modifies this`subs
      ensures Subscribed(name) == old(Subscribed(name)) + [h]
      ensures forall other :: other != name ==> Subscribed(other) == old(Subscribed(other))
    {
      subs := subs[name := (if name in subs then subs[name] else []) + [h]];
    }

    method Matching(name: string) returns (hs: seq<Handler>)
      ensures hs == Subscribed(name) + Subscribed(WILDCARD)
    {
      hs := [];
      if name in subs {
        hs := hs + subs[name];
      }
      if WILDCARD in subs {
        hs := hs + subs[WILDCARD];
      }
    }

    method Deliver(h: Handler, event: string, a: Attempts) returns (r: Option<Failure>, calls: nat)
      requires maxAttempts >= 1
      modifies this`dead
      ensures r == Outcome(maxAttempts, Retryable, a) && calls == Calls(maxAttempts, Retryable, a)
      ensures dead == old(dead) + if Fails(maxAttempts, a) then [LetterFor(maxAttempts, event, h, a)] else []
    {
      r, calls := Do(maxAttempts, Retryable, a);
      if r.Some? {
        dead := dead + [Letter(event, h.name, r.value)];
      }
    }

    /** calls[i] is how often the i-th matching handler was called; errs is what the returned error joins. */
    method Publish(event: string, runs: Runs) returns (errs: seq<Failure>, calls: seq<nat>)
      requires maxAttempts >= 1
      modifies this`dead
      ensures var hs := Subscribed(event) + Subscribed(WILDCARD);
              && |calls| == |hs| && (forall i :: 0 <= i < |hs| ==> calls[i] == Calls(maxAttempts, Retryable, runs(i)))
              && dead == old(dead) + Letters(maxAttempts, event, hs, runs)
              && |errs| == |Letters(maxAttempts, event, hs, runs)|
              && forall k :: 0 <= k < |errs| ==> errs[k] == Letters(maxAttempts, event, hs, runs)[k].failure
    {
      hide Outcome, Calls, Letters, Fails, LetterFor;
      var hs := Matching(event);
      errs, calls := [], [];
      ghost var before := dead;
      NoLetters(maxAttempts, event, runs);
      for i := 0 to |hs|
        invariant |calls| == i && forall k :: 0 <= k < i ==> calls[k] == Calls(maxAttempts, Retryable, runs(k))
        invariant dead == before + Letters(maxAttempts, event, hs[..i], runs)
        invariant |errs| == |Letters(maxAttempts, event, hs[..i], runs)|
        invariant forall k :: 0 <= k < |errs| ==> errs[k] == Letters(maxAttempts, event, hs[..i], runs)[k].failure
      {
        LettersGrow(maxAttempts, event, hs, i, runs);
        var r, n := Deliver(hs[i], event, runs(i));
        if r.Some? {
          errs := errs + [r.value];
        }
        calls := calls + [n];
      }
      assert hs[..|hs|] == hs;
    }

    /** accepts(i): the pool takes the i-th delivery; the first refusal ends the publication. */
    method PublishAsync(event: string, accepts: nat -> bool) returns (enqueued: seq<Handler>, r: Result<()>)
      ensures enqueued <= Subscribed(event) + Subscribed(WILDCARD)
      ensures forall i :: 0 <= i < |enqueued| ==> accepts(i)
      ensures r.Ok? <==> enqueued == Subscribed(event) + Subscribed(WILDCARD)
      ensures r.Err? ==> r.code == Unavailable && !accepts(|enqueued|)
    {
      var hs := Matching(event);
      enqueued := [];
      for i := 0 to |hs|
        invariant enqueued == hs[..i]
        invariant forall k :: 0 <= k < i ==> accepts(k)
      {
        if !accepts(i) {
          return enqueued, Err(Unavailable);
        }
        enqueued := enqueued + [hs[i]];
      }
      r := Ok(());
    }
  }

  lemma LetterSays(n: nat, event: string, h: Handler, a: Attempts)
    requires n >= 1
    ensures Fails(n, a) <==> Outcome(n, Retryable, a).Some?
    ensures Fails(n, a) ==> LetterFor(n, event, h, a) == Letter(event, h.name, Outcome(n, Retryable, a).value)
  {
    hide Outcome;
  }

  /** The dead letters are exactly the handlers that finally failed, once each and in delivery order, with event, name and error. */
  lemma {:induction false} DeadLettersExactly(n: nat, event: string, hs: seq<Handler>, runs: Runs) returns (from: seq<nat>)
    requires n >= 1
    ensures |from| == |Letters(n, event, hs, runs)|
    ensures forall j, k :: 0 <= j < k < |from| ==> from[j] < from[k]
    ensures forall i :: i in from <==> 0 <= i < |hs| && Outcome(n, Retryable, runs(i)).Some?
    ensures forall k :: 0 <= k < |from| ==>
              (from[k] < |hs| && Outcome(n, Retryable, runs(from[k])).Some?
               && Letters(n, event, hs, runs)[k] == Letter(event, hs[from[k]].name, Outcome(n, Retryable, runs(from[k])).value))
    decreases |hs|
  {
    hide Outcome, LetterFor, Fails, Letters;
    from := [];
    if hs == [] {
      NoLetters(n, event, runs);
    } else {
      var last := |hs| - 1;
      from := DeadLettersExactly(n, event, hs[..last], runs);
      LettersGrow(n, event, hs, last, runs);
      LetterSays(n, event, hs[last], runs(last));
      assert hs[..last + 1] == hs;
      if Fails(n, runs(last)) {
        assert forall k :: 0 <= k < |from| ==> from[k] in from;
        from := from + [last];
      }
    }
  }

  /**
    No handler is called more than n times; one is called at all unless the
    context was cancelled before its turn, and then it is dead-lettered uncalled.
   */
  lemma CalledUnlessCancelled(n: nat, a: Attempts)
    requires n >= 1
    ensures Calls(n, Retryable, a) <= n
    ensures Calls(n, Retryable, a) >= 1 <==> !a.cancelled(1)
    ensures a.cancelled(1) ==> Outcome(n, Retryable, a) == Some(CANCELLED)
  {
    if a.cancelled(1) {
      LastUnique(n, Retryable, a, 1, Ending(n, Retryable, a));
    }
  }

  /** After its first success or invalid argument a handler is not called again, and that is what is reported. */
  lemma StopsForGood(n: nat, a: Attempts, k: nat)
    requires n >= 1 && 1 <= k <= Calls(n, Retryable, a)
    requires a.outcome(k) == None || a.outcome(k).value.code == InvalidArgument
    ensures k == Calls(n, Retryable, a) && Outcome(n, Retryable, a) == a.outcome(k)
  {
    assert Ends(n, Retryable, a, k);
  }

  /** Any other error is retried, undisturbed, until an attempt succeeds or they are used up: three when the configuration says nothing. */
  lemma RetriesTheRest(maxAttempts: int, a: Attempts, k: nat)
    requires 1 <= k <= (if maxAttempts >= 1 then maxAttempts else 3)
    requires forall j :: 1 <= j <= k ==> !a.cancelled(j) && !a.cut(j)
    requires forall j :: 1 <= j < k ==> a.outcome(j).Some? && a.outcome(j).value.code != InvalidArgument
    requires a.outcome(k) == None || k == (if maxAttempts >= 1 then maxAttempts else 3)
    ensures Calls(Limit(maxAttempts), Retryable, a) == k && Outcome(Limit(maxAttempts), Retryable, a) == a.outcome(k)
  {
    DecidedBy(maxAttempts, Retryable, a, k);
  }
}
