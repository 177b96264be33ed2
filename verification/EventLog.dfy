/** Folding an ordered log of events over a state with a reducer that can raise. */
module EventLog {
  import opened Results

  function Folded<S, E>(apply: (S, E) -> Result<S>, s: S, events: seq<E>): Result<S> {
    if events == [] then Ok(s)
    else
      var before :- Folded(apply, s, events[..|events| - 1]);
      apply(before, events[|events| - 1])
  }

  lemma FoldedOne<S, E>(apply: (S, E) -> Result<S>, s: S, event: E)
    ensures Folded(apply, s, [event]) == apply(s, event)
  {
    assert [event][..0] == [];
  }

  lemma FoldedMore<S, E>(apply: (S, E) -> Result<S>, s: S, events: seq<E>, event: E)
    requires Folded(apply, s, events).Ok?
    ensures Folded(apply, s, events + [event]) == apply(Folded(apply, s, events).value, event)
  {
    assert (events + [event])[..|events|] == events;
  }

  lemma {:induction false} FoldedConcat<S, E>(apply: (S, E) -> Result<S>, s: S, a: seq<E>, b: seq<E>)
    requires Folded(apply, s, a).Ok?
    ensures Folded(apply, s, a + b) == Folded(apply, Folded(apply, s, a).value, b)
    decreases |b|
  {
    if b == [] {
      assert a + b == a;
    } else {
      var n := |b| - 1;
      assert (a + b)[..|a + b| - 1] == a + b[..n];
      FoldedConcat(apply, s, a, b[..n]);
    }
  }

  lemma {:induction false} RaisedStays<S, E>(apply: (S, E) -> Result<S>, s: S, events: seq<E>, n: nat)
    requires n <= |events| && Folded(apply, s, events[..n]).Raised?
    ensures Folded(apply, s, events).Raised?
    decreases |events|
  {
    if n < |events| {
      var init := events[..|events| - 1];
      assert init[..n] == events[..n];
      RaisedStays(apply, s, init, n);
    } else {
      assert events[..n] == events;
    }
  }

  // The loop that replays a log.
  method Replay<S, E>(apply: (S, E) -> Result<S>, initial: S, events: seq<E>) returns (r: Result<S>)
    ensures r == Folded(apply, initial, events)
  {
    var state := initial;
    for i := 0 to |events|
      invariant Folded(apply, initial, events[..i]) == Ok(state)
    {
      assert events[..i + 1][..i] == events[..i];
      var next := apply(state, events[i]);
      if next.Raised? {
        RaisedStays(apply, initial, events, i + 1);
        return Raised;
      }
      state := next.value;
    }
    assert events[..|events|] == events;
    return Ok(state);
  }
}
