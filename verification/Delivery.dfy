// Effectively-once settlement: with the journal in front, a delivery stream
// that repeats or rewinds the log leaves the ledger that delivering each event
// once leaves.

module Delivery {
  import opened Domain
  import opened Ledger

  function HandleAll(l: Ledger, es: seq<Event>): Ledger
    decreases |es|
  {
    if es == [] then l else HandleAll(Handle(l, es[0]), es[1..])
  }

  lemma {:induction false} HandleAllConcat(l: Ledger, a: seq<Event>, b: seq<Event>)
    ensures HandleAll(l, a + b) == HandleAll(HandleAll(l, a), b)
    decreases |a|
  {
    if a == [] {
      assert a + b == b;
    } else {
      assert (a + b)[1..] == a[1..] + b;
      HandleAllConcat(Handle(l, a[0]), a[1..], b);
    }
  }

  // The first occurrence of each ID that is not in seen.
  function Firsts(es: seq<Event>, seen: set<string>): seq<Event>
    decreases |es|
  {
    if es == [] then []
    else if es[0].id in seen then Firsts(es[1..], seen)
    else [es[0]] + Firsts(es[1..], seen + {es[0].id})
  }

  lemma {:induction false} OnlyFirstsMatter(l: Ledger, es: seq<Event>)
    ensures HandleAll(l, es) == HandleAll(l, Firsts(es, l.journal))
    decreases |es|
  {
    if es != [] {
      OnlyFirstsMatter(Handle(l, es[0]), es[1..]);
      if es[0].id !in l.journal {
        var rest := Firsts(es[1..], l.journal + {es[0].id});
        assert ([es[0]] + rest)[1..] == rest;
      }
    }
  }

  // Positions of a consumer that starts at n and only ever moves forward by one
  // or goes back to something it has seen.
  predicate Rewinds(positions: seq<nat>, n: nat)
    decreases |positions|
  {
    positions == []
    || (positions[0] < n && Rewinds(positions[1..], n))
    || (positions[0] == n && Rewinds(positions[1..], n + 1))
  }

  // How far such a consumer gets.
  function Reached(positions: seq<nat>, n: nat): nat
    requires Rewinds(positions, n)
    ensures n <= Reached(positions, n) <= n + |positions|
    decreases |positions|
  {
    if positions == [] then n
    else if positions[0] < n then Reached(positions[1..], n)
    else Reached(positions[1..], n + 1)
  }

  function Delivered(log: seq<Event>, positions: seq<nat>): seq<Event>
    requires forall i :: 0 <= i < |positions| ==> positions[i] < |log|
  {
    seq(|positions|, i requires 0 <= i < |positions| => log[positions[i]])
  }

  ghost predicate DistinctIds(log: seq<Event>) {
    forall i, j :: 0 <= i < j < |log| ==> log[i].id != log[j].id
  }

  // The ledger has journalled exactly the first n events, as far as this log goes.
  ghost predicate JournalAt(l: Ledger, log: seq<Event>, n: nat) {
    n <= |log| && forall i :: 0 <= i < |log| ==> (log[i].id in l.journal <==> i < n)
  }

  lemma {:induction false} RewindsAreHarmless(l: Ledger, log: seq<Event>, positions: seq<nat>, n: nat)
    requires DistinctIds(log) && JournalAt(l, log, n)
    requires forall i :: 0 <= i < |positions| ==> positions[i] < |log|
    requires Rewinds(positions, n)
    ensures Reached(positions, n) <= |log|
    ensures HandleAll(l, Delivered(log, positions)) == HandleAll(l, log[n..Reached(positions, n)])
    ensures JournalAt(HandleAll(l, Delivered(log, positions)), log, Reached(positions, n))
    decreases |positions|
  {
    if positions == [] {
      assert log[n..n] == [];
    } else {
      var l' := Handle(l, log[positions[0]]);
      assert Delivered(log, positions)[1..] == Delivered(log, positions[1..]);
      if positions[0] < n {
        RewindsAreHarmless(l, log, positions[1..], n);
      } else {
        RewindsAreHarmless(l', log, positions[1..], n + 1);
        assert log[n..Reached(positions, n)][1..] == log[n + 1..Reached(positions, n)];
      }
    }
  }
}
