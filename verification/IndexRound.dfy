/** One round over a list of unresolved items: items may be skipped, the others get the next
    slot of a reply in order, and those that are done afterwards leave the list. The code keeps
    a position into the list and one into the reply; here is what the two amount to. */
module IndexRound {
  datatype Progress<S> = Progress(states: seq<S>, unresolved: seq<nat>)

  predicate Within(s: seq<nat>, n: nat) {
    forall k :: 0 <= k < |s| ==> s[k] < n
  }

  /** The loop that builds the query: the items of todo that are not skipped. */
  function Asking<S>(states: seq<S>, todo: seq<nat>, skip: S -> bool): (qs: seq<nat>)
    requires Within(todo, |states|)
    ensures |qs| <= |todo| && Within(qs, |states|)
  {
    if todo == [] then []
    else (if skip(states[todo[0]]) then [] else [todo[0]]) + Asking(states, todo[1..], skip)
  }

  /** The loop that reads the reply: q is the next slot, step(s, q) the state after the answer there. */
  function RoundOver<S>(states: seq<S>, todo: seq<nat>, kept: seq<nat>, skip: S -> bool, done: S -> bool,
                        step: (S, nat) -> S, q: nat)
    : (g: Progress<S>)
    requires Within(todo, |states|) && Within(kept, |states|)
    ensures |g.states| == |states| && Within(g.unresolved, |states|)
    decreases todo
  {
    if todo == [] then Progress(states, kept)
    else
      var i := todo[0];
      if skip(states[i]) then RoundOver(states, todo[1..], kept + [i], skip, done, step, q)
      else
        var st := step(states[i], q);
        RoundOver(states[i := st], todo[1..], if done(st) then kept else kept + [i], skip, done, step, q + 1)
  }

  lemma AskingFrom<S>(states: seq<S>, todo: seq<nat>, pos: nat, skip: S -> bool)
    requires Within(todo, |states|) && pos < |todo|
    ensures Asking(states, todo[pos..], skip)
         == (if skip(states[todo[pos]]) then [] else [todo[pos]]) + Asking(states, todo[pos + 1..], skip)
  {
    assert todo[pos..][1..] == todo[pos + 1..];
  }

  function IndexOf(s: seq<nat>, x: nat): (k: nat)
    requires x in s
    ensures k < |s| && s[k] == x
  {
    if s[0] == x then 0 else 1 + IndexOf(s[1..], x)
  }

  ghost predicate Increasing(s: seq<nat>) {
    forall a, b :: 0 <= a < b < |s| ==> s[a] < s[b]
  }

  /** The list names exactly the items that are not done, each once, in order. */
  ghost predicate Tracks<S>(g: Progress<S>, done: S -> bool) {
    && Increasing(g.unresolved) && Within(g.unresolved, |g.states|)
    && (forall i :: 0 <= i < |g.states| ==> (i in g.unresolved <==> !done(g.states[i])))
  }

  lemma {:induction false} AskingUnchanged<S>(states: seq<S>, i: nat, st: S, todo: seq<nat>, skip: S -> bool)
    requires Within(todo, |states|) && i < |states| && i !in todo
    ensures Asking(states[i := st], todo, skip) == Asking(states, todo, skip)
  {
    if todo != [] {
      AskingUnchanged(states, i, st, todo[1..], skip);
    }
  }

  lemma {:induction false} UntouchedBy<S>(states: seq<S>, todo: seq<nat>, kept: seq<nat>, skip: S -> bool,
                                          done: S -> bool, step: (S, nat) -> S, q: nat, i: nat)
    requires i < |states| && i !in todo && Within(todo, |states|) && Within(kept, |states|)
    ensures RoundOver(states, todo, kept, skip, done, step, q).states[i] == states[i]
    decreases todo
  {
    if todo != [] {
      var j, rest := todo[0], todo[1..];
      if skip(states[j]) {
        UntouchedBy(states, rest, kept + [j], skip, done, step, q, i);
      } else {
        var st := step(states[j], q);
        UntouchedBy(states[j := st], rest, if done(st) then kept else kept + [j], skip, done, step, q + 1, i);
      }
    }
  }

  lemma {:induction false} AskingMembers<S>(states: seq<S>, todo: seq<nat>, skip: S -> bool, i: nat)
    requires Within(todo, |states|) && i < |states|
    ensures i in Asking(states, todo, skip) <==> i in todo && !skip(states[i])
  {
    if todo != [] {
      AskingMembers(states, todo[1..], skip, i);
      assert i in todo <==> i == todo[0] || i in todo[1..];
    }
  }

  /** The k-th item that asks gets slot q + k of the reply. */
  lemma {:induction false} RoundOverAsked<S>(states: seq<S>, todo: seq<nat>, kept: seq<nat>, skip: S -> bool,
                                             done: S -> bool, step: (S, nat) -> S, q: nat, k: nat, i: nat)
    requires Increasing(todo) && Within(todo, |states|) && Within(kept, |states|) && i < |states|
    requires k < |Asking(states, todo, skip)| && Asking(states, todo, skip)[k] == i
    ensures RoundOver(states, todo, kept, skip, done, step, q).states[i] == step(states[i], q + k)
    decreases todo
  {
    var j, rest := todo[0], todo[1..];
    if skip(states[j]) {
      RoundOverAsked(states, rest, kept + [j], skip, done, step, q, k, i);
    } else {
      var st := step(states[j], q);
      var kept' := if done(st) then kept else kept + [j];
      assert RoundOver(states, todo, kept, skip, done, step, q)
          == RoundOver(states[j := st], rest, kept', skip, done, step, q + 1);
      if k == 0 {
        UntouchedBy(states[j := st], rest, kept', skip, done, step, q + 1, j);
      } else {
        AskedLater(states, todo, skip, st, k, i);
        RoundOverAsked(states[j := st], rest, kept', skip, done, step, q + 1, k - 1, i);
      }
    }
  }

  lemma AskedLater<S>(states: seq<S>, todo: seq<nat>, skip: S -> bool, st: S, k: nat, i: nat)
    requires Increasing(todo) && Within(todo, |states|) && i < |states|
    requires 0 < k < |Asking(states, todo, skip)| && Asking(states, todo, skip)[k] == i && !skip(states[todo[0]])
    ensures var later := Asking(states[todo[0] := st], todo[1..], skip);
      k - 1 < |later| && later[k - 1] == i && i != todo[0]
  {
    AskingUnchanged(states, todo[0], st, todo[1..], skip);
    AskingMembers(states, todo[1..], skip, i);
  }

  /** The others stay as they are. */
  lemma {:induction false} RoundOverNotAsked<S>(states: seq<S>, todo: seq<nat>, kept: seq<nat>, skip: S -> bool,
                                                done: S -> bool, step: (S, nat) -> S, q: nat, i: nat)
    requires Increasing(todo) && Within(todo, |states|) && Within(kept, |states|)
    requires i < |states| && (i in todo ==> skip(states[i]))
    ensures RoundOver(states, todo, kept, skip, done, step, q).states[i] == states[i]
    decreases todo
  {
    if todo != [] {
      var j, rest := todo[0], todo[1..];
      assert j in todo && (i in rest ==> i in todo);
      if skip(states[j]) {
        RoundOverNotAsked(states, rest, kept + [j], skip, done, step, q, i);
      } else {
        var st := step(states[j], q);
        RoundOverNotAsked(states[j := st], rest, if done(st) then kept else kept + [j], skip, done, step, q + 1, i);
      }
    }
  }

  /** What the round keeps: in order, those of todo that are not done afterwards. */
  lemma {:induction false} RoundOverKeeps<S>(states: seq<S>, todo: seq<nat>, kept: seq<nat>, skip: S -> bool,
                                             done: S -> bool, step: (S, nat) -> S, q: nat)
    requires Increasing(kept + todo) && Within(todo, |states|) && Within(kept, |states|)
    requires forall k :: 0 <= k < |todo| ==> !done(states[todo[k]])
    ensures var g := RoundOver(states, todo, kept, skip, done, step, q);
      && Increasing(g.unresolved)
      && (forall i :: 0 <= i < |states| ==> (i in g.unresolved <==> i in kept || (i in todo && !done(g.states[i]))))
    decreases todo
  {
    if todo == [] {
      assert kept + todo == kept;
    } else {
      var i, rest := todo[0], todo[1..];
      assert forall j :: j in todo <==> j == i || j in rest;
      assert kept + [i] + rest == kept + todo;
      DropMiddle(kept, i, rest);
      if skip(states[i]) {
        RoundOverKeeps(states, rest, kept + [i], skip, done, step, q);
        UntouchedBy(states, rest, kept + [i], skip, done, step, q, i);
      } else {
        var st := step(states[i], q);
        var kept' := if done(st) then kept else kept + [i];
        RoundOverKeeps(states[i := st], rest, kept', skip, done, step, q + 1);
        UntouchedBy(states[i := st], rest, kept', skip, done, step, q + 1, i);
      }
    }
  }

  lemma DropMiddle(a: seq<nat>, i: nat, b: seq<nat>)
    requires Increasing(a + [i] + b)
    ensures Increasing(a + b) && i !in b && i !in a
  {
    var s := a + [i] + b;
    assert s[|a|] == i;
    assert forall k :: 0 <= k < |a| ==> s[k] == a[k];
    assert forall k :: 0 <= k < |b| ==> s[|a| + 1 + k] == b[k];
    assert forall k :: 0 <= k < |a + b| ==> (a + b)[k] == if k < |a| then s[k] else s[k + 1];
  }

  /** A whole round on a list that tracks the states: every item that is not done and not
      skipped takes the step for its own slot, nothing else changes, and the new list tracks
      the new states. */
  lemma RoundAt<S>(g: Progress<S>, skip: S -> bool, done: S -> bool, step: (S, nat) -> S, i: nat)
    requires Tracks(g, done) && i < |g.states|
    ensures var qs := Asking(g.states, g.unresolved, skip);
      && (i in qs <==> !done(g.states[i]) && !skip(g.states[i]))
      && RoundOver(g.states, g.unresolved, [], skip, done, step, 0).states[i]
           == if i in qs then step(g.states[i], IndexOf(qs, i)) else g.states[i]
  {
    AskingMembers(g.states, g.unresolved, skip, i);
    if i in Asking(g.states, g.unresolved, skip) {
      AskedTakesSlot(g, skip, done, step, i);
    } else {
      RoundOverNotAsked(g.states, g.unresolved, [], skip, done, step, 0, i);
    }
  }

  lemma AskedTakesSlot<S>(g: Progress<S>, skip: S -> bool, done: S -> bool, step: (S, nat) -> S, i: nat)
    requires Tracks(g, done) && i < |g.states| && i in Asking(g.states, g.unresolved, skip)
    ensures RoundOver(g.states, g.unresolved, [], skip, done, step, 0).states[i]
         == step(g.states[i], IndexOf(Asking(g.states, g.unresolved, skip), i))
  {
    var k := IndexOf(Asking(g.states, g.unresolved, skip), i);
    RoundOverAsked(g.states, g.unresolved, [], skip, done, step, 0, k, i);
    assert 0 + k == k;
  }

  lemma RoundTracks<S>(g: Progress<S>, skip: S -> bool, done: S -> bool, step: (S, nat) -> S)
    requires Tracks(g, done)
    ensures Tracks(RoundOver(g.states, g.unresolved, [], skip, done, step, 0), done)
  {
    var g' := RoundOver(g.states, g.unresolved, [], skip, done, step, 0);
    assert [] + g.unresolved == g.unresolved;
    forall k | 0 <= k < |g.unresolved| ensures !done(g.states[g.unresolved[k]]) {
      assert g.unresolved[k] in g.unresolved;
    }
    RoundOverKeeps(g.states, g.unresolved, [], skip, done, step, 0);
    forall i: nat | i < |g.states| ensures i in g'.unresolved <==> !done(g'.states[i]) {
      if i !in g.unresolved {
        RoundOverNotAsked(g.states, g.unresolved, [], skip, done, step, 0, i);
      }
    }
  }

  /** When the whole batch failed, the code touches only the items that asked and keeps the list. */
  lemma {:induction false} FailedRound<S>(states: seq<S>, todo: seq<nat>, kept: seq<nat>, skip: S -> bool,
                                          done: S -> bool, step: (S, nat) -> S, q: nat, fail: S -> S)
    requires Within(todo, |states|) && Within(kept, |states|)
    requires forall s, k: nat :: step(s, k) == fail(s)
    requires forall k :: 0 <= k < |todo| ==> !done(fail(states[todo[k]]))
    requires Increasing(todo)
    ensures RoundOver(states, todo, kept, skip, done, step, q) ==
        Progress(FailAll(states, Asking(states, todo, skip), fail), kept + todo)
    decreases todo
  {
    if todo == [] {
      assert kept + todo == kept;
    } else {
      var i, rest := todo[0], todo[1..];
      assert kept + [i] + rest == kept + todo;
      if skip(states[i]) {
        assert Asking(states, todo, skip) == Asking(states, rest, skip);
        FailedRound(states, rest, kept + [i], skip, done, step, q, fail);
      } else {
        var st := step(states[i], q);
        assert i !in rest && !done(fail(states[todo[0]]));
        FailFirst(states, todo, skip, fail);
        forall k | 0 <= k < |rest|
          ensures !done(fail(states[i := st][rest[k]]))
        {
          assert rest[k] == todo[k + 1];
        }
        FailedRound(states[i := st], rest, kept + [i], skip, done, step, q + 1, fail);
      }
    }
  }

  lemma FailFirst<S>(states: seq<S>, todo: seq<nat>, skip: S -> bool, fail: S -> S)
    requires Within(todo, |states|) && Increasing(todo) && todo != [] && !skip(states[todo[0]])
    ensures var later := states[todo[0] := fail(states[todo[0]])];
      FailAll(states, Asking(states, todo, skip), fail) == FailAll(later, Asking(later, todo[1..], skip), fail)
  {
    var i, rest := todo[0], todo[1..];
    assert i !in rest;
    AskingUnchanged(states, i, fail(states[i]), rest, skip);
    var asked := Asking(states, todo, skip);
    assert asked[0] == i && asked[1..] == Asking(states, rest, skip);
  }

  function FailAll<S>(states: seq<S>, qs: seq<nat>, fail: S -> S): (r: seq<S>)
    requires Within(qs, |states|)
    ensures |r| == |states|
    decreases qs
  {
    if qs == [] then states else FailAll(states[qs[0] := fail(states[qs[0]])], qs[1..], fail)
  }
}
