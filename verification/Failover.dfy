/** ExecuteWithFailover: run an operation on some provider's connection, retry on a fresh
    connection after a transient error, move to another provider after a lasting one.
    Everything the environment decides (which slots are free, which dials succeed, what the
    operation returns, when the context ends) is read from a script, so a statement for all
    scripts is a statement for all environments. */
module Failover {
  import opened Wrappers
  import opened Nntp

  // ----- the environment -----

  /** One call of getAnyAvailableConnection: the scan finds a free slot at provider i and the
      dial or reuse there succeeds; otherwise the race has a winner or the error; abandoned: the
      caller's context ends after the winner was received. */
  datatype Acquire = Acquire(free: nat -> bool, dials: nat -> bool, race: Option<nat>, abandoned: bool, error: Error)

  datatype Attempt = Attempt(
    ctxDone: bool,            // the context has ended before this attempt
    result: Option<Error>,    // None: the operation succeeded
    closes: bool,             // the operation leaves the connection closed
    fallback: Acquire,        // the fresh connection after a transient error
    swap: bool,               // the original provider then yields a connection too
    sleepCut: bool)           // the context ends during the back-off

  datatype Round = Round(ctxDone: bool, acquire: Acquire, attempts: nat -> Attempt)

  type Script = nat -> Round

  // ----- what the call does, as a function of the script -----

  predicate Ready(ps: seq<Provider>, x: Exclusions, a: Acquire, i: nat) {
    i < |ps| && !x.Excludes(ps[i]) && a.free(i) && a.dials(i)
  }

  function FirstReady(ps: seq<Provider>, x: Exclusions, a: Acquire, i: nat): (r: Option<nat>)
    requires i <= |ps|
    ensures r.Some? ==> r.value < |ps| && Ready(ps, x, a, r.value)
    decreases |ps| - i
  {
    if i == |ps| then None
    else if Ready(ps, x, a, i) then Some(i)
    else FirstReady(ps, x, a, i + 1)
  }

  predicate NoneEligible(ps: seq<Provider>, x: Exclusions) {
    forall p :: p in ps ==> x.Excludes(p)
  }

  /** The provider whose connection getAnyAvailableConnection returns. */
  function Acquired(ps: seq<Provider>, x: Exclusions, a: Acquire): (r: Option<Provider>)
    ensures r.Some? ==> r.value in ps && !x.Excludes(r.value)
  {
    match FirstReady(ps, x, a, 0)
    case Some(i) => Some(ps[i])
    case None => if HasWinner(ps, x, a) && !a.abandoned then Some(ps[a.race.value]) else None
  }

  predicate HasWinner(ps: seq<Provider>, x: Exclusions, a: Acquire) {
    a.race.Some? && a.race.value < |ps| && !x.Excludes(ps[a.race.value])
  }

  /** Besides those so far, the pools in which a slot stays taken for good: that of an abandoned
      winner. */
  function KeptBy(ps: seq<Provider>, x: Exclusions, a: Acquire, kept: seq<string>): seq<string> {
    if FirstReady(ps, x, a, 0).None? && HasWinner(ps, x, a) && a.abandoned then kept + [ps[a.race.value].host]
    else kept
  }

  function AcquireError(ps: seq<Provider>, x: Exclusions, a: Acquire): Error {
    if NoneEligible(ps, x) then Plain else a.error
  }

  /** One execution of the operation: on whose connection, and what came of it. */
  datatype Ran = Ran(p: Provider, result: Option<Error>)

  datatype Tried = Tried(error: Option<Error>, ran: seq<Ran>)

  /** The provider of the fresh connection after a transient error. */
  function Next(home: Provider, got: Provider, swap: bool): Provider {
    if got.host != home.host && swap then home else got
  }

  /** The attempts of one round, from attempt j on; the current connection is current's, and
      ran lists the executions so far. */
  function TryOn(ps: seq<Provider>, home: Provider, current: Provider, r: Round, j: nat, limit: nat,
                 ran: seq<Ran>): Tried
    requires j < limit
    decreases limit - j
  {
    var a := r.attempts(j);
    var ran' := ran + [Ran(current, a.result)];
    if a.ctxDone then Tried(Some(Plain), ran)
    else if a.result.None? || !Retriable(a.result.value) then Tried(a.result, ran')
    else match Acquired(ps, NoExclusions, a.fallback)
      case None => Tried(Some(AcquireError(ps, NoExclusions, a.fallback)), ran')
      case Some(got) =>
        if j + 1 == limit then Tried(a.result, ran')
        else if a.sleepCut then Tried(Some(Plain), ran')
        else TryOn(ps, home, Next(home, got, a.swap), r, j + 1, limit, ran')
  }

  /** What a failed round adds to the exclusions; None when the call gives up at once. */
  function Charge(x: Exclusions, home: Provider, e: Error): Option<Exclusions> {
    if IsNotFound(e) then Some(x.ExcludeForNotFound(home))
    else if Retriable(e) || e.Panic? then Some(x.ExcludeHost(home.host))
    else None
  }

  datatype Outcome = Outcome(error: Option<Error>, ran: seq<Ran>, x: Exclusions)

  function Rounds(ps: seq<Provider>, s: Script, limit: nat, k: nat, x: Exclusions, last: Option<Error>,
                  ran: seq<Ran>): Outcome
    requires k <= |ps| && limit > 0
    decreases |ps| - k
  {
    if k == |ps| then Outcome(Some(if last.Some? then last.value else Plain), ran, x)
    else if s(k).ctxDone then Outcome(Some(Plain), ran, x)
    else match Acquired(ps, x, s(k).acquire)
      case None => Rounds(ps, s, limit, k + 1, x, Some(AcquireError(ps, x, s(k).acquire)), ran)
      case Some(home) =>
        var t := TryOn(ps, home, home, s(k), 0, limit, ran);
        if t.error.None? then Outcome(None, t.ran, x)
        else match Charge(x, home, t.error.value)
          case None => Outcome(t.error, t.ran, x)
          case Some(x') => Rounds(ps, s, limit, k + 1, x', t.error, t.ran)
  }

  function FailoverRun(ps: seq<Provider>, s: Script, limit: nat, ran: seq<Ran>): Outcome
    requires limit > 0
  {
    Rounds(ps, s, limit, 0, NoExclusions, None, ran)
  }

  // ----- the slots that abandoned races keep -----

  /** In the attempts of one round, from attempt j on. */
  function KeptOn(ps: seq<Provider>, r: Round, j: nat, limit: nat, kept: seq<string>): seq<string>
    requires j < limit
    decreases limit - j
  {
    var a := r.attempts(j);
    if a.ctxDone || a.result.None? || !Retriable(a.result.value) then kept
    else
      var kept' := KeptBy(ps, NoExclusions, a.fallback, kept);
      if Acquired(ps, NoExclusions, a.fallback).None? || j + 1 == limit || a.sleepCut then kept'
      else KeptOn(ps, r, j + 1, limit, kept')
  }

  function KeptInRound(ps: seq<Provider>, x: Exclusions, r: Round, limit: nat, kept: seq<string>): seq<string>
    requires limit > 0
  {
    var kept' := KeptBy(ps, x, r.acquire, kept);
    if Acquired(ps, x, r.acquire).None? then kept' else KeptOn(ps, r, 0, limit, kept')
  }

  /** In the rounds of a call, from round k on. */
  function KeptRounds(ps: seq<Provider>, s: Script, limit: nat, k: nat, x: Exclusions, ran: seq<Ran>,
                      kept: seq<string>): seq<string>
    requires k <= |ps| && limit > 0
    decreases |ps| - k
  {
    if k == |ps| || s(k).ctxDone then kept
    else
      var kept' := KeptInRound(ps, x, s(k), limit, kept);
      match Acquired(ps, x, s(k).acquire)
      case None => KeptRounds(ps, s, limit, k + 1, x, ran, kept')
      case Some(home) =>
        var t := TryOn(ps, home, home, s(k), 0, limit, ran);
        if t.error.None? || Charge(x, home, t.error.value).None? then kept'
        else KeptRounds(ps, s, limit, k + 1, Charge(x, home, t.error.value).value, t.ran, kept')
  }

  // ----- the slots -----

  datatype Conn = Conn(slot: nat, address: string)

  /** The pools as one call sees them. Every slot it takes gets a number; out maps the numbers
      it still holds to the pool they belong to, back lists the returned ones, lost those that
      abandoned races keep, and lostIn the pools of these. */
  class Pools {
    var taken: nat
    var closed: set<nat>
    ghost var out: map<nat, string>
    ghost var back: seq<nat>
    ghost var lost: seq<nat>
    ghost var lostIn: seq<string>
    ghost var ran: seq<Ran>

    ghost predicate Valid()
      reads this
    {
      && (forall t :: t in out ==> t < taken)
      && (forall t :: t in back ==> t < taken && t !in out)
      && (forall i, j :: 0 <= i < j < |back| ==> back[i] != back[j])
      && (forall t :: t in lost ==> t < taken && t !in out && t !in back)
      && (forall i, j :: 0 <= i < j < |lost| ==> lost[i] != lost[j])
      && (forall t: nat :: t < taken ==> t in out || t in back || t in lost)
      && |lostIn| == |lost|
    }

    /** A send on the slot channel of the pool of host. */
    method TakeSlot(host: string) returns (slot: nat)
      requires Valid()
      modifies this`taken, this`out
      ensures Valid()
      ensures slot == old(taken) && taken == old(taken) + 1
      ensures slot !in old(out) && out == old(out)[slot := host]
    {
      slot := taken;
      taken := taken + 1;
      out := out[slot := host];
    }

    /** A receive from the slot channel of the pool of host: the slot must be held, and must be
        that pool's. */
    method FreeSlot(host: string, slot: nat)
      requires Valid() && slot in out && out[slot] == host
      modifies this`out, this`back
      ensures Valid()
      ensures out == old(out) - {slot}
    {
      out := out - {slot};
      back := back + [slot];
    }

    /** A race that is abandoned gives the slot of its winner to nobody. */
    method LoseSlot(slot: nat)
      requires Valid() && slot in out
      modifies this`out, this`lost, this`lostIn
      ensures Valid()
      ensures out == old(out) - {slot} && lostIn == old(lostIn) + [old(out)[slot]]
    {
      lost, lostIn := lost + [slot], lostIn + [out[slot]];
      out := out - {slot};
    }

    /** release: close the connection and free a slot of the pool it names itself. */
    method Release(c: Conn)
      requires Valid() && c.slot in out && out[c.slot] == c.address
      modifies this
      ensures Valid() && taken == old(taken) && ran == old(ran) && lostIn == old(lostIn)
      ensures out == old(out) - {c.slot}
    {
      closed := closed + {c.slot};
      FreeSlot(c.address, c.slot);
    }

    /** put: free a slot of the pool the caller names. */
    method Put(c: Conn, p: Provider)
      requires Valid() && c.slot in out && out[c.slot] == p.host
      modifies this
      ensures Valid() && taken == old(taken) && ran == old(ran) && lostIn == old(lostIn)
      ensures out == old(out) - {c.slot}
    {
      FreeSlot(p.host, c.slot);
    }

    method ReturnOrRelease(c: Option<Conn>, p: Provider)
      requires Valid()
      requires c.Some? ==> c.value.slot in out && out[c.value.slot] == c.value.address == p.host
      modifies this
      ensures Valid() && taken == old(taken) && ran == old(ran) && lostIn == old(lostIn)
      ensures out == if c.Some? then old(out) - {c.value.slot} else old(out)
    {
      if c.None? {
        return;
      }
      if c.value.slot in closed {
        Release(c.value);
      } else {
        Put(c.value, p);
      }
    }

    /** getAnyAvailableConnection. */
    method GetAny(ps: seq<Provider>, x: Exclusions, a: Acquire) returns (c: Option<Conn>, p: Provider, e: Error)
      requires Valid()
      modifies this
      ensures Valid() && ran == old(ran)
      ensures c.Some? <==> Acquired(ps, x, a).Some?
      ensures c.Some? ==> Acquired(ps, x, a) == Some(p) && c.value.address == p.host
                          && c.value.slot !in old(out) && out == old(out)[c.value.slot := p.host]
      ensures c.None? ==> out == old(out) && e == AcquireError(ps, x, a)
      ensures taken >= old(taken) && lostIn == KeptBy(ps, x, a, old(lostIn))
    {
      p, e := Provider("", "", 0), a.error;
      if NoneEligible(ps, x) {
        assert FirstReady(ps, x, a, 0).None? && !HasWinner(ps, x, a);
        return None, p, Plain;
      }
      for i := 0 to |ps|
        invariant Valid() && ran == old(ran) && out == old(out) && taken >= old(taken) && lostIn == old(lostIn)
        invariant FirstReady(ps, x, a, 0) == FirstReady(ps, x, a, i)
      {
        if x.Excludes(ps[i]) || !a.free(i) {
          continue;
        }
        var slot := TakeSlot(ps[i].host);
        if a.dials(i) {
          return Some(Conn(slot, ps[i].host)), ps[i], Plain;
        }
        FreeSlot(ps[i].host, slot);
      }
      c := None;
      if HasWinner(ps, x, a) {
        var slot := TakeSlot(ps[a.race.value].host);
        if a.abandoned {
          LoseSlot(slot);
          return;
        }
        p := ps[a.race.value];
        return Some(Conn(slot, p.host)), p, Plain;
      }
    }

    /** getConnectionFromProvider. */
    method GetFrom(p: Provider, succeeds: bool) returns (c: Option<Conn>)
      requires Valid()
      modifies this
      ensures Valid() && ran == old(ran)
      ensures c.Some? <==> succeeds
      ensures c.Some? ==>
        c.value.address == p.host && c.value.slot !in old(out) && out == old(out)[c.value.slot := p.host]
      ensures c.None? ==> out == old(out)
      ensures taken >= old(taken) && lostIn == old(lostIn)
    {
      if !succeeds {
        var getsSlot: bool := *;
        if getsSlot {
          var freed := TakeSlot(p.host);
          FreeSlot(p.host, freed);
        }
        return None;
      }
      var slot := TakeSlot(p.host);
      c := Some(Conn(slot, p.host));
    }

    method Execute(c: Conn, ghost p: Provider, a: Attempt) returns (r: Option<Error>)
      requires Valid() && c.slot in out
      modifies this`closed, this`ran
      ensures Valid()
      ensures r == a.result && ran == old(ran) + [Ran(p, a.result)]
    {
      if a.closes {
        closed := closed + {c.slot};
      }
      ran := ran + [Ran(p, a.result)];
      r := a.result;
    }

    /** After a transient error: give up the connection, take a fresh one from any provider,
        and swap it for one of the original provider when that works out. */
    method Renew(ps: seq<Provider>, dead: Conn, home: Provider, a: Attempt)
      returns (c: Option<Conn>, p: Provider, e: Error)
      requires Valid() && dead.slot in out && out[dead.slot] == dead.address
      modifies this
      ensures Valid() && ran == old(ran) && taken >= old(taken)
      ensures lostIn == KeptBy(ps, NoExclusions, a.fallback, old(lostIn))
      ensures var got := Acquired(ps, NoExclusions, a.fallback);
        if got.Some? then c.Some? && p == Next(home, got.value, a.swap)
        else c.None? && e == AcquireError(ps, NoExclusions, a.fallback)
      ensures Holds(c, p, out, old(out) - {dead.slot})
    {
      Release(dead);
      c, p, e := GetAny(ps, NoExclusions, a.fallback);
      if c.None? {
        return;
      }
      if c.value.address != home.host {
        var preferred := GetFrom(home, a.swap);
        if preferred.Some? {
          ReturnOrRelease(c, p);
          c, p := preferred, home;
        }
      }
    }

    /** The retry loop of one round. It owns conn on entry, and what it returns on exit. */
    method TryRound(ps: seq<Provider>, conn: Conn, home: Provider, r: Round, limit: nat)
      returns (error: Option<Error>, c: Option<Conn>, p: Provider)
      requires Valid() && limit > 0
      requires conn.slot in out && out[conn.slot] == conn.address == home.host
      modifies this
      ensures Valid() && taken >= old(taken)
      ensures TryOn(ps, home, home, r, 0, limit, old(ran)) == Tried(error, ran)
      ensures lostIn == KeptOn(ps, r, 0, limit, old(lostIn))
      ensures Holds(c, p, out, old(out) - {conn.slot})
    {
      c, p := Some(conn), home;
      for j := 0 to limit
        invariant Valid() && j < limit && taken >= old(taken)
        invariant c.Some? && Holds(c, p, out, old(out) - {conn.slot})
        invariant TryOn(ps, home, p, r, j, limit, ran) == TryOn(ps, home, home, r, 0, limit, old(ran))
        invariant KeptOn(ps, r, j, limit, lostIn) == KeptOn(ps, r, 0, limit, old(lostIn))
      {
        var a := r.attempts(j);
        if a.ctxDone {
          return Some(Plain), c, p;
        }
        var result := Execute(c.value, p, a);
        if result.None? {
          return None, c, p;
        }
        if !Retriable(result.value) {
          if result.value.Panic? {
            Release(c.value);
            c := None;
          }
          return result, c, p;
        }
        var connErr;
        c, p, connErr := Renew(ps, c.value, home, a);
        if c.None? {
          return Some(connErr), c, p;
        }
        if j + 1 == limit {
          return result, c, p;
        }
        if a.sleepCut {
          return Some(Plain), c, p;
        }
      }
    }

    /** One round: take a connection, try the operation, give back what is left. */
    method RunRound(ps: seq<Provider>, x: Exclusions, r: Round, limit: nat)
      returns (home: Option<Provider>, error: Option<Error>)
      requires Valid() && limit > 0
      modifies this
      ensures Valid() && out == old(out) && taken >= old(taken)
      ensures home == Acquired(ps, x, r.acquire)
      ensures if home.None? then error == Some(AcquireError(ps, x, r.acquire)) && ran == old(ran)
              else TryOn(ps, home.value, home.value, r, 0, limit, old(ran)) == Tried(error, ran)
      ensures lostIn == KeptInRound(ps, x, r, limit, old(lostIn))
    {
      var conn, p, connErr := GetAny(ps, x, r.acquire);
      if conn.None? {
        return None, Some(connErr);
      }
      home := Some(p);
      var c;
      error, c, p := TryRound(ps, conn.value, p, r, limit);
      ReturnOrRelease(c, p);
    }

    /** On every path the call ends holding the slots it began with. Every slot it took was returned
        exactly once, to the pool it came from, but for those that abandoned races keep. */
    method ExecuteWithFailover(ps: seq<Provider>, s: Script, limit: nat) returns (error: Option<Error>)
      requires Valid() && limit > 0
      modifies this
      ensures Valid() && out == old(out)
      ensures forall t: nat :: old(taken) <= t < taken ==> t in back || t in lost
      ensures lostIn == KeptRounds(ps, s, limit, 0, NoExclusions, old(ran), old(lostIn))
      ensures var o := FailoverRun(ps, s, limit, old(ran)); error == o.error && ran == o.ran
    {
      var last: Option<Error> := None;
      var x := NoExclusions;
      for k := 0 to |ps|
        invariant Valid() && out == old(out) && taken >= old(taken)
        invariant Rounds(ps, s, limit, k, x, last, ran) == FailoverRun(ps, s, limit, old(ran))
        invariant KeptRounds(ps, s, limit, k, x, ran, lostIn)
               == KeptRounds(ps, s, limit, 0, NoExclusions, old(ran), old(lostIn))
      {
        if s(k).ctxDone {
          return Some(Plain);
        }
        var home, e := RunRound(ps, x, s(k), limit);
        if e.None? {
          return None;
        }
        last := e;
        if home.None? {
          continue;
        }
        var charged := Charge(x, home.value, e.value);
        if charged.None? {
          return e;
        }
        x := charged.value;
      }
      error := Some(if last.Some? then last.value else Plain);
    }
  }

  /** Besides the slots in rest, out holds just the slot of connection c, in the pool of p. */
  ghost predicate Holds(c: Option<Conn>, p: Provider, out: map<nat, string>, rest: map<nat, string>) {
    if c.None? then out == rest
    else c.value.slot !in rest && c.value.address == p.host && out == rest[c.value.slot := p.host]
  }
}
