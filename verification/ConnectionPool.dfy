/** The stack of idle connections of one NNTP provider: a slice of fixed capacity that is
    pushed and popped at its end and shifted down in place by the reaper.
    Time is a millisecond count; 0 is the zero time. */
module ConnectionPool {
  import opened Wrappers

  const IDLE_TIMEOUT: int := 20_000

  datatype Entry = Entry(conn: nat, lastUsed: int)

  predicate IsIdleExpired(e: Entry, now: int) {
    e.lastUsed != 0 && now - e.lastUsed > IDLE_TIMEOUT
  }

  // ----- what the operations do to the stack, as a value -----

  /** Number of entries the reaper's scan passes before it meets a live one. */
  function ExpiredPrefix(s: seq<Entry>, now: int): (k: nat)
    ensures k <= |s|
    ensures forall i :: 0 <= i < k ==> IsIdleExpired(s[i], now)
    ensures k < |s| ==> !IsIdleExpired(s[k], now)
  {
    if s == [] || !IsIdleExpired(s[0], now) then 0 else 1 + ExpiredPrefix(s[1..], now)
  }

  function Reaped(s: seq<Entry>, now: int): seq<Entry> {
    s[ExpiredPrefix(s, now)..]
  }

  /** What a sweep is meant to leave behind: every entry that has not expired, in order. */
  function Live(s: seq<Entry>, now: int): seq<Entry> {
    if s == [] then [] else (if IsIdleExpired(s[0], now) then [] else [s[0]]) + Live(s[1..], now)
  }

  predicate Usable(e: Entry, now: int, healthy: Entry -> bool) {
    !IsIdleExpired(e, now) && healthy(e)
  }

  /** Pop until a usable entry appears: the entry, and the stack below it. */
  function TakeUsable(s: seq<Entry>, now: int, healthy: Entry -> bool): (Option<Entry>, seq<Entry>) {
    if s == [] then (None, [])
    else if Usable(s[|s| - 1], now, healthy) then (Some(s[|s| - 1]), s[..|s| - 1])
    else TakeUsable(s[..|s| - 1], now, healthy)
  }

  ghost predicate Sorted(s: seq<Entry>) {
    forall i, j :: 0 <= i < j < |s| ==> s[i].lastUsed <= s[j].lastUsed
  }

  /** No live entry lies below an expired one. */
  ghost predicate ExpiredFirst(s: seq<Entry>, now: int) {
    forall i, j :: 0 <= i < j < |s| && IsIdleExpired(s[j], now) ==> IsIdleExpired(s[i], now)
  }

  // ----- properties of those functions -----

  lemma {:induction false} LiveHasNoExpired(s: seq<Entry>, now: int)
    ensures |Live(s, now)| <= |s|
    ensures forall e :: e in Live(s, now) <==> e in s && !IsIdleExpired(e, now)
  {
    if s != [] {
      LiveHasNoExpired(s[1..], now);
      assert s == [s[0]] + s[1..];
    }
  }

  lemma {:induction false} LiveOfLive(s: seq<Entry>, now: int)
    requires forall e :: e in s ==> !IsIdleExpired(e, now)
    ensures Live(s, now) == s
  {
    if s != [] {
      assert s == [s[0]] + s[1..];
      LiveOfLive(s[1..], now);
    }
  }

  lemma {:induction false} LiveSkipsPrefix(s: seq<Entry>, k: nat, now: int)
    requires k <= |s| && forall i :: 0 <= i < k ==> IsIdleExpired(s[i], now)
    ensures Live(s, now) == Live(s[k..], now)
  {
    if k > 0 {
      LiveSkipsPrefix(s[1..], k - 1, now);
      assert s[1..][k - 1..] == s[k..];
    } else {
      assert s[0..] == s;
    }
  }

  /** The sweep stops at the first live entry. It leaves exactly the live entries if and only
      if no live entry lies below an expired one. */
  lemma ReapExact(s: seq<Entry>, now: int)
    ensures Reaped(s, now) == Live(s, now) <==> ExpiredFirst(s, now)
  {
    LiveSkipsPrefix(s, ExpiredPrefix(s, now), now);
    if ExpiredFirst(s, now) {
      ReapLeavesOnlyLive(s, now);
      LiveOfLive(Reaped(s, now), now);
    } else {
      var i, j :| 0 <= i < j < |s| && IsIdleExpired(s[j], now) && !IsIdleExpired(s[i], now);
      ReapMissesBuried(s, i, j, now);
    }
  }

  lemma ReapLeavesOnlyLive(s: seq<Entry>, now: int)
    requires ExpiredFirst(s, now)
    ensures forall e :: e in Reaped(s, now) ==> !IsIdleExpired(e, now)
  {
    var k := ExpiredPrefix(s, now);
    forall j | k <= j < |s| ensures !IsIdleExpired(s[j], now) {
      assert !IsIdleExpired(s[k], now);
    }
  }

  /** An expired entry above a live one survives the sweep. */
  lemma ReapMissesBuried(s: seq<Entry>, i: nat, j: nat, now: int)
    requires i < j < |s| && IsIdleExpired(s[j], now) && !IsIdleExpired(s[i], now)
    ensures s[j] in Reaped(s, now) && s[j] !in Live(s, now)
  {
    var k := ExpiredPrefix(s, now);
    assert Reaped(s, now)[j - k] == s[j];
    LiveHasNoExpired(s, now);
  }

  /** A stack in time order without zero stamps is swept exactly, and stays in time order: what is left is
      the part of it that was used in the last twenty seconds. */
  lemma SortedReap(s: seq<Entry>, now: int)
    requires Sorted(s) && forall e :: e in s ==> e.lastUsed != 0
    ensures Reaped(s, now) == Live(s, now) && Sorted(Reaped(s, now))
    ensures forall e :: e in Reaped(s, now) <==> e in s && now - e.lastUsed <= 20_000
    ensures Reaped(s, now) == s[|s| - |Reaped(s, now)|..]
  {
    LiveHasNoExpired(s, now);
    forall i, j | 0 <= i < j < |s| && IsIdleExpired(s[j], now) ensures IsIdleExpired(s[i], now) {
      assert s[i] in s;
    }
    ReapExact(s, now);
  }

  lemma {:induction false} TakeUsableSplits(s: seq<Entry>, now: int, healthy: Entry -> bool)
    ensures var (r, rest) := TakeUsable(s, now, healthy);
      && (r.None? ==> rest == [] && forall e :: e in s ==> !Usable(e, now, healthy))
      && (r.Some? ==> Usable(r.value, now, healthy) && exists bad: seq<Entry> ::
            s == rest + [r.value] + bad && forall e :: e in bad ==> !Usable(e, now, healthy))
  {
    if s != [] {
      var below, top := s[..|s| - 1], s[|s| - 1];
      assert s == below + [top];
      if Usable(top, now, healthy) {
        assert s == below + [top] + [];
      } else {
        TakeUsableSplits(below, now, healthy);
        var (r, rest) := TakeUsable(below, now, healthy);
        if r.Some? {
          var bad :| below == rest + [r.value] + bad && forall e :: e in bad ==> !Usable(e, now, healthy);
          assert s == rest + [r.value] + (bad + [top]);
        }
      }
    }
  }

  /** What a caller gets from a stack in time order is the most recently used usable entry, and that was
      used in the last twenty seconds unless it bears no time. */
  lemma TakeUsableMostRecent(s: seq<Entry>, now: int, healthy: Entry -> bool)
    requires Sorted(s)
    ensures var r := TakeUsable(s, now, healthy).0;
      && (r.None? <==> forall e :: e in s ==> !Usable(e, now, healthy))
      && (r.Some? ==> r.value in s && forall e :: e in s && Usable(e, now, healthy) ==> e.lastUsed <= r.value.lastUsed)
      && (r.Some? ==> healthy(r.value) && (r.value.lastUsed == 0 || now - r.value.lastUsed <= 20_000))
  {
    TakeUsableSplits(s, now, healthy);
    var (r, rest) := TakeUsable(s, now, healthy);
    if r.Some? {
      var bad :| s == rest + [r.value] + bad && forall e :: e in bad ==> !Usable(e, now, healthy);
      assert s[|rest|] == r.value;
      forall i | |rest| < i < |s| ensures !Usable(s[i], now, healthy) {
        assert s[i] == bad[i - |rest| - 1];
      }
    }
  }

  // ----- the stack itself -----

  function Unwrap(s: seq<Option<Entry>>): (r: seq<Entry>)
    requires forall i :: 0 <= i < |s| ==> s[i].Some?
    ensures |r| == |s| && forall i :: 0 <= i < |s| ==> r[i] == s[i].value
  {
    seq(|s|, i requires 0 <= i < |s| => s[i].value)
  }

  class ProviderPool {
    const max: nat
    const buf: array<Option<Entry>>
    var len: nat

    /** Cells past the end hold no pointer: popped and reaped entries can be collected. */
    ghost predicate Valid()
      reads this, buf
    {
      && buf.Length == max && len <= max
      && (forall i :: 0 <= i < len ==> buf[i].Some?)
      && (forall i :: len <= i < max ==> buf[i].None?)
    }

    ghost function Stack(): seq<Entry>
      requires Valid()
      reads this, buf
    {
      Unwrap(buf[..len])
    }

    constructor (max: nat)
      ensures Valid() && fresh(buf) && this.max == max && Stack() == []
    {
      this.max := max;
      buf := new Option<Entry>[max](_ => None);
      len := 0;
    }

    /** The locked part of put. Reports whether the entry was kept. */
    method Push(e: Entry) returns (kept: bool)
      requires Valid()
      modifies this`len, buf
      ensures Valid()
      ensures kept <==> |old(Stack())| < max
      ensures Stack() == if kept then old(Stack()) + [e] else old(Stack())
    {
      if len >= max {
        return false;
      }
      buf[len] := Some(e);
      len := len + 1;
      kept := true;
    }

    /** The locked part of getOrCreateFromPool. */
    method Pop() returns (e: Option<Entry>)
      requires Valid()
      modifies this`len, buf
      ensures Valid()
      ensures old(Stack()) == [] ==> e == None && Stack() == []
      ensures old(Stack()) != [] ==> e.Some? && old(Stack()) == Stack() + [e.value]
    {
      if len == 0 {
        return None;
      }
      e := buf[len - 1];
      buf[len - 1] := None;
      len := len - 1;
    }

    /** getOrCreateFromPool up to the decision to dial: pop and close entries until one is
        neither expired nor unhealthy. */
    method TakeIdle(now: int, healthy: Entry -> bool) returns (e: Option<Entry>)
      requires Valid()
      modifies this`len, buf
      ensures Valid()
      ensures (e, Stack()) == TakeUsable(old(Stack()), now, healthy)
    {
      while true
        invariant Valid()
        invariant TakeUsable(Stack(), now, healthy) == TakeUsable(old(Stack()), now, healthy)
        decreases len
      {
        ghost var before := Stack();
        e := Pop();
        if e.None? {
          return;
        }
        assert before[..|before| - 1] == Stack();
        if !IsIdleExpired(e.value, now) && healthy(e.value) {
          return;
        }
      }
    }

    /** One provider's share of reapIdleConnections: count the expired entries at the bottom,
        then shift the rest down in place and clear the freed cells. */
    method Reap(now: int)
      requires Valid()
      modifies this`len, buf
      ensures Valid()
      ensures Stack() == Reaped(old(Stack()), now)
    {
      ghost var was := Stack();
      var expired := 0;
      while expired < len && IsIdleExpired(buf[expired].value, now)
        invariant 0 <= expired <= len
        invariant forall i :: 0 <= i < expired ==> IsIdleExpired(was[i], now)
      {
        expired := expired + 1;
      }
      assert expired == ExpiredPrefix(was, now);
      if expired > 0 {
        DropBottom(expired);
      }
    }

    /** Shift the entries from k up down to the bottom and clear the freed cells. */
    method DropBottom(k: nat)
      requires Valid() && k <= len
      modifies this`len, buf
      ensures Valid()
      ensures Stack() == old(Stack())[k..]
    {
      ghost var cells := buf[..];
      var n, remaining := len, len - k;
      for i := 0 to remaining
        invariant len == n
        invariant forall j :: 0 <= j < i ==> buf[j] == cells[k + j]
        invariant forall j :: i <= j < max ==> buf[j] == cells[j]
      {
        buf[i] := buf[k + i];
      }
      for i := remaining to n
        invariant len == n
        invariant forall j :: 0 <= j < remaining ==> buf[j] == cells[k + j]
        invariant forall j :: remaining <= j < i ==> buf[j] == None
        invariant forall j :: n <= j < max ==> buf[j] == None
      {
        buf[i] := None;
      }
      len := remaining;
    }
  }
}
