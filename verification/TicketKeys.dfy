/** Automatic rotation of session ticket keys (Config.ticketKeys without explicit keys). */
module TicketKeys {
  import opened Outcomes
  import opened Octets
  import opened Tickets

  const HOUR: int := 3600 * 1000000000
  const TICKET_KEY_ROTATION: int := 24 * HOUR
  const TICKET_KEY_LIFETIME: int := 7 * 24 * HOUR

  /** The k-th reading of the clock. Readings are counted, for one call takes several. */
  type Clock = nat -> int

  ghost predicate Monotone(clock: Clock) { forall i: nat, j: nat :: i <= j ==> clock(i) <= clock(j) }

  /** The keys of a configuration and the number of clock readings so far. */
  datatype State = State(keys: seq<TicketKey>, tick: nat)

  /** The check of the fast path, and again under the lock. One reading, if there is a key to check. */
  predicate Stale(clock: Clock, s: State) {
    s.keys == [] || clock(s.tick) - s.keys[0].created >= TICKET_KEY_ROTATION
  }

  function Read(s: State): State { if s.keys == [] then s else s.(tick := s.tick + 1) }

  /** The keys that have not expired, each compared with a reading of its own. */
  function Unexpired(clock: Clock, tick: nat, keys: seq<TicketKey>): (r: seq<TicketKey>)
    ensures |r| <= |keys|
    decreases |keys|
  {
    if keys == [] then []
    else
      (if clock(tick) - keys[0].created < TICKET_KEY_LIFETIME then [keys[0]] else []) + Unexpired(clock, tick + 1, keys[1..])
  }

  /** ticketKeyFromBytes stamps the key with the reading of that moment. */
  function Rotate(clock: Clock, s: State, newKey: TicketKey): State {
    var tick := Read(s).tick;
    State([newKey.(created := clock(tick))] + Unexpired(clock, tick + 1, s.keys), tick + 1 + |s.keys|)
  }

  /** The slow path, under the lock: look again, and rotate if still needed. */
  function SlowPath(clock: Clock, s: State, newKey: TicketKey): State {
    if Stale(clock, s) then Rotate(clock, s, newKey) else Read(s)
  }

  // ---------- runs ----------

  /**
    What the callers of one configuration do, in the order of the locks. A call whose fast check
    fails takes the slow path later, and others may have been there first.
   */
  datatype Event = FastPath | Slow(key: TicketKey)

  function Step(clock: Clock, s: State, e: Event): State {
    match e
    case FastPath => Read(s)
    case Slow(key) => SlowPath(clock, s, key)
  }

  /** Whether the event returns the list to its caller. */
  predicate Returns(clock: Clock, s: State, e: Event) { e.FastPath? ==> !Stale(clock, s) }

  function Run(clock: Clock, s: State, events: seq<Event>): State
    decreases |events|
  {
    if events == [] then s else Run(clock, Step(clock, s, events[0]), events[1..])
  }

  /** Newest first and at least a day apart. */
  ghost predicate Spaced(keys: seq<TicketKey>) {
    forall i, j :: 0 <= i < j < |keys| ==> keys[i].created - keys[j].created >= (j - i) * TICKET_KEY_ROTATION
  }

  /** All younger than the lifetime when the newest was made. */
  ghost predicate Alive(keys: seq<TicketKey>) {
    forall j :: 0 <= j < |keys| ==> keys[0].created - keys[j].created < TICKET_KEY_LIFETIME
  }

  ghost predicate Inv(clock: Clock, s: State) {
    && Spaced(s.keys) && Alive(s.keys)
    && (s.keys != [] ==> s.tick > 0 && s.keys[0].created <= clock(s.tick - 1))
  }

  predicate Young(clock: Clock, reading: nat, key: TicketKey) { clock(reading) - key.created < TICKET_KEY_LIFETIME }

  /** A key that is young when its turn comes survives. */
  lemma {:induction false} YoungSurvives(clock: Clock, tick: nat, keys: seq<TicketKey>, k: nat)
    requires k < |keys| && Young(clock, tick + k, keys[k])
    ensures keys[k] in Unexpired(clock, tick, keys)
    decreases k
  {
    if k > 0 {
      YoungSurvives(clock, tick + 1, keys[1..], k - 1);
      assert keys[1..][k - 1] == keys[k];
    }
  }

  /** The j-th key is at least j + n rotations older than a moment. */
  ghost predicate Below(keys: seq<TicketKey>, top: int, n: nat) {
    forall j :: 0 <= j < |keys| ==> top - keys[j].created >= (j + n) * TICKET_KEY_ROTATION
  }

  ghost predicate AllYoung(keys: seq<TicketKey>, now: int) {
    forall j :: 0 <= j < |keys| ==> now - keys[j].created < TICKET_KEY_LIFETIME
  }

  /** The j-th survivor is at least as far back as the j-th key was. */
  lemma {:induction false} SurvivorsBelow(clock: Clock, tick: nat, keys: seq<TicketKey>, top: int, n: nat)
    requires Spaced(keys) && (keys != [] ==> top - keys[0].created >= n * TICKET_KEY_ROTATION)
    ensures Below(Unexpired(clock, tick, keys), top, n)
    decreases |keys|
  {
    if keys != [] {
      RestSpaced(keys);
      SurvivorsBelow(clock, tick + 1, keys[1..], top, n + 1);
    }
  }

  lemma RestSpaced(keys: seq<TicketKey>)
    requires Spaced(keys) && keys != []
    ensures Spaced(keys[1..])
    ensures keys[1..] != [] ==> keys[0].created - keys[1..][0].created >= TICKET_KEY_ROTATION
  {
    var rest := keys[1..];
    forall i, j | 0 <= i < j < |rest| ensures rest[i].created - rest[j].created >= (j - i) * TICKET_KEY_ROTATION {
      assert rest[i] == keys[i + 1] && rest[j] == keys[j + 1];
    }
  }

  lemma {:induction false} SurvivorsSpaced(clock: Clock, tick: nat, keys: seq<TicketKey>)
    requires Spaced(keys)
    ensures Spaced(Unexpired(clock, tick, keys))
    decreases |keys|
  {
    if keys != [] {
      RestSpaced(keys);
      SurvivorsSpaced(clock, tick + 1, keys[1..]);
      if Young(clock, tick, keys[0]) {
        SurvivorsBelow(clock, tick + 1, keys[1..], keys[0].created, 1);
        InFront(keys[0], Unexpired(clock, tick + 1, keys[1..]));
      }
    }
  }

  lemma {:induction false} SurvivorsYoung(clock: Clock, tick: nat, keys: seq<TicketKey>, now: int)
    requires Monotone(clock) && now <= clock(tick)
    ensures AllYoung(Unexpired(clock, tick, keys), now)
    decreases |keys|
  {
    if keys != [] {
      assert clock(tick) <= clock(tick + 1);
      SurvivorsYoung(clock, tick + 1, keys[1..], now);
    }
  }

  lemma InFront(key: TicketKey, rest: seq<TicketKey>)
    requires Spaced(rest) && Below(rest, key.created, 1)
    ensures Spaced([key] + rest)
  {
    var all := [key] + rest;
    forall i, j | 0 <= i < j < |all| ensures all[i].created - all[j].created >= (j - i) * TICKET_KEY_ROTATION {
      assert all[j] == rest[j - 1];
      if i > 0 {
        assert all[i] == rest[i - 1];
      }
    }
  }

  lemma RotateKeeps(clock: Clock, s: State, newKey: TicketKey)
    requires Monotone(clock) && Inv(clock, s) && Stale(clock, s)
    ensures Inv(clock, Rotate(clock, s, newKey))
  {
    var tick := Read(s).tick;
    assert clock(s.tick) <= clock(tick) <= clock(tick + 1);
    assert clock(tick) <= clock(Rotate(clock, s, newKey).tick - 1);
    SurvivorsSpaced(clock, tick + 1, s.keys);
    SurvivorsBelow(clock, tick + 1, s.keys, clock(tick), 1);
    SurvivorsYoung(clock, tick + 1, s.keys, clock(tick));
    InFront(newKey.(created := clock(tick)), Unexpired(clock, tick + 1, s.keys));
  }

  lemma StepKeeps(clock: Clock, s: State, e: Event)
    requires Monotone(clock) && Inv(clock, s)
    ensures Inv(clock, Step(clock, s, e))
  {
    if e.Slow? && Stale(clock, s) {
      RotateKeeps(clock, s, e.key);
    } else if s.keys != [] {
      assert clock(s.tick - 1) <= clock(s.tick);
    }
  }

  /** The k-th key back is k days older than the newest, and less than a lifetime. */
  lemma WithinLifetime(keys: seq<TicketKey>, k: nat)
    requires Spaced(keys) && Alive(keys) && k < |keys|
    ensures k < 7
  {
    assert k > 0 ==> keys[0].created - keys[k].created >= k * TICKET_KEY_ROTATION;
  }

  /** Over every run: newest first, at least 24 hours apart, never more than 7 keys. */
  lemma {:induction false} RunKeeps(clock: Clock, s: State, events: seq<Event>)
    requires Monotone(clock) && Inv(clock, s)
    ensures Inv(clock, Run(clock, s, events)) && |Run(clock, s, events).keys| <= 7
    decreases |events|
  {
    if events == [] {
      if s.keys != [] {
        WithinLifetime(s.keys, |s.keys| - 1);
      }
    } else {
      StepKeeps(clock, s, events[0]);
      RunKeeps(clock, Step(clock, s, events[0]), events[1..]);
    }
  }

  /** A list that is returned has a head that was under 24 hours old when it was last checked, or was made just now. */
  lemma ReturnedHeadIsFresh(clock: Clock, s: State, e: Event)
    requires Monotone(clock) && Inv(clock, s) && Returns(clock, s, e)
    ensures var r := Step(clock, s, e);
      r.keys != [] && r.tick > s.tick && clock(s.tick) - r.keys[0].created < TICKET_KEY_ROTATION
  {
    if e.Slow? && Stale(clock, s) {
      assert clock(s.tick) <= clock(Read(s).tick);
    }
  }

  /** A key is only dropped at a reading that finds it past its lifetime. */
  lemma {:induction false} KeptWhileYoung(clock: Clock, s: State, events: seq<Event>, key: TicketKey)
    requires Monotone(clock) && Inv(clock, s) && key in s.keys
    requires Run(clock, s, events).tick > 0
    requires clock(Run(clock, s, events).tick - 1) - key.created < TICKET_KEY_LIFETIME
    ensures key in Run(clock, s, events).keys
    decreases |events|
  {
    if events != [] {
      var s1 := Step(clock, s, events[0]);
      StepKeeps(clock, s, events[0]);
      TickGrows(clock, s1, events[1..]);
      assert clock(s1.tick - 1) <= clock(Run(clock, s, events).tick - 1);
      if events[0].Slow? && Stale(clock, s) {
        var tick := Read(s).tick;
        var k :| 0 <= k < |s.keys| && s.keys[k] == key;
        assert clock(tick + 1 + k) <= clock(s1.tick - 1);
        YoungSurvives(clock, tick + 1, s.keys, k);
        assert s1.keys[1..] == Unexpired(clock, tick + 1, s.keys);
      }
      KeptWhileYoung(clock, s1, events[1..], key);
    }
  }

  lemma {:induction false} TickGrows(clock: Clock, s: State, events: seq<Event>)
    ensures Run(clock, s, events).tick >= s.tick
    decreases |events|
  {
    if events != [] {
      TickGrows(clock, Step(clock, s, events[0]), events[1..]);
    }
  }

  /**
    A ticket sealed under the head of a list that was returned opens to its state under the list
    of the configuration at every later time, up to six days after the reading that found the
    head fresh, whatever other calls did in between.
   */
  lemma TicketsOpenForSixDays(clock: Clock, p: Primitives, s: State, e: Event, events: seq<Event>, iv: bytes, state: bytes)
    requires Monotone(clock) && Inv(clock, s) && Returns(clock, s, e) && Lawful(p) && |iv| == BLOCK_SIZE
    requires var later := Run(clock, Step(clock, s, e), events);
      && later.tick > 0 && clock(later.tick - 1) <= clock(s.tick) + 6 * 24 * HOUR
      && DistinctNames(later.keys)
    requires Step(clock, s, e).keys != [] ==> |Step(clock, s, e).keys[0].keyName| == KEY_NAME_LEN
    ensures Step(clock, s, e).keys != []
    ensures var head := Step(clock, s, e).keys[0];
      var contents := Open(p, Run(clock, Step(clock, s, e), events).keys, Seal(p, head, iv, state));
      contents.Some? && contents.value.0 == state
  {
    var s1 := Step(clock, s, e);
    ReturnedHeadIsFresh(clock, s, e);
    StepKeeps(clock, s, e);
    var later := Run(clock, s1, events);
    var head := s1.keys[0];
    KeptWhileYoung(clock, s1, events, head);
    var i :| 0 <= i < |later.keys| && later.keys[i] == head;
    TicketBack(p, head, iv, state, later.keys, i);
  }

  /** One key examined: kept or dropped, the outcome is the same. */
  lemma Examined(clock: Clock, tick: nat, keys: seq<TicketKey>, i: nat, valid: seq<TicketKey>)
    requires i < |keys|
    ensures valid + Unexpired(clock, tick, keys[i..]) ==
      (if Young(clock, tick, keys[i]) then valid + [keys[i]] else valid) + Unexpired(clock, tick + 1, keys[i + 1..])
  {
    assert keys[i..][1..] == keys[i + 1..];
  }

  // ---------- the configuration object ----------

  class Config {
    var autoSessionTicketKeys: seq<TicketKey>
    var tick: nat
    const clock: Clock

    ghost function Value(): State
      reads this
    {
      State(autoSessionTicketKeys, tick)
    }

    constructor (clock: Clock)
      ensures Value() == State([], 0) && this.clock == clock && Inv(clock, Value())
    {
      this.clock := clock;
      autoSessionTicketKeys, tick := [], 0;
    }

    method Time() returns (t: int)
      modifies this`tick
      ensures t == clock(old(tick)) && tick == old(tick) + 1
    {
      t := clock(tick);
      tick := tick + 1;
    }

    /** The fast path: the list, if its head is fresh enough. */
    method FreshKeys() returns (r: Option<seq<TicketKey>>)
      modifies this`tick
      ensures Value() == Step(clock, old(Value()), FastPath)
      ensures r == if Returns(clock, old(Value()), FastPath) then Some(autoSessionTicketKeys) else None
    {
      if |autoSessionTicketKeys| > 0 {
        var now := Time();
        if now - autoSessionTicketKeys[0].created < TICKET_KEY_ROTATION {
          return Some(autoSessionTicketKeys);
        }
      }
      return None;
    }

    /** The slow path, under the lock. newKey stands for what is derived from 32 random octets. */
    method RotateKeys(newKey: TicketKey) returns (r: seq<TicketKey>)
      modifies this`tick, this`autoSessionTicketKeys
      ensures Value() == Step(clock, old(Value()), Slow(newKey)) && r == autoSessionTicketKeys
    {
      var rotate := |autoSessionTicketKeys| == 0;
      if !rotate {
        var now := Time();
        rotate := now - autoSessionTicketKeys[0].created >= TICKET_KEY_ROTATION;
      }
      if rotate {
        var created := Time();
        var valid := [newKey.(created := created)];
        ghost var start := tick;
        ghost var whole := valid + Unexpired(clock, start, autoSessionTicketKeys);
        for i := 0 to |autoSessionTicketKeys|
          invariant tick == start + i && autoSessionTicketKeys == old(autoSessionTicketKeys)
          invariant valid + Unexpired(clock, tick, autoSessionTicketKeys[i..]) == whole
        {
          Examined(clock, tick, autoSessionTicketKeys, i, valid);
          var k := autoSessionTicketKeys[i];
          var now := Time();
          if now - k.created < TICKET_KEY_LIFETIME {
            valid := valid + [k];
          }
        }
        assert valid + [] == valid;
        autoSessionTicketKeys := valid;
      }
      return autoSessionTicketKeys;
    }
  }
}
