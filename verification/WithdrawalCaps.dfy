/** Withdrawal caps: a signed counter per interval
    (lending_market/withdrawal_cap_operations.rs). */
module WithdrawalCaps {
  import opened Results
  import opened FixedPoint

  const MAX_I64: I64 := 0x7FFF_FFFF_FFFF_FFFF
  const MIN_I64: I64 := -0x8000_0000_0000_0000

  type I64 = x: int | -0x8000_0000_0000_0000 <= x < 0x8000_0000_0000_0000

  datatype Action = AddAmount | RemoveAmount

  datatype Caps = Caps(capacity: I64, total: I64, lastStart: U64, interval: U64)

  function Clamp(x: int): I64 {
    if x < MIN_I64 then MIN_I64 else if x > MAX_I64 then MAX_I64 else x
  }

  function Signed(amount: U64, action: Action): int {
    if action == AddAmount then amount as int else -(amount as int)
  }

  predicate Elapsed(c: Caps, now: U64)
    requires c.lastStart <= now
  {
    c.interval <= now - c.lastStart
  }

  function Restarted(c: Caps, now: U64): Caps {
    c.(total := 0, lastStart := now)
  }

  function CheckCapacity(c: Caps, amount: U64): Result<()> {
    if c.capacity < 0 then Err(WithdrawalCapReached)
    else if amount > MAX_I64 then Err(MathOverflow)
    else if c.total + amount > MAX_I64 then Err(MathOverflow)
    else if c.total + amount > c.capacity then Err(WithdrawalCapReached)
    else Ok(())
  }

  function CountExactly(c: Caps, amount: U64, action: Action): Result<Caps> {
    if amount > MAX_I64 then Err(IntegerOverflow)
    else
      var total := c.total + Signed(amount, action);
      if MIN_I64 <= total <= MAX_I64 then Ok(c.(total := total)) else Err(MathOverflow)
  }

  function CountSaturating(c: Caps, amount: U64, action: Action): Result<Caps> {
    if amount > MAX_I64 then Err(MathOverflow)
    else Ok(c.(total := Clamp(c.total + Signed(amount, action))))
  }

  /** `check_and_update_withdrawal_caps`. */
  function Accumulate(c: Caps, amount: U64, now: U64, action: Action): (r: Result<Caps>)
    ensures r.Ok? ==> r.value.capacity == c.capacity && r.value.interval == c.interval
  {
    if c.interval != 0 then
      if c.lastStart > now then Err(LastTimestampGreaterThanCurrent)
      else
        var current := if Elapsed(c, now) then Restarted(c, now) else c;
        var _ :- if action == AddAmount then CheckCapacity(current, amount) else Ok(());
        CountExactly(current, amount, action)
    else
      CountSaturating(c, amount, action)
  }

  /** The counter as the program updates it, step by step. */
  class Counter {
    const capacity: I64
    const interval: U64
    var total: I64
    var lastStart: U64

    constructor (c: Caps)
      ensures View() == c
    {
      capacity, interval, total, lastStart := c.capacity, c.interval, c.total, c.lastStart;
    }

    function View(): Caps
      reads this
    {
      Caps(capacity, total, lastStart, interval)
    }

    method UpdateCounter(amount: U64, action: Action, saturating: bool) returns (r: Result<()>)
      modifies this`total
      ensures var spec := if saturating then CountSaturating(old(View()), amount, action)
                          else CountExactly(old(View()), amount, action);
        if spec.Ok? then r.Ok? && View() == spec.value else r == Err(spec.error) && View() == old(View())
    {
      if amount > MAX_I64 {
        return Err(if saturating then MathOverflow else IntegerOverflow);
      }
      var updated := if action == AddAmount then total + amount else total - amount;
      if saturating {
        total := Clamp(updated);
      } else if updated < MIN_I64 || updated > MAX_I64 {
        return Err(MathOverflow);
      } else {
        total := updated;
      }
      return Ok(());
    }

    method CheckAndUpdate(amount: U64, now: U64, action: Action) returns (r: Result<()>)
      modifies this
      ensures var spec := Accumulate(old(View()), amount, now, action);
        if spec.Ok? then r.Ok? && View() == spec.value else r == Err(spec.error)
    {
      if interval != 0 {
        if lastStart > now {
          return Err(LastTimestampGreaterThanCurrent);
        }
        if interval <= now - lastStart {
          total := 0;
          lastStart := now;
        }
        if action == AddAmount {
          var allowed := CheckCapacity(View(), amount);
          if allowed.Err? {
            return Err(allowed.error);
          }
        }
        r := UpdateCounter(amount, action, false);
      } else {
        r := UpdateCounter(amount, action, true);
      }
    }
  }

  // ---- runs ---------------------------------------------------------------

  datatype Event = Event(amount: U64, now: U64, action: Action)

  /** The caps after a sequence of events that were all accepted. */
  function Run(c: Caps, es: seq<Event>): (r: Result<Caps>)
    ensures r.Ok? ==> r.value.capacity == c.capacity && r.value.interval == c.interval
  {
    if es == [] then Ok(c)
    else
      var e := es[|es| - 1];
      var before :- Run(c, es[..|es| - 1]);
      Accumulate(before, e.amount, e.now, e.action)
  }

  predicate Accepted(c: Caps, es: seq<Event>) {
    c.interval != 0 && Run(c, es).Ok?
  }

  /** Event `i` of an accepted run starts a new interval. */
  predicate Restarts(c: Caps, es: seq<Event>, i: nat)
    requires i < |es|
  {
    && Run(c, es[..i]).Ok?
    && Run(c, es[..i]).value.lastStart <= es[i].now
    && Elapsed(Run(c, es[..i]).value, es[i].now)
  }

  /** What the amounts from event `from` on add up to, removals counted negatively. */
  function SignedSum(es: seq<Event>, from: nat): int
    requires from <= |es|
  {
    if from == |es| then 0
    else SignedSum(es[..|es| - 1], from) + Signed(es[|es| - 1].amount, es[|es| - 1].action)
  }

  lemma {:induction false} PrefixAccepted(c: Caps, es: seq<Event>, i: nat)
    requires Accepted(c, es) && i <= |es|
    ensures Accepted(c, es[..i])
  {
    if i < |es| {
      PrefixAccepted(c, es[..|es| - 1], i);
      assert es[..|es| - 1][..i] == es[..i];
    } else {
      assert es[..i] == es;
    }
  }

  lemma RestartsInPrefix(c: Caps, es: seq<Event>, i: nat)
    requires 0 < |es| && i < |es| - 1
    ensures Restarts(c, es[..|es| - 1], i) <==> Restarts(c, es, i)
  {
    assert es[..|es| - 1][..i] == es[..i];
  }

  /** If nothing restarted the interval, the counter holds the initial total plus
      the signed sum of all amounts; otherwise exactly the signed sum since the
      last restart, whose time is the interval's start. */
  lemma {:induction false} TotalIsSumSinceRestart(c: Caps, es: seq<Event>, last: Option<nat>)
    requires Accepted(c, es)
    requires last.Some? ==> last.value < |es| && Restarts(c, es, last.value)
    requires forall i :: (if last.Some? then last.value + 1 else 0) <= i < |es| ==> !Restarts(c, es, i)
    ensures last.None? ==> Run(c, es).value.total == c.total + SignedSum(es, 0)
    ensures last.None? ==> Run(c, es).value.lastStart == c.lastStart
    ensures last.Some? ==> Run(c, es).value.total == SignedSum(es, last.value)
    ensures last.Some? ==> Run(c, es).value.lastStart == es[last.value].now
  {
    if es == [] {
    } else {
      var n := |es| - 1;
      var front := es[..n];
      PrefixAccepted(c, es, n);
      if last == Some(n) {
        assert SignedSum(front, n) == 0;
      } else {
        assert !Restarts(c, es, n);
        if last.Some? { RestartsInPrefix(c, es, last.value); }
        forall i | (if last.Some? then last.value + 1 else 0) <= i < n ensures !Restarts(c, front, i) {
          RestartsInPrefix(c, es, i);
        }
        TotalIsSumSinceRestart(c, front, last);
      }
    }
  }

  /** Over every accepted run the counter stays within the configured capacity. */
  lemma {:induction false} TotalWithinCapacity(c: Caps, es: seq<Event>)
    requires Accepted(c, es)
    requires 0 <= c.capacity && c.total <= c.capacity
    ensures Run(c, es).value.total <= c.capacity
  {
    if es == [] {
    } else {
      PrefixAccepted(c, es, |es| - 1);
      TotalWithinCapacity(c, es[..|es| - 1]);
    }
  }

  /** Consecutive restarts are at least one interval apart. */
  lemma RestartsAreAnIntervalApart(c: Caps, es: seq<Event>, i: nat, j: nat)
    requires Accepted(c, es) && i < j < |es|
    requires Restarts(c, es, i) && Restarts(c, es, j)
    requires forall k :: i < k < j ==> !Restarts(c, es, k)
    ensures es[i].now + c.interval <= es[j].now
  {
    PrefixAccepted(c, es, j);
    var front := es[..j];
    assert front[..i] == es[..i];
    forall k | i < k < j ensures !Restarts(c, front, k) {
      assert front[..k] == es[..k] && front[k] == es[k];
      assert !Restarts(c, es, k);
    }
    assert Restarts(c, front, i);
    TotalIsSumSinceRestart(c, front, Some(i));
  }

  /** Between two restarts the net amount let out never exceeds the capacity. */
  lemma NetOutflowPerIntervalCapped(c: Caps, es: seq<Event>, i: nat)
    requires Accepted(c, es) && i < |es| && Restarts(c, es, i)
    requires forall k :: i < k < |es| ==> !Restarts(c, es, k)
    requires 0 <= c.capacity && c.total <= c.capacity
    ensures SignedSum(es, i) <= c.capacity
  {
    TotalIsSumSinceRestart(c, es, Some(i));
    TotalWithinCapacity(c, es);
  }

  /** When exactly an amount passes and what it does to the counter. In an interval, which
      starts anew once it is over, additions must fit the capacity and both must fit the
      counter; without intervals the counter saturates and nothing is refused for it. */
  lemma CapsMean(c: Caps, amount: U64, now: U64, action: Action)
    ensures var over := c.lastStart <= now && c.interval <= now - c.lastStart;
      var total := (if c.interval != 0 && over then 0 else c.total) + (if action == AddAmount then amount as int else -(amount as int));
      && (Accumulate(c, amount, now, action).Ok? <==>
            && amount <= MAX_I64
            && (c.interval != 0 ==>
                  && c.lastStart <= now && MIN_I64 <= total <= MAX_I64
                  && (action == AddAmount ==> c.capacity >= 0 && total <= c.capacity)))
      && (Accumulate(c, amount, now, action).Ok? ==>
            Accumulate(c, amount, now, action).value ==
              if c.interval == 0 then c.(total := if total < MIN_I64 then MIN_I64 else if total > MAX_I64 then MAX_I64 else total)
              else c.(total := total, lastStart := if over then now else c.lastStart))
  {
  }
}
