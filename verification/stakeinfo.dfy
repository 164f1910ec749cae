/** The daily fee of a staker: how much of it is left, how usage decays, and what that allows. */
module StakeInfos {
  const RECOVER_INTERVAL: nat := 86400

  datatype Stake = Stake(total: nat, usage: nat, timestamp: nat)

  const EMPTY: Stake := Stake(0, 0, 0)

  /** Usage falls off linearly to zero over the interval, rounded down. */
  function EstimateUsage(s: Stake, timestamp: nat): (u: nat)
    ensures u <= s.usage
  {
    if timestamp <= s.timestamp then s.usage
    else Decayed(s.usage, timestamp - s.timestamp)
  }

  function Decayed(usage: nat, interval: nat): (u: nat)
    ensures u <= usage
  {
    if interval < RECOVER_INTERVAL then
      assert usage * (RECOVER_INTERVAL - interval) <= usage * RECOVER_INTERVAL;
      usage * (RECOVER_INTERVAL - interval) / RECOVER_INTERVAL
    else 0
  }

  function EstimateTotalFee(s: Stake, totalAmount: nat, dailyFee: nat): nat {
    if totalAmount == 0 then 0 else s.total * dailyFee / totalAmount
  }

  function Left(fee: nat, usage: nat): nat {
    if fee > usage then fee - usage else 0
  }

  function EstimateFee(s: Stake, timestamp: nat, totalAmount: nat, dailyFee: nat): nat {
    Left(EstimateTotalFee(s, totalAmount, dailyFee), EstimateUsage(s, timestamp))
  }

  function Consume(s: Stake, amount: nat, timestamp: nat): Stake {
    s.(usage := EstimateUsage(s, timestamp) + amount, timestamp := timestamp)
  }

  class StakeInfo {
    var total: nat
    var usage: nat
    var timestamp: nat

    function Value(): Stake
      reads this
    {
      Stake(total, usage, timestamp)
    }

    constructor (s: Stake)
      ensures Value() == s
    {
      total, usage, timestamp := s.total, s.usage, s.timestamp;
    }

    method Usage(timestamp: nat) returns (u: nat)
      ensures u == EstimateUsage(Value(), timestamp)
    {
      if timestamp <= this.timestamp {
        return usage;
      }
      var interval := timestamp - this.timestamp;
      if usage > 0 && interval < RECOVER_INTERVAL {
        u := usage * (RECOVER_INTERVAL - interval) / RECOVER_INTERVAL;
      } else {
        u := 0;
      }
    }

    method Fee(timestamp: nat, totalAmount: nat, dailyFee: nat) returns (r: nat)
      ensures r == EstimateFee(Value(), timestamp, totalAmount, dailyFee)
    {
      var usage := Usage(timestamp);
      var fee := EstimateTotalFee(Value(), totalAmount, dailyFee);
      r := if fee > usage then fee - usage else 0;
    }

    method Use(amount: nat, timestamp: nat)
      modifies this
      ensures Value() == Consume(old(Value()), amount, timestamp)
    {
      var u := Usage(timestamp);
      usage := u + amount;
      this.timestamp := timestamp;
    }

    method Deposit(amount: nat)
      modifies this`total
      ensures total == old(total) + amount
    {
      total := total + amount;
    }

    /** Fails, and changes nothing, when there is not enough. */
    method Withdraw(amount: nat) returns (ok: bool)
      modifies this`total
      ensures ok == (amount <= old(total))
      ensures total == if ok then old(total) - amount else old(total)
    {
      if total < amount {
        return false;
      }
      total := total - amount;
      ok := true;
    }
  }

  /** Below a full day, usage is down by the part of the day that has passed, rounded down; after
      one nothing of it is left. */
  lemma UsageRecovers(s: Stake, timestamp: nat)
    requires s.timestamp <= timestamp
    ensures var passed, u := timestamp - s.timestamp, EstimateUsage(s, timestamp);
      && (passed < 86400 ==> 86400 * u <= s.usage * (86400 - passed) < 86400 * (u + 1))
      && (passed >= 86400 ==> u == 0)
  {
    if timestamp == s.timestamp {
      assert s.usage * (86400 - 0) == 86400 * s.usage;
    }
  }

  // ---- The rate ----

  datatype Spend = Spend(amount: nat, at: nat)

  /** Each amount is within what is left of a fee `fee` at its time, and time does not go back. */
  predicate Allowed(s: Stake, spends: seq<Spend>, fee: nat)
    decreases |spends|
  {
    spends == [] ||
    (var x := spends[0];
     s.timestamp <= x.at && x.amount <= Left(fee, EstimateUsage(s, x.at))
       && Allowed(Consume(s, x.amount, x.at), spends[1..], fee))
  }

  function Spent(s: Stake, spends: seq<Spend>): Stake
    decreases |spends|
  {
    if spends == [] then s else Spent(Consume(s, spends[0].amount, spends[0].at), spends[1..])
  }

  function Total(spends: seq<Spend>): nat {
    if spends == [] then 0 else spends[0].amount + Total(spends[1..])
  }

  lemma {:induction false} UsageWithinFee(s: Stake, spends: seq<Spend>, fee: nat)
    requires Allowed(s, spends, fee) && s.usage <= fee
    ensures Spent(s, spends).usage <= fee
    decreases |spends|
  {
    if spends != [] {
      UsageWithinFee(Consume(s, spends[0].amount, spends[0].at), spends[1..], fee);
    }
  }

  lemma {:induction false} TimeGoesOn(s: Stake, spends: seq<Spend>, fee: nat)
    requires Allowed(s, spends, fee)
    ensures s.timestamp <= Spent(s, spends).timestamp
    decreases |spends|
  {
    if spends != [] {
      TimeGoesOn(Consume(s, spends[0].amount, spends[0].at), spends[1..], fee);
    }
  }

  /** Decay loses at most its linear share, and less than one for rounding. */
  lemma DecayedAtLeast(usage: nat, interval: nat, fee: nat)
    requires usage <= fee
    ensures RECOVER_INTERVAL * Decayed(usage, interval) + fee * interval
      + RECOVER_INTERVAL - 1 >= RECOVER_INTERVAL * usage
  {
    assert usage * interval <= fee * interval;
    if interval < RECOVER_INTERVAL {
      var p := usage * (RECOVER_INTERVAL - interval);
      assert p == RECOVER_INTERVAL * (p / RECOVER_INTERVAL) + p % RECOVER_INTERVAL;
      assert p == RECOVER_INTERVAL * usage - usage * interval;
    } else {
      assert usage * interval >= usage * RECOVER_INTERVAL;
    }
  }

  /** What is spent is what usage went up by, plus at most what decayed meanwhile. */
  lemma {:induction false} SpentIsUsageAndDecay(s: Stake, spends: seq<Spend>, fee: nat)
    requires Allowed(s, spends, fee) && s.usage <= fee
    ensures var s' := Spent(s, spends);
      RECOVER_INTERVAL * (Total(spends) + s.usage)
        <= RECOVER_INTERVAL * s'.usage + fee * (s'.timestamp - s.timestamp) + |spends| * (RECOVER_INTERVAL - 1)
    decreases |spends|
  {
    if spends != [] {
      var x, rest := spends[0], spends[1..];
      var s1, s' := Consume(s, x.amount, x.at), Spent(s, spends);
      SpentIsUsageAndDecay(s1, rest, fee);
      DecayedAtLeast(s.usage, x.at - s.timestamp, fee);
      assert Decayed(s.usage, 0) == s.usage;
      OneMoreSpend(x.amount, Total(rest), s.usage, s1.usage - x.amount, s'.usage, fee, s.timestamp, x.at, s'.timestamp,
        |rest|);
    }
  }

  lemma OneMoreSpend(amount: int, rest: int, usage: int, decayed: int, last: int, fee: int, t: int, t1: int, t2: int,
      k: int)
    requires RECOVER_INTERVAL * (rest + decayed + amount) <= RECOVER_INTERVAL * last + fee * (t2 - t1)
      + k * (RECOVER_INTERVAL - 1)
    requires RECOVER_INTERVAL * decayed + fee * (t1 - t) + RECOVER_INTERVAL - 1 >= RECOVER_INTERVAL * usage
    ensures RECOVER_INTERVAL * (amount + rest + usage) <= RECOVER_INTERVAL * last + fee * (t2 - t)
      + (k + 1) * (RECOVER_INTERVAL - 1)
  {
    assert fee * (t2 - t1) + fee * (t1 - t) == fee * (t2 - t);
  }

  /** However much had been used before: with a fixed fee, `k` spends within `w` seconds come to at
      most `fee + fee * w / 86400 + k` in all. */
  lemma {:induction false} RateIsBounded(s: Stake, spends: seq<Spend>, fee: nat)
    requires Allowed(s, spends, fee) && |spends| > 0
    ensures var w := spends[|spends| - 1].at - spends[0].at;
      w >= 0 && RECOVER_INTERVAL * Total(spends) <= RECOVER_INTERVAL * fee + fee * w
        + (|spends| - 1) * (RECOVER_INTERVAL - 1)
    decreases |spends|
  {
    var x, rest := spends[0], spends[1..];
    var s1 := Consume(s, x.amount, x.at);
    LastSpend(s1, rest);
    TimeGoesOn(s1, rest, fee);
    if x.amount == 0 {
      if rest != [] {
        RateIsBounded(s1, rest, fee);
        Widen(fee, rest[|rest| - 1].at - rest[0].at, spends[|spends| - 1].at - x.at);
      }
    } else {
      SpentIsUsageAndDecay(s1, rest, fee);
      UsageWithinFee(s1, rest, fee);
    }
  }

  lemma Widen(fee: nat, w: int, w': int)
    requires w <= w'
    ensures fee * w <= fee * w'
  {
  }

  lemma {:induction false} LastSpend(s: Stake, spends: seq<Spend>)
    ensures Spent(s, spends).timestamp == if spends == [] then s.timestamp else spends[|spends| - 1].at
    decreases |spends|
  {
    if spends != [] {
      LastSpend(Consume(s, spends[0].amount, spends[0].at), spends[1..]);
    }
  }

  /** The bound is reached: the whole fee, and again a day later. */
  lemma RateIsReached(fee: nat)
    ensures var spends := [Spend(fee, 0), Spend(fee, RECOVER_INTERVAL)];
      Allowed(EMPTY, spends, fee) && Total(spends) == fee + fee * RECOVER_INTERVAL / RECOVER_INTERVAL
  {
    var spends := [Spend(fee, 0), Spend(fee, RECOVER_INTERVAL)];
    var s1 := Consume(EMPTY, fee, 0);
    assert Allowed(Consume(s1, fee, RECOVER_INTERVAL), [], fee);
    assert spends[1..] == [Spend(fee, RECOVER_INTERVAL)] && spends[1..][1..] == [];
    assert EstimateUsage(s1, RECOVER_INTERVAL) == 0;
    assert Allowed(s1, spends[1..], fee);
    assert Total(spends[1..]) == fee;
  }

  // ---- The shares ----

  function Totals(stakes: seq<Stake>): nat {
    if stakes == [] then 0 else stakes[0].total + Totals(stakes[1..])
  }

  function Shares(stakes: seq<Stake>, totalAmount: nat, dailyFee: nat): nat {
    if stakes == [] then 0
    else EstimateTotalFee(stakes[0], totalAmount, dailyFee) + Shares(stakes[1..], totalAmount, dailyFee)
  }

  lemma {:induction false} SharesScaled(stakes: seq<Stake>, totalAmount: nat, dailyFee: nat)
    requires totalAmount > 0
    ensures Shares(stakes, totalAmount, dailyFee) * totalAmount <= Totals(stakes) * dailyFee
    ensures Totals(stakes) * dailyFee <= Shares(stakes, totalAmount, dailyFee) * totalAmount
      + |stakes| * (totalAmount - 1)
  {
    if stakes != [] {
      SharesScaled(stakes[1..], totalAmount, dailyFee);
      OneShare(stakes[0].total, Totals(stakes[1..]), Shares(stakes[1..], totalAmount, dailyFee), |stakes| - 1,
        totalAmount, dailyFee);
    }
  }

  lemma OneShare(total: nat, totals: nat, shares: nat, n: nat, totalAmount: nat, dailyFee: nat)
    requires totalAmount > 0
    requires shares * totalAmount <= totals * dailyFee <= shares * totalAmount + n * (totalAmount - 1)
    ensures var share := total * dailyFee / totalAmount;
      (share + shares) * totalAmount <= (total + totals) * dailyFee <= (share + shares) * totalAmount
        + (n + 1) * (totalAmount - 1)
  {
    var share := total * dailyFee / totalAmount;
    RoundedDown(total * dailyFee, totalAmount);
    Distributes(total, totals, dailyFee);
    Distributes(share, shares, totalAmount);
    Distributes(n, 1, totalAmount - 1);
  }

  lemma RoundedDown(p: nat, c: nat)
    requires c > 0
    ensures (p / c) * c <= p <= (p / c) * c + c - 1
  {
    assert p == c * (p / c) + p % c;
  }

  lemma Distributes(a: int, b: int, c: int)
    ensures (a + b) * c == a * c + b * c
  {
  }

  /** All shares together are within the daily fee; and when the stakes make up the total amount,
      they miss it by less than one for every staker. */
  lemma SharesWithinDailyFee(stakes: seq<Stake>, totalAmount: nat, dailyFee: nat)
    requires Totals(stakes) <= totalAmount
    ensures Shares(stakes, totalAmount, dailyFee) <= dailyFee
    ensures 0 < Totals(stakes) == totalAmount ==> dailyFee <= Shares(stakes, totalAmount, dailyFee) + |stakes|
  {
    var shares := Shares(stakes, totalAmount, dailyFee);
    if totalAmount == 0 {
      NoShares(stakes, dailyFee);
    } else {
      SharesScaled(stakes, totalAmount, dailyFee);
      WithinScaled(shares, Totals(stakes), |stakes|, totalAmount, dailyFee);
    }
  }

  lemma WithinScaled(shares: nat, totals: nat, n: nat, totalAmount: nat, dailyFee: nat)
    requires totals <= totalAmount && totalAmount > 0
    requires shares * totalAmount <= totals * dailyFee <= shares * totalAmount + n * (totalAmount - 1)
    ensures shares <= dailyFee && (totals == totalAmount ==> dailyFee <= shares + n)
  {
    assert totals * dailyFee <= totalAmount * dailyFee;
    Divide(shares, dailyFee, totalAmount);
    if totals == totalAmount {
      assert n * (totalAmount - 1) <= n * totalAmount;
      Distributes(shares, n, totalAmount);
      Divide(dailyFee, shares + n, totalAmount);
    }
  }

  lemma Divide(a: int, b: int, c: int)
    requires c > 0 && a * c <= b * c
    ensures a <= b
  {
    if a > b {
      Times(a, b, c);
      assert false;
    }
  }

  lemma Times(a: int, b: int, c: int)
    requires c > 0 && a > b
    ensures a * c > b * c
  {
    assert (a - b) * c > 0;
    Distributes(a - b, b, c);
  }

  lemma {:induction false} NoShares(stakes: seq<Stake>, dailyFee: nat)
    ensures Shares(stakes, 0, dailyFee) == 0
  {
    if stakes != [] {
      NoShares(stakes[1..], dailyFee);
    }
  }
}
