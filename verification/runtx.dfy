/** What a transaction costs: first from the sender's daily fee, then from its balance, which goes
to the system caller; and how a block's rewards leave the system caller again. */
module RunTxCallbacks {
  import opened StakeInfos

  type Address = nat

  datatype Account = Account(nonce: nat, balance: nat, stake: Stake)

  type Accounts = map<Address, Account>

  datatype Error = NonceTooLow | ValueTooHigh | CostTooHigh | BalanceLeftTooLow | BalanceTooLow
                 | InvalidReceipt | InvalidFactor | CallFailed

  datatype Result<+T> = Ok(value: T) | Err(error: Error)

  function Get(m: Accounts, a: Address): Account {
    if a in m then m[a] else Account(0, 0, EMPTY)
  }

  /** A stake without any amount is not written. */
  function Saved(acc: Account): Account {
    if acc.stake.total == 0 then acc.(stake := EMPTY) else acc
  }

  function Put(m: Accounts, a: Address, acc: Account): Accounts {
    m[a := Saved(acc)]
  }

  /** All the balances of the first `n` addresses. */
  function Sum(m: Accounts, n: nat): nat {
    if n == 0 then 0 else Sum(m, n - 1) + Get(m, n - 1).balance
  }

  lemma {:induction false} SumPut(m: Accounts, a: Address, acc: Account, n: nat)
    ensures Sum(Put(m, a, acc), n) == Sum(m, n) + if a < n then acc.balance - Get(m, a).balance else 0
  {
    if n > 0 {
      SumPut(m, a, acc, n - 1);
    }
  }

  // ---- One transaction ----

  datatype Tx = Tx(sender: Address, nonce: nat, value: nat, gasLimit: nat, gasPrice: nat)

  function TxCost(tx: Tx): nat {
    tx.gasLimit * tx.gasPrice
  }

  /** What holds for all the transactions of a block. */
  datatype Env = Env(systemCaller: Address, timestamp: nat, totalAmount: nat, dailyFee: nat)

  function Available(env: Env, acc: Account): nat {
    EstimateFee(acc.stake, env.timestamp, env.totalAmount, env.dailyFee)
  }

  /** The fee that is available to the sender. */
  function ValidateTx(env: Env, m: Accounts, tx: Tx): Result<nat> {
    var acc := Get(m, tx.sender);
    if acc.nonce > tx.nonce then Err(NonceTooLow)
    else if acc.balance < tx.value then Err(ValueTooHigh)
    else if acc.balance + Available(env, acc) < TxCost(tx) + tx.value then Err(CostTooHigh)
    else Ok(Available(env, acc))
  }

  datatype Ready = Ready(accounts: Accounts, feeLeft: nat, balanceLeft: nat)

  function Before(env: Env, m: Accounts, tx: Tx): Result<Ready> {
    match ValidateTx(env, m, tx)
    case Err(e) => Err(e)
    case Ok(fee) =>
      var acc := Get(m, tx.sender);
      Ok(Ready(Put(m, tx.sender, acc.(nonce := acc.nonce + 1)), fee, acc.balance - tx.value))
  }

  datatype Usage = Usage(fee: nat, balance: nat)

  function Least(a: nat, b: nat): nat {
    if a < b then a else b
  }

  /** Fee first, then balance. */
  function Split(cost: nat, feeLeft: nat): Usage {
    Usage(Least(cost, feeLeft), cost - Least(cost, feeLeft))
  }

  function Charged(env: Env, acc: Account, u: Usage): Account
    requires u.balance <= acc.balance
  {
    var stake := if u.fee > 0 then Consume(acc.stake, u.fee, env.timestamp) else acc.stake;
    acc.(stake := stake, balance := acc.balance - u.balance)
  }

  /** The system caller is credited first; the sender's account, read before that, is written last. */
  function Settle(env: Env, m: Accounts, sender: Address, u: Usage): Accounts
    requires u.balance <= Get(m, sender).balance
  {
    var system := Get(m, env.systemCaller);
    var credited := if u.balance > 0 then Put(m, env.systemCaller, system.(balance := system.balance + u.balance))
      else m;
    Put(credited, sender, Charged(env, Get(m, sender), u))
  }

  function After(env: Env, m: Accounts, tx: Tx, ready: Ready, cost: nat): Result<(Accounts, Usage)> {
    var u := Split(cost, ready.feeLeft);
    if u.balance > ready.balanceLeft then Err(BalanceLeftTooLow)
    else if u.balance > Get(m, tx.sender).balance then Err(BalanceTooLow)
    else Ok((Settle(env, m, tx.sender, u), u))
  }

  class State {
    var accounts: Accounts

    constructor (m: Accounts)
      ensures accounts == m
    {
      accounts := m;
    }

    method PutAccount(a: Address, acc: Account)
      modifies this
      ensures accounts == Put(old(accounts), a, acc)
    {
      accounts := accounts[a := Saved(acc)];
    }
  }

  class RunTxCallback {
    const env: Env
    var feeLeft: nat
    var balanceLeft: nat
    var logs: seq<Log>

    constructor (env: Env)
      ensures this.env == env
    {
      this.env := env;
      feeLeft, balanceLeft, logs := 0, 0, [];
    }

    method BeforeTx(state: State, tx: Tx) returns (r: Result<Ready>)
      modifies this, state
      ensures r == Before(env, old(state.accounts), tx)
      ensures match r
              case Ok(ready) => state.accounts == ready.accounts && feeLeft == ready.feeLeft
                && balanceLeft == ready.balanceLeft
              case Err(_) => state.accounts == old(state.accounts)
    {
      var fromAccount := Get(state.accounts, tx.sender);
      var fee := ValidateTx(env, state.accounts, tx);
      if fee.Err? {
        return Err(fee.error);
      }
      feeLeft := fee.value;
      balanceLeft := fromAccount.balance - tx.value;
      fromAccount := fromAccount.(nonce := fromAccount.nonce + 1);
      state.PutAccount(tx.sender, fromAccount);
      r := Ok(Ready(state.accounts, feeLeft, balanceLeft));
    }

    /** The cost is split without rest, the fee first; on an error nothing is written. */
    method AfterTx(state: State, tx: Tx, cost: nat) returns (r: Result<Usage>)
      modifies this`logs, state
      ensures match After(env, old(state.accounts), tx, Ready(map[], feeLeft, balanceLeft), cost)
              case Ok((m, u)) => r == Ok(u) && state.accounts == m && logs == [UsageLog(u)] && u.fee + u.balance == cost
              case Err(e) => r == Err(e) && state.accounts == old(state.accounts)
    {
      var actualTxCost, feeUsage, balanceUsage := cost, 0, 0;
      if actualTxCost >= feeLeft {
        feeUsage := feeLeft;
        actualTxCost := actualTxCost - feeLeft;
      } else if actualTxCost > 0 {
        feeUsage := actualTxCost;
        actualTxCost := 0;
      }
      if actualTxCost > balanceLeft {
        return Err(BalanceLeftTooLow);
      } else if actualTxCost > 0 {
        balanceUsage := actualTxCost;
        actualTxCost := 0;
      }
      var fromAccount := Get(state.accounts, tx.sender);
      if feeUsage > 0 {
        fromAccount := fromAccount.(stake := Consume(fromAccount.stake, feeUsage, env.timestamp));
      }
      if balanceUsage > 0 {
        if balanceUsage > fromAccount.balance {
          return Err(BalanceTooLow);
        }
        fromAccount := fromAccount.(balance := fromAccount.balance - balanceUsage);
        var systemCallerAccount := Get(state.accounts, env.systemCaller);
        systemCallerAccount := systemCallerAccount.(balance := systemCallerAccount.balance + balanceUsage);
        state.PutAccount(env.systemCaller, systemCallerAccount);
      }
      state.PutAccount(tx.sender, fromAccount);
      logs := [UsageLog(Usage(feeUsage, balanceUsage))];
      r := Ok(Usage(feeUsage, balanceUsage));
    }
  }

  /** Settling keeps the sum of all balances, except that what the system caller itself pays is
      lost: its account is written over the credited one. */
  lemma SettleConserves(env: Env, m: Accounts, sender: Address, u: Usage, n: nat)
    requires u.balance <= Get(m, sender).balance && sender < n && env.systemCaller < n
    ensures Sum(Settle(env, m, sender, u), n) == Sum(m, n) <==> sender != env.systemCaller || u.balance == 0
    ensures Sum(Settle(env, m, sender, u), n) + (if sender == env.systemCaller then u.balance else 0) == Sum(m, n)
  {
    hide Sum;
    var system := Get(m, env.systemCaller);
    var acc := system.(balance := system.balance + u.balance);
    SumPut(m, env.systemCaller, acc, n);
    var credited := if u.balance > 0 then Put(m, env.systemCaller, acc) else m;
    SumPut(credited, sender, Charged(env, Get(m, sender), u), n);
  }

  /** What the sender loses the system caller gains, and nobody else is touched. */
  lemma SettleMoves(env: Env, m: Accounts, sender: Address, u: Usage)
    requires u.balance <= Get(m, sender).balance && sender != env.systemCaller
    ensures var m' := Settle(env, m, sender, u);
      && Get(m', sender).balance == Get(m, sender).balance - u.balance
      && Get(m', env.systemCaller).balance == Get(m, env.systemCaller).balance + u.balance
      && (forall a :: a != sender && a != env.systemCaller ==> Get(m', a) == Get(m, a))
  {
  }

  /** What running the transaction may do to the accounts in between: the sender can only lose the
      value it sends, nobody's stake changes, and nothing is taken from the system caller. */
  predicate Executes(env: Env, m: Accounts, m': Accounts, tx: Tx) {
    && Get(m, tx.sender).balance <= Get(m', tx.sender).balance + tx.value
    && Get(m, tx.sender).stake == Get(m', tx.sender).stake
    && Get(m, env.systemCaller).balance <= Get(m', env.systemCaller).balance
  }

  /** A transaction that was let in can always be charged for what it used. */
  lemma AdmittedIsCharged(env: Env, m: Accounts, tx: Tx, m': Accounts, cost: nat)
    requires Before(env, m, tx).Ok? && Executes(env, Before(env, m, tx).value.accounts, m', tx) && cost <= TxCost(tx)
    ensures After(env, m', tx, Before(env, m, tx).value, cost).Ok?
  {
    hide Available;
  }

  /** A way to pay a cost and a value from what is left of a fee and a balance. */
  predicate Pays(u: Usage, cost: nat, value: nat, feeLeft: nat, balance: nat) {
    u.fee + u.balance == cost && u.fee <= feeLeft && u.balance + value <= balance
  }

  /** A transaction is let in exactly if its nonce is not used up and it can be paid for: a part of the
      cost out of what is left of the daily fee, the rest, with the value, out of the balance. */
  lemma AdmittedExactly(env: Env, m: Accounts, tx: Tx)
    ensures var s := Get(m, tx.sender).stake;
      var left := Left(EstimateTotalFee(s, env.totalAmount, env.dailyFee), EstimateUsage(s, env.timestamp));
      Before(env, m, tx).Ok? <==>
        Get(m, tx.sender).nonce <= tx.nonce
        && exists u :: Pays(u, TxCost(tx), tx.value, left, Get(m, tx.sender).balance)
  {
    hide EstimateTotalFee, EstimateUsage, Left;
    if Before(env, m, tx).Ok? {
      var fee := Least(TxCost(tx), Available(env, Get(m, tx.sender)));
      var u := Usage(fee, TxCost(tx) - fee);
      assert Pays(u, TxCost(tx), tx.value, Available(env, Get(m, tx.sender)), Get(m, tx.sender).balance);
    }
  }

  /** That changes nothing but the sender's nonce, so that a transaction with just the next nonce is
      not let in again. */
  lemma AdmittedOnce(env: Env, m: Accounts, tx: Tx)
    requires Before(env, m, tx).Ok?
    ensures var m' := Before(env, m, tx).value.accounts;
      && Get(m', tx.sender).nonce == Get(m, tx.sender).nonce + 1
      && Get(m', tx.sender).balance == Get(m, tx.sender).balance
      && (Saved(Get(m, tx.sender)) == Get(m, tx.sender) ==> Get(m', tx.sender).stake == Get(m, tx.sender).stake)
      && (forall a :: a != tx.sender ==> Get(m', a) == Get(m, a))
      && (tx.nonce == Get(m, tx.sender).nonce ==> Before(env, m', tx).Err?)
      && Before(env, m, tx).value.balanceLeft + tx.value == Get(m, tx.sender).balance
  {
    hide Available;
  }

  /** So a sender with enough fee and no balance is let in, and what it uses costs nobody any balance. */
  lemma FeeAlonePays(env: Env, m: Accounts, tx: Tx, m': Accounts, cost: nat)
    requires Get(m, tx.sender).nonce <= tx.nonce && Get(m, tx.sender).balance == 0 == tx.value && cost <= TxCost(tx)
    requires var s := Get(m, tx.sender).stake;
      TxCost(tx) <= Left(EstimateTotalFee(s, env.totalAmount, env.dailyFee), EstimateUsage(s, env.timestamp))
    ensures Before(env, m, tx).Ok?
    ensures Executes(env, Before(env, m, tx).value.accounts, m', tx) ==>
      var after := After(env, m', tx, Before(env, m, tx).value, cost);
      after.Ok? && after.value.1 == Usage(cost, 0) && forall a :: Get(after.value.0, a).balance == Get(m', a).balance
  {
    hide EstimateTotalFee, EstimateUsage, Left;
    AdmittedExactly(env, m, tx);
    assert Pays(Usage(TxCost(tx), 0), TxCost(tx), 0, Available(env, Get(m, tx.sender)), 0);
  }

  /** And it spends at most what was left of its daily fee. */
  lemma ChargedWithinFee(env: Env, m: Accounts, tx: Tx, m': Accounts, cost: nat)
    requires Before(env, m, tx).Ok? && Executes(env, Before(env, m, tx).value.accounts, m', tx)
    requires After(env, m', tx, Before(env, m, tx).value, cost).Ok? && tx.sender != env.systemCaller
    requires Saved(Get(m, tx.sender)) == Get(m, tx.sender)
    ensures var (m'', u) := After(env, m', tx, Before(env, m, tx).value, cost).value;
      var s, fee := Get(m, tx.sender).stake, EstimateTotalFee(Get(m, tx.sender).stake, env.totalAmount, env.dailyFee);
      && u.fee <= Left(fee, EstimateUsage(s, env.timestamp))
      && Get(m'', tx.sender).stake == (if u.fee > 0 then Consume(s, u.fee, env.timestamp) else s)
      && (u.balance > 0 ==> u.fee == Left(fee, EstimateUsage(s, env.timestamp)))
  {
    NoShare(Get(m, tx.sender).stake, env.totalAmount, env.dailyFee);
  }

  lemma NoShare(s: Stake, totalAmount: nat, dailyFee: nat)
    ensures s.total == 0 ==> EstimateTotalFee(s, totalAmount, dailyFee) == 0
  {
  }

  // ---- A block ----

  const USAGE_TOPIC: nat := 1

  datatype Log = Log(topics: seq<nat>)

  function UsageLog(u: Usage): Log {
    Log([USAGE_TOPIC, u.fee, u.balance])
  }

  /** A receipt's logs: those of the execution, then the one that the callback appends. */
  type Receipt = seq<Log>

  function GenerateTxReceipt(emitted: seq<Log>, u: Usage): Receipt {
    emitted + [UsageLog(u)]
  }

  /** A transaction, the accounts its execution leaves, the logs it emits and what it cost. */
  datatype Step = Step(tx: Tx, executed: Accounts, emitted: seq<Log>, cost: nat)

  datatype Applied = Applied(accounts: Accounts, receipts: seq<Receipt>)

  function RunTx(env: Env, m: Accounts, step: Step): Result<(Accounts, Usage)> {
    match Before(env, m, step.tx)
    case Err(e) => Err(e)
    case Ok(ready) => After(env, step.executed, step.tx, ready, step.cost)
  }

  function Apply(env: Env, m: Accounts, steps: seq<Step>): Result<Applied> {
    if steps == [] then Ok(Applied(m, []))
    else
      var n := |steps| - 1;
      match Apply(env, m, steps[..n])
      case Err(e) => Err(e)
      case Ok(applied) =>
        match RunTx(env, applied.accounts, steps[n])
        case Err(e) => Err(e)
        case Ok((m', u)) => Ok(Applied(m', applied.receipts + [GenerateTxReceipt(steps[n].emitted, u)]))
  }

  /** Every step runs from where the one before left off, and none is sent by the system caller. */
  predicate Faithful(env: Env, m: Accounts, steps: seq<Step>) {
    steps == [] ||
    (var n := |steps| - 1;
     Faithful(env, m, steps[..n]) && FaithfulStep(env, Apply(env, m, steps[..n]), steps[n]))
  }

  predicate FaithfulStep(env: Env, applied: Result<Applied>, step: Step) {
    step.tx.sender != env.systemCaller &&
    (applied.Ok? && Before(env, applied.value.accounts, step.tx).Ok? ==>
       Executes(env, Before(env, applied.value.accounts, step.tx).value.accounts, step.executed, step.tx))
  }

  /** The sums over the last log of every receipt, whatever else the receipts hold. */
  function AccUsage(receipts: seq<Receipt>): Result<Usage> {
    if receipts == [] then Ok(Usage(0, 0))
    else
      var receipt := receipts[|receipts| - 1];
      match AccUsage(receipts[..|receipts| - 1])
      case Err(e) => Err(e)
      case Ok(acc) =>
        if |receipt| == 0 || |receipt[|receipt| - 1].topics| != 3 then Err(InvalidReceipt)
        else Ok(Usage(acc.fee + receipt[|receipt| - 1].topics[1], acc.balance + receipt[|receipt| - 1].topics[2]))
  }

  method CalcAccUsage(receipts: seq<Receipt>) returns (r: Result<Usage>)
    ensures r == AccUsage(receipts)
  {
    var accFeeUsage, accBalUsage := 0, 0;
    for i := 0 to |receipts|
      invariant AccUsage(receipts[..i]) == Ok(Usage(accFeeUsage, accBalUsage))
    {
      var receipt := receipts[i];
      assert receipts[..i + 1][..i] == receipts[..i];
      if |receipt| == 0 {
        AccUsageFails(receipts, i + 1);
        return Err(InvalidReceipt);
      }
      var log := receipt[|receipt| - 1];
      if |log.topics| != 3 {
        AccUsageFails(receipts, i + 1);
        return Err(InvalidReceipt);
      }
      accFeeUsage := accFeeUsage + log.topics[1];
      accBalUsage := accBalUsage + log.topics[2];
    }
    assert receipts[..|receipts|] == receipts;
    r := Ok(Usage(accFeeUsage, accBalUsage));
  }

  lemma {:induction false} AccUsageFails(receipts: seq<Receipt>, i: nat)
    requires i <= |receipts| && AccUsage(receipts[..i]).Err?
    ensures AccUsage(receipts) == Err(InvalidReceipt)
    decreases |receipts|
  {
    if i == |receipts| {
      assert receipts[..i] == receipts;
      AccUsageErrs(receipts);
    } else {
      assert receipts[..|receipts| - 1][..i] == receipts[..i];
      AccUsageFails(receipts[..|receipts| - 1], i);
    }
  }

  lemma {:induction false} AccUsageErrs(receipts: seq<Receipt>)
    requires AccUsage(receipts).Err?
    ensures AccUsage(receipts) == Err(InvalidReceipt)
  {
    if receipts != [] && AccUsage(receipts[..|receipts| - 1]).Err? {
      AccUsageErrs(receipts[..|receipts| - 1]);
    }
  }

  /** The sum exists exactly if every receipt ends with a log of three topics. */
  lemma {:induction false} AccUsageExactly(receipts: seq<Receipt>)
    ensures AccUsage(receipts).Ok? <==>
      forall r: Receipt :: r in receipts ==> |r| > 0 && |r[|r| - 1].topics| == 3
  {
    if receipts != [] {
      var rest, last := receipts[..|receipts| - 1], receipts[|receipts| - 1];
      AccUsageExactly(rest);
      assert receipts == rest + [last];
    }
  }

  lemma RunTxCredits(env: Env, m: Accounts, step: Step)
    requires FaithfulStep(env, Ok(Applied(m, [])), step) && RunTx(env, m, step).Ok?
    ensures var (m', u) := RunTx(env, m, step).value;
      && u.fee + u.balance == step.cost
      && Get(m', env.systemCaller).balance >= Get(m, env.systemCaller).balance + u.balance
  {
    hide Available, Charged;
    var ready := Before(env, m, step.tx).value;
    SettleMoves(env, step.executed, step.tx.sender, Split(step.cost, ready.feeLeft));
  }

  /** A transaction goes through exactly if it is let in and what it used can be paid for, out of the
      balance that it had less the value, and out of what the execution left of it. */
  lemma TxExactly(env: Env, m: Accounts, step: Step)
    ensures var sender, s := step.tx.sender, Get(m, step.tx.sender).stake;
      var left := Left(EstimateTotalFee(s, env.totalAmount, env.dailyFee), EstimateUsage(s, env.timestamp));
      RunTx(env, m, step).Ok? <==>
        Before(env, m, step.tx).Ok?
        && exists u :: Pays(u, step.cost, step.tx.value, left, Get(m, sender).balance)
             && u.balance <= Get(step.executed, sender).balance
  {
    hide EstimateTotalFee, EstimateUsage, Left, Settle;
    if RunTx(env, m, step).Ok? {
      var fee := Least(step.cost, Available(env, Get(m, step.tx.sender)));
      var u := Usage(fee, step.cost - fee);
      assert Pays(u, step.cost, step.tx.value, Available(env, Get(m, step.tx.sender)), Get(m, step.tx.sender).balance);
    }
  }

  /** Whoever has no stake after a transaction has nothing used up either. */
  lemma NoStakeNoUsage(env: Env, m: Accounts, step: Step)
    requires RunTx(env, m, step).Ok?
    ensures var s := Get(RunTx(env, m, step).value.0, step.tx.sender).stake; s.total == 0 ==> s == Stake(0, 0, 0)
  {
    hide Available;
  }

  /** What a whole transaction moves: the fee first and, only once that is used up, balance; the
      balance goes from the sender to the system caller, and everybody else has what the execution
      left them. */
  lemma TxMoves(env: Env, m: Accounts, step: Step)
    requires FaithfulStep(env, Ok(Applied(m, [])), step) && RunTx(env, m, step).Ok?
    ensures var (m', u) := RunTx(env, m, step).value;
      var sender, s := step.tx.sender, Get(m, step.tx.sender).stake;
      var left := Left(EstimateTotalFee(s, env.totalAmount, env.dailyFee), EstimateUsage(s, env.timestamp));
      && u.fee + u.balance == step.cost && u.fee <= left && (u.balance > 0 ==> u.fee == left)
      && u.balance + step.tx.value <= Get(m, sender).balance
      && Get(m', sender).balance + u.balance == Get(step.executed, sender).balance
      && Get(m', sender).nonce == Get(step.executed, sender).nonce
      && Get(m', env.systemCaller).balance == Get(step.executed, env.systemCaller).balance + u.balance
      && forall a :: a != sender && a != env.systemCaller ==> Get(m', a) == Get(step.executed, a)
  {
    hide EstimateTotalFee, EstimateUsage, Left;
    var ready := Before(env, m, step.tx).value;
    SettleMoves(env, step.executed, step.tx.sender, Split(step.cost, ready.feeLeft));
  }

  // ---- One sender over time ----

  datatype Charge = Charge(env: Env, before: Accounts, step: Step)

  /** A transaction of `sender` that went through while its daily fee was `fee`. */
  predicate IsCharge(sender: Address, fee: nat, x: Charge) {
    && x.step.tx.sender == sender && FaithfulStep(x.env, Ok(Applied(x.before, [])), x.step)
    && RunTx(x.env, x.before, x.step).Ok? && Saved(Get(x.before, sender)) == Get(x.before, sender)
    && EstimateTotalFee(Get(x.before, sender).stake, x.env.totalAmount, x.env.dailyFee) == fee
  }

  function StakeAfter(sender: Address, x: Charge): Stake
    requires RunTx(x.env, x.before, x.step).Ok?
  {
    Get(RunTx(x.env, x.before, x.step).value.0, sender).stake
  }

  /** Transactions in the order of time, the sender's stake untouched between them. */
  predicate Charges(sender: Address, fee: nat, s: Stake, xs: seq<Charge>)
    decreases |xs|
  {
    xs == [] ||
    (var x := xs[0];
     && IsCharge(sender, fee, x) && Get(x.before, sender).stake == s && s.timestamp <= x.env.timestamp
     && (|xs| > 1 ==> x.env.timestamp <= xs[1].env.timestamp)
     && Charges(sender, fee, StakeAfter(sender, x), xs[1..]))
  }

  function FeeOf(x: Charge): nat
    requires RunTx(x.env, x.before, x.step).Ok?
  {
    RunTx(x.env, x.before, x.step).value.1.fee
  }

  function Spends(sender: Address, fee: nat, s: Stake, xs: seq<Charge>): seq<Spend>
    requires Charges(sender, fee, s, xs)
    decreases |xs|
  {
    if xs == [] then []
    else
      (if FeeOf(xs[0]) > 0 then [Spend(FeeOf(xs[0]), xs[0].env.timestamp)] else [])
      + Spends(sender, fee, StakeAfter(sender, xs[0]), xs[1..])
  }

  lemma ChargeSpends(sender: Address, fee: nat, x: Charge)
    requires IsCharge(sender, fee, x)
    ensures var s := Get(x.before, sender).stake;
      && FeeOf(x) <= Left(fee, EstimateUsage(s, x.env.timestamp))
      && StakeAfter(sender, x) == if FeeOf(x) > 0 then Consume(s, FeeOf(x), x.env.timestamp) else s
  {
    ChargedWithinFee(x.env, x.before, x.step.tx, x.step.executed, x.step.cost);
  }

  lemma {:induction false} ChargesAllowed(sender: Address, fee: nat, s: Stake, xs: seq<Charge>)
    requires Charges(sender, fee, s, xs)
    ensures var spends := Spends(sender, fee, s, xs);
      && Allowed(s, spends, fee) && |spends| <= |xs|
      && (spends != [] ==> xs[0].env.timestamp <= spends[0].at && spends[|spends| - 1].at <= xs[|xs| - 1].env.timestamp)
    decreases |xs|
  {
    hide RunTx, FaithfulStep, Saved, StakeAfter, FeeOf, Consume, EstimateUsage, EstimateTotalFee;
    if xs != [] {
      ChargeSpends(sender, fee, xs[0]);
      var rest := Spends(sender, fee, StakeAfter(sender, xs[0]), xs[1..]);
      ChargesAllowed(sender, fee, StakeAfter(sender, xs[0]), xs[1..]);
      LastLater(sender, fee, s, xs);
      assert ([Spend(FeeOf(xs[0]), xs[0].env.timestamp)] + rest)[1..] == rest && [] + rest == rest;
    }
  }

  lemma {:induction false} LastLater(sender: Address, fee: nat, s: Stake, xs: seq<Charge>)
    requires Charges(sender, fee, s, xs) && xs != []
    ensures xs[0].env.timestamp <= xs[|xs| - 1].env.timestamp
    decreases |xs|
  {
    if |xs| > 1 {
      LastLater(sender, fee, StakeAfter(sender, xs[0]), xs[1..]);
    }
  }

  /** With a fixed daily fee, the fees that `k` transactions of one sender use up within `w` seconds
      come to at most `fee + fee * w / 86400 + k`. */
  lemma SenderRateIsBounded(sender: Address, fee: nat, s: Stake, xs: seq<Charge>)
    requires Charges(sender, fee, s, xs) && xs != []
    ensures var w := xs[|xs| - 1].env.timestamp - xs[0].env.timestamp;
      RECOVER_INTERVAL * Total(Spends(sender, fee, s, xs)) <= RECOVER_INTERVAL * fee + fee * w
        + |xs| * (RECOVER_INTERVAL - 1)
  {
    hide Charges, Spends, Allowed;
    var spends := Spends(sender, fee, s, xs);
    ChargesAllowed(sender, fee, s, xs);
    LastLater(sender, fee, s, xs);
    var w := xs[|xs| - 1].env.timestamp - xs[0].env.timestamp;
    Widen(fee, 0, w);
    if spends != [] {
      RateIsBounded(s, spends, fee);
      Widen(fee, spends[|spends| - 1].at - spends[0].at, w);
    }
  }

  function Costs(steps: seq<Step>): nat {
    if steps == [] then 0 else Costs(steps[..|steps| - 1]) + steps[|steps| - 1].cost
  }

  lemma {:induction false} BlockCredits(env: Env, m: Accounts, steps: seq<Step>)
    requires Faithful(env, m, steps) && Apply(env, m, steps).Ok?
    ensures var Applied(m', receipts) := Apply(env, m, steps).value;
      && AccUsage(receipts).Ok?
      && AccUsage(receipts).value.fee + AccUsage(receipts).value.balance == Costs(steps)
      && Get(m', env.systemCaller).balance >= Get(m, env.systemCaller).balance + AccUsage(receipts).value.balance
    decreases |steps|
  {
    hide RunTx, Executes, Get;
    if steps != [] {
      var n := |steps| - 1;
      BlockCredits(env, m, steps[..n]);
      var Applied(m1, receipts) := Apply(env, m, steps[..n]).value;
      RunTxCredits(env, m1, steps[n]);
      var (m', u) := RunTx(env, m1, steps[n]).value;
      LastIsUsage(receipts, steps[n].emitted, u);
    }
  }

  lemma LastIsUsage(receipts: seq<Receipt>, emitted: seq<Log>, u: Usage)
    requires AccUsage(receipts).Ok?
    ensures var acc := AccUsage(receipts).value;
      AccUsage(receipts + [GenerateTxReceipt(emitted, u)]) == Ok(Usage(acc.fee + u.fee, acc.balance + u.balance))
  {
    var more := receipts + [GenerateTxReceipt(emitted, u)];
    assert more[..|more| - 1] == receipts;
  }

  // ---- Rewards ----

  /** Division that truncates towards zero. */
  function Quotient(a: int, b: int): int
    requires b > 0
  {
    if a >= 0 then a / b else -((-a) / b)
  }

  datatype Rewards = Rewards(miner: int, feePool: int, minerAmount: nat, distribute: int)

  function SplitReward(totalReward: nat, usage: Usage, minerFactor: nat): Rewards {
    var totalBlockReward := totalReward - usage.balance;
    var minerReward := Quotient(totalBlockReward * minerFactor, 100);
    var feePoolReward := totalBlockReward - minerReward;
    Rewards(minerReward, feePoolReward, usage.fee + usage.balance, feePoolReward + usage.balance)
  }

  /** A message that carries value from the system caller to a contract. */
  function Call(env: Env, m: Accounts, to: Address, value: int): Result<Accounts> {
    if value < 0 || value > Get(m, env.systemCaller).balance then Err(CallFailed)
    else
      var system := Get(m, env.systemCaller);
      var paid := Put(m, env.systemCaller, system.(balance := system.balance - value));
      Ok(Put(paid, to, Get(paid, to).(balance := Get(paid, to).balance + value)))
  }

  /** The contracts that take the rewards. */
  datatype Contracts = Contracts(stakeManager: Address, feePool: Address)

  /** With free staking, the miner's part and the fee pool's; without it, the miner gets it all. A
      factor above 100 is refused, unless it comes from the configuration contract (`dao`). */
  function DistributeRewards(env: Env, contracts: Contracts, m: Accounts, receipts: seq<Receipt>, freeStaking: bool,
      dao: bool, minerFactor: nat): Result<Accounts>
  {
    var totalReward := Get(m, env.systemCaller).balance;
    if !freeStaking then Call(env, m, contracts.stakeManager, totalReward)
    else
      match AccUsage(receipts)
      case Err(e) => Err(e)
      case Ok(usage) =>
        if !dao && minerFactor > 100 then Err(InvalidFactor)
        else
          var rewards := SplitReward(totalReward, usage, minerFactor);
          match Call(env, m, contracts.stakeManager, rewards.miner)
          case Err(e) => Err(e)
          case Ok(m1) => Call(env, m1, contracts.feePool, rewards.distribute)
  }

  class Executor {
    const env: Env
    const contracts: Contracts

    constructor (env: Env, contracts: Contracts)
      ensures this.env == env && this.contracts == contracts
    {
      this.env, this.contracts := env, contracts;
    }

    method AssignBlockReward(state: State, reward: nat)
      modifies state
      ensures Get(state.accounts, env.systemCaller).balance ==
        old(Get(state.accounts, env.systemCaller)).balance + reward
      ensures forall a :: a != env.systemCaller ==> Get(state.accounts, a) == old(Get(state.accounts, a))
    {
      var account := Get(state.accounts, env.systemCaller);
      account := account.(balance := account.balance + reward);
      state.PutAccount(env.systemCaller, account);
    }

    method SystemCall(state: State, to: Address, value: int) returns (r: Result<()>)
      modifies state
      ensures match Call(env, old(state.accounts), to, value)
              case Ok(m) => r == Ok(()) && state.accounts == m
              case Err(e) => r == Err(e) && state.accounts == old(state.accounts)
    {
      var system := Get(state.accounts, env.systemCaller);
      if value < 0 || value > system.balance {
        return Err(CallFailed);
      }
      state.PutAccount(env.systemCaller, system.(balance := system.balance - value));
      var target := Get(state.accounts, to);
      state.PutAccount(to, target.(balance := target.balance + value));
      r := Ok(());
    }

    /** The money part of what follows the transactions of a block. */
    method AfterApply(state: State, receipts: seq<Receipt>, freeStaking: bool, dao: bool, minerFactor: nat)
        returns (r: Result<()>)
      modifies state
      ensures match DistributeRewards(env, contracts, old(state.accounts), receipts, freeStaking, dao, minerFactor)
              case Ok(m) => r == Ok(()) && state.accounts == m
              case Err(e) => r == Err(e)
    {
      var totalReward: int := Get(state.accounts, env.systemCaller).balance;
      var minerReward: int, feePoolReward: int;
      var accFeeUsage, accBalUsage := 0, 0;
      if freeStaking {
        var result := CalcAccUsage(receipts);
        if result.Err? {
          return Err(result.error);
        }
        accFeeUsage, accBalUsage := result.value.fee, result.value.balance;
        var totalBlockReward := totalReward - accBalUsage;
        if !dao && minerFactor > 100 {
          return Err(InvalidFactor);
        }
        minerReward := Quotient(totalBlockReward * minerFactor, 100);
        feePoolReward := totalBlockReward - minerReward;
      } else {
        minerReward := totalReward;
        feePoolReward := 0;
      }
      r := SystemCall(state, contracts.stakeManager, minerReward);
      if r.Err? {
        return;
      }
      if freeStaking {
        var distributeValue := feePoolReward + accBalUsage;
        r := SystemCall(state, contracts.feePool, distributeValue);
      }
    }
  }

  /** The miner's part and the distributed value make up the system caller's balance; the miner's
      part is within a hundredth, rounded down, of what is not usage. */
  lemma RewardIsSplit(totalReward: nat, usage: Usage, minerFactor: nat)
    ensures var r := SplitReward(totalReward, usage, minerFactor); r.miner + r.distribute == totalReward
    ensures usage.balance <= totalReward && minerFactor <= 100 ==>
      var r := SplitReward(totalReward, usage, minerFactor);
      && 0 <= r.miner && 100 * r.miner <= (totalReward - usage.balance) * minerFactor < 100 * (r.miner + 1)
      && r.miner <= totalReward - usage.balance && r.distribute >= usage.balance
  {
    var left := totalReward - usage.balance;
    if left >= 0 && minerFactor <= 100 {
      assert 0 <= left * minerFactor <= left * 100;
    }
  }

  predicate Apart(env: Env, contracts: Contracts) {
    env.systemCaller != contracts.stakeManager && env.systemCaller != contracts.feePool
  }

  /** With a factor that is not refused, both calls go through exactly when the miner's part, the
      hundredths of what is not usage, is neither negative nor more than there is; then nothing is
      left with the system caller. */
  lemma DistributesAll(env: Env, contracts: Contracts, m: Accounts, receipts: seq<Receipt>, dao: bool, minerFactor: nat)
    requires Apart(env, contracts) && AccUsage(receipts).Ok?
    ensures var held := Get(m, env.systemCaller).balance;
      var hundredths := (held - AccUsage(receipts).value.balance) * minerFactor;
      var d := DistributeRewards(env, contracts, m, receipts, true, dao, minerFactor);
      && (d.Ok? <==> (dao || minerFactor <= 100) && -100 < hundredths < 100 * (held + 1))
      && (d.Ok? ==> Get(d.value, env.systemCaller).balance == 0)
  {
    hide AccUsage;
    RewardIsSplit(Get(m, env.systemCaller).balance, AccUsage(receipts).value, minerFactor);
  }

  /** Who gets what: the stake manager the hundredths, rounded down, of what is not usage, and the fee
      pool all the rest, the usage with it. Nobody else's account changes. */
  lemma DistributePays(env: Env, contracts: Contracts, m: Accounts, receipts: seq<Receipt>, dao: bool, minerFactor: nat)
    requires Apart(env, contracts) && AccUsage(receipts).Ok?
    requires DistributeRewards(env, contracts, m, receipts, true, dao, minerFactor).Ok?
    ensures var held := Get(m, env.systemCaller).balance;
      var hundredths := (held - AccUsage(receipts).value.balance) * minerFactor;
      var part := if hundredths < 0 then 0 else hundredths / 100;
      var d := DistributeRewards(env, contracts, m, receipts, true, dao, minerFactor).value;
      && (contracts.stakeManager != contracts.feePool ==>
        && Get(d, contracts.stakeManager).balance == Get(m, contracts.stakeManager).balance + part
        && Get(d, contracts.feePool).balance == Get(m, contracts.feePool).balance + held - part)
      && (contracts.stakeManager == contracts.feePool ==>
        Get(d, contracts.feePool).balance == Get(m, contracts.feePool).balance + held)
      && forall a :: a != env.systemCaller && a != contracts.stakeManager && a != contracts.feePool ==>
        Get(d, a) == Get(m, a)
  {
    hide AccUsage;
  }

  /** Without free staking, all of it goes to the stake manager. */
  lemma AllToMiner(env: Env, contracts: Contracts, m: Accounts, receipts: seq<Receipt>, dao: bool, minerFactor: nat)
    requires Apart(env, contracts)
    ensures var d := DistributeRewards(env, contracts, m, receipts, false, dao, minerFactor);
      && d.Ok? && Get(d.value, env.systemCaller).balance == 0
      && (contracts.stakeManager in d.value && d.value[contracts.stakeManager].balance ==
          Get(m, contracts.stakeManager).balance + Get(m, env.systemCaller).balance)
      && forall a :: a != env.systemCaller && a != contracts.stakeManager ==> Get(d.value, a) == Get(m, a)
  {
  }

  /** Over a whole block, of any number of transactions: the system caller ends with nothing. */
  lemma BlockEndsAtZero(env: Env, contracts: Contracts, m: Accounts, steps: seq<Step>, rewarded: Accounts, dao: bool,
      minerFactor: nat)
    requires Apart(env, contracts) && minerFactor <= 100
    requires Faithful(env, m, steps) && Apply(env, m, steps).Ok?
    requires Get(rewarded, env.systemCaller).balance >=
      Get(Apply(env, m, steps).value.accounts, env.systemCaller).balance
    ensures var receipts := Apply(env, m, steps).value.receipts;
      var d := DistributeRewards(env, contracts, rewarded, receipts, true, dao, minerFactor);
      && d.Ok? && Get(d.value, env.systemCaller).balance == 0
      && AccUsage(receipts).value.fee + AccUsage(receipts).value.balance == Costs(steps)
  {
    hide DistributeRewards, AccUsage, Apply, SplitReward;
    BlockCredits(env, m, steps);
    var receipts := Apply(env, m, steps).value.receipts;
    RewardIsSplit(Get(rewarded, env.systemCaller).balance, AccUsage(receipts).value, minerFactor);
    DistributesAll(env, contracts, rewarded, receipts, dao, minerFactor);
  }

  /** Distributing moves money and makes none. */
  lemma DistributeConserves(env: Env, contracts: Contracts, m: Accounts, receipts: seq<Receipt>, freeStaking: bool,
      dao: bool, minerFactor: nat, n: nat)
    requires env.systemCaller < n && contracts.stakeManager < n && contracts.feePool < n
    requires DistributeRewards(env, contracts, m, receipts, freeStaking, dao, minerFactor).Ok?
    ensures Sum(DistributeRewards(env, contracts, m, receipts, freeStaking, dao, minerFactor).value, n) == Sum(m, n)
  {
    hide Sum, Call, SplitReward, AccUsage;
    var totalReward := Get(m, env.systemCaller).balance;
    if freeStaking {
      var rewards := SplitReward(totalReward, AccUsage(receipts).value, minerFactor);
      CallConserves(env, m, contracts.stakeManager, rewards.miner, n);
      CallConserves(env, Call(env, m, contracts.stakeManager, rewards.miner).value, contracts.feePool,
        rewards.distribute, n);
    } else {
      CallConserves(env, m, contracts.stakeManager, totalReward, n);
    }
  }

  lemma CallConserves(env: Env, m: Accounts, to: Address, value: int, n: nat)
    requires env.systemCaller < n && to < n && Call(env, m, to, value).Ok?
    ensures Sum(Call(env, m, to, value).value, n) == Sum(m, n)
  {
    hide Sum;
    var system := Get(m, env.systemCaller);
    var acc := system.(balance := system.balance - value);
    SumPut(m, env.systemCaller, acc, n);
    var paid := Put(m, env.systemCaller, acc);
    SumPut(paid, to, Get(paid, to).(balance := Get(paid, to).balance + value), n);
  }
}
