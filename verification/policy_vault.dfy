/**
 * The PolicyVault contract as it stores itself: counters, a day index and used-hash flags,
 * updated in place. Every entry point is proved to take exactly the step that VaultMachine
 * takes on the payment history, so the counters are a faithful fast form of that history.
 */
module PolicyVaultContract {
  import opened Wrappers
  import opened MapSums
  import opened VaultMachine

  /** The CEP-18 token the vault pays in; minting is off, so the supply is fixed. */
  class Token {
    var balances: map<Address, U256>

    ghost predicate Valid()
      reads this
    {
      Total(balances) < U256_LIMIT
    }

    constructor (initial: map<Address, U256>)
      requires Total(initial) < U256_LIMIT
      ensures Valid() && balances == initial
    {
      balances := initial;
    }

    function BalanceOf(a: Address): (b: U256)
      reads this
      ensures b == Balance(balances, a)
    {
      if a in balances then balances[a] else 0
    }

    method TransferFrom(caller: Address, to: Address, amount: U256) returns (r: Outcome)
      requires Valid()
      modifies this
      ensures Valid()
      ensures match r
        case Accepted => Transfer(old(balances), caller, to, amount) == Ok(balances)
        case Reverted(e) => Transfer(old(balances), caller, to, amount) == Err(e) && balances == old(balances)
    {
      if caller == to {
        return Reverted(TokenCannotTargetSelf);
      }
      if BalanceOf(caller) < amount {
        return Reverted(TokenInsufficientBalance);
      }
      MoveFits(balances, caller, to, amount);
      MoveKeepsTotal(balances, caller, to, amount);
      var debited := balances[caller := BalanceOf(caller) - amount];
      balances := debited[to := BalanceOf(to) + amount];
      return Accepted;
    }
  }

  lemma MoveFits(b: map<Address, nat>, from: Address, to: Address, amount: nat)
    requires from != to && amount <= Balance(b, from)
    ensures Balance(b, to) + amount <= Total(b)
  {
    if from in b {
      TotalRemove(b, from);
      if to in b {
        TotalRemove(b - {from}, to);
      }
    } else if to in b {
      TotalRemove(b, to);
    }
  }

  /** A mapping's get_or_default for flags. */
  predicate Flag<K>(m: map<K, bool>, k: K) {
    k in m && m[k]
  }

  function Flagged<K>(m: map<K, bool>): set<K> {
    set k | k in m && m[k]
  }

  lemma {:induction false} NothingSpentOn(h: seq<Payment>, day: nat)
    requires forall i :: 0 <= i < |h| ==> Day(h[i].atMs) != day
    ensures SpentOn(h, day) == 0
  {
    if h != [] {
      NothingSpentOn(h[..|h| - 1], day);
    }
  }

  class PolicyVault {
    const address: Address
    const token: Token

    var owner: Option<Address>
    var agents: map<Address, bool>
    var receivers: map<Address, bool>
    var maxSingle: U256
    var dailyLimit: U256
    var validUntilMs: nat
    var dayIndex: nat
    var daySpend: U256
    var paidTotal: U256
    var usedPayloadHashes: map<string, bool>

    // What an observer of the chain has seen so far.
    ghost var history: seq<Payment>
    ghost var deposited: nat
    ghost var clockMs: nat

    ghost predicate Blank()
      reads this, token
    {
      && token.Valid()
      && owner == None && agents == map[] && receivers == map[] && usedPayloadHashes == map[]
      && history == []
    }

    /** The stored counters and flags are the ones the history implies. */
    ghost predicate Valid()
      reads this, token
    {
      && token.Valid()
      && owner.Some?
      && paidTotal == TotalPaid(history)
      && daySpend == SpentOn(history, dayIndex)
      && dayIndex <= Day(clockMs)
      && (forall i :: 0 <= i < |history| ==> Day(history[i].atMs) <= dayIndex)
      && dayIndex == (if history == [] then 0 else Day(history[|history| - 1].atMs))
      && (forall hash :: Flag(usedPayloadHashes, hash) <==> HashUsed(history, hash))
    }

    ghost function Model(): World
      reads this, token
      requires owner.Some?
    {
      World(
        address,
        Policy(
          owner.value, Flagged(agents), Flagged(receivers), maxSingle, dailyLimit, validUntilMs),
        history, token.balances, deposited, clockMs)
    }

    constructor (address: Address, token: Token)
      requires token.Valid()
      ensures Blank() && this.address == address && this.token == token
    {
      this.address := address;
      this.token := token;
      owner, agents, receivers, usedPayloadHashes := None, map[], map[], map[];
      maxSingle, dailyLimit, validUntilMs, dayIndex, daySpend, paidTotal := 0, 0, 0, 0, 0, 0;
      history, deposited, clockMs := [], 0, 0;
    }

    method Init(caller: Address, nowMs: nat, maxSingle: U256, dailyLimit: U256, validUntilMs: nat) returns (r: Outcome)
      requires Blank()
      modifies this
      ensures match r
        case Accepted =>
          Valid() && Install(address, token.balances, caller, nowMs, maxSingle, dailyLimit, validUntilMs) == Ok(Model())
        case Reverted(e) =>
          Blank() && Install(address, token.balances, caller, nowMs, maxSingle, dailyLimit, validUntilMs) == Err(e)
    {
      if maxSingle == 0 || dailyLimit == 0 || maxSingle > dailyLimit {
        return Reverted(AmountAboveMax);
      }
      if validUntilMs <= nowMs {
        return Reverted(InvalidValidUntil);
      }
      owner := Some(caller);
      this.maxSingle, this.dailyLimit, this.validUntilMs := maxSingle, dailyLimit, validUntilMs;
      dayIndex, daySpend, paidTotal := 0, 0, 0;
      deposited, clockMs := token.BalanceOf(address), nowMs;
      assert Flagged(agents) == {} && Flagged(receivers) == {};
      return Accepted;
    }

    predicate IsOwner(caller: Address)
      reads this
    {
      owner == Some(caller)
    }

    method AllowAgent(caller: Address, nowMs: nat, agent: Address) returns (r: Outcome)
      requires Valid() && clockMs <= nowMs
      modifies this
      ensures Valid() && (Model(), r) == Step(old(Model()), Tx(caller, nowMs, Call.AllowAgent(agent)))
    {
      clockMs := nowMs;
      if !IsOwner(caller) { return Reverted(NotOwner); }
      agents := agents[agent := true];
      assert Flagged(agents) == old(Flagged(agents)) + {agent};
      return Accepted;
    }

    method RevokeAgent(caller: Address, nowMs: nat, agent: Address) returns (r: Outcome)
      requires Valid() && clockMs <= nowMs
      modifies this
      ensures Valid() && (Model(), r) == Step(old(Model()), Tx(caller, nowMs, Call.RevokeAgent(agent)))
    {
      clockMs := nowMs;
      if !IsOwner(caller) { return Reverted(NotOwner); }
      agents := agents[agent := false];
      assert Flagged(agents) == old(Flagged(agents)) - {agent};
      return Accepted;
    }

    method AllowReceiver(caller: Address, nowMs: nat, receiver: Address) returns (r: Outcome)
      requires Valid() && clockMs <= nowMs
      modifies this
      ensures Valid() && (Model(), r) == Step(old(Model()), Tx(caller, nowMs, Call.AllowReceiver(receiver)))
    {
      clockMs := nowMs;
      if !IsOwner(caller) { return Reverted(NotOwner); }
      receivers := receivers[receiver := true];
      assert Flagged(receivers) == old(Flagged(receivers)) + {receiver};
      return Accepted;
    }

    method RevokeReceiver(caller: Address, nowMs: nat, receiver: Address) returns (r: Outcome)
      requires Valid() && clockMs <= nowMs
      modifies this
      ensures Valid() && (Model(), r) == Step(old(Model()), Tx(caller, nowMs, Call.RevokeReceiver(receiver)))
    {
      clockMs := nowMs;
      if !IsOwner(caller) { return Reverted(NotOwner); }
      receivers := receivers[receiver := false];
      assert Flagged(receivers) == old(Flagged(receivers)) - {receiver};
      return Accepted;
    }

    method SetLimits(caller: Address, nowMs: nat, maxSingle: U256, dailyLimit: U256) returns (r: Outcome)
      requires Valid() && clockMs <= nowMs
      modifies this
      ensures Valid() && (Model(), r) == Step(old(Model()), Tx(caller, nowMs, Call.SetLimits(maxSingle, dailyLimit)))
    {
      clockMs := nowMs;
      if !IsOwner(caller) { return Reverted(NotOwner); }
      if maxSingle == 0 || dailyLimit == 0 || maxSingle > dailyLimit {
        return Reverted(AmountAboveMax);
      }
      this.maxSingle, this.dailyLimit := maxSingle, dailyLimit;
      return Accepted;
    }

    method SetValidUntil(caller: Address, nowMs: nat, untilMs: nat) returns (r: Outcome)
      requires Valid() && clockMs <= nowMs
      modifies this
      ensures Valid() && (Model(), r) == Step(old(Model()), Tx(caller, nowMs, Call.SetValidUntil(untilMs)))
    {
      clockMs := nowMs;
      if !IsOwner(caller) { return Reverted(NotOwner); }
      if untilMs <= nowMs {
        return Reverted(InvalidValidUntil);
      }
      validUntilMs := untilMs;
      return Accepted;
    }

    method ExpireNow(caller: Address, nowMs: nat) returns (r: Outcome)
      requires Valid() && clockMs <= nowMs
      modifies this
      ensures Valid() && (Model(), r) == Step(old(Model()), Tx(caller, nowMs, Call.ExpireNow))
    {
      clockMs := nowMs;
      if !IsOwner(caller) { return Reverted(NotOwner); }
      validUntilMs := nowMs;
      return Accepted;
    }

    /**
     * The checks that pay makes before it calls the token, in the contract's order: the first
     * that fails, or the values to be stored. They read the counters, the specification the history.
     */
    method CheckPay(caller: Address, nowMs: nat, receiver: Address, amount: U256, payloadHash: string)
      returns (refusal: Option<Revert>, newDay: nat, newDaySpend: U256, paidTotalAfter: U256)
      requires Valid() && clockMs <= nowMs
      ensures PayRefusal(Model(), caller, nowMs, receiver, amount, payloadHash)
           == if refusal.Some? then refusal else if receiver == address then Some(TokenCannotTargetSelf) else None
      ensures refusal == None ==>
        && newDay == Day(nowMs) && newDaySpend == SpentOn(history, newDay) + amount
        && paidTotalAfter == TotalPaid(history) + amount && amount <= token.BalanceOf(address)
    {
      hide SpentOn, TotalPaid, Total;
      newDay, newDaySpend, paidTotalAfter := nowMs / 86_400_000, 0, 0;
      if !Flag(agents, caller) { return Some(AgentNotAllowed), newDay, 0, 0; }
      if !Flag(receivers, receiver) { return Some(ReceiverNotAllowed), newDay, 0, 0; }
      if nowMs >= validUntilMs { return Some(VaultExpired), newDay, 0, 0; }
      if amount > maxSingle { return Some(AmountAboveMax), newDay, 0, 0; }

      if newDay != dayIndex {
        NothingSpentOn(history, newDay);
      }
      var currentDaySpend := if newDay != dayIndex then 0 else daySpend;
      if currentDaySpend + amount >= U256_LIMIT { return Some(ArithmeticOverflow), newDay, 0, 0; }
      newDaySpend := currentDaySpend + amount;
      if newDaySpend > dailyLimit { return Some(DayLimitExceeded), newDay, 0, 0; }
      if Flag(usedPayloadHashes, payloadHash) { return Some(NonceAlreadyUsed), newDay, 0, 0; }
      if paidTotal + amount >= U256_LIMIT { return Some(ArithmeticOverflow), newDay, 0, 0; }
      paidTotalAfter := paidTotal + amount;
      if token.BalanceOf(address) < amount { return Some(InsufficientVaultBalance), newDay, 0, 0; }
      return None, newDay, newDaySpend, paidTotalAfter;
    }

    /** Nothing is stored until the last possible revert, the token's own, is past. */
    method Pay(caller: Address, nowMs: nat, receiver: Address, amount: U256, payloadHash: string) returns (r: Outcome)
      requires Valid() && clockMs <= nowMs
      modifies this, token
      ensures Valid() && (Model(), r) == Step(old(Model()), Tx(caller, nowMs, Call.Pay(receiver, amount, payloadHash)))
    {
      hide SpentOn, TotalPaid, Total;
      clockMs := nowMs;
      var refusal, newDay, newDaySpend, paidTotalAfter := CheckPay(caller, nowMs, receiver, amount, payloadHash);
      hide PayRefusal;
      if refusal.Some? { return Reverted(refusal.value); }
      var sent := token.TransferFrom(address, receiver, amount);
      if sent.Reverted? { return sent; }

      Record(Payment(caller, receiver, amount, payloadHash, nowMs), newDay, newDaySpend, paidTotalAfter);
      return Accepted;
    }

    /** The four storage writes and the Paid event. */
    method Record(payment: Payment, newDay: nat, newDaySpend: U256, paidTotalAfter: U256)
      requires Valid() && newDay == Day(payment.atMs) && dayIndex <= newDay <= Day(clockMs)
      requires newDaySpend == SpentOn(history, newDay) + payment.amount
      requires paidTotalAfter == TotalPaid(history) + payment.amount
      modifies this
      ensures Valid() && Model() == old(Model()).(history := old(history) + [payment])
    {
      hide SpentOn, TotalPaid, Total;
      HistoryGrows(history, payment);
      HashesGrow(history, payment);
      dayIndex, daySpend, paidTotal := newDay, newDaySpend, paidTotalAfter;
      usedPayloadHashes := usedPayloadHashes[payment.hash := true];
      history := history + [payment];
    }

    /** The token's transfer entry point, called by an account that funds the vault. */
    method Fund(caller: Address, nowMs: nat, amount: U256) returns (r: Outcome)
      requires Valid() && clockMs <= nowMs
      modifies this, token
      ensures Valid() && (Model(), r) == Step(old(Model()), Tx(caller, nowMs, TokenTransfer(address, amount)))
    {
      clockMs := nowMs;
      r := token.TransferFrom(caller, address, amount);
      if r.Accepted? {
        deposited := deposited + amount;
      }
    }

    /** get_day_state: what the three counters mean. */
    method GetDayState() returns (day: nat, spend: nat, total: nat)
      requires Valid()
      ensures day <= Day(clockMs) && forall i :: 0 <= i < |history| ==> Day(history[i].atMs) <= day
      ensures if history == [] then day == 0 else exists i :: 0 <= i < |history| && Day(history[i].atMs) == day
      ensures spend == SpentOn(history, day)
      ensures total == TotalPaid(history)
    {
      if history != [] {
        assert Day(history[|history| - 1].atMs) == dayIndex;
      }
      return dayIndex, daySpend, paidTotal;
    }

    method IsPayloadUsed(payloadHash: string) returns (used: bool)
      requires Valid()
      ensures used <==> exists i :: 0 <= i < |history| && history[i].hash == payloadHash
    {
      return Flag(usedPayloadHashes, payloadHash);
    }
  }

  lemma HashesGrow(h: seq<Payment>, p: Payment)
    ensures forall hash :: HashUsed(h + [p], hash) <==> HashUsed(h, hash) || hash == p.hash
  {
    forall hash ensures HashUsed(h + [p], hash) <==> HashUsed(h, hash) || hash == p.hash {
      if HashUsed(h, hash) {
        var i :| 0 <= i < |h| && h[i].hash == hash;
        assert (h + [p])[i].hash == hash;
      }
      assert (h + [p])[|h|] == p;
    }
  }
}
