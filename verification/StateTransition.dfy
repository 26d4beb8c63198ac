/**
 Gas and balance accounting of transactions (core/state_transition.go, core/gaspool.go, core/evm.go)
 and of the transaction loop of a block (core/state_processor.go).
 */
module StateTransitions {
  import opened Common
  import opened Sums

  type Address = nat
  newtype byte = x: int | 0 <= x < 0x100

  const MAX_UINT64: nat := TWO_TO_THE_64 - 1
  const TXN_FEE_CUTOFF_BLOCK: nat := 1607600

  datatype Message = Message(from: Address, to: Option<Address>, nonce: nat, checkNonce: bool, gas: nat, gasPrice: nat, value: nat,
                             data: seq<byte>, accessList: Option<seq<nat>>)

  /** Fork flags, number and fee recipient of the block. */
  datatype Context = Context(homestead: bool, istanbul: bool, london: bool, number: nat, coinbase: Address)

  /** World state as far as it matters here: balances, nonces and the refund counter of the current transaction. */
  datatype State = State(balances: map<Address, int>, nonces: map<Address, nat>, refund: nat) {
    ghost predicate Ok() {
      forall a :: a in balances ==> balances[a] >= 0
    }

    function Balance(a: Address): int {
      if a in balances then balances[a] else 0
    }

    function Nonce(a: Address): nat {
      if a in nonces then nonces[a] else 0
    }

    function AddBalance(a: Address, amount: int): State {
      this.(balances := balances[a := Balance(a) + amount])
    }

    function SetNonce(a: Address, n: nat): State {
      this.(nonces := nonces[a := n])
    }

    /** All coins there are. */
    ghost function Total(): int {
      Sum(balances)
    }
  }

  lemma AddBalanceTotal(s: State, a: Address, amount: int)
    ensures s.AddBalance(a, amount).Total() == s.Total() + amount
    ensures s.Ok() && s.Balance(a) + amount >= 0 ==> s.AddBalance(a, amount).Ok()
  {
    SumUpdate(s.balances, a, s.Balance(a) + amount);
  }

  predicate CanTransfer(s: State, a: Address, amount: nat) {
    s.Balance(a) >= amount
  }

  function Transfer(s: State, sender: Address, recipient: Address, amount: nat): State {
    s.AddBalance(sender, 0 - amount).AddBalance(recipient, amount)
  }

  /** A permitted transfer creates and destroys nothing, to oneself included, and overdraws nobody. */
  lemma TransferConserves(s: State, sender: Address, recipient: Address, amount: nat)
    requires s.Ok()
    ensures Transfer(s, sender, recipient, amount).Total() == s.Total()
    ensures CanTransfer(s, sender, amount) ==> Transfer(s, sender, recipient, amount).Ok()
    ensures sender == recipient ==> Transfer(s, sender, recipient, amount).Balance(sender) == s.Balance(sender)
    ensures Transfer(s, sender, recipient, amount).Ok() && sender != recipient ==> CanTransfer(s, sender, amount)
  {
    AddBalanceTotal(s, sender, 0 - amount);
    AddBalanceTotal(s.AddBalance(sender, 0 - amount), recipient, amount);
    var t := Transfer(s, sender, recipient, amount);
    if t.Ok() && sender != recipient {
      assert t.balances[sender] == s.Balance(sender) - amount;
    }
  }

  /** The outcome of running a message in the virtual machine. */
  datatype Outcome = Outcome(state: State, leftover: nat, failed: bool)

  /** The virtual machine: never returns more gas than it was given and overdraws nobody. */
  type Machine = f: (State, Message, nat) -> Outcome
    | forall s: State, m: Message, g: nat :: s.Ok() ==> f(s, m, g).state.Ok() && f(s, m, g).leftover <= g
    witness (s: State, m: Message, g: nat) => Outcome(s, g, false)

  /** What the virtual machine itself does to the sum of all balances. */
  ghost function Delta(vm: Machine, s: State, m: Message, g: nat): int {
    vm(s, m, g).state.Total() - s.Total()
  }

  function NonZero(data: seq<byte>): (n: nat)
    ensures n <= |data|
  {
    if data == [] then 0 else NonZero(data[..|data| - 1]) + if data[|data| - 1] != 0 then 1 else 0
  }

  function KeyCount(list: seq<nat>): nat {
    if list == [] then 0 else KeyCount(list[..|list| - 1]) + list[|list| - 1]
  }

  /** The price of a transaction before it runs, without its access list. */
  function DataGas(data: seq<byte>, creates: bool, homestead: bool, istanbul: bool): nat {
    (if creates && homestead then 53000 else 21000) + NonZero(data) * (if istanbul then 16 else 68) + (|data| - NonZero(data)) * 4
  }

  function AccessGas(list: Option<seq<nat>>): nat {
    if list.None? then 0 else |list.value| * 2400 + KeyCount(list.value) * 1900
  }

  /** The overflow test by division is exact. */
  lemma FitsByDivision(gas: nat, price: nat, n: nat)
    requires gas <= MAX_UINT64 && (price == 4 || price == 16 || price == 68)
    ensures (MAX_UINT64 - gas) / price < n <==> gas + n * price > MAX_UINT64
  {
    if price == 4 {
      assert (MAX_UINT64 - gas) / 4 < n <==> gas + n * 4 > MAX_UINT64;
    } else if price == 16 {
      assert (MAX_UINT64 - gas) / 16 < n <==> gas + n * 16 > MAX_UINT64;
    } else {
      assert (MAX_UINT64 - gas) / 68 < n <==> gas + n * 68 > MAX_UINT64;
    }
  }

  method CountNonZero(data: seq<byte>) returns (nz: nat)
    ensures nz == NonZero(data)
  {
    nz := 0;
    for i := 0 to |data|
      invariant nz == NonZero(data[..i])
    {
      assert data[..i + 1][..i] == data[..i];
      if data[i] != 0 {
        nz := nz + 1;
      }
    }
    assert data[..|data|] == data;
  }

  method CountKeys(list: seq<nat>) returns (keys: nat)
    ensures keys == KeyCount(list)
  {
    keys := 0;
    for i := 0 to |list|
      invariant keys == KeyCount(list[..i])
    {
      assert list[..i + 1][..i] == list[..i];
      keys := keys + list[i];
    }
    assert list[..|list|] == list;
  }

  /**
   The intrinsic gas in 64-bit arithmetic. It fails exactly when the part for the data does not
   fit; the access list is added without a check and wraps around.
   */
  method IntrinsicGas(data: seq<byte>, list: Option<seq<nat>>, creates: bool, homestead: bool, istanbul: bool) returns (r: Option<nat>)
    ensures r.None? <==> DataGas(data, creates, homestead, istanbul) > MAX_UINT64
    ensures r.Some? ==> r.value == U64(DataGas(data, creates, homestead, istanbul) + AccessGas(list))
  {
    hide NonZero, KeyCount, U64;
    var gas: nat := if creates && homestead then 53000 else 21000;
    if |data| > 0 {
      var nz := CountNonZero(data);
      var nonZeroGas := if istanbul then 16 else 68;
      FitsByDivision(gas, nonZeroGas, nz);
      if (MAX_UINT64 - gas) / nonZeroGas < nz {
        return None;
      }
      gas := gas + nz * nonZeroGas;
      var z := |data| - nz;
      FitsByDivision(gas, 4, z);
      if (MAX_UINT64 - gas) / 4 < z {
        return None;
      }
      gas := gas + z * 4;
    }
    NoWrap(gas);
    if list.Some? {
      var keys := CountKeys(list.value);
      WrapsOnce(gas + |list.value| * 2400, keys * 1900);
      gas := U64(gas + |list.value| * 2400);
      gas := U64(gas + keys * 1900);
    }
    return Some(gas);
  }

  lemma NoWrap(x: nat)
    ensures x <= MAX_UINT64 ==> U64(x) == x
  {
  }

  lemma WrapsOnce(x: nat, y: nat)
    ensures U64(U64(x) + y) == U64(x + y)
  {
  }

  class GasPool {
    var gas: nat

    ghost predicate Valid()
      reads this
    {
      gas <= MAX_UINT64
    }

    constructor (limit: nat)
      requires limit <= MAX_UINT64
      ensures Valid() && gas == limit
    {
      gas := limit;
    }

    /** Panics, changing nothing, when the pool would exceed 64 bits. */
    method AddGas(amount: nat) returns (panics: bool)
      requires Valid()
      modifies this
      ensures Valid() && (panics <==> old(gas) + amount > MAX_UINT64)
      ensures gas == if panics then old(gas) else old(gas) + amount
    {
      panics := amount > MAX_UINT64 || gas > MAX_UINT64 - amount;
      if !panics {
        gas := gas + amount;
      }
    }

    method SubGas(amount: nat) returns (ok: bool)
      requires Valid()
      modifies this
      ensures Valid() && (ok <==> amount <= old(gas)) && gas == if ok then old(gas) - amount else old(gas)
    {
      ok := gas >= amount;
      if ok {
        gas := gas - amount;
      }
    }
  }

  datatype Error = NoError | NonceTooHigh | NonceTooLow | InsufficientFunds | GasLimitReached | GasUintOverflow | IntrinsicGasTooLow
    | InsufficientFundsForTransfer

  function Bought(s: State, pool: nat, m: Message): Error {
    if m.checkNonce && s.Nonce(m.from) < m.nonce then NonceTooHigh
    else if m.checkNonce && s.Nonce(m.from) > m.nonce then NonceTooLow
    else if s.Balance(m.from) < Fee(m.gas, m.gasPrice) then InsufficientFunds
    else if pool < m.gas then GasLimitReached
    else NoError
  }

  /** The first rule a message breaks, if any. */
  function Check(s: State, pool: nat, m: Message, c: Context): Error {
    var intrinsic := DataGas(m.data, m.to.None?, c.homestead, c.istanbul);
    if !Bought(s, pool, m).NoError? then Bought(s, pool, m)
    else if intrinsic > MAX_UINT64 then GasUintOverflow
    else if m.gas < U64(intrinsic + AccessGas(m.accessList)) then IntrinsicGasTooLow
    else if m.value > 0 && s.Balance(m.from) - Fee(m.gas, m.gasPrice) < m.value then InsufficientFundsForTransfer
    else NoError
  }

  /** The state and gas with which the virtual machine starts on a valid message. */
  function Entry(s: State, m: Message): State {
    var paid := s.AddBalance(m.from, 0 - Fee(m.gas, m.gasPrice));
    if m.to.None? then paid else paid.SetNonce(m.from, paid.Nonce(m.from) + 1)
  }

  function EntryGas(m: Message, c: Context): nat {
    var intrinsic := U64(DataGas(m.data, m.to.None?, c.homestead, c.istanbul) + AccessGas(m.accessList));
    if intrinsic <= m.gas then m.gas - intrinsic else 0
  }

  /** Running a valid message in the virtual machine. */
  function Ran(vm: Machine, s: State, m: Message, c: Context): Outcome {
    vm(Entry(s, m), m, EntryGas(m, c))
  }

  /** Gas gone before the refund. */
  function Consumed(m: Message, leftover: nat): nat {
    if leftover <= m.gas then m.gas - leftover else 0
  }

  /** Gas paid for: what is gone less the capped refund. */
  function GasUsed(m: Message, c: Context, leftover: nat, refund: nat): nat {
    var gone := Consumed(m, leftover);
    gone - Min(RefundCap(c, gone), refund)
  }

  /** Unused gas is paid back, and below the cutoff block the fee goes to the coinbase. */
  function Settled(s: State, m: Message, c: Context, used: nat): State {
    var back := s.AddBalance(m.from, if used <= m.gas then Fee(m.gas - used, m.gasPrice) else 0);
    if c.number < TXN_FEE_CUTOFF_BLOCK then back.AddBalance(c.coinbase, Fee(used, m.gasPrice)) else back
  }

  function UsedBy(vm: Machine, s: State, m: Message, c: Context): nat {
    var out := Ran(vm, s, m, c);
    GasUsed(m, c, out.leftover, out.state.refund)
  }

  /** The state after a valid message. */
  function Applied(vm: Machine, s: State, m: Message, c: Context): State {
    Settled(Ran(vm, s, m, c).state, m, c, UsedBy(vm, s, m, c))
  }

  function Fee(gas: nat, price: nat): nat {
    gas * price
  }

  function Min(a: nat, b: nat): nat {
    if a <= b then a else b
  }

  /** The largest refund: half of the gas used, a fifth of it from London on. */
  function RefundCap(c: Context, gasUsed: nat): nat {
    if c.london then gasUsed / 5 else gasUsed / 2
  }

  /** One message on its way through: gas bought, spent, refunded. */
  class StateTransition {
    const gp: GasPool
    const msg: Message
    const context: Context
    const vm: Machine
    var gas: nat
    var initialGas: nat
    var state: State

    constructor (gp: GasPool, msg: Message, context: Context, vm: Machine, state: State)
      ensures this.gp == gp && this.msg == msg && this.context == context && this.vm == vm && this.state == state && gas == initialGas == 0
    {
      this.gp, this.msg, this.context, this.vm, this.state := gp, msg, context, vm, state;
      gas, initialGas := 0, 0;
    }

    method BuyGas() returns (err: Error)
      requires gp.Valid() && gas == 0
      modifies this`gas, this`initialGas, this`state, gp
      ensures gp.Valid()
      ensures err == if old(state).Balance(msg.from) < Fee(msg.gas, msg.gasPrice) then InsufficientFunds
                     else if old(gp.gas) < msg.gas then GasLimitReached else NoError
      ensures err.NoError? ==> gas == initialGas == msg.gas && gp.gas == old(gp.gas) - msg.gas
                               && state == old(state).AddBalance(msg.from, 0 - Fee(msg.gas, msg.gasPrice))
      ensures !err.NoError? ==> state == old(state) && gp.gas == old(gp.gas)
    {
      var cost: int := Fee(msg.gas, msg.gasPrice);
      if state.Balance(msg.from) < cost {
        return InsufficientFunds;
      }
      var ok := gp.SubGas(msg.gas);
      if !ok {
        return GasLimitReached;
      }
      gas := gas + msg.gas;
      initialGas := msg.gas;
      state := state.AddBalance(msg.from, 0 - cost);
      return NoError;
    }

    /** Gives back unused gas and the capped refund, to the sender and to the pool; the pool never overflows. */
    method RefundGas()
      requires gas <= initialGas && gp.Valid() && gp.gas + initialGas <= MAX_UINT64
      modifies this`gas, this`state, gp
      ensures gp.Valid() && gas == old(gas) + Min(RefundCap(context, initialGas - old(gas)), old(state).refund)
      ensures gas <= initialGas && gp.gas == old(gp.gas) + gas
      ensures state == old(state).AddBalance(msg.from, Fee(gas, msg.gasPrice))
    {
      var refund := RefundCap(context, initialGas - gas);
      if refund > state.refund {
        refund := state.refund;
      }
      gas := gas + refund;
      state := state.AddBalance(msg.from, Fee(gas, msg.gasPrice));
      var panics := gp.AddGas(gas);
    }

    /** The nonce must be right and the gas is bought. */
    method PreCheck() returns (err: Error)
      requires gp.Valid() && gas == 0
      modifies this`gas, this`initialGas, this`state, gp
      ensures gp.Valid() && err == Bought(old(state), old(gp.gas), msg)
      ensures err.NoError? ==> gas == initialGas == msg.gas && gp.gas == old(gp.gas) - msg.gas
                               && state == old(state).AddBalance(msg.from, 0 - Fee(msg.gas, msg.gasPrice))
      ensures !err.NoError? ==> state == old(state) && gp.gas == old(gp.gas)
    {
      hide Fee;
      if msg.checkNonce {
        var nonce := state.Nonce(msg.from);
        if nonce < msg.nonce {
          return NonceTooHigh;
        } else if nonce > msg.nonce {
          return NonceTooLow;
        }
      }
      err := BuyGas();
    }

    /** After the run: refund, and the fee to the coinbase below the cutoff block. */
    method Settle() returns (used: nat)
      requires gas <= initialGas == msg.gas && gp.Valid() && gp.gas + initialGas <= MAX_UINT64
      modifies this`gas, this`state, gp
      ensures gp.Valid() && used == GasUsed(msg, context, old(gas), old(state).refund) && used <= msg.gas
      ensures gp.gas == old(gp.gas) + msg.gas - used && state == Settled(old(state), msg, context, used)
    {
      hide Fee, RefundCap;
      RefundGas();
      used := initialGas - gas;
      if context.number < TXN_FEE_CUTOFF_BLOCK {
        state := state.AddBalance(context.coinbase, Fee(used, msg.gasPrice));
      }
    }

    /**
     Applies the message. It is refused exactly for the first rule it breaks; otherwise the pool
     loses exactly the gas used.
     */
    method TransitionDb() returns (err: Error, used: nat, failed: bool)
      requires gp.Valid() && gas == 0 && state.Ok()
      modifies this, gp
      ensures gp.Valid() && err == Check(old(state), old(gp.gas), msg, context)
      ensures err.NoError? ==>
                && state == Applied(vm, old(state), msg, context) && used == UsedBy(vm, old(state), msg, context)
                && failed == Ran(vm, old(state), msg, context).failed
                && used <= msg.gas && gp.gas == old(gp.gas) - used
    {
      hide U64, DataGas, AccessGas, Fee, Min, RefundCap, State.Ok, GasUsed, Settled;
      used, failed := 0, false;
      err := PreCheck();
      if !err.NoError? {
        return;
      }
      var intrinsic := IntrinsicGas(msg.data, msg.accessList, msg.to.None?, context.homestead, context.istanbul);
      if intrinsic.None? {
        return GasUintOverflow, used, failed;
      }
      if gas < intrinsic.value {
        return IntrinsicGasTooLow, used, failed;
      }
      gas := gas - intrinsic.value;
      if msg.value > 0 && !CanTransfer(state, msg.from, msg.value) {
        return InsufficientFundsForTransfer, used, failed;
      }
      if msg.to.Some? {
        state := state.SetNonce(msg.from, state.Nonce(msg.from) + 1);
      }
      EntryTotal(old(state), msg);
      var out := vm(state, msg, gas);
      state, gas, failed := out.state, out.leftover, out.failed;
      used := Settle();
    }
  }

  /**
   A message that is not refused overdraws nobody, is refunded at most the cap, and changes the sum
   of all balances by what the virtual machine does, minus the fee from the cutoff block on.
   */
  lemma MessageConserves(vm: Machine, s: State, pool: nat, m: Message, c: Context)
    requires s.Ok() && Check(s, pool, m, c).NoError?
    ensures var out, used := Ran(vm, s, m, c), UsedBy(vm, s, m, c);
            && out.leftover <= m.gas && used <= m.gas - out.leftover <= used + RefundCap(c, m.gas - out.leftover)
            && used <= pool
            && Applied(vm, s, m, c).Ok()
            && Applied(vm, s, m, c).Total() == s.Total() + Delta(vm, Entry(s, m), m, EntryGas(m, c))
                                               - (if c.number < TXN_FEE_CUTOFF_BLOCK then 0 else Fee(used, m.gasPrice))
  {
    hide U64, DataGas, AccessGas, Fee, RefundCap, State.Ok, State.Total;
    EntryTotal(s, m);
    var out, used := Ran(vm, s, m, c), UsedBy(vm, s, m, c);
    CapBound(c, Consumed(m, out.leftover));
    FeesBalance(out.state, m, m.gas - used, used, c);
  }

  lemma CapBound(c: Context, gone: nat)
    ensures RefundCap(c, gone) <= gone
  {
  }

  lemma EntryTotal(s: State, m: Message)
    requires s.Ok() && s.Balance(m.from) >= Fee(m.gas, m.gasPrice)
    ensures Entry(s, m).Ok() && Entry(s, m).Total() == s.Total() - Fee(m.gas, m.gasPrice)
  {
    AddBalanceTotal(s, m.from, 0 - Fee(m.gas, m.gasPrice));
  }

  /** What was paid for all gas comes back as refund and fee, or is missing as fee. */
  lemma FeesBalance(s: State, m: Message, gas: nat, used: nat, c: Context)
    requires s.Ok() && gas + used == m.gas
    ensures var back := s.AddBalance(m.from, Fee(gas, m.gasPrice));
            && back.Ok() && back.Total() == s.Total() + Fee(m.gas, m.gasPrice) - Fee(used, m.gasPrice)
            && back.AddBalance(c.coinbase, Fee(used, m.gasPrice)).Ok()
            && back.AddBalance(c.coinbase, Fee(used, m.gasPrice)).Total() == s.Total() + Fee(m.gas, m.gasPrice)
  {
    assert Fee(m.gas, m.gasPrice) == Fee(gas, m.gasPrice) + Fee(used, m.gasPrice);
    var back := s.AddBalance(m.from, Fee(gas, m.gasPrice));
    AddBalanceTotal(s, m.from, Fee(gas, m.gasPrice));
    assert Fee(used, m.gasPrice) >= 0 && Fee(gas, m.gasPrice) >= 0;
    AddBalanceTotal(back, c.coinbase, Fee(used, m.gasPrice));
  }

  /** A transaction of a block: its message, when its signature is good, and whether it is exempt from gas fees. */
  datatype Tx = Tx(msg: Message, signed: bool, exempt: bool) {
    /** Exempt transactions run at price zero. */
    function Effective(): Message {
      if exempt then msg.(gasPrice := 0) else msg
    }
  }

  /** Exempt transactions also run on a virtual machine with gas failures switched off. */
  datatype Machines = Machines(ordinary: Machine, lenient: Machine) {
    function For(tx: Tx): Machine {
      if tx.exempt then lenient else ordinary
    }
  }

  datatype Receipt = Receipt(gasUsed: nat, cumulative: nat, failed: bool)

  /** The state before transaction `k` when all earlier ones were applied. */
  ghost function StateAt(vms: Machines, txs: seq<Tx>, c: Context, s: State, k: nat): State
    requires k <= |txs|
  {
    if k == 0 then s else Applied(vms.For(txs[k - 1]), StateAt(vms, txs, c, s, k - 1), txs[k - 1].Effective(), c)
  }

  ghost function UsedAt(vms: Machines, txs: seq<Tx>, c: Context, s: State, k: nat): nat
    requires k < |txs|
  {
    UsedBy(vms.For(txs[k]), StateAt(vms, txs, c, s, k), txs[k].Effective(), c)
  }

  /** The gas used by the first `k` transactions. */
  ghost function PrefixGas(vms: Machines, txs: seq<Tx>, c: Context, s: State, k: nat): nat
    requires k <= |txs|
  {
    if k == 0 then 0 else PrefixGas(vms, txs, c, s, k - 1) + UsedAt(vms, txs, c, s, k - 1)
  }

  /** Transaction `k` is signed and breaks no rule in its place. */
  ghost predicate Passes(vms: Machines, txs: seq<Tx>, limit: nat, c: Context, s: State, k: nat)
    requires k < |txs|
  {
    && txs[k].signed && PrefixGas(vms, txs, c, s, k) <= limit
    && Check(StateAt(vms, txs, c, s, k), limit - PrefixGas(vms, txs, c, s, k), txs[k].Effective(), c).NoError?
  }

  /** The changes made by the virtual machine itself. */
  ghost function Deltas(vms: Machines, txs: seq<Tx>, c: Context, s: State, k: nat): int
    requires k <= |txs|
  {
    if k == 0 then 0
    else
      var m, before := txs[k - 1].Effective(), StateAt(vms, txs, c, s, k - 1);
      Deltas(vms, txs, c, s, k - 1) + Delta(vms.For(txs[k - 1]), Entry(before, m), m, EntryGas(m, c))
  }

  /** The fees that leave circulation. */
  ghost function BurntFees(vms: Machines, txs: seq<Tx>, c: Context, s: State, k: nat): nat
    requires k <= |txs|
  {
    if k == 0 || c.number < TXN_FEE_CUTOFF_BLOCK then 0
    else BurntFees(vms, txs, c, s, k - 1) + Fee(UsedAt(vms, txs, c, s, k - 1), txs[k - 1].Effective().gasPrice)
  }

  /**
   Over any number of transactions that pass, gas used stays within the limit, nobody is overdrawn
   and the sum of all balances changes by what the virtual machine did, minus the burnt fees.
   */
  lemma {:induction false} BlockConserves(vms: Machines, txs: seq<Tx>, limit: nat, c: Context, s: State, k: nat)
    requires s.Ok() && k <= |txs| && forall i :: 0 <= i < k ==> Passes(vms, txs, limit, c, s, i)
    ensures StateAt(vms, txs, c, s, k).Ok() && PrefixGas(vms, txs, c, s, k) <= limit
    ensures StateAt(vms, txs, c, s, k).Total() == s.Total() + Deltas(vms, txs, c, s, k) - BurntFees(vms, txs, c, s, k)
  {
    hide State.Ok, State.Total, Delta, Entry, EntryGas, Applied, UsedBy, Check, Fee, Ran, Tx.Effective;
    if k > 0 {
      BlockConserves(vms, txs, limit, c, s, k - 1);
      assert Passes(vms, txs, limit, c, s, k - 1);
      MessageConserves(vms.For(txs[k - 1]), StateAt(vms, txs, c, s, k - 1), limit - PrefixGas(vms, txs, c, s, k - 1), txs[k - 1].Effective(), c);
    }
  }

  /** The receipts of the first `k` transactions: gas used and its prefix sums. */
  ghost predicate ReceiptsOf(vms: Machines, txs: seq<Tx>, c: Context, s: State, receipts: seq<Receipt>) {
    && |receipts| <= |txs|
    && (forall i :: 0 <= i < |receipts| ==>
          receipts[i] == Receipt(UsedAt(vms, txs, c, s, i), PrefixGas(vms, txs, c, s, i + 1),
                                 Ran(vms.For(txs[i]), StateAt(vms, txs, c, s, i), txs[i].Effective(), c).failed))
  }

  /**
   Runs the transactions of a block, if and only if every one of them passes in its place. The
   receipts carry the prefix sums of the gas used, and used gas and pool make up the gas limit.
   */
  method Process(txs: seq<Tx>, limit: nat, c: Context, vms: Machines, s: State)
    returns (ok: bool, receipts: seq<Receipt>, used: nat, left: nat, after: State)
    requires limit <= MAX_UINT64 && s.Ok()
    ensures ok <==> forall i :: 0 <= i < |txs| ==> Passes(vms, txs, limit, c, s, i)
    ensures ok ==> |receipts| == |txs| && ReceiptsOf(vms, txs, c, s, receipts)
    ensures ok ==> used == PrefixGas(vms, txs, c, s, |txs|) && used + left == limit && after == StateAt(vms, txs, c, s, |txs|)
    ensures !ok ==> receipts == [] && used == 0
  {
    hide Check, Applied, UsedBy, Ran, State.Ok, Tx.Effective, Machines.For, Sofar, Passes, ReceiptsOf, PrefixGas, StateAt;
    var gp := new GasPool(0);
    var panics := gp.AddGas(limit);
    receipts, used, after, left := [], 0, s, 0;
    NothingYet(vms, txs, limit, c, s);
    for i := 0 to |txs|
      invariant gp.Valid() && fresh(gp) && |receipts| == i && gp.gas + used == limit
      invariant Sofar(vms, txs, limit, c, s, after, used, receipts)
    {
      PassesHere(vms, txs, limit, c, s, after, used, receipts);
      if !txs[i].signed {
        return false, [], 0, 0, after;
      }
      var st := new StateTransition(gp, txs[i].Effective(), c, vms.For(txs[i]), after);
      var err, gasUsed, failed := st.TransitionDb();
      if !err.NoError? {
        return false, [], 0, 0, after;
      }
      OneMore(vms, txs, limit, c, s, after, used, receipts);
      used := used + gasUsed;
      receipts := receipts + [Receipt(gasUsed, used, failed)];
      after := st.state;
    }
    AllPass(vms, txs, limit, c, s, after, used, receipts);
    ok, left := true, gp.gas;
  }

  /** The transaction loop after `|receipts|` rounds. */
  ghost predicate Sofar(vms: Machines, txs: seq<Tx>, limit: nat, c: Context, s: State, now: State, used: nat, receipts: seq<Receipt>) {
    var k := |receipts|;
    && s.Ok() && ReceiptsOf(vms, txs, c, s, receipts) && (forall j :: 0 <= j < k ==> Passes(vms, txs, limit, c, s, j))
    && now == StateAt(vms, txs, c, s, k) && used == PrefixGas(vms, txs, c, s, k)
  }

  lemma NothingYet(vms: Machines, txs: seq<Tx>, limit: nat, c: Context, s: State)
    requires s.Ok()
    ensures Sofar(vms, txs, limit, c, s, s, 0, [])
  {
  }

  lemma PassesHere(vms: Machines, txs: seq<Tx>, limit: nat, c: Context, s: State, now: State, used: nat, receipts: seq<Receipt>)
    requires Sofar(vms, txs, limit, c, s, now, used, receipts) && |receipts| < |txs|
    ensures now.Ok() && used <= limit
    ensures Passes(vms, txs, limit, c, s, |receipts|) <==>
            txs[|receipts|].signed && Check(now, limit - used, txs[|receipts|].Effective(), c).NoError?
  {
    hide Check, State.Ok, Tx.Effective, StateAt, PrefixGas, ReceiptsOf;
    BlockConserves(vms, txs, limit, c, s, |receipts|);
  }

  lemma OneMore(vms: Machines, txs: seq<Tx>, limit: nat, c: Context, s: State, now: State, used: nat, receipts: seq<Receipt>)
    requires Sofar(vms, txs, limit, c, s, now, used, receipts) && |receipts| < |txs| && Passes(vms, txs, limit, c, s, |receipts|)
    ensures var m, vm := txs[|receipts|].Effective(), vms.For(txs[|receipts|]);
            var gas := UsedBy(vm, now, m, c);
            Sofar(vms, txs, limit, c, s, Applied(vm, now, m, c), used + gas, receipts + [Receipt(gas, used + gas, Ran(vm, now, m, c).failed)])
  {
    hide Check, State.Ok, Tx.Effective, Applied, UsedBy, Ran, Passes, StateAt, PrefixGas, UsedAt;
    NextAt(vms, txs, c, s, |receipts|);
  }

  lemma NextAt(vms: Machines, txs: seq<Tx>, c: Context, s: State, k: nat)
    requires k < |txs|
    ensures var now, m, vm := StateAt(vms, txs, c, s, k), txs[k].Effective(), vms.For(txs[k]);
            && StateAt(vms, txs, c, s, k + 1) == Applied(vm, now, m, c) && UsedAt(vms, txs, c, s, k) == UsedBy(vm, now, m, c)
            && PrefixGas(vms, txs, c, s, k + 1) == PrefixGas(vms, txs, c, s, k) + UsedBy(vm, now, m, c)
  {
    hide Applied, UsedBy, Tx.Effective;
  }

  lemma AllPass(vms: Machines, txs: seq<Tx>, limit: nat, c: Context, s: State, now: State, used: nat, receipts: seq<Receipt>)
    requires Sofar(vms, txs, limit, c, s, now, used, receipts) && |receipts| == |txs|
    ensures forall i :: 0 <= i < |txs| ==> Passes(vms, txs, limit, c, s, i)
    ensures ReceiptsOf(vms, txs, c, s, receipts) && now == StateAt(vms, txs, c, s, |txs|) && used == PrefixGas(vms, txs, c, s, |txs|)
  {
    hide Passes, ReceiptsOf, StateAt, PrefixGas;
  }
}
