# Escrow ledger and bridge contracts, modelled in Dafny

This project models three small ink! smart contracts and proves properties of them.

- **Escrow** (`escrow/lib.rs`) is a ledger of per-token allowances. It has three tables:
  - `allowances`: token hash to balance;
  - `deposits`: (agent, token) to balance;
  - `widthraws`: (agent, token) to balance.
  The constructor seeds one token. `deposit` raises that token's allowance and `widthraw` lowers it, guarded against underflow. Both overwrite the agent's record with the resulting *global* allowance, not with the amount moved.
- **Bridge** (`bridge/lib.rs`) is a storage-less contract.
  - `bridge_in` only emits an event.
  - `bridge_out` maps an `Action` (Deposit or Widthdaw) to a fixed 4-byte selector. It makes one synchronous call into `recipient` with the arguments (token, amount, agent). It emits `BridgeOut` only if that call returns.
- **Self-invoker** (`lib.rs`) is a storage-less gateway. Its four `bridge_out*` variants all call the callee's `bridge_in` (selector `0x44ff2312`), then emit `BridgeOut`. They differ only in two ways:
  - which address is replaced by the contract's own;
  - whether the callee must pass `is_contract`.

Every message is a pure function that returns an `Outcome` with three parts: the storage afterwards, the events it emitted, and a `Status`. The status is `Ok`, `Err` (the source's `Err(())`), or `Abort`. `Abort` is a trap, such as a failed `unwrap()`, a failed `assert!` or a checked overflow. On `Abort` the host rolls back everything, so the storage is unchanged and no event is emitted (`Host.Aborted`).

Host primitives become parameters:
- the contract's own account id;
- `is_contract`;
- the outcome of a cross-contract call.

The module `BridgeEscrow` composes the bridge with an escrow deployed at some address. In that module, the escrow's dispatcher decides which message, if any, a call reaches.

Files:
- `host.dfy` holds the shared vocabulary: identifiers, `Balance` as u128, selectors, call requests and outcomes.
- `escrow.dfy`, `bridge.dfy` and `self_invoker.dfy` hold one module per contract.
- `bridge_escrow.dfy` holds the composition.

Stated assumptions:
- An integer selector `selector = n` denotes the four big-endian bytes of the u32 `n` (`Host.IntegerSelector`). This is the reading `lib.rs` itself relies on: its `0x44ff2312` matches `[0x44, 0xff, 0x23, 0x12]`.
- `allowance + amount` beyond u128 traps (checked arithmetic).
- `AccountId` and `Hash` are opaque identifiers compared only for equality. An `AccountId` argument decodes as the `Hash` with the same value.

## Model

| member | source | states |
|---|---|---|
| Escrow.NewInit | escrow/lib.rs:54-63 | inserts exactly the given allowance, leaves the record tables alone, always returns Ok, emits exactly one Initiated |
| Escrow.New | escrow/lib.rs:47-52 | after construction, exactly the seeded token has an allowance (the initial value), no deposit or withdraw record exists, and the log is one Initiated |
| Escrow.GetAllowance | escrow/lib.rs:65-68 | a pure lookup: Some(v) exactly when the token has an allowance v |
| Escrow.GetDeposit | escrow/lib.rs:70-73 | a pure lookup of key (depositor, token), the reverse of the argument order (token, depositor) |
| Escrow.GetWidthraw | escrow/lib.rs:75-78 | a pure lookup of key (widthdrawer, token), the reverse of the argument order |
| Escrow.Deposit | escrow/lib.rs:80-96 | an unknown token or a u128 overflow traps with no effect. Otherwise the call returns Ok: the allowance becomes old + amount, the depositor's record becomes that new allowance (not the amount), and one Deposited carrying the amount is emitted. No other allowance, deposit record or withdraw record changes. Never Err |
| Escrow.Widthraw | escrow/lib.rs:98-118 | an unknown token traps with no effect. An amount above the allowance gives Err with no write and no event. Otherwise (amount equal to the allowance included) the call returns Ok: the allowance becomes old − amount, the withdrawer's record becomes that value, and one Widthdrew carrying the amount is emitted. No other key changes |
| Escrow.WidthrawAllLeavesZero | escrow/lib.rs:102-108 | withdrawing exactly the whole allowance succeeds and leaves 0 |
| Escrow.DepositThenWidthraw | escrow/lib.rs:80-118 | a successful deposit followed by a withdrawal of the same amount always succeeds and restores the allowance table |
| Escrow.AgentDoesNotMatter | escrow/lib.rs:81-117 | no caller identity is consulted: the agent never changes whether deposit or widthraw succeeds, nor the allowance it leaves |
| Escrow.NewAccounted | escrow/lib.rs:54-62 | the constructed ledger satisfies the ledger invariant: one Initiated, one token, allowance = what the log records |
| Escrow.DispatchPreservesAccounted | escrow/lib.rs:80-118 | every message, whatever its outcome, preserves the ledger invariant. In particular, no message adds a token or emits a second Initiated |
| Escrow.RunPreservesAccounted | escrow/lib.rs:80-118 | the ledger invariant holds after any sequence of messages, and the log keeps its first event |
| Escrow.AllowanceIsNetFlow | escrow/lib.rs:48-117 | after construction and any sequence of messages, the seeded token is the only one. Its allowance equals the initial value plus the successful deposit amounts minus the successful withdraw amounts in the log, and that sum stays within 0..u128 max |
| Escrow.Walkthrough | escrow/lib.rs:48-117 | seed 100, deposit 50 (allowance and deposit record 150), withdraw 200 (Err, still 150), withdraw 100 (50, withdraw record 50) |
| Host.SelectorRoundTrip | lib.rs:108 | reading a 4-byte selector as a big-endian u32 and writing it back gives the same bytes, so integer and byte selectors correspond one to one |
| Bridge.SelectorAction | bridge/lib.rs:112-131 | the inverse of the action table: a selector maps to an action exactly when the table sends that action to it, and to none when no action uses it |
| Bridge.ActionSelectorRoundTrip | bridge/lib.rs:112-131 | the action-to-selector table is a bijection onto two distinct selectors: decoding the selector of an action gives the action back, and only that selector decodes to it |
| Bridge.FireAndEmit | bridge/lib.rs:55-81 | the result is Ok exactly when the call to `recipient` returns, with the given selector and arguments (token, amount, agent) in that order. Ok emits exactly one BridgeOut{token, recipient, agent, amount}. A failed call traps with no event. Never Err |
| Bridge.BridgeIn | bridge/lib.rs:83-101 | always Ok; exactly one BridgeIn whose recipient is this contract, with token, origin chain and amount passed through; no storage |
| Bridge.BridgeOut | bridge/lib.rs:103-134 | routes Deposit to [240,0,0,0] and Widthdaw to [250,0,0,0], with no `is_contract` check. Ok exactly when that call into `recipient` returns, and then exactly one BridgeOut is emitted. Otherwise it traps with no event |
| Bridge.HardCodedSelectorsMissEscrow | bridge/lib.rs:112-131 | the hard-coded bytes spell 240·2²⁴ and 250·2²⁴, and equal neither of the escrow's selectors 240 and 250 |
| BridgeEscrow.Decode | escrow/lib.rs:80-99 | a call selects an escrow message exactly when its selector is 240 or 250 and its arguments are (token, amount, agent); 240 selects deposit, 250 selects widthraw, and the message carries those three arguments |
| BridgeEscrow.EscrowReceive | escrow/lib.rs:80-118 | an undecodable call traps the escrow with no effect; a decodable one runs exactly the selected message |
| BridgeEscrow.Commit | bridge/lib.rs:73 | if the bridge returns, the escrow's state is committed and the log is the escrow's events followed by the bridge's; otherwise the whole transaction rolls back |
| BridgeEscrow.Intended | bridge/lib.rs:112-131 | the escrow message an action is meant to trigger: deposit for Deposit, widthraw for Widthdaw, with the same token bytes, amount and agent |
| BridgeEscrow.BridgeOutAsWritten | bridge/lib.rs:103-134 | the as-written bridge_out against the escrow traps for every recipient, action and ledger, leaving the escrow and the log untouched |
| BridgeEscrow.AsWrittenNeverReachesEscrow | bridge/lib.rs:119-128 | on a deposit of a seeded token sent to the escrow, the as-written bridge_out traps while the same call through the escrow's own selectors commits |
| BridgeEscrow.BridgeOutToEscrow | bridge/lib.rs:55-81 | with the escrow's own selectors, the call is Ok exactly when `recipient` is the escrow and the intended message returns. Then the escrow state is that message's result and the log is the escrow's events followed by one BridgeOut. Otherwise nothing changes |
| BridgeEscrow.BridgedDeposit | escrow/lib.rs:80-96 | a bridged deposit of a seeded token raises its allowance by the amount and logs Deposited then BridgeOut |
| BridgeEscrow.BridgedOverdraft | escrow/lib.rs:98-104 | a bridged over-large withdrawal does nothing when the host treats Err as failure. Otherwise it logs a BridgeOut although the escrow moved nothing |
| BridgeEscrow.BridgeOutPreservesAccounted | escrow/lib.rs:80-118 | whatever a bridged call does, the escrow's ledger invariant holds over its own events |
| SelfInvoker.OutboundSelectorIsBridgeIn | lib.rs:85-113 | the hard-coded outbound bytes [0x44,0xff,0x23,0x12] are exactly `bridge_in`'s declared selector 0x44ff2312 |
| SelfInvoker.FireAndEmit | lib.rs:72-102 | the call goes to `to_contract` with selector [0x44,0xff,0x23,0x12] and arguments (from_contract, target_chain, transferable). A trapped call traps everything. A returned call yields the callee's events followed by one BridgeOut{from, to, transferable, target_chain} |
| SelfInvoker.BridgeIn | lib.rs:108-126 | always succeeds with exactly one BridgeIn whose to_contract is this contract, with from_contract, from_chain and transferable passed through |
| SelfInvoker.BridgeOut | lib.rs:131-151 | traps with no call and no event unless `to_contract` is a contract. Otherwise Ok exactly when the call returns, and then the log is the callee's events, then BridgeOut |
| SelfInvoker.BridgeOutFromSelf | lib.rs:155-175 | as bridge_out, with this contract as from_contract; the `is_contract` check is kept |
| SelfInvoker.BridgeOutCherryToSelf | lib.rs:179-194 | this contract is to_contract. No `is_contract` check. Ok exactly when the call returns |
| SelfInvoker.BridgeOutCherryFromToSelf | lib.rs:198-209 | this contract is both ends. No `is_contract` check. Ok exactly when the self-call returns |
| SelfInvoker.VariantsAgree | lib.rs:131-209 | the four variants are one helper with addresses substituted. from_self equals bridge_out with self as from. from_to_self equals to_self with self as from. to_self equals bridge_out whenever self passes `is_contract` |
| SelfInvoker.Receive | lib.rs:108-126 | an instance answers bridge_in's selector 0x44ff2312 with (account, text, text) arguments by running bridge_in with itself as `self`; any other such call traps |
| SelfInvoker.CallIntoInstance | lib.rs:78-125 | when the callee is an instance of this contract, the log is BridgeIn{from, to, transferable, from_chain = target_chain}, then BridgeOut{from, to, transferable, target_chain} |
| SelfInvoker.SelfCallRoundTrip | lib.rs:198-209 | with a self-call the host admits, bridge_out_cherry_from_to_self logs BridgeIn, then BridgeOut, with this contract at both ends |
| SelfInvoker.SelfCallRefused | lib.rs:93-94 | if the host refuses the self-call, `unwrap()` traps and nothing is emitted |

## Left out

- ink! macro machinery, SCALE encoding and decoding, and event topics are not modelled. Call arguments are typed values, and a call decodes exactly when the argument shape matches.
- The `payable` constructors `new()` of the two bridge contracts are not modelled. They create empty storage and have no logic.
- Host primitives are parameters rather than code:
  - `account_id` is the `self` parameter;
  - `is_contract` is `Env.isContract`;
  - the call outcome is `invoke`.
  Gas (`gas_limit(0)` in `lib.rs`) and the host's re-entrancy and call-depth rules are folded into that call outcome. Whether a contract may call itself is not decided here.
- Escrow.Deposit: a u128 overflow of `allowance + amount` is modelled as a trap. That holds only if overflow checks are on. Built without them, the sum would wrap instead, and the build profile is not part of this model.
- BridgeEscrow.Decode: besides 240 and 250, the escrow also answers its three getters, whose selectors are derived from name hashes. Those selectors are not modelled, so a call with any other selector traps.
- BridgeEscrow.BridgeOutToEscrow: the composed model assumes only the escrow answers calls, so a call to any other address fails.
- Whether the escrow's `Err(())` reaches the bridge as a failed call is the parameter `errReverts`. It depends on the host's revert semantics and on decoding `.returns::<()>()`.
- Re-initialising a token is unreachable. `new_init` is private and only the constructor calls it once. `Escrow.NewInit` models its overwrite, but no message reaches it.
- The bridge's `bridge_in` selector (16843009) is declared, but no caller in these contracts uses it. It is not modelled.
- `bridge/lib.rs` makes no `is_contract` check before its outbound call, unlike `bridge_out` in `lib.rs`, so a non-contract recipient surfaces only as a failed call.
- SelfInvoker.Receive: an instance also answers its four bridge_out* messages under their name-derived selectors; those selectors are not modelled, so such calls trap in this model.

## Findings

| source | as written | input that shows it | evidently intended | confidence | as-written member | corrected member |
|---|---|---|---|---|---|---|
| bridge/lib.rs:119-128 | Deposit and Widthdaw call selectors `[240,0,0,0]` and `[250,0,0,0]`. The escrow declares `selector = 240` and `selector = 250`, which read big-endian as `[0,0,0,240]` and `[0,0,0,250]` | `bridge_out(token, agent, 1, Deposit, escrow)` on a ledger where `token` is seeded: the escrow's dispatcher matches no selector and traps, so the whole call rolls back | the bridge routes to the escrow's declared selectors `[0,0,0,240]` and `[0,0,0,250]`, reaching `deposit` and `widthraw` | medium; not executed; it rests on the big-endian reading of integer selectors | BridgeEscrow.AsWrittenNeverReachesEscrow | BridgeEscrow.BridgeOutToEscrow |
