/**
 The storage-less bridge contract: `bridge_in` only announces an inbound transfer;
 `bridge_out` routes an Action to a fixed selector and makes one synchronous call
 into `recipient`, announcing the transfer only if that call returns. The host's
 answer to a call is an abstract parameter `invoke`: true when the callee returned.
 */
module Bridge {
  import opened Host

  datatype Action = Deposit | Widthdaw

  datatype Event =
    | BridgeInEvent(tokenAddress: AccountId, recipient: AccountId, fromChain: string, amount: Balance)
    | BridgeOutEvent(tokenAddress: AccountId, recipient: AccountId, agent: AccountId, amount: Balance)

  /** The contract has no storage. */
  type Effect = Outcome<(), Event>

  /** The selector bytes `bridge_out` hard-codes for each action. */
  function ActionSelector(action: Action): Selector
  {
    match action
    case Deposit => [240, 0, 0, 0]
    case Widthdaw => [250, 0, 0, 0]
  }

  /** The inverse routing: which action, if any, a selector stands for. */
  function SelectorAction(sel: Selector): (r: Option<Action>)
    ensures forall a :: r == Some(a) <==> ActionSelector(a) == sel
    ensures r.None? <==> forall a :: ActionSelector(a) != sel
  {
    if sel == [240, 0, 0, 0] then Some(Deposit)
    else if sel == [250, 0, 0, 0] then Some(Widthdaw)
    else None
  }

  /** The table is a bijection between the two actions and two distinct selectors. */
  lemma ActionSelectorRoundTrip(action: Action, sel: Selector)
    ensures SelectorAction(ActionSelector(action)) == Some(action)
    ensures SelectorAction(sel) == Some(action) <==> ActionSelector(action) == sel
    ensures ActionSelector(Deposit) != ActionSelector(Widthdaw)
  {
  }

  /** The call `build_and_fire_call_and_emit` builds: callee `recipient`, then
      the arguments in push order token, amount, agent. */
  function OutboundCall(tokenAddress: AccountId, recipient: AccountId, agent: AccountId,
                        amount: Balance, selector: Selector): (c: CallRequest)
    ensures c.callee == recipient && c.selector == selector
    ensures c.args == [Account(tokenAddress), Amount(amount), Account(agent)]
  {
    CallRequest(recipient, selector, [Account(tokenAddress), Amount(amount), Account(agent)])
  }

  /** Fires the call and, only if it returned, emits one BridgeOut; a failed
      call traps at `unwrap()` and the whole message rolls back. */
  function FireAndEmit(tokenAddress: AccountId, recipient: AccountId, agent: AccountId,
                       amount: Balance, selector: Selector, invoke: CallRequest -> bool): (r: Effect)
    ensures r.status != Err
    ensures r.status == Ok <==>
      invoke(CallRequest(recipient, selector, [Account(tokenAddress), Amount(amount), Account(agent)]))
    ensures r.status == Ok ==> r.emitted == [BridgeOutEvent(tokenAddress, recipient, agent, amount)]
    ensures r.status == Abort ==> Aborted((), r)
  {
    if invoke(OutboundCall(tokenAddress, recipient, agent, amount, selector)) then
      Outcome((), [BridgeOutEvent(tokenAddress, recipient, agent, amount)], Ok)
    else
      Outcome((), [], Abort)
  }

  /** `bridge_in`: always `Ok(())`, one BridgeIn naming this contract (`self`) as
      recipient, everything else passed through. */
  function BridgeIn(self: AccountId, tokenAddress: AccountId, fromChain: string, amount: Balance): (r: Effect)
    ensures r.status == Ok && |r.emitted| == 1
    ensures forall e :: e in r.emitted ==> e.BridgeInEvent? && e.recipient == self
    ensures r.emitted[0].tokenAddress == tokenAddress && r.emitted[0].fromChain == fromChain
    ensures r.emitted[0].amount == amount
  {
    Outcome((), [BridgeInEvent(tokenAddress, self, fromChain, amount)], Ok)
  }

  /** `bridge_out`: an exhaustive match sends each action to its selector; no
      `is_contract` check is made, so a bad recipient shows up only as a failed call. */
  function BridgeOut(tokenAddress: AccountId, agent: AccountId, amount: Balance,
                     action: Action, recipient: AccountId, invoke: CallRequest -> bool): (r: Effect)
    ensures r.status != Err
    ensures r.status == Ok <==>
      invoke(CallRequest(recipient, ActionSelector(action), [Account(tokenAddress), Amount(amount), Account(agent)]))
    ensures r.status == Ok ==> r.emitted == [BridgeOutEvent(tokenAddress, recipient, agent, amount)]
    ensures r.status == Abort ==> Aborted((), r)
  {
    match action
    case Deposit => FireAndEmit(tokenAddress, recipient, agent, amount, [240, 0, 0, 0], invoke)
    case Widthdaw => FireAndEmit(tokenAddress, recipient, agent, amount, [250, 0, 0, 0], invoke)
  }

  /** The selectors the escrow's `deposit` (240) and `widthraw` (250) answer to,
      under the big-endian reading of integer selectors: [0,0,0,240] and [0,0,0,250]. */
  function CorrectedSelector(action: Action): (sel: Selector)
    ensures SelectorValue(sel) == match action case Deposit => 240 case Widthdaw => 250
  {
    match action
    case Deposit => IntegerSelector(240)
    case Widthdaw => IntegerSelector(250)
  }

  /** `bridge_out` as evidently intended: the same protocol, routed to the
      selectors the escrow actually declares. */
  function BridgeOutCorrected(tokenAddress: AccountId, agent: AccountId, amount: Balance,
                              action: Action, recipient: AccountId, invoke: CallRequest -> bool): (r: Effect)
    ensures r.status != Err
    ensures r.status == Ok <==>
      invoke(CallRequest(recipient, CorrectedSelector(action), [Account(tokenAddress), Amount(amount), Account(agent)]))
    ensures r.status == Ok ==> r.emitted == [BridgeOutEvent(tokenAddress, recipient, agent, amount)]
    ensures r.status == Abort ==> Aborted((), r)
  {
    FireAndEmit(tokenAddress, recipient, agent, amount, CorrectedSelector(action), invoke)
  }

  /** The hard-coded bytes put the action code in the first byte, the integer
      reading puts it in the last: the two tables share no selector. */
  lemma HardCodedSelectorsMissEscrow(a: Action, b: Action)
    ensures ActionSelector(a) != CorrectedSelector(b)
    ensures SelectorValue(ActionSelector(a)) == (match a case Deposit => 240 case Widthdaw => 250) * 0x100_0000
  {
  }
}
