/**
 The storage-less self-invoking gateway. `bridge_in` announces an inbound
 transfer to this contract; four `bridge_out` variants differ only in which
 address is replaced by this contract's own and whether the callee must be a
 contract, and all of them call the callee's `bridge_in` (selector 0x44ff2312)
 before announcing the outbound transfer.
 */
module SelfInvoker {
  import opened Host

  datatype Event =
    | BridgeInEvent(fromContract: AccountId, toContract: AccountId, transferable: string, fromChain: string)
    | BridgeOutEvent(fromContract: AccountId, toContract: AccountId, transferable: string, targetChain: string)

  /** The host's answer to a synchronous call: the callee trapped (or the host
      refused the call), or it returned having appended `trace` to the log. */
  datatype CallOutcome = Trapped | Returned(trace: seq<Event>)

  /** The host primitives the contract consults: its own account id, the
      `is_contract` test, and the outcome of a cross-contract call. */
  datatype Env = Env(self: AccountId, isContract: AccountId -> bool, invoke: CallRequest -> CallOutcome)

  /** The contract has no storage. */
  type Effect = Outcome<(), Event>

  /** The integer selector `bridge_in` declares. */
  const BRIDGE_IN_SELECTOR: nat := 0x44ff2312

  /** The selector bytes the outbound call hard-codes. */
  const OUTBOUND_SELECTOR: Selector := [0x44, 0xff, 0x23, 0x12]

  /** The hard-coded bytes name this contract's own `bridge_in`. */
  lemma OutboundSelectorIsBridgeIn()
    ensures OUTBOUND_SELECTOR == IntegerSelector(BRIDGE_IN_SELECTOR)
    ensures SelectorValue(OUTBOUND_SELECTOR) == BRIDGE_IN_SELECTOR
  {
  }

  /** The call `build_and_fire_call_and_emit` builds: callee `toContract`, then
      from_contract, target_chain, transferable in push order. */
  function OutboundCall(fromContract: AccountId, toContract: AccountId,
                        targetChain: string, transferable: string): (c: CallRequest)
    ensures c.callee == toContract && c.selector == OUTBOUND_SELECTOR
    ensures c.args == [Account(fromContract), Text(targetChain), Text(transferable)]
  {
    CallRequest(toContract, OUTBOUND_SELECTOR, [Account(fromContract), Text(targetChain), Text(transferable)])
  }

  /** Fires the call; if it trapped, `unwrap()` traps too and nothing survives;
      otherwise BridgeOut is appended after everything the callee emitted. */
  function FireAndEmit(env: Env, fromContract: AccountId, toContract: AccountId,
                       targetChain: string, transferable: string): (r: Effect)
    ensures r.status != Err
    ensures env.invoke(CallRequest(toContract, [0x44, 0xff, 0x23, 0x12],
                                   [Account(fromContract), Text(targetChain), Text(transferable)])).Trapped?
            <==> r.status == Abort
    ensures r.status == Abort ==> Aborted((), r)
    ensures r.status == Ok ==>
      r.emitted == env.invoke(OutboundCall(fromContract, toContract, targetChain, transferable)).trace
                   + [BridgeOutEvent(fromContract, toContract, transferable, targetChain)]
  {
    match env.invoke(OutboundCall(fromContract, toContract, targetChain, transferable))
    case Trapped => Outcome((), [], Abort)
    case Returned(trace) =>
      Outcome((), trace + [BridgeOutEvent(fromContract, toContract, transferable, targetChain)], Ok)
  }

  /** `bridge_in`: one BridgeIn naming this contract as `to_contract`, the other
      fields passed through; it has no return value and cannot fail. */
  function BridgeIn(self: AccountId, fromContract: AccountId, fromChain: string, transferable: string): (r: Effect)
    ensures r.status == Ok && |r.emitted| == 1
    ensures forall e :: e in r.emitted ==> e.BridgeInEvent? && e.toContract == self
    ensures r.emitted[0].fromContract == fromContract && r.emitted[0].fromChain == fromChain
    ensures r.emitted[0].transferable == transferable
  {
    Outcome((), [BridgeInEvent(fromContract, self, transferable, fromChain)], Ok)
  }

  /** `bridge_out`: traps before any call unless `toContract` is a contract. */
  function BridgeOut(env: Env, fromContract: AccountId, toContract: AccountId,
                     targetChain: string, transferable: string): (r: Effect)
    ensures !env.isContract(toContract) ==> Aborted((), r)
    ensures env.isContract(toContract) ==>
      (r.status == Ok <==> env.invoke(OutboundCall(fromContract, toContract, targetChain, transferable)).Returned?)
    ensures r.status == Ok ==>
      r.emitted == env.invoke(OutboundCall(fromContract, toContract, targetChain, transferable)).trace
                   + [BridgeOutEvent(fromContract, toContract, transferable, targetChain)]
    ensures r.status != Ok ==> Aborted((), r)
  {
    if !env.isContract(toContract) then Outcome((), [], Abort)
    else FireAndEmit(env, fromContract, toContract, targetChain, transferable)
  }

  /** `bridge_out_from_self`: this contract is `from_contract`; the callee must be a contract. */
  function BridgeOutFromSelf(env: Env, toContract: AccountId, targetChain: string, transferable: string): (r: Effect)
    ensures !env.isContract(toContract) ==> Aborted((), r)
    ensures env.isContract(toContract) ==>
      (r.status == Ok <==> env.invoke(OutboundCall(env.self, toContract, targetChain, transferable)).Returned?)
    ensures r.status == Ok ==>
      r.emitted == env.invoke(OutboundCall(env.self, toContract, targetChain, transferable)).trace
                   + [BridgeOutEvent(env.self, toContract, transferable, targetChain)]
    ensures r.status != Ok ==> Aborted((), r)
  {
    var fromContract := env.self;
    if !env.isContract(toContract) then Outcome((), [], Abort)
    else FireAndEmit(env, fromContract, toContract, targetChain, transferable)
  }

  /** `bridge_out_cherry_to_self`: this contract is `to_contract`; no `is_contract` check. */
  function BridgeOutCherryToSelf(env: Env, fromContract: AccountId, targetChain: string, transferable: string): (r: Effect)
    ensures r.status == Ok <==> env.invoke(OutboundCall(fromContract, env.self, targetChain, transferable)).Returned?
    ensures r.status == Ok ==>
      r.emitted == env.invoke(OutboundCall(fromContract, env.self, targetChain, transferable)).trace
                   + [BridgeOutEvent(fromContract, env.self, transferable, targetChain)]
    ensures r.status != Ok ==> Aborted((), r)
  {
    var toContract := env.self;
    FireAndEmit(env, fromContract, toContract, targetChain, transferable)
  }

  /** `bridge_out_cherry_from_to_self`: this contract is both ends; no `is_contract` check. */
  function BridgeOutCherryFromToSelf(env: Env, targetChain: string, transferable: string): (r: Effect)
    ensures r.status == Ok <==> env.invoke(OutboundCall(env.self, env.self, targetChain, transferable)).Returned?
    ensures r.status == Ok ==>
      r.emitted == env.invoke(OutboundCall(env.self, env.self, targetChain, transferable)).trace
                   + [BridgeOutEvent(env.self, env.self, transferable, targetChain)]
    ensures r.status != Ok ==> Aborted((), r)
  {
    var toContract := env.self;
    var fromContract := toContract;
    FireAndEmit(env, fromContract, toContract, targetChain, transferable)
  }

  /** The four variants are one helper with addresses substituted: the two
      checked ones coincide with each other, the two unchecked ones with each
      other, and checked and unchecked agree whenever the check passes. */
  lemma VariantsAgree(env: Env, from: AccountId, to: AccountId, targetChain: string, transferable: string)
    ensures BridgeOutFromSelf(env, to, targetChain, transferable)
         == BridgeOut(env, env.self, to, targetChain, transferable)
    ensures BridgeOutCherryFromToSelf(env, targetChain, transferable)
         == BridgeOutCherryToSelf(env, env.self, targetChain, transferable)
    ensures env.isContract(env.self) ==>
      BridgeOutCherryToSelf(env, from, targetChain, transferable)
      == BridgeOut(env, from, env.self, targetChain, transferable)
  {
  }

  /** Arguments decode only in the shape `bridge_in` declares. */
  predicate BridgeInArgs(args: seq<Arg>)
  {
    |args| == 3 && args[0].Account? && args[1].Text? && args[2].Text?
  }

  /** How an instance of this contract answers a call when the host admits it:
      `bridge_in` runs with the callee as `self`; any other selector or argument
      shape traps in the dispatcher. */
  function Receive(req: CallRequest): (o: CallOutcome)
    ensures o.Returned? <==> SelectorValue(req.selector) == BRIDGE_IN_SELECTOR && BridgeInArgs(req.args)
    ensures o.Returned? ==> o.trace == BridgeIn(req.callee, req.args[0].account, req.args[1].text, req.args[2].text).emitted
  {
    SelectorRoundTrip(req.selector);
    if req.selector == IntegerSelector(BRIDGE_IN_SELECTOR) && BridgeInArgs(req.args) then
      Returned(BridgeIn(req.callee, req.args[0].account, req.args[1].text, req.args[2].text).emitted)
    else
      Trapped
  }

  /** When the callee is an instance of this contract and the host admits the
      call, the log is the callee's BridgeIn followed by BridgeOut; the target
      chain arrives as the callee's `from_chain`, since argument order matches. */
  lemma CallIntoInstance(env: Env, from: AccountId, to: AccountId, targetChain: string, transferable: string)
    requires env.invoke(OutboundCall(from, to, targetChain, transferable))
          == Receive(OutboundCall(from, to, targetChain, transferable))
    ensures FireAndEmit(env, from, to, targetChain, transferable)
         == Outcome((), [BridgeInEvent(from, to, transferable, targetChain),
                         BridgeOutEvent(from, to, transferable, targetChain)], Ok)
  {
  }

  /** `bridge_out_cherry_from_to_self` when the host lets the contract call
      itself: BridgeIn then BridgeOut, both with this contract at either end. */
  lemma SelfCallRoundTrip(env: Env, targetChain: string, transferable: string)
    requires env.invoke(OutboundCall(env.self, env.self, targetChain, transferable))
          == Receive(OutboundCall(env.self, env.self, targetChain, transferable))
    ensures BridgeOutCherryFromToSelf(env, targetChain, transferable).emitted
         == [BridgeInEvent(env.self, env.self, transferable, targetChain),
             BridgeOutEvent(env.self, env.self, transferable, targetChain)]
  {
  }

  /** When the host refuses the self-call (re-entrancy is a host flag), the
      variant traps and nothing is emitted. */
  lemma SelfCallRefused(env: Env, targetChain: string, transferable: string)
    requires env.invoke(OutboundCall(env.self, env.self, targetChain, transferable)) == Trapped
    ensures Aborted((), BridgeOutCherryFromToSelf(env, targetChain, transferable))
  {
  }
}
