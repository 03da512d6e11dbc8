/**
 The bridge contract calling an escrow contract deployed at `escrowAt`. The
 escrow answers a call whose selector is one of its integer selectors (240, 250,
 read big-endian) and whose arguments have the shape (token, amount, agent); a
 call to any other address, or with any other selector or shape, traps in the
 callee. Whether the escrow's `Err(())` reaches the bridge as a failed call is
 the host's choice, the parameter `errReverts`. A trap anywhere rolls back both
 contracts and every event.
 */
module BridgeEscrow {
  import opened Host
  import Escrow
  import Bridge

  /** One host log holds both contracts' events. */
  datatype Event = FromEscrow(escrowEvent: Escrow.Event) | FromBridge(bridgeEvent: Bridge.Event)

  type Step = Outcome<Escrow.Ledger, Event>

  function Wrap(es: seq<Escrow.Event>): (r: seq<Event>)
    ensures |r| == |es|
    ensures forall i :: 0 <= i < |es| ==> r[i] == FromEscrow(es[i])
  {
    seq(|es|, i requires 0 <= i < |es| => FromEscrow(es[i]))
  }

  function WrapBridge(bs: seq<Bridge.Event>): (r: seq<Event>)
    ensures |r| == |bs|
    ensures forall i :: 0 <= i < |bs| ==> r[i] == FromBridge(bs[i])
  {
    seq(|bs|, i requires 0 <= i < |bs| => FromBridge(bs[i]))
  }

  /** The escrow's own events, in order, out of the shared log. */
  function EscrowLog(log: seq<Event>): seq<Escrow.Event>
  {
    if log == [] then []
    else (match log[0] case FromEscrow(e) => [e] case FromBridge(_) => []) + EscrowLog(log[1..])
  }

  lemma {:induction false} EscrowLogOfWrap(es: seq<Escrow.Event>, rest: seq<Event>)
    ensures EscrowLog(Wrap(es) + rest) == es + EscrowLog(rest)
    decreases |es|
  {
    if es != [] {
      assert (Wrap(es) + rest)[1..] == Wrap(es[1..]) + rest;
      EscrowLogOfWrap(es[1..], rest);
      assert es == [es[0]] + es[1..];
    } else {
      assert Wrap(es) + rest == rest;
    }
  }

  /** The argument shape `deposit` and `widthraw` decode: (Hash, Balance, AccountId). */
  predicate LedgerArgs(args: seq<Arg>)
  {
    |args| == 3 && args[0].Account? && args[1].Amount? && args[2].Account?
  }

  /** The escrow message a call selects, if any. The token arrives as an
      AccountId and decodes as the Hash with the same value. */
  function Decode(req: CallRequest): (m: Option<Escrow.Message>)
    ensures m.Some? <==>
      LedgerArgs(req.args)
      && (SelectorValue(req.selector) == Escrow.DEPOSIT_SELECTOR || SelectorValue(req.selector) == Escrow.WIDTHRAW_SELECTOR)
    ensures m.Some? ==>
      && m.value.DepositMsg? == (SelectorValue(req.selector) == Escrow.DEPOSIT_SELECTOR)
      && m.value.token == HashOfAccount(req.args[0].account)
      && m.value.amount == req.args[1].amount
      && m.value.agent == req.args[2].account
  {
    SelectorRoundTrip(req.selector);
    if !LedgerArgs(req.args) then None
    else if req.selector == IntegerSelector(Escrow.DEPOSIT_SELECTOR) then
      Some(Escrow.DepositMsg(HashOfAccount(req.args[0].account), req.args[1].amount, req.args[2].account))
    else if req.selector == IntegerSelector(Escrow.WIDTHRAW_SELECTOR) then
      Some(Escrow.WidthrawMsg(HashOfAccount(req.args[0].account), req.args[1].amount, req.args[2].account))
    else None
  }

  /** The escrow answering a call: the selected message, or a trap. */
  function EscrowReceive(s: Escrow.Ledger, req: CallRequest): (r: Escrow.Step)
    ensures Decode(req).None? ==> Aborted(s, r)
    ensures Decode(req).Some? ==> r == Escrow.Dispatch(s, Decode(req).value)
  {
    match Decode(req)
    case None => Outcome(s, [], Abort)
    case Some(m) => Escrow.Dispatch(s, m)
  }

  /** Whether the caller sees the callee's ending as a returned call. */
  predicate CallReturned(r: Escrow.Step, errReverts: bool)
  {
    r.status == Ok || (r.status == Err && !errReverts)
  }

  /** The host's answer to a call, with the escrow as the only contract that answers. */
  function Invoke(escrowAt: AccountId, s: Escrow.Ledger, errReverts: bool): CallRequest -> bool
  {
    (req: CallRequest) => req.callee == escrowAt && CallReturned(EscrowReceive(s, req), errReverts)
  }

  /** Joins the bridge's effect with the callee's: both commit together, or the
      whole transaction rolls back. */
  function Commit(s: Escrow.Ledger, req: CallRequest, b: Bridge.Effect): (r: Step)
    ensures b.status == Ok ==> r.status == Ok && r.state == EscrowReceive(s, req).state
    ensures b.status == Ok ==> r.emitted == Wrap(EscrowReceive(s, req).emitted) + WrapBridge(b.emitted)
    ensures b.status != Ok ==> Aborted(s, r)
  {
    if b.status == Ok then
      var e := EscrowReceive(s, req);
      Outcome(e.state, Wrap(e.emitted) + WrapBridge(b.emitted), Ok)
    else
      Outcome(s, [], Abort)
  }

  /** The escrow message `bridge_out` means to trigger for an action. */
  function Intended(action: Bridge.Action, tokenAddress: AccountId, amount: Balance, agent: AccountId): (m: Escrow.Message)
    ensures m.token == HashOfAccount(tokenAddress) && m.amount == amount && m.agent == agent
    ensures m.DepositMsg? <==> action == Bridge.Deposit
  {
    match action
    case Deposit => Escrow.DepositMsg(HashOfAccount(tokenAddress), amount, agent)
    case Widthdaw => Escrow.WidthrawMsg(HashOfAccount(tokenAddress), amount, agent)
  }

  /** `bridge_out` exactly as written, against the escrow: whatever the
      recipient, the call traps (in the escrow's dispatcher, or at an address
      no contract answers from) and the whole transaction rolls back. */
  function BridgeOutAsWritten(escrowAt: AccountId, s: Escrow.Ledger, errReverts: bool,
                              tokenAddress: AccountId, agent: AccountId, amount: Balance,
                              action: Bridge.Action, recipient: AccountId): (r: Step)
    ensures Aborted(s, r)
  {
    Bridge.HardCodedSelectorsMissEscrow(action, action);
    var req := Bridge.OutboundCall(tokenAddress, recipient, agent, amount, Bridge.ActionSelector(action));
    Commit(s, req, Bridge.BridgeOut(tokenAddress, agent, amount, action, recipient, Invoke(escrowAt, s, errReverts)))
  }

  /** The discrepancy on one input: a deposit to a seeded token, sent to the
      escrow itself. As written it traps and nothing changes; routed through
      the escrow's own selectors the same call commits the deposit. */
  lemma AsWrittenNeverReachesEscrow(escrowAt: AccountId, s: Escrow.Ledger, errReverts: bool,
                                    tokenAddress: AccountId, agent: AccountId, amount: Balance)
    requires HashOfAccount(tokenAddress) in s.allowances
    requires s.allowances[HashOfAccount(tokenAddress)] + amount <= BALANCE_MAX
    ensures Aborted(s, BridgeOutAsWritten(escrowAt, s, errReverts, tokenAddress, agent, amount, Bridge.Deposit, escrowAt))
    ensures BridgeOutToEscrow(escrowAt, s, errReverts, tokenAddress, agent, amount, Bridge.Deposit, escrowAt).status == Ok
  {
  }

  /** `bridge_out` routed through the corrected selectors, against the escrow.
      Either both contracts commit, the escrow having run the intended message,
      or nothing happens at all. */
  function BridgeOutToEscrow(escrowAt: AccountId, s: Escrow.Ledger, errReverts: bool,
                             tokenAddress: AccountId, agent: AccountId, amount: Balance,
                             action: Bridge.Action, recipient: AccountId): (r: Step)
    ensures r.status != Ok ==> Aborted(s, r)
    ensures r.status == Ok <==>
      recipient == escrowAt
      && CallReturned(Escrow.Dispatch(s, Intended(action, tokenAddress, amount, agent)), errReverts)
    ensures r.status == Ok ==>
      var e := Escrow.Dispatch(s, Intended(action, tokenAddress, amount, agent));
      && r.state == e.state
      && r.emitted == Wrap(e.emitted) + [FromBridge(Bridge.BridgeOutEvent(tokenAddress, recipient, agent, amount))]
  {
    var req := Bridge.OutboundCall(tokenAddress, recipient, agent, amount, Bridge.CorrectedSelector(action));
    assert Decode(req) == Some(Intended(action, tokenAddress, amount, agent));
    Commit(s, req, Bridge.BridgeOutCorrected(tokenAddress, agent, amount, action, recipient, Invoke(escrowAt, s, errReverts)))
  }

  /** A deposit bridged out to a seeded token: the escrow's allowance grows by
      the amount, and the log holds Deposited then BridgeOut. */
  lemma BridgedDeposit(escrowAt: AccountId, s: Escrow.Ledger, errReverts: bool,
                       tokenAddress: AccountId, agent: AccountId, amount: Balance)
    requires HashOfAccount(tokenAddress) in s.allowances
    requires s.allowances[HashOfAccount(tokenAddress)] + amount <= BALANCE_MAX
    ensures var r := BridgeOutToEscrow(escrowAt, s, errReverts, tokenAddress, agent, amount, Bridge.Deposit, escrowAt);
      && r.status == Ok
      && Escrow.GetAllowance(r.state, HashOfAccount(tokenAddress))
         == Some(s.allowances[HashOfAccount(tokenAddress)] + amount)
      && r.emitted == [FromEscrow(Escrow.Deposited(HashOfAccount(tokenAddress), amount, agent)),
                       FromBridge(Bridge.BridgeOutEvent(tokenAddress, escrowAt, agent, amount))]
  {
  }

  /** A withdrawal larger than the allowance: if the host turns the escrow's
      `Err(())` into a failed call, nothing happens; if not, the bridge announces
      a BridgeOut although the escrow moved nothing. */
  lemma BridgedOverdraft(escrowAt: AccountId, s: Escrow.Ledger, errReverts: bool,
                         tokenAddress: AccountId, agent: AccountId, amount: Balance)
    requires HashOfAccount(tokenAddress) in s.allowances
    requires s.allowances[HashOfAccount(tokenAddress)] < amount
    ensures var r := BridgeOutToEscrow(escrowAt, s, errReverts, tokenAddress, agent, amount, Bridge.Widthdaw, escrowAt);
      && (errReverts ==> Aborted(s, r))
      && (!errReverts ==>
            r.status == Ok && r.state == s
            && r.emitted == [FromBridge(Bridge.BridgeOutEvent(tokenAddress, escrowAt, agent, amount))])
  {
  }

  /** Whatever a bridged call does, the escrow's invariant survives: its
      allowance stays the net flow its own events record. */
  lemma BridgeOutPreservesAccounted(escrowAt: AccountId, s: Escrow.Ledger, log: seq<Escrow.Event>,
                                    errReverts: bool, tokenAddress: AccountId, agent: AccountId,
                                    amount: Balance, action: Bridge.Action, recipient: AccountId)
    requires Escrow.Accounted(s, log)
    ensures var r := BridgeOutToEscrow(escrowAt, s, errReverts, tokenAddress, agent, amount, action, recipient);
      Escrow.Accounted(r.state, log + EscrowLog(r.emitted))
  {
    var r := BridgeOutToEscrow(escrowAt, s, errReverts, tokenAddress, agent, amount, action, recipient);
    if r.status == Ok {
      var m := Intended(action, tokenAddress, amount, agent);
      var e := Escrow.Dispatch(s, m);
      var tail := [FromBridge(Bridge.BridgeOutEvent(tokenAddress, recipient, agent, amount))];
      EscrowLogOfWrap(e.emitted, tail);
      assert EscrowLog(tail) == [];
      assert EscrowLog(r.emitted) == e.emitted;
      Escrow.DispatchPreservesAccounted(s, log, m);
    } else {
      assert log + EscrowLog(r.emitted) == log;
    }
  }
}
