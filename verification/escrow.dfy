/**
 The escrow contract: a per-token allowance and, per (agent, token), the allowance
 that agent's latest deposit or withdrawal left behind. Every message is a pure
 function from the ledger to an Outcome; a trap leaves the ledger untouched.
 */
module Escrow {
  import opened Host

  datatype Event =
    | Initiated(initialToken: Hash, initialValue: Balance)
    | Deposited(depositedToken: Hash, depositedAmount: Balance, agent: AccountId)
    | Widthdrew(withdrawnToken: Hash, withdrawnAmount: Balance, agent: AccountId)

  /** The contract's storage: three ink! mappings. The record tables are keyed
      by (agent, token), agent first. */
  datatype Ledger = Ledger(
    allowances: map<Hash, Balance>,
    deposits: map<(AccountId, Hash), Balance>,
    widthraws: map<(AccountId, Hash), Balance>)

  type Step = Outcome<Ledger, Event>

  /** The integer selectors the two mutating messages declare. */
  const DEPOSIT_SELECTOR: nat := 240
  const WIDTHRAW_SELECTOR: nat := 250

  const EmptyLedger := Ledger(map[], map[], map[])

  /** The private initialiser: inserts (overwriting) one allowance and emits
      Initiated. Only the constructor calls it. */
  function NewInit(s: Ledger, initialToken: Hash, initialValue: Balance): (r: Step)
    ensures r.status == Ok
    ensures GetAllowance(r.state, initialToken) == Some(initialValue)
    ensures forall t :: t != initialToken ==> GetAllowance(r.state, t) == GetAllowance(s, t)
    ensures r.state.deposits == s.deposits && r.state.widthraws == s.widthraws
    ensures r.emitted == [Initiated(initialToken, initialValue)]
  {
    Outcome(s.(allowances := s.allowances[initialToken := initialValue]),
            [Initiated(initialToken, initialValue)], Ok)
  }

  /** The constructor: `new_init` on empty storage, whose `Ok` the `unwrap()` accepts. */
  function New(initialToken: Hash, initialValue: Balance): (r: Step)
    ensures r.status == Ok
    ensures forall t :: GetAllowance(r.state, t) == if t == initialToken then Some(initialValue) else None
    ensures forall t, a :: GetDeposit(r.state, t, a) == None && GetWidthraw(r.state, t, a) == None
    ensures r.emitted == [Initiated(initialToken, initialValue)]
  {
    NewInit(EmptyLedger, initialToken, initialValue)
  }

  function GetAllowance(s: Ledger, token: Hash): (r: Option<Balance>)
    ensures r.Some? <==> token in s.allowances
    ensures r.Some? ==> r.value == s.allowances[token]
  {
    if token in s.allowances then Some(s.allowances[token]) else None
  }

  /** Note the argument order (token, depositor) against the key (depositor, token). */
  function GetDeposit(s: Ledger, token: Hash, depositor: AccountId): (r: Option<Balance>)
    ensures r.Some? <==> (depositor, token) in s.deposits
    ensures r.Some? ==> r.value == s.deposits[(depositor, token)]
  {
    if (depositor, token) in s.deposits then Some(s.deposits[(depositor, token)]) else None
  }

  function GetWidthraw(s: Ledger, token: Hash, widthdrawer: AccountId): (r: Option<Balance>)
    ensures r.Some? <==> (widthdrawer, token) in s.widthraws
    ensures r.Some? ==> r.value == s.widthraws[(widthdrawer, token)]
  {
    if (widthdrawer, token) in s.widthraws then Some(s.widthraws[(widthdrawer, token)]) else None
  }

  /** `deposit` (selector 240). An unknown token traps at `unwrap()`; a sum past
      u128 traps as a checked overflow. Otherwise the allowance grows by `amount`
      and the depositor's record is overwritten with the new global allowance. */
  function Deposit(s: Ledger, token: Hash, amount: Balance, depositor: AccountId): (r: Step)
    ensures r.status != Err
    ensures r.status == Ok <==> token in s.allowances && s.allowances[token] + amount <= BALANCE_MAX
    ensures r.status != Ok ==> Aborted(s, r)
    ensures r.status == Ok ==>
      && GetAllowance(r.state, token) == Some(s.allowances[token] + amount)
      && GetDeposit(r.state, token, depositor) == GetAllowance(r.state, token)
      && r.emitted == [Deposited(token, amount, depositor)]
    // nothing else changes
    ensures forall t :: t != token ==> GetAllowance(r.state, t) == GetAllowance(s, t)
    ensures forall t, a :: (a, t) != (depositor, token) ==> GetDeposit(r.state, t, a) == GetDeposit(s, t, a)
    ensures forall t, a :: GetWidthraw(r.state, t, a) == GetWidthraw(s, t, a)
  {
    if token !in s.allowances then
      Outcome(s, [], Abort)
    else
      var allowance := s.allowances[token];
      if allowance + amount > BALANCE_MAX then
        Outcome(s, [], Abort)
      else
        var depositedAmount: Balance := allowance + amount;
        Outcome(Ledger(s.allowances[token := depositedAmount],
                       s.deposits[(depositor, token) := depositedAmount],
                       s.widthraws),
                [Deposited(token, amount, depositor)], Ok)
  }

  /** `widthraw` (selector 250). An unknown token traps at `unwrap()`; an amount
      above the allowance returns `Err(())` before any write. Otherwise the
      allowance shrinks by `amount` and the record is overwritten with it. */
  function Widthraw(s: Ledger, token: Hash, amount: Balance, widthdrawer: AccountId): (r: Step)
    ensures token !in s.allowances ==> Aborted(s, r)
    ensures token in s.allowances && s.allowances[token] < amount ==> r == Outcome(s, [], Err)
    ensures r.status == Ok <==> token in s.allowances && amount <= s.allowances[token]
    ensures r.status == Ok ==>
      && GetAllowance(r.state, token) == Some(s.allowances[token] - amount)
      && GetWidthraw(r.state, token, widthdrawer) == GetAllowance(r.state, token)
      && r.emitted == [Widthdrew(token, amount, widthdrawer)]
    // nothing else changes
    ensures forall t :: t != token ==> GetAllowance(r.state, t) == GetAllowance(s, t)
    ensures forall t, a :: (a, t) != (widthdrawer, token) ==> GetWidthraw(r.state, t, a) == GetWidthraw(s, t, a)
    ensures forall t, a :: GetDeposit(r.state, t, a) == GetDeposit(s, t, a)
  {
    if token !in s.allowances then
      Outcome(s, [], Abort)
    else
      var allowance := s.allowances[token];
      if allowance < amount then
        Outcome(s, [], Err)
      else
        var amountAfter: Balance := allowance - amount;
        Outcome(Ledger(s.allowances[token := amountAfter],
                       s.deposits,
                       s.widthraws[(widthdrawer, token) := amountAfter]),
                [Widthdrew(token, amount, widthdrawer)], Ok)
  }

  /** The two messages that change storage; the getters change nothing and the
      initialiser is not a message. */
  datatype Message =
    | DepositMsg(token: Hash, amount: Balance, agent: AccountId)
    | WidthrawMsg(token: Hash, amount: Balance, agent: AccountId)

  function Dispatch(s: Ledger, m: Message): Step
  {
    match m
    case DepositMsg(t, a, who) => Deposit(s, t, a, who)
    case WidthrawMsg(t, a, who) => Widthraw(s, t, a, who)
  }

  /** Runs messages one after another, appending each one's events to the log. */
  function Run(s: Ledger, log: seq<Event>, msgs: seq<Message>): (Ledger, seq<Event>)
    decreases |msgs|
  {
    if msgs == [] then (s, log)
    else
      var r := Dispatch(s, msgs[0]);
      Run(r.state, log + r.emitted, msgs[1..])
  }

  /** What one event says about token `t`'s allowance. */
  function Delta(e: Event, t: Hash): int
  {
    match e
    case Initiated(t', v) => if t' == t then v else 0
    case Deposited(t', a, _) => if t' == t then a else 0
    case Widthdrew(t', a, _) => if t' == t then -(a as int) else 0
  }

  /** The allowance the event log accounts for: the seed plus every deposited
      amount minus every withdrawn amount for `t`. */
  function Net(log: seq<Event>, t: Hash): int
  {
    if log == [] then 0 else Net(log[..|log| - 1], t) + Delta(log[|log| - 1], t)
  }

  lemma NetAppend(log: seq<Event>, es: seq<Event>, t: Hash)
    requires |es| <= 1
    ensures Net(log + es, t) == Net(log, t) + (if es == [] then 0 else Delta(es[0], t))
  {
    if es != [] {
      assert (log + es)[..|log + es| - 1] == log;
    } else {
      assert log + es == log;
    }
  }

  /** The ledger invariant: one token was seeded by the log's single Initiated
      event, its allowance is exactly what the log accounts for, and the record
      tables mention no other token. */
  ghost predicate Accounted(s: Ledger, log: seq<Event>)
  {
    && |log| > 0
    && log[0].Initiated?
    && (forall i :: 0 < i < |log| ==> !log[i].Initiated?)
    && s.allowances.Keys == {log[0].initialToken}
    && s.allowances[log[0].initialToken] == Net(log, log[0].initialToken)
    && (forall k :: k in s.deposits ==> k.1 == log[0].initialToken)
    && (forall k :: k in s.widthraws ==> k.1 == log[0].initialToken)
  }

  lemma NewAccounted(t: Hash, v: Balance)
    ensures Accounted(New(t, v).state, New(t, v).emitted)
  {
  }

  lemma DispatchPreservesAccounted(s: Ledger, log: seq<Event>, m: Message)
    requires Accounted(s, log)
    ensures Accounted(Dispatch(s, m).state, log + Dispatch(s, m).emitted)
  {
    var r := Dispatch(s, m);
    var t0 := log[0].initialToken;
    NetAppend(log, r.emitted, t0);
    var log' := log + r.emitted;
    assert log'[0] == log[0];
    forall i | 0 < i < |log'|
      ensures !log'[i].Initiated?
    {
      if i >= |log| {
        assert log'[i] == r.emitted[i - |log|];
      }
    }
  }

  /** Over any sequence of messages the invariant holds, so the allowance of
      the seeded token always equals the seed plus the successful deposits minus
      the successful withdrawals, and is never negative. */
  lemma {:induction false} RunPreservesAccounted(s: Ledger, log: seq<Event>, msgs: seq<Message>)
    requires Accounted(s, log)
    ensures Accounted(Run(s, log, msgs).0, Run(s, log, msgs).1)
    ensures Run(s, log, msgs).1[0] == log[0]
    decreases |msgs|
  {
    if msgs != [] {
      var r := Dispatch(s, msgs[0]);
      DispatchPreservesAccounted(s, log, msgs[0]);
      RunPreservesAccounted(r.state, log + r.emitted, msgs[1..]);
    }
  }

  /** From the constructor on, through any messages: the only token is the
      seeded one, and its allowance is the net flow the log records. */
  lemma AllowanceIsNetFlow(t0: Hash, v0: Balance, msgs: seq<Message>)
    ensures var (s, log) := Run(New(t0, v0).state, New(t0, v0).emitted, msgs);
      && (forall t :: GetAllowance(s, t).Some? <==> t == t0)
      && GetAllowance(s, t0) == Some(Net(log, t0))
      && 0 <= Net(log, t0) <= BALANCE_MAX
  {
    NewAccounted(t0, v0);
    RunPreservesAccounted(New(t0, v0).state, New(t0, v0).emitted, msgs);
  }

  /** No caller identity is consulted: who deposits or withdraws changes only
      which record is written, never the allowance or whether the call succeeds. */
  lemma AgentDoesNotMatter(s: Ledger, token: Hash, amount: Balance, a: AccountId, b: AccountId)
    ensures Deposit(s, token, amount, a).status == Deposit(s, token, amount, b).status
    ensures Deposit(s, token, amount, a).state.allowances == Deposit(s, token, amount, b).state.allowances
    ensures Widthraw(s, token, amount, a).status == Widthraw(s, token, amount, b).status
    ensures Widthraw(s, token, amount, a).state.allowances == Widthraw(s, token, amount, b).state.allowances
  {
  }

  /** Withdrawing the whole allowance is accepted and leaves zero. */
  lemma WidthrawAllLeavesZero(s: Ledger, token: Hash, w: AccountId)
    requires token in s.allowances
    ensures var r := Widthraw(s, token, s.allowances[token], w);
      r.status == Ok && GetAllowance(r.state, token) == Some(0)
  {
  }

  /** A deposit followed by a withdrawal of the same amount restores the allowance. */
  lemma DepositThenWidthraw(s: Ledger, token: Hash, amount: Balance, d: AccountId, w: AccountId)
    requires Deposit(s, token, amount, d).status == Ok
    ensures var r1 := Deposit(s, token, amount, d);
      var r2 := Widthraw(r1.state, token, amount, w);
      r2.status == Ok && r2.state.allowances == s.allowances
  {
  }

  /** An example run: seed 100, deposit 50, an over-large withdrawal, then 100. */
  lemma Walkthrough(tokenA: Hash, x: AccountId, y: AccountId)
    ensures var s0 := New(tokenA, 100);
      var s1 := Deposit(s0.state, tokenA, 50, x);
      var s2 := Widthraw(s1.state, tokenA, 200, y);
      var s3 := Widthraw(s2.state, tokenA, 100, y);
      && |s0.emitted| == 1 && GetAllowance(s0.state, tokenA) == Some(100)
      && GetAllowance(s1.state, tokenA) == Some(150) && GetDeposit(s1.state, tokenA, x) == Some(150)
      && s2.status == Err && GetAllowance(s2.state, tokenA) == Some(150)
      && s3.status == Ok && GetAllowance(s3.state, tokenA) == Some(50)
      && GetWidthraw(s3.state, tokenA, y) == Some(50)
  {
  }
}
