/**
 The host-environment vocabulary shared by the three ink! contracts: account and
 hash identifiers, the u128 balance, 4-byte message selectors, the arguments of a
 cross-contract call, and the Ok / Err / Abort outcome of one message.
 */
module Host {

  /** An account identifier: opaque, compared only for equality. */
  datatype AccountId = AccountId(bits: nat)

  /** A hash naming a token in the escrow: opaque, compared only for equality. */
  datatype Hash = Hash(bits: nat)

  /** Both identifiers travel as the same raw bytes on the wire, so an AccountId
      argument decodes as the Hash with the same value. */
  function HashOfAccount(a: AccountId): (h: Hash)
    ensures h.bits == a.bits
  {
    Hash(a.bits)
  }

  /** ink!'s default `Balance` is u128. */
  const BALANCE_MAX: nat := 0xFFFF_FFFF_FFFF_FFFF_FFFF_FFFF_FFFF_FFFF
  type Balance = x: nat | x <= BALANCE_MAX

  datatype Option<+T> = None | Some(value: T)

  type Byte = b: int | 0 <= b < 256

  /** A message selector: the four bytes that prefix a call's input. */
  type Selector = s: seq<Byte> | |s| == 4 witness [0, 0, 0, 0]

  const U32_LIMIT: nat := 0x1_0000_0000

  /** The selector an integer `selector = n` attribute denotes. ASSUMPTION: ink!
      writes the u32 in big-endian byte order, most significant byte first. */
  function IntegerSelector(n: nat): (sel: Selector)
    requires n < U32_LIMIT
    ensures SelectorValue(sel) == n
  {
    var b3 := n % 0x100;
    var n2 := n / 0x100;
    var b2 := n2 % 0x100;
    var n1 := n2 / 0x100;
    var b1 := n1 % 0x100;
    var b0 := n1 / 0x100;
    [b0, b1, b2, b3]
  }

  /** The u32 a selector spells, read big-endian. */
  function SelectorValue(sel: Selector): (n: nat)
    ensures n < U32_LIMIT
  {
    ((sel[0] as int * 0x100 + sel[1]) * 0x100 + sel[2]) * 0x100 + sel[3]
  }

  lemma DivModByte(q: nat, b: Byte)
    ensures (q * 0x100 + b) / 0x100 == q
    ensures (q * 0x100 + b) % 0x100 == b
  {
  }

  /** Reading a selector as a u32 and writing it back gives the same bytes, so
      distinct selectors have distinct integer values and vice versa. */
  lemma SelectorRoundTrip(sel: Selector)
    ensures IntegerSelector(SelectorValue(sel)) == sel
  {
    var n1: nat := sel[0] as int * 0x100 + sel[1];
    var n2: nat := n1 * 0x100 + sel[2];
    DivModByte(n2, sel[3]);
    DivModByte(n1, sel[2]);
    DivModByte(sel[0], sel[1]);
  }

  /** One argument pushed onto a call's input, tagged by its Rust type. */
  datatype Arg = Account(account: AccountId) | Amount(amount: Balance) | Text(text: string)

  /** A synchronous cross-contract call: callee, selector and arguments in push order. */
  datatype CallRequest = CallRequest(callee: AccountId, selector: Selector, args: seq<Arg>)

  /** How a message ends: `Ok(())`, `Err(())`, or a trap (a failed `unwrap()`,
      `assert!` or overflow check) that the host rolls back entirely. */
  datatype Status = Ok | Err | Abort

  /** The storage after a message, the events it emitted, and how it ended. */
  datatype Outcome<S, E> = Outcome(state: S, emitted: seq<E>, status: Status)

  /** A trap: storage exactly as before the message and no event. */
  predicate Aborted<S(==), E>(pre: S, r: Outcome<S, E>)
  {
    r.status == Abort && r.state == pre && |r.emitted| == 0
  }
}
