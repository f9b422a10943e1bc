/** The part of an FA2 token contract (TZIP-12) that the marketplace relies
    on: the balance ledger, the operator set, the balance- and
    operator-checked `transfer`, `update_operators`, and the administrator's
    `mint` and `set_administrator` used to set scenarios up. */
module TokenLedger {
  import opened Tezos

  type TokenId = nat

  /** The FA2 `ledger`: (owner, token id) to balance; no entry reads as 0. */
  type Ledger = map<(Address, TokenId), nat>

  /** The TZIP-12 error strings the model distinguishes. */
  datatype Fa2Error =
    | NotOperator          // FA2_NOT_OPERATOR
    | InsufficientBalance  // FA2_INSUFFICIENT_BALANCE
    | NotOwner             // FA2_NOT_OWNER
    | NotAdmin             // FA2_NOT_ADMIN

  function Balance(ledger: Ledger, owner: Address, id: TokenId): nat {
    if (owner, id) in ledger then ledger[(owner, id)] else 0
  }

  /** The ledger after `amount` units of token `id` go from `from` to `to`. */
  function Moved(ledger: Ledger, from: Address, to: Address, id: TokenId, amount: nat): (r: Ledger)
    requires amount <= Balance(ledger, from, id)
    ensures forall owner: Address, t: TokenId :: (
      Balance(r, owner, t) == Balance(ledger, owner, t)
                              - (if (owner, t) == (from, id) then amount else 0)
                              + (if (owner, t) == (to, id) then amount else 0))
  {
    var debited := ledger[(from, id) := Balance(ledger, from, id) - amount];
    debited[(to, id) := Balance(debited, to, id) + amount]
  }

  /** The ledger after `amount` new units of token `id` are minted to `to`. */
  function Credited(ledger: Ledger, to: Address, id: TokenId, amount: nat): (r: Ledger)
    ensures forall owner: Address, t: TokenId :: (
      Balance(r, owner, t) == Balance(ledger, owner, t) + (if (owner, t) == (to, id) then amount else 0))
  {
    ledger[(to, id) := Balance(ledger, to, id) + amount]
  }

  /** Moving units and moving them back restores every balance: the escrow
      of a swap followed by its cancellation leaves the issuer as before. */
  lemma MovedBack(ledger: Ledger, from: Address, to: Address, id: TokenId, amount: nat)
    requires amount <= Balance(ledger, from, id)
    ensures amount <= Balance(Moved(ledger, from, to, id, amount), to, id)
    ensures forall owner: Address, t: TokenId ::
      Balance(Moved(Moved(ledger, from, to, id, amount), to, from, id, amount), owner, t)
      == Balance(ledger, owner, t)
  {
  }

  /** `operator` may transfer `owner`'s units of token `id`. */
  datatype Operator = Operator(owner: Address, operator: Address, id: TokenId)

  /** One element of the `update_operators` list. */
  datatype OperatorUpdate = AddOperator(op: Operator) | RemoveOperator(op: Operator)

  function ApplyUpdate(ops: set<Operator>, u: OperatorUpdate): set<Operator> {
    match u
    case AddOperator(o) => ops + {o}
    case RemoveOperator(o) => ops - {o}
  }

  /** The operator set after the updates are applied in list order. */
  function ApplyUpdates(ops: set<Operator>, us: seq<OperatorUpdate>): set<Operator>
    decreases |us|
  {
    if us == [] then ops else ApplyUpdate(ApplyUpdates(ops, us[..|us| - 1]), us[|us| - 1])
  }

  /** What the last update about `o` in `us` does: `Some(true)` adds it,
      `Some(false)` removes it, `None` when no update is about `o`. */
  function LastUpdateFor(us: seq<OperatorUpdate>, o: Operator): Option<bool>
    decreases |us|
  {
    if us == [] then None
    else if us[|us| - 1].op == o then Some(us[|us| - 1].AddOperator?)
    else LastUpdateFor(us[..|us| - 1], o)
  }

  /** A batch of operator updates behaves as if only the last update about
      each triple counted; triples no update mentions keep their status. */
  lemma {:induction false} ApplyUpdatesMembership(ops: set<Operator>, us: seq<OperatorUpdate>, o: Operator)
    ensures o in ApplyUpdates(ops, us) <==>
      match LastUpdateFor(us, o)
      case None => o in ops
      case Some(added) => added
    decreases |us|
  {
    if us != [] {
      ApplyUpdatesMembership(ops, us[..|us| - 1], o);
    }
  }

  /** Every update in `us` is about an operator of `owner`'s own tokens. */
  predicate AllOwnedBy(us: seq<OperatorUpdate>, owner: Address) {
    forall i :: 0 <= i < |us| ==> us[i].op.owner == owner
  }

  /** A batch that `owner` may send mentions only `owner`'s operators, so
      the operators of anyone else keep their status. */
  lemma {:induction false} OthersUntouched(ops: set<Operator>, us: seq<OperatorUpdate>, owner: Address, o: Operator)
    requires AllOwnedBy(us, owner) && o.owner != owner
    ensures o in ApplyUpdates(ops, us) <==> o in ops
    decreases |us|
  {
    if us != [] {
      assert AllOwnedBy(us[..|us| - 1], owner);
      OthersUntouched(ops, us[..|us| - 1], owner, o);
    }
  }

  /** One FA2 contract. */
  class Fa2 {
    const address: Address
    var administrator: Address
    var ledger: Ledger
    var operators: set<Operator>

    constructor (address: Address, administrator: Address)
      ensures this.address == address && this.administrator == administrator
      ensures ledger == map[] && operators == {}
    {
      this.address := address;
      this.administrator := administrator;
      ledger := map[];
      operators := {};
    }

    /** The TZIP-12 default transfer policy: `sender` is the owner `from` or
        one of its operators for `id`, and `from` holds at least `amount`. */
    predicate CanTransfer(sender: Address, from: Address, id: TokenId, amount: nat)
      reads this
    {
      && (sender == from || Operator(from, sender, id) in operators)
      && amount <= Balance(ledger, from, id)
    }

    /** `transfer` of one transaction: moves the units or fails, changing nothing. */
    method Transfer(sender: Address, from: Address, to: Address, id: TokenId, amount: nat)
      returns (r: Outcome<Fa2Error>)
      modifies this`ledger
      ensures r.Ok? <==> old(CanTransfer(sender, from, id, amount))
      ensures r.Ok? ==> ledger == Moved(old(ledger), from, to, id, amount)
      ensures r.Fail? ==> ledger == old(ledger)
    {
      if sender != from && Operator(from, sender, id) !in operators {
        return Fail(NotOperator);
      }
      if Balance(ledger, from, id) < amount {
        return Fail(InsufficientBalance);
      }
      ledger := Moved(ledger, from, to, id, amount);
      r := Ok;
    }

    /** `update_operators`: only an owner may add or remove operators of its
        own tokens; one foreign update fails the whole batch. */
    method UpdateOperators(sender: Address, us: seq<OperatorUpdate>) returns (r: Outcome<Fa2Error>)
      modifies this`operators
      ensures r.Ok? <==> AllOwnedBy(us, sender)
      ensures operators == if r.Ok? then ApplyUpdates(old(operators), us) else old(operators)
    {
      var ops := operators;
      var i := 0;
      while i < |us|
        invariant 0 <= i <= |us|
        invariant AllOwnedBy(us[..i], sender)
        invariant ops == ApplyUpdates(operators, us[..i])
      {
        if us[i].op.owner != sender {
          return Fail(NotOwner);
        }
        assert us[..i + 1][..i] == us[..i];
        ops := ApplyUpdate(ops, us[i]);
        i := i + 1;
      }
      assert us[..i] == us;
      operators := ops;
      r := Ok;
    }

    /** `mint`, reserved to the administrator. */
    method Mint(sender: Address, to: Address, amount: nat, id: TokenId) returns (r: Outcome<Fa2Error>)
      modifies this`ledger
      ensures r.Ok? <==> sender == administrator
      ensures ledger == if r.Ok? then Credited(old(ledger), to, id, amount) else old(ledger)
    {
      if sender != administrator {
        return Fail(NotAdmin);
      }
      ledger := Credited(ledger, to, id, amount);
      r := Ok;
    }

    /** `set_administrator`, reserved to the administrator. */
    method SetAdministrator(sender: Address, newAdmin: Address) returns (r: Outcome<Fa2Error>)
      modifies this`administrator
      ensures r.Ok? <==> sender == old(administrator)
      ensures administrator == if r.Ok? then newAdmin else old(administrator)
    {
      if sender != administrator {
        return Fail(NotAdmin);
      }
      administrator := newAdmin;
      r := Ok;
    }
  }
}
