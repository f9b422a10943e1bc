/** How the payment for one collected edition is split: a royalty share to
    the creator, a platform fee share to the fee recipient and the rest to
    the issuer. Both fractions are in thousandths and every share is rounded
    down, so the issuer keeps the rounding remainder. */
module Payout {
  import opened Tezos

  /** Denominator of the royalty and fee fractions. */
  const PerMille: nat := 1000

  /** One tez transfer emitted by the marketplace. */
  datatype Payment = Payment(to: Address, amount: Mutez)

  /** `fraction` thousandths of `price`, rounded down. */
  function Share(price: Mutez, fraction: nat): Mutez {
    price * fraction / PerMille
  }

  /** Two shares whose fractions add up to at most one whole never exceed
      the price, so the issuer's remainder is never negative. */
  lemma SharesFit(price: Mutez, royalties: nat, fee: nat)
    requires royalties + fee <= PerMille
    ensures Share(price, royalties) + Share(price, fee) <= price
  {
  }

  /** Total tez moved by a list of payments. */
  function Sum(ps: seq<Payment>): Mutez {
    if ps == [] then 0 else ps[0].amount + Sum(ps[1..])
  }

  lemma {:induction false} SumConcat(a: seq<Payment>, b: seq<Payment>)
    ensures Sum(a + b) == Sum(a) + Sum(b)
    decreases |a|
  {
    if a == [] {
      assert a + b == b;
    } else {
      assert (a + b)[1..] == a[1..] + b;
      SumConcat(a[1..], b);
    }
  }

  /** A payment of `amount` to `to`, left out when the amount is zero. */
  function Send(to: Address, amount: Mutez): (ps: seq<Payment>)
    ensures Sum(ps) == amount
    ensures forall i :: 0 <= i < |ps| ==> ps[i] == Payment(to, amount) && amount > 0
  {
    if amount == 0 then [] else [Payment(to, amount)]
  }

  /** The transfers for one edition sold at `price` under the given royalty
      and fee fractions: the marketplace forwards the whole payment, each
      payment is positive, and each beneficiary receives its share. */
  function Payouts(price: Mutez, royalties: nat, fee: nat, creator: Address, feeRecipient: Address, issuer: Address)
    : (ps: seq<Payment>)
    requires royalties + fee <= PerMille
    ensures Sum(ps) == price
    ensures forall i :: 0 <= i < |ps| ==> ps[i].amount > 0
    ensures forall i :: 0 <= i < |ps| ==> ps[i].to == creator || ps[i].to == feeRecipient || ps[i].to == issuer
    ensures Share(price, royalties) > 0 ==> Payment(creator, Share(price, royalties)) in ps
    ensures Share(price, fee) > 0 ==> Payment(feeRecipient, Share(price, fee)) in ps
    ensures Share(price, royalties) + Share(price, fee) < price ==>
              Payment(issuer, price - Share(price, royalties) - Share(price, fee)) in ps
    ensures price == 0 ==> ps == []
  {
    SharesFit(price, royalties, fee);
    var royalty := Share(price, royalties);
    var platform := Share(price, fee);
    var first := Send(creator, royalty);
    var second := Send(feeRecipient, platform);
    var third := Send(issuer, price - royalty - platform);
    SumConcat(first, second);
    SumConcat(first + second, third);
    first + second + third
  }
}
