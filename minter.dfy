/** The part of the V1 marketplace that the scenarios use to create tokens:
    `mint_OBJKT` mints editions of a fresh token id on the OBJKT FA2
    contract (whose administrator it is) and advances its id counter. */
module MinterV1 {
  import opened Tezos
  import opened TokenLedger

  /** The first token id the V1 contract hands out. */
  const GenesisObjktId: TokenId := 152

  datatype MintError =
    | NotOwnAddress
    | NoEditions
    | TokenMintFailed(reason: Fa2Error)

  class Minter {
    const address: Address
    /** The OBJKT FA2 contract the editions are minted on. */
    const objkt: Fa2
    /** The id the next minted token receives. */
    var objktId: TokenId

    constructor (address: Address, objkt: Fa2)
      ensures this.address == address && this.objkt == objkt && objktId == GenesisObjktId
    {
      this.address := address;
      this.objkt := objkt;
      objktId := GenesisObjktId;
    }

    /** `mint_OBJKT`: an artist mints `amount` editions to its own address;
        the new token takes the current id and the counter moves on. */
    method MintObjkt(sender: Address, to: Address, amount: nat, royalties: nat) returns (r: Outcome<MintError>)
      modifies this`objktId, objkt`ledger
      ensures r.Ok? <==> sender == to && amount > 0 && old(objkt.administrator) == address
      ensures objktId == if r.Ok? then old(objktId) + 1 else old(objktId)
      ensures objkt.ledger == if r.Ok? then Credited(old(objkt.ledger), to, old(objktId), amount) else old(objkt.ledger)
    {
      if sender != to {
        return Fail(NotOwnAddress);
      }
      if amount == 0 {
        return Fail(NoEditions);
      }
      var m := objkt.Mint(address, to, amount, objktId);
      if m.Fail? {
        return Fail(TokenMintFailed(m.error));
      }
      objktId := objktId + 1;
      r := Ok;
    }
  }
}
