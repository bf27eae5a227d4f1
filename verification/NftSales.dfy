/** The seven settlements of NFT sales (core/evm.go): who may sell, who is paid what,
    and who owns the NFT afterwards. Recovering signers and parsing the numbers of a
    signed offer are inputs.
 */
module NftSales {
  import opened Ledger
  import opened Options

  type NftId = nat

  const NOBODY: Account := 0

  datatype Nft = Nft(owner: Account, creator: Account, royalty: nat, exchanger: Account)

  /** A signed offer as read from a transaction: what does not parse is missing. */
  datatype Offer = Offer(signer: Option<Account>, amount: Option<int>, block: Option<int>, nft: Option<NftId>,
                         exchanger: Account, royalty: Option<int>, exclusive: Option<bool>)

  /** An exchanger's authorisation of another account. */
  datatype Auth = Auth(signer: Option<Account>, to: Account, block: Option<int>)

  predicate Current(block: nat, until: Option<int>) {
    until.Some? && block <= until.value
  }

  /** A hundredth of a percent of the price, per point of rate. */
  function Share(amount: nat, rate: nat): nat {
    amount / 10000 * rate
  }

  /** Buyer pays the amount; the exchanger gets its fee, the creator the royalty and the
      owner the rest. Any of them may be the same account. */
  ghost predicate Paid(b: Balances, b': Balances, buyer: Account, owner: Account, creator: Account, exchanger: Account,
                       amount: nat, fee: nat, royalty: nat) {
    && Total(b') == Total(b)
    && forall a :: BalanceOf(b', a) == BalanceOf(b, a)
         - (if a == buyer then amount else 0)
         + (if a == owner then amount - Share(amount, fee) - Share(amount, royalty) else 0)
         + (if a == creator then Share(amount, royalty) else 0)
         + (if a == exchanger then Share(amount, fee) else 0)
  }

  method Settle(b: Balances, buyer: Account, owner: Account, creator: Account, exchanger: Account, amount: nat,
                fee: nat, royalty: nat)
    returns (b': Balances)
    ensures Paid(b, b', buyer, owner, creator, exchanger, amount, fee, royalty)
  {
    hide Share, Total;
    var exchangerAmount, royaltyAmount := Share(amount, fee), Share(amount, royalty);
    var rest := amount - (exchangerAmount + royaltyAmount);
    var b1 := Credit(b, buyer, -(amount as int));
    var b2 := Credit(b1, owner, rest);
    var b3 := Credit(b2, creator, royaltyAmount);
    b' := Credit(b3, exchanger, exchangerAmount);
    TotalCredit(b, buyer, -(amount as int));
    TotalCredit(b1, owner, rest);
    TotalCredit(b2, creator, royaltyAmount);
    TotalCredit(b3, exchanger, exchangerAmount);
  }

  /** Rates of at most the whole price leave the owner a share that is not negative. */
  lemma OwnerShare(amount: nat, fee: nat, royalty: nat)
    requires fee + royalty <= 10000
    ensures Share(amount, fee) + Share(amount, royalty) <= amount
  {
    var unit := amount / 10000;
    assert unit * (fee + royalty) <= unit * 10000;
    assert unit * (fee + royalty) == Share(amount, fee) + Share(amount, royalty);
  }

  /** The owner can pay what fee and royalty take beyond the price, out of what it has and
      what it gets back as creator or exchanger. */
  predicate Solvent(b: Balances, buyer: Account, owner: Account, creator: Account, exchanger: Account, amount: nat,
                    fee: nat, royalty: nat) {
    Share(amount, fee) + Share(amount, royalty) <=
      BalanceOf(b, owner)
      + (if owner == buyer then 0 else amount)
      + (if owner == creator then Share(amount, royalty) else 0)
      + (if owner == exchanger then Share(amount, fee) else 0)
  }

  /** A sale to a buyer who has the price leaves a debt exactly if the owner cannot. */
  lemma DebtExactly(b: Balances, b': Balances, buyer: Account, owner: Account, creator: Account, exchanger: Account,
                    amount: nat, fee: nat, royalty: nat)
    requires Paid(b, b', buyer, owner, creator, exchanger, amount, fee, royalty)
    requires NonNegative(b) && BalanceOf(b, buyer) >= amount
    ensures NonNegative(b') <==> Solvent(b, buyer, owner, creator, exchanger, amount, fee, royalty)
    ensures fee + royalty <= 10000 ==> NonNegative(b')
  {
    hide Share;
    assert NonNegative(b') ==> BalanceOf(b', owner) >= 0;
    if fee + royalty <= 10000 {
      NoOverdraft(b, b', buyer, owner, creator, exchanger, amount, fee, royalty);
    }
  }

  /** Then no balance goes negative. */
  lemma NoOverdraft(b: Balances, b': Balances, buyer: Account, owner: Account, creator: Account, exchanger: Account,
                    amount: nat, fee: nat, royalty: nat)
    requires Paid(b, b', buyer, owner, creator, exchanger, amount, fee, royalty)
    requires NonNegative(b) && BalanceOf(b, buyer) >= amount && fee + royalty <= 10000
    ensures NonNegative(b')
  {
    hide Share;
    OwnerShare(amount, fee, royalty);
  }

  /** With higher rates the owner pays for selling at any multiple of 10000. */
  lemma OwnerLoses(units: nat, fee: nat, royalty: nat)
    requires fee + royalty > 10000 && units > 0
    ensures Share(10000 * units, fee) + Share(10000 * units, royalty) > 10000 * units
  {
    assert 10000 * units / 10000 == units;
    Distributes(units, fee, royalty);
  }

  lemma Distributes(units: nat, fee: nat, royalty: nat)
    ensures units * fee + units * royalty == units * (fee + royalty)
    ensures fee + royalty > 10000 && units > 0 ==> units * (fee + royalty) > 10000 * units
  {
    var extra := fee + royalty - 10000;
    assert units * (fee + royalty) == units * extra + units * 10000;
    assert extra > 0 && units > 0 ==> units * extra > 0;
  }

  /** So an owner without funds is overdrawn then. */
  lemma Overdraft(b: Balances, b': Balances, buyer: Account, owner: Account, creator: Account, exchanger: Account,
                  units: nat, fee: nat, royalty: nat)
    requires Paid(b, b', buyer, owner, creator, exchanger, 10000 * units, fee, royalty) && BalanceOf(b, owner) == 0
    requires owner != buyer && owner != creator && owner != exchanger && fee + royalty > 10000 && units > 0
    ensures BalanceOf(b', owner) < 0
  {
    hide Share;
    OwnerLoses(units, fee, royalty);
  }

  class Market {
    var balances: Balances
    var votes: map<Account, int>
    var nfts: map<NftId, Nft>
    var approvals: set<(NftId, Account)>
    var exchangers: set<Account>       // accounts whose exchange is open
    var feeRates: map<Account, nat>

    function OwnerOf(n: NftId): Account
      reads this
    {
      if n in nfts then nfts[n].owner else NOBODY
    }

    function FeeRate(a: Account): nat
      reads this
    {
      if a in feeRates then feeRates[a] else 0
    }

    /** The exchanger the NFT was minted for, if its exchange is still open. */
    function Exclusive(n: NftId): Option<Account>
      reads this
    {
      if n in nfts && nfts[n].exchanger != NOBODY && nfts[n].exchanger in exchangers
      then Some(nfts[n].exchanger) else None
    }

    constructor (balances: Balances, nfts: map<NftId, Nft>, exchangers: set<Account>, feeRates: map<Account, nat>)
      ensures this.balances == balances && this.nfts == nfts && this.exchangers == exchangers
      ensures this.feeRates == feeRates && votes == map[] && approvals == {}
    {
      this.balances, this.nfts, this.exchangers, this.feeRates := balances, nfts, exchangers, feeRates;
      votes, approvals := map[], {};
    }

    /** Nobody gets into debt, exactly if the owner can pay what fee and royalty take; with
        rates that leave it a share it always can. */
    twostate predicate Covered(buyer: Account, owner: Account, creator: Account, exchanger: Account, amount: nat,
                               royalty: nat)
      reads this
    {
      var fee := old(FeeRate(exchanger));
      NonNegative(old(balances)) ==>
        && (NonNegative(balances) <==>
              Solvent(old(balances), buyer, owner, creator, exchanger, amount, fee, royalty))
        && (fee + royalty <= 10000 ==> NonNegative(balances))
    }

    /** What a sale of an existing NFT does. */
    twostate predicate Sold(n: NftId, buyer: Account, exchanger: Account, amount: nat)
      reads this
    {
      && n in old(nfts) && nfts == old(nfts)[n := old(nfts)[n].(owner := buyer)]
      && Paid(old(balances), balances, buyer, old(nfts)[n].owner, old(nfts)[n].creator, exchanger,
              amount, old(FeeRate(exchanger)), old(nfts)[n].royalty)
      && votes == Credit(old(votes), exchanger, amount)
      && Covered(buyer, old(nfts)[n].owner, old(nfts)[n].creator, exchanger, amount, old(nfts)[n].royalty)
      && approvals == old(approvals) && exchangers == old(exchangers) && feeRates == old(feeRates)
      && (old(Exclusive(n)).Some? ==> exchanger == old(Exclusive(n)).value)
    }

    /** What minting and selling a new NFT does: the seller is its creator and, without a
        royalty on this sale, gets all but the fee. */
    twostate predicate MintedAndSold(n: NftId, seller: Account, royalty: nat, exclusive: bool, buyer: Account,
                                     exchanger: Account, amount: nat)
      reads this
    {
      && nfts == old(nfts)[n := Nft(buyer, seller, royalty, if exclusive then exchanger else NOBODY)]
      && Paid(old(balances), balances, buyer, seller, seller, exchanger, amount, old(FeeRate(exchanger)), 0)
      && votes == Credit(old(votes), exchanger, amount) && Covered(buyer, seller, seller, exchanger, amount, 0)
      && approvals == old(approvals) && exchangers == old(exchangers) && feeRates == old(feeRates)
    }

    /** The end of a sale that has been found in order. */
    method Sell(n: NftId, buyer: Account, exchanger: Account, amount: nat)
      requires n in nfts && (Exclusive(n).Some? ==> exchanger == Exclusive(n).value)
      requires BalanceOf(balances, buyer) >= amount
      modifies this
      ensures Sold(n, buyer, exchanger, amount)
    {
      hide Paid, NonNegative, Solvent;
      var nft := nfts[n];
      ghost var before := balances;
      balances := Settle(balances, buyer, nft.owner, nft.creator, exchanger, amount, FeeRate(exchanger), nft.royalty);
      if NonNegative(before) {
        DebtExactly(before, balances, buyer, nft.owner, nft.creator, exchanger, amount, FeeRate(exchanger),
                    nft.royalty);
      }
      votes := Credit(votes, exchanger, amount);
      nfts := nfts[n := nft.(owner := buyer)];
    }

    method MintAndSell(n: NftId, seller: Account, royalty: nat, exclusive: bool, buyer: Account, exchanger: Account,
                       amount: nat)
      requires n !in nfts && BalanceOf(balances, buyer) >= amount
      modifies this
      ensures MintedAndSold(n, seller, royalty, exclusive, buyer, exchanger, amount)
    {
      hide Paid, NonNegative, Solvent;
      ghost var before := balances;
      nfts := nfts[n := Nft(seller, seller, royalty, if exclusive then exchanger else NOBODY)];
      balances := Settle(balances, buyer, seller, seller, exchanger, amount, FeeRate(exchanger), 0);
      if NonNegative(before) {
        DebtExactly(before, balances, buyer, seller, seller, exchanger, amount, FeeRate(exchanger), 0);
      }
      votes := Credit(votes, exchanger, amount);
      nfts := nfts[n := nfts[n].(owner := buyer)];
    }

    /** A buyer's offer the transaction may settle. */
    predicate Buys(offer: Offer, block: nat, to: Account, amount: nat)
      reads this
    {
      && offer.signer == Some(to) && Current(block, offer.block) && offer.amount == Some(amount)
      && BalanceOf(balances, to) >= amount
    }

    /** Who earns the fee when the owner or an approved exchanger sells. */
    function SellersExchanger(n: NftId, caller: Account, asked: Account): Option<Account>
      reads this
    {
      if caller == OwnerOf(n) then
        if Exclusive(n).Some? then Exclusive(n) else Some(asked)
      else if (n, caller) in approvals then
        if n in nfts && nfts[n].exchanger != NOBODY then
          if Exclusive(n).Some? && caller != Exclusive(n).value then None else Some(caller)
        else if caller != asked then None else Some(caller)
      else None
    }

    /** BuyNFTBySellerOrExchanger */
    method BuyBySellerOrExchanger(block: nat, caller: Account, to: Account, offer: Offer, amount: nat)
      returns (ok: bool)
      modifies this
      ensures ok <==> old(Buys(offer, block, to, amount)) && offer.nft.Some? && old(OwnerOf(offer.nft.value)) != NOBODY
                      && old(SellersExchanger(offer.nft.value, caller, offer.exchanger)).Some?
      ensures !ok ==> unchanged(this)
      ensures ok ==>
                Sold(offer.nft.value, to, old(SellersExchanger(offer.nft.value, caller, offer.exchanger)).value, amount)
    {
      if offer.signer.None? || !Current(block, offer.block) || to != offer.signer.value
         || offer.amount != Some(amount) {
        return false;
      }
      if offer.nft.None? || OwnerOf(offer.nft.value) == NOBODY || BalanceOf(balances, to) < amount {
        return false;
      }
      var exchanger := SellersExchanger(offer.nft.value, caller, offer.exchanger);
      if exchanger.None? {
        return false;
      }
      Sell(offer.nft.value, to, exchanger.value, amount);
      return true;
    }

    /** BuyNFTByBuyer: the caller buys from the owner who signed; the exchanger the NFT
        was minted for earns the fee even when its exchange is closed. */
    method BuyByBuyer(block: nat, caller: Account, offer: Offer, amount: nat) returns (ok: bool)
      modifies this
      ensures ok <==>
                offer.signer.Some? && Current(block, offer.block) && offer.amount == Some(amount) && offer.nft.Some?
                      && offer.signer.value != NOBODY && old(OwnerOf(offer.nft.value)) == offer.signer.value
                      && BalanceOf(old(balances), caller) >= amount
      ensures !ok ==> unchanged(this)
      ensures ok ==> offer.nft.value in old(nfts)
      ensures ok ==> var minted := old(nfts)[offer.nft.value].exchanger;
                Sold(offer.nft.value, caller, if minted != NOBODY then minted else offer.exchanger, amount)
    {
      if offer.signer.None? || !Current(block, offer.block) || offer.nft.None? {
        return false;
      }
      var n := offer.nft.value;
      if OwnerOf(n) == NOBODY || OwnerOf(n) != offer.signer.value || offer.amount != Some(amount)
         || BalanceOf(balances, caller) < amount {
        return false;
      }
      Sell(n, caller, if nfts[n].exchanger != NOBODY then nfts[n].exchanger else offer.exchanger, amount);
      return true;
    }

    /** A seller's offer to mint. */
    predicate Mints(offer: Offer, block: nat)
    {
      && offer.signer.Some? && Current(block, offer.block) && offer.amount.Some?
      && offer.royalty.Some? && 0 < offer.royalty.value < 10000 && offer.exclusive.Some?
    }

    /** BuyAndMintNFTByBuyer. `minted` is the new NFT unless minting fails. */
    method BuyAndMintByBuyer(block: nat, caller: Account, offer: Offer, amount: nat, minted: Option<NftId>)
      returns (ok: bool)
      requires minted.Some? ==> minted.value !in nfts
      modifies this
      ensures ok <==>
                Mints(offer, block) && offer.amount == Some(amount) && BalanceOf(old(balances), caller) >= amount
                  && minted.Some?
      ensures !ok ==> unchanged(this)
      ensures ok ==>
                MintedAndSold(minted.value, offer.signer.value, offer.royalty.value, offer.exclusive.value, caller,
                              offer.exchanger, amount)
    {
      if offer.signer.None? || !Current(block, offer.block) || offer.amount != Some(amount)
         || BalanceOf(balances, caller) < amount {
        return false;
      }
      if offer.royalty.None? || offer.royalty.value <= 0 || offer.royalty.value >= 10000 || offer.exclusive.None?
         || minted.None? {
        return false;
      }
      MintAndSell(minted.value, offer.signer.value, offer.royalty.value, offer.exclusive.value, caller, offer.exchanger,
                  amount);
      return true;
    }

    /** What buying and minting through an exchanger asks for. */
    predicate MintInOrder(block: nat, exchanger: Account, to: Account, buyer: Offer, seller: Offer, amount: nat)
      reads this
    {
      && Buys(buyer, block, to, amount) && Mints(seller, block) && amount >= seller.amount.value
      && exchanger in exchangers && buyer.exchanger == seller.exchanger == exchanger
    }

    /** BuyAndMintNFTByExchanger; the caller is the exchanger. */
    method BuyAndMintByExchanger(block: nat, caller: Account, to: Account, buyer: Offer, seller: Offer, amount: nat,
                                 minted: Option<NftId>)
      returns (ok: bool)
      requires minted.Some? ==> minted.value !in nfts
      modifies this
      ensures ok <==> old(MintInOrder(block, caller, to, buyer, seller, amount)) && minted.Some?
      ensures !ok ==> unchanged(this)
      ensures ok ==>
                MintedAndSold(minted.value, seller.signer.value, seller.royalty.value, seller.exclusive.value, to,
                              caller, amount)
    {
      if buyer.signer.None? || seller.signer.None? || to != buyer.signer.value || !Current(block, buyer.block)
         || !Current(block, seller.block) {
        return false;
      }
      if buyer.amount != Some(amount) || seller.amount.None? || amount < seller.amount.value
         || BalanceOf(balances, to) < amount {
        return false;
      }
      if caller !in exchangers || buyer.exchanger != caller || seller.exchanger != caller {
        return false;
      }
      if seller.royalty.None? || seller.royalty.value <= 0 || seller.royalty.value >= 10000 || seller.exclusive.None?
         || minted.None? {
        return false;
      }
      MintAndSell(minted.value, seller.signer.value, seller.royalty.value, seller.exclusive.value, to, caller, amount);
      return true;
    }

    /** BuyAndMintNFTByApprovedExchanger: the exchanger that authorised the caller stands
        in its place. */
    method BuyAndMintByApproved(block: nat, caller: Account, to: Account, buyer: Offer, seller: Offer, auth: Auth,
                                amount: nat, minted: Option<NftId>)
      returns (ok: bool)
      requires minted.Some? ==> minted.value !in nfts
      modifies this
      ensures ok <==> auth.signer.Some? && auth.to == caller && Current(block, auth.block)
                      && old(MintInOrder(block, auth.signer.value, to, buyer, seller, amount)) && minted.Some?
      ensures !ok ==> unchanged(this)
      ensures ok ==>
                MintedAndSold(minted.value, seller.signer.value, seller.royalty.value, seller.exclusive.value, to,
                              auth.signer.value, amount)
    {
      if auth.signer.None? || auth.to != caller || !Current(block, auth.block) {
        return false;
      }
      ok := BuyAndMintByExchanger(block, auth.signer.value, to, buyer, seller, amount, minted);
    }

    /** BuyNFTByApproveExchanger: an exchanger the NFT is approved to has authorised the
        caller, and earns the fee. */
    method BuyByApproveExchanger(block: nat, caller: Account, to: Account, offer: Offer, auth: Auth, amount: nat)
      returns (ok: bool)
      modifies this
      ensures ok <==> old(Buys(offer, block, to, amount)) && offer.nft.Some? && old(OwnerOf(offer.nft.value)) != NOBODY
                      && auth.signer.Some? && auth.to == caller && Current(block, auth.block)
                      && (offer.nft.value, auth.signer.value) in old(approvals)
                      && old(Exclusive(offer.nft.value)) in {None, auth.signer}
      ensures !ok ==> unchanged(this)
      ensures ok ==> Sold(offer.nft.value, to, auth.signer.value, amount)
    {
      if offer.signer.None? || auth.signer.None? || !Current(block, offer.block) || !Current(block, auth.block) {
        return false;
      }
      if to != offer.signer.value || auth.to != caller || offer.amount != Some(amount) || offer.nft.None? {
        return false;
      }
      var n, exchanger := offer.nft.value, auth.signer.value;
      if OwnerOf(n) == NOBODY || BalanceOf(balances, to) < amount || (n, exchanger) !in approvals {
        return false;
      }
      if nfts[n].exchanger != NOBODY && exchanger != nfts[n].exchanger && nfts[n].exchanger in exchangers {
        return false;
      }
      Sell(n, to, exchanger, amount);
      return true;
    }

    /** BuyNFTByExchanger: buyer and owner have both signed, and the caller earns the fee. */
    method BuyByExchanger(block: nat, caller: Account, to: Account, buyer: Offer, seller: Offer, amount: nat)
      returns (ok: bool)
      modifies this
      ensures ok <==>
                old(Buys(buyer, block, to, amount)) && Current(block, seller.block) && seller.amount == Some(amount)
                      && buyer.nft.Some? && buyer.nft == seller.nft && seller.signer.Some?
                        && seller.signer.value != NOBODY
                      && old(OwnerOf(buyer.nft.value)) == seller.signer.value
                        && old(Exclusive(buyer.nft.value)) in {None, Some(caller)}
                      && (old(nfts)[buyer.nft.value].exchanger == NOBODY ==>
                            caller == buyer.exchanger || caller == seller.exchanger)
      ensures !ok ==> unchanged(this)
      ensures ok ==> Sold(buyer.nft.value, to, caller, amount)
    {
      if buyer.signer.None? || seller.signer.None? || !Current(block, buyer.block) || !Current(block, seller.block)
         || to != buyer.signer.value {
        return false;
      }
      if buyer.amount != Some(amount) || seller.amount != Some(amount) || buyer.nft.None? || seller.nft.None?
         || buyer.nft != seller.nft {
        return false;
      }
      var n := seller.nft.value;
      if OwnerOf(n) == NOBODY || BalanceOf(balances, to) < amount || OwnerOf(n) != seller.signer.value {
        return false;
      }
      if nfts[n].exchanger != NOBODY {
        if caller != nfts[n].exchanger && nfts[n].exchanger in exchangers {
          return false;
        }
      } else if caller != buyer.exchanger && caller != seller.exchanger {
        return false;
      }
      Sell(n, to, caller, amount);
      return true;
    }
  }

  /** A sale at 10000 with a fee of half the price and a royalty of three fifths: the owner,
      who had nothing, owes a thousand. */
  method SaleOverdraws() returns (market: Market, ok: bool)
    ensures ok && market.OwnerOf(7) == 1 && BalanceOf(market.balances, 2) == -1000
  {
    market := new Market(map[1 := 10000], map[7 := Nft(2, 3, 6000, NOBODY)], {4}, map[4 := 5000]);
    var offer := Offer(Some(2), Some(10000), Some(0), Some(7), 4, None, None);
    ok := market.BuyByBuyer(0, 1, offer, 10000);
    assert Share(10000, 5000) == 5000 && Share(10000, 6000) == 6000;
  }
}
