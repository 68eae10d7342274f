/** The interface check of a pool: checkInterface in src/tokens/tokens.service.ts. */
module InterfaceCheck {
  import opened Wrappers
  import opened AbiMapper
  import opened Requests
  import Erc20
  import Erc721
  import FormCoding
  import TokensUtil

  datatype CheckError = InvalidPoolLocator

  /** The methods that can serve each operation. */
  datatype Interface = Interface(approval: seq<AbiMethod>, burn: seq<AbiMethod>, mint: seq<AbiMethod>, transfer: seq<AbiMethod>)

  function CheckInterface(poolLocator: string, methods: seq<AbiMethod>): Result<Interface, CheckError> {
    var locator := TokensUtil.UnpackPoolLocator(poolLocator);
    if !locator.Valid() then Err(InvalidPoolLocator)
    else if locator.tokenType == Some(TokensUtil.FUNGIBLE) then
      Ok(Interface(AllMethods(methods, Erc20.ApprovalMethods()), AllMethods(methods, Erc20.BurnMethods()),
                   AllMethods(methods, Erc20.MintMethods()), AllMethods(methods, Erc20.TransferMethods())))
    else
      Ok(Interface(AllMethods(methods, Erc721.ApprovalMethods()), AllMethods(methods, Erc721.BurnMethods()),
                   AllMethods(methods, Erc721.MintMethods()), AllMethods(methods, Erc721.TransferMethods())))
  }

  lemma CoversItself<D(!new)>(signatures: seq<MethodSignature<D>>)
    ensures Covers(signatures, signatures)
  {
    forall i | 0 <= i < |signatures| ensures Keeps(signatures, signatures[i]) {
      assert SameShape(signatures[i], signatures[i]);
    }
  }

  /** The list checked for one operation serves every later request for it as the whole ABI would. */
  lemma CheckedServesAs<D(!new)>(methods: seq<AbiMethod>, signatures: seq<MethodSignature<D>>, dto: D, c: Choice)
    ensures IsChoice(AllMethods(methods, signatures), signatures, dto, c) <==> IsChoice(methods, signatures, dto, c)
  {
    CoversItself(signatures);
    FilterKeepsChoice(methods, signatures, signatures, dto, c);
  }

  /** The interface answered for a pool serves all four operations, for every request, as the ABI it was asked about. */
  lemma InterfaceServesAs(poolLocator: string, methods: seq<AbiMethod>, approval: TokenApproval, burn: TokenBurn,
                          mint: TokenMint, transfer: TokenTransfer, c: Choice)
    requires CheckInterface(poolLocator, methods).Ok?
    ensures var answer := CheckInterface(poolLocator, methods).value;
            if TokensUtil.UnpackPoolLocator(poolLocator).tokenType == Some(TokensUtil.FUNGIBLE) then
              && (IsChoice(answer.approval, Erc20.ApprovalMethods(), approval, c) <==> IsChoice(methods, Erc20.ApprovalMethods(), approval, c))
              && (IsChoice(answer.burn, Erc20.BurnMethods(), burn, c) <==> IsChoice(methods, Erc20.BurnMethods(), burn, c))
              && (IsChoice(answer.mint, Erc20.MintMethods(), mint, c) <==> IsChoice(methods, Erc20.MintMethods(), mint, c))
              && (IsChoice(answer.transfer, Erc20.TransferMethods(), transfer, c) <==> IsChoice(methods, Erc20.TransferMethods(), transfer, c))
            else
              && (IsChoice(answer.approval, Erc721.ApprovalMethods(), approval, c) <==> IsChoice(methods, Erc721.ApprovalMethods(), approval, c))
              && (IsChoice(answer.burn, Erc721.BurnMethods(), burn, c) <==> IsChoice(methods, Erc721.BurnMethods(), burn, c))
              && (IsChoice(answer.mint, Erc721.MintMethods(), mint, c) <==> IsChoice(methods, Erc721.MintMethods(), mint, c))
              && (IsChoice(answer.transfer, Erc721.TransferMethods(), transfer, c) <==> IsChoice(methods, Erc721.TransferMethods(), transfer, c))
  {
    hide AllMethods, IsChoice, TokensUtil.UnpackPoolLocator;
    hide Erc20.ApprovalMethods, Erc20.BurnMethods, Erc20.MintMethods, Erc20.TransferMethods;
    hide Erc721.ApprovalMethods, Erc721.BurnMethods, Erc721.MintMethods, Erc721.TransferMethods;
    CheckedServesAs(methods, Erc20.ApprovalMethods(), approval, c);
    CheckedServesAs(methods, Erc20.BurnMethods(), burn, c);
    CheckedServesAs(methods, Erc20.MintMethods(), mint, c);
    CheckedServesAs(methods, Erc20.TransferMethods(), transfer, c);
    CheckedServesAs(methods, Erc721.ApprovalMethods(), approval, c);
    CheckedServesAs(methods, Erc721.BurnMethods(), burn, c);
    CheckedServesAs(methods, Erc721.MintMethods(), mint, c);
    CheckedServesAs(methods, Erc721.TransferMethods(), transfer, c);
  }

  /** The locator has an address, a schema under its new or its old name, and a type. */
  ghost predicate Complete(poolLocator: string) {
    var fields := FormCoding.Parse(poolLocator);
    && FormCoding.Get(fields, "address").Some? && FormCoding.Get(fields, "type").Some?
    && (FormCoding.Get(fields, "schema").Some? || FormCoding.Get(fields, "standard").Some?)
  }

  /** Only an incomplete locator is refused. */
  lemma RefusedIff(poolLocator: string, methods: seq<AbiMethod>)
    ensures CheckInterface(poolLocator, methods) == Err(InvalidPoolLocator) <==> !Complete(poolLocator)
    ensures CheckInterface(poolLocator, methods).Ok? <==> Complete(poolLocator)
  {
    hide AllMethods, FormCoding.Parse, FormCoding.Get;
  }

  /** A list is what a table of signatures leaves of some methods: those that match one, and each as often as it was there. */
  ghost predicate LeftBy<D(!new)>(left: seq<AbiMethod>, methods: seq<AbiMethod>, signatures: seq<MethodSignature<D>>) {
    forall m :: multiset(left)[m] == if MatchesAny(m, signatures) then multiset(methods)[m] else 0
  }

  lemma CheckedLeaves<D(!new)>(methods: seq<AbiMethod>, signatures: seq<MethodSignature<D>>)
    requires Distinct(signatures)
    ensures LeftBy(AllMethods(methods, signatures), methods, signatures)
  {
    forall m ensures multiset(AllMethods(methods, signatures))[m] == if MatchesAny(m, signatures) then multiset(methods)[m] else 0 {
      FilterListsEachOnce(methods, signatures, m);
    }
  }

  /** The interface answered for a pool lists nothing that its operations have no use for, and each method once for each time it was offered. */
  lemma InterfaceListsOnly(poolLocator: string, methods: seq<AbiMethod>)
    requires CheckInterface(poolLocator, methods).Ok?
    ensures var answer := CheckInterface(poolLocator, methods).value;
            if TokensUtil.UnpackPoolLocator(poolLocator).tokenType == Some("fungible") then
              && LeftBy(answer.approval, methods, Erc20.ApprovalMethods()) && LeftBy(answer.burn, methods, Erc20.BurnMethods())
              && LeftBy(answer.mint, methods, Erc20.MintMethods()) && LeftBy(answer.transfer, methods, Erc20.TransferMethods())
            else
              && LeftBy(answer.approval, methods, Erc721.ApprovalMethods()) && LeftBy(answer.burn, methods, Erc721.BurnMethods())
              && LeftBy(answer.mint, methods, Erc721.MintMethods()) && LeftBy(answer.transfer, methods, Erc721.TransferMethods())
  {
    Erc20.ApprovalTable();
    Erc20.BurnTable();
    Erc20.MintTable();
    Erc20.TransferTable();
    Erc721.ApprovalTable();
    Erc721.BurnTable();
    Erc721.MintTable();
    Erc721.TransferTable();
    hide AllMethods, LeftBy, Distinct, FillsInputs, CarriesData, TokensUtil.UnpackPoolLocator;
    hide Erc20.ApprovalMethods, Erc20.BurnMethods, Erc20.MintMethods, Erc20.TransferMethods;
    hide Erc721.ApprovalMethods, Erc721.BurnMethods, Erc721.MintMethods, Erc721.TransferMethods;
    CheckedLeaves(methods, Erc20.ApprovalMethods());
    CheckedLeaves(methods, Erc20.BurnMethods());
    CheckedLeaves(methods, Erc20.MintMethods());
    CheckedLeaves(methods, Erc20.TransferMethods());
    CheckedLeaves(methods, Erc721.ApprovalMethods());
    CheckedLeaves(methods, Erc721.BurnMethods());
    CheckedLeaves(methods, Erc721.MintMethods());
    CheckedLeaves(methods, Erc721.TransferMethods());
  }
}
