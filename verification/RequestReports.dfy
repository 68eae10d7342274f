/** From a request to the report of the log it leads to: what was asked is what is reported. */
module RequestReports {
  import opened Wrappers
  import opened AbiMapper
  import opened Requests
  import opened TokensListener
  import Erc20
  import Erc721
  import EventIds
  import Hex
  import Ledger
  import TokensUtil

  /** A log of a call carries the bytes argument of the call, if its method has one, as its input data. */
  ghost predicate LogOf(c: Choice, event: Event) {
    && c.Chosen? && c.chosen.inputs.Some? && |c.values| == |c.chosen.inputs.value|
    && EventIds.ParseBigInt(event.transactionIndex).Some?
    && (event.inputData.None? <==> forall k :: 0 <= k < |c.values| ==> c.chosen.inputs.value[k].inputType != "bytes")
    && (event.inputData.Some? ==> exists k :: 0 <= k < |c.values| && c.chosen.inputs.value[k].inputType == "bytes"
                                             && c.values[k] == Text(event.inputData.value))
  }

  /** The data reported for a log is the data of the request, if the method of the call has an input for it. */
  lemma DataIsReported<D(!new)>(abi: seq<AbiMethod>, signatures: seq<MethodSignature<D>>, data: D -> Option<string>, dto: D,
                                c: Choice, event: Event)
    requires FillsInputs(signatures) && CarriesData(signatures, data)
    requires IsChoice(abi, signatures, dto, c) && LogOf(c, event)
    ensures DecodedData(event) == if event.inputData.Some? then Received(data(dto)) else ""
  {
    if event.inputData.Some? {
      var k: nat :| k < |c.values| && c.chosen.inputs.value[k].inputType == "bytes" && c.values[k] == Text(event.inputData.value);
      DataComesBack(abi, signatures, data, dto, c, k);
    } else {
      assert Hex.ToBytes(Hex.StripPrefix("")) == [];
    }
  }

  function Name(locator: TokensUtil.PoolLocator, event: string, poolData: Option<string>): string
    requires locator.Valid()
  {
    TokensUtil.PackSubscriptionName(TokensUtil.PackPoolLocator(locator), event, poolData)
  }

  /** The flag the listener reads off an Approval log. */
  function ReportedFlag(locator: TokensUtil.PoolLocator, output: ApprovalOutput): Option<bool> {
    if locator.tokenType == Some(TokensUtil.FUNGIBLE) then Erc20.ReportedApproved(output.value) else Some(Erc721.ReportedApproved(output.approved))
  }

  /** The report of an Approval log of a pool, whatever request it comes from. */
  ghost predicate Reports(locator: TokensUtil.PoolLocator, poolData: Option<string>, event: Event, output: ApprovalOutput,
                          outcome: Outcome<ApprovalMessage>)
    requires locator.Valid() && EventIdOf(event).Some?
  {
    if ReportedFlag(locator, output).None? then outcome.Threw?
    else
      && outcome.Sent?
      && var m := outcome.message;
      && m.poolLocator == TokensUtil.PackPoolLocator(locator) && m.poolData == poolData
      && m.operator == (if locator.tokenType == Some(TokensUtil.FUNGIBLE) then output.spender else output.approved)
      && m.approved == ReportedFlag(locator, output).value
      && m.data == DecodedData(event)
      && m.subject == (if locator.tokenType == Some(TokensUtil.FUNGIBLE) then Some(output.owner + ":" + output.spender) else output.tokenId)
      && m.signer == output.owner && m.id == EventIdOf(event).value
      && m.name == StripParamsFromSignature(TrimEventSignature(event.signature))
  }

  lemma UnpackedApproval(subName: string, locator: TokensUtil.PoolLocator, poolData: Option<string>, event: Event, output: ApprovalOutput)
    requires locator.Valid() && EventIdOf(event).Some?
    requires var sub := TokensUtil.UnpackSubscriptionName(subName);
             && sub.Ok? && sub.value.poolLocator == Some(TokensUtil.PackPoolLocator(locator)) && sub.value.poolData == poolData
    requires TokensUtil.UnpackPoolLocator(TokensUtil.PackPoolLocator(locator)) == locator
    ensures Reports(locator, poolData, event, output, ApprovalOutcome(subName, event, output))
  {
    hide TokensUtil.UnpackSubscriptionName, TokensUtil.PackPoolLocator, TokensUtil.UnpackPoolLocator;
    hide EventIdOf, DecodedData, Erc20.ReportedApproved, Erc721.ReportedApproved, StripParamsFromSignature, TrimEventSignature;
  }

  lemma ApprovalReports(locator: TokensUtil.PoolLocator, poolData: Option<string>, event: Event, output: ApprovalOutput)
    requires locator.Valid() && EventIds.ParseBigInt(event.transactionIndex).Some?
    ensures EventIdOf(event).Some?
    ensures Reports(locator, poolData, event, output, ApprovalOutcome(Name(locator, "Approval", poolData), event, output))
  {
    assert EventIdOf(event).Some?;
    hide ApprovalOutcome, Reports, EventIdOf;
    hide TokensUtil.PackSubscriptionName, TokensUtil.UnpackSubscriptionName, TokensUtil.PackPoolLocator, TokensUtil.UnpackPoolLocator;
    TokensUtil.ActivationDataReturns(locator, "Approval", poolData);
    UnpackedApproval(Name(locator, "Approval", poolData), locator, poolData, event, output);
  }

  /** The report of an Approval log for a fungible token, against the request the log comes from. */
  ghost predicate FungibleAsAsked(dto: TokenApproval, event: Event, outcome: Outcome<ApprovalMessage>) {
    var allowance := if dto.allowance.Some? then EventIds.ParseBigInt(dto.allowance.value) else Some(Erc20.UINT256_MAX);
    if dto.approved && allowance.None? then outcome.Threw?
    else
      && outcome.Sent?
      && outcome.message.operator == dto.operator
      && outcome.message.data == (if event.inputData.Some? then Received(dto.data) else "")
      && (outcome.message.approved == dto.approved <==> !dto.approved || allowance.value > 0)
  }

  /**
   * The report of an Approval log for a fungible token names the operator asked and carries the data asked.
   * It says approved as asked, unless approval was asked for an allowance of nothing or less; with an
   * allowance that is no number the listener throws.
   */
  lemma FungibleApprovalIsReported(abi: seq<AbiMethod>, dto: TokenApproval, c: Choice, locator: TokensUtil.PoolLocator,
                                   poolData: Option<string>, event: Event, output: ApprovalOutput)
    requires IsChoice(abi, Erc20.ApprovalMethods(), dto, c) && LogOf(c, event)
    requires locator.Valid() && locator.tokenType == Some(TokensUtil.FUNGIBLE)
    requires output.value.Some? && Erc20.EffectOf(c, dto.signer) == Erc20.Approves(Text(output.spender), Text(output.value.value))
    ensures FungibleAsAsked(dto, event, ApprovalOutcome(Name(locator, "Approval", poolData), event, output))
  {
    Erc20.ApprovalTable();
    DataIsReported(abi, Erc20.ApprovalMethods(), (d: TokenApproval) => d.data, dto, c, event);
    Erc20.ApprovalIsAsAsked(abi, dto, c);
    Erc20.ReportedIsAsked(dto);
    ApprovalReports(locator, poolData, event, output);
    hide IsChoice, LogOf, Erc20.ApprovalMethods, Erc20.EffectOf, Erc20.Allowance, EventIds.ParseBigInt, DecodedData, ApprovalOutcome, Name;
  }

  /**
   * The report of an Approval log for one non-fungible token names the token asked, carries the data asked,
   * and says approved as asked, unless the zero address was to be approved. The operator is the one asked,
   * or the zero address when approval was withdrawn.
   */
  lemma TokenApprovalIsReported(abi: seq<AbiMethod>, dto: TokenApproval, c: Choice, locator: TokensUtil.PoolLocator,
                                poolData: Option<string>, event: Event, output: ApprovalOutput)
    requires IsChoice(abi, Erc721.ApprovalMethods(), dto, c) && LogOf(c, event)
    requires locator.Valid() && locator.tokenType != Some(TokensUtil.FUNGIBLE)
    requires output.tokenId.Some? && Erc721.EffectOf(c) == Erc721.ApprovesToken(Text(output.approved), Text(output.tokenId.value))
    ensures var outcome := ApprovalOutcome(Name(locator, "Approval", poolData), event, output);
            && outcome.Sent?
            && outcome.message.subject == dto.tokenIndex
            && outcome.message.operator == (if dto.approved then dto.operator else ZERO_ADDRESS)
            && outcome.message.data == (if event.inputData.Some? then Received(dto.data) else "")
            && (outcome.message.approved == dto.approved <==> !dto.approved || dto.operator != ZERO_ADDRESS)
  {
    Erc721.ApprovalTable();
    DataIsReported(abi, Erc721.ApprovalMethods(), (d: TokenApproval) => d.data, dto, c, event);
    Erc721.ApprovalIsAsAsked(abi, dto, c);
    ApprovalReports(locator, poolData, event, output);
    hide IsChoice, LogOf, Erc721.ApprovalMethods, Erc721.EffectOf, EventIds.ParseBigInt, DecodedData, ApprovalOutcome, Name, ZERO_ADDRESS;
  }

  /** The report of an ApprovalForAll log of a pool, whatever request it comes from. */
  ghost predicate ReportsAll(locator: TokensUtil.PoolLocator, poolData: Option<string>, event: Event, output: ApprovalForAllOutput,
                             outcome: Outcome<ApprovalMessage>)
    requires locator.Valid() && EventIdOf(event).Some?
  {
    && outcome.Sent?
    && outcome.message.poolLocator == TokensUtil.PackPoolLocator(locator) && outcome.message.poolData == poolData
    && outcome.message.operator == output.operator && outcome.message.approved == output.approved
    && outcome.message.data == DecodedData(event)
    && outcome.message.subject == Some(output.owner + ":" + output.operator)
    && outcome.message.signer == output.owner && outcome.message.id == EventIdOf(event).value
    && outcome.message.name == StripParamsFromSignature(event.signature)
  }

  lemma UnpackedApprovalForAll(subName: string, locator: TokensUtil.PoolLocator, poolData: Option<string>, event: Event,
                               output: ApprovalForAllOutput)
    requires locator.Valid() && EventIdOf(event).Some?
    requires var sub := TokensUtil.UnpackSubscriptionName(subName);
             && sub.Ok? && sub.value.poolLocator == Some(TokensUtil.PackPoolLocator(locator)) && sub.value.poolData == poolData
    ensures ReportsAll(locator, poolData, event, output, ApprovalForAllOutcome(subName, event, output))
  {
    hide TokensUtil.UnpackSubscriptionName, TokensUtil.PackPoolLocator, EventIdOf, DecodedData, StripParamsFromSignature;
  }

  lemma ApprovalForAllReports(locator: TokensUtil.PoolLocator, poolData: Option<string>, event: Event, output: ApprovalForAllOutput)
    requires locator.Valid() && EventIds.ParseBigInt(event.transactionIndex).Some?
    ensures EventIdOf(event).Some?
    ensures ReportsAll(locator, poolData, event, output,
                       ApprovalForAllOutcome(Name(locator, "ApprovalForAll", poolData), event, output))
  {
    assert EventIdOf(event).Some?;
    hide ApprovalForAllOutcome, ReportsAll, EventIdOf;
    hide TokensUtil.PackSubscriptionName, TokensUtil.UnpackSubscriptionName, TokensUtil.PackPoolLocator, TokensUtil.UnpackPoolLocator;
    TokensUtil.ActivationDataReturns(locator, "ApprovalForAll", poolData);
    UnpackedApprovalForAll(Name(locator, "ApprovalForAll", poolData), locator, poolData, event, output);
  }

  /** The report of an ApprovalForAll log names the operator asked, says approved as asked and carries the data asked. */
  lemma AllApprovalIsReported(abi: seq<AbiMethod>, dto: TokenApproval, c: Choice, locator: TokensUtil.PoolLocator,
                              poolData: Option<string>, event: Event, output: ApprovalForAllOutput)
    requires IsChoice(abi, Erc721.ApprovalMethods(), dto, c) && LogOf(c, event)
    requires locator.Valid()
    requires Erc721.EffectOf(c) == Erc721.ApprovesAll(Text(output.operator), Flag(output.approved))
    ensures var outcome := ApprovalForAllOutcome(Name(locator, "ApprovalForAll", poolData), event, output);
            && dto.tokenIndex.None?
            && outcome.Sent?
            && outcome.message.operator == dto.operator && outcome.message.approved == dto.approved
            && outcome.message.poolLocator == TokensUtil.PackPoolLocator(locator) && outcome.message.poolData == poolData
            && outcome.message.data == (if event.inputData.Some? then Received(dto.data) else "")
  {
    Erc721.ApprovalTable();
    DataIsReported(abi, Erc721.ApprovalMethods(), (d: TokenApproval) => d.data, dto, c, event);
    Erc721.ApprovalIsAsAsked(abi, dto, c);
    ApprovalForAllReports(locator, poolData, event, output);
    hide IsChoice, LogOf, Erc721.ApprovalMethods, Erc721.EffectOf, DecodedData, ApprovalForAllOutcome, Name;
  }

  // ---- transfers ----

  /** A party that the report of a transfer names: none when it is the zero address. */
  function Party(address: string): Option<string> {
    if address == ZERO_ADDRESS then None else Some(address)
  }

  /**
   * The report of the Transfer log of a fungible transfer request names the holder, the receiver and the
   * amount asked, and carries the data asked. Only a request from no one to no one is not reported.
   */
  lemma FungibleTransferIsReported(abi: seq<AbiMethod>, dto: TokenTransfer, c: Choice, pool: Ledger.Pool, log: Ledger.Log, tokenUri: TokenUri)
    requires IsChoice(abi, Erc20.TransferMethods(), dto, c) && LogOf(c, log.event)
    requires pool.locator.Valid() && pool.locator.tokenType == Some(TokensUtil.FUNGIBLE)
    requires Erc20.EffectOf(c, dto.signer) == Erc20.Transfers(Text(log.output.from), Text(log.output.to), Given(log.output.value))
    ensures var outcome := TransferOutcome(Ledger.SubName(pool), log.event, log.output, tokenUri);
            if dto.from == ZERO_ADDRESS && dto.to == ZERO_ADDRESS then outcome.Dropped?
            else
              && outcome.Sent?
              && outcome.message.from == Party(dto.from) && outcome.message.to == Party(dto.to)
              && outcome.message.amount == dto.amount
              && outcome.message.data == (if log.event.inputData.Some? then Received(dto.data) else "")
  {
    Erc20.TransferTable();
    DataIsReported(abi, Erc20.TransferMethods(), (d: TokenTransfer) => d.data, dto, c, log.event);
    Erc20.TransferIsAsAsked(abi, dto, c);
    Ledger.OneLog(pool, log, tokenUri);
    hide IsChoice, LogOf, Erc20.TransferMethods, Erc20.EffectOf, TransferOutcome, Ledger.SubName, EventIds.ParseBigInt, EventIdOf;
    hide DecodedData, ZERO_ADDRESS;
  }

  /**
   * The report of the Transfer log of a non-fungible mint request names the receiver asked and, if one was
   * asked for, the token index, in the amount of one, and carries the data asked.
   */
  lemma MintIsReported(abi: seq<AbiMethod>, dto: TokenMint, c: Choice, pool: Ledger.Pool, log: Ledger.Log, tokenUri: TokenUri)
    requires IsChoice(abi, Erc721.MintMethods(), dto, c) && LogOf(c, log.event)
    requires pool.locator.Valid() && pool.locator.tokenType == Some(TokensUtil.NONFUNGIBLE)
    requires log.output.from == ZERO_ADDRESS && log.output.to != ZERO_ADDRESS && log.output.tokenId.Some?
    requires Erc721.EffectOf(c).Mints? && Erc721.EffectOf(c).to == Text(log.output.to)
    requires Erc721.EffectOf(c).index.Some? && Erc721.EffectOf(c).index.value.Text? ==>
               Erc721.EffectOf(c).index.value.text == log.output.tokenId.value
    ensures var outcome := TransferOutcome(Ledger.SubName(pool), log.event, log.output, tokenUri);
            && outcome.Sent? && outcome.message.kind == TransferKind.TokenMint
            && outcome.message.to == Some(dto.to) && outcome.message.amount == Some("1")
            && (dto.amount.Some? ==> outcome.message.amount == dto.amount)
            && (dto.tokenIndex.Some? ==> outcome.message.tokenIndex == dto.tokenIndex)
            && outcome.message.data == (if log.event.inputData.Some? then Received(dto.data) else "")
  {
    Erc721.MintFillsInputs();
    Erc721.MintCarriesData();
    DataIsReported(abi, Erc721.MintMethods(), (d: TokenMint) => d.data, dto, c, log.event);
    Erc721.ChosenMint(abi, dto, c);
    Ledger.OneLog(pool, log, tokenUri);
    hide IsChoice, LogOf, Erc721.MintMethods, Erc721.EffectOf, TransferOutcome, Ledger.SubName, EventIds.ParseBigInt, EventIdOf;
    hide DecodedData;
  }

  /** The report of the Transfer log of a fungible mint request names the receiver and amount asked, and carries the data asked. */
  lemma FungibleMintIsReported(abi: seq<AbiMethod>, dto: TokenMint, c: Choice, pool: Ledger.Pool, log: Ledger.Log, tokenUri: TokenUri)
    requires IsChoice(abi, Erc20.MintMethods(), dto, c) && LogOf(c, log.event)
    requires pool.locator.Valid() && pool.locator.tokenType == Some(TokensUtil.FUNGIBLE)
    requires log.output.from == ZERO_ADDRESS
    requires Erc20.EffectOf(c, dto.signer) == Erc20.Mints(Text(log.output.to), Given(log.output.value))
    ensures var outcome := TransferOutcome(Ledger.SubName(pool), log.event, log.output, tokenUri);
            if dto.to == ZERO_ADDRESS then outcome.Dropped?
            else
              && outcome.Sent? && outcome.message.kind == TransferKind.TokenMint
              && outcome.message.from == None && outcome.message.to == Some(dto.to)
              && outcome.message.amount == dto.amount
              && outcome.message.data == (if log.event.inputData.Some? then Received(dto.data) else "")
  {
    Erc20.MintTable();
    DataIsReported(abi, Erc20.MintMethods(), (d: TokenMint) => d.data, dto, c, log.event);
    Erc20.MintIsAsAsked(abi, dto, c);
    Ledger.OneLog(pool, log, tokenUri);
    hide IsChoice, LogOf, Erc20.MintMethods, Erc20.EffectOf, TransferOutcome, Ledger.SubName, EventIds.ParseBigInt, EventIdOf;
    hide DecodedData, ZERO_ADDRESS;
  }

  /** The report of the Transfer log of a fungible burn request names the holder and amount asked, and carries the data asked. */
  lemma FungibleBurnIsReported(abi: seq<AbiMethod>, dto: TokenBurn, c: Choice, pool: Ledger.Pool, log: Ledger.Log, tokenUri: TokenUri)
    requires IsChoice(abi, Erc20.BurnMethods(), dto, c) && LogOf(c, log.event)
    requires pool.locator.Valid() && pool.locator.tokenType == Some(TokensUtil.FUNGIBLE)
    requires log.output.to == ZERO_ADDRESS
    requires Erc20.EffectOf(c, dto.signer) == Erc20.Burns(Text(log.output.from), Given(log.output.value))
    ensures var outcome := TransferOutcome(Ledger.SubName(pool), log.event, log.output, tokenUri);
            if dto.from == ZERO_ADDRESS then outcome.Dropped?
            else
              && outcome.Sent? && outcome.message.kind == TransferKind.TokenBurn
              && outcome.message.from == Some(dto.from) && outcome.message.to == None
              && outcome.message.amount == dto.amount
              && outcome.message.data == (if log.event.inputData.Some? then Received(dto.data) else "")
  {
    Erc20.BurnTable();
    DataIsReported(abi, Erc20.BurnMethods(), (d: TokenBurn) => d.data, dto, c, log.event);
    Erc20.BurnIsAsAsked(abi, dto, c);
    Ledger.OneLog(pool, log, tokenUri);
    hide IsChoice, LogOf, Erc20.BurnMethods, Erc20.EffectOf, TransferOutcome, Ledger.SubName, EventIds.ParseBigInt, EventIdOf;
    hide DecodedData, ZERO_ADDRESS;
  }

  /**
   * The report of the Transfer log of a non-fungible transfer request names the holder, the receiver and the
   * token asked, in the amount of one, and carries the data asked. Only a request from no one to no one is
   * not reported.
   */
  lemma TokenTransferIsReported(abi: seq<AbiMethod>, dto: TokenTransfer, c: Choice, pool: Ledger.Pool, log: Ledger.Log, tokenUri: TokenUri)
    requires IsChoice(abi, Erc721.TransferMethods(), dto, c) && LogOf(c, log.event)
    requires pool.locator.Valid() && pool.locator.tokenType == Some(TokensUtil.NONFUNGIBLE)
    requires Erc721.EffectOf(c) == Erc721.Transfers(Text(log.output.from), Text(log.output.to), Some(Given(log.output.tokenId)))
    ensures var outcome := TransferOutcome(Ledger.SubName(pool), log.event, log.output, tokenUri);
            && (dto.amount.Some? ==> dto.amount.value == "1")
            && if dto.from == ZERO_ADDRESS && dto.to == ZERO_ADDRESS then outcome.Dropped?
               else
                 && outcome.Sent?
                 && outcome.message.from == Party(dto.from) && outcome.message.to == Party(dto.to)
                 && outcome.message.tokenIndex == dto.tokenIndex && outcome.message.amount == Some("1")
                 && outcome.message.data == (if log.event.inputData.Some? then Received(dto.data) else "")
  {
    Erc721.TransferTable();
    Erc721.TransferCarriesData();
    DataIsReported(abi, Erc721.TransferMethods(), (d: TokenTransfer) => d.data, dto, c, log.event);
    Erc721.TransferIsAsAskedOrRejected(abi, dto, c);
    Ledger.OneLog(pool, log, tokenUri);
    hide IsChoice, LogOf, Erc721.TransferMethods, Erc721.EffectOf, TransferOutcome, Ledger.SubName, EventIds.ParseBigInt, EventIdOf;
    hide DecodedData, ZERO_ADDRESS;
  }

  /**
   * The report of the Transfer log of a non-fungible burn request names the token asked, in the amount of
   * one, and carries the data asked; and the holder asked, if the method of the call names one.
   */
  lemma TokenBurnIsReported(abi: seq<AbiMethod>, dto: TokenBurn, c: Choice, pool: Ledger.Pool, log: Ledger.Log, tokenUri: TokenUri)
    requires IsChoice(abi, Erc721.BurnMethods(), dto, c) && LogOf(c, log.event)
    requires pool.locator.Valid() && pool.locator.tokenType == Some(TokensUtil.NONFUNGIBLE)
    requires log.output.to == ZERO_ADDRESS && log.output.from != ZERO_ADDRESS
    requires Erc721.EffectOf(c).Burns? && Erc721.EffectOf(c).index == Some(Given(log.output.tokenId))
    requires Erc721.EffectOf(c).holder.Some? ==> Erc721.EffectOf(c).holder.value == Text(log.output.from)
    ensures var outcome := TransferOutcome(Ledger.SubName(pool), log.event, log.output, tokenUri);
            && (dto.amount.Some? ==> dto.amount.value == "1")
            && outcome.Sent? && outcome.message.kind == TransferKind.TokenBurn
            && outcome.message.tokenIndex == dto.tokenIndex && outcome.message.amount == Some("1")
            && (!Matches(c.chosen, Erc721.BurnMethods()[1]) ==> outcome.message.from == Some(dto.from))
            && outcome.message.data == (if log.event.inputData.Some? then Received(dto.data) else "")
  {
    Erc721.BurnTable();
    Erc721.BurnCarriesData();
    DataIsReported(abi, Erc721.BurnMethods(), (d: TokenBurn) => d.data, dto, c, log.event);
    Erc721.BurnIsAsAskedOrRejected(abi, dto, c);
    Ledger.OneLog(pool, log, tokenUri);
    assert |Erc721.BurnMethods()| > 1;
    hide IsChoice, LogOf, Erc721.BurnMethods, Erc721.EffectOf, TransferOutcome, Ledger.SubName, EventIds.ParseBigInt, EventIdOf;
    hide DecodedData, Matches;
  }
}
