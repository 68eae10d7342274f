/** What the connector reports for the logs of token contracts: src/tokens/tokens.listener.ts. */
module TokensListener {
  import opened Wrappers
  import opened TokensUtil
  import Erc20
  import Erc721
  import EventIds
  import Hex

  const ZERO_ADDRESS := Erc721.ZERO_ADDRESS

  /** The fields of a log that every message takes something from; `inputData` is `inputArgs?.data`. */
  datatype Event = Event(signature: string, blockNumber: Option<string>, transactionIndex: string, logIndex: Option<string>,
                         inputData: Option<string>, inputSigner: Option<string>)

  datatype TransferOutput = TransferOutput(from: string, to: string, value: Option<string>, tokenId: Option<string>)

  /** The data of both Approval events: spender and value of EIP-20, approved and tokenId of EIP-721. */
  datatype ApprovalOutput = ApprovalOutput(owner: string, spender: string, value: Option<string>, approved: string, tokenId: Option<string>)

  datatype ApprovalForAllOutput = ApprovalForAllOutput(owner: string, operator: string, approved: bool)

  datatype TransferKind = TokenMint | TokenBurn | TokenTransfer

  datatype TransferMessage = TransferMessage(kind: TransferKind, id: string, poolLocator: string, poolData: Option<string>,
                                             amount: Option<string>, tokenIndex: Option<string>, uri: Option<string>,
                                             from: Option<string>, to: Option<string>, signer: Option<string>, data: string, name: string)

  datatype ApprovalMessage = ApprovalMessage(id: string, poolLocator: string, poolData: Option<string>, subject: Option<string>,
                                             operator: string, approved: bool, signer: string, data: string, name: string)

  /** A listener sends a message, sends none, or throws: a URIError on the name, or a SyntaxError of BigInt. */
  datatype Outcome<+M> = Sent(message: M) | Dropped | Threw

  // ---- signatures ----

  function IndexOf(s: string, c: char): (i: int)
    ensures -1 <= i < |s|
    ensures i == -1 <==> c !in s
    ensures i >= 0 ==> s[i] == c && c !in s[..i]
  {
    if s == "" then -1
    else if s[0] == c then 0
    else
      var i := IndexOf(s[1..], c);
      if i == -1 then -1
      else
        assert s[..i + 1] == [s[0]] + s[1..][..i];
        i + 1
  }

  /** Without a parenthesis nothing is left: substring takes an end below zero as zero. */
  function StripParamsFromSignature(signature: string): string {
    var i := IndexOf(signature, '(');
    if i == -1 then "" else signature[..i]
  }

  function TrimEventSignature(signature: string): string {
    var i := IndexOf(signature, ':');
    if i > 0 then signature[i + 1..] else signature
  }

  lemma NameBeforeParams(name: string, params: string)
    requires '(' !in name
    ensures StripParamsFromSignature(name + "(" + params) == name
  {
    FirstIndex(name, '(', params);
    assert (name + "(" + params)[..|name|] == name;
  }

  lemma PrefixIsTrimmed(prefix: string, rest: string)
    requires prefix != "" && ':' !in prefix
    ensures TrimEventSignature(prefix + ":" + rest) == rest
  {
    FirstIndex(prefix, ':', rest);
    assert (prefix + ":" + rest)[|prefix| + 1..] == rest;
  }

  /**
   * The name of an event is found behind a prefix that ends in a colon, if the prefix is trimmed, and it stays
   * behind one that is not. Without a prefix nothing is trimmed.
   */
  lemma TrimmedName(prefix: string, name: string, params: string)
    requires prefix != "" && ':' !in prefix && '(' !in prefix && '(' !in name
    ensures StripParamsFromSignature(TrimEventSignature(prefix + ":" + (name + "(" + params))) == name
    ensures StripParamsFromSignature(prefix + ":" + (name + "(" + params)) == prefix + ":" + name
    ensures ':' !in name && ':' !in params ==> StripParamsFromSignature(TrimEventSignature(name + "(" + params)) == name
  {
    hide StripParamsFromSignature, TrimEventSignature;
    PrefixIsTrimmed(prefix, name + "(" + params);
    NameBeforeParams(name, params);
    UntrimmedName(prefix, name, params);
    PlainName(name, params);
  }

  lemma UntrimmedName(prefix: string, name: string, params: string)
    requires '(' !in prefix && '(' !in name
    ensures StripParamsFromSignature(prefix + ":" + (name + "(" + params)) == prefix + ":" + name
  {
    hide StripParamsFromSignature;
    NameBeforeParams(prefix + ":" + name, params);
    assert prefix + ":" + (name + "(" + params) == prefix + ":" + name + "(" + params;
  }

  lemma PlainName(name: string, params: string)
    requires '(' !in name
    ensures ':' !in name && ':' !in params ==> StripParamsFromSignature(TrimEventSignature(name + "(" + params)) == name
  {
    hide StripParamsFromSignature, TrimEventSignature;
    NameBeforeParams(name, params);
    if ':' !in name && ':' !in params {
      NothingTrimmed(name + "(" + params);
    }
  }

  lemma NothingTrimmed(signature: string)
    requires ':' !in signature
    ensures TrimEventSignature(signature) == signature
  {
  }

  lemma FirstIndex(a: string, c: char, b: string)
    requires c !in a
    ensures IndexOf(a + [c] + b, c) == |a|
  {
    var s := a + [c] + b;
    assert s[|a|] == c && forall k :: 0 <= k < |a| ==> s[k] == a[k] != c;
    assert forall i :: |a| < i <= |s| ==> s[..i][|a|] == c;
  }

  // ---- transfers ----

  function DecodedData(event: Event): string {
    Hex.DecodeHex(if event.inputData.Some? then event.inputData.value else "")
  }

  function EventIdOf(event: Event): Option<string> {
    EventIds.FormatEventId(event.blockNumber, event.transactionIndex, event.logIndex)
  }

  /** The identifier in a report is that of the position of the log. */
  lemma EventIdOfPosition(event: Event, p: EventIds.Position)
    requires event.blockNumber == Some(EventIds.Digits(p.block)) && event.logIndex == Some(EventIds.Digits(p.log))
    requires EventIds.ParseBigInt(event.transactionIndex) == Some(p.transaction)
    ensures EventIdOf(event) == Some(EventIds.EventId(p))
  {
    EventIds.FormatIsEventId(p, event.transactionIndex);
    hide EventIds.FormatEventId, EventIds.EventId, EventIds.Digits;
  }

  lemma EventIdOfIff(event: Event)
    ensures EventIdOf(event).Some? <==> EventIds.ParseBigInt(event.transactionIndex).Some?
  {
    hide EventIds.ParseBigInt, EventIds.FormatParts, EventIds.BigIntText;
  }

  /** The query for the URI of a token on a contract, which gives the empty string when it fails. */
  type TokenUri = (string, string) -> string

  /** The fields that mints, burns and transfers share, with the amount and token index that the type of pool gives. */
  function CommonData(locator: string, poolData: Option<string>, id: string, event: Event, output: TransferOutput, tokenUri: TokenUri)
    : TransferMessage
  {
    var unpacked := UnpackPoolLocator(locator);
    var indexed := unpacked.tokenType == Some(NONFUNGIBLE) && output.tokenId.Some?;
    TransferMessage(TokenTransfer, id, locator, poolData,
                    if unpacked.tokenType == Some(FUNGIBLE) then output.value else Some("1"),
                    if indexed then output.tokenId else None,
                    if indexed && unpacked.Valid() then Some(tokenUri(output.tokenId.value, unpacked.address.value)) else None,
                    None, None, event.inputSigner, DecodedData(event),
                    StripParamsFromSignature(TrimEventSignature(event.signature)))
  }

  function TransferOutcome(subName: string, event: Event, output: TransferOutput, tokenUri: TokenUri): Outcome<TransferMessage> {
    var sub := UnpackSubscriptionName(subName);
    if sub.Err? then Threw
    else if (output.from == ZERO_ADDRESS && output.to == ZERO_ADDRESS) || sub.value.poolLocator.None? then Dropped
    else if EventIdOf(event).None? then Threw
    else
      var common := CommonData(sub.value.poolLocator.value, sub.value.poolData, EventIdOf(event).value, event, output, tokenUri);
      if output.from == ZERO_ADDRESS then Sent(common.(kind := TokenMint, to := Some(output.to)))
      else if output.to == ZERO_ADDRESS then Sent(common.(kind := TokenBurn, from := Some(output.from)))
      else Sent(common.(from := Some(output.from), to := Some(output.to)))
  }

  method TransformTransferEvent(subName: string, event: Event, output: TransferOutput, tokenUri: TokenUri)
    returns (outcome: Outcome<TransferMessage>)
    ensures outcome == TransferOutcome(subName, event, output, tokenUri)
  {
    var unpackedSub := UnpackSubscriptionName(subName);
    if unpackedSub.Err? {
      return Threw;
    }
    var decodedData := DecodedData(event);
    if output.from == ZERO_ADDRESS && output.to == ZERO_ADDRESS {
      return Dropped;
    }
    if unpackedSub.value.poolLocator.None? {
      return Dropped;
    }
    var eventId := EventIdOf(event);
    if eventId.None? {
      return Threw;
    }
    var poolLocator := UnpackPoolLocator(unpackedSub.value.poolLocator.value);
    var commonData := TransferMessage(TokenTransfer, eventId.value, unpackedSub.value.poolLocator.value, unpackedSub.value.poolData,
                                      if poolLocator.tokenType == Some(FUNGIBLE) then output.value else Some("1"),
                                      None, None, None, None, event.inputSigner, decodedData,
                                      StripParamsFromSignature(TrimEventSignature(event.signature)));
    if poolLocator.tokenType == Some(NONFUNGIBLE) && output.tokenId.Some? {
      commonData := commonData.(tokenIndex := output.tokenId);
      if poolLocator.Valid() {
        commonData := commonData.(uri := Some(tokenUri(output.tokenId.value, poolLocator.address.value)));
      }
    }
    if output.from == ZERO_ADDRESS {
      outcome := Sent(commonData.(kind := TokenMint, to := Some(output.to)));
    } else if output.to == ZERO_ADDRESS {
      outcome := Sent(commonData.(kind := TokenBurn, from := Some(output.from)));
    } else {
      outcome := Sent(commonData.(from := Some(output.from), to := Some(output.to)));
    }
  }

  // ---- approvals ----

  function ApprovalOutcome(subName: string, event: Event, output: ApprovalOutput): Outcome<ApprovalMessage> {
    var sub := UnpackSubscriptionName(subName);
    if sub.Err? then Threw
    else if sub.value.poolLocator.None? then Dropped
    else
      var fungible := UnpackPoolLocator(sub.value.poolLocator.value).tokenType == Some(FUNGIBLE);
      var approved := if fungible then Erc20.ReportedApproved(output.value) else Some(Erc721.ReportedApproved(output.approved));
      if approved.None? || EventIdOf(event).None? then Threw
      else
        Sent(ApprovalMessage(EventIdOf(event).value, sub.value.poolLocator.value, sub.value.poolData,
                             if fungible then Some(output.owner + ":" + output.spender) else output.tokenId,
                             if fungible then output.spender else output.approved, approved.value, output.owner, DecodedData(event),
                             StripParamsFromSignature(TrimEventSignature(event.signature))))
  }

  /** The name is taken from the signature without trimming it, unlike in all other messages. */
  function ApprovalForAllOutcome(subName: string, event: Event, output: ApprovalForAllOutput): Outcome<ApprovalMessage> {
    var sub := UnpackSubscriptionName(subName);
    if sub.Err? then Threw
    else if sub.value.poolLocator.None? then Dropped
    else if EventIdOf(event).None? then Threw
    else
      Sent(ApprovalMessage(EventIdOf(event).value, sub.value.poolLocator.value, sub.value.poolData,
                           Some(output.owner + ":" + output.operator), output.operator, output.approved, output.owner,
                           DecodedData(event), StripParamsFromSignature(event.signature)))
  }

  // ---- sent, dropped or thrown ----

  /** What becomes of a log: a name with malformed pool data throws, one without a locator is dropped, a bad index throws. */
  ghost predicate Ends<M>(subName: string, event: Event, dropped: bool, threw: bool, outcome: Outcome<M>) {
    var sub, index := UnpackSubscriptionName(subName), EventIds.ParseBigInt(event.transactionIndex);
    if sub.Err? then outcome.Threw?
    else if sub.value.poolLocator.None? || dropped then outcome.Dropped?
    else if index.None? || threw then outcome.Threw?
    else outcome.Sent?
  }

  /** A transfer from the zero address to itself is dropped too. */
  lemma TransferEnds(subName: string, event: Event, output: TransferOutput, tokenUri: TokenUri)
    ensures var zero := "0x0000000000000000000000000000000000000000";
            Ends(subName, event, output.from == zero && output.to == zero, false, TransferOutcome(subName, event, output, tokenUri))
  {
    EventIdOfIff(event);
    hide UnpackSubscriptionName, CommonData, EventIdOf, EventIds.ParseBigInt;
  }

  /** An approval of a fungible token whose value is no number throws too. */
  lemma ApprovalEnds(subName: string, event: Event, output: ApprovalOutput)
    ensures var sub := UnpackSubscriptionName(subName);
            var fungible := sub.Ok? && sub.value.poolLocator.Some? && UnpackPoolLocator(sub.value.poolLocator.value).tokenType == Some("fungible");
            Ends(subName, event, false, fungible && Erc20.ReportedApproved(output.value).None?, ApprovalOutcome(subName, event, output))
  {
    EventIdOfIff(event);
    hide UnpackSubscriptionName, UnpackPoolLocator, EventIdOf, EventIds.ParseBigInt, Erc20.ReportedApproved, DecodedData;
    hide StripParamsFromSignature, TrimEventSignature, Erc721.ReportedApproved;
  }

  lemma ApprovalForAllEnds(subName: string, event: Event, output: ApprovalForAllOutput)
    ensures Ends(subName, event, false, false, ApprovalForAllOutcome(subName, event, output))
  {
    EventIdOfIff(event);
    hide UnpackSubscriptionName, EventIdOf, EventIds.ParseBigInt, DecodedData, StripParamsFromSignature;
  }
}
