/**
 * Ledgers kept from the messages of the connector, against the ledgers of the logs themselves: the Events
 * section of EIP-20, and the Transfer event of EIP-721.
 */
module Ledger {
  import opened Wrappers
  import opened TokensUtil
  import opened TokensListener
  import EventIds

  /** A Transfer log of a token, as the listener of a pool receives it. */
  datatype Log = Log(event: Event, output: TransferOutput)

  /** The pool the logs are reported for: what it was activated with. */
  datatype Pool = Pool(locator: PoolLocator, poolData: Option<string>)

  function SubName(pool: Pool): string
    requires pool.locator.Valid()
  {
    PackSubscriptionName(PackPoolLocator(pool.locator), "Transfer", pool.poolData)
  }

  /** The messages sent for a list of logs. */
  function Messages(pool: Pool, logs: seq<Log>, tokenUri: TokenUri): seq<TransferMessage>
    requires pool.locator.Valid()
  {
    if logs == [] then []
    else
      var front, last := Messages(pool, logs[..|logs| - 1], tokenUri), logs[|logs| - 1];
      var outcome := TransferOutcome(SubName(pool), last.event, last.output, tokenUri);
      if outcome.Sent? then front + [outcome.message] else front
  }

  /** Logs that the connector delivers: the transaction index is a number. */
  ghost predicate Delivered(logs: seq<Log>) {
    forall i :: 0 <= i < |logs| ==> EventIds.ParseBigInt(logs[i].event.transactionIndex).Some?
  }

  predicate ZeroToZero(log: Log) {
    log.output.from == ZERO_ADDRESS && log.output.to == ZERO_ADDRESS
  }

  /** What is to be sent for one log of the pool. */
  ghost predicate Reports(pool: Pool, log: Log, tokenUri: TokenUri, outcome: Outcome<TransferMessage>)
    requires pool.locator.Valid() && EventIdOf(log.event).Some?
  {
    if ZeroToZero(log) then outcome.Dropped?
    else
      && outcome.Sent?
      && var m := outcome.message;
      && m.poolLocator == PackPoolLocator(pool.locator) && m.poolData == pool.poolData
      && m.amount == (if pool.locator.tokenType == Some(FUNGIBLE) then log.output.value else Some("1"))
      && m.tokenIndex == (if pool.locator.tokenType == Some(NONFUNGIBLE) then log.output.tokenId else None)
      && m.from == (if log.output.from == ZERO_ADDRESS then None else Some(log.output.from))
      && m.to == (if log.output.to == ZERO_ADDRESS then None else Some(log.output.to))
      && m.kind == (if log.output.from == ZERO_ADDRESS then TokenMint
                    else if log.output.to == ZERO_ADDRESS then TokenBurn else TokenTransfer)
      && m.uri == (if m.tokenIndex.Some? then Some(tokenUri(m.tokenIndex.value, pool.locator.address.value)) else None)
      && m.id == EventIdOf(log.event).value && m.data == DecodedData(log.event) && m.signer == log.event.inputSigner
      && m.name == StripParamsFromSignature(TrimEventSignature(log.event.signature))
  }

  lemma UnpackedLog(pool: Pool, subName: string, log: Log, tokenUri: TokenUri)
    requires pool.locator.Valid() && EventIdOf(log.event).Some?
    requires var sub := UnpackSubscriptionName(subName);
             && sub.Ok? && sub.value.poolLocator == Some(PackPoolLocator(pool.locator)) && sub.value.poolData == pool.poolData
    requires UnpackPoolLocator(PackPoolLocator(pool.locator)) == pool.locator
    ensures Reports(pool, log, tokenUri, TransferOutcome(subName, log.event, log.output, tokenUri))
  {
    hide UnpackSubscriptionName, PackPoolLocator, UnpackPoolLocator, DecodedData, EventIdOf, ZERO_ADDRESS;
    hide StripParamsFromSignature, TrimEventSignature;
  }

  /** What is sent for one log, in terms of the pool its name was packed from. */
  lemma OneLog(pool: Pool, log: Log, tokenUri: TokenUri)
    requires pool.locator.Valid() && EventIds.ParseBigInt(log.event.transactionIndex).Some?
    ensures EventIdOf(log.event).Some?
    ensures Reports(pool, log, tokenUri, TransferOutcome(SubName(pool), log.event, log.output, tokenUri))
  {
    assert EventIdOf(log.event).Some?;
    hide TransferOutcome, Reports, EventIdOf, PackSubscriptionName, UnpackSubscriptionName, PackPoolLocator, UnpackPoolLocator;
    ActivationDataReturns(pool.locator, "Transfer", pool.poolData);
    UnpackedLog(pool, SubName(pool), log, tokenUri);
  }

  // ---- fungible tokens ----

  function Number(s: Option<string>): int {
    var n := EventIds.ParseBigInt(if s.Some? then s.value else "0");
    if n.Some? then n.value else 0
  }

  /** What a transfer of an amount from one holder to another does to the balance of an address. */
  function Delta(from: Option<string>, to: Option<string>, amount: int, address: string): int {
    (if to == Some(address) then amount else 0) - (if from == Some(address) then amount else 0)
  }

  /** The balance that the logs give an address, the zero address included. */
  function LogBalance(logs: seq<Log>, address: string): int {
    if logs == [] then 0
    else
      var last := logs[|logs| - 1].output;
      LogBalance(logs[..|logs| - 1], address) + Delta(Some(last.from), Some(last.to), Number(last.value), address)
  }

  /** The balance that the messages give an address: mints have only a receiver, burns only a holder. */
  function MessageBalance(messages: seq<TransferMessage>, address: string): int {
    if messages == [] then 0
    else
      var last := messages[|messages| - 1];
      MessageBalance(messages[..|messages| - 1], address) + Delta(last.from, last.to, Number(last.amount), address)
  }

  lemma MessageBalanceNext(messages: seq<TransferMessage>, m: TransferMessage, address: string)
    ensures MessageBalance(messages + [m], address) == MessageBalance(messages, address) + Delta(m.from, m.to, Number(m.amount), address)
  {
    assert (messages + [m])[..|messages|] == messages;
  }

  /** What one log does to the balance of an address that is not zero, the message for it does. */
  lemma DeltaAgrees(pool: Pool, log: Log, tokenUri: TokenUri, address: string)
    requires pool.locator.Valid() && pool.locator.tokenType == Some(FUNGIBLE) && address != ZERO_ADDRESS
    requires EventIds.ParseBigInt(log.event.transactionIndex).Some?
    ensures var outcome := TransferOutcome(SubName(pool), log.event, log.output, tokenUri);
            var delta := Delta(Some(log.output.from), Some(log.output.to), Number(log.output.value), address);
            if outcome.Sent? then Delta(outcome.message.from, outcome.message.to, Number(outcome.message.amount), address) == delta
            else delta == 0
  {
    OneLog(pool, log, tokenUri);
    hide TransferOutcome, SubName, Number, ZERO_ADDRESS;
  }

  /** For every list of logs, the messages give each address but zero the balance that the logs give it. */
  lemma {:induction false} BalancesAgree(pool: Pool, logs: seq<Log>, tokenUri: TokenUri, address: string)
    requires pool.locator.Valid() && pool.locator.tokenType == Some(FUNGIBLE) && Delivered(logs) && address != ZERO_ADDRESS
    ensures MessageBalance(Messages(pool, logs, tokenUri), address) == LogBalance(logs, address)
  {
    if logs != [] {
      var front, last := logs[..|logs| - 1], logs[|logs| - 1];
      BalancesAgree(pool, front, tokenUri, address);
      DeltaAgrees(pool, last, tokenUri, address);
      var outcome := TransferOutcome(SubName(pool), last.event, last.output, tokenUri);
      if outcome.Sent? {
        MessageBalanceNext(Messages(pool, front, tokenUri), outcome.message, address);
      }
      hide TransferOutcome, SubName, Number, Delta, MessageBalance, ZERO_ADDRESS;
    }
  }

  function Minted(messages: seq<TransferMessage>): int {
    if messages == [] then 0
    else
      var last := messages[|messages| - 1];
      Minted(messages[..|messages| - 1]) + if last.kind.TokenMint? then Number(last.amount) else 0
  }

  function Burned(messages: seq<TransferMessage>): int {
    if messages == [] then 0
    else
      var last := messages[|messages| - 1];
      Burned(messages[..|messages| - 1]) + if last.kind.TokenBurn? then Number(last.amount) else 0
  }

  function Sum(messages: seq<TransferMessage>, addresses: seq<string>): int {
    if addresses == [] then 0
    else Sum(messages, addresses[..|addresses| - 1]) + MessageBalance(messages, addresses[|addresses| - 1])
  }

  /** Holder and receiver agree with the kind of the message, and both are among the addresses. */
  predicate InOrder(m: TransferMessage, addresses: seq<string>) {
    && (m.from.None? <==> m.kind.TokenMint?)
    && (m.to.None? <==> m.kind.TokenBurn?)
    && (m.from.Some? ==> m.from.value in addresses)
    && (m.to.Some? ==> m.to.value in addresses)
  }

  ghost predicate Covered(messages: seq<TransferMessage>, addresses: seq<string>) {
    forall i :: 0 <= i < |messages| ==> InOrder(messages[i], addresses)
  }

  function Held(who: Option<string>, addresses: seq<string>, amount: int): int {
    if who.Some? && who.value in addresses then amount else 0
  }

  lemma HeldNext(who: Option<string>, addresses: seq<string>, amount: int)
    requires NoDup(addresses) && addresses != []
    ensures var last := |addresses| - 1;
            Held(who, addresses, amount) == Held(who, addresses[..last], amount) + if who == Some(addresses[last]) then amount else 0
  {
    var last := |addresses| - 1;
    assert addresses == addresses[..last] + [addresses[last]];
    assert addresses[last] !in addresses[..last];
  }

  lemma {:induction false} SumNext(messages: seq<TransferMessage>, m: TransferMessage, addresses: seq<string>)
    requires NoDup(addresses)
    ensures Sum(messages + [m], addresses)
         == Sum(messages, addresses) + Held(m.to, addresses, Number(m.amount)) - Held(m.from, addresses, Number(m.amount))
  {
    if addresses != [] {
      var last := |addresses| - 1;
      SumNext(messages, m, addresses[..last]);
      MessageBalanceNext(messages, m, addresses[last]);
      HeldNext(m.to, addresses, Number(m.amount));
      HeldNext(m.from, addresses, Number(m.amount));
      hide MessageBalance, Number, Held, NoDup;
    }
  }

  /** Mints less burns are the sum of the balances, over any list of addresses that all holders are in. */
  lemma {:induction false} SupplyIsSum(messages: seq<TransferMessage>, addresses: seq<string>)
    requires NoDup(addresses) && Covered(messages, addresses)
    ensures Minted(messages) - Burned(messages) == Sum(messages, addresses)
  {
    if messages == [] {
      EmptySum(addresses);
    } else {
      var front, last := messages[..|messages| - 1], messages[|messages| - 1];
      assert messages == front + [last];
      SupplyIsSum(front, addresses);
      SumNext(front, last, addresses);
      hide Sum, Number;
      assert InOrder(messages[|front|], addresses);
    }
  }

  lemma {:induction false} EmptySum(addresses: seq<string>)
    ensures Sum([], addresses) == 0
  {
    if addresses != [] {
      EmptySum(addresses[..|addresses| - 1]);
    }
  }

  /** Every address but zero that a log names. */
  ghost predicate Names(logs: seq<Log>, addresses: seq<string>) {
    forall i :: 0 <= i < |logs| ==>
      && (logs[i].output.from != ZERO_ADDRESS ==> logs[i].output.from in addresses)
      && (logs[i].output.to != ZERO_ADDRESS ==> logs[i].output.to in addresses)
  }

  lemma MessageInOrder(pool: Pool, log: Log, tokenUri: TokenUri, addresses: seq<string>)
    requires pool.locator.Valid() && Delivered([log]) && Names([log], addresses)
    ensures var outcome := TransferOutcome(SubName(pool), log.event, log.output, tokenUri);
            outcome.Sent? ==> InOrder(outcome.message, addresses)
  {
    assert [log][0] == log;
    OneLog(pool, log, tokenUri);
    hide TransferOutcome, ZERO_ADDRESS;
  }

  lemma OneDelivered(logs: seq<Log>, i: nat, addresses: seq<string>)
    requires Delivered(logs) && Names(logs, addresses) && i < |logs|
    ensures Delivered([logs[i]]) && Names([logs[i]], addresses)
  {
  }

  lemma {:induction false} MessagesAreCovered(pool: Pool, logs: seq<Log>, tokenUri: TokenUri, addresses: seq<string>)
    requires pool.locator.Valid() && Delivered(logs) && Names(logs, addresses)
    ensures Covered(Messages(pool, logs, tokenUri), addresses)
  {
    if logs != [] {
      var front, last := logs[..|logs| - 1], logs[|logs| - 1];
      MessagesAreCovered(pool, front, tokenUri, addresses);
      OneDelivered(logs, |logs| - 1, addresses);
      MessageInOrder(pool, last, tokenUri, addresses);
      hide TransferOutcome, InOrder, Delivered, Names, SubName;
    }
  }

  function SumOfLogs(logs: seq<Log>, addresses: seq<string>): int {
    if addresses == [] then 0
    else SumOfLogs(logs, addresses[..|addresses| - 1]) + LogBalance(logs, addresses[|addresses| - 1])
  }

  lemma {:induction false} SumsAgree(pool: Pool, logs: seq<Log>, tokenUri: TokenUri, addresses: seq<string>)
    requires pool.locator.Valid() && pool.locator.tokenType == Some(FUNGIBLE) && Delivered(logs) && ZERO_ADDRESS !in addresses
    ensures Sum(Messages(pool, logs, tokenUri), addresses) == SumOfLogs(logs, addresses)
  {
    if addresses != [] {
      var front, last := addresses[..|addresses| - 1], addresses[|addresses| - 1];
      assert addresses == front + [last];
      SumsAgree(pool, logs, tokenUri, front);
      BalancesAgree(pool, logs, tokenUri, last);
    }
  }

  /** The mints reported less the burns reported are what all the addresses of the logs hold by the logs. */
  lemma SupplyAgrees(pool: Pool, logs: seq<Log>, tokenUri: TokenUri, addresses: seq<string>)
    requires pool.locator.Valid() && pool.locator.tokenType == Some(FUNGIBLE) && Delivered(logs)
    requires NoDup(addresses) && ZERO_ADDRESS !in addresses && Names(logs, addresses)
    ensures Minted(Messages(pool, logs, tokenUri)) - Burned(Messages(pool, logs, tokenUri)) == SumOfLogs(logs, addresses)
  {
    MessagesAreCovered(pool, logs, tokenUri, addresses);
    SupplyIsSum(Messages(pool, logs, tokenUri), addresses);
    SumsAgree(pool, logs, tokenUri, addresses);
  }

  // ---- non-fungible tokens ----

  /** The owner of a token by the logs; the zero address owns nothing. */
  function LogOwner(logs: seq<Log>, token: string): Option<string> {
    if logs == [] then None
    else
      var last := logs[|logs| - 1].output;
      if last.tokenId == Some(token) then if last.to == ZERO_ADDRESS then None else Some(last.to)
      else LogOwner(logs[..|logs| - 1], token)
  }

  /** The owner of a token by the messages: a mint or transfer gives it to its receiver, a burn to no one. */
  function MessageOwner(messages: seq<TransferMessage>, token: string): Option<string> {
    if messages == [] then None
    else
      var last := messages[|messages| - 1];
      if last.tokenIndex == Some(token) then last.to else MessageOwner(messages[..|messages| - 1], token)
  }

  lemma MessageOwnerNext(messages: seq<TransferMessage>, m: TransferMessage, token: string)
    ensures MessageOwner(messages + [m], token) == if m.tokenIndex == Some(token) then m.to else MessageOwner(messages, token)
  {
    assert (messages + [m])[..|messages|] == messages;
  }

  /** A log from no one to no one takes a token that has an owner. */
  ghost predicate Vanishes(logs: seq<Log>, token: string, i: nat) {
    i < |logs| && ZeroToZero(logs[i]) && logs[i].output.tokenId == Some(token) && LogOwner(logs[..i], token).Some?
  }

  /** After these logs, messages and logs give the token the same owner. */
  ghost predicate SameOwner(pool: Pool, logs: seq<Log>, tokenUri: TokenUri, token: string)
    requires pool.locator.Valid()
  {
    MessageOwner(Messages(pool, logs, tokenUri), token) == LogOwner(logs, token)
  }

  ghost predicate AlwaysSameOwner(pool: Pool, logs: seq<Log>, tokenUri: TokenUri, token: string)
    requires pool.locator.Valid()
  {
    forall n :: 0 <= n <= |logs| ==> SameOwner(pool, logs[..n], tokenUri, token)
  }

  /** One more log: the owners by messages and by logs stay the same unless the token vanishes. */
  lemma OwnerStep(pool: Pool, logs: seq<Log>, tokenUri: TokenUri, token: string)
    requires pool.locator.Valid() && pool.locator.tokenType == Some(NONFUNGIBLE) && Delivered(logs) && logs != []
    requires SameOwner(pool, logs[..|logs| - 1], tokenUri, token)
    ensures SameOwner(pool, logs, tokenUri, token) <==> !Vanishes(logs, token, |logs| - 1)
  {
    var front, last := logs[..|logs| - 1], logs[|logs| - 1];
    OneLog(pool, last, tokenUri);
    var outcome := TransferOutcome(SubName(pool), last.event, last.output, tokenUri);
    hide TransferOutcome, ZERO_ADDRESS;
    if outcome.Sent? {
      MessageOwnerNext(Messages(pool, front, tokenUri), outcome.message, token);
    }
  }

  /**
   * The messages give every token the owner that the logs give it, after each log, exactly when no log from
   * the zero address to itself is about a token that has an owner. A token contract emits no such log.
   */
  lemma {:induction false} OwnersAgreeIff(pool: Pool, logs: seq<Log>, tokenUri: TokenUri, token: string)
    requires pool.locator.Valid() && pool.locator.tokenType == Some(NONFUNGIBLE) && Delivered(logs)
    ensures AlwaysSameOwner(pool, logs, tokenUri, token) <==> forall i: nat :: !Vanishes(logs, token, i)
  {
    hide SameOwner, ZeroToZero, LogOwner;
    if logs != [] {
      var last := |logs| - 1;
      var front := logs[..last];
      OwnersAgreeIff(pool, front, tokenUri, token);
      VanishesInFront(logs, token);
      assert forall n :: 0 <= n <= last ==> front[..n] == logs[..n];
      assert logs[..|logs|] == logs && front[..last] == front;
      if AlwaysSameOwner(pool, front, tokenUri, token) {
        assert SameOwner(pool, front[..last], tokenUri, token);
        OwnerStep(pool, logs, tokenUri, token);
        assert AlwaysSameOwner(pool, logs, tokenUri, token) <==> SameOwner(pool, logs[..|logs|], tokenUri, token);
      } else {
        var i: nat :| Vanishes(front, token, i);
        assert Vanishes(logs, token, i);
      }
    } else {
      NothingToBegin(pool, tokenUri, token);
    }
  }

  lemma NothingToBegin(pool: Pool, tokenUri: TokenUri, token: string)
    requires pool.locator.Valid()
    ensures SameOwner(pool, [], tokenUri, token)
  {
  }

  lemma VanishesInFront(logs: seq<Log>, token: string)
    requires logs != []
    ensures forall i: nat :: i < |logs| - 1 ==> (Vanishes(logs[..|logs| - 1], token, i) <==> Vanishes(logs, token, i))
  {
    var front := logs[..|logs| - 1];
    forall i: nat | i < |front| ensures Vanishes(front, token, i) <==> Vanishes(logs, token, i) {
      assert front[..i] == logs[..i];
    }
  }
}
