/**
 * The ERC165 support cache and the schema and ABI chosen with it: supportsInterface, getTokenSchema and
 * getAbi in src/tokens/abimapper.service.ts. Queries of the chain are outcomes given from outside, and the
 * least-recently-used cache may drop any entries at any time.
 */
module InterfaceSupport {
  import opened Wrappers

  const ERC20_WITH_DATA_IID := "0xaefdad0f"
  const ERC721_WITH_DATA_V2_IID := "0xaefe69bf"
  const ERC721_WITH_DATA_V1B_IID := "0x8706707d"
  const ERC721_WITH_DATA_V1A_IID := "0xb2429c12"

  datatype QueryOutcome = Answered(outputIsTrue: bool) | Failed

  /** A query that has settled, and the support concluded from it. */
  datatype Query = Query(address: string, iid: string, outcome: QueryOutcome) {
    /** A failed query counts as no support. */
    predicate Support() {
      outcome == Answered(true)
    }
  }

  datatype Cache = Cache(entries: map<string, bool>, history: seq<Query>)

  const EMPTY := Cache(map[], [])

  function Key(address: string, iid: string): string {
    address + ":" + iid
  }

  /** What happens to the cache while any number of calls are under way: their queries settle, and entries drop. */
  datatype Step = Settle(query: Query) | Evict(keys: set<string>)

  function Next(c: Cache, step: Step): Cache {
    match step
    case Settle(q) => Cache(c.entries[Key(q.address, q.iid) := q.Support()], c.history + [q])
    case Evict(keys) => c.(entries := c.entries - keys)
  }

  function Run(c: Cache, steps: seq<Step>): Cache {
    if steps == [] then c else Next(Run(c, steps[..|steps| - 1]), steps[|steps| - 1])
  }

  /**
   * One call of supportsInterface. When the cache has no answer the contract is queried, and other calls go
   * on while the query is under way.
   */
  function Ask(c: Cache, address: string, iid: string, outcome: QueryOutcome, during: seq<Step>): (Cache, bool) {
    if Key(address, iid) in c.entries then (c, c.entries[Key(address, iid)])
    else (Next(Run(c, during), Settle(Query(address, iid, outcome))), Query(address, iid, outcome).Support())
  }

  /** Ids of interfaces are hexadecimal and have no colon. */
  ghost predicate Plain(steps: seq<Step>) {
    forall i :: 0 <= i < |steps| && steps[i].Settle? ==> ':' !in steps[i].query.iid
  }

  // ---- what a cached answer is ----

  /** The interface ids have no colon, so the key tells addresses and ids apart. */
  lemma KeyInjective(a: string, i: string, a': string, i': string)
    requires ':' !in i && ':' !in i'
    ensures Key(a, i) == Key(a', i') <==> a == a' && i == i'
  {
    var k, k' := Key(a, i), Key(a', i');
    assert k[|a|] == ':' && forall j :: |a| < j < |k| ==> k[j] == i[j - |a| - 1] != ':';
    assert k'[|a'|] == ':' && forall j :: |a'| < j < |k'| ==> k'[j] == i'[j - |a'| - 1] != ':';
    if k == k' {
      assert |a| == |a'|;
      assert k[..|a|] == a && k'[..|a|] == a';
      assert k[|a| + 1..] == i && k'[|a| + 1..] == i';
    }
  }

  /** The last query settled for an address and id. */
  function Latest(history: seq<Query>, address: string, iid: string): Option<Query> {
    if history == [] then None
    else
      var last := history[|history| - 1];
      if last.address == address && last.iid == iid then Some(last) else Latest(history[..|history| - 1], address, iid)
  }

  ghost predicate Agrees(c: Cache) {
    forall address, iid :: ':' !in iid && Key(address, iid) in c.entries ==>
      && Latest(c.history, address, iid).Some?
      && c.entries[Key(address, iid)] == Latest(c.history, address, iid).value.Support()
  }

  lemma StepAgrees(c: Cache, step: Step)
    requires Agrees(c) && (step.Settle? ==> ':' !in step.query.iid)
    ensures Agrees(Next(c, step))
  {
    var c' := Next(c, step);
    if step.Settle? {
      forall address, iid | ':' !in iid && Key(address, iid) in c'.entries
        ensures Latest(c'.history, address, iid).Some?
        ensures c'.entries[Key(address, iid)] == Latest(c'.history, address, iid).value.Support()
      {
        KeyInjective(step.query.address, step.query.iid, address, iid);
        assert c'.history[..|c'.history| - 1] == c.history;
      }
    }
  }

  /** Whatever settles and whatever is dropped, a cached answer is that of the last query for the same contract and id. */
  lemma {:induction false} CachedIsLatest(c: Cache, steps: seq<Step>)
    requires Agrees(c) && Plain(steps)
    ensures Agrees(Run(c, steps)) && c.history <= Run(c, steps).history
  {
    if steps != [] {
      CachedIsLatest(c, steps[..|steps| - 1]);
      StepAgrees(Run(c, steps[..|steps| - 1]), steps[|steps| - 1]);
    }
  }

  lemma {:induction false} LatestIsRecorded(history: seq<Query>, address: string, iid: string)
    ensures Latest(history, address, iid).None? <==> forall q :: q in history ==> q.address != address || q.iid != iid
    ensures Latest(history, address, iid).Some? ==>
              var q := Latest(history, address, iid).value; q in history && q.address == address && q.iid == iid
  {
    if history != [] {
      LatestIsRecorded(history[..|history| - 1], address, iid);
      assert history == history[..|history| - 1] + [history[|history| - 1]];
    }
  }

  /** Every query was answered, with what is so. */
  ghost predicate Truthful(history: seq<Query>, truth: (string, string) -> bool) {
    forall q :: q in history ==> q.outcome == Answered(truth(q.address, q.iid))
  }

  /** With answers that do not change and no failures, asking the cache is asking the chain. */
  lemma StableAnswersAreTrue(c: Cache, address: string, iid: string, truth: (string, string) -> bool, during: seq<Step>)
    requires Agrees(c) && ':' !in iid && Truthful(c.history, truth)
    ensures Ask(c, address, iid, Answered(truth(address, iid)), during).1 == truth(address, iid)
  {
    LatestIsRecorded(c.history, address, iid);
  }

  /** A failure is remembered as no support: the contract that supports the interface is then said not to. */
  lemma FailureIsCached(address: string, iid: string)
    ensures var c := Ask(EMPTY, address, iid, Failed, []).0;
            !Ask(c, address, iid, Answered(true), []).1
  {
  }

  // ---- schema and ABI ----

  datatype Schema = ERC20WithData | ERC20NoData | ERC721WithDataV2 | ERC721WithData | ERC721NoData

  /** The string a schema goes by in pool locators. */
  function SchemaText(schema: Schema): string {
    match schema
    case ERC20WithData => "ERC20WithData"
    case ERC20NoData => "ERC20NoData"
    case ERC721WithDataV2 => "ERC721WithDataV2"
    case ERC721WithData => "ERC721WithData"
    case ERC721NoData => "ERC721NoData"
  }

  datatype SchemaError = UnknownSchema

  function SchemaNamed(text: string): Option<Schema> {
    if text == "ERC721WithDataV2" then Some(ERC721WithDataV2)
    else if text == "ERC721WithData" then Some(ERC721WithData)
    else if text == "ERC721NoData" then Some(ERC721NoData)
    else if text == "ERC20WithData" then Some(ERC20WithData)
    else if text == "ERC20NoData" then Some(ERC20NoData)
    else None
  }

  /** A schema is known by its own string and by no other; any other string is refused. */
  lemma SchemaNamedIff(text: string, schema: Schema)
    ensures SchemaNamed(text) == Some(schema) <==> text == SchemaText(schema)
  {
    assert SchemaText(ERC20WithData)[5] == 'W' && SchemaText(ERC20NoData)[5] == 'N';
    assert |SchemaText(ERC721WithDataV2)| == 16 && |SchemaText(ERC721WithData)| == 14 && |SchemaText(ERC721NoData)| == 12;
    assert |SchemaText(ERC20WithData)| == 13 && |SchemaText(ERC20NoData)| == 11;
  }

  /** The ABI files; those that call for an interface are named by its id. */
  datatype Abi = WithData(iid: string) | NoData(fungible: bool, legacy: bool)

  /** The outcome that a query for an interface has when it is made. */
  type Chain = string -> QueryOutcome

  /** What other calls do at each await of one that asks several questions. */
  type Traffic = nat -> seq<Step>

  ghost predicate PlainTraffic(traffic: Traffic) {
    forall n :: Plain(traffic(n))
  }

  function TokenSchema(c: Cache, fungible: bool, address: string, chain: Chain, traffic: Traffic): (Cache, Schema) {
    if !fungible then
      var (c2, v2) := Ask(c, address, ERC721_WITH_DATA_V2_IID, chain(ERC721_WITH_DATA_V2_IID), traffic(0));
      if v2 then (c2, ERC721WithDataV2)
      else
        var (c1b, v1b) := Ask(Run(c2, traffic(1)), address, ERC721_WITH_DATA_V1B_IID, chain(ERC721_WITH_DATA_V1B_IID), traffic(2));
        if v1b then (c1b, ERC721WithData)
        else
          var (c1a, v1a) := Ask(Run(c1b, traffic(3)), address, ERC721_WITH_DATA_V1A_IID, chain(ERC721_WITH_DATA_V1A_IID), traffic(4));
          (c1a, if v1a then ERC721WithData else ERC721NoData)
    else
      var (c', support) := Ask(c, address, ERC20_WITH_DATA_IID, chain(ERC20_WITH_DATA_IID), traffic(0));
      (c', if support then ERC20WithData else ERC20NoData)
  }

  function SchemaAbi(c: Cache, schema: Schema, address: string, chain: Chain, during: seq<Step>, legacyERC20: bool, legacyERC721: bool)
    : (Cache, Abi)
  {
    match schema
    case ERC721WithDataV2 => (c, WithData(ERC721_WITH_DATA_V2_IID))
    case ERC721WithData =>
      var (c', v1b) := Ask(c, address, ERC721_WITH_DATA_V1B_IID, chain(ERC721_WITH_DATA_V1B_IID), during);
      (c', WithData(if v1b then ERC721_WITH_DATA_V1B_IID else ERC721_WITH_DATA_V1A_IID))
    case ERC721NoData => (c, NoData(false, legacyERC721))
    case ERC20WithData => (c, WithData(ERC20_WITH_DATA_IID))
    case ERC20NoData => (c, NoData(true, legacyERC20))
  }

  /** The contract has at some time answered that it supports the interface. */
  ghost predicate Reported(history: seq<Query>, address: string, iid: string) {
    Query(address, iid, Answered(true)) in history
  }

  /** What is known once a question has been answered. */
  ghost predicate Known(before: Cache, c: Cache, address: string, iid: string, support: bool) {
    && Agrees(c) && before.history <= c.history
    && Latest(c.history, address, iid).Some?
    && Latest(c.history, address, iid).value.Support() == support
    && (support ==> Reported(c.history, address, iid))
  }

  lemma AskReports(c: Cache, address: string, iid: string, outcome: QueryOutcome, during: seq<Step>)
    requires Agrees(c) && ':' !in iid && Plain(during)
    ensures Known(c, Ask(c, address, iid, outcome, during).0, address, iid, Ask(c, address, iid, outcome, during).1)
  {
    if Key(address, iid) in c.entries {
      LatestIsRecorded(c.history, address, iid);
    } else {
      CachedIsLatest(c, during);
      StepAgrees(Run(c, during), Settle(Query(address, iid, outcome)));
    }
  }

  /** The three questions asked for a non-fungible token, and the caches they were asked of and leave. */
  lemma NonFungibleQuestions(c: Cache, address: string, chain: Chain, traffic: Traffic)
    returns (c2: Cache, v2: bool, c1b: Cache, v1b: bool, c1a: Cache, v1a: bool)
    requires Agrees(c) && PlainTraffic(traffic)
    ensures Known(c, c2, address, ERC721_WITH_DATA_V2_IID, v2)
    ensures Known(c2, c1b, address, ERC721_WITH_DATA_V1B_IID, v1b)
    ensures Known(c1b, c1a, address, ERC721_WITH_DATA_V1A_IID, v1a)
    ensures TokenSchema(c, false, address, chain, traffic)
         == if v2 then (c2, ERC721WithDataV2) else if v1b then (c1b, ERC721WithData)
            else (c1a, if v1a then ERC721WithData else ERC721NoData)
  {
    assert Plain(traffic(0)) && Plain(traffic(1)) && Plain(traffic(2)) && Plain(traffic(3)) && Plain(traffic(4));
    var a2 := Ask(c, address, ERC721_WITH_DATA_V2_IID, chain(ERC721_WITH_DATA_V2_IID), traffic(0));
    c2, v2 := a2.0, a2.1;
    AskReports(c, address, ERC721_WITH_DATA_V2_IID, chain(ERC721_WITH_DATA_V2_IID), traffic(0));
    CachedIsLatest(c2, traffic(1));
    var a1b := Ask(Run(c2, traffic(1)), address, ERC721_WITH_DATA_V1B_IID, chain(ERC721_WITH_DATA_V1B_IID), traffic(2));
    c1b, v1b := a1b.0, a1b.1;
    AskReports(Run(c2, traffic(1)), address, ERC721_WITH_DATA_V1B_IID, chain(ERC721_WITH_DATA_V1B_IID), traffic(2));
    CachedIsLatest(c1b, traffic(3));
    var a1a := Ask(Run(c1b, traffic(3)), address, ERC721_WITH_DATA_V1A_IID, chain(ERC721_WITH_DATA_V1A_IID), traffic(4));
    c1a, v1a := a1a.0, a1a.1;
    AskReports(Run(c1b, traffic(3)), address, ERC721_WITH_DATA_V1A_IID, chain(ERC721_WITH_DATA_V1A_IID), traffic(4));
    hide Ask, Run, Agrees, Latest;
  }

  lemma ReportedStays(before: seq<Query>, history: seq<Query>, address: string, iid: string)
    requires before <= history && Reported(before, address, iid)
    ensures Reported(history, address, iid)
  {
  }

  /** The schema of a token promises data only if a matching interface was reported. */
  lemma SchemaIsReported(c: Cache, fungible: bool, address: string, chain: Chain, traffic: Traffic)
    requires Agrees(c) && PlainTraffic(traffic)
    ensures var (c', schema) := TokenSchema(c, fungible, address, chain, traffic);
            && Agrees(c') && c.history <= c'.history
            && (schema == ERC20WithData ==> Reported(c'.history, address, ERC20_WITH_DATA_IID))
            && (schema == ERC721WithDataV2 ==> Reported(c'.history, address, ERC721_WITH_DATA_V2_IID))
            && (schema == ERC721WithData ==>
                  Reported(c'.history, address, ERC721_WITH_DATA_V1B_IID) || Reported(c'.history, address, ERC721_WITH_DATA_V1A_IID))
  {
    if fungible {
      assert Plain(traffic(0));
      AskReports(c, address, ERC20_WITH_DATA_IID, chain(ERC20_WITH_DATA_IID), traffic(0));
    } else {
      var c2, v2, c1b, v1b, c1a, v1a := NonFungibleQuestions(c, address, chain, traffic);
      hide TokenSchema, Agrees, Latest, Reported;
    }
  }

  /**
   * An ABI with data, taken for the schema of a token after any other traffic, is one whose interface the
   * contract reported, with one exception: the schema is that of two versions, the query last settled for
   * version 1b does not confirm it, and version 1a was never reported.
   */
  lemma AbiIsReportedIff(c: Cache, fungible: bool, address: string, chain: Chain, traffic: Traffic, between: seq<Step>,
                         later: Chain, during: seq<Step>, legacy: (bool, bool))
    requires Agrees(c) && PlainTraffic(traffic) && Plain(between) && Plain(during)
    ensures var (c1, schema) := TokenSchema(c, fungible, address, chain, traffic);
            var (c3, abi) := SchemaAbi(Run(c1, between), schema, address, later, during, legacy.0, legacy.1);
            var v1b := Latest(c3.history, address, ERC721_WITH_DATA_V1B_IID);
            && c1.history <= c3.history
            && (abi.WithData? && !Reported(c3.history, address, abi.iid) <==>
                  && schema == ERC721WithData
                  && v1b.Some? && !v1b.value.Support()
                  && !Reported(c3.history, address, ERC721_WITH_DATA_V1A_IID))
  {
    SchemaIsReported(c, fungible, address, chain, traffic);
    var (c1, schema) := TokenSchema(c, fungible, address, chain, traffic);
    hide TokenSchema, Reported, Latest;
    CachedIsLatest(c1, between);
    var c2 := Run(c1, between);
    AskReports(c2, address, ERC721_WITH_DATA_V1B_IID, later(ERC721_WITH_DATA_V1B_IID), during);
    hide Run, Ask, Agrees;
    if Reported(c1.history, address, ERC721_WITH_DATA_V2_IID) {
      ReportedStays(c1.history, c2.history, address, ERC721_WITH_DATA_V2_IID);
    }
    if Reported(c1.history, address, ERC20_WITH_DATA_IID) {
      ReportedStays(c1.history, c2.history, address, ERC20_WITH_DATA_IID);
    }
  }

  lemma ReportsAreTrue(before: seq<Query>, history: seq<Query>, address: string, iid: string, truth: (string, string) -> bool)
    requires before <= history && Truthful(history, truth) && Reported(before, address, iid)
    ensures Latest(history, address, iid).Some? && Latest(history, address, iid).value.Support()
  {
    assert Query(address, iid, Answered(true)) in history;
    LatestIsRecorded(history, address, iid);
  }

  /** With answers that do not change and no failures there is no exception. */
  lemma StableAbiIsReported(c: Cache, fungible: bool, address: string, chain: Chain, traffic: Traffic, between: seq<Step>,
                            later: Chain, during: seq<Step>, legacy: (bool, bool), truth: (string, string) -> bool)
    requires Agrees(c) && PlainTraffic(traffic) && Plain(between) && Plain(during)
    requires var (c1, schema) := TokenSchema(c, fungible, address, chain, traffic);
             Truthful(SchemaAbi(Run(c1, between), schema, address, later, during, legacy.0, legacy.1).0.history, truth)
    ensures var (c1, schema) := TokenSchema(c, fungible, address, chain, traffic);
            var (c3, abi) := SchemaAbi(Run(c1, between), schema, address, later, during, legacy.0, legacy.1);
            abi.WithData? ==> Reported(c3.history, address, abi.iid)
  {
    hide TokenSchema, SchemaAbi, Run, Agrees;
    AbiIsReportedIff(c, fungible, address, chain, traffic, between, later, during, legacy);
    SchemaIsReported(c, fungible, address, chain, traffic);
    var (c1, schema) := TokenSchema(c, fungible, address, chain, traffic);
    var (c3, abi) := SchemaAbi(Run(c1, between), schema, address, later, during, legacy.0, legacy.1);
    if Reported(c1.history, address, ERC721_WITH_DATA_V1B_IID) {
      ReportsAreTrue(c1.history, c3.history, address, ERC721_WITH_DATA_V1B_IID, truth);
    } else if Reported(c1.history, address, ERC721_WITH_DATA_V1A_IID) {
      ReportedStays(c1.history, c3.history, address, ERC721_WITH_DATA_V1A_IID);
    }
  }

  /** What the schema of a token is to be, from what its contract supports. */
  function BestSchema(fungible: bool, supports: string -> bool): Schema {
    if fungible then if supports(ERC20_WITH_DATA_IID) then ERC20WithData else ERC20NoData
    else if supports(ERC721_WITH_DATA_V2_IID) then ERC721WithDataV2
    else if supports(ERC721_WITH_DATA_V1B_IID) || supports(ERC721_WITH_DATA_V1A_IID) then ERC721WithData
    else ERC721NoData
  }

  /** A question answered when every query so far was answered truly. */
  lemma KnownIsTrue(before: Cache, c: Cache, address: string, iid: string, support: bool, history: seq<Query>, truth: (string, string) -> bool)
    requires Known(before, c, address, iid, support) && c.history <= history && Truthful(history, truth)
    ensures support == truth(address, iid)
  {
    LatestIsRecorded(c.history, address, iid);
    assert Latest(c.history, address, iid).value in history;
  }

  /** With answers that do not change and no failures, the schema is the best that the contract supports. */
  lemma StableSchemaIsBest(c: Cache, fungible: bool, address: string, chain: Chain, traffic: Traffic, truth: (string, string) -> bool)
    requires Agrees(c) && PlainTraffic(traffic) && Truthful(TokenSchema(c, fungible, address, chain, traffic).0.history, truth)
    ensures TokenSchema(c, fungible, address, chain, traffic).1 == BestSchema(fungible, iid => truth(address, iid))
  {
    var last := TokenSchema(c, fungible, address, chain, traffic).0.history;
    if fungible {
      assert Plain(traffic(0));
      AskReports(c, address, ERC20_WITH_DATA_IID, chain(ERC20_WITH_DATA_IID), traffic(0));
      var (c', support) := Ask(c, address, ERC20_WITH_DATA_IID, chain(ERC20_WITH_DATA_IID), traffic(0));
      KnownIsTrue(c, c', address, ERC20_WITH_DATA_IID, support, last, truth);
    } else {
      var c2, v2, c1b, v1b, c1a, v1a := NonFungibleQuestions(c, address, chain, traffic);
      hide TokenSchema, Truthful;
      assert c2.history <= last;
      KnownIsTrue(c, c2, address, ERC721_WITH_DATA_V2_IID, v2, last, truth);
      if !v2 {
        assert c1b.history <= last;
        KnownIsTrue(c2, c1b, address, ERC721_WITH_DATA_V1B_IID, v1b, last, truth);
        if !v1b {
          KnownIsTrue(c1b, c1a, address, ERC721_WITH_DATA_V1A_IID, v1a, last, truth);
        }
      }
    }
  }

  lemma PrefixIsTruthful(before: seq<Query>, history: seq<Query>, truth: (string, string) -> bool)
    requires before <= history && Truthful(history, truth)
    ensures Truthful(before, truth)
  {
    assert forall q :: q in before ==> q in history;
  }

  lemma SchemaAbiLater(c: Cache, schema: Schema, address: string, chain: Chain, during: seq<Step>, legacy: (bool, bool))
    requires Agrees(c) && Plain(during)
    ensures c.history <= SchemaAbi(c, schema, address, chain, during, legacy.0, legacy.1).0.history
  {
    AskReports(c, address, ERC721_WITH_DATA_V1B_IID, chain(ERC721_WITH_DATA_V1B_IID), during);
    hide Ask, Agrees, Latest;
  }

  /** The ABI for the best schema, when the second question is answered truly. */
  lemma AbiOfBestSchema(c: Cache, fungible: bool, address: string, chain: Chain, during: seq<Step>, legacy: (bool, bool),
                        truth: (string, string) -> bool)
    requires Agrees(c) && Plain(during)
    requires var schema := BestSchema(fungible, iid => truth(address, iid));
             Truthful(SchemaAbi(c, schema, address, chain, during, legacy.0, legacy.1).0.history, truth)
    ensures SchemaAbi(c, BestSchema(fungible, iid => truth(address, iid)), address, chain, during, legacy.0, legacy.1).1
         == BestAbi(fungible, iid => truth(address, iid), legacy)
  {
    if BestSchema(fungible, iid => truth(address, iid)) == ERC721WithData {
      AskReports(c, address, ERC721_WITH_DATA_V1B_IID, chain(ERC721_WITH_DATA_V1B_IID), during);
      var (c', v1b) := Ask(c, address, ERC721_WITH_DATA_V1B_IID, chain(ERC721_WITH_DATA_V1B_IID), during);
      hide Ask, Agrees;
      KnownIsTrue(c, c', address, ERC721_WITH_DATA_V1B_IID, v1b, c'.history, truth);
    }
  }

  /** The ABI of the newest interface that the contract supports, or else one without data, of the token's kind and by its flag. */
  function BestAbi(fungible: bool, supports: string -> bool, legacy: (bool, bool)): Abi {
    if fungible then if supports("0xaefdad0f") then WithData("0xaefdad0f") else NoData(true, legacy.0)
    else if supports("0xaefe69bf") then WithData("0xaefe69bf")
    else if supports("0x8706707d") then WithData("0x8706707d")
    else if supports("0xb2429c12") then WithData("0xb2429c12")
    else NoData(false, legacy.1)
  }

  /**
   * With answers that do not change and no failures, the ABI taken for a token, whatever else is asked and
   * dropped in between, is that of the newest interface its contract supports; and if it supports none, the
   * one without data for its kind of token, the legacy one exactly when that kind is configured so.
   */
  lemma StableAbiIsBest(c: Cache, fungible: bool, address: string, chain: Chain, traffic: Traffic, between: seq<Step>,
                        later: Chain, during: seq<Step>, legacy: (bool, bool), truth: (string, string) -> bool)
    requires Agrees(c) && PlainTraffic(traffic) && Plain(between) && Plain(during)
    requires var (c1, schema) := TokenSchema(c, fungible, address, chain, traffic);
             Truthful(SchemaAbi(Run(c1, between), schema, address, later, during, legacy.0, legacy.1).0.history, truth)
    ensures var (c1, schema) := TokenSchema(c, fungible, address, chain, traffic);
            SchemaAbi(Run(c1, between), schema, address, later, during, legacy.0, legacy.1).1
            == BestAbi(fungible, iid => truth(address, iid), legacy)
  {
    hide TokenSchema, SchemaAbi, Run, Agrees, BestSchema, BestAbi, Truthful;
    SchemaIsReported(c, fungible, address, chain, traffic);
    var (c1, schema) := TokenSchema(c, fungible, address, chain, traffic);
    CachedIsLatest(c1, between);
    SchemaAbiLater(Run(c1, between), schema, address, later, during, legacy);
    PrefixIsTruthful(c1.history, SchemaAbi(Run(c1, between), schema, address, later, during, legacy.0, legacy.1).0.history, truth);
    StableSchemaIsBest(c, fungible, address, chain, traffic, truth);
    AbiOfBestSchema(Run(c1, between), fungible, address, later, during, legacy, truth);
  }

  /** Asking again, whatever the chain would say by then, gives the same answer, makes no query and changes nothing. */
  lemma AskedOnce(c: Cache, address: string, iid: string, outcome: QueryOutcome, during: seq<Step>,
                  again: QueryOutcome, meanwhile: seq<Step>)
    ensures var (c', support) := Ask(c, address, iid, outcome, during);
            Ask(c', address, iid, again, meanwhile) == (c', support)
  {
  }

  /** The queries made for a token the cache knows nothing of: newest version first, up to the first that is supported. */
  lemma QuestionsAsked(fungible: bool, address: string, chain: Chain)
    ensures TokenSchema(EMPTY, fungible, address, chain, n => []).0.history
         == if fungible then [Query(address, "0xaefdad0f", chain("0xaefdad0f"))]
            else
              [Query(address, "0xaefe69bf", chain("0xaefe69bf"))]
              + if chain("0xaefe69bf") == Answered(true) then []
                else
                  [Query(address, "0x8706707d", chain("0x8706707d"))]
                  + if chain("0x8706707d") == Answered(true) then [] else [Query(address, "0xb2429c12", chain("0xb2429c12"))]
  {
    KeyInjective(address, ERC721_WITH_DATA_V2_IID, address, ERC721_WITH_DATA_V1B_IID);
    KeyInjective(address, ERC721_WITH_DATA_V2_IID, address, ERC721_WITH_DATA_V1A_IID);
    KeyInjective(address, ERC721_WITH_DATA_V1B_IID, address, ERC721_WITH_DATA_V1A_IID);
  }

  /** A chain on which a contract supports version 1b alone. */
  function OnlyV1b(): Chain {
    (iid: string) => Answered(iid == ERC721_WITH_DATA_V1B_IID)
  }

  lemma SchemaOfV1b(address: string)
    ensures var (c1, schema) := TokenSchema(EMPTY, false, address, OnlyV1b(), n => []);
            && schema == ERC721WithData && Key(address, ERC721_WITH_DATA_V1B_IID) in c1.entries
            && c1.history == [Query(address, ERC721_WITH_DATA_V2_IID, Answered(false)), Query(address, ERC721_WITH_DATA_V1B_IID, Answered(true))]
  {
    KeyInjective(address, ERC721_WITH_DATA_V2_IID, address, ERC721_WITH_DATA_V1B_IID);
  }

  /** The exception happens: the 1b answer drops out of the cache, the next query fails, and the 1a ABI is taken. */
  lemma DroppedAndFailedTakesWrongAbi(address: string)
    ensures var (c1, schema) := TokenSchema(EMPTY, false, address, OnlyV1b(), n => []);
            var c2 := Run(c1, [Evict({Key(address, ERC721_WITH_DATA_V1B_IID)})]);
            var (c3, abi) := SchemaAbi(c2, schema, address, (iid: string) => Failed, [], false, false);
            abi == WithData(ERC721_WITH_DATA_V1A_IID) && !Reported(c3.history, address, ERC721_WITH_DATA_V1A_IID)
  {
    SchemaOfV1b(address);
    hide TokenSchema;
    var (c1, schema) := TokenSchema(EMPTY, false, address, OnlyV1b(), n => []);
    var steps := [Evict({Key(address, ERC721_WITH_DATA_V1B_IID)})];
    assert steps[..0] == [];
    assert Run(c1, steps) == Next(c1, steps[0]);
  }

  /** It happens without an eviction: a second query for 1b that was under way all along settles as failed. */
  lemma LateFailureTakesWrongAbi(address: string)
    ensures var (c1, schema) := TokenSchema(EMPTY, false, address, OnlyV1b(), n => []);
            var c2 := Run(c1, [Settle(Query(address, ERC721_WITH_DATA_V1B_IID, Failed))]);
            var (c3, abi) := SchemaAbi(c2, schema, address, OnlyV1b(), [], false, false);
            abi == WithData(ERC721_WITH_DATA_V1A_IID) && !Reported(c3.history, address, ERC721_WITH_DATA_V1A_IID)
  {
    SchemaOfV1b(address);
    hide TokenSchema;
    var (c1, schema) := TokenSchema(EMPTY, false, address, OnlyV1b(), n => []);
    var steps := [Settle(Query(address, ERC721_WITH_DATA_V1B_IID, Failed))];
    assert steps[..0] == [];
    assert Run(c1, steps) == Next(c1, steps[0]);
  }

  // ---- the service ----

  class AbiMapperService {
    var supportCache: map<string, bool>
    var legacyERC20: bool
    var legacyERC721: bool
    ghost var history: seq<Query>

    ghost function View(): Cache
      reads this
    {
      Cache(supportCache, history)
    }

    constructor ()
      ensures View() == EMPTY && !legacyERC20 && !legacyERC721
    {
      supportCache := map[];
      legacyERC20, legacyERC721 := false, false;
      history := [];
    }

    method Configure(legacyERC20: bool, legacyERC721: bool)
      modifies this
      ensures View() == old(View()) && this.legacyERC20 == legacyERC20 && this.legacyERC721 == legacyERC721
    {
      this.legacyERC20, this.legacyERC721 := legacyERC20, legacyERC721;
    }

    /** What other calls do to the cache while this one waits. */
    method Meanwhile(steps: seq<Step>)
      modifies this`supportCache, this`history
      ensures View() == Run(old(View()), steps)
    {
      for i := 0 to |steps|
        invariant View() == Run(old(View()), steps[..i])
      {
        assert steps[..i + 1][..i] == steps[..i];
        match steps[i]
        case Settle(q) =>
          supportCache := supportCache[Key(q.address, q.iid) := q.Support()];
          history := history + [q];
        case Evict(keys) =>
          supportCache := supportCache - keys;
      }
      assert steps[..|steps|] == steps;
    }

    method SupportsInterface(address: string, iid: string, outcome: QueryOutcome, during: seq<Step>) returns (support: bool)
      modifies this`supportCache, this`history
      ensures (View(), support) == Ask(old(View()), address, iid, outcome, during)
    {
      var cacheKey := Key(address, iid);
      if cacheKey in supportCache {
        return supportCache[cacheKey];
      }
      support := false;
      Meanwhile(during);
      if outcome.Answered? {
        support := outcome.outputIsTrue;
      }
      supportCache := supportCache[cacheKey := support];
      history := history + [Query(address, iid, outcome)];
    }

    method GetTokenSchema(fungible: bool, address: string, chain: Chain, traffic: Traffic) returns (schema: Schema)
      modifies this`supportCache, this`history
      ensures (View(), schema) == TokenSchema(old(View()), fungible, address, chain, traffic)
    {
      hide Ask, Run;
      if !fungible {
        var v2 := SupportsInterface(address, ERC721_WITH_DATA_V2_IID, chain(ERC721_WITH_DATA_V2_IID), traffic(0));
        if v2 {
          return ERC721WithDataV2;
        }
        Meanwhile(traffic(1));
        var either := SupportsInterface(address, ERC721_WITH_DATA_V1B_IID, chain(ERC721_WITH_DATA_V1B_IID), traffic(2));
        if !either {
          Meanwhile(traffic(3));
          either := SupportsInterface(address, ERC721_WITH_DATA_V1A_IID, chain(ERC721_WITH_DATA_V1A_IID), traffic(4));
        }
        return if either then ERC721WithData else ERC721NoData;
      } else {
        var support := SupportsInterface(address, ERC20_WITH_DATA_IID, chain(ERC20_WITH_DATA_IID), traffic(0));
        return if support then ERC20WithData else ERC20NoData;
      }
    }

    /** The schema is a string from a pool locator, and may be any. */
    method GetAbi(text: string, address: string, chain: Chain, during: seq<Step>) returns (abi: Result<Abi, SchemaError>)
      modifies this`supportCache, this`history
      ensures abi == Err(UnknownSchema) <==> forall schema :: text != SchemaText(schema)
      ensures abi.Err? ==> View() == old(View())
      ensures forall schema :: text == SchemaText(schema) ==>
                abi.Ok? && (View(), abi.value) == SchemaAbi(old(View()), schema, address, chain, during, legacyERC20, legacyERC721)
    {
      var schema := SchemaNamed(text);
      forall s ensures schema == Some(s) <==> text == SchemaText(s) {
        SchemaNamedIff(text, s);
      }
      hide SchemaNamed, SchemaText, Ask;
      if schema.None? {
        return Err(UnknownSchema);
      }
      match schema.value
      case ERC721WithDataV2 =>
        abi := Ok(WithData(ERC721_WITH_DATA_V2_IID));
      case ERC721WithData =>
        var v1b := SupportsInterface(address, ERC721_WITH_DATA_V1B_IID, chain(ERC721_WITH_DATA_V1B_IID), during);
        abi := Ok(WithData(if v1b then ERC721_WITH_DATA_V1B_IID else ERC721_WITH_DATA_V1A_IID));
      case ERC721NoData =>
        abi := Ok(NoData(false, legacyERC721));
      case ERC20WithData =>
        abi := Ok(WithData(ERC20_WITH_DATA_IID));
      case ERC20NoData =>
        abi := Ok(NoData(true, legacyERC20));
    }
  }
}
