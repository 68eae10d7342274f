/** Methods of non-fungible tokens: the tables of src/tokens/erc721.ts. */
module Erc721 {
  import opened Wrappers
  import opened AbiMapper
  import opened Requests
  import Hex

  const ZERO_ADDRESS := "0x0000000000000000000000000000000000000000"

  const EVENTS := ["Transfer", "Approval", "ApprovalForAll"]

  // ---- checks, in the order a signature makes them ----

  function CheckAmount(amount: Option<string>): Option<BadRequest> {
    if amount.Some? && amount.value != "1" then Some(WrongAmount) else None
  }

  function VerifyNoUri(uri: Option<string>): Option<BadRequest> {
    if uri.Some? && uri.value != "" then Some(UriNotSupported) else None
  }

  function VerifyNoIndex(tokenIndex: Option<string>): Option<BadRequest> {
    if tokenIndex.Some? then Some(IndexNotSupported) else None
  }

  /** The parameters, unless a check throws; the first one that does decides. */
  function Checked(first: Option<BadRequest>, second: Option<BadRequest>, third: Option<BadRequest>, values: seq<Param>): Mapped {
    if first.Some? then Throws(first.value)
    else if second.Some? then Throws(second.value)
    else if third.Some? then Throws(third.value)
    else Params(values)
  }

  function OperatorParam(dto: TokenApproval): Param {
    Text(if dto.approved then dto.operator else ZERO_ADDRESS)
  }

  function ApprovalMethods(): seq<MethodSignature<TokenApproval>> {
    [ MethodSignature("approveWithData", ["address", "uint256", "bytes"],
                      (dto: TokenApproval) =>
                        if dto.tokenIndex.Some? then Params([OperatorParam(dto), Given(dto.tokenIndex), DataParam(dto.data)])
                        else NotApplicable),
      MethodSignature("setApprovalForAllWithData", ["address", "bool", "bytes"],
                      (dto: TokenApproval) =>
                        if dto.tokenIndex.None? then Params([Text(dto.operator), Flag(dto.approved), DataParam(dto.data)])
                        else NotApplicable),
      MethodSignature("approve", ["address", "uint256"],
                      (dto: TokenApproval) =>
                        if dto.tokenIndex.Some? then Params([OperatorParam(dto), Given(dto.tokenIndex)]) else NotApplicable),
      MethodSignature("setApprovalForAll", ["address", "bool"],
                      (dto: TokenApproval) =>
                        if dto.tokenIndex.None? then Params([Text(dto.operator), Flag(dto.approved)]) else NotApplicable) ]
  }

  function BurnMethods(): seq<MethodSignature<TokenBurn>> {
    [ MethodSignature("burnWithData", ["address", "uint256", "bytes"],
                      (dto: TokenBurn) => Checked(CheckAmount(dto.amount), None, None,
                                                  [Text(dto.from), Given(dto.tokenIndex), DataParam(dto.data)])),
      MethodSignature("burn", ["uint256"],
                      (dto: TokenBurn) => Checked(CheckAmount(dto.amount), None, None, [Given(dto.tokenIndex)])),
      MethodSignature("burn", ["address", "uint256"],
                      (dto: TokenBurn) => Checked(CheckAmount(dto.amount), None, None, [Text(dto.from), Given(dto.tokenIndex)])) ]
  }

  function MintMethods(): seq<MethodSignature<TokenMint>> {
    [ MethodSignature("mintWithURI", ["address", "bytes", "string"],
                      (dto: TokenMint) => Checked(CheckAmount(dto.amount), None, VerifyNoIndex(dto.tokenIndex),
                                                  [Text(dto.to), DataParam(dto.data), Text(OrEmpty(dto.uri))])),
      MethodSignature("mintWithURI", ["address", "uint256", "bytes", "string"],
                      (dto: TokenMint) => Checked(CheckAmount(dto.amount), None, None,
                                                  [Text(dto.to), Given(dto.tokenIndex), DataParam(dto.data), Text(OrEmpty(dto.uri))])),
      MethodSignature("mintWithData", ["address", "bytes"],
                      (dto: TokenMint) => Checked(CheckAmount(dto.amount), VerifyNoUri(dto.uri), VerifyNoIndex(dto.tokenIndex),
                                                  [Text(dto.to), DataParam(dto.data)])),
      MethodSignature("mintWithData", ["address", "uint256", "bytes"],
                      (dto: TokenMint) => Checked(CheckAmount(dto.amount), VerifyNoUri(dto.uri), None,
                                                  [Text(dto.to), Given(dto.tokenIndex), DataParam(dto.data)])),
      MethodSignature("safeMint", ["address", "string"],
                      (dto: TokenMint) => Checked(CheckAmount(dto.amount), None, VerifyNoIndex(dto.tokenIndex),
                                                  [Text(dto.to), Text(OrEmpty(dto.uri))])),
      MethodSignature("safeMint", ["address", "uint256", "string"],
                      (dto: TokenMint) => Checked(CheckAmount(dto.amount), None, None,
                                                  [Text(dto.to), Given(dto.tokenIndex), Text(OrEmpty(dto.uri))])),
      MethodSignature("safeMint", ["address"],
                      (dto: TokenMint) => Checked(CheckAmount(dto.amount), VerifyNoUri(dto.uri), VerifyNoIndex(dto.tokenIndex),
                                                  [Text(dto.to)])),
      MethodSignature("safeMint", ["address", "uint256"],
                      (dto: TokenMint) => Checked(CheckAmount(dto.amount), VerifyNoUri(dto.uri), None,
                                                  [Text(dto.to), Given(dto.tokenIndex)])),
      MethodSignature("mint", ["address", "uint256"],
                      (dto: TokenMint) => Checked(CheckAmount(dto.amount), VerifyNoUri(dto.uri), None,
                                                  [Text(dto.to), Given(dto.tokenIndex)])) ]
  }

  function TransferMethods(): seq<MethodSignature<TokenTransfer>> {
    [ MethodSignature("transferWithData", ["address", "address", "uint256", "bytes"],
                      (dto: TokenTransfer) => Checked(CheckAmount(dto.amount), None, None,
                                                      [Text(dto.from), Text(dto.to), Given(dto.tokenIndex), DataParam(dto.data)])),
      MethodSignature("safeTransferFrom", ["address", "address", "uint256", "bytes"],
                      (dto: TokenTransfer) => Checked(CheckAmount(dto.amount), None, None,
                                                      [Text(dto.from), Text(dto.to), Given(dto.tokenIndex), DataParam(dto.data)])),
      MethodSignature("safeTransferFrom", ["address", "address", "uint256"],
                      (dto: TokenTransfer) => Checked(CheckAmount(dto.amount), None, None,
                                                      [Text(dto.from), Text(dto.to), Given(dto.tokenIndex)])) ]
  }

  // No two signatures of a table have the same shape, every input gets a parameter, and bytes carry the data.

  lemma ApprovalTable()
    ensures Distinct(ApprovalMethods()) && FillsInputs(ApprovalMethods())
    ensures CarriesData(ApprovalMethods(), (dto: TokenApproval) => dto.data)
  {
    var table := ApprovalMethods();
    forall i, dto, k: nat | 0 <= i < |table| && BytesAt(table[i], dto, k)
      ensures table[i].params(dto).values[k] == DataParam(dto.data)
    {
      assert i < 2;
    }
  }

  lemma BurnTable()
    ensures Distinct(BurnMethods()) && FillsInputs(BurnMethods())
  {
  }

  lemma BurnCarriesData()
    ensures CarriesData(BurnMethods(), (dto: TokenBurn) => dto.data)
  {
    var table := BurnMethods();
    forall i, dto, k: nat | 0 <= i < |table| && BytesAt(table[i], dto, k)
      ensures table[i].params(dto).values[k] == DataParam(dto.data)
    {
      assert i == 0;
    }
  }

  lemma MintTable()
    ensures Distinct(MintMethods())
  {
  }

  lemma MintCarriesData()
    ensures CarriesData(MintMethods(), (dto: TokenMint) => dto.data)
  {
    var table := MintMethods();
    forall i, dto, k: nat | 0 <= i < |table| && BytesAt(table[i], dto, k)
      ensures table[i].params(dto).values[k] == DataParam(dto.data)
    {
      assert i < 4;
    }
  }

  lemma TransferTable()
    ensures Distinct(TransferMethods()) && FillsInputs(TransferMethods())
  {
  }

  lemma TransferCarriesData()
    ensures CarriesData(TransferMethods(), (dto: TokenTransfer) => dto.data)
  {
    var table := TransferMethods();
    forall i, dto, k: nat | 0 <= i < |table| && BytesAt(table[i], dto, k)
      ensures table[i].params(dto).values[k] == DataParam(dto.data)
    {
      assert i < 2;
    }
  }

  // ---- what a call does ----

  /** The parameter for the first input of a type; no method of the tables has more than four inputs. */
  function ParamFor(c: Choice, inputType: string): Option<Param>
    requires c.Chosen? && c.chosen.inputs.Some? && |c.values| == |c.chosen.inputs.value|
  {
    var v, t := c.values, c.chosen.inputs.value;
    if |t| > 0 && t[0].inputType == inputType then Some(v[0])
    else if |t| > 1 && t[1].inputType == inputType then Some(v[1])
    else if |t| > 2 && t[2].inputType == inputType then Some(v[2])
    else if |t| > 3 && t[3].inputType == inputType then Some(v[3])
    else None
  }

  datatype Effect =
    | ApprovesToken(operator: Param, token: Param)
    | ApprovesAll(operator: Param, approved: Param)
    | Burns(holder: Option<Param>, index: Option<Param>)
    | Mints(to: Param, index: Option<Param>, uri: Option<Param>)
    | Transfers(from: Param, to: Param, index: Option<Param>)
    | Unknown

  /** A call on a token contract, by the meaning its method has in EIP-721 and the contracts the table names. */
  function EffectOf(c: Choice): Effect
    requires c.Chosen?
  {
    if c.chosen.name.None? || c.chosen.inputs.None? || |c.values| != |c.chosen.inputs.value| then Unknown
    else
      var name, v := c.chosen.name.value, c.values;
      var index := ParamFor(c, "uint256");
      if name in ["approveWithData", "approve"] && |v| >= 2 then ApprovesToken(v[0], v[1])
      else if name in ["setApprovalForAllWithData", "setApprovalForAll"] && |v| >= 2 then ApprovesAll(v[0], v[1])
      else if name in ["burnWithData", "burn"] then Burns(ParamFor(c, "address"), index)
      else if name in ["mintWithURI", "mintWithData", "safeMint", "mint"] && |v| >= 1 then Mints(v[0], index, ParamFor(c, "string"))
      else if name in ["transferWithData", "safeTransferFrom"] && |v| >= 3 then Transfers(v[0], v[1], index)
      else Unknown
  }

  /** The signature that the search of a table without inapplicable cases ends on. */
  ghost predicate FirstOffered<D(!new)>(abi: seq<AbiMethod>, signatures: seq<MethodSignature<D>>, i: nat) {
    && i < |signatures|
    && Offers(abi, signatures[i])
    && forall k :: 0 <= k < i ==> !Offers(abi, signatures[k])
  }

  /** What a mint signature makes of a request, told by its inputs alone. */
  ghost predicate MintsByInputs(signature: MethodSignature<TokenMint>, dto: TokenMint) {
    var inputs, mapped := signature.inputs, signature.params(dto);
    && signature.name in ["mintWithURI", "mintWithData", "safeMint", "mint"]
    && 1 <= |inputs| <= 4
    && inputs[0] == "address"
    && if dto.amount.Some? && dto.amount.value != "1" then mapped == Throws(WrongAmount)
       else if dto.uri.Some? && dto.uri.value != "" && "string" !in inputs then mapped == Throws(UriNotSupported)
       else if dto.tokenIndex.Some? && "uint256" !in inputs then mapped == Throws(IndexNotSupported)
       else
         && mapped.Params?
         && |mapped.values| == |inputs|
         && mapped.values[0] == Text(dto.to)
         && forall k :: 0 <= k < |inputs| ==>
              && (inputs[k] == "uint256" ==> mapped.values[k] == Given(dto.tokenIndex))
              && (inputs[k] == "string" ==> mapped.values[k] == Text(OrEmpty(dto.uri)))
  }

  lemma FireFlyMintRows(dto: TokenMint, i: nat)
    requires i < 4
    ensures MintsByInputs(MintMethods()[i], dto)
  {
  }

  lemma OtherMintRows(dto: TokenMint, i: nat)
    requires 4 <= i < |MintMethods()|
    ensures MintsByInputs(MintMethods()[i], dto)
  {
  }

  lemma MintRows(dto: TokenMint, i: nat)
    requires i < |MintMethods()|
    ensures MintsByInputs(MintMethods()[i], dto)
  {
    hide *;
    if i < 4 {
      FireFlyMintRows(dto, i);
    } else {
      OtherMintRows(dto, i);
    }
  }

  lemma MintFillsInputs()
    ensures FillsInputs(MintMethods())
  {
    hide MintMethods;
    forall i, dto | 0 <= i < |MintMethods()| && MintMethods()[i].params(dto).Params?
      ensures |MintMethods()[i].params(dto).values| == |MintMethods()[i].inputs|
    {
      MintRows(dto, i);
    }
  }

  lemma ParamForFinds(c: Choice, inputType: string, k: nat)
    requires c.Chosen? && c.chosen.inputs.Some? && |c.values| == |c.chosen.inputs.value| <= 4
    requires k < |c.values| && c.chosen.inputs.value[k].inputType == inputType
    ensures exists j :: 0 <= j < |c.values| && c.chosen.inputs.value[j].inputType == inputType && ParamFor(c, inputType) == Some(c.values[j])
  {
  }

  /**
   * A mint is decided by the first signature the ABI offers. It is rejected for a wrong amount, for a URI
   * the method has no input for, and for an index the method has no input for, in that order; and otherwise
   * the receiver, any index given and any URI given are among the parameters.
   */
  lemma MintIsAsAskedOrRejected(abi: seq<AbiMethod>, dto: TokenMint, c: Choice, i: nat)
    requires IsChoice(abi, MintMethods(), dto, c) && FirstOffered(abi, MintMethods(), i)
    ensures var inputs := MintMethods()[i].inputs;
            if dto.amount.Some? && dto.amount.value != "1" then c == Rejected(WrongAmount)
            else if dto.uri.Some? && dto.uri.value != "" && "string" !in inputs then c == Rejected(UriNotSupported)
            else if dto.tokenIndex.Some? && "uint256" !in inputs then c == Rejected(IndexNotSupported)
            else
              && c.Chosen? && Matches(c.chosen, MintMethods()[i])
              && EffectOf(c).Mints? && EffectOf(c).to == Text(dto.to)
              && (dto.tokenIndex.Some? ==> EffectOf(c).index == Some(Text(dto.tokenIndex.value)))
              && (dto.uri.Some? && dto.uri.value != "" ==> EffectOf(c).uri == Some(Text(dto.uri.value)))
  {
    hide MintMethods, ParamFor;
    MintRows(dto, i);
    assert Applies(abi, MintMethods()[i], dto);
    var k := ChosenFrom(abi, MintMethods(), dto, c);
    assert k == i;
    var inputs := MintMethods()[i].inputs;
    if c.Chosen? {
      if dto.tokenIndex.Some? {
        var j :| 0 <= j < |inputs| && inputs[j] == "uint256";
        ParamForFinds(c, "uint256", j);
      }
      if dto.uri.Some? && dto.uri.value != "" {
        var j :| 0 <= j < |inputs| && inputs[j] == "string";
        ParamForFinds(c, "string", j);
      }
    }
  }

  /** A mint that was not rejected is as asked. */
  lemma ChosenMint(abi: seq<AbiMethod>, dto: TokenMint, c: Choice)
    requires IsChoice(abi, MintMethods(), dto, c) && c.Chosen?
    ensures dto.amount.Some? ==> dto.amount.value == "1"
    ensures EffectOf(c).Mints? && EffectOf(c).to == Text(dto.to)
    ensures dto.tokenIndex.Some? ==> EffectOf(c).index == Some(Text(dto.tokenIndex.value))
    ensures dto.uri.Some? && dto.uri.value != "" ==> EffectOf(c).uri == Some(Text(dto.uri.value))
  {
    hide MintMethods, EffectOf;
    var k := ChosenFrom(abi, MintMethods(), dto, c);
    forall i | 0 <= i < k ensures !Offers(abi, MintMethods()[i]) {
      MintRows(dto, i);
      assert !Applies(abi, MintMethods()[i], dto);
    }
    assert FirstOffered(abi, MintMethods(), k);
    MintIsAsAskedOrRejected(abi, dto, c, k);
  }

  /** A later signature is not tried once an earlier one has thrown, though it would have taken the index. */
  lemma IndexRejectedThoughTaken() returns (abi: seq<AbiMethod>, dto: TokenMint)
    ensures dto.tokenIndex.Some? && IsChoice(abi, MintMethods(), dto, Rejected(IndexNotSupported))
    ensures Offers(abi, MintMethods()[1]) && MintMethods()[1].params(dto).Params?
  {
    FirstMintRows();
    var address, index, bytes, text := AbiInput("address", "to"), AbiInput("uint256", "id"), AbiInput("bytes", "data"), AbiInput("string", "uri");
    var auto := AbiMethod(Some("mintWithURI"), Some([address, bytes, text]), "");
    var manual := AbiMethod(Some("mintWithURI"), Some([address, index, bytes, text]), "");
    abi, dto := [auto, manual], TokenMint("", "", Some("7"), None, None, None);
    MintRows(dto, 0);
    MintRows(dto, 1);
    hide MintMethods;
    var table := MintMethods();
    assert Matches(auto, table[0]) && Matches(manual, table[1]);
    assert FirstToApply(abi, table, dto, 0) && FirstToMatch(abi, table[0], 0);
    assert OfMapped(abi[0], table[0].params(dto)) == Rejected(IndexNotSupported);
  }

  lemma FirstMintRows()
    ensures |MintMethods()| == 9
    ensures MintMethods()[0].name == "mintWithURI" && MintMethods()[0].inputs == ["address", "bytes", "string"]
    ensures MintMethods()[1].name == "mintWithURI" && MintMethods()[1].inputs == ["address", "uint256", "bytes", "string"]
  {
  }

  /** What a transfer signature makes of a request. */
  lemma TransferRows(dto: TokenTransfer, i: nat)
    requires i < |TransferMethods()|
    ensures var row := TransferMethods()[i];
            && row.name in ["transferWithData", "safeTransferFrom"]
            && 3 <= |row.inputs| <= 4
            && row.inputs[0] == "address" && row.inputs[1] == "address" && row.inputs[2] == "uint256"
            && if dto.amount.Some? && dto.amount.value != "1" then row.params(dto) == Throws(WrongAmount)
               else
                 && row.params(dto).Params? && |row.params(dto).values| == |row.inputs|
                 && row.params(dto).values[0] == Text(dto.from) && row.params(dto).values[1] == Text(dto.to)
                 && row.params(dto).values[2] == Given(dto.tokenIndex)
  {
  }

  lemma EffectOfTransfer(c: Choice)
    requires c.Chosen? && c.chosen.inputs.Some? && |c.values| == |c.chosen.inputs.value| >= 3
    requires c.chosen.name == Some("transferWithData") || c.chosen.name == Some("safeTransferFrom")
    ensures EffectOf(c) == Transfers(c.values[0], c.values[1], ParamFor(c, "uint256"))
  {
    hide ParamFor;
  }

  lemma TransferIsAsAskedOrRejected(abi: seq<AbiMethod>, dto: TokenTransfer, c: Choice)
    requires IsChoice(abi, TransferMethods(), dto, c) && !c.NoMethod?
    ensures if dto.amount.Some? && dto.amount.value != "1" then c == Rejected(WrongAmount)
            else c.Chosen? && EffectOf(c) == Transfers(Text(dto.from), Text(dto.to), Some(Given(dto.tokenIndex)))
  {
    hide TransferMethods, EffectOf;
    var i := ChosenFrom(abi, TransferMethods(), dto, c);
    TransferRows(dto, i);
    if c.Chosen? {
      EffectOfTransfer(c);
    }
  }

  /** The one method without a holder burns by index alone; every other names the holder asked. */
  lemma BurnIsAsAskedOrRejected(abi: seq<AbiMethod>, dto: TokenBurn, c: Choice)
    requires IsChoice(abi, BurnMethods(), dto, c) && !c.NoMethod?
    ensures if dto.amount.Some? && dto.amount.value != "1" then c == Rejected(WrongAmount)
            else
              && c.Chosen?
              && EffectOf(c) == Burns(if Matches(c.chosen, BurnMethods()[1]) then None else Some(Text(dto.from)), Some(Given(dto.tokenIndex)))
  {
    var i := ChosenFrom(abi, BurnMethods(), dto, c);
    if c.Chosen? {
      ShapeDecides(c.chosen, BurnMethods()[i], BurnMethods()[1]);
    }
  }

  /** With an index one token is approved, to no one if approval is withdrawn; without one, all tokens are. */
  lemma ApprovalIsAsAsked(abi: seq<AbiMethod>, dto: TokenApproval, c: Choice)
    requires IsChoice(abi, ApprovalMethods(), dto, c)
    ensures !c.Rejected?
    ensures c.Chosen? ==> EffectOf(c) == if dto.tokenIndex.Some? then ApprovesToken(OperatorParam(dto), Text(dto.tokenIndex.value))
                                         else ApprovesAll(Text(dto.operator), Flag(dto.approved))
  {
    if !c.NoMethod? {
      var i := ChosenFrom(abi, ApprovalMethods(), dto, c);
    }
  }

  // ---- which method, by priority ----

  /** The call, unless the amount asked is not one. */
  ghost predicate CallsForOne(abi: seq<AbiMethod>, c: Choice, amount: Option<string>, name: string, types: seq<string>, values: seq<Param>) {
    if amount.Some? && amount.value != "1" then c == Rejected(WrongAmount) else Calls(abi, c, name, types, values)
  }

  /**
   * With an index the methods for one token are looked for, without one those for all; of either, first the one
   * that takes data.
   */
  lemma ApprovalPriority(abi: seq<AbiMethod>, dto: TokenApproval, c: Choice)
    requires IsChoice(abi, ApprovalMethods(), dto, c)
    ensures
      var index := if dto.tokenIndex.Some? then Text(dto.tokenIndex.value) else Undefined;
      var data := Text(Hex.EncodeHex(if dto.data.Some? then dto.data.value else ""));
      var operator := Text(if dto.approved then dto.operator else "0x0000000000000000000000000000000000000000");
      if Has(abi, "approveWithData", ["address", "uint256", "bytes"]) && dto.tokenIndex.Some? then
        Calls(abi, c, "approveWithData", ["address", "uint256", "bytes"], [operator, index, data])
      else if Has(abi, "setApprovalForAllWithData", ["address", "bool", "bytes"]) && dto.tokenIndex.None? then
        Calls(abi, c, "setApprovalForAllWithData", ["address", "bool", "bytes"], [Text(dto.operator), Flag(dto.approved), data])
      else if Has(abi, "approve", ["address", "uint256"]) && dto.tokenIndex.Some? then
        Calls(abi, c, "approve", ["address", "uint256"], [operator, index])
      else if Has(abi, "setApprovalForAll", ["address", "bool"]) && dto.tokenIndex.None? then
        Calls(abi, c, "setApprovalForAll", ["address", "bool"], [Text(dto.operator), Flag(dto.approved)])
      else c.NoMethod?
  {
    var table := ApprovalMethods();
    assert |table| == 4;
    assert table[0].name == "approveWithData" && table[0].inputs == ["address", "uint256", "bytes"];
    assert table[1].name == "setApprovalForAllWithData" && table[1].inputs == ["address", "bool", "bytes"];
    assert table[2].name == "approve" && table[2].inputs == ["address", "uint256"];
    assert table[3].name == "setApprovalForAll" && table[3].inputs == ["address", "bool"];
    hide IsChoice, Has, Calls;
    if Has(abi, "approveWithData", ["address", "uint256", "bytes"]) && dto.tokenIndex.Some? {
      RowDecides(abi, table, dto, c, 0);
    } else if Has(abi, "setApprovalForAllWithData", ["address", "bool", "bytes"]) && dto.tokenIndex.None? {
      RowDecides(abi, table, dto, c, 1);
    } else if Has(abi, "approve", ["address", "uint256"]) && dto.tokenIndex.Some? {
      RowDecides(abi, table, dto, c, 2);
    } else if Has(abi, "setApprovalForAll", ["address", "bool"]) && dto.tokenIndex.None? {
      RowDecides(abi, table, dto, c, 3);
    } else {
      NoRowDecides(abi, table, dto, c);
    }
  }

  /**
   * A burn is made by the method that takes data if the contract has it; else by the one with the index alone,
   * and else by the one that names the holder.
   */
  lemma BurnPriority(abi: seq<AbiMethod>, dto: TokenBurn, c: Choice)
    requires IsChoice(abi, BurnMethods(), dto, c)
    ensures
      var index := if dto.tokenIndex.Some? then Text(dto.tokenIndex.value) else Undefined;
      var data := Text(Hex.EncodeHex(if dto.data.Some? then dto.data.value else ""));
      if Has(abi, "burnWithData", ["address", "uint256", "bytes"]) then
        CallsForOne(abi, c, dto.amount, "burnWithData", ["address", "uint256", "bytes"], [Text(dto.from), index, data])
      else if Has(abi, "burn", ["uint256"]) then
        CallsForOne(abi, c, dto.amount, "burn", ["uint256"], [index])
      else if Has(abi, "burn", ["address", "uint256"]) then
        CallsForOne(abi, c, dto.amount, "burn", ["address", "uint256"], [Text(dto.from), index])
      else c.NoMethod?
  {
    var table := BurnMethods();
    assert |table| == 3;
    assert table[0].name == "burnWithData" && table[0].inputs == ["address", "uint256", "bytes"];
    assert table[1].name == "burn" && table[1].inputs == ["uint256"];
    assert table[2].name == "burn" && table[2].inputs == ["address", "uint256"];
    hide IsChoice, Has, Calls;
    if Has(abi, "burnWithData", ["address", "uint256", "bytes"]) {
      RowDecides(abi, table, dto, c, 0);
    } else if Has(abi, "burn", ["uint256"]) {
      RowDecides(abi, table, dto, c, 1);
    } else if Has(abi, "burn", ["address", "uint256"]) {
      RowDecides(abi, table, dto, c, 2);
    } else {
      NoRowDecides(abi, table, dto, c);
    }
  }

  /**
   * A transfer is made by a method that takes data, `transferWithData` before `safeTransferFrom`, if the contract
   * has one, and else by `safeTransferFrom` without.
   */
  lemma TransferPriority(abi: seq<AbiMethod>, dto: TokenTransfer, c: Choice)
    requires IsChoice(abi, TransferMethods(), dto, c)
    ensures
      var index := if dto.tokenIndex.Some? then Text(dto.tokenIndex.value) else Undefined;
      var data := Text(Hex.EncodeHex(if dto.data.Some? then dto.data.value else ""));
      if Has(abi, "transferWithData", ["address", "address", "uint256", "bytes"]) then
        CallsForOne(abi, c, dto.amount, "transferWithData", ["address", "address", "uint256", "bytes"], [Text(dto.from), Text(dto.to), index, data])
      else if Has(abi, "safeTransferFrom", ["address", "address", "uint256", "bytes"]) then
        CallsForOne(abi, c, dto.amount, "safeTransferFrom", ["address", "address", "uint256", "bytes"], [Text(dto.from), Text(dto.to), index, data])
      else if Has(abi, "safeTransferFrom", ["address", "address", "uint256"]) then
        CallsForOne(abi, c, dto.amount, "safeTransferFrom", ["address", "address", "uint256"], [Text(dto.from), Text(dto.to), index])
      else c.NoMethod?
  {
    var table := TransferMethods();
    assert |table| == 3;
    assert table[0].name == "transferWithData" && table[0].inputs == ["address", "address", "uint256", "bytes"];
    assert table[1].name == "safeTransferFrom" && table[1].inputs == ["address", "address", "uint256", "bytes"];
    assert table[2].name == "safeTransferFrom" && table[2].inputs == ["address", "address", "uint256"];
    hide IsChoice, Has, Calls;
    if Has(abi, "transferWithData", ["address", "address", "uint256", "bytes"]) {
      RowDecides(abi, table, dto, c, 0);
    } else if Has(abi, "safeTransferFrom", ["address", "address", "uint256", "bytes"]) {
      RowDecides(abi, table, dto, c, 1);
    } else if Has(abi, "safeTransferFrom", ["address", "address", "uint256"]) {
      RowDecides(abi, table, dto, c, 2);
    } else {
      NoRowDecides(abi, table, dto, c);
    }
  }

  /** The call, unless the amount asked is not one, or a URI or an index is given that the method has no input for. */
  ghost predicate CallsToMint(abi: seq<AbiMethod>, c: Choice, dto: TokenMint, name: string, types: seq<string>, values: seq<Param>) {
    if dto.amount.Some? && dto.amount.value != "1" then c == Rejected(WrongAmount)
    else if dto.uri.Some? && dto.uri.value != "" && "string" !in types then c == Rejected(UriNotSupported)
    else if dto.tokenIndex.Some? && "uint256" !in types then c == Rejected(IndexNotSupported)
    else Calls(abi, c, name, types, values)
  }

  /** A row of the table of mint signatures: its name, its inputs, and the values it gives unless it throws. */
  ghost predicate MintRow(i: nat, dto: TokenMint, name: string, types: seq<string>, values: seq<Param>) {
    && i < |MintMethods()| && MintMethods()[i].name == name && MintMethods()[i].inputs == types
    && (MintMethods()[i].params(dto).Params? ==> MintMethods()[i].params(dto) == Params(values))
  }

  lemma FireFlyMintRowsAre(dto: TokenMint)
    ensures
      var to := Text(dto.to);
      var index := if dto.tokenIndex.Some? then Text(dto.tokenIndex.value) else Undefined;
      var data := Text(Hex.EncodeHex(if dto.data.Some? then dto.data.value else ""));
      var uri := Text(if dto.uri.Some? then dto.uri.value else "");
      && MintRow(0, dto, "mintWithURI", ["address", "bytes", "string"], [to, data, uri])
      && MintRow(1, dto, "mintWithURI", ["address", "uint256", "bytes", "string"], [to, index, data, uri])
      && MintRow(2, dto, "mintWithData", ["address", "bytes"], [to, data])
      && MintRow(3, dto, "mintWithData", ["address", "uint256", "bytes"], [to, index, data])
  {
  }

  lemma OtherMintRowsAre(dto: TokenMint)
    ensures
      var to := Text(dto.to);
      var index := if dto.tokenIndex.Some? then Text(dto.tokenIndex.value) else Undefined;
      var data := Text(Hex.EncodeHex(if dto.data.Some? then dto.data.value else ""));
      var uri := Text(if dto.uri.Some? then dto.uri.value else "");
      && MintRow(4, dto, "safeMint", ["address", "string"], [to, uri])
      && MintRow(5, dto, "safeMint", ["address", "uint256", "string"], [to, index, uri])
      && MintRow(6, dto, "safeMint", ["address"], [to])
      && MintRow(7, dto, "safeMint", ["address", "uint256"], [to, index])
      && MintRow(8, dto, "mint", ["address", "uint256"], [to, index])
      && |MintMethods()| == 9
  {
  }

  /** A row that is the first one the ABI has decides the mint. */
  lemma MintRowDecides(abi: seq<AbiMethod>, dto: TokenMint, c: Choice, i: nat, name: string, types: seq<string>, values: seq<Param>)
    requires IsChoice(abi, MintMethods(), dto, c) && MintRow(i, dto, name, types, values) && Has(abi, name, types)
    requires forall k :: 0 <= k < i ==> !Has(abi, MintMethods()[k].name, MintMethods()[k].inputs)
    ensures CallsToMint(abi, c, dto, name, types, values)
  {
    hide MintMethods, IsChoice, Has, Calls;
    MintRows(dto, i);
    RowDecides(abi, MintMethods(), dto, c, i);
  }

  /**
   * A mint is made by the first of nine methods that the contract has: those that take a URI, those that take data,
   * and then those that take neither, of each kind first the one that makes the index itself.
   */
  lemma MintPriority(abi: seq<AbiMethod>, dto: TokenMint, c: Choice)
    requires IsChoice(abi, MintMethods(), dto, c)
    ensures
      var to := Text(dto.to);
      var index := if dto.tokenIndex.Some? then Text(dto.tokenIndex.value) else Undefined;
      var data := Text(Hex.EncodeHex(if dto.data.Some? then dto.data.value else ""));
      var uri := Text(if dto.uri.Some? then dto.uri.value else "");
      if Has(abi, "mintWithURI", ["address", "bytes", "string"]) then
        CallsToMint(abi, c, dto, "mintWithURI", ["address", "bytes", "string"], [to, data, uri])
      else if Has(abi, "mintWithURI", ["address", "uint256", "bytes", "string"]) then
        CallsToMint(abi, c, dto, "mintWithURI", ["address", "uint256", "bytes", "string"], [to, index, data, uri])
      else if Has(abi, "mintWithData", ["address", "bytes"]) then
        CallsToMint(abi, c, dto, "mintWithData", ["address", "bytes"], [to, data])
      else if Has(abi, "mintWithData", ["address", "uint256", "bytes"]) then
        CallsToMint(abi, c, dto, "mintWithData", ["address", "uint256", "bytes"], [to, index, data])
      else if Has(abi, "safeMint", ["address", "string"]) then
        CallsToMint(abi, c, dto, "safeMint", ["address", "string"], [to, uri])
      else if Has(abi, "safeMint", ["address", "uint256", "string"]) then
        CallsToMint(abi, c, dto, "safeMint", ["address", "uint256", "string"], [to, index, uri])
      else if Has(abi, "safeMint", ["address"]) then
        CallsToMint(abi, c, dto, "safeMint", ["address"], [to])
      else if Has(abi, "safeMint", ["address", "uint256"]) then
        CallsToMint(abi, c, dto, "safeMint", ["address", "uint256"], [to, index])
      else if Has(abi, "mint", ["address", "uint256"]) then
        CallsToMint(abi, c, dto, "mint", ["address", "uint256"], [to, index])
      else c.NoMethod?
  {
    FireFlyMintRowsAre(dto);
    OtherMintRowsAre(dto);
    hide MintMethods, IsChoice, Has, CallsToMint;
    var to := Text(dto.to);
    var index := if dto.tokenIndex.Some? then Text(dto.tokenIndex.value) else Undefined;
    var data := Text(Hex.EncodeHex(if dto.data.Some? then dto.data.value else ""));
    var uri := Text(if dto.uri.Some? then dto.uri.value else "");
    if Has(abi, "mintWithURI", ["address", "bytes", "string"]) {
      MintRowDecides(abi, dto, c, 0, "mintWithURI", ["address", "bytes", "string"], [to, data, uri]);
    } else if Has(abi, "mintWithURI", ["address", "uint256", "bytes", "string"]) {
      MintRowDecides(abi, dto, c, 1, "mintWithURI", ["address", "uint256", "bytes", "string"], [to, index, data, uri]);
    } else if Has(abi, "mintWithData", ["address", "bytes"]) {
      MintRowDecides(abi, dto, c, 2, "mintWithData", ["address", "bytes"], [to, data]);
    } else if Has(abi, "mintWithData", ["address", "uint256", "bytes"]) {
      MintRowDecides(abi, dto, c, 3, "mintWithData", ["address", "uint256", "bytes"], [to, index, data]);
    } else if Has(abi, "safeMint", ["address", "string"]) {
      MintRowDecides(abi, dto, c, 4, "safeMint", ["address", "string"], [to, uri]);
    } else if Has(abi, "safeMint", ["address", "uint256", "string"]) {
      MintRowDecides(abi, dto, c, 5, "safeMint", ["address", "uint256", "string"], [to, index, uri]);
    } else if Has(abi, "safeMint", ["address"]) {
      MintRowDecides(abi, dto, c, 6, "safeMint", ["address"], [to]);
    } else if Has(abi, "safeMint", ["address", "uint256"]) {
      MintRowDecides(abi, dto, c, 7, "safeMint", ["address", "uint256"], [to, index]);
    } else if Has(abi, "mint", ["address", "uint256"]) {
      MintRowDecides(abi, dto, c, 8, "mint", ["address", "uint256"], [to, index]);
    } else {
      NoRowDecides(abi, MintMethods(), dto, c);
    }
  }

  /** The listener's reading of an Approval log of a non-fungible token: approved is someone. */
  predicate ReportedApproved(operator: string) {
    operator != ZERO_ADDRESS
  }
}
