/** Methods of fungible tokens: the tables of src/tokens/erc20.ts. */
module Erc20 {
  import opened Wrappers
  import opened AbiMapper
  import opened Requests
  import EventIds
  import Hex

  const UINT256_MAX := 0xFFFF_FFFF_FFFF_FFFF_FFFF_FFFF_FFFF_FFFF_FFFF_FFFF_FFFF_FFFF_FFFF_FFFF_FFFF_FFFF

  const EVENTS := ["Transfer", "Approval"]

  /** Not approved is no allowance; approved without one is the largest. */
  function Allowance(dto: TokenApproval): string {
    if !dto.approved then "0"
    else if dto.allowance.Some? then dto.allowance.value
    else EventIds.BigIntText(UINT256_MAX)
  }

  function ApprovalMethods(): seq<MethodSignature<TokenApproval>> {
    [ MethodSignature("approveWithData", ["address", "uint256", "bytes"],
                      (dto: TokenApproval) => Params([Text(dto.operator), Text(Allowance(dto)), DataParam(dto.data)])),
      MethodSignature("approve", ["address", "uint256"],
                      (dto: TokenApproval) => Params([Text(dto.operator), Text(Allowance(dto))])) ]
  }

  function BurnMethods(): seq<MethodSignature<TokenBurn>> {
    [ MethodSignature("burnWithData", ["address", "uint256", "bytes"],
                      (dto: TokenBurn) => Params([Text(dto.from), Given(dto.amount), DataParam(dto.data)])),
      MethodSignature("burn", ["uint256"],
                      (dto: TokenBurn) => if dto.from == dto.signer then Params([Given(dto.amount)]) else NotApplicable),
      MethodSignature("burnFrom", ["address", "uint256"],
                      (dto: TokenBurn) => Params([Text(dto.from), Given(dto.amount)])),
      MethodSignature("burn", ["address", "uint256"],
                      (dto: TokenBurn) => Params([Text(dto.from), Given(dto.amount)])) ]
  }

  function MintMethods(): seq<MethodSignature<TokenMint>> {
    [ MethodSignature("mintWithData", ["address", "uint256", "bytes"],
                      (dto: TokenMint) => Params([Text(dto.to), Given(dto.amount), DataParam(dto.data)])),
      MethodSignature("mint", ["address", "uint256"],
                      (dto: TokenMint) => Params([Text(dto.to), Given(dto.amount)])) ]
  }

  function TransferMethods(): seq<MethodSignature<TokenTransfer>> {
    [ MethodSignature("transferWithData", ["address", "address", "uint256", "bytes"],
                      (dto: TokenTransfer) => Params([Text(dto.from), Text(dto.to), Given(dto.amount), DataParam(dto.data)])),
      MethodSignature("transfer", ["address", "uint256"],
                      (dto: TokenTransfer) => if dto.from == dto.signer then Params([Text(dto.to), Given(dto.amount)])
                                              else NotApplicable),
      MethodSignature("transferFrom", ["address", "address", "uint256"],
                      (dto: TokenTransfer) => Params([Text(dto.from), Text(dto.to), Given(dto.amount)])) ]
  }

  // No two signatures of a table have the same shape, every input gets a parameter, and bytes carry the data.

  lemma ApprovalTable()
    ensures Distinct(ApprovalMethods()) && FillsInputs(ApprovalMethods())
    ensures CarriesData(ApprovalMethods(), (dto: TokenApproval) => dto.data)
  {
    var table := ApprovalMethods();
    forall i, dto, k: nat | 0 <= i < |table| && BytesAt(table[i], dto, k)
      ensures table[i].params(dto).values[k] == DataParam(dto.data)
    {
      assert i == 0;
    }
  }

  lemma BurnTable()
    ensures Distinct(BurnMethods()) && FillsInputs(BurnMethods())
    ensures CarriesData(BurnMethods(), (dto: TokenBurn) => dto.data)
  {
    var table := BurnMethods();
    forall i, dto, k: nat | 0 <= i < |table| && BytesAt(table[i], dto, k)
      ensures table[i].params(dto).values[k] == DataParam(dto.data)
    {
      assert i == 0;
    }
  }

  lemma MintTable()
    ensures Distinct(MintMethods()) && FillsInputs(MintMethods())
    ensures CarriesData(MintMethods(), (dto: TokenMint) => dto.data)
  {
    var table := MintMethods();
    forall i, dto, k: nat | 0 <= i < |table| && BytesAt(table[i], dto, k)
      ensures table[i].params(dto).values[k] == DataParam(dto.data)
    {
      assert i == 0;
    }
  }

  lemma TransferTable()
    ensures Distinct(TransferMethods()) && FillsInputs(TransferMethods())
    ensures CarriesData(TransferMethods(), (dto: TokenTransfer) => dto.data)
  {
    var table := TransferMethods();
    forall i, dto, k: nat | 0 <= i < |table| && BytesAt(table[i], dto, k)
      ensures table[i].params(dto).values[k] == DataParam(dto.data)
    {
      assert i == 0;
    }
  }

  // ---- what a call does ----

  /** A call on a token contract, by the meaning its method has in EIP-20 and the contracts the table names. */
  datatype Effect =
    | Approves(spender: Param, allowance: Param)
    | Burns(from: Param, amount: Param)
    | Mints(to: Param, amount: Param)
    | Transfers(from: Param, to: Param, amount: Param)
    | Unknown

  /** Methods without a holder among their inputs act on the tokens of the signer. */
  function EffectOf(c: Choice, signer: string): Effect
    requires c.Chosen?
  {
    var v, m := c.values, c.chosen;
    if m.name.None? || m.inputs.None? || |v| != |m.inputs.value| then Unknown
    else
      var name, n := m.name.value, |m.inputs.value|;
      if (name == "approveWithData" && n == 3) || (name == "approve" && n == 2) then Approves(v[0], v[1])
      else if name == "burn" && n == 1 then Burns(Text(signer), v[0])
      else if (name == "burnWithData" && n == 3) || (name in ["burnFrom", "burn"] && n == 2) then Burns(v[0], v[1])
      else if (name == "mintWithData" && n == 3) || (name == "mint" && n == 2) then Mints(v[0], v[1])
      else if name == "transfer" && n == 2 then Transfers(Text(signer), v[0], v[1])
      else if (name == "transferWithData" && n == 4) || (name == "transferFrom" && n == 3) then Transfers(v[0], v[1], v[2])
      else Unknown
  }

  /** A transfer request becomes a call that moves the amount asked from the holder asked to the receiver asked. */
  lemma TransferIsAsAsked(abi: seq<AbiMethod>, dto: TokenTransfer, c: Choice)
    requires IsChoice(abi, TransferMethods(), dto, c) && !c.NoMethod?
    ensures c.Chosen? && EffectOf(c, dto.signer) == Transfers(Text(dto.from), Text(dto.to), Given(dto.amount))
  {
    var i := ChosenFrom(abi, TransferMethods(), dto, c);
  }

  lemma BurnIsAsAsked(abi: seq<AbiMethod>, dto: TokenBurn, c: Choice)
    requires IsChoice(abi, BurnMethods(), dto, c) && !c.NoMethod?
    ensures c.Chosen? && EffectOf(c, dto.signer) == Burns(Text(dto.from), Given(dto.amount))
  {
    var i := ChosenFrom(abi, BurnMethods(), dto, c);
  }

  lemma MintIsAsAsked(abi: seq<AbiMethod>, dto: TokenMint, c: Choice)
    requires IsChoice(abi, MintMethods(), dto, c) && !c.NoMethod?
    ensures c.Chosen? && EffectOf(c, dto.signer) == Mints(Text(dto.to), Given(dto.amount))
  {
    var i := ChosenFrom(abi, MintMethods(), dto, c);
  }

  lemma ApprovalIsAsAsked(abi: seq<AbiMethod>, dto: TokenApproval, c: Choice)
    requires IsChoice(abi, ApprovalMethods(), dto, c) && !c.NoMethod?
    ensures c.Chosen? && EffectOf(c, dto.signer) == Approves(Text(dto.operator), Text(Allowance(dto)))
  {
    var i := ChosenFrom(abi, ApprovalMethods(), dto, c);
  }

  /** A transfer or burn finds no method only for want of one that names the holder, or that is open to the signer. */
  lemma NoMethodIff(abi: seq<AbiMethod>, dto: TokenTransfer, burn: TokenBurn, c: Choice, c': Choice)
    requires IsChoice(abi, TransferMethods(), dto, c) && IsChoice(abi, BurnMethods(), burn, c')
    ensures c.NoMethod? <==> !Offers(abi, TransferMethods()[0]) && !Offers(abi, TransferMethods()[2])
                             && (Offers(abi, TransferMethods()[1]) ==> dto.from != dto.signer)
    ensures c'.NoMethod? <==> !Offers(abi, BurnMethods()[0]) && !Offers(abi, BurnMethods()[2]) && !Offers(abi, BurnMethods()[3])
                              && (Offers(abi, BurnMethods()[1]) ==> burn.from != burn.signer)
  {
    if !c.NoMethod? {
      var i := ChosenFrom(abi, TransferMethods(), dto, c);
    }
    if !c'.NoMethod? {
      var i := ChosenFrom(abi, BurnMethods(), burn, c');
    }
  }

  // ---- which method, by priority ----

  function Pow2(n: nat): nat {
    if n == 0 then 1 else 2 * Pow2(n - 1)
  }

  lemma {:induction false} Pow2Doubles(n: nat, m: nat)
    ensures Pow2(n + m) == Pow2(n) * Pow2(m)
  {
    if m > 0 {
      Pow2Doubles(n, m - 1);
    }
  }

  lemma Pow2Of8()
    ensures Pow2(8) == 256
  {
    assert Pow2(4) == 16;
  }

  /** The allowance for approval without one is two to the 256 less one. */
  lemma LargestAllowance()
    ensures UINT256_MAX == Pow2(256) - 1
  {
    hide Pow2;
    Pow2Of8();
    Pow2Doubles(8, 8);
    Pow2Doubles(16, 16);
    Pow2Doubles(32, 32);
    Pow2Doubles(64, 64);
    Pow2Doubles(128, 128);
  }

  /**
   * A transfer is made by the method that takes data, with the data in hex, if the contract has it; else by
   * `transfer`, if it has that and the holder signs; else by `transferFrom`.
   */
  lemma TransferPriority(abi: seq<AbiMethod>, dto: TokenTransfer, c: Choice)
    requires IsChoice(abi, TransferMethods(), dto, c)
    ensures
      var amount := if dto.amount.Some? then Text(dto.amount.value) else Undefined;
      var data := Text(Hex.EncodeHex(if dto.data.Some? then dto.data.value else ""));
      if Has(abi, "transferWithData", ["address", "address", "uint256", "bytes"]) then
        Calls(abi, c, "transferWithData", ["address", "address", "uint256", "bytes"], [Text(dto.from), Text(dto.to), amount, data])
      else if Has(abi, "transfer", ["address", "uint256"]) && dto.from == dto.signer then
        Calls(abi, c, "transfer", ["address", "uint256"], [Text(dto.to), amount])
      else if Has(abi, "transferFrom", ["address", "address", "uint256"]) then
        Calls(abi, c, "transferFrom", ["address", "address", "uint256"], [Text(dto.from), Text(dto.to), amount])
      else c.NoMethod?
  {
    var table := TransferMethods();
    assert |table| == 3;
    assert table[0].name == "transferWithData" && table[0].inputs == ["address", "address", "uint256", "bytes"];
    assert table[1].name == "transfer" && table[1].inputs == ["address", "uint256"];
    assert table[2].name == "transferFrom" && table[2].inputs == ["address", "address", "uint256"];
    hide IsChoice, Has, Calls;
    if Has(abi, "transferWithData", ["address", "address", "uint256", "bytes"]) {
      RowDecides(abi, table, dto, c, 0);
    } else if Has(abi, "transfer", ["address", "uint256"]) && dto.from == dto.signer {
      RowDecides(abi, table, dto, c, 1);
    } else if Has(abi, "transferFrom", ["address", "address", "uint256"]) {
      RowDecides(abi, table, dto, c, 2);
    } else {
      NoRowDecides(abi, table, dto, c);
    }
  }

  /**
   * A burn is made by the method that takes data if the contract has it; else by the one that burns of the
   * signer, if the holder signs; else by `burnFrom`, and else by the `burn` that names the holder.
   */
  lemma BurnPriority(abi: seq<AbiMethod>, dto: TokenBurn, c: Choice)
    requires IsChoice(abi, BurnMethods(), dto, c)
    ensures
      var amount := if dto.amount.Some? then Text(dto.amount.value) else Undefined;
      var data := Text(Hex.EncodeHex(if dto.data.Some? then dto.data.value else ""));
      if Has(abi, "burnWithData", ["address", "uint256", "bytes"]) then
        Calls(abi, c, "burnWithData", ["address", "uint256", "bytes"], [Text(dto.from), amount, data])
      else if Has(abi, "burn", ["uint256"]) && dto.from == dto.signer then
        Calls(abi, c, "burn", ["uint256"], [amount])
      else if Has(abi, "burnFrom", ["address", "uint256"]) then
        Calls(abi, c, "burnFrom", ["address", "uint256"], [Text(dto.from), amount])
      else if Has(abi, "burn", ["address", "uint256"]) then
        Calls(abi, c, "burn", ["address", "uint256"], [Text(dto.from), amount])
      else c.NoMethod?
  {
    var table := BurnMethods();
    assert |table| == 4;
    assert table[0].name == "burnWithData" && table[0].inputs == ["address", "uint256", "bytes"];
    assert table[1].name == "burn" && table[1].inputs == ["uint256"];
    assert table[2].name == "burnFrom" && table[2].inputs == ["address", "uint256"];
    assert table[3].name == "burn" && table[3].inputs == ["address", "uint256"];
    hide IsChoice, Has, Calls;
    if Has(abi, "burnWithData", ["address", "uint256", "bytes"]) {
      RowDecides(abi, table, dto, c, 0);
    } else if Has(abi, "burn", ["uint256"]) && dto.from == dto.signer {
      RowDecides(abi, table, dto, c, 1);
    } else if Has(abi, "burnFrom", ["address", "uint256"]) {
      RowDecides(abi, table, dto, c, 2);
    } else if Has(abi, "burn", ["address", "uint256"]) {
      RowDecides(abi, table, dto, c, 3);
    } else {
      NoRowDecides(abi, table, dto, c);
    }
  }

  /**
   * A mint is made by the method that takes data if the contract has it, and else by `mint`.
   */
  lemma MintPriority(abi: seq<AbiMethod>, dto: TokenMint, c: Choice)
    requires IsChoice(abi, MintMethods(), dto, c)
    ensures
      var amount := if dto.amount.Some? then Text(dto.amount.value) else Undefined;
      var data := Text(Hex.EncodeHex(if dto.data.Some? then dto.data.value else ""));
      if Has(abi, "mintWithData", ["address", "uint256", "bytes"]) then
        Calls(abi, c, "mintWithData", ["address", "uint256", "bytes"], [Text(dto.to), amount, data])
      else if Has(abi, "mint", ["address", "uint256"]) then
        Calls(abi, c, "mint", ["address", "uint256"], [Text(dto.to), amount])
      else c.NoMethod?
  {
    var table := MintMethods();
    assert |table| == 2;
    assert table[0].name == "mintWithData" && table[0].inputs == ["address", "uint256", "bytes"];
    assert table[1].name == "mint" && table[1].inputs == ["address", "uint256"];
    hide IsChoice, Has, Calls;
    if Has(abi, "mintWithData", ["address", "uint256", "bytes"]) {
      RowDecides(abi, table, dto, c, 0);
    } else if Has(abi, "mint", ["address", "uint256"]) {
      RowDecides(abi, table, dto, c, 1);
    } else {
      NoRowDecides(abi, table, dto, c);
    }
  }

  /**
   * An approval is made by the method that takes data if the contract has it, and else by `approve`; of nothing
   * if it is withdrawn, and of the largest number of 256 bits if no allowance is given.
   */
  lemma ApprovalPriority(abi: seq<AbiMethod>, dto: TokenApproval, c: Choice)
    requires IsChoice(abi, ApprovalMethods(), dto, c)
    ensures
      var unlimited := EventIds.BigIntText(Pow2(256) - 1);
      var allowance := Text(if !dto.approved then "0" else if dto.allowance.Some? then dto.allowance.value else unlimited);
      var data := Text(Hex.EncodeHex(if dto.data.Some? then dto.data.value else ""));
      if Has(abi, "approveWithData", ["address", "uint256", "bytes"]) then
        Calls(abi, c, "approveWithData", ["address", "uint256", "bytes"], [Text(dto.operator), allowance, data])
      else if Has(abi, "approve", ["address", "uint256"]) then
        Calls(abi, c, "approve", ["address", "uint256"], [Text(dto.operator), allowance])
      else c.NoMethod?
  {
    LargestAllowance();
    var table := ApprovalMethods();
    assert |table| == 2;
    assert table[0].name == "approveWithData" && table[0].inputs == ["address", "uint256", "bytes"];
    assert table[1].name == "approve" && table[1].inputs == ["address", "uint256"];
    hide IsChoice, Has, Calls;
    if Has(abi, "approveWithData", ["address", "uint256", "bytes"]) {
      RowDecides(abi, table, dto, c, 0);
    } else if Has(abi, "approve", ["address", "uint256"]) {
      RowDecides(abi, table, dto, c, 1);
    } else {
      NoRowDecides(abi, table, dto, c);
    }
  }

  // ---- the approved flag ----

  /** The listener's reading of an Approval log of a fungible token; None is the SyntaxError of BigInt. */
  function ReportedApproved(value: Option<string>): Option<bool> {
    var n := EventIds.ParseBigInt(if value.Some? then value.value else "0");
    if n.None? then None else Some(n.value > 0)
  }

  /** The flag reported for the allowance of a call is the one asked, unless approval came with an allowance of nothing. */
  lemma ReportedIsAsked(dto: TokenApproval)
    ensures var n := if dto.allowance.Some? then EventIds.ParseBigInt(dto.allowance.value) else Some(UINT256_MAX);
            && (ReportedApproved(Some(Allowance(dto))) == Some(dto.approved) <==> !dto.approved || (n.Some? && n.value > 0))
            && (ReportedApproved(Some(Allowance(dto))).None? <==> dto.approved && n.None?)
    ensures ReportedApproved(None) == Some(false)
  {
    EventIds.ParsePrinted(UINT256_MAX);
    EventIds.PlainDecimal(0);
    assert EventIds.Digits(0) == "0";
  }
}
