/** Token requests (src/tokens/tokens.interfaces.ts), without the fields that no method parameter comes from. */
module Requests {
  import opened Wrappers
  import opened AbiMapper
  import Hex

  /** `allowance` and `tokenIndex` are the two fields of the optional config. */
  datatype TokenApproval = TokenApproval(signer: string, operator: string, approved: bool, allowance: Option<string>,
                                         tokenIndex: Option<string>, data: Option<string>)

  datatype TokenBurn = TokenBurn(signer: string, from: string, tokenIndex: Option<string>, amount: Option<string>,
                                 data: Option<string>)

  datatype TokenMint = TokenMint(signer: string, to: string, tokenIndex: Option<string>, amount: Option<string>,
                                 uri: Option<string>, data: Option<string>)

  datatype TokenTransfer = TokenTransfer(signer: string, from: string, to: string, tokenIndex: Option<string>,
                                         amount: Option<string>, data: Option<string>)

  function OrEmpty(s: Option<string>): string {
    if s.Some? then s.value else ""
  }

  /** An optional field passed on as it is. */
  function Given(s: Option<string>): Param {
    if s.Some? then Text(s.value) else Undefined
  }

  function DataParam(data: Option<string>): Param {
    Text(Hex.EncodeHex(OrEmpty(data)))
  }

  /** What a listener decodes from the data of a request: no data, empty data and a null character are alike. */
  function Received(data: Option<string>): string {
    if data == Some("\0") then "" else OrEmpty(data)
  }

  /** The signature gives parameters, and the one at k is for a bytes input. */
  predicate BytesAt<D(!new)>(signature: MethodSignature<D>, dto: D, k: nat) {
    && signature.params(dto).Params?
    && k < |signature.params(dto).values|
    && k < |signature.inputs|
    && signature.inputs[k] == "bytes"
  }

  /** Every bytes input of the table is given the hex form of the data of the request. */
  ghost predicate CarriesData<D(!new)>(signatures: seq<MethodSignature<D>>, data: D -> Option<string>) {
    forall i, dto, k: nat :: 0 <= i < |signatures| && BytesAt(signatures[i], dto, k)
                        ==> signatures[i].params(dto).values[k] == DataParam(data(dto))
  }

  /** The data of a request comes back, decoded, from any bytes parameter of the call it becomes. */
  lemma DataComesBack<D(!new)>(abi: seq<AbiMethod>, signatures: seq<MethodSignature<D>>, data: D -> Option<string>, dto: D,
                               c: Choice, k: nat)
    requires FillsInputs(signatures) && CarriesData(signatures, data)
    requires IsChoice(abi, signatures, dto, c) && c.Chosen?
    requires c.chosen.inputs.Some? && k < |c.chosen.inputs.value| && c.chosen.inputs.value[k].inputType == "bytes"
    ensures |c.values| > k && c.values[k].Text? && Hex.DecodeHex(c.values[k].text) == Received(data(dto))
  {
    var i := ChosenFrom(abi, signatures, dto, c);
    assert BytesAt(signatures[i], dto, k);
    Hex.RoundTrip(OrEmpty(data(dto)));
  }
}
