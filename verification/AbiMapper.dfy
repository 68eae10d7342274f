/**
 * Choice of a contract method for a token operation (src/tokens/abimapper.service.ts): a prioritized list
 * of signatures is searched for in an ABI, and each signature says how a request becomes its parameters.
 */
module AbiMapper {
  import opened Picking
  import opened Wrappers

  datatype AbiInput = AbiInput(inputType: string, name: string)

  /** An entry of an ABI; the fields that the search ignores are in `rest`. */
  datatype AbiMethod = AbiMethod(name: Option<string>, inputs: Option<seq<AbiInput>>, rest: string)

  datatype Param = Undefined | Text(text: string) | Flag(flag: bool)

  datatype BadRequest = WrongAmount | UriNotSupported | IndexNotSupported

  /** What a signature makes of a request: parameters, undefined, or an exception. */
  datatype Mapped = Params(values: seq<Param>) | NotApplicable | Throws(error: BadRequest)

  datatype MethodSignature<!D> = MethodSignature(name: string, inputs: seq<string>, params: D -> Mapped)

  /** What a request comes to. The empty object returned when nothing is found is NoMethod. */
  datatype Choice = Chosen(chosen: AbiMethod, values: seq<Param>) | NoMethod | Rejected(error: BadRequest)

  /** The method has the name and, in order, the input types of the signature. */
  predicate Matches<D(!new)>(m: AbiMethod, signature: MethodSignature<D>) {
    && m.name == Some(signature.name)
    && m.inputs.Some?
    && |m.inputs.value| == |signature.inputs|
    && forall i :: 0 <= i < |signature.inputs| ==> m.inputs.value[i].inputType == signature.inputs[i]
  }

  method SignatureMatch<D(!new)>(m: AbiMethod, signature: MethodSignature<D>) returns (result: bool)
    ensures result <==> Matches(m, signature)
  {
    if m.name != Some(signature.name) || m.inputs.None? || |signature.inputs| != |m.inputs.value| {
      return false;
    }
    for i := 0 to |signature.inputs|
      invariant forall k :: 0 <= k < i ==> m.inputs.value[k].inputType == signature.inputs[k]
    {
      if signature.inputs[i] != m.inputs.value[i].inputType {
        return false;
      }
    }
    return true;
  }

  // ---- all methods that match ----

  /** The entries that match one signature, in the order of the ABI. */
  function Matching<D(!new)>(abi: seq<AbiMethod>, signature: MethodSignature<D>): seq<AbiMethod> {
    if abi == [] then []
    else
      var front := Matching(abi[..|abi| - 1], signature);
      if Matches(abi[|abi| - 1], signature) then front + [abi[|abi| - 1]] else front
  }

  function AllMethods<D(!new)>(abi: seq<AbiMethod>, signatures: seq<MethodSignature<D>>): seq<AbiMethod> {
    if signatures == [] then []
    else AllMethods(abi, signatures[..|signatures| - 1]) + Matching(abi, signatures[|signatures| - 1])
  }

  method GetAllMethods<D(!new)>(abi: seq<AbiMethod>, signatures: seq<MethodSignature<D>>) returns (methods: seq<AbiMethod>)
    ensures methods == AllMethods(abi, signatures)
  {
    methods := [];
    for i := 0 to |signatures|
      invariant methods == AllMethods(abi, signatures[..i])
    {
      assert signatures[..i + 1][..i] == signatures[..i];
      for j := 0 to |abi|
        invariant methods == AllMethods(abi, signatures[..i]) + Matching(abi[..j], signatures[i])
      {
        assert abi[..j + 1][..j] == abi[..j];
        var matched := SignatureMatch(abi[j], signatures[i]);
        if matched {
          methods := methods + [abi[j]];
        }
      }
      assert abi[..|abi|] == abi;
    }
    assert signatures[..|signatures|] == signatures;
  }

  // ---- the search ----

  function OfMapped(m: AbiMethod, mapped: Mapped): Choice
    requires !mapped.NotApplicable?
  {
    if mapped.Params? then Chosen(m, mapped.values) else Rejected(mapped.error)
  }

  /** Some entry matches the signature. */
  ghost predicate Offers<D(!new)>(abi: seq<AbiMethod>, signature: MethodSignature<D>) {
    exists m :: m in abi && Matches(m, signature)
  }

  /** The ABI has a method for the signature, and the signature has something to say about the request. */
  ghost predicate Applies<D(!new)>(abi: seq<AbiMethod>, signature: MethodSignature<D>, dto: D) {
    Offers(abi, signature) && !signature.params(dto).NotApplicable?
  }

  ghost predicate FirstToApply<D(!new)>(abi: seq<AbiMethod>, signatures: seq<MethodSignature<D>>, dto: D, i: nat) {
    && i < |signatures|
    && Applies(abi, signatures[i], dto)
    && forall k :: 0 <= k < i ==> !Applies(abi, signatures[k], dto)
  }

  ghost predicate FirstToMatch<D(!new)>(abi: seq<AbiMethod>, signature: MethodSignature<D>, j: nat) {
    && j < |abi|
    && Matches(abi[j], signature)
    && forall k :: 0 <= k < j ==> !Matches(abi[k], signature)
  }

  /**
   * What the search is to give: nothing when no signature applies, and otherwise what the applicable
   * signature of highest priority makes of the request, on the first entry that matches it.
   */
  ghost predicate IsChoice<D(!new)>(abi: seq<AbiMethod>, signatures: seq<MethodSignature<D>>, dto: D, choice: Choice) {
    if choice.NoMethod? then forall i :: 0 <= i < |signatures| ==> !Applies(abi, signatures[i], dto)
    else exists i: nat, j: nat ::
      && FirstToApply(abi, signatures, dto, i)
      && FirstToMatch(abi, signatures[i], j)
      && choice == OfMapped(abi[j], signatures[i].params(dto))
  }

  method GetMethodAndParams<D(!new)>(abi: seq<AbiMethod>, signatures: seq<MethodSignature<D>>, dto: D) returns (choice: Choice)
    ensures IsChoice(abi, signatures, dto, choice)
  {
    for i := 0 to |signatures|
      invariant forall k :: 0 <= k < i ==> !Applies(abi, signatures[k], dto)
    {
      for j := 0 to |abi|
        invariant forall k :: 0 <= k < j && Matches(abi[k], signatures[i]) ==> signatures[i].params(dto).NotApplicable?
      {
        var matched := SignatureMatch(abi[j], signatures[i]);
        if matched {
          var mapped := signatures[i].params(dto);
          if mapped.Throws? {
            assert FirstToMatch(abi, signatures[i], j) && FirstToApply(abi, signatures, dto, i);
            return Rejected(mapped.error);
          }
          if mapped.Params? {
            assert FirstToMatch(abi, signatures[i], j) && FirstToApply(abi, signatures, dto, i);
            return Chosen(abi[j], mapped.values);
          }
        }
      }
    }
    return NoMethod;
  }

  /** There is one answer and no more. */
  lemma ChoiceIsUnique<D(!new)>(abi: seq<AbiMethod>, signatures: seq<MethodSignature<D>>, dto: D, c: Choice, c': Choice)
    requires IsChoice(abi, signatures, dto, c) && IsChoice(abi, signatures, dto, c')
    ensures c == c'
  {
    if !c.NoMethod? && !c'.NoMethod? {
      var i: nat, j: nat :| FirstToApply(abi, signatures, dto, i) && FirstToMatch(abi, signatures[i], j)
                            && c == OfMapped(abi[j], signatures[i].params(dto));
      var i': nat, j': nat :| FirstToApply(abi, signatures, dto, i') && FirstToMatch(abi, signatures[i'], j')
                              && c' == OfMapped(abi[j'], signatures[i'].params(dto));
      assert i == i';
      assert j == j';
    }
  }

  // ---- filtering ----

  /** Two signatures no method can tell apart. */
  predicate SameShape<D(!new), E(!new)>(s: MethodSignature<D>, t: MethodSignature<E>) {
    s.name == t.name && s.inputs == t.inputs
  }

  lemma ShapeDecides<D(!new), E(!new)>(m: AbiMethod, s: MethodSignature<D>, t: MethodSignature<E>)
    requires Matches(m, s)
    ensures Matches(m, t) <==> SameShape(s, t)
  {
    if Matches(m, t) {
      assert forall i :: 0 <= i < |s.inputs| ==> s.inputs[i] == t.inputs[i];
    }
  }

  ghost predicate Keeps<D(!new), E(!new)>(kept: seq<MethodSignature<D>>, signature: MethodSignature<E>) {
    exists k :: 0 <= k < |kept| && SameShape(kept[k], signature)
  }

  /** Every signature searched for has the shape of one that was kept. */
  ghost predicate Covers<D(!new), E(!new)>(kept: seq<MethodSignature<D>>, searched: seq<MethodSignature<E>>) {
    forall i :: 0 <= i < |searched| ==> Keeps(kept, searched[i])
  }

  lemma {:induction false} MatchingMembers<D(!new)>(abi: seq<AbiMethod>, signature: MethodSignature<D>)
    ensures forall m :: m in Matching(abi, signature) <==> m in abi && Matches(m, signature)
    ensures Matching(abi, signature) == [] <==> forall m :: m in abi ==> !Matches(m, signature)
  {
    if abi != [] {
      MatchingMembers(abi[..|abi| - 1], signature);
      assert abi == abi[..|abi| - 1] + [abi[|abi| - 1]];
    }
  }

  lemma {:induction false} AllMethodsMembers<D(!new)>(abi: seq<AbiMethod>, signatures: seq<MethodSignature<D>>)
    ensures forall m :: m in AllMethods(abi, signatures)
                    <==> m in abi && exists i :: 0 <= i < |signatures| && Matches(m, signatures[i])
  {
    if signatures != [] {
      var front, last := signatures[..|signatures| - 1], signatures[|signatures| - 1];
      AllMethodsMembers(abi, front);
      MatchingMembers(abi, last);
      forall m ensures m in AllMethods(abi, signatures) <==> m in abi && exists i :: 0 <= i < |signatures| && Matches(m, signatures[i]) {
        if i :| 0 <= i < |signatures| && Matches(m, signatures[i]) {
          assert i < |front| ==> front[i] == signatures[i];
        }
      }
    }
  }

  lemma {:induction false} MatchingConcat<D(!new)>(a: seq<AbiMethod>, b: seq<AbiMethod>, signature: MethodSignature<D>)
    ensures Matching(a + b, signature) == Matching(a, signature) + Matching(b, signature)
  {
    if b == [] {
      assert a + b == a;
    } else {
      assert (a + b)[..|a + b| - 1] == a + b[..|b| - 1];
      MatchingConcat(a, b[..|b| - 1], signature);
    }
  }

  lemma {:induction false} MatchingAgain<D(!new), E(!new)>(abi: seq<AbiMethod>, s: MethodSignature<D>, t: MethodSignature<E>)
    ensures Matching(Matching(abi, s), t) == if SameShape(s, t) then Matching(abi, s) else []
  {
    if abi != [] {
      MatchingAgain(abi[..|abi| - 1], s, t);
      var last := abi[|abi| - 1];
      if Matches(last, s) {
        ShapeDecides(last, s, t);
        var front := Matching(abi[..|abi| - 1], s);
        assert (front + [last])[..|front|] == front;
      }
    }
  }

  lemma {:induction false} SameShapeMatching<D(!new), E(!new)>(abi: seq<AbiMethod>, s: MethodSignature<D>, t: MethodSignature<E>)
    requires SameShape(s, t)
    ensures Matching(abi, s) == Matching(abi, t)
  {
    if abi != [] {
      SameShapeMatching(abi[..|abi| - 1], s, t);
    }
  }

  /** The kept list of one signature starts with all the entries that matched it, if it was kept at all. */
  lemma {:induction false} KeptStarts<D(!new), E(!new)>(abi: seq<AbiMethod>, kept: seq<MethodSignature<D>>, t: MethodSignature<E>)
    ensures if Keeps(kept, t) then Matching(abi, t) <= Matching(AllMethods(abi, kept), t)
            else Matching(AllMethods(abi, kept), t) == []
  {
    if kept != [] {
      var front, last := kept[..|kept| - 1], kept[|kept| - 1];
      KeptStarts(abi, front, t);
      MatchingConcat(AllMethods(abi, front), Matching(abi, last), t);
      MatchingAgain(abi, last, t);
      if SameShape(last, t) {
        SameShapeMatching(abi, last, t);
      }
      if k :| 0 <= k < |kept| && SameShape(kept[k], t) {
        assert k < |front| ==> SameShape(front[k], t);
      }
    }
  }

  lemma {:induction false} FirstIsHead<D(!new)>(abi: seq<AbiMethod>, signature: MethodSignature<D>, j: nat)
    requires FirstToMatch(abi, signature, j)
    ensures Matching(abi, signature) != [] && abi[j] == Matching(abi, signature)[0]
  {
    var front, last := abi[..|abi| - 1], |abi| - 1;
    if j < last {
      assert FirstToMatch(front, signature, j);
      FirstIsHead(front, signature, j);
    } else {
      MatchingMembers(front, signature);
    }
  }

  lemma {:induction false} HeadIsFirst<D(!new)>(abi: seq<AbiMethod>, signature: MethodSignature<D>) returns (j: nat)
    requires Matching(abi, signature) != []
    ensures FirstToMatch(abi, signature, j) && abi[j] == Matching(abi, signature)[0]
  {
    var front, last := abi[..|abi| - 1], |abi| - 1;
    if Matching(front, signature) != [] {
      j := HeadIsFirst(front, signature);
      assert forall k :: 0 <= k < last ==> front[k] == abi[k];
    } else {
      j := last;
      MatchingMembers(front, signature);
      forall k | 0 <= k < last ensures !Matches(abi[k], signature) {
        assert front[k] in front;
      }
    }
  }

  /** The search seen through lists: what applies is decided by the matching entries, and the first one is taken. */
  lemma ChoiceByLists<D(!new)>(abi: seq<AbiMethod>, signatures: seq<MethodSignature<D>>, dto: D, c: Choice)
    ensures IsChoice(abi, signatures, dto, c) <==>
            if c.NoMethod? then forall i :: 0 <= i < |signatures| ==> !Usable(abi, signatures[i], dto)
            else exists i: nat :: FirstUsable(abi, signatures, dto, i)
                              && c == OfMapped(Matching(abi, signatures[i])[0], signatures[i].params(dto))
  {
    forall s | s in signatures ensures Usable(abi, s, dto) <==> Applies(abi, s, dto) {
      MatchingMembers(abi, s);
      if Usable(abi, s, dto) {
        assert Matching(abi, s)[0] in Matching(abi, s);
      }
    }
    if !c.NoMethod? {
      if i: nat, j: nat :| FirstToApply(abi, signatures, dto, i) && FirstToMatch(abi, signatures[i], j)
                           && c == OfMapped(abi[j], signatures[i].params(dto)) {
        FirstIsHead(abi, signatures[i], j);
        assert FirstUsable(abi, signatures, dto, i);
      }
      if i: nat :| FirstUsable(abi, signatures, dto, i) && c == OfMapped(Matching(abi, signatures[i])[0], signatures[i].params(dto)) {
        var j := HeadIsFirst(abi, signatures[i]);
        assert FirstToApply(abi, signatures, dto, i);
      }
    }
  }

  ghost predicate Usable<D(!new)>(abi: seq<AbiMethod>, signature: MethodSignature<D>, dto: D) {
    Matching(abi, signature) != [] && !signature.params(dto).NotApplicable?
  }

  ghost predicate FirstUsable<D(!new)>(abi: seq<AbiMethod>, signatures: seq<MethodSignature<D>>, dto: D, i: nat) {
    && i < |signatures|
    && Usable(abi, signatures[i], dto)
    && forall k :: 0 <= k < i ==> !Usable(abi, signatures[k], dto)
  }

  /**
   * Searching an ABI that was filtered by a list of signatures gives what searching the whole ABI gives,
   * method, parameters and exceptions alike, as long as the list covers the signatures searched for.
   */
  lemma FilterKeepsChoice<D(!new), E(!new)>(abi: seq<AbiMethod>, kept: seq<MethodSignature<D>>,
                                            searched: seq<MethodSignature<E>>, dto: E, c: Choice)
    requires Covers(kept, searched)
    ensures IsChoice(AllMethods(abi, kept), searched, dto, c) <==> IsChoice(abi, searched, dto, c)
  {
    var filtered := AllMethods(abi, kept);
    forall i | 0 <= i < |searched|
      ensures Matching(filtered, searched[i]) == [] <==> Matching(abi, searched[i]) == []
      ensures Matching(abi, searched[i]) != [] ==> Matching(filtered, searched[i])[0] == Matching(abi, searched[i])[0]
    {
      KeptStarts(abi, kept, searched[i]);
      MatchingMembers(filtered, searched[i]);
      AllMethodsMembers(abi, kept);
      MatchingMembers(abi, searched[i]);
      if Matching(filtered, searched[i]) != [] {
        assert Matching(filtered, searched[i])[0] in Matching(filtered, searched[i]);
      }
    }
    ChoiceByLists(abi, searched, dto, c);
    ChoiceByLists(filtered, searched, dto, c);
    forall i: nat ensures FirstUsable(filtered, searched, dto, i) <==> FirstUsable(abi, searched, dto, i) {
      if i < |searched| {
        assert forall k :: 0 <= k <= i ==> (Usable(filtered, searched[k], dto) <==> Usable(abi, searched[k], dto));
      }
    }
  }

  // ---- tables whose signatures differ ----

  ghost predicate Distinct<D(!new)>(signatures: seq<MethodSignature<D>>) {
    forall i, j :: 0 <= i < j < |signatures| ==> !SameShape(signatures[i], signatures[j])
  }

  lemma DistinctFront<D(!new)>(signatures: seq<MethodSignature<D>>)
    requires Distinct(signatures) && signatures != []
    ensures Distinct(signatures[..|signatures| - 1])
    ensures !Keeps(signatures[..|signatures| - 1], signatures[|signatures| - 1])
    ensures forall i :: 0 <= i < |signatures| - 1 ==> !SameShape(signatures[|signatures| - 1], signatures[i])
  {
  }

  /** Filtering is stable: it keeps, for each signature of the table, the matching entries in their order. */
  lemma {:induction false} FilterIsStable<D(!new)>(abi: seq<AbiMethod>, signatures: seq<MethodSignature<D>>, i: nat)
    requires Distinct(signatures) && i < |signatures|
    ensures Matching(AllMethods(abi, signatures), signatures[i]) == Matching(abi, signatures[i])
  {
    var front, last := signatures[..|signatures| - 1], signatures[|signatures| - 1];
    DistinctFront(signatures);
    hide Distinct, SameShape;
    MatchingConcat(AllMethods(abi, front), Matching(abi, last), signatures[i]);
    MatchingAgain(abi, last, signatures[i]);
    if i < |front| {
      FilterIsStable(abi, front, i);
    } else {
      KeptStarts(abi, front, last);
      SameShapeItself(last);
    }
  }

  lemma SameShapeItself<D(!new)>(s: MethodSignature<D>)
    ensures SameShape(s, s)
  {
  }

  lemma {:induction false} SameMatchingSameAll<D(!new)>(abi: seq<AbiMethod>, abi': seq<AbiMethod>, signatures: seq<MethodSignature<D>>)
    requires forall i :: 0 <= i < |signatures| ==> Matching(abi, signatures[i]) == Matching(abi', signatures[i])
    ensures AllMethods(abi, signatures) == AllMethods(abi', signatures)
  {
    if signatures != [] {
      var last := |signatures| - 1;
      assert forall i :: 0 <= i < last ==> signatures[..last][i] == signatures[i];
      SameMatchingSameAll(abi, abi', signatures[..last]);
    }
  }

  /** Filtering again changes nothing. */
  lemma FilterIsIdempotent<D(!new)>(abi: seq<AbiMethod>, signatures: seq<MethodSignature<D>>)
    requires Distinct(signatures)
    ensures AllMethods(AllMethods(abi, signatures), signatures) == AllMethods(abi, signatures)
  {
    forall i | 0 <= i < |signatures|
      ensures Matching(AllMethods(abi, signatures), signatures[i]) == Matching(abi, signatures[i])
    {
      FilterIsStable(abi, signatures, i);
    }
    SameMatchingSameAll(AllMethods(abi, signatures), abi, signatures);
  }

  predicate MatchesAny<D(!new)>(m: AbiMethod, signatures: seq<MethodSignature<D>>) {
    exists i :: 0 <= i < |signatures| && Matches(m, signatures[i])
  }

  lemma {:induction false} CountMatching<D(!new)>(abi: seq<AbiMethod>, signature: MethodSignature<D>, m: AbiMethod)
    ensures multiset(Matching(abi, signature))[m] == if Matches(m, signature) then multiset(abi)[m] else 0
  {
    if abi != [] {
      CountMatching(abi[..|abi| - 1], signature, m);
      assert abi == abi[..|abi| - 1] + [abi[|abi| - 1]];
    }
  }

  lemma NotBoth<D(!new)>(signatures: seq<MethodSignature<D>>, m: AbiMethod, i: nat, j: nat)
    requires Distinct(signatures) && i < |signatures| && j < |signatures| && i != j
    ensures !(Matches(m, signatures[i]) && Matches(m, signatures[j]))
  {
    if Matches(m, signatures[i]) && Matches(m, signatures[j]) {
      OneShape(signatures, m, i, j);
    }
  }

  lemma MatchesAnyOf<D(!new)>(m: AbiMethod, signatures: seq<MethodSignature<D>>)
    requires Distinct(signatures) && signatures != []
    ensures var front, last := signatures[..|signatures| - 1], signatures[|signatures| - 1];
            && (MatchesAny(m, signatures) <==> MatchesAny(m, front) || Matches(m, last))
            && !(MatchesAny(m, front) && Matches(m, last))
  {
    var front, last := signatures[..|signatures| - 1], signatures[|signatures| - 1];
    hide Matches, Distinct;
    if i :| 0 <= i < |front| && Matches(m, front[i]) {
      NotBoth(signatures, m, i, |front|);
      assert Matches(m, signatures[i]);
    }
    if i :| 0 <= i < |signatures| && Matches(m, signatures[i]) {
      assert i < |front| ==> Matches(m, front[i]);
    }
  }

  /** Each entry that matches a signature of the table is listed as often as the ABI lists it; no other is listed. */
  lemma {:induction false} FilterListsEachOnce<D(!new)>(abi: seq<AbiMethod>, signatures: seq<MethodSignature<D>>, m: AbiMethod)
    requires Distinct(signatures)
    ensures multiset(AllMethods(abi, signatures))[m] == if MatchesAny(m, signatures) then multiset(abi)[m] else 0
  {
    if signatures != [] {
      DistinctFront(signatures);
      MatchesAnyOf(m, signatures);
      hide MatchesAny, Matches, Distinct;
      FilterListsEachOnce(abi, signatures[..|signatures| - 1], m);
      CountMatching(abi, signatures[|signatures| - 1], m);
    }
  }

  lemma {:induction false} MatchingPicks<D(!new)>(abi: seq<AbiMethod>, signature: MethodSignature<D>)
    ensures Picks(abi, (m: AbiMethod) => Matches(m, signature), Matching(abi, signature))
  {
    hide Picks, Matches;
    if abi == [] {
      NothingPicked((m: AbiMethod) => Matches(m, signature));
    } else {
      var front, last := abi[..|abi| - 1], abi[|abi| - 1];
      MatchingPicks(front, signature);
      PickNext(front, last, (m: AbiMethod) => Matches(m, signature), Matching(front, signature));
      assert abi == front + [last];
    }
  }

  /** Of each signature of the table the filtered list has the entries that the ABI has, in the same order. */
  lemma FilterKeepsOrder<D(!new)>(abi: seq<AbiMethod>, signatures: seq<MethodSignature<D>>, i: nat) returns (own: seq<AbiMethod>)
    requires Distinct(signatures) && i < |signatures|
    ensures Picks(abi, (m: AbiMethod) => Matches(m, signatures[i]), own)
    ensures Picks(AllMethods(abi, signatures), (m: AbiMethod) => Matches(m, signatures[i]), own)
  {
    hide *;
    own := Matching(abi, signatures[i]);
    FilterIsStable(abi, signatures, i);
    MatchingPicks(abi, signatures[i]);
    MatchingPicks(AllMethods(abi, signatures), signatures[i]);
  }

  lemma AtLast<D(!new)>(abi: seq<AbiMethod>, signatures: seq<MethodSignature<D>>, q: nat)
    requires signatures != [] && q < |AllMethods(abi, signatures)|
    ensures var front := AllMethods(abi, signatures[..|signatures| - 1]);
            if q < |front| then AllMethods(abi, signatures)[q] == front[q]
            else AllMethods(abi, signatures)[q] in Matching(abi, signatures[|signatures| - 1])
  {
    var front := AllMethods(abi, signatures[..|signatures| - 1]);
    var last := Matching(abi, signatures[|signatures| - 1]);
    if q >= |front| {
      assert AllMethods(abi, signatures)[q] == last[q - |front|];
    }
  }

  lemma OneShape<D(!new)>(signatures: seq<MethodSignature<D>>, m: AbiMethod, i: nat, j: nat)
    requires Distinct(signatures) && i < |signatures| && j < |signatures| && Matches(m, signatures[i]) && Matches(m, signatures[j])
    ensures i == j
  {
    ShapeDecides(m, signatures[i], signatures[j]);
    ShapeDecides(m, signatures[j], signatures[i]);
  }

  /** An entry that the front of the table keeps matches no signature but one of the front. */
  lemma InFront<D(!new)>(abi: seq<AbiMethod>, signatures: seq<MethodSignature<D>>, m: AbiMethod, i: nat)
    requires Distinct(signatures) && signatures != [] && i < |signatures| && Matches(m, signatures[i])
    requires m in AllMethods(abi, signatures[..|signatures| - 1])
    ensures i < |signatures| - 1
  {
    var front := signatures[..|signatures| - 1];
    AllMethodsMembers(abi, front);
    var k :| 0 <= k < |front| && Matches(m, front[k]);
    OneShape(signatures, m, i, k);
  }

  /** The entries of a signature come before those of every later one. */
  lemma {:induction false} FilterIsGrouped<D(!new)>(abi: seq<AbiMethod>, signatures: seq<MethodSignature<D>>, p: nat, q: nat, i: nat, j: nat)
    requires Distinct(signatures) && p < q < |AllMethods(abi, signatures)| && i < |signatures| && j < |signatures|
    requires Matches(AllMethods(abi, signatures)[p], signatures[i]) && Matches(AllMethods(abi, signatures)[q], signatures[j])
    ensures i <= j
  {
    var n := |signatures| - 1;
    var front := AllMethods(abi, signatures[..n]);
    AtLast(abi, signatures, p);
    AtLast(abi, signatures, q);
    MatchingMembers(abi, signatures[n]);
    DistinctFront(signatures);
    hide AllMethods, Matching, Distinct, Matches;
    if q < |front| {
      InFront(abi, signatures, front[p], i);
      InFront(abi, signatures, front[q], j);
      FilterIsGrouped(abi, signatures[..n], p, q, i, j);
    } else {
      OneShape(signatures, AllMethods(abi, signatures)[q], j, n);
    }
  }

  // ---- parameters ----

  /** Every parameter list the signature gives has one value for each of its inputs. */
  ghost predicate Fills<D(!new)>(signature: MethodSignature<D>) {
    forall dto :: signature.params(dto).Params? ==> |signature.params(dto).values| == |signature.inputs|
  }

  ghost predicate FillsInputs<D(!new)>(signatures: seq<MethodSignature<D>>) {
    forall i :: 0 <= i < |signatures| ==> Fills(signatures[i])
  }

  /** The signature a choice came from. */
  lemma ChosenFrom<D(!new)>(abi: seq<AbiMethod>, signatures: seq<MethodSignature<D>>, dto: D, c: Choice) returns (i: nat)
    requires IsChoice(abi, signatures, dto, c) && !c.NoMethod?
    ensures FirstToApply(abi, signatures, dto, i)
    ensures c.Chosen? ==> c.chosen in abi && Matches(c.chosen, signatures[i]) && signatures[i].params(dto) == Params(c.values)
    ensures c.Rejected? ==> signatures[i].params(dto) == Throws(c.error)
  {
    i :| FirstToApply(abi, signatures, dto, i)
         && exists j: nat :: FirstToMatch(abi, signatures[i], j) && c == OfMapped(abi[j], signatures[i].params(dto));
  }

  /** The chosen method comes from the ABI and is given as many parameters as it has inputs. */
  lemma ChosenFits<D(!new)>(abi: seq<AbiMethod>, signatures: seq<MethodSignature<D>>, dto: D, c: Choice)
    requires FillsInputs(signatures) && IsChoice(abi, signatures, dto, c) && c.Chosen?
    ensures c.chosen in abi && c.chosen.inputs.Some? && |c.values| == |c.chosen.inputs.value|
  {
    var i := ChosenFrom(abi, signatures, dto, c);
  }

  // ---- the choice by names and types ----

  /** The entry has this name and, in order, inputs of these types. */
  predicate Is(m: AbiMethod, name: string, types: seq<string>) {
    && m.name == Some(name)
    && m.inputs.Some? && |m.inputs.value| == |types|
    && forall i :: 0 <= i < |types| ==> m.inputs.value[i].inputType == types[i]
  }

  ghost predicate Has(abi: seq<AbiMethod>, name: string, types: seq<string>) {
    exists m :: m in abi && Is(m, name, types)
  }

  ghost predicate FirstIs(abi: seq<AbiMethod>, name: string, types: seq<string>, i: nat) {
    i < |abi| && Is(abi[i], name, types) && forall k :: 0 <= k < i ==> !Is(abi[k], name, types)
  }

  /** The first entry of this name and these types is called, with these values. */
  ghost predicate Calls(abi: seq<AbiMethod>, c: Choice, name: string, types: seq<string>, values: seq<Param>) {
    c.Chosen? && c.values == values && exists i: nat :: FirstIs(abi, name, types, i) && c.chosen == abi[i]
  }

  lemma OffersIff<D(!new)>(abi: seq<AbiMethod>, s: MethodSignature<D>)
    ensures Offers(abi, s) <==> Has(abi, s.name, s.inputs)
    ensures forall m :: Matches(m, s) <==> Is(m, s.name, s.inputs)
  {
    forall m ensures Matches(m, s) <==> Is(m, s.name, s.inputs) {
    }
  }

  /** What a row makes of the request, when it is the first that the ABI has and that has something to say. */
  lemma RowDecides<D(!new)>(abi: seq<AbiMethod>, signatures: seq<MethodSignature<D>>, dto: D, c: Choice, i: nat)
    requires IsChoice(abi, signatures, dto, c) && i < |signatures|
    requires Has(abi, signatures[i].name, signatures[i].inputs) && !signatures[i].params(dto).NotApplicable?
    requires forall k :: 0 <= k < i ==> !Has(abi, signatures[k].name, signatures[k].inputs) || signatures[k].params(dto).NotApplicable?
    ensures match signatures[i].params(dto)
            case Params(values) => Calls(abi, c, signatures[i].name, signatures[i].inputs, values)
            case Throws(error) => c == Rejected(error)
            case NotApplicable => false
  {
    forall k | 0 <= k <= i ensures Applies(abi, signatures[k], dto) <==> k == i {
      OffersIff(abi, signatures[k]);
    }
    var k: nat, j: nat :| FirstToApply(abi, signatures, dto, k) && FirstToMatch(abi, signatures[k], j)
                          && c == OfMapped(abi[j], signatures[k].params(dto));
    assert k == i;
    OffersIff(abi, signatures[i]);
    assert FirstIs(abi, signatures[i].name, signatures[i].inputs, j);
  }

  /** Nothing is found when the ABI has none of the rows that have something to say. */
  lemma NoRowDecides<D(!new)>(abi: seq<AbiMethod>, signatures: seq<MethodSignature<D>>, dto: D, c: Choice)
    requires IsChoice(abi, signatures, dto, c)
    requires forall k :: 0 <= k < |signatures| ==>
               !Has(abi, signatures[k].name, signatures[k].inputs) || signatures[k].params(dto).NotApplicable?
    ensures c.NoMethod?
  {
    forall k | 0 <= k < |signatures| ensures !Applies(abi, signatures[k], dto) {
      OffersIff(abi, signatures[k]);
    }
  }
}
