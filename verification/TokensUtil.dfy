/** Names of subscriptions and locators of pools (src/tokens/tokens.util.ts). */
module TokensUtil {
  import opened Wrappers
  import opened Text
  import UriCoding
  import FormCoding

  const SUBSCRIPTION_PREFIX := "fft"

  // The two types of token.
  const FUNGIBLE := "fungible"
  const NONFUNGIBLE := "nonfungible"

  /** What a name says; the absent parts are the undefined fields. */
  datatype SubscriptionName = SubscriptionName(poolLocator: Option<string>, event: Option<string>, poolData: Option<string>)

  /** Thrown by decodeURIComponent. */
  datatype CodecError = URIError

  function NameParts(poolLocator: string, event: string, poolData: Option<string>): seq<string> {
    var parts := [SUBSCRIPTION_PREFIX, poolLocator, event];
    if poolData.Some? then parts + [UriCoding.EncodeURIComponent(poolData.value)] else parts
  }

  function PackSubscriptionName(poolLocator: string, event: string, poolData: Option<string>): string {
    Join(NameParts(poolLocator, event, poolData), ':')
  }

  function UnpackSubscriptionName(data: string): Result<SubscriptionName, CodecError> {
    var parts := Split(data, ':');
    if |parts| == 4 && parts[0] == SUBSCRIPTION_PREFIX then
      var poolData := UriCoding.DecodeURIComponent(parts[3]);
      if poolData.None? then Err(URIError) else Ok(SubscriptionName(Some(parts[1]), Some(parts[2]), poolData))
    else if |parts| == 3 then Ok(SubscriptionName(Some(parts[1]), Some(parts[2]), None))
    else if |parts| == 2 then Ok(SubscriptionName(Some(parts[1]), None, None))
    else Ok(SubscriptionName(None, None, None))
  }

  /** A packed name unpacks to what went in, exactly when locator and event have no colon; any pool data will do. */
  lemma UnpackPackIff(poolLocator: string, event: string, poolData: Option<string>)
    ensures UnpackSubscriptionName(PackSubscriptionName(poolLocator, event, poolData))
         == Ok(SubscriptionName(Some(poolLocator), Some(event), poolData))
       <==> ':' !in poolLocator && ':' !in event
  {
    if ':' !in poolLocator && ':' !in event {
      var parts := NameParts(poolLocator, event, poolData);
      if poolData.Some? {
        UriCoding.EncodedIsPlain(poolData.value);
        UriCoding.DecodeEncodeURI(poolData.value);
      }
      SplitJoin(parts, ':');
    }
  }

  /** Colon-free names are told apart by locator, event and pool data, and an absent pool data is not an empty one. */
  lemma PackInjective(l: string, e: string, d: Option<string>, l': string, e': string, d': Option<string>)
    requires ':' !in l && ':' !in e && ':' !in l' && ':' !in e'
    ensures PackSubscriptionName(l, e, d) == PackSubscriptionName(l', e', d') <==> l == l' && e == e' && d == d'
  {
    UnpackPackIff(l, e, d);
    UnpackPackIff(l', e', d');
  }

  /** Whatever the name, an unpacked locator and event have no colon, so they can be packed again. */
  lemma UnpackedPacksAgain(name: string, d: Option<string>)
    requires UnpackSubscriptionName(name).Ok?
    requires var sub := UnpackSubscriptionName(name).value; sub.poolLocator.Some? && sub.event.Some?
    ensures var sub := UnpackSubscriptionName(name).value;
            UnpackSubscriptionName(PackSubscriptionName(sub.poolLocator.value, sub.event.value, d)) == Ok(sub.(poolData := d))
    ensures var sub := UnpackSubscriptionName(name).value;
            UnpackSubscriptionName(PackSubscriptionName(sub.poolLocator.value, "", d)) == Ok(sub.(event := Some(""), poolData := d))
  {
    var sub := UnpackSubscriptionName(name).value;
    UnpackPackIff(sub.poolLocator.value, sub.event.value, d);
    UnpackPackIff(sub.poolLocator.value, "", d);
  }

  /** Null fields are None; the token type is kept as text, as the source only casts it. */
  datatype PoolLocator = PoolLocator(address: Option<string>, schema: Option<string>, tokenType: Option<string>) {
    predicate Valid() {
      address.Some? && schema.Some? && tokenType.Some?
    }
  }

  function PackPoolLocator(locator: PoolLocator): string
    requires locator.Valid()
  {
    FormCoding.Serialize([("address", locator.address.value), ("schema", locator.schema.value), ("type", locator.tokenType.value)])
  }

  function UnpackPoolLocator(data: string): PoolLocator {
    var encoded := FormCoding.Parse(data);
    var schema := FormCoding.Get(encoded, "schema");
    PoolLocator(FormCoding.Get(encoded, "address"), if schema.Some? then schema else FormCoding.Get(encoded, "standard"),
                FormCoding.Get(encoded, "type"))
  }

  /** A valid locator comes back whole, and its packed form is safe inside a subscription name. */
  lemma UnpackPackLocator(locator: PoolLocator)
    requires locator.Valid()
    ensures UnpackPoolLocator(PackPoolLocator(locator)) == locator
    ensures ':' !in PackPoolLocator(locator)
  {
    var params := [("address", locator.address.value), ("schema", locator.schema.value), ("type", locator.tokenType.value)];
    FormCoding.ParseSerialize(params);
    FormCoding.SerializedHasNoColon(params);
    FormCoding.GetOfThree(params[0], params[1], params[2], "address");
    FormCoding.GetOfThree(params[0], params[1], params[2], "schema");
    FormCoding.GetOfThree(params[0], params[1], params[2], "type");
  }

  /** A locator written before `standard` became `schema` unpacks to the same fields. */
  lemma UnpackLegacyLocator(locator: PoolLocator)
    requires locator.Valid()
    ensures UnpackPoolLocator(FormCoding.Serialize([("address", locator.address.value),
                ("standard", locator.schema.value), ("type", locator.tokenType.value)])) == locator
  {
    var params := [("address", locator.address.value), ("standard", locator.schema.value), ("type", locator.tokenType.value)];
    FormCoding.ParseSerialize(params);
    FormCoding.GetOfThree(params[0], params[1], params[2], "address");
    FormCoding.GetOfThree(params[0], params[1], params[2], "schema");
    FormCoding.GetOfThree(params[0], params[1], params[2], "standard");
    FormCoding.GetOfThree(params[0], params[1], params[2], "type");
  }

  /**
   * The name a pool is activated under gives back, on each later event, the packed locator and pool data of
   * the activation request and the fields the locator was packed from.
   */
  lemma ActivationDataReturns(locator: PoolLocator, event: string, poolData: Option<string>)
    requires locator.Valid() && ':' !in event
    ensures UnpackSubscriptionName(PackSubscriptionName(PackPoolLocator(locator), event, poolData))
         == Ok(SubscriptionName(Some(PackPoolLocator(locator)), Some(event), poolData))
    ensures UnpackPoolLocator(UnpackSubscriptionName(PackSubscriptionName(PackPoolLocator(locator), event, poolData)).value.poolLocator.value)
         == locator
  {
    UnpackPackLocator(locator);
    UnpackPackIff(PackPoolLocator(locator), event, poolData);
  }

  // ---- the text ----

  /** The text of a subscription name: prefix, locator, event and, if there is any, the encoded data of the pool. */
  lemma PackedNameText(poolLocator: string, event: string, poolData: string)
    ensures PackSubscriptionName(poolLocator, event, None) == "fft" + ":" + (poolLocator + ":" + event)
    ensures PackSubscriptionName(poolLocator, event, Some(poolData))
         == "fft" + ":" + (poolLocator + ":" + (event + ":" + UriCoding.EncodeURIComponent(poolData)))
  {
    var encoded := UriCoding.EncodeURIComponent(poolData);
    hide UriCoding.EncodeURIComponent, Join;
    JoinThree("fft", poolLocator, event, ':');
    JoinFour("fft", poolLocator, event, encoded, ':');
    assert ["fft", poolLocator, event] + [encoded] == ["fft", poolLocator, event, encoded];
  }

  /** What is made of any text, by its parts between colons. */
  lemma UnpackByParts(parts: seq<string>)
    requires parts != [] && forall i :: 0 <= i < |parts| ==> ':' !in parts[i]
    ensures var sub := UnpackSubscriptionName(Join(parts, ':'));
            if |parts| == 4 && parts[0] == "fft" then
              var data := UriCoding.DecodeURIComponent(parts[3]);
              sub == if data.None? then Err(URIError) else Ok(SubscriptionName(Some(parts[1]), Some(parts[2]), data))
            else if |parts| == 3 then sub == Ok(SubscriptionName(Some(parts[1]), Some(parts[2]), None))
            else if |parts| == 2 then sub == Ok(SubscriptionName(Some(parts[1]), None, None))
            else sub == Ok(SubscriptionName(None, None, None))
  {
    SplitJoin(parts, ':');
    hide Split, Join, UriCoding.DecodeURIComponent;
  }

  lemma FieldNames()
    ensures FormCoding.FormText("address") == "address" && FormCoding.FormText("schema") == "schema"
    ensures FormCoding.FormText("type") == "type"
  {
    hide FormCoding.FormText;
    FormCoding.KeptStays("address");
    FormCoding.KeptStays("schema");
    FormCoding.KeptStays("type");
  }

  /** The text of a packed locator: address, schema and type, in this order. */
  lemma PackedLocatorText(locator: PoolLocator)
    requires locator.Valid()
    ensures var address, schema := FormCoding.FormText(locator.address.value), FormCoding.FormText(locator.schema.value);
            var tokenType := FormCoding.FormText(locator.tokenType.value);
            PackPoolLocator(locator) == "address" + "=" + address + "&" + ("schema" + "=" + schema + "&" + ("type" + "=" + tokenType))
  {
    hide FormCoding.FormText, FormCoding.Serialize;
    FieldNames();
    FormCoding.ThreePairs(("address", locator.address.value), ("schema", locator.schema.value), ("type", locator.tokenType.value));
  }
}
