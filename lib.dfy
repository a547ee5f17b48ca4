/**
 * The security-type guard that most justETF, Macrotrends and Yahoo web-page
 * endpoints (all except `yahoo_web_description` and `justetf_price`) run before
 * they fetch anything: the ticker's security type must be one of the types the
 * endpoint serves. The Yahoo API, Digrin, Finviz and Nasdaq endpoints do not run it.
 */
module Lib {
  import opened Wrappers

  /** The `valid_types` argument: a single type name, or a list of them. */
  datatype ValidTypes = Single(name: string) | Several(names: seq<string>)

  /** `WrongSecurityType`, carrying the normalised list and the type that was given. */
  datatype SecurityTypeError = WrongSecurityType(validTypes: seq<string>, givenType: string)

  /** A single name is treated as the one-element list holding it; a list is kept as it is. */
  function Normalise(validTypes: ValidTypes): (names: seq<string>)
    ensures validTypes.Single? ==> names == [validTypes.name]
    ensures validTypes.Several? ==> names == validTypes.names
  {
    match validTypes
    case Single(name) => [name]
    case Several(names) => names
  }

  /** `check_security_type`: passes when the type is a member of the normalised list, raises otherwise. */
  function CheckSecurityType(securityType: string, validTypes: ValidTypes): (r: Outcome<SecurityTypeError>)
    ensures r.Pass? <==> exists k :: 0 <= k < |Normalise(validTypes)| && Normalise(validTypes)[k] == securityType
    ensures r.Fail? ==> r.error == WrongSecurityType(Normalise(validTypes), securityType)
  {
    var names := Normalise(validTypes);
    if securityType !in names then Fail(WrongSecurityType(names, securityType)) else Pass
  }

  /** With a single name, the check passes exactly on that name: membership is exact equality. */
  lemma SingleTypeIsEquality(securityType: string, name: string)
    ensures CheckSecurityType(securityType, Single(name)).Pass? <==> securityType == name
  {
    if securityType == name {
      assert Normalise(Single(name))[0] == securityType;
    }
  }

  /** Giving a type as a single name or as a one-element list makes no difference. */
  lemma SingleIsOneElementList(securityType: string, name: string)
    ensures CheckSecurityType(securityType, Single(name)) == CheckSecurityType(securityType, Several([name]))
  {
  }

  /** Allowing more types never turns a pass into a failure. */
  lemma MoreTypesStillPass(securityType: string, names: seq<string>, extra: seq<string>)
    requires CheckSecurityType(securityType, Several(names)).Pass?
    ensures CheckSecurityType(securityType, Several(names + extra)).Pass?
  {
    var k :| 0 <= k < |names| && names[k] == securityType;
    assert (names + extra)[k] == securityType;
  }

  /**
   * An ETF on a stock-only endpoint, and a type no endpoint knows, are rejected
   * with the list the endpoint serves (tests/test_yahoo_web_interface.py:30-33,
   * tests/test_justetf_interface.py:74-83).
   */
  lemma WrongTypesRejected()
    ensures CheckSecurityType("etf", Several(["stock"])) == Fail(WrongSecurityType(["stock"], "etf"))
    ensures CheckSecurityType("wrong_security_type", Several(["etf"]))
      == Fail(WrongSecurityType(["etf"], "wrong_security_type"))
  {
  }
}
