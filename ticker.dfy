/**
 * The ticker factory: it checks the requested data source, picks the interface
 * class that serves it and builds a ticker object on that class. The set of valid
 * data sources comes from the settings module and is a parameter here; a ticker
 * object is reduced to the identifiers it is built from and the class it is built on.
 */
module Ticker {
  import opened Wrappers

  /** The interface classes a ticker can be built on. */
  datatype BaseClass = YahooWeb | YahooAPI | JustETF | DigrinInterface

  datatype FactoryError =
    | WrongDataSource(givenSource: string)       // the source is not a valid data source
    | UnsupportedDataSource(dataSource: string)  // valid, but no class serves it (a `ValueError`)
    | NoISIN                                     // the JustETF interface was given no ISIN

  /** The data-source name that selects each class: one of the four supported names, a different one per class. */
  function SourceName(base: BaseClass): (name: string)
    ensures name in ["yahoo_web", "yahoo_api", "justetf", "digrin"]
    ensures name == "yahoo_web" <==> base.YahooWeb?
    ensures name == "yahoo_api" <==> base.YahooAPI?
    ensures name == "justetf" <==> base.JustETF?
    ensures name == "digrin" <==> base.DigrinInterface?
  {
    match base
    case YahooWeb => "yahoo_web"
    case YahooAPI => "yahoo_api"
    case JustETF => "justetf"
    case DigrinInterface => "digrin"
  }

  /** `_select_base_class`: the class whose source name is the given one, or an unsupported-source error. */
  function SelectBaseClass(dataSource: string): (r: Result<BaseClass, FactoryError>)
    ensures r.Success? ==> SourceName(r.value) == dataSource
    ensures r.Failure? ==> r.error == UnsupportedDataSource(dataSource)
    ensures r.Failure? ==> forall base: BaseClass :: SourceName(base) != dataSource
  {
    if dataSource == "yahoo_web" then Success(YahooWeb)
    else if dataSource == "yahoo_api" then Success(YahooAPI)
    else if dataSource == "justetf" then Success(JustETF)
    else if dataSource == "digrin" then Success(DigrinInterface)
    else Failure(UnsupportedDataSource(dataSource))
  }

  /** Every class is selected by its own source name: selection inverts `SourceName`. */
  lemma SelectInvertsSourceName(base: BaseClass)
    ensures SelectBaseClass(SourceName(base)) == Success(base)
  {
  }

  /** Different source names never select the same class. */
  lemma SelectBaseClassInjective(source1: string, source2: string)
    requires SelectBaseClass(source1).Success? && SelectBaseClass(source2).Success?
    requires SelectBaseClass(source1).value == SelectBaseClass(source2).value
    ensures source1 == source2
  {
  }

  /**
   * What building a factory yields: the class the ticker is built on, or the
   * first error raised — the source check in the setter, then class selection,
   * then the class's own constructor (only JustETF checks anything: its ISIN).
   */
  function CreationOutcome(validSources: seq<string>, isin: string, dataSource: string): (r: Result<BaseClass, FactoryError>)
    ensures r.Success? <==> (dataSource in validSources && SelectBaseClass(dataSource).Success?
                             && !(dataSource == "justetf" && isin == ""))
    ensures r.Success? ==> SourceName(r.value) == dataSource
    ensures dataSource !in validSources ==> r == Failure(WrongDataSource(dataSource))
    ensures dataSource in validSources && SelectBaseClass(dataSource).Failure? ==> r == Failure(UnsupportedDataSource(dataSource))
    ensures dataSource in validSources && dataSource == "justetf" && isin == "" ==> r == Failure(NoISIN)
  {
    if dataSource !in validSources then Failure(WrongDataSource(dataSource))
    else match SelectBaseClass(dataSource)
      case Failure(e) => Failure(e)
      case Success(base) => if base == JustETF && isin == "" then Failure(NoISIN) else Success(base)
  }

  /** A source that the settings accept but no class serves passes the setter and fails at selection. */
  lemma ValidButUnservedSourceIsUnsupported(validSources: seq<string>, isin: string, dataSource: string)
    requires dataSource in validSources
    requires dataSource !in ["yahoo_web", "yahoo_api", "justetf", "digrin"]
    ensures CreationOutcome(validSources, isin, dataSource) == Failure(UnsupportedDataSource(dataSource))
  {
  }

  /** The ticker object: the identifiers it was built from and the interface class it is built on. */
  class TickerInstance {
    const ticker: string
    const isin: string
    const securityType: string
    const baseClass: BaseClass

    constructor (ticker: string, isin: string, securityType: string, baseClass: BaseClass)
      ensures this.ticker == ticker && this.isin == isin
      ensures this.securityType == securityType && this.baseClass == baseClass
    {
      this.ticker := ticker;
      this.isin := isin;
      this.securityType := securityType;
      this.baseClass := baseClass;
    }
  }

  /** `_create_ticker`: builds the ticker on the class; the JustETF constructor rejects an empty ISIN. */
  method CreateTicker(baseClass: BaseClass, ticker: string, isin: string, securityType: string)
    returns (r: Result<TickerInstance, FactoryError>)
    ensures r.Failure? <==> baseClass == JustETF && isin == ""
    ensures r.Failure? ==> r.error == NoISIN
    ensures r.Success? ==> fresh(r.value) && r.value.baseClass == baseClass
    ensures r.Success? ==> r.value.ticker == ticker && r.value.isin == isin && r.value.securityType == securityType
  {
    if baseClass == JustETF && isin == "" {
      return Failure(NoISIN);
    }
    var instance := new TickerInstance(ticker, isin, securityType, baseClass);
    return Success(instance);
  }

  class TickerFactory {
    const validSources: seq<string>
    var tickerName: string
    var isin: string
    var securityType: string
    var dataSource: string
    var baseClass: BaseClass
    var tickerInstance: TickerInstance

    /** The data source is always one the settings accept. */
    ghost predicate Valid()
      reads this
    {
      dataSource in validSources
    }

    constructor Init(validSources: seq<string>, tickerName: string, isin: string, securityType: string,
                     dataSource: string, baseClass: BaseClass, tickerInstance: TickerInstance)
      requires dataSource in validSources
      ensures Valid()
      ensures this.validSources == validSources && this.tickerName == tickerName && this.isin == isin
      ensures this.securityType == securityType && this.dataSource == dataSource
      ensures this.baseClass == baseClass && this.tickerInstance == tickerInstance
    {
      this.validSources := validSources;
      this.tickerName := tickerName;
      this.isin := isin;
      this.securityType := securityType;
      this.dataSource := dataSource;
      this.baseClass := baseClass;
      this.tickerInstance := tickerInstance;
    }

    /**
     * `TickerFactory(...)`: stores the identifiers, checks the source, selects the
     * class and builds the ticker on it; the first failing step's error is raised.
     * The defaults are those of the Python constructor: a stock on the Yahoo API.
     */
    static method Create(validSources: seq<string>, ticker: string := "", isin: string := "",
                         securityType: string := "stock", dataSource: string := "yahoo_api")
      returns (r: Result<TickerFactory, FactoryError>)
      ensures r.Failure? <==> CreationOutcome(validSources, isin, dataSource).Failure?
      ensures r.Failure? ==> r.error == CreationOutcome(validSources, isin, dataSource).error
      ensures r.Success? ==> fresh(r.value) && fresh(r.value.tickerInstance) && r.value.Valid()
      ensures r.Success? ==> r.value.validSources == validSources && r.value.tickerName == ticker
      ensures r.Success? ==> r.value.isin == isin && r.value.securityType == securityType
      ensures r.Success? ==> r.value.dataSource == dataSource
      ensures r.Success? ==> r.value.baseClass == CreationOutcome(validSources, isin, dataSource).value
      ensures r.Success? ==> r.value.tickerInstance.baseClass == r.value.baseClass
      ensures r.Success? ==> r.value.tickerInstance.ticker == ticker && r.value.tickerInstance.isin == isin
      ensures r.Success? ==> r.value.tickerInstance.securityType == securityType
    {
      if dataSource !in validSources {
        return Failure(WrongDataSource(dataSource));
      }
      var selected := SelectBaseClass(dataSource);
      if selected.Failure? {
        return Failure(selected.error);
      }
      var instance := CreateTicker(selected.value, ticker, isin, securityType);
      if instance.Failure? {
        return Failure(instance.error);
      }
      var factory := new TickerFactory.Init(validSources, ticker, isin, securityType, dataSource,
                                            selected.value, instance.value);
      return Success(factory);
    }

    /**
     * The `data_source` setter: a valid source is stored, any other is rejected and
     * the stored source is kept. The class and the ticker object are not rebuilt.
     */
    method SetDataSource(value: string) returns (r: Outcome<FactoryError>)
      requires Valid()
      modifies this`dataSource
      ensures Valid()
      ensures value in validSources ==> r == Pass && dataSource == value
      ensures value !in validSources ==> r == Fail(WrongDataSource(value)) && dataSource == old(dataSource)
    {
      if value !in validSources {
        return Fail(WrongDataSource(value));
      }
      dataSource := value;
      return Pass;
    }

    /** `get_ticker` and the `ticker` getter: the ticker object currently held. */
    method GetTicker() returns (t: TickerInstance)
      ensures t == tickerInstance
    {
      return tickerInstance;
    }

    /** The `ticker` setter: replaces the ticker object and nothing else. */
    method SetTicker(value: TickerInstance)
      modifies this`tickerInstance
      ensures tickerInstance == value
    {
      tickerInstance := value;
    }
  }
}
