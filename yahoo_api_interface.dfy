/**
 * The Yahoo Finance fundamentals-timeseries interface: building the request URL
 * for a financial statement, turning the decoded `timeseries.result` list into a
 * frame, and reshaping that frame for plotting. The settings module is a map from
 * setting name to the configured column names; timestamps arrive as integers.
 */
module YahooApiInterface {
  import opened Wrappers
  import opened Text
  import opened DataFrames

  // ---------------------------------------------------------------------------
  // build_url
  // ---------------------------------------------------------------------------

  /** `getattr(config, ...)` finds no such setting (an `AttributeError`). */
  datatype UrlError = MissingColumnsSetting(name: string)

  /**
   * The settings attribute holding the columns of an entity: its name with every
   * ASCII letter in capitals, followed by `_COLUMNS`.
   */
  function ColumnsSettingName(desiredEntity: string): (name: string)
    ensures |name| == |desiredEntity| + |"_COLUMNS"|
    ensures name[|desiredEntity|..] == "_COLUMNS"
    ensures forall k :: 0 <= k < |desiredEntity| ==> !('a' <= name[k] <= 'z') && UpperChar(desiredEntity[k]) == name[k]
  {
    Upper(desiredEntity) + "_COLUMNS"
  }

  /** Every name with the frequency written in front of it, in the same order. */
  function Prefixed(frequency: string, names: seq<string>): (prefixed: seq<string>)
    ensures |prefixed| == |names|
    ensures forall k :: 0 <= k < |names| ==> prefixed[k] == frequency + names[k]
  {
    seq(|names|, k requires 0 <= k < |names| => frequency + names[k])
  }

  /**
   * The value of the `type` query parameter: the configured columns joined by
   * commas, cut at commas again, each piece prefixed, and the pieces re-joined.
   * With a comma-free frequency it reads back, cut at commas, as those prefixed pieces.
   */
  function TypeParameter(frequency: string, configured: seq<string>): (types: string)
    ensures ',' !in frequency ==> Split(types, ',') == Prefixed(frequency, Split(Join(configured, ','), ','))
  {
    var prefixed := Prefixed(frequency, Split(Join(configured, ','), ','));
    if ',' in frequency then Join(prefixed, ',')
    else
      SplitJoin(prefixed, ',');
      Join(prefixed, ',')
  }

  /** `build_url`: the fundamentals URL for one entity of one ticker between two timestamps. */
  function BuildUrl(settings: map<string, seq<string>>, baseUrl: string, ticker: string, frequency: string,
                    period1: int, period2: int, desiredEntity: string): (r: Result<string, UrlError>)
    ensures r.Failure? <==> ColumnsSettingName(desiredEntity) !in settings
    ensures r.Failure? ==> r.error == MissingColumnsSetting(ColumnsSettingName(desiredEntity))
  {
    var name := ColumnsSettingName(desiredEntity);
    if name !in settings then Failure(MissingColumnsSetting(name))
    else
      var types := TypeParameter(frequency, settings[name]);
      Success(baseUrl + "/" + ticker + "/?symbol=" + ticker + "&type=" + types
              + "&period1=" + IntToString(period1) + "&period2=" + IntToString(period2))
  }

  /** One query piece read back: the text before its first `=` and everything after it. */
  function KeyValue(piece: string): (string, string)
  {
    var kv := Split(piece, '=');
    (kv[0], Join(kv[1..], '='))
  }

  /** A query string read back: the text after the `?`, cut at `&`, each piece cut at its first `=`. */
  function QueryParameters(url: string): seq<(string, string)>
  {
    var halves := Split(url, '?');
    if |halves| != 2 then []
    else
      var pieces := Split(halves[1], '&');
      seq(|pieces|, k requires 0 <= k < |pieces| => KeyValue(pieces[k]))
  }

  /** When no configured column contains a comma, the `type` list is exactly the prefixed configured columns. */
  lemma TypeListMatchesSetting(frequency: string, configured: seq<string>)
    requires |configured| > 0
    requires ',' !in frequency
    requires forall k :: 0 <= k < |configured| ==> ',' !in configured[k]
    ensures Split(TypeParameter(frequency, configured), ',') == Prefixed(frequency, configured)
  {
    SplitJoin(configured, ',');
  }

  /** An empty column setting still sends the frequency on its own as the `type` list. */
  lemma EmptySettingGivesBareFrequency(frequency: string)
    ensures TypeParameter(frequency, []) == frequency
  {
    assert Split("", ',') == [""];
    assert Prefixed(frequency, [""]) == [frequency + ""];
  }

  /** Upper-casing is idempotent, so the entity name is looked up case-insensitively. */
  lemma EntityNameIgnoresCase(settings: map<string, seq<string>>, baseUrl: string, ticker: string, frequency: string,
                              period1: int, period2: int, desiredEntity: string)
    ensures BuildUrl(settings, baseUrl, ticker, frequency, period1, period2, Upper(desiredEntity))
         == BuildUrl(settings, baseUrl, ticker, frequency, period1, period2, desiredEntity)
  {
    assert Upper(Upper(desiredEntity)) == Upper(desiredEntity);
  }

  /** The decimal text of an integer holds only digits and possibly a minus sign. */
  lemma IntTextAvoids(i: int, c: char)
    requires !IsDigit(c) && c != '-'
    ensures c !in IntToString(i)
  {
    if i < 0 {
      assert IntToString(i) == "-" + NatToString(-i);
    }
  }

  /** `key=value` read back gives the key and the value. */
  lemma KeyValueReadsBack(key: string, value: string)
    requires '=' !in key && '=' !in value
    ensures KeyValue(key + "=" + value) == (key, value)
  {
    SplitWithoutSep(value, '=');
    SplitAtFirstSep(key, '=', value);
    assert Split(key + "=" + value, '=')[1..] == [value];
  }

  /** The four query pieces joined by `&` split back into the four pieces. */
  lemma FourPiecesSplit(a: string, b: string, c: string, d: string)
    requires '&' !in a && '&' !in b && '&' !in c && '&' !in d
    ensures Split(a + "&" + (b + "&" + (c + "&" + d)), '&') == [a, b, c, d]
  {
    var cd := c + "&" + d;
    var bcd := b + "&" + cd;
    SplitWithoutSep(d, '&');
    SplitAtFirstSep(c, '&', d);
    assert Split(cd, '&') == [c, d];
    SplitAtFirstSep(b, '&', cd);
    assert Split(bcd, '&') == [b, c, d];
    SplitAtFirstSep(a, '&', bcd);
  }

  /** Text that needs no escaping inside a query: no `?`, `&` or `=`. */
  predicate Plain(s: string)
  {
    '?' !in s && '&' !in s && '=' !in s
  }

  /** A `?`-free head and a query of four `key=value` pieces read back as those four pairs. */
  lemma QueryReadsBack(head: string, k1: string, v1: string, k2: string, v2: string,
                       k3: string, v3: string, k4: string, v4: string)
    requires '?' !in head
    requires Plain(k1) && Plain(v1) && Plain(k2) && Plain(v2) && Plain(k3) && Plain(v3) && Plain(k4) && Plain(v4)
    ensures QueryParameters(head + "?" + ((k1 + "=" + v1) + "&" + ((k2 + "=" + v2) + "&" + ((k3 + "=" + v3) + "&" + (k4 + "=" + v4)))))
         == [(k1, v1), (k2, v2), (k3, v3), (k4, v4)]
  {
    var p1, p2, p3, p4 := k1 + "=" + v1, k2 + "=" + v2, k3 + "=" + v3, k4 + "=" + v4;
    var query := p1 + "&" + (p2 + "&" + (p3 + "&" + p4));
    assert '?' !in query;
    SplitWithoutSep(query, '?');
    SplitAtFirstSep(head, '?', query);
    FourPiecesSplit(p1, p2, p3, p4);
    KeyValueReadsBack(k1, v1);
    KeyValueReadsBack(k2, v2);
    KeyValueReadsBack(k3, v3);
    KeyValueReadsBack(k4, v4);
  }

  /** A `?`-free head and a `?`-free query, cut at `?`, give the head back first. */
  lemma HeadBeforeQuery(head: string, query: string)
    requires '?' !in head && '?' !in query
    ensures Split(head + "?" + query, '?') == [head, query]
  {
    SplitWithoutSep(query, '?');
    SplitAtFirstSep(head, '?', query);
  }

  /** Regrouping a head, a `?` and four pieces joined by `&`, from left-nested to right-nested. */
  lemma Regroup(head: string, p1: string, p2: string, p3: string, p4: string)
    ensures head + "?" + p1 + "&" + p2 + "&" + p3 + "&" + p4 == head + "?" + (p1 + "&" + (p2 + "&" + (p3 + "&" + p4)))
  {
    assert p1 + "&" + p2 + "&" + p3 + "&" + p4 == p1 + "&" + (p2 + "&" + (p3 + "&" + p4));
  }

  /** The URL is a head, a `?`, and four `key=value` pieces joined by `&`. */
  lemma UrlLayout(baseUrl: string, ticker: string, types: string, s1: string, s2: string)
    ensures baseUrl + "/" + ticker + "/?symbol=" + ticker + "&type=" + types + "&period1=" + s1 + "&period2=" + s2
         == (baseUrl + "/" + ticker + "/") + "?" + (("symbol" + "=" + ticker) + "&" + (("type" + "=" + types) + "&"
            + (("period1" + "=" + s1) + "&" + ("period2" + "=" + s2))))
  {
    var head := baseUrl + "/" + ticker + "/";
    var p1, p2, p3, p4 := "symbol" + "=" + ticker, "type" + "=" + types, "period1" + "=" + s1, "period2" + "=" + s2;
    assert "/?symbol=" == "/" + "?" + "symbol" + "=";
    assert "&type=" == "&" + "type" + "=";
    assert "&period1=" == "&" + "period1" + "=";
    assert "&period2=" == "&" + "period2" + "=";
    assert baseUrl + "/" + ticker + "/?symbol=" + ticker + "&type=" + types + "&period1=" + s1 + "&period2=" + s2
        == head + "?" + p1 + "&" + p2 + "&" + p3 + "&" + p4;
    Regroup(head, p1, p2, p3, p4);
  }

  /**
   * The URL reads back: the part before the `?` is the base URL with the ticker as
   * its last path segment, and the query holds the ticker as `symbol`, the type list
   * as `type`, and both timestamps, whose text parses back to the integers given.
   */
  lemma UrlQueryReadsBack(settings: map<string, seq<string>>, baseUrl: string, ticker: string, frequency: string,
                          period1: int, period2: int, desiredEntity: string)
    requires ColumnsSettingName(desiredEntity) in settings
    requires '?' !in baseUrl
    requires Plain(ticker)
    requires Plain(TypeParameter(frequency, settings[ColumnsSettingName(desiredEntity)]))
    ensures Split(BuildUrl(settings, baseUrl, ticker, frequency, period1, period2, desiredEntity).value, '?')[0]
         == baseUrl + "/" + ticker + "/"
    ensures var types := TypeParameter(frequency, settings[ColumnsSettingName(desiredEntity)]);
      QueryParameters(BuildUrl(settings, baseUrl, ticker, frequency, period1, period2, desiredEntity).value)
        == [("symbol", ticker), ("type", types), ("period1", IntToString(period1)), ("period2", IntToString(period2))]
    ensures ParseInt(QueryParameters(BuildUrl(settings, baseUrl, ticker, frequency, period1, period2, desiredEntity).value)[2].1) == Some(period1)
    ensures ParseInt(QueryParameters(BuildUrl(settings, baseUrl, ticker, frequency, period1, period2, desiredEntity).value)[3].1) == Some(period2)
  {
    var types := TypeParameter(frequency, settings[ColumnsSettingName(desiredEntity)]);
    var s1, s2 := IntToString(period1), IntToString(period2);
    IntTextAvoids(period1, '?'); IntTextAvoids(period1, '&'); IntTextAvoids(period1, '=');
    IntTextAvoids(period2, '?'); IntTextAvoids(period2, '&'); IntTextAvoids(period2, '=');
    var head := baseUrl + "/" + ticker + "/";
    assert '?' !in head;
    assert Plain("symbol") && Plain("type") && Plain("period1") && Plain("period2");
    UrlLayout(baseUrl, ticker, types, s1, s2);
    QueryReadsBack(head, "symbol", ticker, "type", types, "period1", s1, "period2", s2);
    HeadBeforeQuery(head, ("symbol" + "=" + ticker) + "&" + (("type" + "=" + types) + "&"
                          + (("period1" + "=" + s1) + "&" + ("period2" + "=" + s2))));
  }

  // ---------------------------------------------------------------------------
  // extract_dataframe
  // ---------------------------------------------------------------------------

  /** One entry of an item's series: its `asOfDate` and its `reportedValue` formats. */
  datatype Point<V> = Point(asOfDate: string, reportedValue: map<string, V>)

  /** One element of `timeseries.result`: the `meta.type` list and the series stored under field names. */
  datatype Item<V> = Item(metaType: seq<string>, fields: map<string, seq<Point<V>>>)

  /** A `pd.Series`: values under their index labels. */
  datatype Series<V> = Series(labels: seq<string>, values: seq<V>)

  datatype ExtractError =
    | MissingType(position: nat)                  // `meta.type` is empty (an `IndexError`)
    | MissingFormat(asOfDate: string, format: string)  // a `reportedValue` without the format (a `KeyError`)
    | NoContributingItem                          // `dated_index` was never bound (an `UnboundLocalError`)

  /** The state of the loop: the `row` dictionary, its key insertion order, and `dated_index` once bound. */
  datatype Accumulator<V> = Accumulator(row: map<string, Series<V>>, order: seq<string>, datedIndex: Option<seq<string>>)

  /** The dates of a series, in order. */
  function Dates<V>(data: seq<Point<V>>): (dates: seq<string>)
    ensures |dates| == |data|
    ensures forall k :: 0 <= k < |data| ==> dates[k] == data[k].asOfDate
  {
    seq(|data|, k requires 0 <= k < |data| => data[k].asOfDate)
  }

  /** The values of a series in the requested format; fails at the first entry lacking that format. */
  function Values<V>(data: seq<Point<V>>, format: string): (r: Result<seq<V>, ExtractError>)
    ensures r.Success? <==> forall k :: 0 <= k < |data| ==> format in data[k].reportedValue
    ensures r.Success? ==> (|r.value| == |data|
                            && forall k :: 0 <= k < |data| ==> r.value[k] == data[k].reportedValue[format])
    ensures r.Failure? ==> (exists k :: 0 <= k < |data| && format !in data[k].reportedValue
                                     && r.error == MissingFormat(data[k].asOfDate, format)
                                     && forall j :: 0 <= j < k ==> format in data[j].reportedValue)
  {
    if |data| == 0 then Success([])
    else if format !in data[0].reportedValue then Failure(MissingFormat(data[0].asOfDate, format))
    else match Values(data[1..], format)
      case Failure(e) =>
        assert forall k :: 1 <= k < |data| ==> data[1..][k - 1] == data[k];
        Failure(e)
      case Success(rest) => Success([data[0].reportedValue[format]] + rest)
  }

  /** The dictionary and its key order agree: the same keys, each once, every series as long as its labels. */
  ghost predicate Consistent<V>(acc: Accumulator<V>)
  {
    (forall c :: c in acc.row <==> c in acc.order)
    && Distinct(acc.order)
    && (forall c :: c in acc.row ==> |acc.row[c].labels| == |acc.row[c].values|)
  }

  /** The item names a field and carries it, so it writes a column. */
  predicate Contributes<V>(item: Item<V>)
  {
    |item.metaType| > 0 && item.metaType[0] in item.fields
  }

  /** One turn of the loop over the response, for the item at `position`. */
  function Step<V>(acc: Accumulator<V>, item: Item<V>, position: nat, format: string): (r: Result<Accumulator<V>, ExtractError>)
    requires Consistent(acc)
    ensures r.Success? ==> Consistent(r.value)
  {
    if |item.metaType| == 0 then Failure(MissingType(position))
    else
      var column := item.metaType[0];
      if column !in item.fields then Success(acc)
      else
        var data := item.fields[column];
        match Values(data, format)
        case Failure(e) => Failure(e)
        case Success(values) =>
          var dates := Dates(data);
          var order := if column in acc.row then acc.order else acc.order + [column];
          Success(Accumulator(acc.row[column := Series(dates, values)], order, Some(dates)))
  }

  /** The loop state after the given items, or the first error raised. */
  function Collect<V>(items: seq<Item<V>>, format: string): (r: Result<Accumulator<V>, ExtractError>)
    ensures r.Success? ==> Consistent(r.value)
  {
    if |items| == 0 then Success(Accumulator(map[], [], None))
    else match Collect(items[..|items| - 1], format)
      case Failure(e) => Failure(e)
      case Success(acc) => Step(acc, items[|items| - 1], |items| - 1, format)
  }

  /** The value a series holds under a date label: the first entry carrying it, NaN when none does. */
  function Lookup<V>(series: Series<V>, date: string): (r: Option<V>)
    requires |series.labels| == |series.values|
    decreases |series.labels|
    ensures r.None? <==> date !in series.labels
    ensures r.Some? ==> exists p :: 0 <= p < |series.labels| && series.labels[p] == date && r.value == series.values[p]
  {
    if |series.labels| == 0 then None
    else if series.labels[0] == date then Some(series.values[0])
    else Lookup(Series(series.labels[1..], series.values[1..]), date)
  }

  /**
   * The cell a series gives row `r` of a frame indexed by `index`: a series whose
   * labels are the index itself keeps its values row by row (pandas skips the
   * reindexing then); any other series is looked up by label.
   */
  function Aligned<V>(series: Series<V>, index: seq<string>, r: nat): (cell: Option<V>)
    requires |series.labels| == |series.values| && r < |index|
    ensures cell.None? <==> index[r] !in series.labels
    ensures cell.Some? ==> exists p :: 0 <= p < |series.labels| && series.labels[p] == index[r] && cell.value == series.values[p]
    ensures series.labels == index ==> cell == Some(series.values[r])
  {
    if series.labels == index then Some(series.values[r]) else Lookup(series, index[r])
  }

  /** `pd.DataFrame(row, index=dated_index)`: one column per key in insertion order, each series aligned on the index. */
  function Frame<V>(acc: Accumulator<V>, index: seq<string>): (df: DataFrame<V>)
    requires Consistent(acc)
    ensures WellShaped(df)
    ensures df.columns == acc.order && df.index == index
    ensures forall r, c :: 0 <= r < |index| && 0 <= c < |acc.order| ==> df.cells[r][c] == Aligned(acc.row[acc.order[c]], index, r)
  {
    DataFrame(acc.order, index,
      seq(|index|, r requires 0 <= r < |index| =>
        seq(|acc.order|, c requires 0 <= c < |acc.order| => Aligned(acc.row[acc.order[c]], index, r))))
  }

  /** What `extract_dataframe` returns for a response, or the error it raises. */
  function Extracted<V>(response: seq<Item<V>>, format: string): (r: Result<DataFrame<V>, ExtractError>)
    ensures r.Success? ==> WellShaped(r.value)
    ensures r.Success? ==> Distinct(r.value.columns)
  {
    match Collect(response, format)
    case Failure(e) => Failure(e)
    case Success(acc) =>
      match acc.datedIndex
      case None => Failure(NoContributingItem)
      case Some(index) => Success(Frame(acc, index))
  }

  /** An error raised at some point of the loop is the error of the whole call. */
  lemma {:induction false} CollectFailurePersists<V>(items: seq<Item<V>>, i: nat, format: string)
    requires i <= |items|
    requires Collect(items[..i], format).Failure?
    ensures Collect(items, format) == Collect(items[..i], format)
    decreases |items| - i
  {
    if i < |items| {
      assert items[..i + 1][..i] == items[..i];
      CollectFailurePersists(items, i + 1, format);
    } else {
      assert items[..i] == items;
    }
  }

  /** `extract_dataframe`: the loop over the response items, filling `row` and rebinding `dated_index`. */
  method ExtractDataFrame<V>(response: seq<Item<V>>, format: string := "fmt") returns (r: Result<DataFrame<V>, ExtractError>)
    ensures r == Extracted(response, format)
  {
    var row: map<string, Series<V>> := map[];
    var order: seq<string> := [];
    var datedIndex: Option<seq<string>> := None;
    for i := 0 to |response|
      invariant Collect(response[..i], format) == Success(Accumulator(row, order, datedIndex))
    {
      assert response[..i + 1][..i] == response[..i];
      var item := response[i];
      if |item.metaType| == 0 {
        CollectFailurePersists(response, i + 1, format);
        return Failure(MissingType(i));
      }
      var column := item.metaType[0];
      if column !in item.fields {
        continue;
      }
      var data := item.fields[column];
      var dates := Dates(data);
      var values := Values(data, format);
      if values.Failure? {
        CollectFailurePersists(response, i + 1, format);
        return Failure(values.error);
      }
      if column !in row {
        order := order + [column];
      }
      row := row[column := Series(dates, values.value)];
      datedIndex := Some(dates);
    }
    assert response[..|response|] == response;
    if datedIndex.None? {
      return Failure(NoContributingItem);
    }
    r := Success(Frame(Accumulator(row, order, datedIndex), datedIndex.value));
  }

  /** An item whose field is absent is skipped: the loop state, `dated_index` included, is what it was. */
  lemma SkippedItemChangesNothing<V>(items: seq<Item<V>>, item: Item<V>, format: string)
    requires |item.metaType| > 0 && item.metaType[0] !in item.fields
    ensures Collect(items + [item], format) == Collect(items, format)
  {
    assert (items + [item])[..|items|] == items;
  }

  /**
   * A contributing item overwrites its column with its own series (the last
   * writer wins), appends the column only if it is new, leaves every other column
   * alone, and its dates become the frame index.
   */
  lemma LastContributorWins<V>(items: seq<Item<V>>, item: Item<V>, format: string)
    requires Collect(items, format).Success?
    requires Contributes(item)
    requires forall k :: 0 <= k < |item.fields[item.metaType[0]]| ==> format in item.fields[item.metaType[0]][k].reportedValue
    ensures var after := Collect(items + [item], format);
      var before := Collect(items, format).value;
      var column := item.metaType[0];
      var data := item.fields[column];
      after.Success?
      && after.value.datedIndex == Some(Dates(data))
      && after.value.row[column].labels == Dates(data)
      && (forall k :: 0 <= k < |data| ==> after.value.row[column].values[k] == data[k].reportedValue[format])
      && (forall c :: c in before.row && c != column ==> c in after.value.row && after.value.row[c] == before.row[c])
      && (column in before.row ==> after.value.order == before.order)
      && (column !in before.row ==> after.value.order == before.order + [column])
  {
    assert (items + [item])[..|items|] == items;
  }

  /** A response in which no item carries its field makes the call fail instead of returning a frame. */
  lemma {:induction false} NoContributorLeavesIndexUnbound<V>(response: seq<Item<V>>, format: string)
    requires forall k :: 0 <= k < |response| ==> |response[k].metaType| > 0 && !Contributes(response[k])
    ensures Collect(response, format) == Success(Accumulator(map[], [], None))
    ensures Extracted(response, format) == Failure(NoContributingItem)
  {
    if |response| > 0 {
      var prefix := response[..|response| - 1];
      NoContributorLeavesIndexUnbound(prefix, format);
    }
  }

  /** With distinct labels, a series reads back its own values under its own labels. */
  lemma {:induction false} LookupDistinctLabels<V>(series: Series<V>, p: nat)
    requires |series.labels| == |series.values|
    requires p < |series.labels|
    requires Distinct(series.labels)
    decreases p
    ensures Lookup(series, series.labels[p]) == Some(series.values[p])
  {
    if p > 0 {
      var rest := Series(series.labels[1..], series.values[1..]);
      assert rest.labels[p - 1] == series.labels[p];
      LookupDistinctLabels(rest, p - 1);
    }
  }

  /**
   * With distinct dates, a series aligned on any index reads back its own value
   * under each date it carries, and NaN under any other date.
   */
  lemma AlignedDistinctLabels<V>(series: Series<V>, index: seq<string>, r: nat)
    requires |series.labels| == |series.values| && r < |index|
    requires Distinct(series.labels)
    ensures index[r] !in series.labels ==> Aligned(series, index, r) == None
    ensures forall p :: 0 <= p < |series.labels| && series.labels[p] == index[r] ==> Aligned(series, index, r) == Some(series.values[p])
  {
    forall p | 0 <= p < |series.labels| && series.labels[p] == index[r]
      ensures Aligned(series, index, r) == Some(series.values[p])
    {
      LookupDistinctLabels(series, p);
    }
  }

  /**
   * The column of the last contributing item holds that item's values row by row,
   * whatever its dates: they are the frame's index, so its series is not reindexed.
   */
  lemma LastContributorKeepsItsRows<V>(items: seq<Item<V>>, item: Item<V>, format: string)
    requires Collect(items, format).Success?
    requires Contributes(item)
    requires forall k :: 0 <= k < |item.fields[item.metaType[0]]| ==> format in item.fields[item.metaType[0]][k].reportedValue
    ensures var data := item.fields[item.metaType[0]];
      var r := Extracted(items + [item], format);
      r.Success? && r.value.index == Dates(data) && item.metaType[0] in r.value.columns
      && forall k :: 0 <= k < |data| ==>
           r.value.cells[k][IndexOf(r.value.columns, item.metaType[0])] == Some(data[k].reportedValue[format])
  {
    var column := item.metaType[0];
    var data := item.fields[column];
    LastContributorWins(items, item, format);
    var acc := Collect(items + [item], format).value;
    assert acc.datedIndex == Some(Dates(data));
    assert column in acc.row;
    var df := Frame(acc, Dates(data));
    assert Extracted(items + [item], format) == Success(df);
    var c := IndexOf(acc.order, column);
    forall k | 0 <= k < |data|
      ensures df.cells[k][c] == Some(data[k].reportedValue[format])
    {
      assert df.cells[k][c] == Aligned(acc.row[column], Dates(data), k);
    }
  }

  /**
   * A response with one contributing item gives a one-column frame indexed by its
   * dates and holding its values row by row, repeated dates included.
   */
  lemma SingleItemFrame<V>(item: Item<V>, format: string)
    requires Contributes(item)
    requires forall k :: 0 <= k < |item.fields[item.metaType[0]]| ==> format in item.fields[item.metaType[0]][k].reportedValue
    ensures var data := item.fields[item.metaType[0]];
      var r := Extracted([item], format);
      r.Success? && r.value.columns == [item.metaType[0]] && r.value.index == Dates(data)
      && forall k :: 0 <= k < |data| ==> r.value.cells[k] == [Some(data[k].reportedValue[format])]
  {
    var column := item.metaType[0];
    var data := item.fields[column];
    assert [] + [item] == [item];
    LastContributorWins([], item, format);
    LastContributorKeepsItsRows([], item, format);
    var acc := Collect([item], format).value;
    assert acc.order == [column];
    var df := Extracted([item], format).value;
    assert df.columns == [column];
    forall k | 0 <= k < |data|
      ensures df.cells[k] == [Some(data[k].reportedValue[format])]
    {
      assert |df.cells[k]| == 1;
    }
  }

  // ---------------------------------------------------------------------------
  // _transform_df_for_plotting
  // ---------------------------------------------------------------------------

  /** `FieldNotExists`, carrying the frame's columns and the prefixed field that was asked for. */
  datatype TransformError = FieldNotExists(availableFields: seq<string>, givenField: string)

  /** Position of the first requested field that is not a column. */
  function FirstMissing(fields: seq<string>, columns: seq<string>): (r: Option<nat>)
    ensures r.None? <==> forall k :: 0 <= k < |fields| ==> fields[k] in columns
    ensures r.Some? ==> (r.value < |fields| && fields[r.value] !in columns
                         && forall j :: 0 <= j < r.value ==> fields[j] in columns)
  {
    if |fields| == 0 then None
    else if fields[0] !in columns then Some(0)
    else match FirstMissing(fields[1..], columns)
      case None => None
      case Some(k) => Some(k + 1)
  }

  /** `group_by == "timeframe"` puts the dates on the columns; any other value keeps the fields there. */
  function Arranged<V>(df: DataFrame<V>, groupBy: string): (arranged: DataFrame<V>)
    requires WellShaped(df)
    ensures WellShaped(arranged)
    ensures groupBy == "timeframe" ==> arranged == Transposed(df)
    ensures groupBy != "timeframe" ==> arranged == df
  {
    if groupBy == "timeframe" then Transposed(df) else df
  }

  /** The frame `_transform_df_for_plotting` returns, or the error it raises. */
  function PlotFrame<V>(df: DataFrame<V>, groupBy: string, fieldsToInclude: seq<string>, frequency: string): (r: Result<DataFrame<V>, TransformError>)
    requires WellShaped(df)
    ensures r.Failure? <==> exists k :: 0 <= k < |fieldsToInclude| && frequency + fieldsToInclude[k] !in df.columns
    ensures r.Failure? ==> (exists k :: 0 <= k < |fieldsToInclude| && frequency + fieldsToInclude[k] !in df.columns
                                     && r.error == FieldNotExists(df.columns, frequency + fieldsToInclude[k])
                                     && forall j :: 0 <= j < k ==> frequency + fieldsToInclude[j] in df.columns)
    ensures r.Success? ==> WellShaped(r.value)
  {
    var fields := Prefixed(frequency, fieldsToInclude);
    match FirstMissing(fields, df.columns)
    case Some(k) => Failure(FieldNotExists(df.columns, fields[k]))
    case None => Success(Arranged(DropNa(Select(df, fields)), groupBy))
  }

  /** `_transform_df_for_plotting`: the two checking loops, then select, drop missing rows, and transpose on request. */
  method TransformForPlotting<V>(df: DataFrame<V>, groupBy: string, fieldsToInclude: seq<string>, frequency: string)
    returns (r: Result<DataFrame<V>, TransformError>)
    requires WellShaped(df)
    ensures r == PlotFrame(df, groupBy, fieldsToInclude, frequency)
  {
    var fields := Prefixed(frequency, fieldsToInclude);
    for k := 0 to |fields|
      invariant forall j :: 0 <= j < k ==> fields[j] in df.columns
    {
      if fields[k] !in df.columns {
        return Failure(FieldNotExists(df.columns, fields[k]));
      }
    }
    // The second check (a `ValueError`) repeats the first one and can never fire.
    for k := 0 to |fields|
    {
      if fields[k] !in df.columns {
        assert false;
      }
    }
    var selected := Select(df, fields);
    var dropped := DropNa(selected);
    if groupBy == "timeframe" {
      r := Success(Transposed(dropped));
    } else {
      r := Success(dropped);
    }
  }

  /**
   * The plotted frame has no missing cell, and its columns (or, grouped by
   * timeframe, its rows) carry requested fields only; on a frame whose column
   * labels are distinct they are exactly the requested fields, in order.
   */
  lemma PlotFrameShape<V>(df: DataFrame<V>, groupBy: string, fieldsToInclude: seq<string>, frequency: string)
    requires WellShaped(df)
    requires PlotFrame(df, groupBy, fieldsToInclude, frequency).Success?
    ensures var out := PlotFrame(df, groupBy, fieldsToInclude, frequency).value;
      groupBy != "timeframe" ==> (forall r :: 0 <= r < |out.cells| ==> Complete(out.cells[r]))
    ensures var out := PlotFrame(df, groupBy, fieldsToInclude, frequency).value;
      groupBy != "timeframe" ==> forall k :: 0 <= k < |out.columns| ==> out.columns[k] in Prefixed(frequency, fieldsToInclude)
    ensures var out := PlotFrame(df, groupBy, fieldsToInclude, frequency).value;
      groupBy == "timeframe" ==> forall k :: 0 <= k < |out.index| ==> out.index[k] in Prefixed(frequency, fieldsToInclude)
    ensures var out := PlotFrame(df, groupBy, fieldsToInclude, frequency).value;
      Distinct(df.columns) && groupBy != "timeframe" ==> out.columns == Prefixed(frequency, fieldsToInclude)
    ensures var out := PlotFrame(df, groupBy, fieldsToInclude, frequency).value;
      Distinct(df.columns) && groupBy == "timeframe" ==> out.index == Prefixed(frequency, fieldsToInclude)
  {
    var fields := Prefixed(frequency, fieldsToInclude);
    DropNaRowsAreComplete(Select(df, fields));
    if Distinct(df.columns) {
      SelectDistinct(df, fields);
    }
  }

  /** A frame built by `extract_dataframe` and then plotted has exactly the requested fields as its columns. */
  lemma ExtractedFramePlotsRequestedFields<V>(response: seq<Item<V>>, format: string, fieldsToInclude: seq<string>, frequency: string)
    requires Extracted(response, format).Success?
    requires PlotFrame(Extracted(response, format).value, "field", fieldsToInclude, frequency).Success?
    ensures PlotFrame(Extracted(response, format).value, "field", fieldsToInclude, frequency).value.columns
         == Prefixed(frequency, fieldsToInclude)
  {
    PlotFrameShape(Extracted(response, format).value, "field", fieldsToInclude, frequency);
  }

  /** Grouping by timeframe gives exactly the transpose of grouping by field. */
  lemma TimeframeIsTransposeOfField<V>(df: DataFrame<V>, fieldsToInclude: seq<string>, frequency: string)
    requires WellShaped(df)
    requires PlotFrame(df, "field", fieldsToInclude, frequency).Success?
    ensures PlotFrame(df, "timeframe", fieldsToInclude, frequency).Success?
    ensures PlotFrame(df, "timeframe", fieldsToInclude, frequency).value
         == Transposed(PlotFrame(df, "field", fieldsToInclude, frequency).value)
  {
  }

  /** A field the frame does not have is reported with its frequency prefix and the frame's columns. */
  lemma UnknownFieldRejected<V>(df: DataFrame<V>, groupBy: string, field: string, frequency: string)
    requires WellShaped(df)
    requires frequency + field !in df.columns
    ensures PlotFrame(df, groupBy, [field], frequency) == Failure(FieldNotExists(df.columns, frequency + field))
  {
  }
}
